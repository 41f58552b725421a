/** The type parser (CompilerCore/Parser/TypeParser.swift): a greedy reader
    that keeps taking tokens while the tokens taken so far still spell a
    type, then resolves them. */
module TypeParser {
  import opened Results
  import opened Tokens
  import opened Scanners
  import opened Types
  import opened Nodes
  import opened Expressions
  import opened ParserCore

  predicate IsStar(t: Token)
  {
    t.SymbolTok? && t.symbol == Star
  }

  /** A token a type may start with: an identifier or `*`. */
  predicate StartsType(t: Token)
  {
    t.Identifier? || IsStar(t)
  }

  /** TypeParser.test(for:). */
  function TypeTest(sc: Scanner<Token>): (r: bool)
    ensures r <==> Available(sc) && (sc.input[sc.index].Identifier? || IsStar(sc.input[sc.index]))
  {
    match CurrentToken(sc)
    case Some(t) => StartsType(t)
    case None => false
  }

  /** The token a type must start with to be read at all: an identifier
      naming one of the base types. */
  predicate NamesBase(t: Token)
  {
    t.Identifier? && BaseNamed(t.text).Some?
  }

  /** The `while` loop of `parse`: `input[start..j]` has been taken; return
      where taking stops. A token is taken only if the scanner's `test` holds
      and the tokens taken so far plus that token still resolve. */
  function Greedy(input: seq<Token>, start: nat, j: nat): (e: nat)
    requires start <= j <= |input|
    requires j > start ==> ValidTypeTokens(input[start..j])
    ensures j <= e <= |input|
    ensures e > start ==> ValidTypeTokens(input[start..e])
    ensures e < |input| ==> !(StartsType(input[e]) && ValidTypeTokens(input[start..e + 1]))
    decreases |input| - j
  {
    if j < |input| && StartsType(input[j]) && Resolve(input[start..j + 1]).Ok? then
      Greedy(input, start, j + 1)
    else j
  }

  /** TypeParser.parse(from:ast:). Taking nothing leaves `Type.resolve` an
      empty list, which traps; otherwise the taken tokens always resolve, so
      the parser never throws. */
  function ParseType(st: PState): (r: PResult<Node>)
    ensures !r.Fail?
    ensures r.Abort? <==> !(Available(st.sc) && NamesBase(st.sc.input[st.sc.index]))
    ensures r.Ok? ==>
      var k := r.value.at.sc.index - st.sc.index;
      && k > 0 && Moved(st, r.value.at, k)
      && Resolve(st.sc.input[st.sc.index..st.sc.index + k]) == Ok(ValueType(r.value.value))
      && r.value.value.kind == TypeNode(ValueType(r.value.value), Unknown)
      && r.value.value.location == Unknown && r.value.value.children == []
      && (st.sc.index + k < |st.sc.input| ==> !IsStar(st.sc.input[st.sc.index + k]))
  {
    var input := st.sc.input;
    var start := st.sc.index;
    var e := Greedy(input, start, start);
    if e == start then
      assert Available(st.sc) ==> input[start..start + 1] == [input[start]];
      Abort
    else
      var t := Resolve(input[start..e]).value;
      StarExtends(input, start, e);
      Ok(Step(NewType(t, Unknown), st.(sc := Cursor(input, e))))
  }

  /** A type spelling followed by `*` still spells a type. */
  lemma StarExtends(input: seq<Token>, start: nat, e: nat)
    requires start < e <= |input| && ValidTypeTokens(input[start..e])
    ensures e < |input| && IsStar(input[e]) ==> ValidTypeTokens(input[start..e + 1])
  {
    if e < |input| {
      assert input[start..e + 1][1..] == input[start..e][1..] + [input[e]];
    }
  }

  /** The expression form of the type parser that the constant parser calls
      (`TypeParser.parse(scanner:owner:)`, which is defined outside
      the modelled files): the same reader, producing a type expression with an unknown
      location. */
  function ParseTypeExpr(st: PState): (r: PResult<Expression>)
    ensures !r.Fail?
    ensures r.Abort? <==> ParseType(st).Abort?
    ensures r.Ok? ==>
      && r.value.at == ParseType(st).value.at
      && r.value.value == TypeExpr(ValueType(ParseType(st).value.value), Unknown)
  {
    var s :- ParseType(st);
    Ok(Step(TypeExpr(ValueType(s.value), Unknown), s.at))
  }

  // ---------------------------------------------------------------------
  // Properties

  /** The number of consecutive `*` tokens from position `i` on. */
  function StarRun(input: seq<Token>, i: nat): (n: nat)
    requires i <= |input|
    ensures i + n <= |input|
    decreases |input| - i
  {
    if i < |input| && IsStar(input[i]) then 1 + StarRun(input, i + 1) else 0
  }

  lemma {:induction false} StarRunSpan(input: seq<Token>, i: nat)
    requires i <= |input|
    ensures AllStars(input[i..i + StarRun(input, i)])
    ensures i + StarRun(input, i) < |input| ==> !IsStar(input[i + StarRun(input, i)])
    decreases |input| - i
  {
    if i < |input| && IsStar(input[i]) {
      StarRunSpan(input, i + 1);
      assert input[i..i + StarRun(input, i)] == [input[i]] + input[i + 1..i + 1 + StarRun(input, i + 1)];
    }
  }

  /** The parser reads exactly the base name and the run of stars after it,
      and the node's type is the base under one pointer per star: the
      reference reading of a type, independent of the greedy loop. */
  lemma ParseTypeReadsBaseAndStars(st: PState)
    requires ParseType(st).Ok?
    ensures var input := st.sc.input;
      var i := st.sc.index;
      var n := StarRun(input, i + 1);
      && ParseType(st).value.at.sc.index == i + 1 + n
      && ValueType(ParseType(st).value.value) == PointerTo(BaseNamed(input[i].text).value, n)
  {
    var input := st.sc.input;
    var i := st.sc.index;
    var r := ParseType(st);
    var k := r.value.at.sc.index - i;
    var taken := input[i..i + k];
    assert ValidTypeTokens(taken);
    assert taken[0] == input[i];
    StarRunSpan(input, i + 1);
    var n := StarRun(input, i + 1);
    // Every taken token after the first is a star, so the run is at least k - 1 long.
    StarRunCovers(input, i + 1, i + k);
    assert n == k - 1;
    ResolveStars(input[i].text, input[i].mark, taken[1..]);
    assert taken == [Identifier(input[i].text, input[i].mark)] + taken[1..];
  }

  /** A run of stars from `i` to `j` that is not followed by a star is the
      whole star run from `i`. */
  lemma {:induction false} StarRunCovers(input: seq<Token>, i: nat, j: nat)
    requires i <= j <= |input|
    requires AllStars(input[i..j])
    requires j < |input| ==> !IsStar(input[j])
    ensures StarRun(input, i) == j - i
    decreases j - i
  {
    if i < j {
      assert input[i..j][0] == input[i];
      assert input[i + 1..j] == input[i..j][1..];
      StarRunCovers(input, i + 1, j);
    }
  }

  /** Prefix closure: every non-empty prefix of a type spelling spells a type. */
  lemma ValidPrefix(ts: seq<Token>, m: nat)
    requires ValidTypeTokens(ts) && 0 < m <= |ts|
    ensures ValidTypeTokens(ts[..m])
  {
    assert ts[..m][1..] == ts[1..m];
  }

  /** Taking continues up to any spelled type it is given room for. */
  lemma {:induction false} GreedyReaches(input: seq<Token>, start: nat, j: nat, end: nat)
    requires start < j <= end <= |input|
    requires ValidTypeTokens(input[start..end])
    requires ValidTypeTokens(input[start..j])
    ensures Greedy(input, start, j) >= end
    decreases end - j
  {
    if j < end {
      TakesNext(input, start, j, end);
      GreedyReaches(input, start, j + 1, end);
    }
  }

  /** Short of the end of a spelled type, the next token is taken. */
  lemma TakesNext(input: seq<Token>, start: nat, j: nat, end: nat)
    requires start < j < end <= |input|
    requires ValidTypeTokens(input[start..end])
    ensures StartsType(input[j]) && ValidTypeTokens(input[start..j + 1])
  {
    ValidPrefix(input[start..end], j + 1 - start);
    assert input[start..end][..j + 1 - start] == input[start..j + 1];
    assert input[start..j + 1][1..][j - start - 1] == input[j];
  }

  /** Round trip: tokens that spell `t`, followed by anything but `*`, are
      read back as a type node of type `t`, consuming exactly those tokens.
      In particular an identifier after a type is never absorbed. */
  lemma ParseTypeSpelled(st: PState, j: nat, t: Type, n: nat)
    requires j + n <= |st.sc.input|
    requires Resolve(st.sc.input[j..j + n]) == Ok(t)
    requires j + n < |st.sc.input| ==> !IsStar(st.sc.input[j + n])
    ensures var r := ParseType(st.(sc := Cursor(st.sc.input, j)));
      r.Ok? && ValueType(r.value.value) == t && r.value.at == st.(sc := Cursor(st.sc.input, j + n))
  {
    GreedySpelled(st.sc.input, j, t, n);
  }

  /** The tokens taken for a type spelling followed by anything but `*` are
      exactly the spelling. */
  lemma GreedySpelled(input: seq<Token>, j: nat, t: Type, n: nat)
    requires j + n <= |input|
    requires Resolve(input[j..j + n]) == Ok(t)
    requires j + n < |input| ==> !IsStar(input[j + n])
    ensures 0 < n && Greedy(input, j, j) == j + n
  {
    assert input[j..j + n][0] == input[j];
    assert input[j..j + 1] == [input[j]];
    assert ValidTypeTokens(input[j..j + 1]);
    var e := Greedy(input, j, j + 1);
    GreedyReaches(input, j, j + 1, j + n);
    assert Greedy(input, j, j) == e;
    StarsAfterBase(input, j, e, n);
  }

  /** Every token of a type spelling after the first is a star. */
  lemma StarsAfterBase(input: seq<Token>, i: nat, e: nat, n: nat)
    requires i < e <= |input| && ValidTypeTokens(input[i..e]) && 0 < n
    ensures i + n < e ==> IsStar(input[i + n])
  {
    if i + n < e {
      assert input[i..e][1..][n - 1] == input[i + n];
    }
  }

  /** The reader applied to the spelling of any type at position `j`. */
  lemma ParseTypeAt(st: PState, j: nat, t: Type, n: nat)
    requires n == |TypeTokens(t)| && j + n <= |st.sc.input|
    requires st.sc.input[j..j + n] == TypeTokens(t)
    requires j + n < |st.sc.input| ==> !IsStar(st.sc.input[j + n])
    ensures var r := ParseType(st.(sc := Cursor(st.sc.input, j)));
      r.Ok? && r.value.value == NewType(t, Unknown) && r.value.at == st.(sc := Cursor(st.sc.input, j + n))
  {
    ResolveTypeTokens(t);
    ParseTypeSpelled(st, j, t, n);
  }

  /** The type-expression reader applied to the spelling of any type at
      position `j`. */
  lemma ParseTypeExprAt(st: PState, j: nat, t: Type, n: nat)
    requires n == |TypeTokens(t)| && j + n <= |st.sc.input|
    requires st.sc.input[j..j + n] == TypeTokens(t)
    requires j + n < |st.sc.input| ==> !IsStar(st.sc.input[j + n])
    ensures ParseTypeExpr(st.(sc := Cursor(st.sc.input, j)))
      == Ok(Step(TypeExpr(t, Unknown), st.(sc := Cursor(st.sc.input, j + n))))
  {
    ParseTypeAt(st, j, t, n);
  }

  /** `Int * * >` is read as `Int**`, stopping before `>`. */
  lemma StopsBeforeRightAngle(table: SymbolTables.SymbolTable<Node>)
    ensures var input := [Identifier("Int", Unknown), SymbolTok(Star, Unknown), SymbolTok(Star, Unknown),
                          SymbolTok(RightAngle, Unknown)];
      var r := ParseType(PState(Cursor(input, 0), table));
      r.Ok? && ValueType(r.value.value) == Pointer(Pointer(Int)) && r.value.at.sc.index == 3
  {
    var input := [Identifier("Int", Unknown), SymbolTok(Star, Unknown), SymbolTok(Star, Unknown),
                  SymbolTok(RightAngle, Unknown)];
    var st := PState(Cursor(input, 0), table);
    assert input[0..3][1..] == [SymbolTok(Star, Unknown), SymbolTok(Star, Unknown)];
    ResolveStars("Int", Unknown, input[0..3][1..]);
    assert input[0..3] == [Identifier("Int", Unknown)] + input[0..3][1..];
    ParseTypeSpelled(st, st.sc.index, Pointer(Pointer(Int)), 3);
  }

  /** An unknown base name such as `Foo` lets nothing be taken, and the
      resolve of the empty list traps. */
  lemma UnknownBaseTraps(st: PState)
    requires Available(st.sc) && st.sc.input[st.sc.index] == Identifier("Foo", Unknown)
    ensures ParseType(st).Abort?
  {
  }
}
