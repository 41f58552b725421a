/** The group parser (CompilerCore/Parser/GroupParser.swift): a
    parenthesised, comma-separated list of items, each read by an item
    parser the caller supplies (by default the owner's next-expression
    parser, which is defined outside the modelled files). */
module GroupParser {
  import opened Results
  import opened Tokens
  import opened Scanners
  import opened Expressions
  import opened ParserCore
  import opened LiteralParsers

  type ItemParser = PState -> PResult<Expression>

  /** A successful item parse stays on the same tokens and never moves
      back. */
  ghost predicate Forward(item: ItemParser)
  {
    forall st :: item(st).Ok? ==>
      item(st).value.at.sc.input == st.sc.input && item(st).value.at.sc.index >= st.sc.index
  }

  /** GroupParser.test(scanner:): the next token is `(`. */
  function GroupTest(sc: Scanner<Token>): (r: bool)
    ensures r <==> Available(sc) && IsSymbol(sc.input[sc.index], LeftParen)
  {
    Test(sc, [Sym(LeftParen)], false)
  }

  /** GroupParser.parse(scanner:owner:parseFn:). The `(` is taken without
      looking at it; the group is located where that token was. */
  function ParseGroup(st: PState, item: ItemParser): (r: PResult<Expression>)
    requires Forward(item)
    ensures !Available(st.sc) ==> r.Abort?
    ensures r.Ok? ==>
      && r.value.value.Group? && r.value.value.location == ParserCore.Location(st.sc)
      && r.value.at.sc.input == st.sc.input && r.value.at.sc.index >= st.sc.index + 2
      && IsSymbol(st.sc.input[r.value.at.sc.index - 1], RightParen)
  {
    var location := ParserCore.Location(st.sc);
    match Next(st, 1)
    case None => Abort
    case Some((_, st1)) => GroupLoop(st1, item, [], location)
  }

  /** Taking the closing `)` after the loop; at the end of the stream this
      advance traps. */
  function Close(st: PState, items: seq<Expression>, location: Mark): (r: PResult<Expression>)
    ensures r.Abort? <==> !Available(st.sc)
    ensures r.Ok? ==> r == Ok(Step(Group(items, location), st.(sc := Cursor(st.sc.input, st.sc.index + 1))))
  {
    match Next(st, 1)
    case None => Abort
    case Some((_, st1)) => Ok(Step(Group(items, location), st1))
  }

  /** The `groupParser` loop with `items` read so far. */
  function GroupLoop(st: PState, item: ItemParser, items: seq<Expression>, location: Mark): (r: PResult<Expression>)
    requires Forward(item)
    ensures !Available(st.sc) ==> r.Abort?
    ensures Available(st.sc) && IsSymbol(st.sc.input[st.sc.index], RightParen) ==>
      r == Ok(Step(Group(items, location), st.(sc := Cursor(st.sc.input, st.sc.index + 1))))
    ensures r.Ok? ==>
      && r.value.value.Group? && r.value.value.location == location
      && items <= r.value.value.items
      && r.value.at.sc.input == st.sc.input && r.value.at.sc.index > st.sc.index
      && IsSymbol(st.sc.input[r.value.at.sc.index - 1], RightParen)
    decreases |st.sc.input| - st.sc.index
  {
    if !Available(st.sc) || Test(st.sc, [Sym(RightParen)], false) then Close(st, items, location)
    else
      var s :- item(st);
      if Test(s.at.sc, [Sym(Comma)], false) then
        GroupLoop(s.at.(sc := Cursor(s.at.sc.input, s.at.sc.index + 1)), item, items + [s.value], location)
      else if Test(s.at.sc, [Sym(RightParen)], false) then Close(s.at, items + [s.value], location)
      else Unexpected(s.at)
  }

  // ---------------------------------------------------------------------
  // Properties

  /** `()` is the empty group, located at the `(`, whatever the item
      parser. */
  lemma EmptyGroup(st: PState, item: ItemParser)
    requires Forward(item)
    requires st.sc.index + 2 <= |st.sc.input| && IsSymbol(st.sc.input[st.sc.index + 1], RightParen)
    ensures ParseGroup(st, item)
            == Ok(Step(Group([], st.sc.input[st.sc.index].mark), st.(sc := Cursor(st.sc.input, st.sc.index + 2))))
  {
  }

  /** The string parser is a valid item parser. */
  lemma StringItemsForward()
    ensures Forward(ParseString)
  {
  }

  /** The tokens after `(` of a list of items: the items separated by
      commas, with an optional trailing comma, then `)`. */
  function Listed(items: seq<Token>, trailing: bool): (r: seq<Token>)
    ensures |r| > 0 && r[|r| - 1] == Sym(RightParen)
  {
    if items == [] then [Sym(RightParen)]
    else if |items| == 1 then [items[0]] + (if trailing then [Sym(Comma)] else []) + [Sym(RightParen)]
    else [items[0], Sym(Comma)] + Listed(items[1..], trailing)
  }

  predicate AllStrings(items: seq<Token>)
  {
    forall i :: 0 <= i < |items| ==> items[i].StringLit?
  }

  /** The string expressions the given string tokens stand for, in order. */
  function StringsOf(items: seq<Token>): (r: seq<Expression>)
    requires AllStrings(items)
  {
    if items == [] then [] else [StringExpr(items[0].text, items[0].mark)] + StringsOf(items[1..])
  }

  /** Item `i` of the group is the string of token `i`. */
  lemma {:induction false} StringsOfItems(items: seq<Token>)
    requires AllStrings(items)
    ensures |StringsOf(items)| == |items|
    ensures forall i :: 0 <= i < |items| ==> StringsOf(items)[i] == StringExpr(items[i].text, items[i].mark)
  {
    if items != [] {
      StringsOfItems(items[1..]);
    }
  }

  /** A group of string literals is read as the group of those strings, in
      source order, whether or not the list ends in a comma, consuming the
      whole list. */
  lemma GroupOfStrings(st: PState, items: seq<Token>, trailing: bool)
    requires AllStrings(items)
    requires var i := st.sc.index;
      && i + 1 + |Listed(items, trailing)| <= |st.sc.input|
      && st.sc.input[i + 1..i + 1 + |Listed(items, trailing)|] == Listed(items, trailing)
    ensures (StringItemsForward();
      var r := ParseGroup(st, ParseString);
      && r.Ok? && r.value.value == Group(StringsOf(items), st.sc.input[st.sc.index].mark)
      && Moved(st, r.value.at, 1 + |Listed(items, trailing)|))
  {
    StringItemsForward();
    var i := st.sc.index;
    var inside := st.(sc := Cursor(st.sc.input, i + 1));
    ListedSpells(st.sc.input, i + 1, items, trailing);
    LoopOfStrings(inside, items, trailing, [], st.sc.input[i].mark);
    StringGroupOpens(st);
    assert [] + StringsOf(items) == StringsOf(items);
  }

  /** The group starts by taking the `(` and entering the loop. */
  lemma StringGroupOpens(st: PState)
    requires st.sc.index < |st.sc.input|
    ensures (StringItemsForward();
      ParseGroup(st, ParseString)
      == GroupLoop(st.(sc := Cursor(st.sc.input, st.sc.index + 1)), ParseString, [], st.sc.input[st.sc.index].mark))
  {
    StringItemsForward();
    assert Next(st, 1) == Some((st.sc.input[st.sc.index], st.(sc := Cursor(st.sc.input, st.sc.index + 1))));
  }

  /** The number of tokens in `Listed` for `n` items. */
  function ListedLength(n: nat, trailing: bool): nat
  {
    if n == 0 then 1 else 2 * n + (if trailing then 1 else 0)
  }

  /** `Listed(items, trailing)` appears at position `i`, stated token by
      token. */
  predicate Spells(input: seq<Token>, i: nat, items: seq<Token>, trailing: bool)
    decreases |items|
  {
    if items == [] then i < |input| && input[i] == Sym(RightParen)
    else if |items| == 1 then
      if trailing then i + 2 < |input| && input[i] == items[0] && input[i + 1] == Sym(Comma) && input[i + 2] == Sym(RightParen)
      else i + 1 < |input| && input[i] == items[0] && input[i + 1] == Sym(RightParen)
    else i + 1 < |input| && input[i] == items[0] && input[i + 1] == Sym(Comma) && Spells(input, i + 2, items[1..], trailing)
  }

  /** A slice equal to `Listed(items, trailing)` spells it token by token. */
  lemma {:induction false} ListedSpells(input: seq<Token>, i: nat, items: seq<Token>, trailing: bool)
    requires i + |Listed(items, trailing)| <= |input| && input[i..i + |Listed(items, trailing)|] == Listed(items, trailing)
    ensures Spells(input, i, items, trailing) && |Listed(items, trailing)| == ListedLength(|items|, trailing)
    decreases |items|
  {
    var l := Listed(items, trailing);
    if items == [] {
      SliceAt(input, i, l, 0);
    } else if |items| == 1 {
      SliceAt(input, i, l, 0);
      SliceAt(input, i, l, 1);
      if trailing {
        SliceAt(input, i, l, 2);
      }
    } else {
      ListedHead(input, i, items, trailing);
      ListedSpells(input, i + 2, items[1..], trailing);
    }
  }

  lemma {:induction false} LoopOfStrings(st: PState, items: seq<Token>, trailing: bool, acc: seq<Expression>, location: Mark)
    requires AllStrings(items) && Spells(st.sc.input, st.sc.index, items, trailing)
    ensures (StringItemsForward();
      var r := GroupLoop(st, ParseString, acc, location);
      && r.Ok? && r.value.value == Group(acc + StringsOf(items), location)
      && Moved(st, r.value.at, ListedLength(|items|, trailing)))
    decreases |items|, 1
  {
    StringItemsForward();
    if items == [] {
      StepClose(st, acc, location);
      assert acc + StringsOf(items) == acc;
    } else if |items| == 1 {
      LoopOfOneString(st, items[0], trailing, acc, location);
      assert StringsOf(items) == [StringExpr(items[0].text, items[0].mark)];
    } else {
      LoopOfMoreStrings(st, items, trailing, acc, location);
    }
  }

  lemma {:induction false} LoopOfMoreStrings(st: PState, items: seq<Token>, trailing: bool, acc: seq<Expression>, location: Mark)
    requires AllStrings(items) && |items| > 1 && Spells(st.sc.input, st.sc.index, items, trailing)
    ensures (StringItemsForward();
      var r := GroupLoop(st, ParseString, acc, location);
      && r.Ok? && r.value.value == Group(acc + StringsOf(items), location)
      && Moved(st, r.value.at, ListedLength(|items|, trailing)))
    decreases |items|, 0
  {
    StringItemsForward();
    AllStringsTail(items);
    var e := StringExpr(items[0].text, items[0].mark);
    var st2 := st.(sc := Cursor(st.sc.input, st.sc.index + 2));
    StepComma(st, acc, location);
    LoopOfStrings(st2, items[1..], trailing, acc + [e], location);
    assert StringsOf(items) == [e] + StringsOf(items[1..]);
    Associative(acc, [e], StringsOf(items[1..]));
  }

  /** Where a list of two or more items is spelled, the first item and a
      comma come first, then the spelling of the rest. */
  lemma ListedHead(input: seq<Token>, i: nat, items: seq<Token>, trailing: bool)
    requires |items| > 1
    requires i + |Listed(items, trailing)| <= |input| && input[i..i + |Listed(items, trailing)|] == Listed(items, trailing)
    ensures var rest := Listed(items[1..], trailing);
      && |Listed(items, trailing)| == 2 + |rest|
      && input[i] == items[0] && input[i + 1] == Sym(Comma)
      && input[i + 2..i + 2 + |rest|] == rest
  {
    var l := Listed(items, trailing);
    var rest := Listed(items[1..], trailing);
    assert l == [items[0], Sym(Comma)] + rest;
    SliceAt(input, i, l, 0);
    SliceAt(input, i, l, 1);
    SliceTail(input, i, l, 2);
    assert l[2..] == rest;
  }

  lemma AllStringsTail(items: seq<Token>)
    requires AllStrings(items) && items != []
    ensures items[0].StringLit? && AllStrings(items[1..])
  {
    assert forall k :: 0 <= k < |items| - 1 ==> items[1..][k] == items[k + 1];
  }

  lemma Associative<T>(a: seq<T>, b: seq<T>, c: seq<T>)
    ensures a + b + c == a + (b + c)
  {
  }

  lemma SliceAt<T>(input: seq<T>, i: nat, l: seq<T>, k: nat)
    requires i + |l| <= |input| && input[i..i + |l|] == l && k < |l|
    ensures input[i + k] == l[k]
  {
    assert input[i..i + |l|][k] == input[i + k];
  }

  lemma SliceTail<T>(input: seq<T>, i: nat, l: seq<T>, k: nat)
    requires i + |l| <= |input| && input[i..i + |l|] == l && k <= |l|
    ensures input[i + k..i + |l|] == l[k..]
  {
    assert input[i + k..i + |l|] == input[i..i + |l|][k..];
  }

  lemma LoopOfOneString(st: PState, item: Token, trailing: bool, acc: seq<Expression>, location: Mark)
    requires item.StringLit? && Spells(st.sc.input, st.sc.index, [item], trailing)
    ensures (StringItemsForward();
      var r := GroupLoop(st, ParseString, acc, location);
      && r.Ok? && r.value.value == Group(acc + [StringExpr(item.text, item.mark)], location)
      && Moved(st, r.value.at, ListedLength(1, trailing)))
  {
    StringItemsForward();
    var e := StringExpr(item.text, item.mark);
    if trailing {
      StepComma(st, acc, location);
      StepClose(st.(sc := Cursor(st.sc.input, st.sc.index + 2)), acc + [e], location);
    } else {
      StepLast(st, acc, location);
    }
  }

  /** A string followed by `,` is taken with the comma, and the loop goes on. */
  lemma StepComma(st: PState, acc: seq<Expression>, location: Mark)
    requires var i := st.sc.index;
      i + 1 < |st.sc.input| && st.sc.input[i].StringLit? && st.sc.input[i + 1] == Sym(Comma)
    ensures (StringItemsForward();
      var t := st.sc.input[st.sc.index];
      GroupLoop(st, ParseString, acc, location)
      == GroupLoop(st.(sc := Cursor(st.sc.input, st.sc.index + 2)), ParseString, acc + [StringExpr(t.text, t.mark)], location))
  {
    StringItemsForward();
    var s := ParseString(st).value;
    assert s.at == st.(sc := Cursor(st.sc.input, st.sc.index + 1));
    assert Test(s.at.sc, [Sym(Comma)], false);
  }

  /** A string followed by `)` ends the group. */
  lemma StepLast(st: PState, acc: seq<Expression>, location: Mark)
    requires var i := st.sc.index;
      i + 1 < |st.sc.input| && st.sc.input[i].StringLit? && st.sc.input[i + 1] == Sym(RightParen)
    ensures (StringItemsForward();
      var t := st.sc.input[st.sc.index];
      GroupLoop(st, ParseString, acc, location)
      == Ok(Step(Group(acc + [StringExpr(t.text, t.mark)], location), st.(sc := Cursor(st.sc.input, st.sc.index + 2)))))
  {
    StringItemsForward();
    var s := ParseString(st).value;
    assert s.at == st.(sc := Cursor(st.sc.input, st.sc.index + 1));
    assert !Test(s.at.sc, [Sym(Comma)], false);
    assert Test(s.at.sc, [Sym(RightParen)], false);
  }

  /** A `)` ends the group. */
  lemma StepClose(st: PState, acc: seq<Expression>, location: Mark)
    requires st.sc.index < |st.sc.input| && st.sc.input[st.sc.index] == Sym(RightParen)
    ensures (StringItemsForward();
      GroupLoop(st, ParseString, acc, location)
      == Ok(Step(Group(acc, location), st.(sc := Cursor(st.sc.input, st.sc.index + 1)))))
  {
    StringItemsForward();
  }

  /** An item followed by something other than `,` or `)` is an error that
      names the offending token, which has been consumed; `(` and an item
      with nothing after them trap at the final advance. */
  lemma GroupErrors(m: Mark, a: string, b: string, table: SymbolTables.SymbolTable<Nodes.Node>)
    ensures (StringItemsForward();
      var bad := [Sym(LeftParen), StringLit(a, m), StringLit(b, m), Sym(RightParen)];
      ParseGroup(PState(Cursor(bad, 0), table), ParseString)
        == Fail(Fault(ParserError(m, UnexpectedTokenEncountered(StringLit(b, m))), PState(Cursor(bad, 3), table))))
    ensures (StringItemsForward();
      var open := [Sym(LeftParen), StringLit(a, m)];
      ParseGroup(PState(Cursor(open, 0), table), ParseString).Abort?)
  {
    StringItemsForward();
  }
}
