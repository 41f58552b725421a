/** The function parser (CompilerCore/Parser/FunctionParser.swift):
    `func < ReturnType > name ( parameter, ... )` with an optional body. The
    function is defined in the symbol table before its body is read; the
    body is read in a scope of its own in which the parameters are
    defined. */
module FunctionParser {
  import opened Results
  import opened Tokens
  import opened Scanners
  import opened SymbolTables
  import opened Nodes
  import opened ParserCore
  import opened TypeParser
  import opened ParameterParser
  import opened CodeBlockParser
  import Keywords

  /** The next tokens are the keyword `k` and `<`. */
  predicate Opens(sc: Scanner<Token>, k: Keywords.Keyword)
  {
    sc.index + 1 < |sc.input| && sc.input[sc.index].KeywordTok?
    && sc.input[sc.index].keyword == k && IsSymbol(sc.input[sc.index + 1], LeftAngle)
  }

  /** FunctionParser.test(for:): `func` followed by `<`. */
  function FunctionTest(sc: Scanner<Token>): (r: bool)
    ensures r <==> Opens(sc, Keywords.Func)
  {
    match (Peek(sc, 0), Peek(sc, 1))
    case (Some(a), Some(b)) => a.KeywordTok? && a.keyword == Keywords.Func && IsSymbol(b, LeftAngle)
    case _ => false
  }

  predicate AllParameters(ps: seq<Node>)
  {
    forall i :: 0 <= i < |ps| ==> ps[i].kind.ParameterNode?
  }

  /** The parameter loop, `while scanner.available`: parameters separated
      by commas, up to a `)` that is left for the caller. A trailing comma
      is accepted. */
  function ParameterLoop(st: PState, params: seq<Node>): (r: PResult<seq<Node>>)
    requires AllParameters(params)
    ensures r.Ok? ==>
      && params <= r.value.value && AllParameters(r.value.value)
      && r.value.at.sc.index >= st.sc.index
      && Moved(st, r.value.at, r.value.at.sc.index - st.sc.index)
    ensures !Available(st.sc) || IsSymbol(st.sc.input[st.sc.index], RightParen) ==> r == Ok(Step(params, st))
    decreases |st.sc.input| - st.sc.index, 2
  {
    if !Available(st.sc) then Ok(Step(params, st))
    else ParameterTurn(st, params)
  }

  /** One turn of the loop: it breaks at a `)` and otherwise reads a
      parameter. */
  function ParameterTurn(st: PState, params: seq<Node>): (r: PResult<seq<Node>>)
    requires AllParameters(params) && Available(st.sc)
    ensures r.Ok? ==>
      && params <= r.value.value && AllParameters(r.value.value)
      && r.value.at.sc.index >= st.sc.index
      && Moved(st, r.value.at, r.value.at.sc.index - st.sc.index)
    ensures IsSymbol(st.sc.input[st.sc.index], RightParen) <==> r == Ok(Step(params, st))
    decreases |st.sc.input| - st.sc.index, 1
  {
    if IsSymbol(st.sc.input[st.sc.index], RightParen) then Ok(Step(params, st))
    else ParameterRead(st, params)
  }

  /** The rest of a turn: a parameter, then, after a comma, the next turn;
      anything but a comma ends the loop. */
  function ParameterRead(st: PState, params: seq<Node>): (r: PResult<seq<Node>>)
    requires AllParameters(params)
    ensures r.Ok? ==>
      && |params| < |r.value.value| && params <= r.value.value && AllParameters(r.value.value)
      && r.value.at.sc.index > st.sc.index
      && Moved(st, r.value.at, r.value.at.sc.index - st.sc.index)
    decreases |st.sc.input| - st.sc.index, 0
  {
    var p :- ParseParameter(st);
    if Available(p.at.sc) && IsSymbol(p.at.sc.input[p.at.sc.index], Comma) then
      ParameterLoop(p.at.(sc := Cursor(p.at.sc.input, p.at.sc.index + 1)), params + [p.value])
    else Ok(Step(params + [p.value], p.at))
  }

  /** What precedes the body: the name token, the return type and the
      parameters. */
  datatype Signature = Signature(name: Token, returnType: Node, parameters: seq<Node>)

  /** `k < Type >`, the head shared by function (`func`) and variable
      (`let`) declarations: the prologue is consumed, then the type, then
      the `>`. */
  function ParseHead(st: PState, k: Keywords.Keyword): (r: PResult<Node>)
    ensures r.Ok? ==>
      && Opens(st.sc, k) && r.value.value.kind.TypeNode?
      && st.sc.index + 4 <= r.value.at.sc.index
      && Moved(st, r.value.at, r.value.at.sc.index - st.sc.index)
      && IsSymbol(st.sc.input[r.value.at.sc.index - 1], RightAngle)
  {
    var prologue :- Consume(st, [Kw(k), Sym(LeftAngle)]);
    var rt :- ParseType(prologue.at);
    assert |prologue.value| == 2 by {
      assert prologue.at.sc.index < |st.sc.input|;
    }
    PrologueOpens(st, k);
    ConsumeOne(rt.at, RightAngle);
    var post :- Consume(rt.at, [Sym(RightAngle)]);
    Ok(Step(rt.value, post.at))
  }

  /** A prologue consumed in full is the keyword `k` followed by `<`. */
  lemma PrologueOpens(st: PState, k: Keywords.Keyword)
    requires Consume(st, [Kw(k), Sym(LeftAngle)]).Ok?
    requires |Consume(st, [Kw(k), Sym(LeftAngle)]).value.value| == 2
    ensures Opens(st.sc, k)
  {
    var expected := [Kw(k), Sym(LeftAngle)];
    assert Matches(expected[0], st.sc.input[st.sc.index + 0], false);
    assert Matches(expected[1], st.sc.input[st.sc.index + 1], false);
    MatchesTemplate(st.sc.input[st.sc.index], LeftAngle, k, false);
    MatchesTemplate(st.sc.input[st.sc.index + 1], LeftAngle, k, false);
  }

  /** `( parameter, ... )`. */
  function ParseParameterList(st: PState): (r: PResult<seq<Node>>)
    ensures r.Ok? ==>
      && AllParameters(r.value.value)
      && st.sc.index + 1 <= r.value.at.sc.index
      && Moved(st, r.value.at, r.value.at.sc.index - st.sc.index)
  {
    var open :- Consume(st, [Sym(LeftParen)]);
    var ps :- ParameterLoop(open.at, []);
    var close :- Consume(ps.at, [Sym(RightParen)]);
    Ok(Step(ps.value, close.at))
  }

  /** `func < Type > name ( parameters )`. A name that is not an identifier
      is consumed and then reported as unexpected, located after it. */
  function ParseSignature(st: PState): (r: PResult<Signature>)
    ensures r.Ok? ==>
      var sig := r.value.value;
      && FunctionTest(st.sc)
      && sig.name.Identifier? && sig.returnType.kind.TypeNode? && AllParameters(sig.parameters)
      && st.sc.index + 6 <= r.value.at.sc.index
      && Moved(st, r.value.at, r.value.at.sc.index - st.sc.index)
      && sig.name in st.sc.input[st.sc.index..r.value.at.sc.index]
  {
    var head :- ParseHead(st, Keywords.Func);
    var r := NameAndParameters(head.at, head.value);
    if r.Ok? then
      InSlice(st.sc.input, st.sc.index, head.at.sc.index, r.value.at.sc.index);
      r
    else r
  }

  /** `name ( parameters )` after the head, whose type is `ty`. */
  function NameAndParameters(st: PState, ty: Node): (r: PResult<Signature>)
    ensures r.Ok? ==>
      var sig := r.value.value;
      && st.sc.index + 2 <= r.value.at.sc.index
      && Moved(st, r.value.at, r.value.at.sc.index - st.sc.index)
      && sig.name == st.sc.input[st.sc.index] && sig.name.Identifier?
      && sig.returnType == ty && AllParameters(sig.parameters)
  {
    if !Available(st.sc) then Abort
    else
      var tok := st.sc.input[st.sc.index];
      var named := st.(sc := Cursor(st.sc.input, st.sc.index + 1));
      if !tok.Identifier? then Fail(Fault(ParserError(Location(named.sc), UnexpectedTokenEncountered(tok)), named))
      else
        var ps :- ParseParameterList(named);
        Ok(Step(Signature(tok, ty, ps.value), ps.at))
  }

  lemma InSlice<T>(s: seq<T>, i: nat, k: nat, j: nat)
    requires i <= k < j <= |s|
    ensures s[k] in s[i..j]
  {
    assert s[i..j][k - i] == s[k];
  }

  lemma SliceGrows<T>(s: seq<T>, i: nat, j: nat, k: nat, x: T)
    requires i <= j <= k <= |s| && x in s[i..j]
    ensures x in s[i..k]
  {
    assert s[i..j] <= s[i..k];
  }

  /** FunctionParser.parse(from:ast:). */
  function ParseFunction(st: PState, d: Dispatch): (r: PResult<Node>)
    requires Productive(d)
    ensures r.Ok? ==>
      var n := r.value.value;
      && FunctionTest(st.sc)
      && n.kind.FunctionNode? && n.kind.returnType.kind.TypeNode? && AllParameters(n.kind.parameters)
      && r.value.at.sc.input == st.sc.input && r.value.at.sc.index > st.sc.index
      && Identifier(n.kind.name, n.kind.mark) in st.sc.input[st.sc.index..r.value.at.sc.index]
      && |n.children| <= 1
    ensures r.Ok? && r.value.value.children == [] ==>
      Define(st.table, r.value.value.kind.name, r.value.value) == Some(r.value.at.table)
    ensures r.Ok? && r.value.value.children != [] ==> r.value.value.children[0].kind.CodeBlockNode?
  {
    var sig :- ParseSignature(st);
    var decl := NewFunction(sig.value.name.text, sig.value.returnType, sig.value.parameters, sig.value.name.mark);
    match Define(sig.at.table, sig.value.name.text, decl)
    case None => Abort
    case Some(t1) =>
      var declared := sig.at.(table := t1);
      if !CodeBlockTest(declared.sc) then Ok(Step(decl, declared))
      else
        var r := WithBody(declared, d, decl, sig.value.parameters);
        if r.Ok? then
          SliceGrows(st.sc.input, st.sc.index, sig.at.sc.index, r.value.at.sc.index, sig.value.name);
          var done := r.value.at.(table := Completed(r.value.at.table, sig.value.name.text, decl, r.value.value));
          Ok(Step(r.value.value, done))
        else r
  }

  /** The node defined under `name` is the node the body is added to, so
      once the body is attached the table's entry has it too: every symbol
      of the innermost scope that names `name` as `decl` now names `full`. */
  function Completed(t: SymbolTable<Node>, name: string, decl: Node, full: Node): (r: SymbolTable<Node>)
    ensures |r.scopes| == |t.scopes|
    ensures |t.scopes| > 0 ==>
      && r.scopes[..|t.scopes| - 1] == t.scopes[..|t.scopes| - 1]
      && Find(r, name) == (if Find(t, name) == Some(decl) then Some(full) else Find(t, name))
      && forall other :: other != name ==> Find(r, other) == Find(t, other)
  {
    if |t.scopes| == 0 then t
    else
      var scope := Innermost(t);
      var scope' := seq(|scope|, i requires 0 <= i < |scope| =>
        if scope[i].name == name && scope[i].node == decl then Symbol(name, scope[i].fullName, full) else scope[i]);
      FindInCompleted(scope, scope', name, decl, full);
      var r := SymbolTable(t.scopes[..|t.scopes| - 1] + [scope']);
      assert Innermost(r) == scope';
      r
  }

  lemma {:induction false} FindInCompleted(scope: seq<Symbol<Node>>, scope': seq<Symbol<Node>>, name: string, decl: Node, full: Node)
    requires |scope'| == |scope|
    requires forall i :: 0 <= i < |scope| ==>
      scope'[i] == if scope[i].name == name && scope[i].node == decl then Symbol(name, scope[i].fullName, full) else scope[i]
    ensures FindIn(scope', name) == (if FindIn(scope, name) == Some(decl) then Some(full) else FindIn(scope, name))
    ensures forall other :: other != name ==> FindIn(scope', other) == FindIn(scope, other)
    decreases |scope|
  {
    if scope != [] {
      FindInCompleted(scope[1..], scope'[1..], name, decl, full);
    }
  }

  /** Define each parameter under its own name, in order; a repeated name
      is fatal. */
  function DefineAll(t: SymbolTable<Node>, params: seq<Node>): (r: Option<SymbolTable<Node>>)
    requires AllParameters(params)
    ensures r.Some? ==> SameOuter(r.value, t)
    ensures params == [] ==> (r.Some? <==> |t.scopes| > 0)
    decreases |params|
  {
    if params == [] then (if |t.scopes| > 0 then Some(t) else None)
    else match Define(t, params[0].kind.name, params[0])
      case None => None
      case Some(t1) => DefineAll(t1, params[1..])
  }

  /** The body path: enter a scope, define the parameters, read the block,
      attach it, leave the scope. */
  function WithBody(st: PState, d: Dispatch, decl: Node, params: seq<Node>): (r: PResult<Node>)
    requires Productive(d) && AllParameters(params)
    ensures r.Ok? ==>
      var n := r.value.value;
      && n.kind == decl.kind && n.location == decl.location
      && |n.children| == |decl.children| + 1 && n.children[..|decl.children|] == decl.children
      && n.children[|decl.children|].kind.CodeBlockNode?
      && r.value.at.sc.input == st.sc.input && r.value.at.sc.index > st.sc.index
  {
    match Enter(st.table)
    case None => Abort
    case Some(t2) =>
      match DefineAll(t2, params)
      case None => Abort
      case Some(t3) =>
        var body :- ParseCodeBlock(st.(table := t3), d);
        Ok(Step(AddChild(decl, body.value), body.at.(table := Leave(body.at.table))))
  }

  // ---------------------------------------------------------------------
  // Properties

  /** A binding made before a run of parameter definitions survives it. */
  lemma {:induction false} DefineAllKeeps(t: SymbolTable<Node>, params: seq<Node>, name: string, node: Node)
    requires AllParameters(params) && |t.scopes| > 0 && Find(t, name) == Some(node)
    ensures DefineAll(t, params).Some? ==> Find(DefineAll(t, params).value, name) == Some(node)
    decreases |params|
  {
    if params != [] {
      var t1 := Define(t, params[0].kind.name, params[0]);
      if t1.Some? {
        DefineAllKeeps(t1.value, params[1..], name, node);
      }
    }
  }

  /** Inside the body's scope every parameter is found under its name, as
      itself: a repeated parameter name would have been fatal. */
  lemma {:induction false} ParametersBound(t: SymbolTable<Node>, params: seq<Node>)
    requires AllParameters(params)
    ensures DefineAll(t, params).Some? ==>
      forall i :: 0 <= i < |params| ==> Find(DefineAll(t, params).value, params[i].kind.name) == Some(params[i])
    decreases |params|
  {
    if params != [] && DefineAll(t, params).Some? {
      var t1 := Define(t, params[0].kind.name, params[0]).value;
      var r := DefineAll(t1, params[1..]).value;
      assert DefineAll(t, params) == Some(r);
      ParametersBound(t1, params[1..]);
      DefineAllKeeps(t1, params[1..], params[0].kind.name, params[0]);
      assert Find(r, params[0].kind.name) == Some(params[0]);
      forall i | 1 <= i < |params| ensures Find(r, params[i].kind.name) == Some(params[i]) {
        assert params[i] == params[1..][i - 1];
      }
    }
  }

  /** Net scope balance of a body: with confined statements, the table
      after the body is the table before it. */
  lemma WithBodyBalanced(st: PState, d: Dispatch, decl: Node, params: seq<Node>)
    requires Productive(d) && Confined(d) && AllParameters(params)
    ensures WithBody(st, d, decl, params).Ok? ==> WithBody(st, d, decl, params).value.at.table == st.table
  {
    if |st.table.scopes| > 0 {
      var t2 := Enter(st.table).value;
      var t3 := DefineAll(t2, params);
      if t3.Some? {
        CodeBlockRestoresTable(st.(table := t3.value), d);
        assert t2.scopes[..|t2.scopes| - 1] == st.table.scopes;
      }
    }
  }

  /** The function is defined in the enclosing scope before its body is
      read, and a body leaves the table as the definition left it, the
      defined node having received the body: on success the table is
      exactly the input table with the function's name bound to the
      function returned, body included, and nothing else. */
  lemma FunctionDefinedOnce(st: PState, d: Dispatch)
    requires Productive(d) && Confined(d)
    ensures var r := ParseFunction(st, d);
      r.Ok? ==> Define(st.table, r.value.value.kind.name, r.value.value) == Some(r.value.at.table)
  {
    var r := ParseFunction(st, d);
    if r.Ok? && r.value.value.children != [] {
      var sig := ParseSignature(st).value;
      var name := sig.value.name.text;
      var decl := NewFunction(name, sig.value.returnType, sig.value.parameters, sig.value.name.mark);
      var t1 := Define(sig.at.table, name, decl).value;
      var w := WithBody(sig.at.(table := t1), d, decl, sig.value.parameters);
      WithBodyBalanced(sig.at.(table := t1), d, decl, sig.value.parameters);
      assert w.value.at.table == t1;
      DefineThenComplete(st.table, name, decl, r.value.value);
    }
  }

  /** Completing a node just defined is defining the completed node. */
  lemma {:induction false} DefineThenComplete(t: SymbolTable<Node>, name: string, decl: Node, full: Node)
    requires Define(t, name, decl).Some?
    ensures Completed(Define(t, name, decl).value, name, decl, full) == Define(t, name, full).value
  {
    var inner := Innermost(t);
    assert forall i :: 0 <= i < |inner| ==> inner[i].name != name;
    var a := Innermost(Define(t, name, decl).value);
    assert a == inner + [Symbol(name, name, decl)];
    var c := Completed(Define(t, name, decl).value, name, decl, full);
    assert Innermost(c) == inner + [Symbol(name, name, full)];
  }

  /** `k < T >` is read as a head of type `T`. */
  lemma HeadSpelled(st: PState, k: Keywords.Keyword, t: Types.Type)
    requires var i := st.sc.index;
      var n := |Types.TypeTokens(t)|;
      && i + 3 + n <= |st.sc.input|
      && st.sc.input[i].KeywordTok? && st.sc.input[i].keyword == k
      && IsSymbol(st.sc.input[i + 1], LeftAngle)
      && st.sc.input[i + 2..i + 2 + n] == Types.TypeTokens(t)
      && IsSymbol(st.sc.input[i + 2 + n], RightAngle)
    ensures ParseHead(st, k).Ok? && ValueType(ParseHead(st, k).value.value) == t
    ensures ParseHead(st, k).value.at == st.(sc := Cursor(st.sc.input, st.sc.index + 3 + |Types.TypeTokens(t)|))
  {
    var n := |Types.TypeTokens(t)|;
    ParseTypeAt(st, st.sc.index + 2, t, n);
    HeadAfterType(st, k, ParseType(st.(sc := Cursor(st.sc.input, st.sc.index + 2))).value);
  }

  /** After the prologue, the type read and a `>` make the head. */
  lemma HeadAfterType(st: PState, k: Keywords.Keyword, rt: Step<Node>)
    requires st.sc.index + 2 <= |st.sc.input|
    requires st.sc.input[st.sc.index].KeywordTok? && st.sc.input[st.sc.index].keyword == k
    requires IsSymbol(st.sc.input[st.sc.index + 1], LeftAngle)
    requires ParseType(st.(sc := Cursor(st.sc.input, st.sc.index + 2))) == Ok(rt)
    requires Available(rt.at.sc) && IsSymbol(rt.at.sc.input[rt.at.sc.index], RightAngle)
    ensures ParseHead(st, k) == Ok(Step(rt.value, rt.at.(sc := Cursor(rt.at.sc.input, rt.at.sc.index + 1))))
  {
    ConsumeOne(rt.at, RightAngle);
    PrologueConsumed(st, k);
  }

  /** `k <` is consumed as the prologue of a head. */
  lemma PrologueConsumed(st: PState, k: Keywords.Keyword)
    requires st.sc.index + 2 <= |st.sc.input|
    requires st.sc.input[st.sc.index].KeywordTok? && st.sc.input[st.sc.index].keyword == k
    requires IsSymbol(st.sc.input[st.sc.index + 1], LeftAngle)
    ensures Consume(st, [Kw(k), Sym(LeftAngle)])
      == Ok(Step(st.sc.input[st.sc.index..st.sc.index + 2], st.(sc := Cursor(st.sc.input, st.sc.index + 2))))
  {
    var expected := [Kw(k), Sym(LeftAngle)];
    MatchesTemplate(st.sc.input[st.sc.index], LeftAngle, k, false);
    MatchesTemplate(st.sc.input[st.sc.index + 1], LeftAngle, k, false);
    assert ConsumeLoop(st, expected, 2) == Ok(Step(st.sc.input[st.sc.index..st.sc.index + 2], st.(sc := Cursor(st.sc.input, st.sc.index + 2))));
    assert ConsumeItem(st, expected, 1) == ConsumeLoop(st, expected, 2);
    assert ConsumeItem(st, expected, 0) == ConsumeLoop(st, expected, 1);
  }

  /** `( )` is read as an empty parameter list. */
  lemma EmptyParameterList(st: PState)
    requires st.sc.index + 2 <= |st.sc.input|
    requires IsSymbol(st.sc.input[st.sc.index], LeftParen) && IsSymbol(st.sc.input[st.sc.index + 1], RightParen)
    ensures ParseParameterList(st) == Ok(Step([], st.(sc := Cursor(st.sc.input, st.sc.index + 2))))
  {
    var input := st.sc.input;
    var i := st.sc.index;
    ConsumeSymbol(st, LeftParen);
    ConsumeSymbol(st.(sc := Cursor(input, i + 1)), RightParen);
  }

  /** A parameter as written: its name, the name's mark and its type. */
  datatype ParamSpelling = ParamSpelling(name: string, mark: Mark, ty: Types.Type)

  /** `name : T`. */
  function ParamTokens(p: ParamSpelling): seq<Token>
  {
    [Identifier(p.name, p.mark), Sym(Colon)] + Types.TypeTokens(p.ty)
  }

  /** The parameters written out, separated by commas. */
  function ListTokens(ps: seq<ParamSpelling>): seq<Token>
  {
    if ps == [] then []
    else if |ps| == 1 then ParamTokens(ps[0])
    else ParamTokens(ps[0]) + [Sym(Comma)] + ListTokens(ps[1..])
  }

  /** The node was read from the written parameter `p`. */
  predicate ReadAs(n: Node, p: ParamSpelling)
  {
    n.kind.ParameterNode? && n.kind.name == p.name && n.kind.mark == p.mark && ValueType(n) == p.ty
  }

  /** The node the parameter parser builds from the written parameter `p`. */
  function Written(p: ParamSpelling): (n: Node)
    ensures ReadAs(n, p)
  {
    NewParameter(p.name, NewType(p.ty, Unknown), p.mark)
  }

  /** The written list `ps` sits in `input` from position `i` on, and a
      `)` follows it. */
  predicate ListAt(input: seq<Token>, i: nat, ps: seq<ParamSpelling>)
  {
    && i + |ListTokens(ps)| < |input|
    && input[i..i + |ListTokens(ps)|] == ListTokens(ps)
    && IsSymbol(input[i + |ListTokens(ps)|], RightParen)
  }

  /** Round trip: `( n1 : T1 , ... , nk : Tk )` is read as the parameters
      `n1` to `nk`, in order, each with its name's mark and its type,
      consuming exactly those tokens. */
  lemma {:induction false} ParameterListSpelled(st: PState, ps: seq<ParamSpelling>)
    requires st.sc.index < |st.sc.input| && IsSymbol(st.sc.input[st.sc.index], LeftParen)
    requires ListAt(st.sc.input, st.sc.index + 1, ps)
    ensures var r := ParseParameterList(st);
      && r.Ok? && r.value.at == st.(sc := Cursor(st.sc.input, st.sc.index + 2 + |ListTokens(ps)|))
      && |r.value.value| == |ps|
      && forall k :: 0 <= k < |ps| ==> ReadAs(r.value.value[k], ps[k])
  {
    var i := st.sc.index;
    var n := |ListTokens(ps)|;
    var open := st.(sc := Cursor(st.sc.input, i + 1));
    var closing := st.(sc := Cursor(st.sc.input, i + 1 + n));
    ConsumeSymbol(st, LeftParen);
    if ps == [] {
      assert ParameterLoop(open, []) == Ok(Step([], open));
    } else {
      ParameterLoopSpelled(open, ps, []);
      assert ParameterLoop(open, []).value.at == closing;
    }
    ConsumeSymbol(closing, RightParen);
  }

  /** The loop reads a non-empty written list up to the `)` after it. */
  lemma {:induction false} ParameterLoopSpelled(st: PState, ps: seq<ParamSpelling>, acc: seq<Node>)
    requires AllParameters(acc) && ps != [] && ListAt(st.sc.input, st.sc.index, ps)
    ensures var r := ParameterLoop(st, acc);
      && r.Ok? && r.value.at == st.(sc := Cursor(st.sc.input, st.sc.index + |ListTokens(ps)|))
      && |r.value.value| == |acc| + |ps| && r.value.value[..|acc|] == acc
      && forall k :: 0 <= k < |ps| ==> ReadAs(r.value.value[|acc| + k], ps[k])
    decreases |ps|, 1
  {
    if |ps| > 1 {
      MoreSpelled(st, ps, acc);
    } else {
      LastSpelled(st, ps, acc);
    }
  }

  /** A list of two or more: the first parameter, a comma, and the rest. */
  lemma {:induction false} MoreSpelled(st: PState, ps: seq<ParamSpelling>, acc: seq<Node>)
    requires AllParameters(acc) && |ps| > 1 && ListAt(st.sc.input, st.sc.index, ps)
    ensures var r := ParameterLoop(st, acc);
      && r.Ok? && r.value.at == st.(sc := Cursor(st.sc.input, st.sc.index + |ListTokens(ps)|))
      && |r.value.value| == |acc| + |ps| && r.value.value[..|acc|] == acc
      && forall k :: 0 <= k < |ps| ==> ReadAs(r.value.value[|acc| + k], ps[k])
    decreases |ps|, 0
  {
    var input := st.sc.input;
    var i := st.sc.index;
    var m := |Types.TypeTokens(ps[0].ty)|;
    var p := Written(ps[0]);
    var next := st.(sc := Cursor(input, i + 3 + m));
    RestTokens(input, i, ps, m);
    ParameterLoopSpelled(next, ps[1..], acc + [p]);
    var v := ParameterLoop(next, acc + [p]);
    StepSpelled(st, ps, acc, v);
    ReadsShift(acc, p, acc + [p], ps, ps[1..], v.value.value);
  }

  /** A list of one: the parameter, then the `)`. */
  lemma {:induction false} LastSpelled(st: PState, ps: seq<ParamSpelling>, acc: seq<Node>)
    requires AllParameters(acc) && |ps| == 1 && ListAt(st.sc.input, st.sc.index, ps)
    ensures var r := ParameterLoop(st, acc);
      && r.Ok? && r.value.at == st.(sc := Cursor(st.sc.input, st.sc.index + |ListTokens(ps)|))
      && |r.value.value| == |acc| + 1 && r.value.value[..|acc|] == acc
      && ReadAs(r.value.value[|acc|], ps[0])
  {
    var m := |Types.TypeTokens(ps[0].ty)|;
    LastTokens(st.sc.input, st.sc.index, ps, m);
    LastEnds(st, ps, acc, m);
    assert (acc + [Written(ps[0])])[..|acc|] == acc;
  }

  /** The loop's first turn over a longer list reads the first parameter
      and passes the comma: whatever the loop yields after the comma, it
      yields from `st`. */
  lemma {:induction false} StepSpelled(st: PState, ps: seq<ParamSpelling>, acc: seq<Node>, v: PResult<seq<Node>>)
    requires AllParameters(acc) && |ps| > 1 && ListAt(st.sc.input, st.sc.index, ps)
    requires v == ParameterLoop(st.(sc := Cursor(st.sc.input, st.sc.index + 3 + |Types.TypeTokens(ps[0].ty)|)), acc + [Written(ps[0])])
    ensures ParameterLoop(st, acc) == v
  {
    var m := |Types.TypeTokens(ps[0].ty)|;
    FirstTokens(st.sc.input, st.sc.index, ps, m);
    RestTokens(st.sc.input, st.sc.index, ps, m);
    ContinuesSpelled(st, acc, ps[0], m, v);
  }

  /** The loop's only turn over a list of one reads the parameter and
      stops at the `)`. */
  lemma {:induction false} LastEnds(st: PState, ps: seq<ParamSpelling>, acc: seq<Node>, m: nat)
    requires AllParameters(acc) && |ps| == 1 && m == |Types.TypeTokens(ps[0].ty)| && ListAt(st.sc.input, st.sc.index, ps)
    ensures ParameterLoop(st, acc) == Ok(Step(acc + [Written(ps[0])], st.(sc := Cursor(st.sc.input, st.sc.index + 2 + m))))
  {
    FirstTokens(st.sc.input, st.sc.index, ps, m);
    LastTokens(st.sc.input, st.sc.index, ps, m);
    ReadEnds(st, acc, ps[0], m);
  }

  /** A turn over the written parameter `p` followed by a comma goes on
      after the comma. */
  lemma {:induction false} ContinuesSpelled(st: PState, acc: seq<Node>, p: ParamSpelling, m: nat, v: PResult<seq<Node>>)
    requires AllParameters(acc) && ParamAt(st.sc.input, st.sc.index, p, m)
    requires IsSymbol(st.sc.input[st.sc.index + 2 + m], Comma)
    requires v == ParameterLoop(st.(sc := Cursor(st.sc.input, st.sc.index + 3 + m)), acc + [Written(p)])
    ensures ParameterLoop(st, acc) == v
  {
    ReadSpelled(st, p, m);
    ReadContinues(st, acc, Step(Written(p), st.(sc := Cursor(st.sc.input, st.sc.index + 2 + m))), v);
  }

  /** A turn that reads the parameter `h` and finds a comma after it goes
      on after the comma. */
  lemma {:induction false} ReadContinues(st: PState, acc: seq<Node>, h: Step<Node>, v: PResult<seq<Node>>)
    requires AllParameters(acc) && h.value.kind.ParameterNode?
    requires Available(st.sc) && !IsSymbol(st.sc.input[st.sc.index], RightParen)
    requires ParseParameter(st) == Ok(h)
    requires Available(h.at.sc) && IsSymbol(h.at.sc.input[h.at.sc.index], Comma)
    requires v == ParameterLoop(h.at.(sc := Cursor(h.at.sc.input, h.at.sc.index + 1)), acc + [h.value])
    ensures ParameterLoop(st, acc) == v
  {
    assert ParameterRead(st, acc) == v;
  }

  /** A turn over `p` followed by a `)` ends the loop there. */
  lemma {:induction false} ReadEnds(st: PState, acc: seq<Node>, p: ParamSpelling, m: nat)
    requires AllParameters(acc) && ParamAt(st.sc.input, st.sc.index, p, m)
    requires IsSymbol(st.sc.input[st.sc.index + 2 + m], RightParen)
    ensures ParameterLoop(st, acc) == Ok(Step(acc + [Written(p)], st.(sc := Cursor(st.sc.input, st.sc.index + 2 + m))))
  {
    ReadSpelled(st, p, m);
    assert ParameterRead(st, acc) == Ok(Step(acc + [Written(p)], st.(sc := Cursor(st.sc.input, st.sc.index + 2 + m))));
  }

  /** The parameter written at the scanner's position, followed by a comma
      or a `)`, is read as the node built from it. */
  lemma {:induction false} ReadSpelled(st: PState, p: ParamSpelling, m: nat)
    requires ParamAt(st.sc.input, st.sc.index, p, m)
    requires IsSymbol(st.sc.input[st.sc.index + 2 + m], Comma) || IsSymbol(st.sc.input[st.sc.index + 2 + m], RightParen)
    ensures ParseParameter(st) == Ok(Step(Written(p), st.(sc := Cursor(st.sc.input, st.sc.index + 2 + m))))
  {
    ParseParameterSpelled(st, p.name, p.mark, Unknown, p.ty);
  }

  /** The tokens of the written parameter `p`, whose type takes `m` tokens,
      sit at `i`, and more tokens follow. */
  predicate ParamAt(input: seq<Token>, i: nat, p: ParamSpelling, m: nat)
  {
    && m == |Types.TypeTokens(p.ty)| && i + 2 + m < |input|
    && input[i] == Identifier(p.name, p.mark) && input[i + 1] == Sym(Colon)
    && input[i + 2..i + 2 + m] == Types.TypeTokens(p.ty)
  }

  /** Where a written list sits: the first parameter's tokens come first,
      and what follows them is not a star. */
  lemma {:induction false} FirstTokens(input: seq<Token>, i: nat, ps: seq<ParamSpelling>, m: nat)
    requires ps != [] && m == |Types.TypeTokens(ps[0].ty)| && ListAt(input, i, ps)
    ensures ParamAt(input, i, ps[0], m)
    ensures IsSymbol(input[i + 2 + m], Comma) || IsSymbol(input[i + 2 + m], RightParen)
  {
    var first := ParamTokens(ps[0]);
    if |ps| == 1 {
      assert ListTokens(ps) == first + [];
      SpelledAt(input, i, first, [], ps[0], m);
    } else {
      var rest := ListTokens(ps[1..]);
      assert ListTokens(ps) == first + ([Sym(Comma)] + rest);
      SpelledAt(input, i, first, [Sym(Comma)] + rest, ps[0], m);
      assert input[i + 2 + m] == input[i + 2 + m..i + 2 + m + 1 + |rest|][0];
    }
  }

  /** After the first parameter of a longer list come a comma and the rest
      of the list, still followed by the `)`. */
  lemma {:induction false} RestTokens(input: seq<Token>, i: nat, ps: seq<ParamSpelling>, m: nat)
    requires |ps| > 1 && m == |Types.TypeTokens(ps[0].ty)| && ListAt(input, i, ps)
    ensures IsSymbol(input[i + 2 + m], Comma)
    ensures i + 3 + m + |ListTokens(ps[1..])| == i + |ListTokens(ps)|
    ensures ListAt(input, i + 3 + m, ps[1..])
  {
    var first := ParamTokens(ps[0]);
    var rest := ListTokens(ps[1..]);
    assert ListTokens(ps) == first + ([Sym(Comma)] + rest);
    SpelledAt(input, i, first, [Sym(Comma)] + rest, ps[0], m);
    assert input[i + 2 + m] == ([Sym(Comma)] + rest)[0];
    assert input[i + 3 + m..i + 3 + m + |rest|] == ([Sym(Comma)] + rest)[1..] == rest;
  }

  /** The last parameter is followed by the `)`. */
  lemma {:induction false} LastTokens(input: seq<Token>, i: nat, ps: seq<ParamSpelling>, m: nat)
    requires |ps| == 1 && m == |Types.TypeTokens(ps[0].ty)| && ListAt(input, i, ps)
    ensures |ListTokens(ps)| == 2 + m
    ensures !IsSymbol(input[i + 2 + m], Comma)
  {
    assert ListTokens(ps) == ParamTokens(ps[0]);
  }

  /** A parameter's tokens `first`, followed by `tail`, found at `i`. */
  lemma {:induction false} SpelledAt(input: seq<Token>, i: nat, first: seq<Token>, tail: seq<Token>, p: ParamSpelling, m: nat)
    requires first == ParamTokens(p) && m == |Types.TypeTokens(p.ty)|
    requires i + |first| + |tail| <= |input| && input[i..i + |first| + |tail|] == first + tail
    ensures |first| == 2 + m
    ensures input[i] == Identifier(p.name, p.mark) && input[i + 1] == Sym(Colon)
    ensures input[i + 2..i + 2 + m] == Types.TypeTokens(p.ty)
    ensures input[i + 2 + m..i + 2 + m + |tail|] == tail
  {
    var all := first + tail;
    var seg := input[i..i + |all|];
    assert |first| == 2 + m && first[2..] == Types.TypeTokens(p.ty);
    assert input[i] == all[0] && input[i + 1] == all[1];
    var ty, within := input[i + 2..i + 2 + m], seg[2..2 + m];
    forall k | 0 <= k < m ensures ty[k] == within[k] {
      assert seg[2 + k] == input[i + 2 + k];
    }
    assert ty == within;
    assert all[2..2 + m] == first[2..];
    assert input[i + 2 + m..i + 2 + m + |tail|] == seg[2 + m..];
    assert all[2 + m..] == tail;
  }

  /** The nodes read after `acc + [p]` line up with the written list's tail
      exactly when `p` and those nodes line up with the whole list. */
  lemma {:induction false} ReadsShift(acc: seq<Node>, p: Node, acc2: seq<Node>, ps: seq<ParamSpelling>, rest: seq<ParamSpelling>, r: seq<Node>)
    requires |ps| > 1 && ReadAs(p, ps[0]) && acc2 == acc + [p] && rest == ps[1..]
    requires |r| == |acc2| + |rest| && r[..|acc2|] == acc2
    requires forall k :: 0 <= k < |rest| ==> ReadAs(r[|acc2| + k], rest[k])
    ensures |r| == |acc| + |ps| && r[..|acc|] == acc
    ensures forall k :: 0 <= k < |ps| ==> ReadAs(r[|acc| + k], ps[k])
  {
    assert r[..|acc|] == r[..|acc2|][..|acc|];
    assert r[|acc|] == r[..|acc2|][|acc|] == p;
    forall k | 1 <= k < |ps|
      ensures ReadAs(r[|acc| + k], ps[k])
    {
      assert ps[k] == rest[k - 1];
      assert r[|acc| + k] == r[|acc2| + (k - 1)];
    }
  }

  /** A token at position `j` that is not an identifier, where the name
      belongs, is consumed and reported, located at the token after it. */
  lemma UnnamedAt(st: PState, j: nat, k: nat, ty: Node)
    requires j < |st.sc.input| && !st.sc.input[j].Identifier? && k == j + 1
    ensures var after := st.(sc := Cursor(st.sc.input, k));
      NameAndParameters(st.(sc := Cursor(st.sc.input, j)), ty)
        == Fail(Fault(ParserError(Location(after.sc), UnexpectedTokenEncountered(st.sc.input[j])), after))
  {
  }

  /** Once the head is read, the rest of the signature is read from where
      it stopped, with its type. */
  lemma AfterHead(st: PState, h: Step<Node>)
    requires ParseHead(st, Keywords.Func) == Ok(h)
    ensures ParseSignature(st) == NameAndParameters(h.at, h.value)
  {
  }

  /** `name ( )` at position `j` is read as a signature of `name` with no
      parameters. */
  lemma NamedWithoutParameters(st: PState, j: nat, name: string, m: Mark, ty: Node)
    requires j + 3 <= |st.sc.input| && st.sc.input[j] == Identifier(name, m)
    requires IsSymbol(st.sc.input[j + 1], LeftParen) && IsSymbol(st.sc.input[j + 2], RightParen)
    ensures NameAndParameters(st.(sc := Cursor(st.sc.input, j)), ty)
            == Ok(Step(Signature(Identifier(name, m), ty, []), st.(sc := Cursor(st.sc.input, j + 3))))
  {
    EmptyParameterList(st.(sc := Cursor(st.sc.input, j + 1)));
  }

  /** `func<Int> (`: the `(` where the name belongs is consumed and
      reported at the token after it. */
  lemma NonIdentifierName(m: Mark, table: SymbolTable<Node>)
    ensures var input := [Kw(Keywords.Func), Sym(LeftAngle), Identifier("Int", Unknown), Sym(RightAngle), SymbolTok(LeftParen, m), Sym(RightParen)];
      ParseSignature(PState(Cursor(input, 0), table))
        == Fail(Fault(ParserError(Unknown, UnexpectedTokenEncountered(SymbolTok(LeftParen, m))), PState(Cursor(input, 5), table)))
  {
    var input := [Kw(Keywords.Func), Sym(LeftAngle), Identifier("Int", Unknown), Sym(RightAngle), SymbolTok(LeftParen, m), Sym(RightParen)];
    assert input[2..3] == Types.TypeTokens(Types.Int);
    NonIdentifierSpelled(PState(Cursor(input, 0), table), Types.Int);
  }

  /** `func < T >` followed by a token that is not an identifier: that token
      is consumed and reported, located at the token after it. */
  lemma NonIdentifierSpelled(st: PState, t: Types.Type)
    requires var i := st.sc.index;
      var n := |Types.TypeTokens(t)|;
      && i + 4 + n <= |st.sc.input|
      && st.sc.input[i].KeywordTok? && st.sc.input[i].keyword == Keywords.Func
      && IsSymbol(st.sc.input[i + 1], LeftAngle)
      && st.sc.input[i + 2..i + 2 + n] == Types.TypeTokens(t)
      && IsSymbol(st.sc.input[i + 2 + n], RightAngle)
      && !st.sc.input[i + 3 + n].Identifier?
    ensures var i := st.sc.index;
      var n := |Types.TypeTokens(t)|;
      var after := st.(sc := Cursor(st.sc.input, i + 4 + n));
      ParseSignature(st) == Fail(Fault(ParserError(Location(after.sc), UnexpectedTokenEncountered(st.sc.input[i + 3 + n])), after))
  {
    var j := st.sc.index + 3 + |Types.TypeTokens(t)|;
    HeadSpelled(st, Keywords.Func, t);
    var h := ParseHead(st, Keywords.Func).value;
    UnnamedAt(st, j, j + 1, h.value);
    AfterHead(st, h);
  }

  /** Round trip: `func < T > name ( )` is read as the signature of `name`
      returning `T` with no parameters, consuming exactly those tokens. */
  lemma SignatureSpelled(st: PState, t: Types.Type, name: string, m: Mark)
    requires var i := st.sc.index;
      var n := |Types.TypeTokens(t)|;
      && i + 6 + n <= |st.sc.input|
      && st.sc.input[i].KeywordTok? && st.sc.input[i].keyword == Keywords.Func
      && IsSymbol(st.sc.input[i + 1], LeftAngle)
      && st.sc.input[i + 2..i + 2 + n] == Types.TypeTokens(t)
      && IsSymbol(st.sc.input[i + 2 + n], RightAngle)
      && st.sc.input[i + 3 + n] == Identifier(name, m)
      && IsSymbol(st.sc.input[i + 4 + n], LeftParen) && IsSymbol(st.sc.input[i + 5 + n], RightParen)
    ensures var r := ParseSignature(st);
      && r.Ok? && r.value.at == st.(sc := Cursor(st.sc.input, st.sc.index + 6 + |Types.TypeTokens(t)|))
      && r.value.value.name == Identifier(name, m) && r.value.value.parameters == []
      && ValueType(r.value.value.returnType) == t
  {
    var n := |Types.TypeTokens(t)|;
    HeadSpelled(st, Keywords.Func, t);
    var h := ParseHead(st, Keywords.Func).value;
    NamedWithoutParameters(st, st.sc.index + 3 + n, name, m, h.value);
    AfterHead(st, h);
  }

  /** A signature with no `{` after it is a declaration: the function is
      defined in the table under its name, and nothing more is read. */
  lemma DeclarationWithoutBody(st: PState, d: Dispatch, sig: Step<Signature>)
    requires Productive(d)
    requires ParseSignature(st) == Ok(sig) && !CodeBlockTest(sig.at.sc)
    requires |sig.at.table.scopes| > 0 && Find(sig.at.table, sig.value.name.text).None?
    ensures var decl := NewFunction(sig.value.name.text, sig.value.returnType, sig.value.parameters, sig.value.name.mark);
      ParseFunction(st, d) == Ok(Step(decl, sig.at.(table := Define(sig.at.table, sig.value.name.text, decl).value)))
  {
  }

  /** `func<Int> main()` with nothing after it: a declaration without a
      body, defined in the table under its name. */
  lemma MainDeclaration(m: Mark, d: Dispatch)
    requires Productive(d)
    ensures var input := [Kw(Keywords.Func), Sym(LeftAngle), Identifier("Int", Unknown), Sym(RightAngle),
                          Identifier("main", m), Sym(LeftParen), Sym(RightParen)];
      var r := ParseFunction(PState(Cursor(input, 0), Empty()), d);
      && r.Ok? && r.value.at.sc.index == 7 && r.value.value.children == []
      && r.value.value.kind.name == "main" && r.value.value.kind.mark == m && r.value.value.kind.parameters == []
      && ValueType(r.value.value.kind.returnType) == Types.Int
      && Find(r.value.at.table, "main") == Some(r.value.value)
  {
    var input := [Kw(Keywords.Func), Sym(LeftAngle), Identifier("Int", Unknown), Sym(RightAngle),
                  Identifier("main", m), Sym(LeftParen), Sym(RightParen)];
    var st := PState(Cursor(input, 0), Empty());
    assert input[2..3] == Types.TypeTokens(Types.Int);
    SignatureSpelled(st, Types.Int, "main", m);
    DeclarationWithoutBody(st, d, ParseSignature(st).value);
  }
}
