/** The variable parser (CompilerCore/Parser/VariableParser.swift):
    `let < Type > name`, optionally followed by `= value`. The value is read
    by the first of the return parsers whose test holds, given here as a
    dispatcher; no applicable parser, and a value whose type differs from
    the declared one, are both fatal. */
module VariableParser {
  import opened Results
  import opened Tokens
  import opened Scanners
  import opened SymbolTables
  import opened Nodes
  import opened ParserCore
  import opened CodeBlockParser
  import opened FunctionParser
  import Keywords
  import Types
  import CallParser

  /** VariableParser.test(for:): `let` followed by `<`. */
  function VariableTest(sc: Scanner<Token>): (r: bool)
    ensures r <==> Opens(sc, Keywords.Let)
  {
    match (Peek(sc, 0), Peek(sc, 1))
    case (Some(a), Some(b)) => a.KeywordTok? && a.keyword == Keywords.Let && IsSymbol(b, LeftAngle)
    case _ => false
  }

  /** VariableParser.parse(from:). A name that is not an identifier is
      consumed and thrown back as the bare unexpected-token error. */
  function ParseVariable(st: PState, d: Dispatch): (r: PResult<Node>)
    ensures r.Ok? ==>
      var v := r.value.value;
      && Opens(st.sc, Keywords.Let)
      && v.kind.VariableNode? && v.kind.varType.kind.TypeNode? && v.children == []
      && (v.kind.initialValue.Some? ==> ValueType(v.kind.initialValue.value) == ValueType(v.kind.varType))
  {
    var head :- ParseHead(st, Keywords.Let);
    Named(head.at, d, head.value)
  }

  /** The name after the head, and what follows it. A name that is not an
      identifier is consumed and thrown back as the bare unexpected-token
      error. */
  function Named(st: PState, d: Dispatch, ty: Node): (r: PResult<Node>)
    ensures Available(st.sc) && !st.sc.input[st.sc.index].Identifier? ==>
      r == Fail(Fault(UnexpectedToken(st.sc.input[st.sc.index]), st.(sc := Cursor(st.sc.input, st.sc.index + 1))))
    ensures r.Ok? ==>
      var v := r.value.value;
      && v.kind.VariableNode? && v.kind.varType == ty && v.children == []
      && (v.kind.initialValue.Some? ==> ValueType(v.kind.initialValue.value) == ValueType(ty))
    ensures r.Ok? && r.value.value.kind.initialValue.None? ==>
      var i := st.sc.index;
      && i < |st.sc.input| && r.value.at == st.(sc := Cursor(st.sc.input, i + 1))
      && st.sc.input[i] == Identifier(r.value.value.kind.name, r.value.value.kind.mark)
      && !(i + 1 < |st.sc.input| && IsSymbol(st.sc.input[i + 1], Equals))
  {
    if !Available(st.sc) then Abort
    else
      var tok := st.sc.input[st.sc.index];
      var named := st.(sc := Cursor(st.sc.input, st.sc.index + 1));
      if !tok.Identifier? then Fail(Fault(UnexpectedToken(tok), named))
      else InitialValue(named, d, tok, ty)
  }

  /** After the name: `= value`, or nothing. */
  function InitialValue(st: PState, d: Dispatch, name: Token, ty: Node): (r: PResult<Node>)
    requires name.Identifier?
    ensures !(Available(st.sc) && IsSymbol(st.sc.input[st.sc.index], Equals)) ==>
      r == Ok(Step(NewVariable(name.text, ty, None, name.mark), st))
    ensures r.Ok? ==>
      var v := r.value.value;
      && v.kind.VariableNode? && v.kind == VariableNode(name.text, ty, v.kind.initialValue, name.mark) && v.children == []
      && (v.kind.initialValue.Some? ==> ValueType(v.kind.initialValue.value) == ValueType(ty))
    ensures Available(st.sc) && IsSymbol(st.sc.input[st.sc.index], Equals) ==>
      var after := st.(sc := Cursor(st.sc.input, st.sc.index + 1));
      && (d(after).None? ==> r.Abort?)
      && (d(after).Some? && d(after).value.Ok? ==>
            var s := d(after).value.value;
            r == if ValueType(s.value) == ValueType(ty) then Ok(Step(NewVariable(name.text, ty, Some(s.value), name.mark), s.at))
                 else Abort)
  {
    if Available(st.sc) && IsSymbol(st.sc.input[st.sc.index], Equals) then
      var after := st.(sc := Cursor(st.sc.input, st.sc.index + 1));
      match d(after)
      case None => Abort
      case Some(res) =>
        var s :- res;
        if ValueType(s.value) != ValueType(ty) then Abort
        else Ok(Step(NewVariable(name.text, ty, Some(s.value), name.mark), s.at))
    else Ok(Step(NewVariable(name.text, ty, None, name.mark), st))
  }

  // ---------------------------------------------------------------------
  // Properties, with the identifier parser as the only return parser

  /** Once the head is read and an identifier follows it, the rest is the
      initial-value step. With `HeadSpelled` for the head and the lemmas
      below for the value, this reads a declaration back token by token. */
  lemma AfterHead(st: PState, d: Dispatch, h: Step<Node>)
    requires ParseHead(st, Keywords.Let) == Ok(h)
    requires Available(h.at.sc) && h.at.sc.input[h.at.sc.index].Identifier?
    ensures ParseVariable(st, d)
      == InitialValue(h.at.(sc := Cursor(h.at.sc.input, h.at.sc.index + 1)), d, h.at.sc.input[h.at.sc.index], h.value)
  {
  }

  /** A variable read without an initial value ends with its name, and the
      token after the name, if any, is not `=`. */
  lemma WithoutValue(st: PState, d: Dispatch)
    requires ParseVariable(st, d).Ok? && ParseVariable(st, d).value.value.kind.initialValue.None?
    ensures var r := ParseVariable(st, d).value;
      var e := r.at.sc.index;
      && e >= st.sc.index + 5 && Moved(st, r.at, e - st.sc.index)
      && st.sc.input[e - 1] == Identifier(r.value.kind.name, r.value.kind.mark)
      && !(e < |st.sc.input| && IsSymbol(st.sc.input[e], Equals))
  {
    var head := ParseHead(st, Keywords.Let).value;
    assert ParseVariable(st, d) == Named(head.at, d, head.value);
  }

  /** A name that is not an identifier is consumed and thrown back as the
      bare unexpected-token error. */
  lemma NonIdentifierAfterHead(st: PState, d: Dispatch, h: Step<Node>)
    requires ParseHead(st, Keywords.Let) == Ok(h)
    requires Available(h.at.sc) && !h.at.sc.input[h.at.sc.index].Identifier?
    ensures ParseVariable(st, d)
      == Fail(Fault(UnexpectedToken(h.at.sc.input[h.at.sc.index]), h.at.(sc := Cursor(h.at.sc.input, h.at.sc.index + 1))))
  {
  }

  /** The stream ending right after the head is fatal. */
  lemma EndAfterHead(st: PState, d: Dispatch, h: Step<Node>)
    requires ParseHead(st, Keywords.Let) == Ok(h) && !Available(h.at.sc)
    ensures ParseVariable(st, d).Abort?
  {
  }

  /** No `=` after the name: a variable without an initial value, with the
      declared type, and nothing more consumed. */
  lemma NoInitialValue(st: PState, d: Dispatch, ty: Node, name: string, m: Mark)
    requires !(Available(st.sc) && IsSymbol(st.sc.input[st.sc.index], Equals))
    ensures var r := InitialValue(st, d, Identifier(name, m), ty);
      && r.Ok? && r.value.at == st
      && r.value.value.kind.name == name && r.value.value.kind.mark == m
      && r.value.value.kind.initialValue == None && ValueType(r.value.value) == ValueType(ty)
  {
  }

  /** `= y` with the identifier parser as the only return parser: `y` is
      bound through the table, and the variable takes it as its value
      exactly when its type is the declared type; otherwise the mismatch is
      fatal. An unbound `y` has type `None`, so it is never accepted for a
      declared storage type. */
  lemma ValueFromIdentifier(st: PState, name: Token, ty: Node, y: string, ym: Mark)
    requires name.Identifier? && |st.table.scopes| > 0
    requires st.sc.index + 1 < |st.sc.input|
    requires IsSymbol(st.sc.input[st.sc.index], Equals) && st.sc.input[st.sc.index + 1] == Identifier(y, ym)
    ensures var r := InitialValue(st, CallParser.IdentifierArguments, name, ty);
      var value := NewIdentifier(y, Find(st.table, y), ym);
      && (ValueType(value) == ValueType(ty) ==>
            r == Ok(Step(NewVariable(name.text, ty, Some(value), name.mark), st.(sc := Cursor(st.sc.input, st.sc.index + 2)))))
      && (ValueType(value) != ValueType(ty) ==> r.Abort?)
  {
    var after := st.(sc := Cursor(st.sc.input, st.sc.index + 1));
    assert CallParser.IdentifierArguments(after)
      == Some(Ok(Step(NewIdentifier(y, Find(st.table, y), ym), st.(sc := Cursor(st.sc.input, st.sc.index + 2)))));
  }
}
