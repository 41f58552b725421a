/** The reserved words of the Bolt language (Bolt/Keyword.swift). */
module Keywords {
  import opened Results

  datatype Keyword = Func | Return | Import | Let | True | False

  /** Every keyword, in declaration order (Swift's `allCases`). */
  const AllCases: seq<Keyword> := [Func, Return, Import, Let, True, False]

  /** The lower-case spelling of a keyword in source text. */
  function Text(k: Keyword): string
  {
    match k
    case Func => "func"
    case Return => "return"
    case Import => "import"
    case Let => "let"
    case True => "true"
    case False => "false"
  }

  /** The keyword spelled `s`, if any: the inverse of `Text`. */
  function Named(s: string): (r: Option<Keyword>)
    ensures forall k :: r == Some(k) <==> Text(k) == s
  {
    if s == "func" then Some(Func)
    else if s == "return" then Some(Return)
    else if s == "import" then Some(Import)
    else if s == "let" then Some(Let)
    else if s == "true" then Some(True)
    else if s == "false" then Some(False)
    else None
  }

  /** Diagnostic form: the spelling wrapped in angle brackets. */
  function Description(k: Keyword): (r: string)
    ensures |r| == |Text(k)| + 2 && r[0] == '<' && r[|r| - 1] == '>'
    ensures r[1..|r| - 1] == Text(k)
  {
    "<" + Text(k) + ">"
  }

  /** There are exactly six keywords, each listed once in `AllCases`. */
  lemma AllCasesComplete(k: Keyword)
    ensures k in AllCases
    ensures |AllCases| == 6
    ensures forall i, j :: 0 <= i < j < |AllCases| ==> AllCases[i] != AllCases[j]
  {
  }

  /** Distinct keywords are spelled differently, so `Text` can be read back. */
  lemma TextInjective(a: Keyword, b: Keyword)
    requires Text(a) == Text(b)
    ensures a == b
  {
    assert Named(Text(a)) == Some(a);
    assert Named(Text(b)) == Some(b);
  }
}
