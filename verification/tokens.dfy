/** Source positions and lexical tokens (CompilerCore/Lexer/Token.swift). */
module Tokens {
  import Keywords

  /** A source position: zero-based line and column, or `Unknown` for
      synthesised nodes. The owning file is not modelled. */
  datatype Mark = Unknown | At(line: nat, offset: nat)

  /** The punctuation symbols the parsers look for. */
  datatype SymbolKind =
    | Star | Colon | Comma | AtSign | Equals
    | LeftParen | RightParen | LeftAngle | RightAngle | LeftBrace | RightBrace

  /** One token. Numeric tokens keep the literal text they were read from;
      the `Double` payload of a float token is not modelled. */
  datatype Token =
    | StringLit(text: string, mark: Mark)
    | IntegerLit(number: int, text: string, mark: Mark)
    | FloatLit(text: string, mark: Mark)
    | Identifier(text: string, mark: Mark)
    | KeywordTok(keyword: Keywords.Keyword, mark: Mark)
    | SymbolTok(symbol: SymbolKind, mark: Mark)

  /** The delimiters of a double-quoted string (Bolt/LanguageSpec.swift). */
  const StringPrefix: string := "\""
  const StringSuffix: string := "\""

  /** The number of source characters a token was read from. */
  function Length(t: Token): nat
  {
    match t
    case StringLit(text, _) => |text| + |StringPrefix| + |StringSuffix|
    case IntegerLit(_, text, _) => |text|
    case FloatLit(text, _) => |text|
    case Identifier(text, _) => |text|
    case KeywordTok(k, _) => |Keywords.Text(k)|
    case SymbolTok(_, _) => 1
  }

  function SymbolChar(s: SymbolKind): char
  {
    match s
    case Star => '*'
    case Colon => ':'
    case Comma => ','
    case AtSign => '@'
    case Equals => '='
    case LeftParen => '('
    case RightParen => ')'
    case LeftAngle => '<'
    case RightAngle => '>'
    case LeftBrace => '{'
    case RightBrace => '}'
  }

  /** The exact source text a token stands for: a string literal with its
      quotes, a number or identifier as written, a keyword's spelling. */
  function Spelling(t: Token): (r: string)
    ensures |r| == Length(t)
    ensures t.StringLit? ==> |r| == |t.text| + 2 && r[0] == '"' && r[|r| - 1] == '"'
    ensures t.StringLit? ==> r[1..|r| - 1] == t.text
    ensures (t.IntegerLit? || t.FloatLit? || t.Identifier?) ==> r == t.text
  {
    match t
    case StringLit(text, _) => StringPrefix + text + StringSuffix
    case IntegerLit(_, text, _) => text
    case FloatLit(text, _) => text
    case Identifier(text, _) => text
    case KeywordTok(k, _) => Keywords.Text(k)
    case SymbolTok(s, _) => [SymbolChar(s)]
  }

  /** A token's length is a function of its kind and text only. */
  lemma LengthIgnoresMark(t: Token, m: Mark)
    ensures Length(t.(mark := m)) == Length(t)
    ensures t.StringLit? ==> Length(t) == |t.text| + 2
  {
  }

  /** Structural token matching. Literal kinds match any literal of the same
      kind; identifiers must agree on their text unless `weak` is set;
      keywords and symbols must be the same. Marks never matter. */
  predicate Matches(a: Token, b: Token, weak: bool)
  {
    match (a, b)
    case (StringLit(_, _), StringLit(_, _)) => true
    case (IntegerLit(_, _, _), IntegerLit(_, _, _)) => true
    case (FloatLit(_, _), FloatLit(_, _)) => true
    case (Identifier(x, _), Identifier(y, _)) => weak || x == y
    case (KeywordTok(k, _), KeywordTok(l, _)) => k == l
    case (SymbolTok(s, _), SymbolTok(u, _)) => s == u
    case _ => false
  }

  /** A template token for `Matches`: its mark is never inspected. */
  function Sym(s: SymbolKind): Token
  {
    SymbolTok(s, Unknown)
  }

  function Kw(k: Keywords.Keyword): Token
  {
    KeywordTok(k, Unknown)
  }

  /** Matching a symbol or keyword template is the same as having that kind. */
  lemma MatchesTemplate(t: Token, s: SymbolKind, k: Keywords.Keyword, weak: bool)
    ensures Matches(Sym(s), t, weak) <==> t.SymbolTok? && t.symbol == s
    ensures Matches(t, Sym(s), weak) <==> t.SymbolTok? && t.symbol == s
    ensures Matches(Kw(k), t, weak) <==> t.KeywordTok? && t.keyword == k
    ensures Matches(t, Kw(k), weak) <==> t.KeywordTok? && t.keyword == k
  {
  }
}
