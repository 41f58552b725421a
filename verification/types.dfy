/** The Bolt type model (Bolt/Type.swift): fundamental types, pointers and
    the complex `String` type, with the reader that turns type tokens into a
    type. */
module Types {
  import opened Results
  import opened Tokens

  datatype Type = NoneType | Int8 | Int | Pointer(pointee: Type) | StringType

  datatype TypeError = BadType(name: string)

  /** The spelling of a type; `String` is spelled as its representation. */
  function Text(t: Type): string
    decreases Size(t)
  {
    match t
    case NoneType => "None"
    case Int8 => "Int8"
    case Int => "Int"
    case Pointer(p) => Text(p) + "*"
    case StringType => Text(Resolved(t))
  }

  /** A measure under which `String` is larger than its representation. */
  function Size(t: Type): nat
  {
    match t
    case Pointer(p) => 1 + Size(p)
    case StringType => 3
    case _ => 1
  }

  /** The storage representation of a type: `String` is a pointer to `Int8`,
      every other type is its own representation. The resolution is shallow. */
  function Resolved(t: Type): (r: Type)
    ensures r != StringType
    ensures t == StringType <==> r != t
  {
    match t
    case StringType => Pointer(Int8)
    case _ => t
  }

  /** Only `None` cannot be stored in a variable, parameter or constant. */
  predicate IsValidStorageType(t: Type)
  {
    t != NoneType
  }

  /** `t` wrapped in `k` levels of pointer. */
  function PointerTo(t: Type, k: nat): Type
  {
    if k == 0 then t else Pointer(PointerTo(t, k - 1))
  }

  /** The base type a name denotes, if it is one of the four base names. */
  function BaseNamed(name: string): (r: Option<Type>)
    ensures r.Some? <==> name in {"None", "Int8", "Int", "String"}
    ensures r.Some? ==> !r.value.Pointer?
  {
    if name == "None" then Some(NoneType)
    else if name == "Int8" then Some(Int8)
    else if name == "Int" then Some(Int)
    else if name == "String" then Some(StringType)
    else None
  }

  /** Type.resolve(from:). The first token must name a base type; every
      following token must be `*` and adds one level of pointer. The base
      name is checked before any trailing token. An empty list traps at
      `removeFirst`. */
  function Resolve(tokens: seq<Token>): (r: Outcome<Type, TypeError>)
    ensures tokens == [] <==> r.Abort?
    ensures tokens != [] && !tokens[0].Identifier? ==> r == Fail(BadType("?"))
    ensures tokens != [] && tokens[0].Identifier? && BaseNamed(tokens[0].text).None?
            ==> r == Fail(BadType(tokens[0].text))
    ensures r.Ok? <==> ValidTypeTokens(tokens)
  {
    if tokens == [] then Abort
    else if !tokens[0].Identifier? then Fail(BadType("?"))
    else match BaseNamed(tokens[0].text)
      case None => Fail(BadType(tokens[0].text))
      case Some(base) => Nest(base, tokens[1..])
  }

  /** The `while` loop of Type.resolve: wrap once per leading `*`, fail with
      `?` at the first other token. */
  function Nest(t: Type, rest: seq<Token>): (r: Outcome<Type, TypeError>)
    ensures r.Ok? <==> AllStars(rest)
    ensures r.Ok? ==> r.value == PointerTo(t, |rest|)
    ensures !r.Ok? ==> r == Fail(BadType("?"))
    decreases |rest|
  {
    if rest == [] then Ok(t)
    else if rest[0].SymbolTok? && rest[0].symbol == Star then
      PointerToShift(t, |rest| - 1);
      Nest(Pointer(t), rest[1..])
    else Fail(BadType("?"))
  }

  lemma {:induction false} PointerToShift(t: Type, k: nat)
    ensures PointerTo(Pointer(t), k) == PointerTo(t, k + 1)
  {
    if k > 0 {
      PointerToShift(t, k - 1);
    }
  }

  predicate AllStars(ts: seq<Token>)
  {
    forall i :: 0 <= i < |ts| ==> ts[i].SymbolTok? && ts[i].symbol == Star
  }

  /** A type-token list `Resolve` accepts: a known base name, then stars. */
  predicate ValidTypeTokens(ts: seq<Token>)
  {
    |ts| > 0 && ts[0].Identifier? && BaseNamed(ts[0].text).Some? && AllStars(ts[1..])
  }

  /** The tokens that spell a type: its base name, then one `*` per pointer. */
  function TypeTokens(t: Type): seq<Token>
  {
    match t
    case NoneType => [Identifier("None", Unknown)]
    case Int8 => [Identifier("Int8", Unknown)]
    case Int => [Identifier("Int", Unknown)]
    case StringType => [Identifier("String", Unknown)]
    case Pointer(p) => TypeTokens(p) + [SymbolTok(Star, Unknown)]
  }

  /** The base type at the bottom of a pointer chain, and the chain's depth. */
  function Base(t: Type): Type
  {
    if t.Pointer? then Base(t.pointee) else t
  }

  function Depth(t: Type): nat
  {
    if t.Pointer? then 1 + Depth(t.pointee) else 0
  }

  lemma {:induction false} BaseDepth(t: Type)
    ensures t == PointerTo(Base(t), Depth(t))
    ensures !Base(t).Pointer?
  {
    if t.Pointer? {
      BaseDepth(t.pointee);
    }
  }

  lemma {:induction false} TypeTokensShape(t: Type)
    ensures |TypeTokens(t)| == Depth(t) + 1
    ensures TypeTokens(t)[0].Identifier?
    ensures BaseNamed(TypeTokens(t)[0].text) == Some(Base(t))
    ensures AllStars(TypeTokens(t)[1..])
  {
    if t.Pointer? {
      TypeTokensShape(t.pointee);
      assert TypeTokens(t)[1..] == TypeTokens(t.pointee)[1..] + [SymbolTok(Star, Unknown)];
    }
  }

  /** Reading the tokens `[base] + k * "*"` gives `base` under `k` pointers. */
  lemma ResolveStars(name: string, m: Mark, stars: seq<Token>)
    requires BaseNamed(name).Some?
    requires AllStars(stars)
    ensures Resolve([Identifier(name, m)] + stars) == Ok(PointerTo(BaseNamed(name).value, |stars|))
  {
    assert ([Identifier(name, m)] + stars)[1..] == stars;
  }

  /** Round trip: every type is read back from the tokens that spell it. */
  lemma ResolveTypeTokens(t: Type)
    ensures Resolve(TypeTokens(t)) == Ok(t)
  {
    TypeTokensShape(t);
    BaseDepth(t);
    var ts := TypeTokens(t);
    assert ts == [Identifier(ts[0].text, ts[0].mark)] + ts[1..];
    ResolveStars(ts[0].text, ts[0].mark, ts[1..]);
  }

  /** The spelling of a `String`-free type is the concatenated text of its
      type tokens; a pointer is spelled as its pointee followed by `*`. */
  lemma {:induction false} TextOfTypeTokens(t: Type)
    requires !Base(t).StringType?
    ensures Text(t) == Spell(TypeTokens(t))
  {
    if t.Pointer? {
      TextOfTypeTokens(t.pointee);
      SpellAppend(TypeTokens(t.pointee), [SymbolTok(Star, Unknown)]);
    }
  }

  /** The concatenated spelling of type tokens: identifier text and `*`. */
  function Spell(ts: seq<Token>): string
  {
    if ts == [] then []
    else (if ts[0].Identifier? then ts[0].text else "*") + Spell(ts[1..])
  }

  lemma {:induction false} SpellAppend(a: seq<Token>, b: seq<Token>)
    ensures Spell(a + b) == Spell(a) + Spell(b)
  {
    if a != [] {
      assert (a + b)[0] == a[0];
      assert (a + b)[1..] == a[1..] + b;
      SpellAppend(a[1..], b);
    } else {
      assert a + b == b;
    }
  }

  /** `Resolved` is idempotent and `String` is the only type it changes;
      `String` is spelled like `Int8*`. */
  lemma ResolvedFacts(t: Type)
    ensures Resolved(Resolved(t)) == Resolved(t)
    ensures Resolved(StringType) == Pointer(Int8)
    ensures Resolved(Pointer(StringType)) == Pointer(StringType)
    ensures Text(StringType) == "Int8*"
  {
  }
}
