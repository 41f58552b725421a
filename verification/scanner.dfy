/** The generic forward cursor over an indexed collection
    (Foundation/Scanner.swift), used over characters by the lexer and over
    tokens by the parsers. The cursor never moves backwards and never leaves
    `[0, |input|]`; the subset type records the second fact. */
module Scanners {
  import opened Results

  datatype Cursor<T> = Cursor(input: seq<T>, index: nat)

  type Scanner<T> = c: Cursor<T> | c.index <= |c.input| witness Cursor([], 0)

  /** A fresh scanner starts at the first element. */
  function Init<T>(input: seq<T>): (s: Scanner<T>)
    ensures s.input == input && s.index == 0
  {
    Cursor(input, 0)
  }

  /** More elements remain to be consumed. */
  predicate Available<T>(s: Scanner<T>)
  {
    s.index < |s.input|
  }

  /** The element `n` places ahead, if there is one. */
  function Peek<T>(s: Scanner<T>, n: nat): (r: Option<T>)
    ensures r.Some? <==> s.index + n < |s.input|
    ensures n == 0 ==> (r.Some? <==> Available(s))
  {
    if s.index + n < |s.input| then Some(s.input[s.index + n]) else None
  }

  /** The next `n` elements, if that many remain. */
  function PeekCollection<T>(s: Scanner<T>, n: nat): (r: Option<seq<T>>)
    ensures r.Some? <==> s.index + n <= |s.input|
    ensures r.Some? ==> |r.value| == n
    ensures r.Some? ==> forall i :: 0 <= i < n ==> Peek(s, i) == Some(r.value[i])
  {
    if s.index + n <= |s.input| then Some(s.input[s.index..s.index + n]) else None
  }

  /** Returns the element at the current index and moves `n` places on.
      `None` is the scanner's `fatalError` (moving past the end) or the trap
      of reading the element at the end index. */
  function Advance<T>(s: Scanner<T>, n: nat): (r: Option<(T, Scanner<T>)>)
    ensures r.Some? <==> Available(s) && s.index + n <= |s.input|
    ensures r.Some? ==> Peek(s, 0) == Some(r.value.0)
    ensures r.Some? ==> r.value.1.input == s.input && r.value.1.index == s.index + n
  {
    if s.index + n <= |s.input| && s.index < |s.input| then
      Some((s.input[s.index], Cursor(s.input, s.index + n)))
    else
      None
  }

  /** After advancing by `n`, looking `k` ahead sees what was `n + k` ahead. */
  lemma AdvanceShiftsPeek<T>(s: Scanner<T>, n: nat, k: nat)
    requires Advance(s, n).Some?
    ensures Peek(Advance(s, n).value.1, k) == Peek(s, n + k)
    ensures Available(Advance(s, n).value.1) <==> s.index + n < |s.input|
  {
  }
}
