/** Two facts about sequences that the solver has to be told. */
module Sequences {

  lemma Associate<T>(a: seq<T>, b: seq<T>, c: seq<T>)
    ensures (a + b) + c == a + (b + c)
  {
  }

  /** What is left from index i on; nothing behind the end. */
  function From<T>(s: seq<T>, i: nat): (r: seq<T>)
    ensures |r| == if i < |s| then |s| - i else 0
  {
    if i < |s| then s[i..] else []
  }

  lemma FromFrom<T>(s: seq<T>, i: nat, n: nat)
    requires i < |s|
    ensures From(s, i + n) == From(From(s, i), n)
  {
    if i + n < |s| {
      assert s[i..][n..] == s[i + n..];
    }
  }
}
