/** Generic facts about sequences that several components rely on. */
module Seqs {

  /** `f` applied to every element, in order. */
  function Map<A, B>(f: A -> B, s: seq<A>): (r: seq<B>)
    ensures |r| == |s|
    decreases |s|
  {
    if s == [] then [] else [f(s[0])] + Map(f, s[1..])
  }

  lemma {:induction false} MapAppend<A, B>(f: A -> B, a: seq<A>, b: seq<A>)
    ensures Map(f, a + b) == Map(f, a) + Map(f, b)
    decreases |a|
  {
    if a == [] {
      assert a + b == b;
    } else {
      MapAppend(f, a[1..], b);
      assert (a + b)[1..] == a[1..] + b;
      assert (a + b)[0] == a[0];
      assert Map(f, a) == [f(a[0])] + Map(f, a[1..]);
    }
  }

  lemma {:induction false} MapIndex<A, B>(f: A -> B, s: seq<A>, i: nat)
    requires i < |s|
    ensures Map(f, s)[i] == f(s[i])
    decreases |s|
  {
    if i > 0 {
      MapIndex(f, s[1..], i - 1);
    }
  }

  /** Indexing into `a + b + [x]`. */
  lemma IndexAppend3<T>(a: seq<T>, b: seq<T>, x: T, i: nat)
    requires i < |a| + |b| + 1
    ensures (a + b + [x])[i] == if i < |a| then a[i] else if i < |a| + |b| then b[i - |a|] else x
  {
  }

  /** Regrouping the appends of a growing list. */
  lemma AppendAssoc<T>(a: seq<T>, l: seq<T>, r: seq<T>, x: T)
    ensures a + l + r + [x] == a + (l + r + [x])
  {
  }

  lemma ConsAssoc<T>(x: T, a: seq<T>, b: seq<T>)
    ensures [x] + (a + b) == [x] + a + b
  {
  }

  /** Moving the head of what is left onto what is done. */
  lemma MovePrefix<T>(done: seq<T>, x: T, rest: seq<T>)
    ensures done + ([x] + rest) == done + [x] + rest
  {
  }

  /** The concatenation of `f` of every element, in order. */
  function ConcatMap<A, T>(f: A -> seq<T>, s: seq<A>): seq<T>
    decreases |s|
  {
    if s == [] then [] else ConcatMap(f, s[..|s| - 1]) + f(s[|s| - 1])
  }

  lemma {:induction false} ConcatMapAppend<A, T>(f: A -> seq<T>, a: seq<A>, b: seq<A>)
    ensures ConcatMap(f, a + b) == ConcatMap(f, a) + ConcatMap(f, b)
    decreases |b|
  {
    if b == [] {
      assert a + b == a;
    } else {
      var w := a + b;
      assert w[..|w| - 1] == a + b[..|b| - 1];
      assert w[|w| - 1] == b[|b| - 1];
      ConcatMapAppend(f, a, b[..|b| - 1]);
    }
  }

  /** One more element adds its image at the end. */
  lemma ConcatMapSnoc<A, T>(f: A -> seq<T>, s: seq<A>, i: nat)
    requires i < |s|
    ensures ConcatMap(f, s[..i + 1]) == ConcatMap(f, s[..i]) + f(s[i])
  {
    assert s[..i + 1][..i] == s[..i];
  }
}
