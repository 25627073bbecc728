/** The tuple helpers of `src/lib/array.ts`. A JavaScript array is a Dafny
    sequence. `head` and `last` read an element, so they need one; `tail`
    and `init` slice or destructure, which gives `[]` for `[]`. */
module Arrays {

  /** `a.hasOwnProperty(k)` for an index key `k`: the array has an element
      there. */
  predicate HasIndex<A>(a: seq<A>, k: nat)
  {
    k < |a|
  }

  /** `isNonEmptyArray(a)`: `a.hasOwnProperty(0)`. */
  predicate IsNonEmptyArray<A>(a: seq<A>)
  {
    HasIndex(a, 0)
  }

  /** Owning index 0 is the same as having at least one element, and then
      every index below the length is owned. */
  lemma NonEmptyIff<A>(a: seq<A>)
    ensures IsNonEmptyArray(a) <==> |a| >= 1
    ensures IsNonEmptyArray(a) ==> forall k: nat :: k < |a| ==> HasIndex(a, k)
  {
  }

  /** `head(a)`: `const [h] = a`. */
  function Head<A>(a: seq<A>): A
    requires |a| >= 1
  {
    a[0]
  }

  /** `tail(a)`: `const [_h, ...t] = a`. */
  function Tail<A>(a: seq<A>): seq<A>
  {
    if |a| == 0 then [] else a[1..]
  }

  /** `init(a)`: `a.slice(0, -1)`. */
  function Init<A>(a: seq<A>): seq<A>
  {
    if |a| == 0 then [] else a[..|a| - 1]
  }

  /** `last(a)`: `a[a.length - 1]`. */
  function Last<A>(a: seq<A>): A
    requires |a| >= 1
  {
    a[|a| - 1]
  }

  /** The head followed by the tail is the array. */
  lemma HeadTail<A>(a: seq<A>)
    requires |a| >= 1
    ensures [Head(a)] + Tail(a) == a
  {
  }

  /** The init followed by the last element is the array. */
  lemma InitLast<A>(a: seq<A>)
    requires |a| >= 1
    ensures Init(a) + [Last(a)] == a
  {
  }

  /** `tail` and `init` each drop exactly one element of a non-empty array
      and nothing of an empty one. */
  lemma TailInitLength<A>(a: seq<A>)
    ensures |Tail(a)| == |Init(a)| == if |a| == 0 then 0 else |a| - 1
  {
  }

  /** Splitting off a known head or last element. */
  lemma Cons<A>(h: A, t: seq<A>)
    ensures Head([h] + t) == h && Tail([h] + t) == t
  {
  }

  lemma Snoc<A>(i: seq<A>, l: A)
    ensures Last(i + [l]) == l && Init(i + [l]) == i
  {
  }
}
