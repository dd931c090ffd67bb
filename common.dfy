/** Small shared vocabulary: optional values, results, bytes, and the
    order-preserving filter that both the resolver and the target filter use. */
module Common {

  datatype Option<+T> = None | Some(value: T)

  datatype Result<+T, +E> = Ok(value: T) | Err(error: E)

  /** An octet, as stored in files and fed to the digest. */
  newtype byte = b: int | 0 <= b < 0x100

  /** `xs` with no element occurring twice. */
  ghost predicate NoDup<T>(xs: seq<T>)
  {
    forall i, j :: 0 <= i < j < |xs| ==> xs[i] != xs[j]
  }

  /** Appending an element not yet present keeps a sequence free of repetitions. */
  lemma NoDupSnoc<T>(xs: seq<T>, x: T)
    requires NoDup(xs) && x !in xs
    ensures NoDup(xs + [x])
  {
    forall i, j | 0 <= i < j < |xs + [x]|
      ensures (xs + [x])[i] != (xs + [x])[j]
    {
      assert (xs + [x])[i] == xs[i];
      if j < |xs| {
        assert (xs + [x])[j] == xs[j];
      }
    }
  }

  /** `sub` can be obtained from `xs` by deleting elements, i.e. it keeps their relative order. */
  ghost predicate IsSubsequence<T>(sub: seq<T>, xs: seq<T>)
    decreases |xs|
  {
    if sub == [] then true
    else if xs == [] then false
    else if sub[0] == xs[0] then IsSubsequence(sub[1..], xs[1..])
    else IsSubsequence(sub, xs[1..])
  }

  /** The elements of `xs` satisfying `keep`, in their original order
      (Rust's `Iterator::filter`, collected). */
  function Retain<T(!new)>(keep: T -> bool, xs: seq<T>): (r: seq<T>)
    ensures |r| <= |xs|
    ensures forall x :: x in r <==> x in xs && keep(x)
  {
    if xs == [] then []
    else if keep(xs[0]) then [xs[0]] + Retain(keep, xs[1..])
    else Retain(keep, xs[1..])
  }

  lemma {:induction false} RetainAppend<T(!new)>(keep: T -> bool, a: seq<T>, b: seq<T>)
    ensures Retain(keep, a + b) == Retain(keep, a) + Retain(keep, b)
  {
    if a == [] {
      assert a + b == b;
    } else {
      assert (a + b)[1..] == a[1..] + b;
      RetainAppend(keep, a[1..], b);
    }
  }

  lemma {:induction false} RetainIsSubsequence<T(!new)>(keep: T -> bool, xs: seq<T>)
    ensures IsSubsequence(Retain(keep, xs), xs)
  {
    if xs != [] {
      RetainIsSubsequence(keep, xs[1..]);
      if keep(xs[0]) {
        assert ([xs[0]] + Retain(keep, xs[1..]))[1..] == Retain(keep, xs[1..]);
      } else {
        var r := Retain(keep, xs[1..]);
        if r != [] {
          SubsequenceSkipHead(r, xs);
        }
      }
    }
  }

  /** Dropping the head of the longer sequence keeps a subsequence a subsequence. */
  lemma {:induction false} SubsequenceSkipHead<T>(sub: seq<T>, xs: seq<T>)
    requires xs != [] && IsSubsequence(sub, xs[1..])
    ensures IsSubsequence(sub, xs)
    decreases |xs|, 0
  {
    if sub != [] && sub[0] == xs[0] {
      SubsequenceTail(sub, xs[1..]);
    }
  }

  lemma {:induction false} SubsequenceTail<T>(sub: seq<T>, xs: seq<T>)
    requires sub != [] && IsSubsequence(sub, xs)
    ensures IsSubsequence(sub[1..], xs)
    decreases |xs|, 1
  {
    if sub[0] != xs[0] {
      SubsequenceTail(sub, xs[1..]);
    }
    SubsequenceSkipHead(sub[1..], xs);
  }

  /** Everything `Retain` keeps satisfies `keep`, so a second pass keeps it all. */
  lemma {:induction false} RetainIdempotent<T(!new)>(keep: T -> bool, xs: seq<T>)
    ensures Retain(keep, Retain(keep, xs)) == Retain(keep, xs)
  {
    if xs != [] {
      RetainIdempotent(keep, xs[1..]);
    }
  }
}
