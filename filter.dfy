/** The target filter: keeps the packages built for one platform and architecture. */
module Filter {
  import opened Common
  import opened Schema
  import opened Resolve

  /** The target platform and architecture. */
  datatype Params = Params(platform: string, arch: string) {

    /** Whether the package is built for the target. */
    predicate Matches(item: Contextualized<Package>): (b: bool)
      ensures b <==> item.value.platform == Platform(platform) && item.value.arch == Arch(arch)
    {
      item.value.platform.code == platform && item.value.arch.code == arch
    }

    /** `Matches` as a value, for passing to filters. */
    function Accepts(): Contextualized<Package> -> bool
    {
      (item: Contextualized<Package>) => Matches(item)
    }

    /** The items built for the target, in their original order. */
    function Filter(items: seq<Contextualized<Package>>): (r: seq<Contextualized<Package>>)
      ensures |r| <= |items|
      ensures forall x :: x in r <==> x in items && Matches(x)
      ensures IsSubsequence(r, items)
    {
      RetainIsSubsequence(Accepts(), items);
      Retain(Accepts(), items)
    }
  }

  /** `Matches` looks only at the package's platform and architecture: two items
      that agree on those are both kept or both dropped, whatever their manifest
      URL, display name, paths or files. */
  lemma MatchesOnlyTarget(p: Params, a: Contextualized<Package>, b: Contextualized<Package>)
    requires a.value.platform == b.value.platform && a.value.arch == b.value.arch
    ensures p.Matches(a) == p.Matches(b)
  {
  }

  /** Filtering twice is filtering once. */
  lemma FilterIdempotent(p: Params, items: seq<Contextualized<Package>>)
    ensures p.Filter(p.Filter(items)) == p.Filter(items)
  {
    RetainIdempotent(p.Accepts(), items);
  }

  /** Filtering a concatenation filters each part. */
  lemma FilterAppend(p: Params, a: seq<Contextualized<Package>>, b: seq<Contextualized<Package>>)
    ensures p.Filter(a + b) == p.Filter(a) + p.Filter(b)
  {
    RetainAppend(p.Accepts(), a, b);
  }
}
