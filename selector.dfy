/** The package selector: reduces the resolved packages to exactly one, using
    the optional display name to disambiguate. */
module Selector {
  import opened Common
  import opened Schema
  import opened Resolve

  /** Why no package could be selected. */
  datatype SelectionError =
    | NoPackages         // there is nothing to choose from
    | NotSpecificEnough  // several packages and no display name to choose by
    | NotFound           // no package carries the requested display name

  /** The first element of `xs` whose package has display name `name`. */
  function Find(xs: seq<Contextualized<Package>>, name: string): (r: Option<Contextualized<Package>>)
    ensures r.Some? ==> exists i :: 0 <= i < |xs| && xs[i] == r.value && FirstNamed(xs, name, i)
    ensures r.None? ==> forall i :: 0 <= i < |xs| ==> xs[i].value.displayName != name
  {
    if xs == [] then None
    else if xs[0].value.displayName == name then Some(xs[0])
    else Find(xs[1..], name)
  }

  /** `i` is the first position of `xs` whose package has display name `name`. */
  ghost predicate FirstNamed(xs: seq<Contextualized<Package>>, name: string, i: int)
  {
    && 0 <= i < |xs|
    && xs[i].value.displayName == name
    && forall j :: 0 <= j < i ==> xs[j].value.displayName != name
  }

  /** The selector parameters. */
  datatype Selector = Selector(packageDisplayName: Option<string>) {

    /** Select one package: take the last one off, then either settle on it
        (nothing else and no name), refuse (several and no name), or search
        the remainder followed by the last one for the name. */
    function Select(binaries: seq<Contextualized<Package>>): (r: Result<Contextualized<Package>, SelectionError>)
      ensures binaries == [] <==> r == Err(NoPackages)
      ensures r.Ok? ==> r.value in binaries
      ensures packageDisplayName.None? && |binaries| == 1 ==> r == Ok(binaries[0])
      ensures packageDisplayName.None? && |binaries| >= 2 ==> r == Err(NotSpecificEnough)
      ensures packageDisplayName.Some? && r.Ok? ==> r.value.value.displayName == packageDisplayName.value
      ensures packageDisplayName.Some? && binaries != [] ==>
        (r == Err(NotFound) <==> forall i :: 0 <= i < |binaries| ==> binaries[i].value.displayName != packageDisplayName.value)
    {
      if binaries == [] then Err(NoPackages)
      else
        var last := binaries[|binaries| - 1];
        var remainder := binaries[..|binaries| - 1];
        match packageDisplayName
        case None =>
          if remainder != [] then Err(NotSpecificEnough) else Ok(last)
        case Some(name) =>
          assert remainder + [last] == binaries;
          match Find(remainder + [last], name)
          case Some(selected) => Ok(selected)
          case None => Err(NotFound)
    }
  }

  /** With a display name, the package selected is the first one in list order
      that carries it, wherever it stands in the list. */
  lemma SelectFirstByName(s: Selector, binaries: seq<Contextualized<Package>>, i: int)
    requires s.packageDisplayName.Some?
    requires FirstNamed(binaries, s.packageDisplayName.value, i)
    ensures s.Select(binaries) == Ok(binaries[i])
  {
    var name := s.packageDisplayName.value;
    var remainder, last := binaries[..|binaries| - 1], binaries[|binaries| - 1];
    assert remainder + [last] == binaries;
    var r := Find(binaries, name);
    var k :| 0 <= k < |binaries| && binaries[k] == r.value && FirstNamed(binaries, name, k);
    assert !(k < i) && !(i < k);
  }
}
