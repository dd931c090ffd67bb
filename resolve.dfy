/** The resolver: expands repo URLs into manifest URLs, fetches every distinct
    manifest once, tags each package with the manifest URL it came from and
    keeps the ones the caller's filter accepts. Fetch failures are reported to
    an issue sink and never abort the run. */
module Resolve {
  import opened Common
  import opened Schema

  /** Why fetching a remote document failed. */
  datatype LoadError =
    | Reqwest(detail: string)  // building or sending the request, or reading the body, failed
    | Server(status: nat)      // the server answered with a non-success status
    | Serde(detail: string)    // the body is not a document of the requested schema

  /** An issue reported during resolution: the URL attempted and what went wrong. */
  datatype ResolutionError = ResolutionError(url: string, error: LoadError)

  /** The resolver inputs. */
  datatype Params = Params(manifestUrls: seq<string>, repoUrls: seq<string>)

  /** A value paired with the URL of the manifest it was found in. */
  datatype Contextualized<T> = Contextualized(manifestUrl: string, value: T)

  /** The document fetcher, one entry point per document schema. Each call is
      one GET of the URL followed by parsing the body. */
  datatype Remote = Remote(
    loadRepo: string -> Result<Repo, LoadError>,
    loadManifest: string -> Result<Manifest, LoadError>)

  /** The manifest URLs a repo document lists. */
  function ListedUrls(repo: Repo): set<string>
  {
    set m | m in repo.manifestUrls :: m.url
  }

  function Tag(url: string, packages: seq<Package>): seq<Contextualized<Package>>
  {
    seq(|packages|, i requires 0 <= i < |packages| => Contextualized(url, packages[i]))
  }

  // ---------------------------------------------------------------------------
  // Specification of one run, defined over the URLs processed so far
  // (each step extends the previous prefix by its last URL).

  /** The manifest URLs contributed by those of `repoUrls` that load. */
  function ReposManifestUrls(remote: Remote, repoUrls: seq<string>): set<string>
  {
    if repoUrls == [] then {}
    else
      var url := repoUrls[|repoUrls| - 1];
      ReposManifestUrls(remote, repoUrls[..|repoUrls| - 1])
        + (match remote.loadRepo(url)
           case Ok(repo) => ListedUrls(repo)
           case Err(_) => {})
  }

  /** One issue per repo URL whose document does not load, in input order. */
  function RepoIssues(remote: Remote, repoUrls: seq<string>): seq<ResolutionError>
  {
    if repoUrls == [] then []
    else
      var url := repoUrls[|repoUrls| - 1];
      RepoIssues(remote, repoUrls[..|repoUrls| - 1])
        + (match remote.loadRepo(url)
           case Ok(_) => []
           case Err(e) => [ResolutionError(url, e)])
  }

  /** Every manifest URL the run fetches: the caller's plus those of every repo that loads. */
  function ManifestSet(remote: Remote, params: Params): set<string>
  {
    (set u | u in params.manifestUrls) + ReposManifestUrls(remote, params.repoUrls)
  }

  /** What one manifest URL contributes to the result. */
  function Contribution(remote: Remote, keep: Contextualized<Package> -> bool, url: string): seq<Contextualized<Package>>
  {
    match remote.loadManifest(url)
    case Ok(manifest) => Retain(keep, Tag(url, manifest.binaries))
    case Err(_) => []
  }

  /** The accumulated result after visiting the manifest URLs `order`. */
  function Gather(remote: Remote, keep: Contextualized<Package> -> bool, order: seq<string>): seq<Contextualized<Package>>
  {
    if order == [] then []
    else Gather(remote, keep, order[..|order| - 1]) + Contribution(remote, keep, order[|order| - 1])
  }

  /** One issue per visited manifest URL whose document does not load, in visiting order. */
  function ManifestIssues(remote: Remote, order: seq<string>): seq<ResolutionError>
  {
    if order == [] then []
    else
      var url := order[|order| - 1];
      ManifestIssues(remote, order[..|order| - 1])
        + (match remote.loadManifest(url)
           case Ok(_) => []
           case Err(e) => [ResolutionError(url, e)])
  }

  // ---------------------------------------------------------------------------
  // The resolver itself.

  /** The first loop: fetch every repo, in input order, adding the manifest
      URLs it lists to the caller's set. `issues` is what is sent to the
      issue sink and `fetched` every URL loaded, in order. */
  method ExpandRepos(remote: Remote, params: Params)
    returns (manifestUrls: set<string>, ghost issues: seq<ResolutionError>, ghost fetched: seq<string>)
    ensures manifestUrls == ManifestSet(remote, params)
    ensures issues == RepoIssues(remote, params.repoUrls)
    ensures fetched == params.repoUrls
  {
    var repoUrls := params.repoUrls;
    manifestUrls := set u | u in params.manifestUrls;
    issues := [];
    fetched := [];

    for i := 0 to |repoUrls|
      invariant manifestUrls == (set u | u in params.manifestUrls) + ReposManifestUrls(remote, repoUrls[..i])
      invariant issues == RepoIssues(remote, repoUrls[..i])
      invariant fetched == repoUrls[..i]
    {
      var url := repoUrls[i];
      assert repoUrls[..i + 1][..i] == repoUrls[..i];
      fetched := fetched + [url];
      match remote.loadRepo(url) {
        case Err(err) =>
          issues := issues + [ResolutionError(url, err)];
          continue;
        case Ok(repo) =>
          manifestUrls := manifestUrls + ListedUrls(repo);
      }
    }
    assert repoUrls[..|repoUrls|] == repoUrls;
  }

  /** The second loop: fetch each manifest URL of the set once, in an
      unspecified order (a hash set's iteration order), recorded as `order`,
      and gather the accepted packages of those that load. */
  method VisitManifests(remote: Remote, keep: Contextualized<Package> -> bool, manifestUrls: set<string>)
    returns (binaries: seq<Contextualized<Package>>, ghost issues: seq<ResolutionError>, ghost order: seq<string>)
    ensures NoDup(order)
    ensures forall u :: u in order <==> u in manifestUrls
    ensures binaries == Gather(remote, keep, order)
    ensures issues == ManifestIssues(remote, order)
  {
    binaries := [];
    issues := [];
    order := [];
    var remaining := manifestUrls;
    while remaining != {}
      invariant forall u :: u in remaining || u in order <==> u in manifestUrls
      invariant forall u :: u in order ==> u !in remaining
      invariant NoDup(order)
      invariant binaries == Gather(remote, keep, order)
      invariant issues == ManifestIssues(remote, order)
      decreases remaining
    {
      var url :| url in remaining;
      remaining := remaining - {url};
      NoDupSnoc(order, url);
      VisitOne(remote, keep, order, url);
      order := order + [url];
      match remote.loadManifest(url) {
        case Err(err) =>
          issues := issues + [ResolutionError(url, err)];
          continue;
        case Ok(manifest) =>
          binaries := binaries + Retain(keep, Tag(url, manifest.binaries));
      }
    }
  }

  /** Visiting one more URL extends the result by its contribution and the
      issues by its failure, if any. */
  lemma VisitOne(remote: Remote, keep: Contextualized<Package> -> bool, order: seq<string>, url: string)
    ensures Gather(remote, keep, order + [url]) == Gather(remote, keep, order) + Contribution(remote, keep, url)
    ensures ManifestIssues(remote, order + [url])
         == ManifestIssues(remote, order) + (match remote.loadManifest(url)
                                             case Ok(_) => []
                                             case Err(e) => [ResolutionError(url, e)])
  {
    assert (order + [url])[..|order|] == order;
  }

  /** Resolve the packages. `issues` is what is sent to the issue sink, `order`
      the order in which the distinct manifest URLs are visited and `fetched`
      every URL loaded, in order. */
  method Resolve(remote: Remote, params: Params, keep: Contextualized<Package> -> bool)
    returns (binaries: seq<Contextualized<Package>>,
             ghost issues: seq<ResolutionError>, ghost order: seq<string>, ghost fetched: seq<string>)
    ensures fetched == params.repoUrls + order
    ensures NoDup(order)
    ensures forall u :: u in order <==> u in ManifestSet(remote, params)
    ensures binaries == Gather(remote, keep, order)
    ensures issues == RepoIssues(remote, params.repoUrls) + ManifestIssues(remote, order)
    ensures forall x :: x in binaries <==> exists u :: u in ManifestSet(remote, params) && Survives(remote, keep, u, x)
  {
    var manifestUrls, repoIssues, repoFetched := ExpandRepos(remote, params);
    ghost var manifestIssues;
    binaries, manifestIssues, order := VisitManifests(remote, keep, manifestUrls);
    issues := repoIssues + manifestIssues;
    fetched := repoFetched + order;
    GatherCovers(remote, keep, order, manifestUrls);
  }

  // ---------------------------------------------------------------------------
  // Properties of a run.

  /** `x` is a package of the manifest at `url`, which loads, tagged with that
      URL and accepted by the filter. */
  ghost predicate Survives(remote: Remote, keep: Contextualized<Package> -> bool, url: string, x: Contextualized<Package>)
  {
    && remote.loadManifest(url).Ok?
    && x.manifestUrl == url
    && x.value in remote.loadManifest(url).value.binaries
    && keep(x)
  }

  lemma TagMembership(url: string, packages: seq<Package>, x: Contextualized<Package>)
    ensures x in Tag(url, packages) <==> x.manifestUrl == url && x.value in packages
  {
    if x.manifestUrl == url && x.value in packages {
      var i :| 0 <= i < |packages| && packages[i] == x.value;
      assert Tag(url, packages)[i] == x;
    }
  }

  /** The result holds exactly the surviving packages of the visited manifests. */
  lemma {:induction false} GatherMembership(remote: Remote, keep: Contextualized<Package> -> bool, order: seq<string>, x: Contextualized<Package>)
    ensures x in Gather(remote, keep, order) <==> exists u :: u in order && Survives(remote, keep, u, x)
  {
    if order != [] {
      var init, last := order[..|order| - 1], order[|order| - 1];
      assert order == init + [last];
      GatherMembership(remote, keep, init, x);
      match remote.loadManifest(last) {
        case Ok(m) => TagMembership(last, m.binaries, x);
        case Err(_) =>
      }
      if x in Contribution(remote, keep, last) {
        assert Survives(remote, keep, last, x);
      }
      if x in Gather(remote, keep, init) {
        var u :| u in init && Survives(remote, keep, u, x);
        assert u in order;
      }
      if exists u :: u in order && Survives(remote, keep, u, x) {
        var u :| u in order && Survives(remote, keep, u, x);
        if u != last {
          assert u in init;
        }
      }
    }
  }

  /** Visiting a set of manifest URLs in any order yields exactly the
      surviving packages of the manifests in that set. */
  lemma GatherCovers(remote: Remote, keep: Contextualized<Package> -> bool, order: seq<string>, urls: set<string>)
    requires forall u :: u in order <==> u in urls
    ensures forall x :: x in Gather(remote, keep, order) <==> exists u :: u in urls && Survives(remote, keep, u, x)
  {
    forall x ensures x in Gather(remote, keep, order) <==> exists u :: u in urls && Survives(remote, keep, u, x) {
      GatherMembership(remote, keep, order, x);
    }
  }

  /** The items of `xs` tagged with `url`, in order. */
  function TaggedWith(url: string, xs: seq<Contextualized<Package>>): seq<Contextualized<Package>>
  {
    Retain((x: Contextualized<Package>) => x.manifestUrl == url, xs)
  }

  /** Every item in the result of a run is tagged with a visited manifest URL. */
  lemma {:induction false} GatherTags(remote: Remote, keep: Contextualized<Package> -> bool, order: seq<string>, x: Contextualized<Package>)
    requires x in Gather(remote, keep, order)
    ensures x.manifestUrl in order
  {
    GatherMembership(remote, keep, order, x);
  }

  /** Within the result, the packages of one manifest appear exactly as the
      filter leaves that manifest's list, in the manifest's order. */
  lemma {:induction false} GatherKeepsManifestOrder(remote: Remote, keep: Contextualized<Package> -> bool, order: seq<string>, url: string)
    requires NoDup(order) && url in order
    ensures TaggedWith(url, Gather(remote, keep, order)) == Contribution(remote, keep, url)
  {
    var init, last := order[..|order| - 1], order[|order| - 1];
    assert order == init + [last];
    var p := (x: Contextualized<Package>) => x.manifestUrl == url;
    RetainAppend(p, Gather(remote, keep, init), Contribution(remote, keep, last));
    if last == url {
      assert url !in init;
      var before := TaggedWith(url, Gather(remote, keep, init));
      if before != [] {
        assert before[0] in before;
        GatherTags(remote, keep, init, before[0]);
        assert false;
      }
      forall x | x in Contribution(remote, keep, url) ensures p(x) {
        var m := remote.loadManifest(url).value;
        TagMembership(url, m.binaries, x);
      }
      RetainAll(p, Contribution(remote, keep, url));
    } else {
      assert url in init;
      assert NoDup(init);
      GatherKeepsManifestOrder(remote, keep, init, url);
      var after := TaggedWith(url, Contribution(remote, keep, last));
      if after != [] {
        assert after[0] in after;
        var m := remote.loadManifest(last).value;
        TagMembership(last, m.binaries, after[0]);
        assert false;
      }
    }
  }

  lemma {:induction false} RetainAll<T(!new)>(keep: T -> bool, xs: seq<T>)
    requires forall x :: x in xs ==> keep(x)
    ensures Retain(keep, xs) == xs
  {
    if xs != [] {
      RetainAll(keep, xs[1..]);
    }
  }

  /** The repo URLs whose document does not load, with repetitions. */
  function FailedRepos(remote: Remote, repoUrls: seq<string>): seq<string>
  {
    Retain((u: string) => remote.loadRepo(u).Err?, repoUrls)
  }

  /** Each repo URL that fails to load yields exactly one issue naming it and
      carrying the loader's error, in input order. */
  lemma {:induction false} RepoIssuesAccount(remote: Remote, repoUrls: seq<string>)
    ensures |RepoIssues(remote, repoUrls)| == |FailedRepos(remote, repoUrls)|
    ensures forall k :: 0 <= k < |RepoIssues(remote, repoUrls)| ==>
      var e := RepoIssues(remote, repoUrls)[k];
      e.url == FailedRepos(remote, repoUrls)[k] && remote.loadRepo(e.url) == Err(e.error)
  {
    if repoUrls != [] {
      var init, last := repoUrls[..|repoUrls| - 1], repoUrls[|repoUrls| - 1];
      assert repoUrls == init + [last];
      RepoIssuesAccount(remote, init);
      RetainAppend((u: string) => remote.loadRepo(u).Err?, init, [last]);
    }
  }

  /** The distinct manifest URLs of a visiting order whose document does not load. */
  function FailedManifests(remote: Remote, order: seq<string>): set<string>
  {
    set u | u in order && remote.loadManifest(u).Err?
  }

  /** Each visited manifest URL that fails to load yields exactly one issue
      naming it and carrying the loader's error. */
  lemma {:induction false} ManifestIssuesAccount(remote: Remote, order: seq<string>)
    requires NoDup(order)
    ensures |ManifestIssues(remote, order)| == |FailedManifests(remote, order)|
    ensures forall e :: e in ManifestIssues(remote, order) ==>
      e.url in order && remote.loadManifest(e.url) == Err(e.error)
    ensures forall u :: u in order && remote.loadManifest(u).Err? ==>
      ResolutionError(u, remote.loadManifest(u).error) in ManifestIssues(remote, order)
  {
    if order != [] {
      var init, last := order[..|order| - 1], order[|order| - 1];
      assert order == init + [last];
      assert NoDup(init);
      ManifestIssuesAccount(remote, init);
      assert last !in init;
      if remote.loadManifest(last).Err? {
        assert FailedManifests(remote, order) == FailedManifests(remote, init) + {last};
      } else {
        assert FailedManifests(remote, order) == FailedManifests(remote, init);
      }
    }
  }

  /** The issue count of a run: one per failed repo URL plus one per failed
      distinct manifest URL. */
  lemma ResolveIssueCount(remote: Remote, params: Params, order: seq<string>)
    requires NoDup(order)
    requires forall u :: u in order <==> u in ManifestSet(remote, params)
    ensures |RepoIssues(remote, params.repoUrls) + ManifestIssues(remote, order)|
         == |FailedRepos(remote, params.repoUrls)|
          + |set u | u in ManifestSet(remote, params) && remote.loadManifest(u).Err?|
  {
    RepoIssuesAccount(remote, params.repoUrls);
    ManifestIssuesAccount(remote, order);
    assert FailedManifests(remote, order) == set u | u in ManifestSet(remote, params) && remote.loadManifest(u).Err?;
  }

  /** Helper for `Resolve`'s `NoDup(order)`: in a visiting order without repetitions each URL is fetched exactly once;
      in particular a manifest URL the caller lists twice, or that two repos
      both list, is fetched once. */
  lemma {:induction false} VisitedOnce(order: seq<string>, url: string)
    requires NoDup(order) && url in order
    ensures multiset(order)[url] == 1
  {
    var init, last := order[..|order| - 1], order[|order| - 1];
    assert order == init + [last];
    assert multiset(order) == multiset(init) + multiset{last};
    assert NoDup(init);
    if last == url {
      assert url !in init;
      assert url !in multiset(init);
    } else {
      VisitedOnce(init, url);
    }
  }
}
