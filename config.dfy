/** The configured sources: the manifest URLs and the repo URLs the resolver
    starts from. */
module Config {

  /** The directory, under the configuration root, whose files list repo URLs. */
  const REPOS: string := "repos.d"

  /** The directory, under the configuration root, whose files list manifest URLs. */
  const MANIFEST_URLS: string := "manifestUrls.d"

  /** The configured sources, gathered from the configuration files. */
  class Sources {
    var manifestUrls: seq<string>
    var repoUrls: seq<string>

    /** No sources at all. */
    constructor Default()
      ensures manifestUrls == [] && repoUrls == []
    {
      manifestUrls, repoUrls := [], [];
    }

    constructor (manifestUrls: seq<string>, repoUrls: seq<string>)
      ensures this.manifestUrls == manifestUrls && this.repoUrls == repoUrls
    {
      this.manifestUrls, this.repoUrls := manifestUrls, repoUrls;
    }

    /** Append the other sources' lists to these, each to its own kind, with
        no deduplication: a URL present in both is then listed twice. */
    method Extend(other: Sources)
      modifies this
      ensures manifestUrls == old(manifestUrls) + old(other.manifestUrls)
      ensures repoUrls == old(repoUrls) + old(other.repoUrls)
      ensures |manifestUrls| == old(|manifestUrls|) + old(|other.manifestUrls|)
      ensures |repoUrls| == old(|repoUrls|) + old(|other.repoUrls|)
      ensures old(other.manifestUrls) == [] && old(other.repoUrls) == [] ==>
                manifestUrls == old(manifestUrls) && repoUrls == old(repoUrls)
    {
      var moreManifests, moreRepos := other.manifestUrls, other.repoUrls;
      manifestUrls := manifestUrls + moreManifests;
      repoUrls := repoUrls + moreRepos;
      assert old(manifestUrls) + [] == old(manifestUrls) && old(repoUrls) + [] == old(repoUrls);
    }
  }
}
