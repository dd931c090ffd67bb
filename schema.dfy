/** The remote document schemas: a repo lists manifest URLs, a manifest lists
    packages, a package lists the files to install. Field names follow the
    Rust structs; the camelCase wire names are a serialization concern. */
module Schema {

  /** Platform code, as `uname -s` reports it ("Linux", "Darwin", ...). */
  datatype Platform = Platform(code: string)

  /** Architecture code, as `uname -m` reports it ("x86_64", "arm64", ...). */
  datatype Arch = Arch(code: string)

  /** A path relative to the distribution root. */
  datatype LocalPath = LocalPath(path: string)

  /** A URL reference, resolved against the manifest URL. */
  datatype Url = Url(text: string)

  /** Hexadecimal text of a SHA-256 sum. */
  datatype Sha256 = Sha256(hex: string)

  /** One installable file of a package. */
  datatype File = File(subUrl: Url, destinationSubPath: LocalPath, sha256: Sha256)

  /** One installable package (the Rust type is named `Binary`). */
  datatype Package = Package(
    platform: Platform,
    arch: Arch,
    displayName: string,
    description: string,
    icon: string,
    executablePath: LocalPath,
    chainspecPath: LocalPath,
    ngrokPath: LocalPath,
    humanodeWebsocketTunnelClientPath: LocalPath,
    files: seq<File>)

  /** A manifest document. */
  datatype Manifest = Manifest(binaries: seq<Package>)

  /** A reference to a manifest inside a repo document. */
  datatype ManifestUrl = ManifestUrl(url: string)

  /** A repo document. */
  datatype Repo = Repo(manifestUrls: seq<ManifestUrl>)
}
