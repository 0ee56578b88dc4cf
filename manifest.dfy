/**
 * The package manifest (pkg/manifest/manifest.go): package lookup and the
 * download URL for a platform. The platform, which the program reads from
 * the Go runtime, is a parameter here.
 */
module Manifest {
  import opened Wrappers
  import opened Strings

  datatype BinaryInfo = BinaryInfo(names: seq<string>)

  datatype PackageDefinition = PackageDefinition(
    repo: string,
    description: string,
    binaries: BinaryInfo,
    urls: map<string, string>)

  datatype Manifest = Manifest(packages: map<string, PackageDefinition>)

  datatype ManifestError =
    | PackageNotFound(name: string)                  // "package %s not found in manifest"
    | PlatformNotSupported(platform: string, name: string) // "platform %s not supported for %s"

  datatype Platform = Platform(goos: string, goarch: string)

  const VersionPlaceholder: string := "{version}"

  /** The key of a platform in a package's URL table: "{os}-{arch}". */
  function PlatformKey(p: Platform): string {
    p.goos + "-" + p.goarch
  }

  function GetPackage(m: Manifest, name: string): (r: Result<PackageDefinition, ManifestError>)
    ensures r.Ok? <==> name in m.packages
    ensures r.Ok? ==> r.value == m.packages[name]
    ensures r.Err? ==> r.error == PackageNotFound(name)
  {
    if name in m.packages then Ok(m.packages[name]) else Err(PackageNotFound(name))
  }

  /** The URL template registered for the platform, if the package has one. */
  function Template(m: Manifest, name: string, platform: Platform): Option<string> {
    if name in m.packages && PlatformKey(platform) in m.packages[name].urls
    then Some(m.packages[name].urls[PlatformKey(platform)])
    else None
  }

  function GetURL(m: Manifest, name: string, version: string, platform: Platform): (r: Result<string, ManifestError>)
    ensures name !in m.packages ==> r == Err(PackageNotFound(name))
    ensures name in m.packages && PlatformKey(platform) !in m.packages[name].urls ==>
              r == Err(PlatformNotSupported(PlatformKey(platform), name))
    ensures r.Ok? <==> Template(m, name, platform).Some?
    ensures r.Ok? ==> r.value == ReplaceAll(Template(m, name, platform).value, VersionPlaceholder, version)
  {
    match GetPackage(m, name)
    case Err(e) => Err(e)
    case Ok(pkg) =>
      var key := PlatformKey(platform);
      if key !in pkg.urls then Err(PlatformNotSupported(key, name))
      else Ok(ReplaceAll(pkg.urls[key], VersionPlaceholder, version))
  }

  /** A template without "{version}" comes back verbatim. */
  lemma GetURLVerbatim(m: Manifest, name: string, version: string, platform: Platform)
    requires Template(m, name, platform).Some?
    requires !Contains(Template(m, name, platform).value, VersionPlaceholder)
    ensures GetURL(m, name, version, platform) == Ok(Template(m, name, platform).value)
  {
    ReplaceAllAbsent(Template(m, name, platform).value, VersionPlaceholder, version);
  }

  /** Each of the k replaced placeholders changes the length by |version| - 9. */
  lemma GetURLLength(m: Manifest, name: string, version: string, platform: Platform)
    requires Template(m, name, platform).Some?
    ensures var u := Template(m, name, platform).value;
      var k := Count(u, VersionPlaceholder);
      GetURL(m, name, version, platform).Ok?
      && |GetURL(m, name, version, platform).value| == |u| + k * (|version| - 9)
      && (k == 0 <==> !Contains(u, VersionPlaceholder))
  {
    var u := Template(m, name, platform).value;
    ReplaceAllLength(u, VersionPlaceholder, version);
    CountZeroIffAbsent(u, VersionPlaceholder);
  }

  /**
   * The first "{version}" of the template is the version in the URL: the
   * text before it is kept, and the rest is substituted the same way.
   */
  lemma GetURLFirstPlaceholder(m: Manifest, name: string, version: string, platform: Platform, before: string, after: string)
    requires Template(m, name, platform) == Some(before + VersionPlaceholder + after)
    requires forall i | 0 <= i < |before| :: !OccursAt(before + VersionPlaceholder + after, VersionPlaceholder, i)
    ensures GetURL(m, name, version, platform)
      == Ok(before + version + ReplaceAll(after, VersionPlaceholder, version))
  {
    ReplaceAllFirst(before, after, VersionPlaceholder, version);
  }
}
