/** The parts of the Red Hat CVE feed schema and of the RPM package identifier
    that the package index reads. */
module Schema {
  import opened Wrappers

  /** One CVE record of the feed.
      `affectedRelease` holds the `Package` field of each AffectedRelease entry:
      a full RPM specifier (name, version, release together), possibly empty.
      `packageState` holds the `PackageName` field of each PackageState entry:
      a bare base package name, possibly empty. */
  datatype CVE = CVE(name: string, affectedRelease: seq<string>, packageState: seq<string>)

  /** The feed: CVE records in the order in which the index build visits
      them (`range feed`). */
  type Feed = seq<CVE>

  /** A parsed RPM specifier. Only `name`, the base package name, is read by the
      index; the whole value is handed on to the applicability checker. */
  datatype RpmPackage = RpmPackage(name: string, version: string, release: string)

  /** The RPM specifier parser, which lives outside this model: it either yields
      a package or fails with an error message. */
  type RpmParser = string -> Result<RpmPackage, string>
}
