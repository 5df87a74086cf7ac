/** Resolution of the CVEs that do not apply to one installed package on one
    distribution: parse both identifiers, build the index, build the checker,
    and keep the CVEs of the package's bucket that the checker accepts. */
module FixedCves {
  import opened Wrappers
  import opened Schema
  import opened PackageIndex

  /** Why a listing failed; `cause` is the collaborator's own error message. */
  datatype ListError =
    | BadDistro(distro: string, cause: string)
    | BadPackage(pkg: string, cause: string)
    | NoChecker(cause: string)

  /** The CPE parser for the distribution identifier; `D` stands for its
      parsed form, which this model never looks into. */
  type DistroParser<D> = string -> Result<D, string>

  /** Whether the CVE called by the last argument does not apply to the
      package on the distribution. */
  type Check<!D> = (RpmPackage, D, string) -> bool

  /** Builds the checker from the feed, or fails. */
  type CheckerBuilder<!D> = Feed -> Result<Check<D>, string>

  /** The names of the CVEs of `bucket`, in bucket order, that `check` accepts
      for package `p` on distribution `d`. */
  function AcceptedNames<D>(bucket: seq<CVE>, p: RpmPackage, d: D, check: Check<D>): seq<string>
    decreases |bucket|
  {
    if |bucket| == 0 then []
    else
      var cve := bucket[|bucket| - 1];
      AcceptedNames(bucket[..|bucket| - 1], p, d, check) + (if check(p, d, cve.name) then [cve.name] else [])
  }

  /** Lists the CVEs that do not apply to package specifier `pkg` on the
      distribution named by CPE `distro`. The steps fail fast: a bad distro
      stops before the package is parsed, a bad package stops before the
      checker is built. On success the answer is the reference answer: every
      CVE of the feed that mentions the package's base name and that the
      checker accepts, once per feed record, in feed order, and nothing else. */
  function ListFixedCVEs<D>(feed: Feed, distro: string, pkg: string,
                            parseDistro: DistroParser<D>, parseRpm: RpmParser,
                            buildChecker: CheckerBuilder<D>): (r: Result<seq<string>, ListError>)
    ensures parseDistro(distro).Failure? ==>
              r == Failure(BadDistro(distro, parseDistro(distro).error))
    ensures parseDistro(distro).Success? && parseRpm(pkg).Failure? ==>
              r == Failure(BadPackage(pkg, parseRpm(pkg).error))
    ensures parseDistro(distro).Success? && parseRpm(pkg).Success? && buildChecker(feed).Failure? ==>
              r == Failure(NoChecker(buildChecker(feed).error))
    ensures r.Success? <==>
              parseDistro(distro).Success? && parseRpm(pkg).Success? && buildChecker(feed).Success?
    ensures r.Success? ==>
              r.value == FixedInFeed(feed, parseRpm(pkg).value, parseDistro(distro).value,
                                     buildChecker(feed).value, parseRpm)
  {
    match parseDistro(distro)
    case Failure(e) => Failure(BadDistro(distro, e))
    case Success(d) =>
      match parseRpm(pkg)
      case Failure(e) => Failure(BadPackage(pkg, e))
      case Success(p) =>
        var index := BuildPackageFeed(feed, parseRpm);
        match buildChecker(feed)
        case Failure(e) => Failure(NoChecker(e))
        case Success(check) =>
          AcceptedNamesOfMentioning(feed, p, d, check, parseRpm);
          Success(AcceptedNames(Lookup(index, p.name), p, d, check))
  }

  /** Reference answer, straight from the feed: the names of the CVEs, in feed
      order, that mention the package's base name and that `check` accepts. */
  function FixedInFeed<D>(feed: Feed, p: RpmPackage, d: D, check: Check<D>, parseRpm: RpmParser): seq<string>
    decreases |feed|
  {
    if |feed| == 0 then []
    else
      var cve := feed[|feed| - 1];
      FixedInFeed(feed[..|feed| - 1], p, d, check, parseRpm)
        + (if Mentions(cve, p.name, parseRpm) && check(p, d, cve.name) then [cve.name] else [])
  }

  /** Filtering the reference bucket by the checker gives the reference answer. */
  lemma {:induction false} AcceptedNamesOfMentioning<D>(feed: Feed, p: RpmPackage, d: D, check: Check<D>, parseRpm: RpmParser)
    ensures AcceptedNames(Mentioning(feed, p.name, parseRpm), p, d, check) == FixedInFeed(feed, p, d, check, parseRpm)
    decreases |feed|
  {
    if |feed| > 0 {
      var n := |feed| - 1;
      var init := feed[..n];
      var cve := feed[n];
      var prev := Mentioning(init, p.name, parseRpm);
      AcceptedNamesOfMentioning(init, p, d, check, parseRpm);
      if Mentions(cve, p.name, parseRpm) {
        var bucket := prev + [cve];
        assert bucket[..|bucket| - 1] == prev;
      } else {
        assert Mentioning(feed, p.name, parseRpm) == prev;
      }
    }
  }

  /** A package whose base name no CVE mentions has no bucket: the answer is
      empty, and it is not an error. */
  lemma UnknownPackageIsEmpty<D>(feed: Feed, distro: string, pkg: string,
                                 parseDistro: DistroParser<D>, parseRpm: RpmParser,
                                 buildChecker: CheckerBuilder<D>)
    requires parseDistro(distro).Success? && parseRpm(pkg).Success? && buildChecker(feed).Success?
    requires forall i :: 0 <= i < |feed| ==> !Mentions(feed[i], parseRpm(pkg).value.name, parseRpm)
    ensures ListFixedCVEs(feed, distro, pkg, parseDistro, parseRpm, buildChecker) == Success([])
  {
    var name := parseRpm(pkg).value.name;
    MentioningNonEmpty(feed, name, parseRpm);
    assert name !in BuildPackageFeed(feed, parseRpm);
  }

  /** When the distro identifier does not parse, the outcome does not depend
      on the package parser or on the checker: neither is consulted. */
  lemma BadDistroConsultsNothingElse<D>(feed: Feed, distro: string, pkg: string, parseDistro: DistroParser<D>,
                                        parseRpm1: RpmParser, buildChecker1: CheckerBuilder<D>,
                                        parseRpm2: RpmParser, buildChecker2: CheckerBuilder<D>)
    requires parseDistro(distro).Failure?
    ensures ListFixedCVEs(feed, distro, pkg, parseDistro, parseRpm1, buildChecker1)
            == ListFixedCVEs(feed, distro, pkg, parseDistro, parseRpm2, buildChecker2)
  {
  }

  /** When the package specifier does not parse, the checker is not consulted. */
  lemma BadPackageConsultsNoChecker<D>(feed: Feed, distro: string, pkg: string, parseDistro: DistroParser<D>,
                                       parseRpm: RpmParser,
                                       buildChecker1: CheckerBuilder<D>, buildChecker2: CheckerBuilder<D>)
    requires parseRpm(pkg).Failure?
    ensures ListFixedCVEs(feed, distro, pkg, parseDistro, parseRpm, buildChecker1)
            == ListFixedCVEs(feed, distro, pkg, parseDistro, parseRpm, buildChecker2)
  {
  }

  /** A one-CVE feed fixing bash-4.4-20.el8, queried for bash-4.4-23.el8 on
      RHEL 8: the CVE is listed exactly when the checker accepts it. */
  lemma BashScenario<D>(parseDistro: DistroParser<D>, parseRpm: RpmParser, buildChecker: CheckerBuilder<D>)
    requires parseRpm("bash-4.4-20.el8") == Success(RpmPackage("bash", "4.4", "20.el8"))
    requires parseRpm("bash-4.4-23.el8") == Success(RpmPackage("bash", "4.4", "23.el8"))
    requires parseDistro("cpe:/o:redhat:enterprise_linux:8").Success?
    requires buildChecker([CVE("CVE-2020-0001", ["bash-4.4-20.el8"], [])]).Success?
    ensures var d := parseDistro("cpe:/o:redhat:enterprise_linux:8").value;
            var check := buildChecker([CVE("CVE-2020-0001", ["bash-4.4-20.el8"], [])]).value;
            ListFixedCVEs([CVE("CVE-2020-0001", ["bash-4.4-20.el8"], [])],
                          "cpe:/o:redhat:enterprise_linux:8", "bash-4.4-23.el8",
                          parseDistro, parseRpm, buildChecker)
            == Success(if check(RpmPackage("bash", "4.4", "23.el8"), d, "CVE-2020-0001")
                       then ["CVE-2020-0001"] else [])
  {
    var cve := CVE("CVE-2020-0001", ["bash-4.4-20.el8"], []);
    forall n
      ensures Mentions(cve, n, parseRpm) <==> n == "bash"
    {
      if n == "bash" {
        assert ReleaseProvides(cve.affectedRelease[0], parseRpm, n);
      }
    }
    SingleCve(cve, "bash", parseRpm);
    var p := RpmPackage("bash", "4.4", "23.el8");
    var d := parseDistro("cpe:/o:redhat:enterprise_linux:8").value;
    var check := buildChecker([cve]).value;
    assert Lookup(BuildPackageFeed([cve], parseRpm), p.name) == [cve];
    assert [cve][..0] == [];
    assert AcceptedNames([cve], p, d, check) == (if check(p, d, cve.name) then [cve.name] else []);
  }
}
