/** The package index: a map from base package name to the CVEs of the feed
    that name that package, in feed order. */
module PackageIndex {
  import opened Wrappers
  import opened Schema
  import opened PackageList

  /** The index type. A missing key reads as an empty bucket. */
  type PackageFeed = map<string, seq<CVE>>

  /** Reads a bucket the way Go reads a map: a missing key gives the empty list. */
  function Lookup(index: PackageFeed, name: string): seq<CVE> {
    if name in index then index[name] else []
  }

  /** Whether the AffectedRelease specifier `spec` contributes base name `name`:
      it is non-empty, it parses, and the parsed package is called `name`. */
  predicate ReleaseProvides(spec: string, parseRpm: RpmParser, name: string) {
    spec != "" && parseRpm(spec).Success? && parseRpm(spec).value.name == name
  }

  /** Whether `cve` names package `name` through either of its two sources.
      This is the reference meaning of "the CVE belongs in bucket `name`". */
  predicate Mentions(cve: CVE, name: string, parseRpm: RpmParser) {
    || (exists i :: 0 <= i < |cve.affectedRelease| && ReleaseProvides(cve.affectedRelease[i], parseRpm, name))
    || (name != "" && name in cve.packageState)
  }

  /** The base names the AffectedRelease loop feeds to AddPackage, in order:
      empty specifiers and specifiers that fail to parse are skipped. */
  function ReleaseNames(releases: seq<string>, parseRpm: RpmParser): seq<string>
    decreases |releases|
  {
    if |releases| == 0 then []
    else
      var spec := releases[|releases| - 1];
      var found :=
        if spec == "" then []
        else match parseRpm(spec)
          case Failure(_) => []
          case Success(p) => [p.name];
      ReleaseNames(releases[..|releases| - 1], parseRpm) + found
  }

  /** The names the PackageState loop feeds to AddPackage, in order: empty
      names are skipped. */
  function StateNames(states: seq<string>): seq<string>
    decreases |states|
  {
    if |states| == 0 then []
    else
      var name := states[|states| - 1];
      StateNames(states[..|states| - 1]) + (if name == "" then [] else [name])
  }

  /** The candidate list built for one CVE: AddPackage folded first over the
      AffectedRelease names, then over the PackageState names. */
  function Candidates(cve: CVE, parseRpm: RpmParser): seq<string> {
    AddAll(AddAll([], ReleaseNames(cve.affectedRelease, parseRpm)), StateNames(cve.packageState))
  }

  /** Appends `cve` to the bucket of each name in `pkgs`, creating buckets as needed. */
  function AppendToBuckets(index: PackageFeed, cve: CVE, pkgs: seq<string>): PackageFeed
    decreases |pkgs|
  {
    if |pkgs| == 0 then index
    else
      var before := AppendToBuckets(index, cve, pkgs[..|pkgs| - 1]);
      var pkg := pkgs[|pkgs| - 1];
      before[pkg := Lookup(before, pkg) + [cve]]
  }

  /** Reference bucket: the CVEs of the feed that mention `name`, in feed order. */
  function Mentioning(feed: Feed, name: string, parseRpm: RpmParser): seq<CVE>
    decreases |feed|
  {
    if |feed| == 0 then []
    else
      var cve := feed[|feed| - 1];
      Mentioning(feed[..|feed| - 1], name, parseRpm) + (if Mentions(cve, name, parseRpm) then [cve] else [])
  }

  /** Builds the index from the feed, one CVE at a time in feed order. Every
      bucket is the reference filter of the feed for its name, and a key
      exists only for a name some CVE mentions. */
  function BuildPackageFeed(feed: Feed, parseRpm: RpmParser): (index: PackageFeed)
    ensures forall name :: Lookup(index, name) == Mentioning(feed, name, parseRpm)
    ensures forall name :: name in index <==> Mentioning(feed, name, parseRpm) != []
    decreases |feed|
  {
    if |feed| == 0 then map[]
    else
      var init := feed[..|feed| - 1];
      var cve := feed[|feed| - 1];
      var before := BuildPackageFeed(init, parseRpm);
      var pkgs := Candidates(cve, parseRpm);
      CandidatesSpec(cve, parseRpm);
      AppendToBucketsSpec(before, cve, pkgs);
      AppendToBuckets(before, cve, pkgs)
  }

  /** `sub` is obtained from `s` by deleting elements: each element of `sub`
      is matched to its own position of `s`, in order. */
  predicate IsSubsequence<T(==)>(sub: seq<T>, s: seq<T>)
    decreases |s|
  {
    if |sub| == 0 then true
    else if |s| == 0 then false
    else if sub[|sub| - 1] == s[|s| - 1] && IsSubsequence(sub[..|sub| - 1], s[..|s| - 1]) then true
    else IsSubsequence(sub, s[..|s| - 1])
  }

  /** A name comes out of the AffectedRelease loop exactly when some entry provides it. */
  lemma {:induction false} ReleaseNamesMembers(releases: seq<string>, parseRpm: RpmParser, name: string)
    ensures name in ReleaseNames(releases, parseRpm) <==>
            exists i :: 0 <= i < |releases| && ReleaseProvides(releases[i], parseRpm, name)
    decreases |releases|
  {
    if |releases| > 0 {
      var n := |releases| - 1;
      var init := releases[..n];
      ReleaseNamesMembers(init, parseRpm, name);
      if exists i :: 0 <= i < |releases| && ReleaseProvides(releases[i], parseRpm, name) {
        var i :| 0 <= i < |releases| && ReleaseProvides(releases[i], parseRpm, name);
        if i < n {
          assert init[i] == releases[i];
        }
      }
      if exists i :: 0 <= i < |init| && ReleaseProvides(init[i], parseRpm, name) {
        var i :| 0 <= i < |init| && ReleaseProvides(init[i], parseRpm, name);
        assert releases[i] == init[i];
      }
    }
  }

  /** A name comes out of the PackageState loop exactly when it is a non-empty state name. */
  lemma {:induction false} StateNamesMembers(states: seq<string>, name: string)
    ensures name in StateNames(states) <==> name != "" && name in states
    decreases |states|
  {
    if |states| > 0 {
      var init := states[..|states| - 1];
      StateNamesMembers(init, name);
      assert states == init + [states[|states| - 1]];
    }
  }

  /** The candidate list of a CVE holds each name the CVE mentions, once, and
      nothing else; its order is the order of first discovery, AffectedRelease
      names before PackageState names. */
  lemma CandidatesSpec(cve: CVE, parseRpm: RpmParser)
    ensures Distinct(Candidates(cve, parseRpm))
    ensures forall name :: name in Candidates(cve, parseRpm) <==> Mentions(cve, name, parseRpm)
    ensures InFirstOccurrenceOrder(Candidates(cve, parseRpm),
                                   ReleaseNames(cve.affectedRelease, parseRpm) + StateNames(cve.packageState))
  {
    var rel := ReleaseNames(cve.affectedRelease, parseRpm);
    var st := StateNames(cve.packageState);
    AddAllConcat([], rel, st);
    DedupByFirstOccurrence(rel + st);
    forall name
      ensures name in Candidates(cve, parseRpm) <==> Mentions(cve, name, parseRpm)
    {
      ReleaseNamesMembers(cve.affectedRelease, parseRpm, name);
      StateNamesMembers(cve.packageState, name);
    }
  }

  /** Appending one CVE to a duplicate-free list of buckets adds exactly one
      copy of it to each listed bucket, creates only the listed keys, and
      leaves every other bucket as it was. */
  lemma {:induction false} AppendToBucketsSpec(index: PackageFeed, cve: CVE, pkgs: seq<string>)
    requires Distinct(pkgs)
    ensures forall name :: name in AppendToBuckets(index, cve, pkgs) <==> name in index || name in pkgs
    ensures forall name :: Lookup(AppendToBuckets(index, cve, pkgs), name)
                           == Lookup(index, name) + (if name in pkgs then [cve] else [])
    decreases |pkgs|
  {
    if |pkgs| > 0 {
      var init := pkgs[..|pkgs| - 1];
      var pkg := pkgs[|pkgs| - 1];
      assert pkgs == init + [pkg];
      assert Distinct(init);
      assert pkg !in init;
      AppendToBucketsSpec(index, cve, init);
    }
  }

  /** Adding one CVE at the end of the feed appends it exactly once to the
      bucket of every name it mentions, however many entries name that
      package, and changes nothing else. */
  lemma BuildPackageFeedAppend(feed: Feed, cve: CVE, parseRpm: RpmParser, name: string)
    ensures name in BuildPackageFeed(feed + [cve], parseRpm) <==>
            name in BuildPackageFeed(feed, parseRpm) || Mentions(cve, name, parseRpm)
    ensures Lookup(BuildPackageFeed(feed + [cve], parseRpm), name) ==
            Lookup(BuildPackageFeed(feed, parseRpm), name) + (if Mentions(cve, name, parseRpm) then [cve] else [])
  {
  }

  /** A bucket of the reference is non-empty exactly when some CVE of the feed
      mentions its name; with BuildPackageFeed this says which keys exist. */
  lemma {:induction false} MentioningNonEmpty(feed: Feed, name: string, parseRpm: RpmParser)
    ensures Mentioning(feed, name, parseRpm) != [] <==>
            exists i :: 0 <= i < |feed| && Mentions(feed[i], name, parseRpm)
    decreases |feed|
  {
    if |feed| > 0 {
      var n := |feed| - 1;
      var init := feed[..n];
      MentioningNonEmpty(init, name, parseRpm);
      if exists i :: 0 <= i < |feed| && Mentions(feed[i], name, parseRpm) {
        var i :| 0 <= i < |feed| && Mentions(feed[i], name, parseRpm);
        if i < n {
          assert init[i] == feed[i];
        }
      }
      if exists i :: 0 <= i < |init| && Mentions(init[i], name, parseRpm) {
        var i :| 0 <= i < |init| && Mentions(init[i], name, parseRpm);
        assert feed[i] == init[i];
      }
    }
  }

  /** Each bucket is a subsequence of the feed: a CVE record of the feed is
      placed in a bucket at most once and buckets keep feed order. */
  lemma {:induction false} MentioningIsSubsequence(feed: Feed, name: string, parseRpm: RpmParser)
    ensures IsSubsequence(Mentioning(feed, name, parseRpm), feed)
    decreases |feed|
  {
    if |feed| > 0 {
      var n := |feed| - 1;
      var init := feed[..n];
      var prev := Mentioning(init, name, parseRpm);
      MentioningIsSubsequence(init, name, parseRpm);
      if Mentions(feed[n], name, parseRpm) {
        var b := prev + [feed[n]];
        assert b[..|b| - 1] == prev;
      } else {
        assert feed == init + [feed[n]];
        assert Mentioning(feed, name, parseRpm) == prev;
        SubsequenceOfLonger(prev, init, feed[n]);
      }
    }
  }

  /** A subsequence of `s` is a subsequence of `s` with one more element. */
  lemma SubsequenceOfLonger<T>(sub: seq<T>, s: seq<T>, x: T)
    requires IsSubsequence(sub, s)
    ensures IsSubsequence(sub, s + [x])
  {
  }

  /** A bucket holds only records of the feed that mention its name, and every
      such record; this holds for any feed, repeated records included. */
  lemma {:induction false} MentioningMembers(feed: Feed, name: string, parseRpm: RpmParser)
    ensures forall c :: c in Mentioning(feed, name, parseRpm) <==> c in feed && Mentions(c, name, parseRpm)
    decreases |feed|
  {
    if |feed| > 0 {
      var n := |feed| - 1;
      var init := feed[..n];
      assert feed == init + [feed[n]];
      MentioningMembers(init, name, parseRpm);
    }
  }

  /** If the feed holds no record twice, neither does any bucket. */
  lemma {:induction false} MentioningDistinct(feed: Feed, name: string, parseRpm: RpmParser)
    requires Distinct(feed)
    ensures Distinct(Mentioning(feed, name, parseRpm))
    ensures forall c :: c in Mentioning(feed, name, parseRpm) <==> c in feed && Mentions(c, name, parseRpm)
    decreases |feed|
  {
    if |feed| > 0 {
      var n := |feed| - 1;
      var init := feed[..n];
      assert feed == init + [feed[n]];
      assert Distinct(init);
      assert feed[n] !in init;
      MentioningDistinct(init, name, parseRpm);
      MentioningMembers(feed, name, parseRpm);
    }
  }

  /** A CVE with no usable package name (every entry empty or unparsable)
      lands in no bucket and adds no key. */
  lemma UnusableCveAddsNothing(feed: Feed, cve: CVE, parseRpm: RpmParser, name: string)
    requires forall i :: 0 <= i < |cve.affectedRelease| ==>
               cve.affectedRelease[i] == "" || parseRpm(cve.affectedRelease[i]).Failure?
    requires forall j :: 0 <= j < |cve.packageState| ==> cve.packageState[j] == ""
    ensures name in BuildPackageFeed(feed + [cve], parseRpm) <==> name in BuildPackageFeed(feed, parseRpm)
    ensures Lookup(BuildPackageFeed(feed + [cve], parseRpm), name) == Lookup(BuildPackageFeed(feed, parseRpm), name)
  {
  }

  /** A CVE whose empty AffectedRelease specifier sits beside a PackageState
      entry "bash" is indexed only under "bash". */
  lemma EmptySpecifierScenario(parseRpm: RpmParser)
    ensures BuildPackageFeed([CVE("CVE-2020-0001", [""], ["bash"])], parseRpm)
            == map["bash" := [CVE("CVE-2020-0001", [""], ["bash"])]]
  {
    var cve := CVE("CVE-2020-0001", [""], ["bash"]);
    forall name
      ensures Mentions(cve, name, parseRpm) <==> name == "bash"
    {
      assert !ReleaseProvides(cve.affectedRelease[0], parseRpm, name);
    }
    SingleCve(cve, "bash", parseRpm);
  }

  /** The index of a one-CVE feed whose only mentioned name is `name`. */
  lemma SingleCve(cve: CVE, name: string, parseRpm: RpmParser)
    requires forall n :: Mentions(cve, n, parseRpm) <==> n == name
    ensures BuildPackageFeed([cve], parseRpm) == map[name := [cve]]
  {
    var index := BuildPackageFeed([cve], parseRpm);
    var empty: Feed := [];
    assert empty + [cve] == [cve];
    forall n
      ensures (n in index <==> n == name) && Lookup(index, n) == if n == name then [cve] else []
    {
      BuildPackageFeedAppend(empty, cve, parseRpm, n);
    }
    assert index.Keys == {name};
  }
}
