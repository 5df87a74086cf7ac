# Red Hat package feed: package index and fixed-CVE listing

This project models the package-indexing core of the Red Hat provider of
nvdtools (`providers/redhat/package_feed.go`) in Dafny, and proves what that
code guarantees.

- `addPackage` is an order-preserving "insert if absent" on a list of package
  names. Here it is `PackageList.AddPackage`, and `PackageList.AddAll` is its
  left fold over a sequence of names.
- `Feed.PackageFeed` turns the CVE feed, taken in the order `range feed`
  visits it, into a map from base package
  name to the CVEs naming that package. A CVE names packages in two ways:
  - the `Package` field of its AffectedRelease entries holds full RPM
    specifiers, which are parsed down to their base name;
  - the `PackageName` field of its PackageState entries holds bare names.

  Here it is `PackageIndex.BuildPackageFeed`. Its reference meaning is
  `PackageIndex.Mentions`, "this CVE names this package", and
  `PackageIndex.Mentioning`, "the CVEs of the feed that name it, in feed order".
  "Feed order" throughout means the order in which `range feed` visits the
  records.
- `Feed.ListFixedCVEs` parses the distro CPE and the package specifier, builds
  the index and the checker, and keeps the CVEs of the package's bucket that
  the checker accepts. Each step fails fast. Here it is
  `FixedCves.ListFixedCVEs`. Its reference answer `FixedCves.FixedInFeed` is
  computed straight from the feed.

The collaborators defined outside `package_feed.go` are parameters of type `->`
(total functions), so nothing is assumed about what they compute:

- `rpm.Parse` is `RpmParser`;
- `wfn.Parse` is `DistroParser<D>`, where the parsed CPE is the opaque type
  parameter `D`;
- `Feed.Checker` is `CheckerBuilder<D>`;
- `Checker.Check` is `Check<D>`.

Errors are the `Failure` case of `Wrappers.Result`. `FixedCves.ListError`
records which step failed, with the offending input and the collaborator's
message.

Files: `wrappers.dfy` (Result), `schema.dfy` (CVE record, parsed RPM package),
`package_list.dfy` (addPackage and its fold), `package_index.dfy` (the index),
`fixed_cves.dfy` (the listing).

Two details of the code that the model keeps:

- A non-empty AffectedRelease specifier that parses to a package with an
  empty name contributes the empty name. The code checks for emptiness only
  before parsing. PackageState names are not parsed, so their emptiness
  check applies to the name itself.
- The code builds the index before it asks for the checker. The index build
  has no error return, so the error order is distro, package, checker.

## Model

| member | source | states |
|---|---|---|
| PackageList.AddPackage | providers/redhat/package_feed.go:35-42 | The result always contains `pkg`. If `pkg` was already present, the list is returned unchanged. Otherwise `pkg` is appended at the end and the length grows by exactly one. A duplicate-free list stays duplicate-free. |
| PackageList.AddAll | providers/redhat/package_feed.go:35-42 | The fold of addPackage over a sequence of names. Its contract is carried by AddAllDistinct, AddAllMembers, AddAllExtends, AddAllConcat and DedupByFirstOccurrence. |
| PackageList.AddAllDistinct | providers/redhat/package_feed.go:35-42 | Folding addPackage over any names keeps a duplicate-free list duplicate-free. |
| PackageList.AddAllMembers | providers/redhat/package_feed.go:35-42 | After the fold, the list holds exactly the names it started with plus the names folded in. |
| PackageList.AddAllExtends | providers/redhat/package_feed.go:35-42 | The fold only appends: the starting list is a prefix of the result. |
| PackageList.AddAllConcat | providers/redhat/package_feed.go:49-72 | Folding over one sequence and then over another equals folding once over their concatenation. So the AffectedRelease loop and the PackageState loop that share `pkgs` act as one dedup pass over both name lists. |
| PackageList.DedupByFirstOccurrence | providers/redhat/package_feed.go:35-42 | Folding addPackage from the empty list yields each distinct name exactly once, with no others, ordered by first occurrence in the input. |
| PackageIndex.ReleaseNames | providers/redhat/package_feed.go:52-63 | The names the AffectedRelease loop passes to addPackage, in order. Its contract is carried by ReleaseNamesMembers. |
| PackageIndex.StateNames | providers/redhat/package_feed.go:66-72 | The names the PackageState loop passes to addPackage, in order. Its contract is carried by StateNamesMembers. |
| PackageIndex.Candidates | providers/redhat/package_feed.go:49-72 | The `pkgs` list built for one CVE by the two loops. Its contract is carried by CandidatesSpec. |
| PackageIndex.AppendToBuckets | providers/redhat/package_feed.go:74-77 | The loop that appends the CVE to the bucket of each candidate name. Its contract is carried by AppendToBucketsSpec. |
| PackageIndex.ReleaseNamesMembers | providers/redhat/package_feed.go:52-63 | A name comes out of the AffectedRelease loop exactly when some entry is non-empty, parses, and parses to that name. Empty and unparsable specifiers contribute nothing and do not stop the loop. |
| PackageIndex.StateNamesMembers | providers/redhat/package_feed.go:66-72 | A name comes out of the PackageState loop exactly when it is non-empty and some entry carries it. |
| PackageIndex.CandidatesSpec | providers/redhat/package_feed.go:49-72 | A CVE's candidate list is duplicate-free. It holds a name exactly when the CVE mentions it through either source. Its names are in first-discovery order, AffectedRelease names before PackageState names. |
| PackageIndex.AppendToBucketsSpec | providers/redhat/package_feed.go:74-77 | Given a duplicate-free candidate list, the CVE is appended exactly once to the end of each listed bucket. Missing buckets are created. No other key or bucket changes. |
| PackageIndex.BuildPackageFeedAppend | providers/redhat/package_feed.go:48-77 | Processing one more CVE appends it exactly once to the bucket of every name it mentions, even when both sources or several releases give that name. It adds a key only for such a name. Every other bucket is left as it was. |
| PackageIndex.BuildPackageFeed | providers/redhat/package_feed.go:45-81 | Every bucket of the index equals the reference filter: the feed's CVEs that mention that name, in feed order. A key exists exactly when that filter is non-empty. |
| PackageIndex.MentioningNonEmpty | providers/redhat/package_feed.go:45-81 | The reference filter for a name is non-empty exactly when some CVE of the feed mentions the name. With BuildPackageFeed, a key exists only if some CVE contributed it. |
| PackageIndex.MentioningIsSubsequence | providers/redhat/package_feed.go:48-76 | Each bucket is a subsequence of the feed: every feed record is placed at most once, and feed order is kept. |
| PackageIndex.MentioningMembers | providers/redhat/package_feed.go:74-76 | For any feed, repeated records included, a bucket holds a record exactly when that record is in the feed and mentions the name. |
| PackageIndex.MentioningDistinct | providers/redhat/package_feed.go:74-76 | For a feed without repeated records, every bucket is duplicate-free. It holds exactly the feed's records that mention the name. |
| PackageIndex.UnusableCveAddsNothing | providers/redhat/package_feed.go:52-77 | A CVE whose entries are all empty or unparsable leaves every key and every bucket of the index as it was: it lands in no bucket and adds no key. |
| PackageIndex.SingleCve | providers/redhat/package_feed.go:45-81 | A one-CVE feed whose only mentioned name is `n` is indexed as the single bucket `n` holding that CVE. |
| PackageIndex.EmptySpecifierScenario | providers/redhat/package_feed.go:52-72 | For a CVE with an empty AffectedRelease specifier and a PackageState name "bash", the index is exactly {"bash": [that CVE]}, whatever the RPM parser does. |
| FixedCves.ListFixedCVEs | providers/redhat/package_feed.go:89-112 | The steps fail fast in order. A bad distro CPE gives BadDistro. Otherwise a bad package specifier gives BadPackage. Otherwise a failing checker construction gives NoChecker. The call succeeds exactly when all three succeed, so no error path carries a list. On success the result is exactly the reference answer: in feed order and once per feed record, the names of the CVEs mentioning the package's base name that the checker accepts, and nothing else. |
| FixedCves.AcceptedNames | providers/redhat/package_feed.go:105-110 | The loop that keeps, in bucket order, the names of the bucket's CVEs that the checker accepts. Its contract is carried by AcceptedNamesOfMentioning and by the success clause of ListFixedCVEs. |
| FixedCves.AcceptedNamesOfMentioning | providers/redhat/package_feed.go:105-110 | Filtering a name's reference bucket with the checker gives the reference answer. That answer is the names of the feed's CVEs that mention the name and pass the check, in feed order. |
| FixedCves.UnknownPackageIsEmpty | providers/redhat/package_feed.go:105-112 | If no CVE mentions the package's base name, the call succeeds with an empty list. A missing bucket is not an error. |
| FixedCves.BadDistroConsultsNothingElse | providers/redhat/package_feed.go:90-93 | If the distro CPE fails to parse, the result is the same whatever the RPM parser and the checker builder are. Neither is consulted. |
| FixedCves.BadPackageConsultsNoChecker | providers/redhat/package_feed.go:94-97 | If the package specifier fails to parse, the result is the same whatever the checker builder is. The checker is not consulted. |
| FixedCves.BashScenario | providers/redhat/package_feed.go:89-112 | Take a one-CVE feed fixing bash-4.4-20.el8 and query bash-4.4-23.el8 on RHEL 8. The result is ["CVE-2020-0001"] when the checker accepts the CVE and [] otherwise. |

## Left out

- The `log.Printf` diagnostic for an unparsable AffectedRelease specifier (line 59) is I/O. Only the skip is modelled.
- The internals of `rpm.Parse`, `wfn.Parse`, `Feed.Checker` and `Checker.Check` are defined outside `package_feed.go` and are not part of this model. They are uninterpreted function parameters.
- Error message text from `fmt.Errorf` and `errors.Wrapf` is not modelled. A failure carries its step, the offending input and the collaborator's message as a string.
- Schema fields other than `Name`, `AffectedRelease[].Package` and `PackageState[].PackageName` are not modelled. `rpm.Package` is reduced to name, version and release.
- Go's nil versus empty slice and its map iteration order are not modelled. The result is a possibly empty `seq<string>`, and the index is a `map`.
- Go buckets hold pointers to shared records, while the model holds CVE values. "At most once" is therefore stated per feed position (MentioningIsSubsequence, BuildPackageFeedAppend), and as duplicate-freedom for feeds without repeated records (MentioningDistinct).
- The declaration of `Feed` is not part of this model, so `package_feed.go` alone does not fix the order in which `range feed` (line 48) visits the records. The model takes the feed as the sequence that loop visits. If `Feed` were a map, Go could visit it in a different order on each call, and bucket order and the order of the `ListFixedCVEs` result would follow that order.
- Two index builds are equal only for one fixed visiting order. `BuildPackageFeed` is a pure function of that sequence, so this needs no lemma.
- A nil `*schema.CVE` record in the feed makes the loop at line 52 dereference nil and panic. The model's `CVE` is a value and cannot be nil, so this crash is not modelled.
