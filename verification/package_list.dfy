/** The per-CVE list of candidate package names: an order-preserving
    "insert if absent" on a list of strings, and the fold of it over a
    sequence of names. */
module PackageList {

  /** No element occurs twice. */
  predicate Distinct<T(==)>(s: seq<T>) {
    forall i, j :: 0 <= i < j < |s| ==> s[i] != s[j]
  }

  /** Adds `pkg` to `pkgs` only if it is not already there. The scan walks the
      list front to back; a match returns the list untouched, reaching the end
      appends `pkg`. */
  function AddPackage(pkgs: seq<string>, pkg: string): (r: seq<string>)
    ensures pkg in r
    ensures pkg in pkgs ==> r == pkgs
    ensures pkg !in pkgs ==> r == pkgs + [pkg] && |r| == |pkgs| + 1
    ensures Distinct(pkgs) ==> Distinct(r)
  {
    if |pkgs| == 0 then [pkg]
    else if pkgs[0] == pkg then pkgs
    else
      assert pkgs == [pkgs[0]] + pkgs[1..];
      [pkgs[0]] + AddPackage(pkgs[1..], pkg)
  }

  /** Folds AddPackage over `names`, left to right, starting from `acc`. */
  function AddAll(acc: seq<string>, names: seq<string>): seq<string>
    decreases |names|
  {
    if |names| == 0 then acc
    else AddPackage(AddAll(acc, names[..|names| - 1]), names[|names| - 1])
  }

  /** Position of the first occurrence of `x` in `s`. */
  function FirstIndex(s: seq<string>, x: string): (k: nat)
    requires x in s
    ensures k < |s| && s[k] == x
    ensures forall i :: 0 <= i < k ==> s[i] != x
  {
    if s[0] == x then 0 else 1 + FirstIndex(s[1..], x)
  }

  /** Every element of `r` comes from `s`, and `r` lists them in the order of
      their first occurrence in `s`. */
  ghost predicate InFirstOccurrenceOrder(r: seq<string>, s: seq<string>) {
    forall i, j :: 0 <= i < j < |r| ==>
      r[i] in s && r[j] in s && FirstIndex(s, r[i]) < FirstIndex(s, r[j])
  }

  /** The fold keeps a duplicate-free accumulator duplicate-free. */
  lemma {:induction false} AddAllDistinct(acc: seq<string>, names: seq<string>)
    requires Distinct(acc)
    ensures Distinct(AddAll(acc, names))
    decreases |names|
  {
    if |names| > 0 {
      AddAllDistinct(acc, names[..|names| - 1]);
    }
  }

  /** The fold's result holds exactly the accumulator's names and the folded ones. */
  lemma {:induction false} AddAllMembers(acc: seq<string>, names: seq<string>)
    ensures forall x :: x in AddAll(acc, names) <==> x in acc || x in names
    decreases |names|
  {
    if |names| > 0 {
      var init := names[..|names| - 1];
      AddAllMembers(acc, init);
      assert names == init + [names[|names| - 1]];
    }
  }

  /** The fold never disturbs what is already in the accumulator: it only appends. */
  lemma {:induction false} AddAllExtends(acc: seq<string>, names: seq<string>)
    ensures |acc| <= |AddAll(acc, names)|
    ensures AddAll(acc, names)[..|acc|] == acc
    decreases |names|
  {
    if |names| > 0 {
      AddAllExtends(acc, names[..|names| - 1]);
    }
  }

  /** Folding over `a` and then over `b` is folding over `a + b`: two
      consecutive loops that feed one list behave as one loop over both inputs. */
  lemma {:induction false} AddAllConcat(acc: seq<string>, a: seq<string>, b: seq<string>)
    ensures AddAll(AddAll(acc, a), b) == AddAll(acc, a + b)
    decreases |b|
  {
    if |b| == 0 {
      assert a + b == a;
    } else {
      var init := b[..|b| - 1];
      AddAllConcat(acc, a, init);
      assert (a + b)[..|a + b| - 1] == a + init;
      assert (a + b)[|a + b| - 1] == b[|b| - 1];
    }
  }

  /** First occurrences in a prefix are first occurrences in the whole sequence. */
  lemma FirstIndexPrefix(s: seq<string>, n: nat, x: string)
    requires n <= |s| && x in s[..n]
    ensures x in s && FirstIndex(s, x) == FirstIndex(s[..n], x)
  {
  }

  /** Folding from the empty list yields each distinct name exactly once, in
      first-occurrence order. */
  lemma {:induction false} DedupByFirstOccurrence(names: seq<string>)
    ensures Distinct(AddAll([], names))
    ensures forall x :: x in AddAll([], names) <==> x in names
    ensures InFirstOccurrenceOrder(AddAll([], names), names)
    decreases |names|
  {
    AddAllDistinct([], names);
    AddAllMembers([], names);
    if |names| > 0 {
      var n := |names| - 1;
      var init := names[..n];
      var x := names[n];
      var prev := AddAll([], init);
      DedupByFirstOccurrence(init);
      var r := AddAll([], names);
      forall y | y in prev
        ensures y in names && FirstIndex(names, y) == FirstIndex(init, y) < n
      {
        FirstIndexPrefix(names, n, y);
      }
      if x in prev {
        assert r == prev;
      } else {
        assert r == prev + [x];
        assert x !in init;
        assert FirstIndex(names, x) == n;
      }
    }
  }
}
