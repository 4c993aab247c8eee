/** The running-applications list of the logger page and its periodic
    reconciliation against a fresh enumeration: entries whose process is gone
    are removed, and processes not yet listed are inserted at the position an
    ordinal comparison of process names gives. The enumeration itself (and its
    culture-sensitive ordering) is an input. */
module RunningApps {
  import opened Primitives

  /** A listed process (its icon is left out). */
  datatype ProcessInfo = ProcessInfo(processName: string, mainWindowTitle: string, processId: int32)

  // ===== Ordinal order =====

  /** `string.Compare(a, b, StringComparison.Ordinal) < 0`: the first
      differing character decides, and a proper prefix comes first. */
  predicate OrdinalLess(a: string, b: string)
    decreases |a|
  {
    if |a| == 0 then 0 < |b|
    else if |b| == 0 then false
    else if a[0] != b[0] then a[0] < b[0]
    else OrdinalLess(a[1..], b[1..])
  }

  lemma {:induction false} OrdinalIrreflexive(a: string)
    ensures !OrdinalLess(a, a)
    decreases |a|
  {
    if 0 < |a| {
      OrdinalIrreflexive(a[1..]);
    }
  }

  lemma {:induction false} OrdinalTransitive(a: string, b: string, c: string)
    requires OrdinalLess(a, b) && OrdinalLess(b, c)
    ensures OrdinalLess(a, c)
    decreases |a|
  {
    if 0 < |a| && a[0] == b[0] && b[0] == c[0] {
      OrdinalTransitive(a[1..], b[1..], c[1..]);
    }
  }

  lemma {:induction false} OrdinalTotal(a: string, b: string)
    ensures OrdinalLess(a, b) || a == b || OrdinalLess(b, a)
    decreases |a|
  {
    if 0 < |a| && 0 < |b| && a[0] == b[0] {
      OrdinalTotal(a[1..], b[1..]);
      if a[1..] == b[1..] {
        assert a == [a[0]] + a[1..] && b == [b[0]] + b[1..];
      }
    }
  }

  /** "Not after" is transitive. */
  lemma OrdinalNotLessTransitive(a: string, b: string, c: string)
    requires !OrdinalLess(b, a) && !OrdinalLess(c, b)
    ensures !OrdinalLess(c, a)
  {
    OrdinalTotal(a, b);
    if OrdinalLess(c, a) {
      if OrdinalLess(a, b) {
        OrdinalTransitive(c, a, b);
      }
    }
  }

  predicate SortedByName(s: seq<ProcessInfo>) {
    forall i, j :: 0 <= i < j < |s| ==> !OrdinalLess(s[j].processName, s[i].processName)
  }

  // ===== Process ids =====

  function Pids(s: seq<ProcessInfo>): set<int32> {
    set p | p in s :: p.processId
  }

  /** No two entries share a process id. */
  predicate UniquePids(s: seq<ProcessInfo>) {
    forall i, j :: 0 <= i < j < |s| ==> s[i].processId != s[j].processId
  }

  /** Reference for the removal pass: the entries whose id is in `pids`, in
      their original order. */
  function KeepListed(s: seq<ProcessInfo>, pids: set<int32>): (r: seq<ProcessInfo>)
    ensures |r| <= |s|
  {
    if |s| == 0 then []
    else (if s[0].processId in pids then [s[0]] else []) + KeepListed(s[1..], pids)
  }

  lemma {:induction false} KeepListedContents(s: seq<ProcessInfo>, pids: set<int32>)
    ensures forall p :: p in KeepListed(s, pids) <==> p in s && p.processId in pids
  {
    if 0 < |s| {
      KeepListedContents(s[1..], pids);
      assert forall p :: p in s <==> p == s[0] || p in s[1..];
    }
  }

  /** KeepListed keeps survivors in their relative order. */
  lemma {:induction false} KeepListedKeepsSorted(s: seq<ProcessInfo>, pids: set<int32>)
    requires SortedByName(s)
    ensures SortedByName(KeepListed(s, pids))
  {
    if 0 < |s| {
      assert SortedByName(s[1..]);
      KeepListedKeepsSorted(s[1..], pids);
      KeepListedContents(s[1..], pids);
      var rest := KeepListed(s[1..], pids);
      if s[0].processId in pids {
        var r := [s[0]] + rest;
        forall i, j | 0 <= i < j < |r| ensures !OrdinalLess(r[j].processName, r[i].processName) {
          if i == 0 {
            assert r[j] in s[1..];
          } else {
            assert r[i] == rest[i - 1] && r[j] == rest[j - 1];
          }
        }
      }
    }
  }

  lemma {:induction false} KeepListedKeepsUnique(s: seq<ProcessInfo>, pids: set<int32>)
    requires UniquePids(s)
    ensures UniquePids(KeepListed(s, pids))
  {
    if 0 < |s| {
      assert UniquePids(s[1..]);
      KeepListedKeepsUnique(s[1..], pids);
      KeepListedContents(s[1..], pids);
      var rest := KeepListed(s[1..], pids);
      if s[0].processId in pids {
        var r := [s[0]] + rest;
        forall i, j | 0 <= i < j < |r| ensures r[i].processId != r[j].processId {
          if i == 0 {
            assert r[j] in s[1..];
          } else {
            assert r[i] == rest[i - 1] && r[j] == rest[j - 1];
          }
        }
      }
    }
  }

  /** The removal pass of lines 185-191: walks the list from the end and
      removes every entry whose id no current process has. */
  /** One turn of the backward loop: the prefix up to `i`, followed by the
      filtered rest, equals the prefix before `i` followed by the filter from
      `i` on. */
  lemma RemoveVanishedStep(s: seq<ProcessInfo>, pids: set<int32>, i: nat, kept: seq<ProcessInfo>)
    requires i < |s| && kept == KeepListed(s[i + 1..], pids)
    ensures KeepListed(s[i..], pids) == (if s[i].processId in pids then [s[i]] else []) + kept
    ensures s[..i + 1] + kept == s[..i] + ([s[i]] + kept)
  {
    assert s[i..][1..] == s[i + 1..];
    assert s[..i + 1] == s[..i] + [s[i]];
  }

  method RemoveVanished(runningApps: seq<ProcessInfo>, currentApps: seq<ProcessInfo>)
    returns (r: seq<ProcessInfo>)
    ensures r == KeepListed(runningApps, Pids(currentApps))
    ensures forall p :: p in r <==> p in runningApps && p.processId in Pids(currentApps)
  {
    var pids := Pids(currentApps);
    r := runningApps;
    var i := |runningApps| - 1;
    while i >= 0
      invariant -1 <= i < |runningApps|
      invariant r == runningApps[..i + 1] + KeepListed(runningApps[i + 1..], pids)
    {
      var kept := KeepListed(runningApps[i + 1..], pids);
      RemoveVanishedStep(runningApps, pids, i, kept);
      assert r[i] == runningApps[i];
      if r[i].processId !in pids {
        r := r[..i] + r[i + 1..];
        assert r == runningApps[..i] + kept;
      }
      i := i - 1;
    }
    assert runningApps[0..] == runningApps;
    KeepListedContents(runningApps, pids);
  }

  // ===== Sorted insert =====

  /** The index loop of lines 199-210: the position after the leading entries
      whose name is ordinally before `name`. */
  method InsertIndex(s: seq<ProcessInfo>, name: string) returns (k: nat)
    ensures k <= |s|
    ensures forall j :: 0 <= j < k ==> OrdinalLess(s[j].processName, name)
    ensures k < |s| ==> !OrdinalLess(s[k].processName, name)
  {
    k := 0;
    var i := 0;
    while i < |s|
      invariant i <= |s| && k == i
      invariant forall j :: 0 <= j < i ==> OrdinalLess(s[j].processName, name)
    {
      if OrdinalLess(s[i].processName, name) {
        k := i + 1;
      } else {
        break;
      }
      i := i + 1;
    }
  }

  /** Inserting at the index InsertIndex computes keeps a sorted list sorted. */
  lemma InsertKeepsSorted(s: seq<ProcessInfo>, k: nat, x: ProcessInfo)
    requires SortedByName(s) && k <= |s|
    requires forall j :: 0 <= j < k ==> OrdinalLess(s[j].processName, x.processName)
    requires k < |s| ==> !OrdinalLess(s[k].processName, x.processName)
    ensures SortedByName(s[..k] + [x] + s[k..])
  {
    var t := s[..k] + [x] + s[k..];
    forall i, j | 0 <= i < j < |t| ensures !OrdinalLess(t[j].processName, t[i].processName) {
      if j < k {
        assert t[i] == s[i] && t[j] == s[j];
      } else if j == k {
        assert t[i] == s[i];
        OrdinalTotal(s[i].processName, x.processName);
        if OrdinalLess(x.processName, s[i].processName) {
          OrdinalTransitive(x.processName, s[i].processName, x.processName);
          OrdinalIrreflexive(x.processName);
        }
      } else if i < k {
        assert t[i] == s[i] && t[j] == s[j - 1];
      } else if i == k {
        assert t[j] == s[j - 1];
        if j - 1 == k {
          OrdinalIrreflexive(s[k].processName);
        }
        assert !OrdinalLess(s[j - 1].processName, s[k].processName);
        OrdinalNotLessTransitive(x.processName, s[k].processName, s[j - 1].processName);
      } else {
        assert t[i] == s[i - 1] && t[j] == s[j - 1];
      }
    }
  }

  lemma InsertContents(s: seq<ProcessInfo>, k: nat, x: ProcessInfo)
    requires k <= |s|
    ensures forall p :: p in s[..k] + [x] + s[k..] <==> p in s || p == x
    ensures Pids(s[..k] + [x] + s[k..]) == Pids(s) + {x.processId}
  {
    assert s == s[..k] + s[k..];
    var t := s[..k] + [x] + s[k..];
    assert forall p :: p in t <==> p in s || p == x;
  }

  lemma InsertKeepsUnique(s: seq<ProcessInfo>, k: nat, x: ProcessInfo)
    requires UniquePids(s) && k <= |s| && x.processId !in Pids(s)
    ensures UniquePids(s[..k] + [x] + s[k..])
  {
    var t := s[..k] + [x] + s[k..];
    forall i, j | 0 <= i < j < |t| ensures t[i].processId != t[j].processId {
      if j < k {
        assert t[i] == s[i] && t[j] == s[j];
      } else if j == k {
        assert t[i] == s[i];
      } else if i < k {
        assert t[i] == s[i] && t[j] == s[j - 1];
      } else if i == k {
        assert t[j] == s[j - 1];
      } else {
        assert t[i] == s[i - 1] && t[j] == s[j - 1];
      }
    }
  }

  lemma PidsOfPrefixStep(s: seq<ProcessInfo>, n: nat)
    requires n < |s|
    ensures Pids(s[..n + 1]) == Pids(s[..n]) + {s[n].processId}
  {
    assert s[..n + 1] == s[..n] + [s[n]];
  }

  /** The insertion pass of lines 194-213: every current process whose id is
      not listed yet is inserted at its ordinal position; listed entries are
      left as they are. */
  method AddNew(runningApps: seq<ProcessInfo>, currentApps: seq<ProcessInfo>)
    returns (r: seq<ProcessInfo>)
    ensures Pids(r) == Pids(runningApps) + Pids(currentApps)
    ensures forall p :: p in runningApps ==> p in r
    ensures forall p :: p in r ==> p in runningApps || p in currentApps
    ensures SortedByName(runningApps) ==> SortedByName(r)
    ensures UniquePids(runningApps) ==> UniquePids(r)
  {
    r := runningApps;
    var n := 0;
    while n < |currentApps|
      invariant n <= |currentApps|
      invariant Pids(r) == Pids(runningApps) + Pids(currentApps[..n])
      invariant forall p :: p in runningApps ==> p in r
      invariant forall p :: p in r ==> p in runningApps || p in currentApps
      invariant SortedByName(runningApps) ==> SortedByName(r)
      invariant UniquePids(runningApps) ==> UniquePids(r)
    {
      var app := currentApps[n];
      PidsOfPrefixStep(currentApps, n);
      if app.processId !in Pids(r) {
        var k := InsertIndex(r, app.processName);
        if SortedByName(r) {
          InsertKeepsSorted(r, k, app);
        }
        if UniquePids(r) {
          InsertKeepsUnique(r, k, app);
        }
        InsertContents(r, k, app);
        r := r[..k] + [app] + r[k..];
      }
      n := n + 1;
    }
    assert currentApps[..n] == currentApps;
  }

  /** `LoadRunningApplications` after the enumeration: the listed ids become
      exactly the current ids, surviving entries are kept as they were (not
      replaced), and a list sorted by ordinal name with distinct ids stays so. */
  method Reconcile(runningApps: seq<ProcessInfo>, currentApps: seq<ProcessInfo>)
    returns (r: seq<ProcessInfo>)
    ensures Pids(r) == Pids(currentApps)
    ensures forall p :: p in runningApps && p.processId in Pids(currentApps) ==> p in r
    ensures forall p :: p in r ==> p in currentApps || p in runningApps
    ensures SortedByName(runningApps) ==> SortedByName(r)
    ensures UniquePids(runningApps) ==> UniquePids(r)
  {
    var kept := RemoveVanished(runningApps, currentApps);
    if SortedByName(runningApps) {
      KeepListedKeepsSorted(runningApps, Pids(currentApps));
    }
    if UniquePids(runningApps) {
      KeepListedKeepsUnique(runningApps, Pids(currentApps));
    }
    assert Pids(kept) <= Pids(currentApps);
    r := AddNew(kept, currentApps);
  }
}
