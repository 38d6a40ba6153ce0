/**
 * Retention pruning: how many backup runs to keep, the stable sort of the
 * listed runs by creation time, and which runs are deleted.
 */
module Retention {
  import opened Wrappers

  /** Identifier the storage service gives a folder or a file. */
  type FolderId = nat

  /** A listed backup run folder (the `DriveFolder` dataclass); timestamps are integers. */
  datatype DriveFolder = DriveFolder(id: FolderId, name: string, createdTime: int)

  // ---------------------------------------------------------------------
  // Keep count
  // ---------------------------------------------------------------------

  /**
   * The number of backups to keep: the configured value when there is one,
   * otherwise the number of existing backups, floored at 1 in both cases.
   */
  function KeepCount(configured: Option<int>, existing: nat): (k: int)
    ensures k >= 1
    ensures configured.None? ==> k == if existing >= 1 then existing else 1
    ensures configured.Some? && configured.value >= 1 ==> k == configured.value
    ensures configured.Some? && configured.value < 1 ==> k == 1
  {
    var wanted := if configured.Some? then configured.value else existing;
    if wanted < 1 then 1 else wanted
  }

  // ---------------------------------------------------------------------
  // Ordering by creation time
  // ---------------------------------------------------------------------

  ghost predicate Sorted(s: seq<DriveFolder>) {
    forall i, j :: 0 <= i < j < |s| ==> s[i].createdTime <= s[j].createdTime
  }

  /** The backups of `s` created at time `t`, in their order in `s`. */
  function CreatedAt(s: seq<DriveFolder>, t: int): seq<DriveFolder>
  {
    if s == [] then []
    else (if s[0].createdTime == t then [s[0]] else []) + CreatedAt(s[1..], t)
  }

  /**
   * `r` orders the backups of `s` by creation time, and backups created at
   * the same time keep their order in `s`: the result of a stable sort.
   */
  ghost predicate StablySorted(s: seq<DriveFolder>, r: seq<DriveFolder>) {
    && Sorted(r)
    && multiset(r) == multiset(s)
    && forall t :: CreatedAt(r, t) == CreatedAt(s, t)
  }

  /** Inserts `x` behind every backup of `r` that is not newer than it. */
  function Insert(x: DriveFolder, r: seq<DriveFolder>): (q: seq<DriveFolder>)
    ensures |q| == |r| + 1
  {
    if r == [] then [x]
    else if r[0].createdTime <= x.createdTime then [r[0]] + Insert(x, r[1..])
    else [x] + r
  }

  /** Insertion sort: the backups are inserted one by one in listing order. */
  function SortByCreatedTime(s: seq<DriveFolder>): (r: seq<DriveFolder>)
    ensures |r| == |s|
    ensures multiset(r) == multiset(s)
  {
    if s == [] then []
    else
      var init, x := s[..|s| - 1], s[|s| - 1];
      InsertPermutes(x, SortByCreatedTime(init));
      assert s == init + [x];
      Insert(x, SortByCreatedTime(init))
  }

  lemma {:induction false} CreatedAtAppend(a: seq<DriveFolder>, b: seq<DriveFolder>, t: int)
    ensures CreatedAt(a + b, t) == CreatedAt(a, t) + CreatedAt(b, t)
  {
    if a == [] {
      assert a + b == b;
    } else {
      var ab := a + b;
      assert ab[0] == a[0];
      assert ab[1..] == a[1..] + b;
      CreatedAtAppend(a[1..], b, t);
      var head := if a[0].createdTime == t then [a[0]] else [];
      assert CreatedAt(ab, t) == head + (CreatedAt(a[1..], t) + CreatedAt(b, t));
      assert head + (CreatedAt(a[1..], t) + CreatedAt(b, t)) == (head + CreatedAt(a[1..], t)) + CreatedAt(b, t);
    }
  }

  lemma {:induction false} CreatedAtNone(s: seq<DriveFolder>, t: int)
    requires forall i :: 0 <= i < |s| ==> s[i].createdTime != t
    ensures CreatedAt(s, t) == []
  {
    if s != [] {
      CreatedAtNone(s[1..], t);
    }
  }

  lemma {:induction false} CreatedAtNonEmpty(s: seq<DriveFolder>, t: int, k: nat)
    requires k < |s| && s[k].createdTime == t
    ensures CreatedAt(s, t) != []
  {
    if s[0].createdTime != t {
      CreatedAtNonEmpty(s[1..], t, k - 1);
    }
  }

  lemma {:induction false} InsertPermutes(x: DriveFolder, r: seq<DriveFolder>)
    ensures multiset(Insert(x, r)) == multiset(r) + multiset{x}
  {
    if r == [] {
      assert Insert(x, r) == [x];
    } else if r[0].createdTime <= x.createdTime {
      var rest := r[1..];
      calc {
        multiset(Insert(x, r));
      == { assert Insert(x, r) == [r[0]] + Insert(x, rest); }
        multiset([r[0]]) + multiset(Insert(x, rest));
      == { InsertPermutes(x, rest); }
        multiset([r[0]]) + multiset(rest) + multiset{x};
      == { assert r == [r[0]] + rest; }
        multiset(r) + multiset{x};
      }
    } else {
      assert Insert(x, r) == [x] + r;
    }
  }

  lemma {:induction false} InsertSorted(x: DriveFolder, r: seq<DriveFolder>)
    requires Sorted(r)
    ensures Sorted(Insert(x, r))
  {
    if r != [] && r[0].createdTime <= x.createdTime {
      InsertSorted(x, r[1..]);
      InsertPermutes(x, r[1..]);
      var rest := Insert(x, r[1..]);
      forall i | 0 <= i < |rest|
        ensures r[0].createdTime <= rest[i].createdTime
      {
        assert rest[i] in multiset(r[1..]) + multiset{x};
        if rest[i] != x {
          assert rest[i] in r[1..];
        }
      }
    }
  }

  lemma {:induction false} InsertKeepsOrder(x: DriveFolder, r: seq<DriveFolder>, t: int)
    requires Sorted(r)
    ensures CreatedAt(Insert(x, r), t) == CreatedAt(r, t) + CreatedAt([x], t)
  {
    if r == [] {
    } else if r[0].createdTime <= x.createdTime {
      var rest := r[1..];
      calc {
        CreatedAt(Insert(x, r), t);
      == { assert Insert(x, r) == [r[0]] + Insert(x, rest); CreatedAtAppend([r[0]], Insert(x, rest), t); }
        CreatedAt([r[0]], t) + CreatedAt(Insert(x, rest), t);
      == { SortedTail(r); InsertKeepsOrder(x, rest, t); }
        CreatedAt([r[0]], t) + (CreatedAt(rest, t) + CreatedAt([x], t));
      == { AppendAssoc(CreatedAt([r[0]], t), CreatedAt(rest, t), CreatedAt([x], t)); }
        (CreatedAt([r[0]], t) + CreatedAt(rest, t)) + CreatedAt([x], t);
      == { assert r == [r[0]] + rest; CreatedAtAppend([r[0]], rest, t); }
        CreatedAt(r, t) + CreatedAt([x], t);
      }
    } else {
      CreatedAtAppend([x], r, t);
      if x.createdTime == t {
        CreatedAtBelowHead(r, t);
      }
    }
  }

  lemma AppendAssoc(a: seq<DriveFolder>, b: seq<DriveFolder>, c: seq<DriveFolder>)
    ensures a + (b + c) == (a + b) + c
  {
  }

  lemma SortedTail(r: seq<DriveFolder>)
    requires Sorted(r) && r != []
    ensures Sorted(r[1..])
  {
  }

  /** A sorted sequence holds nothing created before its head. */
  lemma CreatedAtBelowHead(r: seq<DriveFolder>, t: int)
    requires Sorted(r) && r != [] && t < r[0].createdTime
    ensures CreatedAt(r, t) == []
  {
    CreatedAtNone(r, t);
  }

  /** The insertion sort is a stable sort. */
  lemma {:induction false} SortByCreatedTimeIsStable(s: seq<DriveFolder>)
    ensures StablySorted(s, SortByCreatedTime(s))
  {
    if s != [] {
      var init, x := s[..|s| - 1], s[|s| - 1];
      assert s == init + [x];
      SortByCreatedTimeIsStable(init);
      InsertSorted(x, SortByCreatedTime(init));
      InsertPermutes(x, SortByCreatedTime(init));
      forall t ensures CreatedAt(SortByCreatedTime(s), t) == CreatedAt(s, t) {
        InsertKeepsOrder(x, SortByCreatedTime(init), t);
        CreatedAtAppend(init, [x], t);
      }
    }
  }

  /**
   * A stable sort has exactly one possible result, so the insertion sort
   * above orders the listing as any other stable sort does.
   */
  lemma {:induction false} StableSortIsUnique(s: seq<DriveFolder>, a: seq<DriveFolder>, b: seq<DriveFolder>)
    requires StablySorted(s, a) && StablySorted(s, b)
    ensures a == b
  {
    SortedSameGroupsEqual(a, b);
  }

  lemma {:induction false} CreatedAtMembers(s: seq<DriveFolder>, t: int)
    ensures forall x :: x in CreatedAt(s, t) ==> x in s && x.createdTime == t
  {
    if s != [] {
      CreatedAtMembers(s[1..], t);
    }
  }

  /** If two sorted sequences group the same way, the first head is not older than the second. */
  lemma SameGroupsHead(a: seq<DriveFolder>, b: seq<DriveFolder>)
    requires Sorted(b)
    requires forall t :: CreatedAt(a, t) == CreatedAt(b, t)
    requires a != []
    ensures b != [] && b[0].createdTime <= a[0].createdTime
  {
    var ta := a[0].createdTime;
    CreatedAtNonEmpty(a, ta, 0);
    assert CreatedAt(a, ta) == CreatedAt(b, ta);
    CreatedAtMembers(b, ta);
    var x := CreatedAt(b, ta)[0];
    assert x in b && x.createdTime == ta;
  }

  lemma {:induction false} SortedSameGroupsEqual(a: seq<DriveFolder>, b: seq<DriveFolder>)
    requires Sorted(a) && Sorted(b)
    requires forall t :: CreatedAt(a, t) == CreatedAt(b, t)
    ensures a == b
    decreases |a| + |b|
  {
    if a != [] {
      SameGroupsHead(a, b);
    }
    if b != [] {
      SameGroupsHead(b, a);
    }
    if a != [] {
      var ta := a[0].createdTime;
      assert CreatedAt(a, ta) == [a[0]] + CreatedAt(a[1..], ta);
      assert CreatedAt(b, ta) == [b[0]] + CreatedAt(b[1..], ta);
      assert a[0] == CreatedAt(a, ta)[0] == CreatedAt(b, ta)[0] == b[0];
      forall t ensures CreatedAt(a[1..], t) == CreatedAt(b[1..], t) {
        assert CreatedAt(a, t) == CreatedAt(b, t);
        assert CreatedAt(a, t) == (if t == ta then [a[0]] else []) + CreatedAt(a[1..], t);
        assert CreatedAt(b, t) == (if t == ta then [b[0]] else []) + CreatedAt(b[1..], t);
        if t == ta {
          assert ([a[0]] + CreatedAt(a[1..], t))[1..] == CreatedAt(a[1..], t);
          assert ([b[0]] + CreatedAt(b[1..], t))[1..] == CreatedAt(b[1..], t);
        } else {
          assert [] + CreatedAt(a[1..], t) == CreatedAt(a[1..], t);
          assert [] + CreatedAt(b[1..], t) == CreatedAt(b[1..], t);
        }
      }
      SortedSameGroupsEqual(a[1..], b[1..]);
      assert a == [a[0]] + a[1..] && b == [b[0]] + b[1..];
    }
  }

  // ---------------------------------------------------------------------
  // Distinct identifiers
  // ---------------------------------------------------------------------

  ghost predicate DistinctIds(s: seq<DriveFolder>) {
    forall i, j :: 0 <= i < j < |s| ==> s[i].id != s[j].id
  }

  function Ids(s: seq<DriveFolder>): (r: seq<FolderId>)
    ensures |r| == |s| && forall i :: 0 <= i < |s| ==> r[i] == s[i].id
  {
    seq(|s|, i requires 0 <= i < |s| => s[i].id)
  }

  lemma {:induction false} InsertDistinct(x: DriveFolder, r: seq<DriveFolder>)
    requires DistinctIds(r)
    requires forall y :: y in r ==> y.id != x.id
    ensures DistinctIds(Insert(x, r))
  {
    if r != [] && r[0].createdTime <= x.createdTime {
      InsertDistinct(x, r[1..]);
      InsertPermutes(x, r[1..]);
      var rest := Insert(x, r[1..]);
      forall k | 0 <= k < |rest|
        ensures rest[k].id != r[0].id
      {
        assert rest[k] in multiset(r[1..]) + multiset{x};
        if rest[k] != x {
          var m :| 0 <= m < |r[1..]| && r[1..][m] == rest[k];
          assert r[m + 1] == rest[k];
        }
      }
    }
  }

  /** Sorting does not duplicate a backup. */
  lemma {:induction false} SortKeepsIdsDistinct(s: seq<DriveFolder>)
    requires DistinctIds(s)
    ensures DistinctIds(SortByCreatedTime(s))
  {
    if s != [] {
      var init, x := s[..|s| - 1], s[|s| - 1];
      SortKeepsIdsDistinct(init);
      SortByCreatedTimeIsStable(init);
      forall y | y in SortByCreatedTime(init)
        ensures y.id != x.id
      {
        assert y in multiset(init);
        var m :| 0 <= m < |init| && init[m] == y;
        assert s[m] == y;
      }
      InsertDistinct(x, SortByCreatedTime(init));
    }
  }

  // ---------------------------------------------------------------------
  // The sort as the program runs it
  // ---------------------------------------------------------------------

  lemma {:induction false} InsertAt(x: DriveFolder, r: seq<DriveFolder>, j: nat)
    requires j <= |r|
    requires forall k :: 0 <= k < j ==> r[k].createdTime <= x.createdTime
    requires forall k :: j <= k < |r| ==> r[k].createdTime > x.createdTime
    ensures Insert(x, r) == r[..j] + [x] + r[j..]
  {
    if j > 0 {
      InsertAt(x, r[1..], j - 1);
      assert r[1..][..j - 1] == r[1..j];
      assert r[1..][j - 1..] == r[j..];
      assert r[..j] == [r[0]] + r[1..j];
    }
  }

  /** The insertion sort's result is sorted by creation time. */
  lemma SortIsSorted(s: seq<DriveFolder>)
    ensures Sorted(SortByCreatedTime(s))
  {
    SortByCreatedTimeIsStable(s);
  }

  /** Where `x` goes in the sorted `r`: behind every backup not newer than it. */
  method InsertionPoint(r: seq<DriveFolder>, x: DriveFolder) returns (j: nat)
    requires Sorted(r)
    ensures j <= |r|
    ensures forall k :: 0 <= k < j ==> r[k].createdTime <= x.createdTime
    ensures forall k :: j <= k < |r| ==> r[k].createdTime > x.createdTime
  {
    j := |r|;
    while j > 0 && r[j - 1].createdTime > x.createdTime
      invariant 0 <= j <= |r|
      invariant forall k :: j <= k < |r| ==> r[k].createdTime > x.createdTime
    {
      j := j - 1;
    }
  }

  /**
   * Sorts the listed backups by creation time (`list.sort` with a key is
   * stable); an insertion sort that shifts each backup behind every older
   * or equally old one.
   */
  method SortBackups(s: seq<DriveFolder>) returns (r: seq<DriveFolder>)
    ensures r == SortByCreatedTime(s)
    ensures StablySorted(s, r)
  {
    r := [];
    for i := 0 to |s|
      invariant r == SortByCreatedTime(s[..i])
    {
      var x := s[i];
      SortIsSorted(s[..i]);
      var j := InsertionPoint(r, x);
      InsertAt(x, r, j);
      assert s[..i + 1][..i] == s[..i];
      r := r[..j] + [x] + r[j..];
    }
    assert s[..|s|] == s;
    SortByCreatedTimeIsStable(s);
  }

  // ---------------------------------------------------------------------
  // Which backups are deleted
  // ---------------------------------------------------------------------

  /**
   * How many backups exceed the keep count (zero or negative: none). Never
   * all of them, never any without a configured keep count, and otherwise
   * the number beyond the configured count.
   */
  function ExcessCount(existing: seq<DriveFolder>, configured: Option<int>): (d: int)
    ensures d < |existing| || existing == []
    ensures configured.None? ==> d <= 0
    ensures configured.Some? && configured.value >= 1 ==> d == |existing| - configured.value
  {
    |existing| - KeepCount(configured, |existing|)
  }

  /**
   * The backups deleted: the oldest ones, beyond the keep count. Exactly
   * max(0, n - keep) of them, and none without a configured keep count.
   */
  function ToDelete(existing: seq<DriveFolder>, configured: Option<int>): (r: seq<DriveFolder>)
    ensures var n, k := |existing|, KeepCount(configured, |existing|);
      |r| == if n > k then n - k else 0
    ensures configured.None? ==> r == []
  {
    var d := ExcessCount(existing, configured);
    if d > 0 then SortByCreatedTime(existing)[..d] else []
  }

  /**
   * The backups left in place (sorted when some were deleted, as listed
   * otherwise): min(n, keep) of them, and all of them without a configured
   * keep count.
   */
  function Survivors(existing: seq<DriveFolder>, configured: Option<int>): (r: seq<DriveFolder>)
    ensures var n, k := |existing|, KeepCount(configured, |existing|);
      |r| == if n > k then k else n
    ensures configured.None? ==> r == existing
  {
    var d := ExcessCount(existing, configured);
    if d > 0 then SortByCreatedTime(existing)[d..] else existing
  }

  /**
   * Deleted and surviving backups split the listing: every deleted backup
   * was listed, nothing is deleted twice, and nothing survives that is
   * deleted.
   */
  lemma PrunePartitions(existing: seq<DriveFolder>, configured: Option<int>)
    ensures multiset(ToDelete(existing, configured)) + multiset(Survivors(existing, configured)) == multiset(existing)
    ensures DistinctIds(existing) ==> DistinctIds(ToDelete(existing, configured) + Survivors(existing, configured))
  {
    var d := ExcessCount(existing, configured);
    if d > 0 {
      var sorted := SortByCreatedTime(existing);
      SortByCreatedTimeIsStable(existing);
      assert sorted == sorted[..d] + sorted[d..];
      if DistinctIds(existing) {
        SortKeepsIdsDistinct(existing);
      }
    } else {
      assert [] + existing == existing;
    }
  }

  /** Every backup selected for deletion is listed, and with distinct listed ids none is selected twice. */
  lemma ToDeleteListed(existing: seq<DriveFolder>, configured: Option<int>)
    ensures forall i :: 0 <= i < |ToDelete(existing, configured)| ==> ToDelete(existing, configured)[i] in existing
    ensures DistinctIds(existing) ==> DistinctIds(ToDelete(existing, configured))
  {
    var del, kept := ToDelete(existing, configured), Survivors(existing, configured);
    PrunePartitions(existing, configured);
    assert forall i :: 0 <= i < |del| ==> (del + kept)[i] == del[i];
    forall i | 0 <= i < |del|
      ensures del[i] in existing
    {
      assert del[i] in multiset(existing);
    }
  }

  /**
   * The deleted backups are the oldest: none was created after a surviving
   * one, and among backups created at the same moment the ones listed first
   * are deleted first.
   */
  lemma OldestAreDeleted(existing: seq<DriveFolder>, configured: Option<int>)
    ensures var del, kept := ToDelete(existing, configured), Survivors(existing, configured);
      && (forall i, j :: 0 <= i < |del| && 0 <= j < |kept| ==> del[i].createdTime <= kept[j].createdTime)
      && (forall t :: CreatedAt(del + kept, t) == CreatedAt(existing, t))
  {
    var d := ExcessCount(existing, configured);
    if d > 0 {
      var sorted := SortByCreatedTime(existing);
      SortByCreatedTimeIsStable(existing);
      assert sorted == sorted[..d] + sorted[d..];
      forall i, j | 0 <= i < d && 0 <= j < |sorted| - d
        ensures sorted[..d][i].createdTime <= sorted[d..][j].createdTime
      {
        assert sorted[d..][j] == sorted[d + j];
      }
    } else {
      assert [] + existing == existing;
    }
  }

  /**
   * When the listed ids are distinct, a listed backup survives exactly when
   * its id is not among the deleted ones.
   */
  lemma SurvivorsAreNotDeleted(existing: seq<DriveFolder>, configured: Option<int>)
    requires DistinctIds(existing)
    ensures var del := ToDelete(existing, configured);
      forall b :: b in Survivors(existing, configured) <==> b in existing && b.id !in Ids(del)
  {
    var del, kept := ToDelete(existing, configured), Survivors(existing, configured);
    PrunePartitions(existing, configured);
    var both := del + kept;
    forall b | b in kept
      ensures b in existing && b.id !in Ids(del)
    {
      assert b in multiset(existing);
      var k :| 0 <= k < |kept| && kept[k] == b;
      assert both[|del| + k] == b;
      forall i | 0 <= i < |del|
        ensures Ids(del)[i] != b.id
      {
        assert both[i] == del[i];
      }
    }
    forall b | b in existing && b.id !in Ids(del)
      ensures b in kept
    {
      assert b in multiset(existing);
      forall i | 0 <= i < |del|
        ensures del[i] != b
      {
        assert Ids(del)[i] == del[i].id;
      }
      assert b !in multiset(del);
    }
  }

  /**
   * A backup created strictly after every other listed one is never among
   * the deleted: it is the last in creation order and at least one backup
   * is kept. With distinct ids, its id is not deleted either.
   */
  lemma NewestSurvives(existing: seq<DriveFolder>, configured: Option<int>, x: DriveFolder)
    requires x in existing
    requires forall i :: 0 <= i < |existing| && existing[i] != x ==> existing[i].createdTime < x.createdTime
    ensures x in Survivors(existing, configured)
    ensures DistinctIds(existing) ==> x.id !in Ids(ToDelete(existing, configured))
  {
    var d := ExcessCount(existing, configured);
    if d > 0 {
      var sorted := SortByCreatedTime(existing);
      SortByCreatedTimeIsStable(existing);
      var n := |sorted|;
      assert x in multiset(sorted);
      var j :| 0 <= j < n && sorted[j] == x;
      var last := sorted[n - 1];
      assert x.createdTime <= last.createdTime;
      assert last in multiset(existing);
      var m :| 0 <= m < |existing| && existing[m] == last;
      assert last == x;
      assert sorted[d..][n - 1 - d] == x;
    }
    if DistinctIds(existing) {
      SurvivorsAreNotDeleted(existing, configured);
    }
  }
}
