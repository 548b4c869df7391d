/** Backup listing and selection. */
module Backups {
  import opened Strings

  datatype Backup = Backup(name: string, cluster: string, backupID: string, kind: string, phase: string,
                           startedAt: int, stoppedAt: int, destPath: string)

  const COMPLETED := "completed"

  const ZERO := Backup("", "", "", "", "", 0, 0, "")

  /** The backups of one cluster in order; every backup when no cluster is named. */
  function OfCluster(s: seq<Backup>, cluster: string): seq<Backup> {
    if s == [] then []
    else if cluster == "" || s[0].cluster == cluster then [s[0]] + OfCluster(s[1..], cluster)
    else OfCluster(s[1..], cluster)
  }

  predicate NewestFirst(s: seq<Backup>) {
    forall i, j :: 0 <= i < j < |s| ==> s[i].startedAt >= s[j].startedAt
  }

  lemma {:induction false} OfClusterAppend(a: seq<Backup>, b: seq<Backup>, cluster: string)
    ensures OfCluster(a + b, cluster) == OfCluster(a, cluster) + OfCluster(b, cluster)
  {
    if a == [] {
      assert a + b == b;
    } else {
      OfClusterAppend(a[1..], b, cluster);
      assert (a + b)[0] == a[0] && (a + b)[1..] == a[1..] + b;
    }
  }

  lemma {:induction false} OfClusterHolds(s: seq<Backup>, cluster: string, b: Backup)
    ensures b in OfCluster(s, cluster) <==> b in s && (cluster == "" || b.cluster == cluster)
  {
    if s != [] {
      OfClusterHolds(s[1..], cluster, b);
      assert s == [s[0]] + s[1..];
    }
  }

  /** The filter that compacts over the front of the slice it reads. */
  method FilterInPlace(a: array<Backup>, cluster: string) returns (kept: nat)
    requires cluster != ""
    modifies a
    ensures kept <= a.Length
    ensures a[..kept] == OfCluster(old(a[..]), cluster)
  {
    ghost var was := a[..];
    kept := 0;
    for i := 0 to a.Length
      invariant kept <= i
      invariant a[..kept] == OfCluster(was[..i], cluster)
      invariant a[i..] == was[i..]
    {
      assert a[i] == a[i..][0] == was[i];
      assert was[..i + 1] == was[..i] + [was[i]];
      OfClusterAppend(was[..i], [was[i]], cluster);
      assert a[i + 1..] == a[i..][1..] == was[i + 1..];
      if a[i].cluster == cluster {
        a[kept] := a[i];
        kept := kept + 1;
      }
    }
    assert was[..a.Length] == was;
  }

  /** One more element at a place that keeps the order. */
  method InsertNewest(s: seq<Backup>, b: Backup) returns (r: seq<Backup>)
    requires NewestFirst(s)
    ensures NewestFirst(r) && multiset(r) == multiset(s) + multiset{b}
  {
    var k := 0;
    while k < |s| && s[k].startedAt > b.startedAt
      invariant k <= |s|
      invariant forall i :: 0 <= i < k ==> s[i].startedAt > b.startedAt
    {
      k := k + 1;
    }
    r := s[..k] + [b] + s[k..];
    assert s == s[..k] + s[k..];
  }

  /** sort.Slice by StartedAt, newest first: callers only learn the order and that nothing is lost. */
  method SortNewestFirst(s: seq<Backup>) returns (r: seq<Backup>)
    ensures NewestFirst(r) && multiset(r) == multiset(s)
  {
    r := [];
    for i := 0 to |s|
      invariant NewestFirst(r) && multiset(r) == multiset(s[..i])
    {
      assert s[..i + 1] == s[..i] + [s[i]];
      r := InsertNewest(r, s[i]);
    }
    assert s[..|s|] == s;
  }

  /** ListBackups, on the backups the API returns. */
  method ListBackups(items: seq<Backup>, cluster: string) returns (r: seq<Backup>)
    ensures NewestFirst(r) && multiset(r) == multiset(OfCluster(items, cluster))
  {
    var out := items;
    if cluster != "" {
      var a := new Backup[|items|](i requires 0 <= i < |items| => items[i]);
      assert a[..] == items;
      var kept := FilterInPlace(a, cluster);
      out := a[..kept];
    } else {
      EveryCluster(items);
    }
    r := SortNewestFirst(out);
  }

  lemma {:induction false} EveryCluster(s: seq<Backup>)
    ensures OfCluster(s, "") == s
  {
    if s != [] {
      EveryCluster(s[1..]);
    }
  }

  function FirstCompleted(s: seq<Backup>): Backup {
    if s == [] then ZERO else if s[0].phase == COMPLETED then s[0] else FirstCompleted(s[1..])
  }

  /** LatestCompleted. */
  method LatestCompleted(backups: seq<Backup>) returns (r: Backup)
    ensures r == FirstCompleted(backups)
  {
    for i := 0 to |backups|
      invariant FirstCompleted(backups[i..]) == FirstCompleted(backups)
    {
      assert backups[i..][1..] == backups[i + 1..];
      if backups[i].phase == COMPLETED {
        return backups[i];
      }
    }
    return ZERO;
  }

  lemma {:induction false} FirstCompletedIsNewest(s: seq<Backup>)
    requires NewestFirst(s)
    ensures FirstCompleted(s).phase == COMPLETED <==> exists b :: b in s && b.phase == COMPLETED
    ensures FirstCompleted(s).phase == COMPLETED ==>
      FirstCompleted(s) in s && forall b :: b in s && b.phase == COMPLETED ==> b.startedAt <= FirstCompleted(s).startedAt
    ensures FirstCompleted(s).phase != COMPLETED ==> FirstCompleted(s) == ZERO
  {
    if s != [] {
      FirstCompletedIsNewest(s[1..]);
      assert s == [s[0]] + s[1..];
      forall b | b in s && b.phase == COMPLETED && s[0].phase == COMPLETED
        ensures b.startedAt <= s[0].startedAt
      {
        var i :| 0 <= i < |s| && s[i] == b;
      }
    }
  }

  /**
   Whatever order equal start times take, listing and then picking gives a completed backup of the cluster with
   the greatest start time, or the zero backup exactly when there is none.
   */
  lemma LatestOfCluster(items: seq<Backup>, cluster: string, listed: seq<Backup>)
    requires NewestFirst(listed) && multiset(listed) == multiset(OfCluster(items, cluster))
    ensures var r := FirstCompleted(listed);
            && (r == ZERO <==> !exists b :: b in items && (cluster == "" || b.cluster == cluster) && b.phase == COMPLETED)
            && (r != ZERO ==>
                  && r in items && (cluster == "" || r.cluster == cluster) && r.phase == COMPLETED
                  && forall b :: b in items && (cluster == "" || b.cluster == cluster) && b.phase == COMPLETED
                       ==> b.startedAt <= r.startedAt)
  {
    FirstCompletedIsNewest(listed);
    forall b ensures b in listed <==> b in items && (cluster == "" || b.cluster == cluster) {
      OfClusterHolds(items, cluster, b);
      assert b in listed <==> b in multiset(listed);
    }
    assert ZERO.phase != COMPLETED;
  }
}
