/** Sync, Branch and Restore over all their runs: when they overwrite, and what with. */
module Overwrites {
  import opened Strings
  import Names
  import Manifest
  import SecretYaml
  import opened Paths
  import opened Stores
  import opened Cluster
  import opened Plans
  import opened Verbs
  import opened Agreement
  import opened Convergence
  import opened Backups
  import opened Restore

  // ----- loading

  /** A load appends the objects in order and does nothing else. */
  lemma {:induction false} LoadResult(s: Stores, db: string, objects: seq<string>, t: Stores)
    requires db in s.dbs && Run(s, LoadPlan(db, objects)) == Some(t)
    ensures t == s.(dbs := s.dbs[db := s.dbs[db].(objects := s.dbs[db].objects + objects)])
    decreases objects
  {
    if objects == [] {
      assert s.dbs[db].objects + [] == s.dbs[db].objects;
      assert s.dbs[db := s.dbs[db]] == s.dbs;
    } else {
      var plan := LoadPlan(db, objects);
      assert plan[0] == AddObject(db, objects[0]) && plan[1..] == LoadPlan(db, objects[1..]);
      var s1 := Apply(s, plan[0]).value;
      LoadResult(s1, db, objects[1..], t);
      assert s.dbs[db].objects + [objects[0]] + objects[1..] == s.dbs[db].objects + objects;
      assert s1.dbs[db := s1.dbs[db].(objects := s.dbs[db].objects + objects)]
          == s.dbs[db := s.dbs[db].(objects := s.dbs[db].objects + objects)];
    }
  }

  function FullGrants(db: string): set<(Privilege, string)> {
    {(Connect, db), (SchemaPublic, db), (FutureTables, db), (FutureSequences, db)}
  }

  /** Load and grants on a database that was just created. */
  lemma RefillResult(s: Stores, db: string, objects: seq<string>, t: Stores)
    requires db in s.dbs && s.dbs[db] == Database(db, [], {})
    requires Run(s, LoadPlan(db, objects) + GrantPlan(db)) == Some(t)
    ensures t == s.(dbs := s.dbs[db := Database(db, objects, FullGrants(db))])
  {
    RunAppend(s, LoadPlan(db, objects), GrantPlan(db));
    var s1 := Run(s, LoadPlan(db, objects)).value;
    LoadResult(s, db, objects, s1);
    assert [] + objects == objects;
    GrantPlanGrants(s1, db, t);
    assert {} + FullGrants(db) == FullGrants(db);
    assert s1.dbs[db := Database(db, objects, FullGrants(db))] == s.dbs[db := Database(db, objects, FullGrants(db))];
  }

  // ----- Sync

  /**
   A Sync that returns nil changes one thing: the destination is a database of its own role holding exactly the
   source's contents, with the tenant's grants. Source, credentials and manifest are as before.
   */
  lemma SyncDelivers(ws: Workspace, s: State, src: string, dst: string, confirmed: bool, acts: seq<Act>)
    requires Exec(ws, s, acts).Some? && SyncAttempt(s, src, dst, confirmed, acts, true)
    ensures src in s.stores.dbs && dst in s.stores.dbs && src != dst
    ensures Exec(ws, s, acts).value.stores
         == s.stores.(dbs := s.stores.dbs[dst := Database(dst, s.stores.dbs[src].objects, FullGrants(dst))])
  {
    var t := Exec(ws, s, acts).value.stores;
    var objects := ObjectsOf(s.stores, src);
    OperatorOnlyTouchesPasswords(ws, s, acts);
    RunAppend(s.stores, SyncFront(src, dst), BranchTail(src, dst, objects));
    var s1 := Run(s.stores, SyncFront(src, dst)).value;
    RecreatedIsEmpty(s.stores, src, dst, s1);
    DumpResult(s1, src, dst, objects, t);
    assert s1.dbs[dst := Database(dst, objects, FullGrants(dst))] == s.stores.dbs[dst := Database(dst, objects, FullGrants(dst))];
  }

  lemma {:induction false} LoadAccepted(s: Stores, db: string, objects: seq<string>)
    requires db in s.dbs && db in s.roles
    ensures Run(s, LoadPlan(db, objects)).Some?
    decreases objects
  {
    if objects != [] {
      var plan := LoadPlan(db, objects);
      assert plan[0] == AddObject(db, objects[0]) && plan[1..] == LoadPlan(db, objects[1..]);
      LoadAccepted(Apply(s, plan[0]).value, db, objects[1..]);
    }
  }

  lemma TailAccepted(s: Stores, src: string, dst: string, objects: seq<string>)
    requires src in s.dbs && dst in s.dbs && dst in s.roles
    ensures Run(s, BranchTail(src, dst, objects)).Some?
  {
    var load := LoadPlan(dst, objects);
    assert BranchTail(src, dst, objects) == [CheckDb(src)] + load + GrantPlan(dst);
    RunAppend(s, [CheckDb(src)] + load, GrantPlan(dst));
    RunAppend(s, [CheckDb(src)], load);
    RunOne(s, CheckDb(src));
    LoadAccepted(s, dst, objects);
    LoadResult(s, dst, objects, Run(s, load).value);
    GrantsAccepted(Run(s, load).value, dst, GrantPlan(dst));
  }

  lemma FrontAccepted(s: Stores, src: string, dst: string)
    requires src != dst
    ensures Run(s, SyncFront(src, dst)).Some?
       <==> src in s.dbs && dst in s.dbs && dst in s.roles && dst != SUPERUSER_DB
  {
    RunAppend(s, [CheckDb(src)] + [CheckDb(dst)] + [DropDb(dst)], [CreateDb(dst, dst)]);
    RunAppend(s, [CheckDb(src)] + [CheckDb(dst)], [DropDb(dst)]);
    RunAppend(s, [CheckDb(src)], [CheckDb(dst)]);
    RunOne(s, CheckDb(src));
    RunOne(s, CheckDb(dst));
    RunOne(s, DropDb(dst));
    RunOne(s.(dbs := s.dbs - {dst}), CreateDb(dst, dst));
  }

  /**
   The services accept a whole Sync exactly when both databases and the destination's role exist, and the
   destination can be dropped.
   */
  lemma SyncableIff(s: Stores, src: string, dst: string)
    requires src != dst
    ensures Run(s, SyncPlan(src, dst, ObjectsOf(s, src))).Some?
       <==> src in s.dbs && dst in s.dbs && dst in s.roles && dst != SUPERUSER_DB
  {
    var tail := BranchTail(src, dst, ObjectsOf(s, src));
    RunAppend(s, SyncFront(src, dst), tail);
    FrontAccepted(s, src, dst);
    if Run(s, SyncFront(src, dst)).Some? {
      var s1 := Run(s, SyncFront(src, dst)).value;
      RecreatedIsEmpty(s, src, dst, s1);
      TailAccepted(s1, src, dst, ObjectsOf(s, src));
    }
  }

  lemma DumpResult(s: Stores, src: string, dst: string, objects: seq<string>, t: Stores)
    requires dst in s.dbs && s.dbs[dst] == Database(dst, [], {})
    requires Run(s, BranchTail(src, dst, objects)) == Some(t)
    ensures t == s.(dbs := s.dbs[dst := Database(dst, objects, FullGrants(dst))])
  {
    assert BranchTail(src, dst, objects) == [CheckDb(src)] + (LoadPlan(dst, objects) + GrantPlan(dst));
    RunAppend(s, [CheckDb(src)], LoadPlan(dst, objects) + GrantPlan(dst));
    RunOne(s, CheckDb(src));
    RefillResult(s, dst, objects, t);
  }

  /** In every attempt, cut off anywhere: anything changes only after both databases were found to exist. */
  lemma SyncGuarded(ws: Workspace, s: State, src: string, dst: string, confirmed: bool, acts: seq<Act>, ok: bool)
    requires Exec(ws, s, acts).Some? && SyncAttempt(s, src, dst, confirmed, acts, ok)
    ensures Exec(ws, s, acts).value.stores != s.stores ==> src in s.stores.dbs && dst in s.stores.dbs && confirmed
    ensures dst !in s.stores.dbs ==> !ok && Exec(ws, s, acts).value.stores == s.stores
  {
    var cs := Commands(acts);
    OperatorOnlyTouchesPasswords(ws, s, acts);
    if cs != [] {
      var objects := ObjectsOf(s.stores, src);
      SyncNeverEdits(src, dst, objects);
      NeverTorn(acts, SyncPlan(src, dst, objects), ok);
      SyncStartsWithChecks(s.stores, src, dst, objects, cs);
    }
  }

  lemma SyncStartsWithChecks(s: Stores, src: string, dst: string, objects: seq<string>, cs: seq<Command>)
    requires cs != [] && cs <= SyncPlan(src, dst, objects) && Run(s, cs).Some?
    ensures src in s.dbs
    ensures dst in s.dbs || Run(s, cs) == Some(s)
    ensures dst !in s.dbs ==> |cs| == 1
  {
    var plan := SyncPlan(src, dst, objects);
    assert plan[0] == CheckDb(src) && plan[1] == CheckDb(dst);
    assert cs[0] == plan[0];
    if |cs| > 1 {
      assert cs[1..][0] == plan[1];
    }
  }

  lemma SyncNeverEdits(src: string, dst: string, objects: seq<string>)
    ensures var plan := SyncPlan(src, dst, objects);
            forall i :: 0 <= i < |plan| ==> !plan[i].AppendEntry? && !plan[i].RemoveEntry?
  {
    var plan := SyncPlan(src, dst, objects);
    forall i | 0 <= i < |plan| ensures !plan[i].AppendEntry? && !plan[i].RemoveEntry? {
      assert plan[i] in SyncFront(src, dst) || plan[i] == CheckDb(src) || plan[i] in LoadPlan(dst, objects)
             || plan[i] in GrantPlan(dst);
    }
  }

  /**
   From every state, in particular any that an interrupted Sync left behind: Provision of the destination, then
   Sync, both returning nil, give a destination with the source's contents and agreeing credentials.
   */
  lemma ProvisionThenSync(ws: Workspace, s: State, src: string, dst: string, entropy: Entropy, blind: bool,
                          first: seq<Act>, r: Result<Tenant>, second: seq<Act>)
    requires Resolved(ws) && Exec(ws, s, first).Some? && Exec(ws, Exec(ws, s, first).value, second).Some?
    requires ProvisionAttempt(ws, s, dst, entropy, blind, first, r) && r.Ok?
    requires SyncAttempt(Exec(ws, s, first).value, src, dst, true, second, true)
    ensures var u := Exec(ws, s, first).value;
            var t := Exec(ws, u, second).value;
            && src in u.stores.dbs
            && t.stores.dbs == u.stores.dbs[dst := Database(dst, u.stores.dbs[src].objects, FullGrants(dst))]
            && Provisioned(ws, t, dst, r.value.dsn.password)
  {
    var u := Exec(ws, s, first).value;
    ProvisionDelivers(ws, s, dst, entropy, blind, first, r);
    SyncDelivers(ws, u, src, dst, true, second);
    SyncSettles(src, dst, ObjectsOf(u.stores, src));
    StaysSettled(ws, u, dst, r.value.dsn.password, second);
  }

  lemma TailSettles(src: string, dst: string, objects: seq<string>)
    ensures var tail := BranchTail(src, dst, objects); forall i :: 0 <= i < |tail| ==> Settled(tail[i])
  {
    var tail := BranchTail(src, dst, objects);
    forall i | 0 <= i < |tail| ensures Settled(tail[i]) {
      assert tail[i] == CheckDb(src) || tail[i] in LoadPlan(dst, objects) || tail[i] in GrantPlan(dst);
    }
  }

  lemma SyncSettles(src: string, dst: string, objects: seq<string>)
    ensures var plan := SyncPlan(src, dst, objects); forall i :: 0 <= i < |plan| ==> Settled(plan[i])
  {
    var plan, front, tail := SyncPlan(src, dst, objects), SyncFront(src, dst), BranchTail(src, dst, objects);
    TailSettles(src, dst, objects);
    forall i | 0 <= i < |plan| ensures Settled(plan[i]) {
      assert plan[i] == if i < |front| then front[i] else tail[i - |front|];
    }
  }

  // ----- Branch

  /** A successful Branch is a successful Provision of the destination followed by the clone. */
  lemma BranchIsProvisionThenClone(ws: Workspace, s: State, src: string, dst: string, entropy: Entropy, blind: bool,
                                   loaded: seq<string>, acts: seq<Act>, r: Result<Tenant>) returns (i: nat)
    requires BranchAttempt(ws, s, src, dst, entropy, blind, loaded, acts, r) && r.Ok?
    ensures i <= |acts|
    ensures ProvisionAttempt(ws, s, dst, entropy, blind, acts[..i], r)
    ensures Commands(acts[..i]) == ProvisionPlan(ws, s.stores, dst, PasswordSource(ws, s.stores, dst, entropy, blind))
    ensures Commands(acts[i..]) == BranchTail(src, dst, loaded)
  {
    var from := PasswordSource(ws, s.stores, dst, entropy, blind);
    i := SplitActs(acts, ProvisionPlan(ws, s.stores, dst, from), BranchTail(src, dst, loaded));
  }

  lemma ExecSplit(ws: Workspace, s: State, acts: seq<Act>, i: nat)
    requires i <= |acts| && Exec(ws, s, acts).Some?
    ensures Exec(ws, s, acts[..i]).Some?
    ensures Exec(ws, Exec(ws, s, acts[..i]).value, acts[i..]) == Exec(ws, s, acts)
  {
    assert acts == acts[..i] + acts[i..];
    ExecAppend(ws, s, acts[..i], acts[i..]);
  }

  /** The clone adds the source's contents to the destination and leaves its credentials, owner and grants. */
  lemma CloneKeepsProvisioned(ws: Workspace, u: State, src: string, dst: string, loaded: seq<string>, acts: seq<Act>,
                              pw: string)
    requires Exec(ws, u, acts).Some? && Commands(acts) == BranchTail(src, dst, loaded)
    requires Provisioned(ws, u, dst, pw)
    ensures src in u.stores.dbs && Provisioned(ws, Exec(ws, u, acts).value, dst, pw)
    ensures Exec(ws, u, acts).value.stores.dbs[dst].objects == u.stores.dbs[dst].objects + loaded
  {
    OperatorOnlyTouchesPasswords(ws, u, acts);
    TailResult(u.stores, src, dst, loaded, Exec(ws, u, acts).value.stores);
    TailSettles(src, dst, loaded);
    StaysSettled(ws, u, dst, pw, acts);
  }

  /**
   A Branch into an empty destination that returns nil leaves a provisioned tenant with exactly the contents of
   the source.
   */
  lemma BranchDelivers(ws: Workspace, s: State, src: string, dst: string, entropy: Entropy, blind: bool,
                       loaded: seq<string>, acts: seq<Act>, r: Result<Tenant>)
    requires Resolved(ws) && Exec(ws, s, acts).Some?
    requires BranchAttempt(ws, s, src, dst, entropy, blind, loaded, acts, r) && r.Ok?
    requires ObjectsOf(s.stores, dst) == []
    ensures src in s.stores.dbs
    ensures Provisioned(ws, Exec(ws, s, acts).value, dst, r.value.dsn.password)
    ensures Describes(r.value, ws, dst, r.value.dsn.password)
    ensures Exec(ws, s, acts).value.stores.dbs[dst].objects == s.stores.dbs[src].objects
  {
    var i := BranchIsProvisionThenClone(ws, s, src, dst, entropy, blind, loaded, acts, r);
    ExecSplit(ws, s, acts, i);
    var u := Exec(ws, s, acts[..i]).value;
    ProvisionDelivers(ws, s, dst, entropy, blind, acts[..i], r);
    CloneKeepsProvisioned(ws, u, src, dst, loaded, acts[i..], r.value.dsn.password);
    OperatorOnlyTouchesPasswords(ws, s, acts[..i]);
    NoOtherCreated(ws, s.stores, dst, PasswordSource(ws, s.stores, dst, entropy, blind), src);
    assert [] + loaded == loaded;
  }

  /** Provision of one tenant leaves every other database as it was. */
  lemma NoOtherCreated(ws: Workspace, s: Stores, dst: string, from: Source, src: string)
    requires !from.Unreadable? && src != dst && Run(s, ProvisionPlan(ws, s, dst, from)).Some?
    ensures src in Run(s, ProvisionPlan(ws, s, dst, from)).value.dbs ==> src in s.dbs
  {
    ProvisionAboutDb(ws, s, dst, from);
    OtherDbStays(s, ProvisionPlan(ws, s, dst, from), dst, src);
  }

  lemma ProvisionAboutDb(ws: Workspace, s: Stores, dst: string, from: Source)
    requires !from.Unreadable?
    ensures var plan := ProvisionPlan(ws, s, dst, from); forall i :: 0 <= i < |plan| ==> AboutDb(plan[i], dst)
  {
    ProvisionPlanKinds(ws, s, dst, from);
    var plan := ProvisionPlan(ws, s, dst, from);
    assert forall i :: 0 <= i < |plan| ==> Provisioning(plan[i], dst);
  }

  predicate AboutDb(c: Command, db: string) {
    match c
    case CreateDb(d, _) => d == db
    case AlterDbOwner(d, _) => d == db
    case DropDb(d) => d == db
    case Grant(d, _, _) => d == db
    case AddObject(d, _) => d == db
    case _ => true
  }

  lemma OtherDbOnce(s: Stores, c: Command, db: string, other: string)
    requires Apply(s, c).Some? && other != db && AboutDb(c, db)
    ensures other in Apply(s, c).value.dbs <==> other in s.dbs
    ensures other in s.dbs ==> Apply(s, c).value.dbs[other] == s.dbs[other]
  {
  }

  lemma {:induction false} OtherDbStays(s: Stores, cs: seq<Command>, db: string, other: string)
    requires Run(s, cs).Some? && other != db
    requires forall i :: 0 <= i < |cs| ==> AboutDb(cs[i], db)
    ensures other in Run(s, cs).value.dbs <==> other in s.dbs
    ensures other in s.dbs ==> Run(s, cs).value.dbs[other] == s.dbs[other]
    decreases cs
  {
    if cs != [] {
      OtherDbOnce(s, cs[0], db, other);
      OtherDbStays(Apply(s, cs[0]).value, cs[1..], db, other);
    }
  }

  lemma TailResult(s: Stores, src: string, dst: string, objects: seq<string>, t: Stores)
    requires dst in s.dbs && Run(s, BranchTail(src, dst, objects)) == Some(t)
    ensures src in s.dbs
    ensures t == s.(dbs := t.dbs) && dst in t.dbs && t.dbs[dst].owner == s.dbs[dst].owner
    ensures t.dbs[dst].objects == s.dbs[dst].objects + objects
    ensures t.dbs[dst].grants == s.dbs[dst].grants + FullGrants(dst)
  {
    assert BranchTail(src, dst, objects) == [CheckDb(src)] + LoadPlan(dst, objects) + GrantPlan(dst);
    RunAppend(s, [CheckDb(src)] + LoadPlan(dst, objects), GrantPlan(dst));
    RunAppend(s, [CheckDb(src)], LoadPlan(dst, objects));
    RunOne(s, CheckDb(src));
    var s1 := Run(s, LoadPlan(dst, objects)).value;
    LoadResult(s, dst, objects, s1);
    GrantPlanGrants(s1, dst, t);
  }

  /** The point of a run at which the first part of its commands is done. */
  lemma {:induction false} SplitActs(acts: seq<Act>, a: seq<Command>, b: seq<Command>) returns (i: nat)
    requires Commands(acts) == a + b
    ensures i <= |acts| && Commands(acts[..i]) == a && Commands(acts[i..]) == b
  {
    if a == [] {
      i := 0;
      assert acts[..0] == [] && acts[0..] == acts;
    } else {
      var init, last := a[..|a| - 1], a[|a| - 1];
      assert a + b == init + [last] + b;
      var k := FindCommand(acts, init, last, b);
      i := k + 1;
      assert acts[..i] == acts[..k] + [acts[k]];
      CommandsAppend(acts[..k], [acts[k]]);
      assert [acts[k]][1..] == [];
      assert Commands([acts[k]]) == [last];
    }
  }

  // ----- Restore

  /** Where a restore's plan has its destructive middle. */
  lemma RestorePlanShape(app: string, rec: string, point: RecoveryPoint, objects: seq<string>)
    ensures var plan := RestorePlan(app, rec, point, objects);
            && |plan| >= 5
            && plan[0] == CreateCluster(rec, point) && plan[1] == CheckReachable(rec, app) && plan[2] == DropDb(app)
            && plan[3] == CreateDb(app, app) && plan[|plan| - 1] == DeleteCluster(rec)
            && (forall i :: 1 <= i < |plan| - 1 ==> Clusters !in Touched(plan[i]))
            && (forall i :: 0 <= i < |plan| - 1 ==> !plan[i].DeleteCluster?)
  {
    var middle := RecreatePlan(app) + RefillPlan(app, objects);
    assert RestorePlan(app, rec, point, objects)
        == [CreateCluster(rec, point)] + [CheckReachable(rec, app)] + middle + [DeleteCluster(rec)];
    assert middle[0] == DropDb(app) && middle[1] == CreateDb(app, app);
    ReloadSparesClusters(app, objects);
  }

  lemma ReloadSparesClusters(app: string, objects: seq<string>)
    ensures var middle := RecreatePlan(app) + RefillPlan(app, objects);
            forall i :: 0 <= i < |middle| ==> Clusters !in Touched(middle[i]) && !middle[i].DeleteCluster?
  {
    var middle := RecreatePlan(app) + RefillPlan(app, objects);
    forall i | 0 <= i < |middle| ensures Clusters !in Touched(middle[i]) && !middle[i].DeleteCluster? {
      assert middle[i] in RecreatePlan(app) || middle[i] in LoadPlan(app, objects) || middle[i] in GrantPlan(app);
    }
  }

  lemma CommandsOfRestore(cs: seq<Command>, plan: seq<Command>, rec: string, ok: bool, i: nat)
    requires RestoreCommands(cs, plan, rec, ok) && i < |cs| && i < |plan|
    ensures cs[i] == plan[i] || (i == |cs| - 1 && cs[i] == DeleteCluster(rec))
  {
    if !(cs <= plan) && i < |cs| - 1 {
      assert cs[i] == cs[..|cs| - 1][i];
    }
  }

  /**
   In every attempt, cut off anywhere: before the primary's database is touched, a completed backup of this very
   cluster was chosen, a new recovery cluster was created under a name nothing had, the live cluster included,
   and that cluster had answered for the tenant's database.
   */
  lemma RestoreIsGuarded(ws: Workspace, backups: seq<Backup>, s: State, app: string, name: string, target: Option<int>,
                         rec: string, chosen: Option<Backup>, acts: seq<Act>, ok: bool)
    requires Exec(ws, s, acts).Some?
    requires RestoreAttempt(ws, backups, s, app, name, target, rec, chosen, acts, ok)
    requires Exec(ws, s, acts).value.stores.dbs != s.stores.dbs
    ensures chosen.Some? && chosen.value in backups && chosen.value.name == TrimSpace(name)
    ensures chosen.value.phase == "completed" && chosen.value.backupID != "" && chosen.value.cluster == ws.clusterName
    ensures rec !in s.stores.clusters && rec != ws.clusterName
    ensures var point := RecoveryPoint(chosen.value.backupID, target);
            && |Commands(acts)| >= 3
            && Commands(acts)[0] == CreateCluster(rec, point) && Commands(acts)[1] == CheckReachable(rec, app)
            && point in s.stores.archive && app in s.stores.archive[point]
  {
    OperatorOnlyTouchesPasswords(ws, s, acts);
    var cs := Commands(acts);
    if chosen.None? || |cs| <= 2 {
      if chosen.Some? {
        var b := RecoveryPoint(chosen.value.backupID, target);
        RestorePlanShape(app, rec, b, RecoveredObjects(s.stores, b, app));
        ShortRestoreAvoidsDbs(cs, app, rec, PlanOf(s.stores, app, chosen.value, target, rec), ok);
      }
      UntouchedStays(s.stores, cs, Dbs);
      assert false;
    }
    var point := RecoveryPoint(chosen.value.backupID, target);
    RestorePlanShape(app, rec, point, RecoveredObjects(s.stores, point, app));
    var plan := PlanOf(s.stores, app, chosen.value, target, rec);
    CommandsOfRestore(cs, plan, rec, ok, 0);
    CommandsOfRestore(cs, plan, rec, ok, 1);
    GuardsHeld(s.stores, cs, rec, point, app);
  }

  lemma ShortRestoreAvoidsDbs(cs: seq<Command>, app: string, rec: string, plan: seq<Command>, ok: bool)
    requires |cs| <= 2 && RestoreCommands(cs, plan, rec, ok) && |plan| > 2
    requires plan[0].CreateCluster? && plan[1].CheckReachable?
    ensures Avoids(cs, Dbs)
  {
    forall i | 0 <= i < |cs| ensures Dbs !in Touched(cs[i]) {
      CommandsOfRestore(cs, plan, rec, ok, i);
    }
  }

  lemma GuardsHeld(s: Stores, cs: seq<Command>, rec: string, point: RecoveryPoint, app: string)
    requires |cs| >= 2 && Run(s, cs).Some?
    requires cs[0] == CreateCluster(rec, point) && cs[1] == CheckReachable(rec, app)
    ensures rec !in s.clusters && point in s.archive && app in s.archive[point]
  {
    assert cs[1..][0] == cs[1];
    assert Apply(Apply(s, cs[0]).value, cs[1]).Some?;
  }

  /** The first command of a restore creates the cluster, so that its name was free. */
  lemma StartsWithCreation(s: Stores, cs: seq<Command>, plan: seq<Command>, rec: string, point: RecoveryPoint, ok: bool)
    requires cs != [] && RestoreCommands(cs, plan, rec, ok) && |plan| > 0 && plan[0] == CreateCluster(rec, point)
    requires Run(s, cs).Some?
    ensures cs[0] == plan[0] && rec !in s.clusters
  {
    CommandsOfRestore(cs, plan, rec, ok, 0);
  }

  /**
   Whatever happens, every cluster that existed before is still there as it was, one of the recovery name and the
   live one included; and only a cluster of the recovery name can be new.
   */
  lemma RestoreSparesClusters(ws: Workspace, backups: seq<Backup>, s: State, app: string, name: string,
                              target: Option<int>, rec: string, chosen: Option<Backup>, acts: seq<Act>, ok: bool,
                              other: string)
    requires Exec(ws, s, acts).Some?
    requires RestoreAttempt(ws, backups, s, app, name, target, rec, chosen, acts, ok)
    ensures var t := Exec(ws, s, acts).value.stores;
            && (other in s.stores.clusters ==> other in t.clusters && t.clusters[other] == s.stores.clusters[other])
            && (other in t.clusters && other !in s.stores.clusters ==> other == rec)
  {
    OperatorOnlyTouchesPasswords(ws, s, acts);
    if Commands(acts) != [] {
      var point := RecoveryPoint(chosen.value.backupID, target);
      RestorePlanShape(app, rec, point, RecoveredObjects(s.stores, point, app));
      var plan := PlanOf(s.stores, app, chosen.value, target, rec);
      StartsWithCreation(s.stores, Commands(acts), plan, rec, point, ok);
      RestoreTouchesOnly(Commands(acts), plan, rec, ok);
      if other != rec {
        OtherClusterStays(s.stores, Commands(acts), rec, other);
      }
    }
  }

  lemma {:induction false} DoneIsCommanded(acts: seq<Act>, c: Command)
    ensures Did(c) in acts <==> c in Commands(acts)
  {
    if acts != [] {
      DoneIsCommanded(acts[1..], c);
      assert acts == [acts[0]] + acts[1..];
    }
  }

  /** Deletions are only done or tried on a name that was free when the run started, so never on the live cluster. */
  lemma RestoreDeletesItsOwn(ws: Workspace, backups: seq<Backup>, s: State, app: string, name: string,
                             target: Option<int>, rec: string, chosen: Option<Backup>, acts: seq<Act>, ok: bool,
                             victim: string)
    requires Exec(ws, s, acts).Some?
    requires RestoreAttempt(ws, backups, s, app, name, target, rec, chosen, acts, ok)
    requires Did(DeleteCluster(victim)) in acts || Failed([DeleteCluster(victim)]) in acts
    ensures victim == rec && victim !in s.stores.clusters && victim != ws.clusterName
  {
    DoneIsCommanded(acts, DeleteCluster(victim));
    assert chosen.Some?;
    OperatorOnlyTouchesPasswords(ws, s, acts);
    var point := RecoveryPoint(chosen.value.backupID, target);
    var plan := PlanOf(s.stores, app, chosen.value, target, rec);
    RestorePlanShape(app, rec, point, RecoveredObjects(s.stores, point, app));
    DeletionIsPlanned(acts, plan, rec, ok, victim);
    StartsWithCreation(s.stores, Commands(acts), plan, rec, point, ok);
  }

  lemma DeletionIsPlanned(acts: seq<Act>, plan: seq<Command>, rec: string, ok: bool, victim: string)
    requires RestoreCommands(Commands(acts), plan, rec, ok) && OnlyBlamed([], acts, plan)
    requires |plan| > 0 && plan[0].CreateCluster? && plan[0].cluster == rec && plan[|plan| - 1] == DeleteCluster(rec)
    requires forall i :: 1 <= i < |plan| - 1 ==> Clusters !in Touched(plan[i])
    requires CleansUp(acts, plan[0], DeleteCluster(rec), ok)
    requires Did(DeleteCluster(victim)) in acts || Failed([DeleteCluster(victim)]) in acts
    ensures victim == rec && Commands(acts) != []
  {
    if Failed([DeleteCluster(victim)]) in acts {
      TriedIsPlanned(acts, plan, rec, victim);
      TriedAfterSomething(acts, plan[0], DeleteCluster(rec), ok);
    } else {
      DoneIsCommanded(acts, DeleteCluster(victim));
      RestoreTouchesOnly(Commands(acts), plan, rec, ok);
    }
  }

  lemma TriedIsPlanned(acts: seq<Act>, plan: seq<Command>, rec: string, victim: string)
    requires OnlyBlamed([], acts, plan) && Failed([DeleteCluster(victim)]) in acts
    requires |plan| > 0 && !plan[0].DeleteCluster? && plan[|plan| - 1] == DeleteCluster(rec)
    requires forall i :: 1 <= i < |plan| - 1 ==> Clusters !in Touched(plan[i])
    ensures victim == rec
  {
    assert DeleteCluster(victim) in [DeleteCluster(victim)];
  }

  lemma TriedAfterSomething(acts: seq<Act>, create: Command, delete: Command, ok: bool)
    requires CleansUp(acts, create, delete, ok) && Failed([delete]) in acts
    ensures Commands(acts) != []
  {
    var i :| 0 <= i < |acts| && acts[i] == Failed([delete]);
    assert acts == acts[..i] + acts[i..];
    CommandsAppend(acts[..i], acts[i..]);
  }

  predicate AboutCluster(c: Command, rec: string) {
    match c
    case CreateCluster(n, _) => n == rec
    case DeleteCluster(n) => n == rec
    case _ => true
  }

  lemma RestoreTouchesOnly(cs: seq<Command>, plan: seq<Command>, rec: string, ok: bool)
    requires RestoreCommands(cs, plan, rec, ok)
    requires |plan| > 0 && AboutCluster(plan[0], rec) && plan[|plan| - 1] == DeleteCluster(rec)
    requires forall i :: 1 <= i < |plan| - 1 ==> Clusters !in Touched(plan[i])
    ensures forall i :: 0 <= i < |cs| ==> AboutCluster(cs[i], rec)
  {
    forall i | 0 <= i < |cs| ensures AboutCluster(cs[i], rec) {
      if cs <= plan {
        assert cs[i] == plan[i];
      } else if i < |cs| - 1 {
        assert cs[i] == cs[..|cs| - 1][i] == plan[i];
      }
    }
  }

  lemma OtherClusterOnce(s: Stores, c: Command, rec: string, other: string)
    requires Apply(s, c).Some? && other != rec && AboutCluster(c, rec)
    ensures other in Apply(s, c).value.clusters <==> other in s.clusters
    ensures other in s.clusters ==> Apply(s, c).value.clusters[other] == s.clusters[other]
  {
  }

  lemma {:induction false} OtherClusterStays(s: Stores, cs: seq<Command>, rec: string, other: string)
    requires Run(s, cs).Some? && other != rec
    requires forall i :: 0 <= i < |cs| ==> AboutCluster(cs[i], rec)
    ensures other in Run(s, cs).value.clusters <==> other in s.clusters
    ensures other in s.clusters ==> Run(s, cs).value.clusters[other] == s.clusters[other]
    decreases cs
  {
    if cs != [] {
      OtherClusterOnce(s, cs[0], rec, other);
      OtherClusterStays(Apply(s, cs[0]).value, cs[1..], rec, other);
    }
  }

  lemma DeletedLast(s: Stores, cs: seq<Command>, rec: string, t: Stores)
    requires cs != [] && cs[|cs| - 1] == DeleteCluster(rec) && Run(s, cs) == Some(t)
    ensures rec !in t.clusters
  {
    var init := cs[..|cs| - 1];
    assert cs == init + [DeleteCluster(rec)];
    RunAppend(s, init, [DeleteCluster(rec)]);
    RunOne(Run(s, init).value, DeleteCluster(rec));
  }

  /**
   A restore that returns nil changes one thing: the tenant's database holds exactly the recovered contents, is
   owned by its role and has the tenant's grants. The recovery cluster is gone, and role, Secret, SOPS file and
   manifest are as before.
   */
  lemma RestoreDelivers(ws: Workspace, backups: seq<Backup>, s: State, app: string, name: string, target: Option<int>,
                        rec: string, chosen: Option<Backup>, acts: seq<Act>)
    requires Exec(ws, s, acts).Some?
    requires RestoreAttempt(ws, backups, s, app, name, target, rec, chosen, acts, true)
    ensures var point := RecoveryPoint(chosen.value.backupID, target);
            && point in s.stores.archive && app in s.stores.archive[point]
            && Exec(ws, s, acts).value.stores
               == s.stores.(dbs := s.stores.dbs[app := Database(app, s.stores.archive[point][app], FullGrants(app))])
  {
    OperatorOnlyTouchesPasswords(ws, s, acts);
    RestoredWhole(s.stores, app, rec, RecoveryPoint(chosen.value.backupID, target), Exec(ws, s, acts).value.stores);
  }

  lemma RestoredWhole(s: Stores, app: string, rec: string, point: RecoveryPoint, t: Stores)
    requires Run(s, RestorePlan(app, rec, point, RecoveredObjects(s, point, app))) == Some(t)
    ensures point in s.archive && app in s.archive[point]
    ensures t == s.(dbs := s.dbs[app := Database(app, s.archive[point][app], FullGrants(app))])
  {
    var objects := RecoveredObjects(s, point, app);
    var create, rest := [CreateCluster(rec, point)], RecoverPlan(rec, app, objects);
    RunAppend(s, create, rest);
    RunOne(s, create[0]);
    var s1 := Apply(s, create[0]).value;
    CreationUndone(s, rec, point, s1);
    RecoverResult(s1, rec, app, objects, t);
  }

  lemma CreationUndone(s: Stores, rec: string, point: RecoveryPoint, t: Stores)
    requires Apply(s, CreateCluster(rec, point)) == Some(t)
    ensures t.(clusters := t.clusters - {rec}) == s
    ensures t.clusters[rec] == if point in s.archive then s.archive[point] else map[]
  {
    assert t.clusters - {rec} == s.clusters;
  }

  lemma RecoverResult(s: Stores, rec: string, app: string, objects: seq<string>, t: Stores)
    requires Run(s, RecoverPlan(rec, app, objects)) == Some(t)
    ensures rec in s.clusters && app in s.clusters[rec]
    ensures t == s.(dbs := s.dbs[app := Database(app, objects, FullGrants(app))], clusters := s.clusters - {rec})
  {
    var front, delete := [CheckReachable(rec, app)] + (RecreatePlan(app) + RefillPlan(app, objects)), DeleteCluster(rec);
    RunAppend(s, front, [delete]);
    var s1 := Run(s, front).value;
    CheckedReload(s, rec, app, objects, s1);
    RunOne(s1, delete);
    DeletedOnce(s1, rec, t);
  }

  lemma DeletedOnce(s: Stores, rec: string, t: Stores)
    requires Apply(s, DeleteCluster(rec)) == Some(t)
    ensures t == s.(clusters := s.clusters - {rec})
  {
  }

  lemma CheckedReload(s: Stores, rec: string, app: string, objects: seq<string>, t: Stores)
    requires Run(s, [CheckReachable(rec, app)] + (RecreatePlan(app) + RefillPlan(app, objects))) == Some(t)
    ensures rec in s.clusters && app in s.clusters[rec]
    ensures t == s.(dbs := s.dbs[app := Database(app, objects, FullGrants(app))])
  {
    RunAppend(s, [CheckReachable(rec, app)], RecreatePlan(app) + RefillPlan(app, objects));
    RunOne(s, CheckReachable(rec, app));
    ReloadResult(s, app, objects, t);
  }

  /** Drop, create, load and grant: the database is replaced as a whole. */
  lemma ReloadResult(s: Stores, app: string, objects: seq<string>, t: Stores)
    requires Run(s, RecreatePlan(app) + RefillPlan(app, objects)) == Some(t)
    ensures t == s.(dbs := s.dbs[app := Database(app, objects, FullGrants(app))])
  {
    RunAppend(s, RecreatePlan(app), RefillPlan(app, objects));
    var s1 := Run(s, RecreatePlan(app)).value;
    RecreateResult(s, app, s1);
    RefillResult(s1, app, objects, t);
    assert s1.dbs[app := Database(app, objects, FullGrants(app))] == s.dbs[app := Database(app, objects, FullGrants(app))];
  }

  lemma RecreateResult(s: Stores, app: string, t: Stores)
    requires Run(s, RecreatePlan(app)) == Some(t)
    ensures t == s.(dbs := s.dbs[app := Database(app, [], {})])
  {
    RunAppend(s, [DropDb(app)], [CreateDb(app, app)]);
    RunOne(s, DropDb(app));
    var s1 := Apply(s, DropDb(app)).value;
    RunOne(s1, CreateDb(app, app));
    assert (s.dbs - {app})[app := Database(app, [], {})] == s.dbs[app := Database(app, [], {})];
  }

  /**
   Every exit after the creation has deleted the cluster or tried to, with exactly one exception: the creation took
   effect and reported an error, for then the cleanup is not installed yet.
   */
  lemma LeftUntriedIff(ws: Workspace, backups: seq<Backup>, s: State, app: string, name: string,
                       target: Option<int>, rec: string, b: Backup, acts: seq<Act>, ok: bool)
    requires Exec(ws, s, acts).Some?
    requires RestoreAttempt(ws, backups, s, app, name, target, rec, Some(b), acts, ok)
    ensures var create, delete := CreateCluster(rec, RecoveryPoint(b.backupID, target)), DeleteCluster(rec);
            Did(create) in acts && Did(delete) !in acts && Failed([delete]) !in acts
            <==> Commands(acts) == [create] && Failed([create]) in acts
  {
    var point := RecoveryPoint(b.backupID, target);
    var create, delete := CreateCluster(rec, point), DeleteCluster(rec);
    var cs, plan := Commands(acts), PlanOf(s.stores, app, b, target, rec);
    RestorePlanShape(app, rec, point, RecoveredObjects(s.stores, point, app));
    OperatorOnlyTouchesPasswords(ws, s, acts);
    DoneIsCommanded(acts, create);
    DoneIsCommanded(acts, delete);
    if cs != [] {
      StartsWithCreation(s.stores, cs, plan, rec, point, ok);
      assert cs[|cs| - 1] == delete || !ok;
      UntriedIff(acts, create, delete, ok);
    }
  }

  lemma UntriedIff(acts: seq<Act>, create: Command, delete: Command, ok: bool)
    requires CleansUp(acts, create, delete, ok) && create != delete
    requires Commands(acts) != [] && Commands(acts)[0] == create
    requires ok ==> Commands(acts)[|Commands(acts)| - 1] == delete
    ensures create in Commands(acts)
    ensures delete !in Commands(acts) && Failed([delete]) !in acts <==> Commands(acts) == [create] && Failed([create]) in acts
  {
    var cs := Commands(acts);
    assert cs[0] in cs && cs[|cs| - 1] in cs;
  }

  /** Said of the cluster itself: it is left behind exactly when it was created and no deletion took effect. */
  lemma LeftBehindIff(ws: Workspace, backups: seq<Backup>, s: State, app: string, name: string,
                      target: Option<int>, rec: string, b: Backup, acts: seq<Act>, ok: bool)
    requires Exec(ws, s, acts).Some?
    requires RestoreAttempt(ws, backups, s, app, name, target, rec, Some(b), acts, ok)
    ensures rec in Exec(ws, s, acts).value.stores.clusters && rec !in s.stores.clusters
       <==> Did(CreateCluster(rec, RecoveryPoint(b.backupID, target))) in acts && Did(DeleteCluster(rec)) !in acts
    ensures rec in Exec(ws, s, acts).value.stores.clusters && rec !in s.stores.clusters ==> !ok
  {
    var point := RecoveryPoint(b.backupID, target);
    var cs, plan := Commands(acts), PlanOf(s.stores, app, b, target, rec);
    RestorePlanShape(app, rec, point, RecoveredObjects(s.stores, point, app));
    OperatorOnlyTouchesPasswords(ws, s, acts);
    DoneIsCommanded(acts, CreateCluster(rec, point));
    DoneIsCommanded(acts, DeleteCluster(rec));
    if cs != [] {
      StartsWithCreation(s.stores, cs, plan, rec, point, ok);
      assert cs[0] in cs;
      if DeleteCluster(rec) in cs {
        OnlyLastDeletes(cs, plan, rec, ok);
        DeletedLast(s.stores, cs, rec, Run(s.stores, cs).value);
      } else {
        NothingDeleted(s.stores, cs, plan[0], rec);
      }
      if ok {
        assert cs[|cs| - 1] in cs;
      }
    }
  }

  lemma OnlyLastDeletes(cs: seq<Command>, plan: seq<Command>, rec: string, ok: bool)
    requires RestoreCommands(cs, plan, rec, ok) && DeleteCluster(rec) in cs
    requires |plan| > 0 && forall i :: 0 <= i < |plan| - 1 ==> !plan[i].DeleteCluster?
    ensures cs != [] && cs[|cs| - 1] == DeleteCluster(rec)
  {
    var i :| 0 <= i < |cs| && cs[i] == DeleteCluster(rec);
    if i < |plan| {
      CommandsOfRestore(cs, plan, rec, ok, i);
    }
  }

  /** A cluster stays as long as no command deletes it. */
  lemma NothingDeleted(s: Stores, cs: seq<Command>, create: Command, rec: string)
    requires cs != [] && cs[0] == create && create.CreateCluster? && create.cluster == rec
    requires DeleteCluster(rec) !in cs && Run(s, cs).Some?
    ensures rec in Run(s, cs).value.clusters
  {
    ClusterStays(Apply(s, cs[0]).value, cs[1..], rec);
  }

  lemma ClusterStaysOnce(s: Stores, c: Command, rec: string)
    requires rec in s.clusters && c != DeleteCluster(rec) && Apply(s, c).Some?
    ensures rec in Apply(s, c).value.clusters
  {
  }

  lemma {:induction false} ClusterStays(s: Stores, cs: seq<Command>, rec: string)
    requires rec in s.clusters && DeleteCluster(rec) !in cs && Run(s, cs).Some?
    ensures rec in Run(s, cs).value.clusters
    decreases cs
  {
    if cs != [] {
      assert cs[0] in cs;
      ClusterStaysOnce(s, cs[0], rec);
      ClusterStays(Apply(s, cs[0]).value, cs[1..], rec);
    }
  }

  /** That exception happens: from every state in which a backup can be restored, there is a run that leaks its cluster. */
  lemma CreationLeaks(ws: Workspace, backups: seq<Backup>, s: State, app: string, name: string, target: Option<int>,
                      rec: string, b: Backup) returns (acts: seq<Act>)
    requires Names.IdentSafe(app) && Names.DnsSubdomain(TrimSpace(name))
    requires ws.clusterName in s.stores.clusters && Choosable(ws, backups, name, b)
    requires rec !in s.stores.clusters
    ensures RestoreAttempt(ws, backups, s, app, name, target, rec, Some(b), acts, false)
    ensures Exec(ws, s, acts).Some? && rec in Exec(ws, s, acts).value.stores.clusters
    ensures Did(DeleteCluster(rec)) !in acts && Failed([DeleteCluster(rec)]) !in acts
  {
    var point := RecoveryPoint(b.backupID, target);
    var create := CreateCluster(rec, point);
    acts := [Did(create), Failed([create])];
    LeakyRun(ws, s, create);
    RestorePlanShape(app, rec, point, RecoveredObjects(s.stores, point, app));
    LeakyAttempt(acts, PlanOf(s.stores, app, b, target, rec), rec);
  }

  lemma LeakyAttempt(acts: seq<Act>, plan: seq<Command>, rec: string)
    requires |plan| > 0 && plan[0].CreateCluster? && plan[0].cluster == rec
    requires acts == [Did(plan[0]), Failed([plan[0]])] && Commands(acts) == [plan[0]]
    ensures RestoreCommands(Commands(acts), plan, rec, false)
    ensures OnlyBlamed([], acts, plan) && CleansUp(acts, plan[0], DeleteCluster(rec), false)
    ensures Did(DeleteCluster(rec)) !in acts && Failed([DeleteCluster(rec)]) !in acts
  {
    assert Commands(acts) == plan[..1];
    assert plan[0] in plan;
    assert [DeleteCluster(rec)][0] != [plan[0]][0];
  }

  lemma LeakyRun(ws: Workspace, s: State, create: Command)
    requires create.CreateCluster? && create.cluster !in s.stores.clusters
    ensures var acts := [Did(create), Failed([create])];
            && Commands(acts) == [create] && Exec(ws, s, acts).Some?
            && create.cluster in Exec(ws, s, acts).value.stores.clusters
  {
    HappensFirst(ws, s, Did(create), [Failed([create])] + []);
    HappensFirst(ws, Happen(ws, s, Did(create)).value, Failed([create]), []);
    assert [Did(create)] + ([Failed([create])] + []) == [Did(create), Failed([create])];
  }

  // ----- when nothing goes wrong

  lemma ReloadAccepted(s: Stores, app: string, objects: seq<string>)
    ensures Run(s, RecreatePlan(app) + RefillPlan(app, objects)).Some? <==> app in s.roles && app != SUPERUSER_DB
  {
    RunAppend(s, RecreatePlan(app), RefillPlan(app, objects));
    RunAppend(s, [DropDb(app)], [CreateDb(app, app)]);
    RunOne(s, DropDb(app));
    RunOne(s.(dbs := s.dbs - {app}), CreateDb(app, app));
    if Run(s, RecreatePlan(app)).Some? {
      var s1 := Run(s, RecreatePlan(app)).value;
      RecreateResult(s, app, s1);
      RunAppend(s1, LoadPlan(app, objects), GrantPlan(app));
      LoadAccepted(s1, app, objects);
      LoadResult(s1, app, objects, Run(s1, LoadPlan(app, objects)).value);
      GrantsAccepted(Run(s1, LoadPlan(app, objects)).value, app, GrantPlan(app));
    }
  }

  lemma RecoverAccepted(s: Stores, rec: string, app: string, objects: seq<string>)
    requires rec in s.clusters
    ensures Run(s, RecoverPlan(rec, app, objects)).Some?
       <==> app in s.clusters[rec] && app in s.roles && app != SUPERUSER_DB
  {
    var check, reload := [CheckReachable(rec, app)], RecreatePlan(app) + RefillPlan(app, objects);
    RunAppend(s, check + reload, [DeleteCluster(rec)]);
    RunAppend(s, check, reload);
    RunOne(s, CheckReachable(rec, app));
    ReloadAccepted(s, app, objects);
    if Run(s, check + reload).Some? {
      var s1 := Run(s, check + reload).value;
      CheckedReload(s, rec, app, objects, s1);
      RunOne(s1, DeleteCluster(rec));
    }
  }

  /**
   A restore that meets no fault succeeds exactly when a completed backup of this cluster can be chosen, the
   recovery name is free, the recovered image has the tenant's database, and its role exists.
   */
  lemma RestorableIff(ws: Workspace, backups: seq<Backup>, s: Stores, app: string, name: string, target: Option<int>,
                      rec: string)
    ensures Restorable(ws, backups, s, app, name, target, rec)
       <==> && Names.IdentSafe(app) && Names.DnsSubdomain(TrimSpace(name))
            && ws.clusterName in s.clusters && rec !in s.clusters && app in s.roles && app != SUPERUSER_DB
            && exists b :: b in backups && b.name == TrimSpace(name) && b.phase == "completed" && b.backupID != ""
                           && b.cluster == ws.clusterName && Recovers(s, RecoveryPoint(b.backupID, target), app)
  {
    forall b | Choosable(ws, backups, name, b)
      ensures Run(s, PlanOf(s, app, b, target, rec)).Some?
         <==> && rec !in s.clusters && app in s.roles && app != SUPERUSER_DB
              && Recovers(s, RecoveryPoint(b.backupID, target), app)
    {
      RestorePlanAccepted(s, app, b, target, rec);
    }
  }

  /** The image recovered from this point has the tenant's database. */
  predicate Recovers(s: Stores, point: RecoveryPoint, app: string) {
    point in s.archive && app in s.archive[point]
  }

  lemma RestorePlanAccepted(s: Stores, app: string, b: Backup, target: Option<int>, rec: string)
    ensures Run(s, PlanOf(s, app, b, target, rec)).Some?
       <==> rec !in s.clusters && app in s.roles && app != SUPERUSER_DB && Recovers(s, RecoveryPoint(b.backupID, target), app)
  {
    var point := RecoveryPoint(b.backupID, target);
    var create, objects := CreateCluster(rec, point), RecoveredObjects(s, point, app);
    RunAppend(s, [create], RecoverPlan(rec, app, objects));
    RunOne(s, create);
    if rec !in s.clusters {
      RecoverAccepted(Apply(s, create).value, rec, app, objects);
    }
  }

  /** A Branch that meets no fault succeeds exactly when the source exists and the destination can be provisioned. */
  lemma BranchableIff(ws: Workspace, s: Stores, src: string, dst: string, entropy: Entropy, loaded: seq<string>)
    requires Resolved(ws)
    ensures Branchable(ws, s, src, dst, entropy, loaded)
       <==> Names.DatabaseNameSafe(src) && src != dst && src in s.dbs && Provisionable(ws, s, dst, entropy)
  {
    if src != dst && Provisionable(ws, s, dst, entropy) {
      CloneAccepted(ws, s, src, dst, entropy, loaded);
    }
  }

  lemma CloneAccepted(ws: Workspace, s: Stores, src: string, dst: string, entropy: Entropy, loaded: seq<string>)
    requires Resolved(ws) && src != dst && Provisionable(ws, s, dst, entropy)
    ensures Run(s, ProvisionPlan(ws, s, dst, PasswordSource(ws, s, dst, entropy, false)) + BranchTail(src, dst, loaded)).Some?
       <==> src in s.dbs
  {
    var from := PasswordSource(ws, s, dst, entropy, false);
    var plan, tail := ProvisionPlan(ws, s, dst, from), BranchTail(src, dst, loaded);
    var u := Run(s, plan).value;
    RunAppend(s, plan, tail);
    ProvisionResult(ws, s, dst, entropy, false, u);
    ProvisionAboutDb(ws, s, dst, from);
    OtherDbStays(s, plan, dst, src);
    if src in s.dbs {
      TailAccepted(u, src, dst, loaded);
    }
    if Run(u, tail).Some? {
      TailResult(u, src, dst, loaded, Run(u, tail).value);
    }
  }

  // ----- what Sync and Restore never touch

  predicate SparesCredentials(c: Command) {
    Roles !in Touched(c) && Secrets !in Touched(c) && Files !in Touched(c) && TheManifest !in Touched(c)
  }

  predicate SameCredentials(s: Stores, t: Stores) {
    s.roles == t.roles && s.secrets == t.secrets && s.files == t.files && s.manifest == t.manifest
  }

  lemma SparingRun(s: Stores, cs: seq<Command>)
    requires Run(s, cs).Some? && forall i :: 0 <= i < |cs| ==> SparesCredentials(cs[i])
    ensures SameCredentials(s, Run(s, cs).value)
  {
    UntouchedStays(s, cs, Roles);
    UntouchedStays(s, cs, Secrets);
    UntouchedStays(s, cs, Files);
    UntouchedStays(s, cs, TheManifest);
  }

  lemma TailSpares(src: string, dst: string, objects: seq<string>)
    ensures var tail := BranchTail(src, dst, objects); forall i :: 0 <= i < |tail| ==> SparesCredentials(tail[i])
  {
    var tail := BranchTail(src, dst, objects);
    forall i | 0 <= i < |tail| ensures SparesCredentials(tail[i]) {
      assert tail[i] == CheckDb(src) || tail[i] in LoadPlan(dst, objects) || tail[i] in GrantPlan(dst);
    }
  }

  /** Every attempt at Sync, cut off anywhere, leaves all roles, Secrets, files and the manifest as they were. */
  lemma SyncSparesCredentials(ws: Workspace, s: State, src: string, dst: string, confirmed: bool, acts: seq<Act>, ok: bool)
    requires Exec(ws, s, acts).Some? && SyncAttempt(s, src, dst, confirmed, acts, ok)
    ensures SameCredentials(s.stores, Exec(ws, s, acts).value.stores)
  {
    var cs := Commands(acts);
    OperatorOnlyTouchesPasswords(ws, s, acts);
    if cs != [] {
      var objects := ObjectsOf(s.stores, src);
      SyncNeverEdits(src, dst, objects);
      NeverTorn(acts, SyncPlan(src, dst, objects), ok);
      SyncPlanSpares(src, dst, objects);
      SparingRun(s.stores, cs);
    }
  }

  lemma SyncPlanSpares(src: string, dst: string, objects: seq<string>)
    ensures var plan := SyncPlan(src, dst, objects); forall i :: 0 <= i < |plan| ==> SparesCredentials(plan[i])
  {
    var front, tail := SyncFront(src, dst), BranchTail(src, dst, objects);
    TailSpares(src, dst, objects);
    assert forall i :: 0 <= i < |front| ==> SparesCredentials(front[i]);
  }

  lemma ReloadSpares(app: string, objects: seq<string>)
    ensures var middle := RecreatePlan(app) + RefillPlan(app, objects);
            forall i :: 0 <= i < |middle| ==> SparesCredentials(middle[i])
  {
    var middle := RecreatePlan(app) + RefillPlan(app, objects);
    forall i | 0 <= i < |middle| ensures SparesCredentials(middle[i]) {
      assert middle[i] in RecreatePlan(app) || middle[i] in LoadPlan(app, objects) || middle[i] in GrantPlan(app);
    }
  }

  /** So does every attempt at Restore. */
  lemma RestoreSparesCredentials(ws: Workspace, backups: seq<Backup>, s: State, app: string, name: string,
                                 target: Option<int>, rec: string, chosen: Option<Backup>, acts: seq<Act>, ok: bool)
    requires Exec(ws, s, acts).Some?
    requires RestoreAttempt(ws, backups, s, app, name, target, rec, chosen, acts, ok)
    ensures SameCredentials(s.stores, Exec(ws, s, acts).value.stores)
  {
    var cs := Commands(acts);
    OperatorOnlyTouchesPasswords(ws, s, acts);
    if cs != [] {
      var point := RecoveryPoint(chosen.value.backupID, target);
      RestorePlanSpares(app, rec, point, RecoveredObjects(s.stores, point, app));
      RestoreCommandsSpare(cs, PlanOf(s.stores, app, chosen.value, target, rec), rec, ok);
      SparingRun(s.stores, cs);
    }
  }

  lemma RestorePlanSpares(app: string, rec: string, point: RecoveryPoint, objects: seq<string>)
    ensures var plan := RestorePlan(app, rec, point, objects);
            forall i :: 0 <= i < |plan| ==> SparesCredentials(plan[i])
  {
    var middle := RecreatePlan(app) + RefillPlan(app, objects);
    assert RestorePlan(app, rec, point, objects)
        == [CreateCluster(rec, point)] + [CheckReachable(rec, app)] + middle + [DeleteCluster(rec)];
    ReloadSpares(app, objects);
  }

  lemma RestoreCommandsSpare(cs: seq<Command>, plan: seq<Command>, rec: string, ok: bool)
    requires RestoreCommands(cs, plan, rec, ok) && forall i :: 0 <= i < |plan| ==> SparesCredentials(plan[i])
    ensures forall i :: 0 <= i < |cs| ==> SparesCredentials(cs[i])
  {
    forall i | 0 <= i < |cs| ensures SparesCredentials(cs[i]) {
      if i < |plan| {
        CommandsOfRestore(cs, plan, rec, ok, i);
      }
    }
  }
}
