/** tenant.RestoreFromBackup: a temporary cluster, a destructive reload, and a deferred cleanup. */
module Restore {
  import opened Strings
  import Names
  import opened Paths
  import opened Stores
  import opened Cluster
  import opened Plans
  import opened Verbs
  import opened Backups

  /** A backup that a restore of this workspace may start from. */
  predicate Choosable(ws: Workspace, backups: seq<Backup>, name: string, b: Backup) {
    b in backups && b.name == TrimSpace(name) && b.cluster == ws.clusterName && b.phase == COMPLETED && b.backupID != ""
  }

  function RecoveredObjects(s: Stores, point: RecoveryPoint, app: string): seq<string> {
    if point in s.archive && app in s.archive[point] then s.archive[point][app] else []
  }

  function PlanOf(s: Stores, app: string, b: Backup, target: Option<int>, rec: string): seq<Command> {
    var point := RecoveryPoint(b.backupID, target);
    RestorePlan(app, rec, point, RecoveredObjects(s, point, app))
  }

  /**
   What the deferred cleanup leaves of a run: a creation that reported an error ends it, a deletion is tried only
   after the creation, and a failing run that created the cluster deletes it, tries to, or was ended by that error.
   */
  ghost predicate CleansUp(acts: seq<Act>, create: Command, delete: Command, ok: bool) {
    var cs := Commands(acts);
    && (Failed([create]) in acts ==> !ok && cs <= [create])
    && (forall i :: 0 <= i < |acts| && acts[i] == Failed([delete]) ==> Commands(acts[..i]) != [])
    && (Failed([delete]) in acts ==> Failed([create]) !in acts)
    && (!ok && cs != [] ==> Failed([create]) in acts || cs[|cs| - 1] == delete || Failed([delete]) in acts)
  }

  /** One attempt at a restore. `chosen` is the backup it settled on, if it came that far. */
  ghost predicate RestoreAttempt(ws: Workspace, backups: seq<Backup>, s: State, app: string, name: string,
                                 target: Option<int>, rec: string, chosen: Option<Backup>, acts: seq<Act>, ok: bool) {
    if chosen.None? then !ok && Commands(acts) == [] && NoneBlamed([], acts)
    else
      var plan := PlanOf(s.stores, app, chosen.value, target, rec);
      && Names.IdentSafe(app) && Names.DnsSubdomain(TrimSpace(name)) && ws.clusterName in s.stores.clusters
      && Choosable(ws, backups, name, chosen.value)
      && RestoreCommands(Commands(acts), plan, rec, ok)
      && OnlyBlamed([], acts, plan)
      && CleansUp(acts, plan[0], DeleteCluster(rec), ok)
  }

  /** Kubernetes names are unique in a namespace. */
  predicate UniqueBackups(backups: seq<Backup>) {
    forall a, b :: a in backups && b in backups && a.name == b.name ==> a == b
  }

  /** The checks a listed backup of the wanted name has to pass. */
  predicate Passes(b: Backup, cluster: string) {
    b.phase == COMPLETED && b.backupID != "" && (b.cluster == "" || b.cluster == cluster)
  }

  lemma FirstOfName(ws: Workspace, backups: seq<Backup>, name: string, list: seq<Backup>, i: nat)
    requires multiset(list) == multiset(OfCluster(backups, ws.clusterName)) && i <= |list|
    requires forall k :: 0 <= k < i ==> list[k].name != TrimSpace(name)
    requires i < |list| ==> list[i].name == TrimSpace(name)
    ensures i < |list| && Passes(list[i], ws.clusterName) ==> Choosable(ws, backups, name, list[i])
    ensures UniqueBackups(backups) && (exists b :: Choosable(ws, backups, name, b)) ==>
      i < |list| && Passes(list[i], ws.clusterName)
  {
    if i < |list| {
      assert list[i] in multiset(list);
      OfClusterHolds(backups, ws.clusterName, list[i]);
    }
    if b :| Choosable(ws, backups, name, b) {
      OfClusterHolds(backups, ws.clusterName, b);
      assert b in multiset(list);
    }
  }

  /** The backup to use: the first listed one of that name, if it passes every check. */
  method ChooseBackup(w: World, backups: seq<Backup>, name: string) returns (r: Option<Backup>)
    requires w.Valid()
    modifies w
    ensures w.Sent([], true) || (w.Sent([], false) && r.None?)
    ensures w.state.stores == old(w.state.stores) && NoneBlamed(old(w.acts), w.acts)
    ensures r.Some? ==> Choosable(w.ws, backups, name, r.value)
    ensures old(Calm(w.script)) ==> Calm(w.script)
    ensures r.Some? ==> Names.DnsSubdomain(TrimSpace(name)) && w.script == Later(old(w.script), 1)
    ensures FaultAt(old(w.script), 0).NoFault? && UniqueBackups(backups) ==>
      (r.Some? <==> Names.DnsSubdomain(TrimSpace(name)) && exists b :: Choosable(w.ws, backups, name, b))
  {
    var wanted := TrimSpace(name);
    if !Names.DnsSubdomain(wanted) {
      assert Commands(w.acts)[|Commands(w.acts)|..] == [];
      return None;
    }
    var listed := w.Ask();
    if !listed {
      return None;
    }
    var list := ListBackups(backups, w.ws.clusterName);
    var i := 0;
    while i < |list| && list[i].name != wanted
      invariant 0 <= i <= |list|
      invariant forall k :: 0 <= k < i ==> list[k].name != wanted
    {
      i := i + 1;
    }
    FirstOfName(w.ws, backups, name, list, i);
    if i == |list| || !Passes(list[i], w.ws.clusterName) {
      return None;
    }
    return Some(list[i]);
  }

  /** One "SELECT 1" on the recovery cluster. */
  method Probe(w: World, rec: string, db: string) returns (ok: bool)
    requires w.Valid()
    modifies w
    ensures w.Sent([CheckReachable(rec, db)], ok)
    ensures w.state.stores == old(w.state.stores) && NoneBlamed(old(w.acts), w.acts)
    ensures !ok ==> Commands(w.acts) == old(Commands(w.acts))
    ensures w.script == Later(old(w.script), 1)
    ensures ok <==> FaultAt(old(w.script), 0).NoFault? && Apply(old(w.state.stores), CheckReachable(rec, db)).Some?
  {
    RunOne(w.state.stores, CheckReachable(rec, db));
    var f := w.Await();
    ghost var was := Commands(w.acts);
    ok := f.NoFault? && Apply(w.state.stores, CheckReachable(rec, db)).Some?;
    if ok {
      w.Effect(CheckReachable(rec, db));
      assert Commands(w.acts)[|was|..] == [CheckReachable(rec, db)];
    } else {
      assert Commands(w.acts)[|was|..] == [];
    }
  }

  /** A served database is asked until a probe meets no fault. */
  ghost predicate Polled(script: seq<Tick>, asked: nat, ok: bool) {
    && asked >= 1
    && (forall i: nat :: i < asked - 1 ==> FaultAt(script, i).Cut?)
    && (ok <==> FaultAt(script, asked - 1).NoFault?)
  }

  lemma PolledAgain(script: seq<Tick>, asked: nat, ok: bool)
    requires Polled(script, asked, false) && (ok <==> FaultAt(script, asked).NoFault?)
    ensures Polled(script, asked + 1, ok)
  {
  }

  /**
   Poll until the tenant's database answers on the recovery cluster or patience runs out. A database that is served
   is given up only when every one of patience + 1 probes met a fault.
   */
  method AwaitReachable(w: World, rec: string, db: string, patience: nat) returns (ok: bool, ghost asked: nat)
    requires w.Valid()
    modifies w
    ensures w.Sent([CheckReachable(rec, db)], ok)
    ensures w.state.stores == old(w.state.stores) && NoneBlamed(old(w.acts), w.acts)
    ensures 1 <= asked <= patience + 1 && w.script == Later(old(w.script), asked)
    ensures !ok ==> asked == patience + 1
    ensures ok ==> Apply(old(w.state.stores), CheckReachable(rec, db)).Some?
    ensures Apply(old(w.state.stores), CheckReachable(rec, db)).Some? ==> Polled(old(w.script), asked, ok)
  {
    ghost var served := Apply(w.state.stores, CheckReachable(rec, db)).Some?;
    ghost var script := w.script;
    ok := Probe(w, rec, db);
    asked := 1;
    var left := patience;
    while !ok && left > 0
      invariant w.Sent([CheckReachable(rec, db)], ok)
      invariant w.state.stores == old(w.state.stores) && NoneBlamed(old(w.acts), w.acts)
      invariant !ok ==> Commands(w.acts) == old(Commands(w.acts))
      invariant 0 <= left && left + asked == patience + 1 && asked >= 1 && w.script == Later(script, asked)
      invariant ok ==> served
      invariant served ==> Polled(script, asked, ok)
      decreases left
    {
      LaterLater(script, asked, 1);
      assert FaultAt(w.script, 0) == FaultAt(script, asked + 0);
      left := left - 1;
      ok := Probe(w, rec, db);
      if served {
        PolledAgain(script, asked, ok);
      }
      asked := asked + 1;
    }
  }

  /**
   From call `lead` on the first n calls fail, the one after them does not, and the next may do as it likes; no
   other call fails. With the probes at `lead`, the call that may fail is the termination of open sessions.
   */
  ghost predicate Rough(script: seq<Tick>, lead: nat, n: nat) {
    && (forall i: nat :: lead <= i < lead + n ==> FaultAt(script, i).Cut?)
    && (forall i: nat :: FaultAt(script, i).Cut? ==> lead <= i < lead + n || i == lead + n + 1)
  }

  /** At most `patience` probes fail. */
  ghost predicate Bearable(script: seq<Tick>, lead: nat, patience: nat) {
    exists n: nat :: n <= patience && Rough(script, lead, n)
  }

  lemma BearableNext(script: seq<Tick>, lead: nat, patience: nat)
    requires Bearable(script, lead, patience) && lead > 0
    ensures FaultAt(script, 0).NoFault? && Bearable(Later(script, 1), lead - 1, patience)
  {
    var n: nat :| n <= patience && Rough(script, lead, n);
    RoughNext(script, lead, n);
  }

  lemma RoughNext(script: seq<Tick>, lead: nat, n: nat)
    requires Rough(script, lead, n) && lead > 0
    ensures FaultAt(script, 0).NoFault? && Rough(Later(script, 1), lead - 1, n)
  {
    LaterLater(script, 1, 0);
    forall i: nat ensures FaultAt(Later(script, 1), i) == FaultAt(script, i + 1) {
      assert FaultAt(Later(script, 1), i) == FaultAt(script, 1 + i);
    }
  }

  lemma RoughThenCalm(script: seq<Tick>, n: nat)
    requires Rough(script, 0, n)
    ensures Calm(Later(script, n + 2))
  {
    var rest := Later(script, n + 2);
    forall i | 0 <= i < |rest| ensures rest[i].fault.NoFault? {
      assert rest[i] == script[n + 2 + i];
      assert FaultAt(script, n + 2 + i) == rest[i].fault;
    }
  }

  lemma CalmIsBearable(script: seq<Tick>, lead: nat)
    requires Calm(script)
    ensures forall patience: nat :: Bearable(script, lead, patience)
  {
    assert Rough(script, lead, 0);
  }

  /** A polling that met such a script got an answer right after the failing probes, and met the rest of it after that. */
  lemma BearableAnswer(script: seq<Tick>, asked: nat, patience: nat, ok: bool)
    requires 1 <= asked <= patience + 1 && Polled(script, asked, ok)
    requires !ok ==> asked == patience + 1
    ensures Bearable(script, 0, patience) ==> ok && Calm(Later(script, asked + 1))
  {
    if Bearable(script, 0, patience) {
      var n: nat :| n <= patience && Rough(script, 0, n);
      assert FaultAt(script, n).NoFault?;
      RoughThenCalm(script, n);
    }
  }

  /** CrossPodDumpRestore: what arrives on the primary is a prefix of the dump, all of it on success. */
  method CrossPodDumpRestore(w: World, rec: string, db: string) returns (ok: bool)
    requires w.Valid() && rec in w.state.stores.clusters && db in w.state.stores.clusters[rec]
    modifies w
    ensures w.Sent(LoadPlan(db, old(w.state.stores.clusters[rec][db])), ok)
    ensures OnlyBlamed(old(w.acts), w.acts, LoadPlan(db, old(w.state.stores.clusters[rec][db])))
  {
    ok := w.Send(LoadPlan(db, w.state.stores.clusters[rec][db]));
  }

  lemma DroppedIsCreated(s: Stores, app: string, t: Stores)
    requires Run(s, [DropDb(app)]) == Some(t)
    ensures DatabasePlan(t, app) == [CreateDb(app, app)]
  {
    RunOne(s, DropDb(app));
  }

  method Recreate(w: World, app: string) returns (ok: bool)
    requires w.Valid()
    modifies w
    ensures w.Sent(RecreatePlan(app), ok) && OnlyBlamed(old(w.acts), w.acts, RecreatePlan(app))
  {
    ghost var was, s, c0 := Commands(w.acts), w.state.stores, Calm(w.script);
    ok := w.Send([DropDb(app)]);
    if !ok {
      ProgressStops(was, Commands(w.acts), s, w.state.stores, [DropDb(app)], [CreateDb(app, app)], c0, Calm(w.script));
      return;
    }
    ghost var mid, t, c1 := Commands(w.acts), w.state.stores, Calm(w.script);
    DroppedIsCreated(s, app, t);
    ghost var dropped := w.acts;
    ok := EnsureDatabase(w, app);
    BlameChains(old(w.acts), dropped, w.acts, [DropDb(app)], [CreateDb(app, app)]);
    ProgressChains(was, mid, Commands(w.acts), s, t, w.state.stores, [DropDb(app)], [CreateDb(app, app)], ok, c0, c1,
                   Calm(w.script));
  }

  method Refill(w: World, rec: string, app: string) returns (ok: bool)
    requires w.Valid() && rec in w.state.stores.clusters && app in w.state.stores.clusters[rec]
    modifies w
    ensures w.Sent(RefillPlan(app, old(w.state.stores.clusters[rec][app])), ok)
    ensures OnlyBlamed(old(w.acts), w.acts, RefillPlan(app, old(w.state.stores.clusters[rec][app])))
  {
    ghost var was, s, c0 := Commands(w.acts), w.state.stores, Calm(w.script);
    ghost var load, grants := LoadPlan(app, s.clusters[rec][app]), GrantPlan(app);
    ok := CrossPodDumpRestore(w, rec, app);
    if !ok {
      ProgressStops(was, Commands(w.acts), s, w.state.stores, load, grants, c0, Calm(w.script));
      return;
    }
    ghost var mid, t, c1 := Commands(w.acts), w.state.stores, Calm(w.script);
    ghost var loaded := w.acts;
    ok := EnsureGrants(w, app);
    BlameChains(old(w.acts), loaded, w.acts, load, grants);
    ProgressChains(was, mid, Commands(w.acts), s, t, w.state.stores, load, grants, ok, c0, c1, Calm(w.script));
  }

  /** Drop, create, load and grant on the primary. */
  method Reload(w: World, rec: string, app: string) returns (ok: bool)
    requires w.Valid() && rec in w.state.stores.clusters && app in w.state.stores.clusters[rec]
    modifies w
    ensures w.Sent(RecreatePlan(app) + RefillPlan(app, old(w.state.stores.clusters[rec][app])), ok)
    ensures OnlyBlamed(old(w.acts), w.acts, RecreatePlan(app) + RefillPlan(app, old(w.state.stores.clusters[rec][app])))
  {
    ghost var was, s, c0 := Commands(w.acts), w.state.stores, Calm(w.script);
    ghost var front, tail := RecreatePlan(app), RefillPlan(app, s.clusters[rec][app]);
    ok := Recreate(w, app);
    if !ok {
      ProgressStops(was, Commands(w.acts), s, w.state.stores, front, tail, c0, Calm(w.script));
      return;
    }
    ghost var mid, t, c1 := Commands(w.acts), w.state.stores, Calm(w.script);
    RecreateLeavesClusters(s, app, mid[|was|..], t);
    ghost var recreated := w.acts;
    ok := Refill(w, rec, app);
    BlameChains(old(w.acts), recreated, w.acts, front, tail);
    ProgressChains(was, mid, Commands(w.acts), s, t, w.state.stores, front, tail, ok, c0, c1, Calm(w.script));
  }

  lemma RecreateLeavesClusters(s: Stores, app: string, cs: seq<Command>, t: Stores)
    requires cs == RecreatePlan(app) && Run(s, cs) == Some(t)
    ensures t.clusters == s.clusters
  {
    UntouchedStays(s, cs, Clusters);
  }

  function ReloadPlan(app: string, objects: seq<string>): seq<Command> {
    RecreatePlan(app) + RefillPlan(app, objects)
  }

  /** The destructive middle, entered only once the recovered database has answered. */
  method CheckAndReload(w: World, rec: string, app: string, patience: nat, ghost objects: seq<string>) returns (ok: bool)
    requires w.Valid() && rec in w.state.stores.clusters
    requires app in w.state.stores.clusters[rec] ==> w.state.stores.clusters[rec][app] == objects
    modifies w
    ensures w.Sent([CheckReachable(rec, app)] + ReloadPlan(app, objects), ok)
    ensures OnlyBlamed(old(w.acts), w.acts, [CheckReachable(rec, app)] + ReloadPlan(app, objects))
    ensures Bearable(old(w.script), 0, patience) ==>
      && (ok <==> Run(old(w.state.stores), [CheckReachable(rec, app)] + ReloadPlan(app, objects)).Some?)
      && (ok ==> Calm(w.script))
  {
    ghost var was, s, c0 := Commands(w.acts), w.state.stores, Calm(w.script);
    ghost var check, reload := [CheckReachable(rec, app)], ReloadPlan(app, objects);
    RunAppend(s, check, reload);
    RunOne(s, CheckReachable(rec, app));
    ghost var script, asked := w.script, 0;
    ok, asked := AwaitReachable(w, rec, app, patience);
    if Apply(s, CheckReachable(rec, app)).Some? {
      BearableAnswer(script, asked, patience, ok);
    }
    if !ok {
      ProgressStops(was, Commands(w.acts), s, w.state.stores, check, reload, c0, Calm(w.script));
      return;
    }
    ghost var answered := w.acts;
    var terminated := w.Ask();
    LaterLater(script, asked, 1);
    NothingSent(Commands(answered), Commands(w.acts));
    ghost var mid, t, c1 := Commands(w.acts), w.state.stores, Calm(w.script);
    ok := Reload(w, rec, app);
    BlameChains(old(w.acts), answered, w.acts, check, reload);
    ProgressChains(was, mid, Commands(w.acts), s, t, w.state.stores, check, reload, ok, c0, c1, Calm(w.script));
  }

  /**
   Everything between the creation of the recovery cluster and the return. `deleted` tells the deferred cleanup
   whether there is anything left to delete.
   */
  method Recover(w: World, rec: string, app: string, patience: nat, ghost objects: seq<string>) returns (deleted: bool)
    requires w.Valid() && rec in w.state.stores.clusters
    requires app in w.state.stores.clusters[rec] ==> w.state.stores.clusters[rec][app] == objects
    modifies w
    ensures w.Sent(RecoverPlan(rec, app, objects), deleted)
    ensures OnlyBlamed(old(w.acts), w.acts, RecoverPlan(rec, app, objects))
    ensures Bearable(old(w.script), 1, patience) ==>
      (deleted <==> Run(old(w.state.stores), RecoverPlan(rec, app, objects)).Some?)
  {
    ghost var was0 := Commands(w.acts);
    ghost var front, gone := [CheckReachable(rec, app)] + ReloadPlan(app, objects), [DeleteCluster(rec)];
    if Bearable(w.script, 1, patience) {
      BearableNext(w.script, 1, patience);
    }
    RunAppend(w.state.stores, front, gone);
    var pod := w.Ask();
    NothingSent(was0, Commands(w.acts));
    ghost var was, s, c0 := Commands(w.acts), w.state.stores, Calm(w.script);
    if !pod {
      return false;
    }
    var ok := CheckAndReload(w, rec, app, patience, objects);
    if !ok {
      ProgressStops(was, Commands(w.acts), s, w.state.stores, front, gone, c0, Calm(w.script));
      return false;
    }
    ghost var reloaded, mid, t, c1 := w.acts, Commands(w.acts), w.state.stores, Calm(w.script);
    deleted := w.Send([DeleteCluster(rec)]);
    BlameChains(old(w.acts), reloaded, w.acts, front, gone);
    ProgressChains(was, mid, Commands(w.acts), s, t, w.state.stores, front, gone, deleted, c0, c1, Calm(w.script));
  }

  /**
   Create the recovery cluster and recover. `created` tells whether the creation was answered, and so whether there
   is a cleanup to run.
   */
  method CreateAndRecover(w: World, rec: string, point: RecoveryPoint, app: string, patience: nat,
                          ghost objects: seq<string>)
    returns (ok: bool, created: bool, ghost front: seq<Act>)
    requires w.Valid() && Commands(w.acts) == [] && NoneBlamed([], w.acts)
    requires objects == RecoveredObjects(w.state.stores, point, app)
    modifies w
    ensures w.Valid() && w.base == old(w.base)
    ensures !created ==> !ok && front == w.acts && Commands(front) <= [CreateCluster(rec, point)]
    ensures !created ==> Failed([CreateCluster(rec, point)]) in front && OnlyBlamed([], front, [CreateCluster(rec, point)])
    ensures created ==> Commands(front) == [CreateCluster(rec, point)] && NoneBlamed([], front)
    ensures created ==> OnlyBlamed(front, w.acts, RecoverPlan(rec, app, objects))
    ensures [CreateCluster(rec, point)] <= Commands(w.acts) || !created
    ensures Commands(w.acts) <= [CreateCluster(rec, point)] + RecoverPlan(rec, app, objects)
    ensures ok ==> created && Commands(w.acts) == [CreateCluster(rec, point)] + RecoverPlan(rec, app, objects)
    ensures old(Calm(w.script)) || Bearable(old(w.script), 2, patience) ==>
      (ok <==> Run(old(w.state.stores), [CreateCluster(rec, point)] + RecoverPlan(rec, app, objects)).Some?)
  {
    ghost var s, c0, rest := w.state.stores, Calm(w.script), RecoverPlan(rec, app, objects);
    ghost var good := c0 || Bearable(w.script, 2, patience);
    ghost var create := CreateCluster(rec, point);
    if Calm(w.script) {
      CalmIsBearable(w.script, 2);
    }
    if good {
      BearableNext(w.script, 2, patience);
    }
    RunAppend(s, [create], rest);
    created := w.Send([CreateCluster(rec, point)]);
    front := w.acts;
    ghost var was, t, c1 := Commands(w.acts), w.state.stores, Calm(w.script);
    assert was[0..] == was;
    if !created {
      ok := false;
      return;
    }
    CreatedCluster(s, rec, point, app, t);
    ok := Recover(w, rec, app, patience, objects);
    assert good ==> (ok <==> Run(t, rest).Some?);
    ProgressChains([], was, Commands(w.acts), s, t, w.state.stores, [create], rest, ok, c0, c1, Calm(w.script));
    assert Commands(w.acts)[0..] == Commands(w.acts);
  }

  /** Create, recover, and run the deferred cleanup unless the cluster is gone. */
  method RunRecovery(w: World, rec: string, point: RecoveryPoint, app: string, patience: nat) returns (ok: bool)
    requires w.Valid() && Commands(w.acts) == [] && NoneBlamed([], w.acts)
    modifies w
    ensures w.Valid() && w.base == old(w.base)
    ensures var plan := RestorePlan(app, rec, point, RecoveredObjects(old(w.state.stores), point, app));
            && RestoreCommands(Commands(w.acts), plan, rec, ok)
            && OnlyBlamed([], w.acts, plan)
            && CleansUp(w.acts, CreateCluster(rec, point), DeleteCluster(rec), ok)
            && (old(Calm(w.script)) || Bearable(old(w.script), 2, patience) ==>
                  (ok <==> Run(old(w.state.stores), plan).Some?))
  {
    ghost var objects := RecoveredObjects(w.state.stores, point, app);
    ghost var create, delete := CreateCluster(rec, point), DeleteCluster(rec);
    ghost var rest := RecoverPlan(rec, app, objects);
    var created;
    ghost var front;
    ok, created, front := CreateAndRecover(w, rec, point, app, patience, objects);
    ghost var recovered := w.acts;
    RestAvoidsCreation(rec, point, app, objects);
    if !created {
      CreateFailed(front, create, delete, rest, rec);
    } else if !ok {
      // the deferred cleanup; its own error is only logged
      var cleaned := w.Send([DeleteCluster(rec)]);
      CleanedUp(front, recovered, w.acts, create, delete, rest, cleaned);
    } else {
      Restored(front, recovered, create, delete, rest, rec);
    }
  }

  /** A restore that meets no fault is bound to succeed. */
  ghost predicate Restorable(ws: Workspace, backups: seq<Backup>, s: Stores, app: string, name: string,
                             target: Option<int>, rec: string) {
    && Names.IdentSafe(app) && Names.DnsSubdomain(TrimSpace(name)) && ws.clusterName in s.clusters
    && exists b :: Choosable(ws, backups, name, b) && Run(s, PlanOf(s, app, b, target, rec)).Some?
  }

  lemma ChosenDecides(ws: Workspace, backups: seq<Backup>, s: Stores, app: string, name: string, target: Option<int>,
                      rec: string, b: Backup)
    requires UniqueBackups(backups) && Choosable(ws, backups, name, b)
    requires Names.IdentSafe(app) && Names.DnsSubdomain(TrimSpace(name)) && ws.clusterName in s.clusters
    ensures Restorable(ws, backups, s, app, name, target, rec) <==> Run(s, PlanOf(s, app, b, target, rec)).Some?
  {
  }

  /** Everything before the creation: choose the backup and get the live cluster it is to be restored to. */
  method FindBackup(w: World, backups: seq<Backup>, name: string) returns (r: Option<Backup>)
    requires w.Valid() && w.acts == [] && w.base == w.state
    modifies w
    ensures w.Valid() && w.base == old(w.base) && w.state.stores == old(w.state.stores)
    ensures Commands(w.acts) == [] && NoneBlamed([], w.acts)
    ensures r.Some? ==>
      && Choosable(w.ws, backups, name, r.value) && Names.DnsSubdomain(TrimSpace(name))
      && w.ws.clusterName in w.state.stores.clusters
      && w.script == Later(Later(old(w.script), 1), 1)
    ensures FaultAt(old(w.script), 0).NoFault? && FaultAt(Later(old(w.script), 1), 0).NoFault? && UniqueBackups(backups) ==>
      (r.Some? <==> && Names.DnsSubdomain(TrimSpace(name)) && w.ws.clusterName in w.state.stores.clusters
                    && exists b :: Choosable(w.ws, backups, name, b))
  {
    r := ChooseBackup(w, backups, name);
    NothingSent([], Commands(w.acts));
    if r.None? {
      return;
    }
    var got := w.Ask();
    NothingSent([], Commands(w.acts));
    if !got || w.ws.clusterName !in w.state.stores.clusters {
      r := None;
    }
  }

  /** tenant.RestoreFromBackup; the clock's low bits, the backup objects and the patience are parameters. */
  method RestoreFromBackup(w: World, app: string, name: string, backups: seq<Backup>, target: Option<int>,
                           nonce: nat, patience: nat)
    returns (ok: bool, ghost chosen: Option<Backup>)
    requires w.Valid() && nonce < 0x1_0000
    modifies w
    ensures w.Valid() && w.base == old(w.state)
    ensures RestoreAttempt(w.ws, backups, w.base, app, name, target, Names.RecoveryClusterName(app, nonce), chosen, w.acts, ok)
    ensures (old(Calm(w.script)) || Bearable(old(w.script), 4, patience)) && UniqueBackups(backups) ==>
      (ok <==> Restorable(w.ws, backups, w.base.stores, app, name, target, Names.RecoveryClusterName(app, nonce)))
    ensures !Names.IdentSafe(app) || !Names.DnsSubdomain(TrimSpace(name)) ==>
      !ok && w.state.stores == old(w.state.stores) && chosen.None?
  {
    w.Begin();
    if Calm(w.script) {
      CalmIsBearable(w.script, 4);
    }
    if Bearable(w.script, 4, patience) {
      BearableNext(w.script, 4, patience);
      BearableNext(Later(w.script, 1), 3, patience);
    }
    chosen := None;
    if !Names.IdentSafe(app) {
      return false, chosen;
    }
    var backup := FindBackup(w, backups, name);
    if backup.None? {
      return false, chosen;
    }
    chosen := backup;
    if UniqueBackups(backups) {
      ChosenDecides(w.ws, backups, w.base.stores, app, name, target, Names.RecoveryClusterName(app, nonce), backup.value);
    }
    ok := RunRecovery(w, Names.RecoveryClusterName(app, nonce), RecoveryPoint(backup.value.backupID, target), app, patience);
  }

  lemma CreateFailed(acts: seq<Act>, create: Command, delete: Command, rest: seq<Command>, rec: string)
    requires create != delete && Commands(acts) <= [create] && Failed([create]) in acts && OnlyBlamed([], acts, [create])
    ensures RestoreCommands(Commands(acts), [create] + rest, rec, false)
    ensures OnlyBlamed([], acts, [create] + rest) && CleansUp(acts, create, delete, false)
  {
    assert delete in [delete];
  }

  /** A deletion that failed did so after the creation. */
  lemma DeletedAfterCreation(created: seq<Act>, now: seq<Act>, create: Command, delete: Command)
    requires NoneBlamed([], created) && Commands(created) == [create] && created <= now
    ensures forall i :: 0 <= i < |now| && now[i] == Failed([delete]) ==> Commands(now[..i]) != []
  {
    assert forall k :: 0 <= k < |created| ==> now[k] == created[k] && created[k] != Failed([delete]);
    forall i | 0 <= i < |now| && now[i] == Failed([delete]) ensures Commands(now[..i]) != [] {
      assert now[..i] == created + now[|created|..i];
      CommandsAppend(created, now[|created|..i]);
    }
  }

  lemma CreationNotBlamed(created: seq<Act>, now: seq<Act>, create: Command, cs: seq<Command>)
    requires NoneBlamed([], created) && OnlyBlamed(created, now, cs) && create !in cs
    ensures Failed([create]) !in now
  {
    assert create in [create];
  }

  lemma RestAvoidsCreation(rec: string, point: RecoveryPoint, app: string, objects: seq<string>)
    ensures CreateCluster(rec, point) !in RecoverPlan(rec, app, objects)
  {
    forall c | c in RecoverPlan(rec, app, objects) ensures !c.CreateCluster? {
      assert c in [CheckReachable(rec, app)] || c in RecreatePlan(app) || c in LoadPlan(app, objects) || c in GrantPlan(app)
             || c in [DeleteCluster(rec)];
    }
  }

  lemma CleanedUp(created: seq<Act>, recovered: seq<Act>, now: seq<Act>, create: Command, delete: Command,
                  rest: seq<Command>, cleaned: bool)
    requires delete.DeleteCluster? && create !in rest && delete in rest && create != delete
    requires NoneBlamed([], created) && Commands(created) == [create]
    requires OnlyBlamed(created, recovered, rest)
    requires Commands(recovered) <= [create] + rest && [create] <= Commands(recovered)
    requires recovered <= now && Commands(recovered) <= Commands(now)
    requires Commands(now)[|Commands(recovered)|..] <= [delete]
    requires cleaned ==> Commands(now) == Commands(recovered) + [delete] && NoneBlamed(recovered, now)
    requires !cleaned ==> Failed([delete]) in now && OnlyBlamed(recovered, now, [delete])
    ensures RestoreCommands(Commands(now), [create] + rest, delete.cluster, false)
    ensures OnlyBlamed([], now, [create] + rest) && CleansUp(now, create, delete, false)
  {
    var before, after := Commands(recovered), Commands(now);
    assert after == before + after[|before|..];
    if after != before {
      assert after[..|after| - 1] == before;
    }
    assert OnlyBlamed(recovered, now, [delete]);
    BlameChains(created, recovered, now, rest, [delete]);
    assert OnlyBlamed(created, now, rest);
    CreationNotBlamed(created, now, create, rest);
    DeletedAfterCreation(created, now, create, delete);
  }

  lemma Restored(created: seq<Act>, now: seq<Act>, create: Command, delete: Command, rest: seq<Command>, rec: string)
    requires create !in rest && NoneBlamed([], created) && Commands(created) == [create]
    requires OnlyBlamed(created, now, rest) && Commands(now) == [create] + rest
    ensures RestoreCommands(Commands(now), [create] + rest, rec, true)
    ensures OnlyBlamed([], now, [create] + rest) && CleansUp(now, create, delete, true)
  {
    CreationNotBlamed(created, now, create, rest);
    DeletedAfterCreation(created, now, create, delete);
  }

  lemma CreatedCluster(s: Stores, rec: string, point: RecoveryPoint, app: string, t: Stores)
    requires Run(s, [CreateCluster(rec, point)]) == Some(t)
    ensures rec in t.clusters
    ensures app in t.clusters[rec] ==> t.clusters[rec][app] == RecoveredObjects(s, point, app)
  {
    RunOne(s, CreateCluster(rec, point));
  }
}
