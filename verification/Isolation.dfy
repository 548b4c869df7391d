/** What no run of any verb can do to other tenants, and what every run leaves possible. */
module Isolation {
  import opened Strings
  import Names
  import Manifest
  import SecretYaml
  import Sql
  import opened Paths
  import opened Stores
  import opened Cluster
  import opened Plans
  import opened Verbs
  import opened Agreement
  import opened Convergence
  import opened Backups
  import opened Restore
  import opened Drops
  import opened Overwrites

  // ----- one attempt of one verb, and histories of them

  datatype Verb =
    | ProvisionVerb(app: string, entropy: Entropy, blind: bool, tenant: Result<Tenant>)
    | RotateVerb(app: string, entropy: Entropy, confirmed: bool, tenant: Result<Tenant>)
    | DropVerb(app: string, confirmed: bool, ok: bool)
    | SyncVerb(src: string, app: string, confirmed: bool, ok: bool)
    | BranchVerb(src: string, app: string, entropy: Entropy, blind: bool, loaded: seq<string>, tenant: Result<Tenant>)
    | RestoreVerb(app: string, name: string, backups: seq<Backup>, target: Option<int>, rec: string,
                  chosen: Option<Backup>, ok: bool)

  ghost predicate VerbAttempt(ws: Workspace, s: State, v: Verb, acts: seq<Act>) {
    match v
    case ProvisionVerb(app, entropy, blind, r) => ProvisionAttempt(ws, s, app, entropy, blind, acts, r)
    case RotateVerb(app, entropy, confirmed, r) => RotateAttempt(ws, s, app, entropy, confirmed, acts, r)
    case DropVerb(app, confirmed, ok) => DropAttempt(ws, s, app, confirmed, acts, ok)
    case SyncVerb(src, dst, confirmed, ok) => SyncAttempt(s, src, dst, confirmed, acts, ok)
    case BranchVerb(src, dst, entropy, blind, loaded, r) => BranchAttempt(ws, s, src, dst, entropy, blind, loaded, acts, r)
    case RestoreVerb(app, name, backups, target, rec, chosen, ok) =>
      RestoreAttempt(ws, backups, s, app, name, target, rec, chosen, acts, ok)
  }

  datatype Event = Event(verb: Verb, acts: seq<Act>)

  /** Verbs one after the other, each finished or cut off anywhere, with the operator in between. */
  ghost predicate History(ws: Workspace, s: State, h: seq<Event>, t: State)
    decreases h
  {
    if h == [] then s == t
    else
      && Exec(ws, s, h[0].acts).Some?
      && VerbAttempt(ws, s, h[0].verb, h[0].acts)
      && History(ws, Exec(ws, s, h[0].acts).value, h[1..], t)
  }

  // ----- every command of a verb is about its own tenant

  /** A command about one tenant; a written file is always one that can be read back. */
  ghost predicate Aims(ws: Workspace, app: string, c: Command) {
    match c
    case PutFile(path, body) =>
      path == SecretPath(ws, app)
      && exists pw :: SecretYaml.Generated(pw) && body == SecretBody(ws, app, pw)
    case RemoveFile(path) => path == SecretPath(ws, app)
    case CreateSecret(name, _, _) => name == SecretName(ws, app)
    case UpdateSecret(name, _, _) => name == SecretName(ws, app)
    case DeleteSecret(name) => name == SecretName(ws, app)
    case EnsureRole(role, _) => role == app
    case AlterRole(role, _) => role == app
    case DropRole(role) => role == app
    case CheckDb(_) => true
    case CreateDb(db, _) => db == app
    case AlterDbOwner(db, _) => db == app
    case DropDb(db) => db == app
    case Grant(db, _, _) => db == app
    case AddObject(db, _) => db == app
    case AppendEntry(entry) => entry.name == app
    case RemoveEntry(role) => role == app
    case Tear(_) => true
    case CreateCluster(_, _) => true
    case CheckReachable(_, _) => true
    case DeleteCluster(_) => true
  }

  ghost predicate AllAim(ws: Workspace, app: string, cs: seq<Command>) {
    forall i :: 0 <= i < |cs| ==> Aims(ws, app, cs[i])
  }

  lemma AllAimAppend(ws: Workspace, app: string, a: seq<Command>, b: seq<Command>)
    requires AllAim(ws, app, a) && AllAim(ws, app, b)
    ensures AllAim(ws, app, a + b)
  {
  }

  lemma AttemptAims(ws: Workspace, app: string, acts: seq<Act>, plan: seq<Command>, ok: bool)
    requires Attempted(acts, plan, ok) && AllAim(ws, app, plan)
    ensures AllAim(ws, app, Commands(acts))
  {
    var cs := Commands(acts);
    forall i | 0 <= i < |cs| ensures Aims(ws, app, cs[i]) {
      if cs <= plan {
        assert cs[i] == plan[i];
      } else if i < |cs| - 1 {
        assert cs[i] == cs[..|cs| - 1][i] == plan[i];
      }
    }
  }

  lemma FilePlanAims(ws: Workspace, app: string, pw: string)
    requires SecretYaml.Generated(pw)
    ensures AllAim(ws, app, FilePlan(ws, app, pw))
  {
  }

  lemma TenantDbAims(ws: Workspace, s: Stores, app: string)
    ensures AllAim(ws, app, GrantPlan(app)) && AllAim(ws, app, TenantDbPlan(s, app))
  {
    AllAimAppend(ws, app, DatabasePlan(s, app), GrantPlan(app));
  }

  lemma ProvisionAims(ws: Workspace, s: Stores, app: string, src: Source)
    requires !src.Unreadable? && (src.Fresh? ==> SecretYaml.Generated(src.pw))
    ensures AllAim(ws, app, ProvisionPlan(ws, s, app, src))
  {
    if src.Fresh? {
      FilePlanAims(ws, app, src.pw);
    }
    var f, c, d, e :=
      SourcePlan(ws, app, src), CredentialPlan(ws, s, app, src.pw), TenantDbPlan(s, app), EntryPlan(s, ws, app);
    AllAimAppend(ws, app, SecretPlan(s, SecretName(ws, app), app, src.pw), [EnsureRole(app, src.pw)]);
    TenantDbAims(ws, s, app);
    AllAimAppend(ws, app, c, d);
    AllAimAppend(ws, app, f, c + d);
    AllAimAppend(ws, app, f + (c + d), e);
  }

  lemma RotateAims(ws: Workspace, s: Stores, app: string, pw: string)
    requires SecretYaml.Generated(pw)
    ensures AllAim(ws, app, RotatePlan(ws, s, app, pw))
  {
    FilePlanAims(ws, app, pw);
    AllAimAppend(ws, app, [AlterRole(app, pw)], SecretPlan(s, SecretName(ws, app), app, pw));
    AllAimAppend(ws, app, [AlterRole(app, pw)] + SecretPlan(s, SecretName(ws, app), app, pw), FilePlan(ws, app, pw));
  }

  lemma BranchTailAims(ws: Workspace, s: Stores, src: string, dst: string, objects: seq<string>)
    ensures AllAim(ws, dst, BranchTail(src, dst, objects))
  {
    TenantDbAims(ws, s, dst);
    AllAimAppend(ws, dst, [CheckDb(src)], LoadPlan(dst, objects));
    AllAimAppend(ws, dst, DumpPlan(src, dst, objects), GrantPlan(dst));
  }

  lemma SyncAims(ws: Workspace, s: Stores, src: string, dst: string, objects: seq<string>)
    ensures AllAim(ws, dst, SyncPlan(src, dst, objects))
  {
    BranchTailAims(ws, s, src, dst, objects);
    AllAimAppend(ws, dst, SyncFront(src, dst), BranchTail(src, dst, objects));
  }

  lemma RestoreAims(ws: Workspace, s: Stores, app: string, rec: string, point: RecoveryPoint, objects: seq<string>)
    ensures AllAim(ws, app, RestorePlan(app, rec, point, objects))
  {
    TenantDbAims(ws, s, app);
    AllAimAppend(ws, app, LoadPlan(app, objects), GrantPlan(app));
    AllAimAppend(ws, app, RecreatePlan(app), RefillPlan(app, objects));
    AllAimAppend(ws, app, [CheckReachable(rec, app)], RecreatePlan(app) + RefillPlan(app, objects));
    AllAimAppend(ws, app, [CheckReachable(rec, app)] + (RecreatePlan(app) + RefillPlan(app, objects)), [DeleteCluster(rec)]);
    AllAimAppend(ws, app, [CreateCluster(rec, point)], RecoverPlan(rec, app, objects));
  }

  lemma RestoreCommandsAim(ws: Workspace, app: string, cs: seq<Command>, plan: seq<Command>, rec: string, ok: bool)
    requires RestoreCommands(cs, plan, rec, ok) && AllAim(ws, app, plan)
    ensures AllAim(ws, app, cs)
  {
    forall i | 0 <= i < |cs| ensures Aims(ws, app, cs[i]) {
      if cs <= plan {
        assert cs[i] == plan[i];
      } else if i < |cs| - 1 {
        assert cs[i] == cs[..|cs| - 1][i] == plan[i];
      }
    }
  }

  lemma ProvisionVerbAims(ws: Workspace, s: State, app: string, entropy: Entropy, blind: bool, acts: seq<Act>,
                          r: Result<Tenant>)
    requires ProvisionAttempt(ws, s, app, entropy, blind, acts, r) && Commands(acts) != []
    ensures AllAim(ws, app, Commands(acts))
  {
    var src := PasswordSource(ws, s.stores, app, entropy, blind);
    SourceShape(ws, s.stores, app, entropy, blind);
    ProvisionAims(ws, s.stores, app, src);
    AttemptAims(ws, app, acts, ProvisionPlan(ws, s.stores, app, src), r.Ok?);
  }

  lemma RotateVerbAims(ws: Workspace, s: State, app: string, entropy: Entropy, confirmed: bool, acts: seq<Act>,
                       r: Result<Tenant>)
    requires RotateAttempt(ws, s, app, entropy, confirmed, acts, r) && Commands(acts) != []
    ensures AllAim(ws, app, Commands(acts))
  {
    var pw := SecretYaml.GeneratePassword(entropy);
    SecretYaml.GeneratedPassword(entropy);
    RotateAims(ws, s.stores, app, pw);
    AttemptAims(ws, app, acts, RotatePlan(ws, s.stores, app, pw), r.Ok?);
  }

  lemma SyncVerbAims(ws: Workspace, s: State, src: string, dst: string, confirmed: bool, acts: seq<Act>, ok: bool)
    requires SyncAttempt(s, src, dst, confirmed, acts, ok) && Commands(acts) != []
    ensures AllAim(ws, dst, Commands(acts))
  {
    var objects := ObjectsOf(s.stores, src);
    SyncAims(ws, s.stores, src, dst, objects);
    AttemptAims(ws, dst, acts, SyncPlan(src, dst, objects), ok);
  }

  lemma BranchVerbAims(ws: Workspace, s: State, src: string, dst: string, entropy: Entropy, blind: bool,
                       loaded: seq<string>, acts: seq<Act>, r: Result<Tenant>)
    requires BranchAttempt(ws, s, src, dst, entropy, blind, loaded, acts, r) && Commands(acts) != []
    ensures AllAim(ws, dst, Commands(acts))
  {
    var from := PasswordSource(ws, s.stores, dst, entropy, blind);
    SourceShape(ws, s.stores, dst, entropy, blind);
    ProvisionAims(ws, s.stores, dst, from);
    BranchTailAims(ws, s.stores, src, dst, loaded);
    AllAimAppend(ws, dst, ProvisionPlan(ws, s.stores, dst, from), BranchTail(src, dst, loaded));
    AttemptAims(ws, dst, acts, ProvisionPlan(ws, s.stores, dst, from) + BranchTail(src, dst, loaded), r.Ok?);
  }

  lemma RestoreVerbAims(ws: Workspace, backups: seq<Backup>, s: State, app: string, name: string, target: Option<int>,
                        rec: string, chosen: Option<Backup>, acts: seq<Act>, ok: bool)
    requires RestoreAttempt(ws, backups, s, app, name, target, rec, chosen, acts, ok) && Commands(acts) != []
    ensures AllAim(ws, app, Commands(acts))
  {
    var point := RecoveryPoint(chosen.value.backupID, target);
    var objects := RecoveredObjects(s.stores, point, app);
    RestoreAims(ws, s.stores, app, rec, point, objects);
    RestoreCommandsAim(ws, app, Commands(acts), RestorePlan(app, rec, point, objects), rec, ok);
  }

  lemma DropAims(ws: Workspace, app: string)
    ensures AllAim(ws, app, DropPlan(ws, app))
  {
    var a, b, c, d, e := [DropDb(app)], [DropRole(app)], [DeleteSecret(SecretName(ws, app))], [RemoveEntry(app)],
                         [RemoveFile(SecretPath(ws, app))];
    AllAimAppend(ws, app, a, b);
    AllAimAppend(ws, app, a + b, c);
    AllAimAppend(ws, app, a + b + c, d);
    AllAimAppend(ws, app, a + b + c + d, e);
  }

  lemma DropVerbAims(ws: Workspace, s: State, app: string, confirmed: bool, acts: seq<Act>, ok: bool)
    requires DropAttempt(ws, s, app, confirmed, acts, ok) && Commands(acts) != []
    ensures AllAim(ws, app, Commands(acts))
  {
    DropAims(ws, app);
    AttemptAims(ws, app, acts, DropPlan(ws, app), ok);
  }

  // ----- what only some verbs do

  /** Neither a role nor a cluster is removed or created, and no other cluster is asked. */
  predicate Routine(c: Command) {
    !c.DropRole? && !c.CreateCluster? && !c.DeleteCluster? && !c.CheckReachable?
  }

  predicate AllRoutine(cs: seq<Command>) {
    forall i :: 0 <= i < |cs| ==> Routine(cs[i])
  }

  lemma AllRoutineAppend(a: seq<Command>, b: seq<Command>)
    requires AllRoutine(a) && AllRoutine(b)
    ensures AllRoutine(a + b)
  {
  }

  lemma AttemptRoutine(acts: seq<Act>, plan: seq<Command>, ok: bool)
    requires Attempted(acts, plan, ok) && AllRoutine(plan)
    ensures AllRoutine(Commands(acts))
  {
    var cs := Commands(acts);
    forall i | 0 <= i < |cs| ensures Routine(cs[i]) {
      if cs <= plan {
        assert cs[i] == plan[i];
      } else if i < |cs| - 1 {
        assert cs[i] == cs[..|cs| - 1][i] == plan[i];
      }
    }
  }

  lemma ProvisionRoutine(ws: Workspace, s: Stores, app: string, src: Source)
    requires !src.Unreadable?
    ensures AllRoutine(ProvisionPlan(ws, s, app, src))
  {
    ProvisionPlanKinds(ws, s, app, src);
    ProvisioningIsRoutine(ProvisionPlan(ws, s, app, src), app);
  }

  lemma ProvisioningIsRoutine(cs: seq<Command>, app: string)
    requires AllProvisioning(cs, app)
    ensures AllRoutine(cs)
  {
    assert forall i :: 0 <= i < |cs| ==> Provisioning(cs[i], app);
  }

  lemma RotateRoutine(ws: Workspace, s: Stores, app: string, pw: string)
    ensures AllRoutine(RotatePlan(ws, s, app, pw))
  {
    AllRoutineAppend([AlterRole(app, pw)], SecretPlan(s, SecretName(ws, app), app, pw));
    AllRoutineAppend([AlterRole(app, pw)] + SecretPlan(s, SecretName(ws, app), app, pw), FilePlan(ws, app, pw));
  }

  lemma BranchTailRoutine(src: string, dst: string, objects: seq<string>)
    ensures AllRoutine(BranchTail(src, dst, objects))
  {
    AllRoutineAppend([CheckDb(src)], LoadPlan(dst, objects));
    AllRoutineAppend(DumpPlan(src, dst, objects), GrantPlan(dst));
  }

  /** Roles are dropped by Drop only, and clusters are created, asked and deleted by Restore only, and only its own. */
  ghost predicate Bounded(v: Verb, c: Command) {
    match c
    case DropRole(_) => v.DropVerb?
    case CreateCluster(n, _) => v.RestoreVerb? && n == v.rec
    case DeleteCluster(n) => v.RestoreVerb? && n == v.rec
    case CheckReachable(n, db) => v.RestoreVerb? && n == v.rec && db == v.app
    case _ => true
  }

  ghost predicate AllBounded(v: Verb, cs: seq<Command>) {
    forall i :: 0 <= i < |cs| ==> Bounded(v, cs[i])
  }

  lemma DropBounded(ws: Workspace, s: State, v: Verb, acts: seq<Act>)
    requires v.DropVerb? && VerbAttempt(ws, s, v, acts) && Commands(acts) != []
    ensures AllBounded(v, Commands(acts))
  {
    var cs, plan := Commands(acts), DropPlan(ws, v.app);
    DropPlanAt(ws, v.app);
    forall i | 0 <= i < |cs| ensures Bounded(v, cs[i]) {
      if cs <= plan {
        assert cs[i] == plan[i];
      } else if i < |cs| - 1 {
        assert cs[i] == cs[..|cs| - 1][i] == plan[i];
      }
    }
  }

  lemma RestoreBounded(ws: Workspace, s: State, v: Verb, acts: seq<Act>)
    requires v.RestoreVerb? && VerbAttempt(ws, s, v, acts) && Commands(acts) != []
    ensures AllBounded(v, Commands(acts))
  {
    var point := RecoveryPoint(v.chosen.value.backupID, v.target);
    var plan := PlanOf(s.stores, v.app, v.chosen.value, v.target, v.rec);
    RestorePlanBounded(v, point, RecoveredObjects(s.stores, point, v.app));
    forall i | 0 <= i < |Commands(acts)| ensures Bounded(v, Commands(acts)[i]) {
      if i < |plan| {
        CommandsOfRestore(Commands(acts), plan, v.rec, v.ok, i);
      }
    }
  }

  lemma RestorePlanBounded(v: Verb, point: RecoveryPoint, objects: seq<string>)
    requires v.RestoreVerb?
    ensures AllBounded(v, RestorePlan(v.app, v.rec, point, objects))
  {
    var middle := RecreatePlan(v.app) + RefillPlan(v.app, objects);
    assert RestorePlan(v.app, v.rec, point, objects)
        == [CreateCluster(v.rec, point)] + [CheckReachable(v.rec, v.app)] + middle + [DeleteCluster(v.rec)];
    assert AllRoutine(middle) by {
      AllRoutineAppend(LoadPlan(v.app, objects), GrantPlan(v.app));
      AllRoutineAppend(RecreatePlan(v.app), RefillPlan(v.app, objects));
    }
  }

  lemma VerbIsBounded(ws: Workspace, s: State, v: Verb, acts: seq<Act>)
    requires VerbAttempt(ws, s, v, acts) && Commands(acts) != []
    ensures AllBounded(v, Commands(acts))
  {
    match v
    case ProvisionVerb(app, entropy, blind, r) =>
      var src := PasswordSource(ws, s.stores, app, entropy, blind);
      ProvisionRoutine(ws, s.stores, app, src);
      AttemptRoutine(acts, ProvisionPlan(ws, s.stores, app, src), r.Ok?);
    case RotateVerb(app, entropy, _, r) =>
      var pw := SecretYaml.GeneratePassword(entropy);
      RotateRoutine(ws, s.stores, app, pw);
      AttemptRoutine(acts, RotatePlan(ws, s.stores, app, pw), r.Ok?);
    case DropVerb(_, _, _) => DropBounded(ws, s, v, acts);
    case SyncVerb(src, app, _, ok) =>
      var objects := ObjectsOf(s.stores, src);
      BranchTailRoutine(src, app, objects);
      AllRoutineAppend(SyncFront(src, app), BranchTail(src, app, objects));
      AttemptRoutine(acts, SyncPlan(src, app, objects), ok);
    case BranchVerb(src, app, entropy, blind, loaded, r) =>
      var from := PasswordSource(ws, s.stores, app, entropy, blind);
      ProvisionRoutine(ws, s.stores, app, from);
      BranchTailRoutine(src, app, loaded);
      AllRoutineAppend(ProvisionPlan(ws, s.stores, app, from), BranchTail(src, app, loaded));
      AttemptRoutine(acts, ProvisionPlan(ws, s.stores, app, from) + BranchTail(src, app, loaded), r.Ok?);
    case RestoreVerb(_, _, _, _, _, _, _) => RestoreBounded(ws, s, v, acts);
  }

  /**
   In every attempt at every verb, from every state: a role is dropped only when the database of its name is gone
   already, by the program's own order.
   */
  lemma RoleGoesAfterDatabase(ws: Workspace, s: State, v: Verb, acts: seq<Act>, i: nat, role: string)
    requires Exec(ws, s, acts).Some? && VerbAttempt(ws, s, v, acts)
    requires i < |acts| && acts[i] == Did(DropRole(role))
    ensures v.DropVerb? && role == v.app && Exec(ws, s, acts[..i]).Some?
    ensures role !in Exec(ws, s, acts[..i]).value.stores.dbs
  {
    CommandsAround(acts, i);
    assert Commands(acts)[|Commands(acts[..i])|] == DropRole(role);
    VerbIsBounded(ws, s, v, acts);
    RoleDroppedAfterDatabase(ws, s, v.app, v.confirmed, acts, v.ok, i, role);
  }

  /** No attempt at any verb ever sends a command about another tenant or a cluster of another run. */
  lemma VerbAims(ws: Workspace, s: State, v: Verb, acts: seq<Act>)
    requires VerbAttempt(ws, s, v, acts)
    ensures AllAim(ws, v.app, Commands(acts)) && AllBounded(v, Commands(acts))
  {
    if Commands(acts) != [] {
      VerbIsBounded(ws, s, v, acts);
      match v
      case ProvisionVerb(app, entropy, blind, r) => ProvisionVerbAims(ws, s, app, entropy, blind, acts, r);
      case RotateVerb(app, entropy, confirmed, r) => RotateVerbAims(ws, s, app, entropy, confirmed, acts, r);
      case DropVerb(app, confirmed, ok) => DropVerbAims(ws, s, app, confirmed, acts, ok);
      case SyncVerb(src, app, confirmed, ok) => SyncVerbAims(ws, s, src, app, confirmed, acts, ok);
      case BranchVerb(src, app, entropy, blind, loaded, r) =>
        BranchVerbAims(ws, s, src, app, entropy, blind, loaded, acts, r);
      case RestoreVerb(app, name, backups, target, rec, chosen, ok) =>
        RestoreVerbAims(ws, backups, s, app, name, target, rec, chosen, acts, ok);
    }
  }

  // ----- the frame

  predicate SameIn<T(==)>(a: map<string, T>, b: map<string, T>, key: string) {
    (key in a <==> key in b) && (key in a ==> a[key] == b[key])
  }

  /** Database and role of another tenant. */
  predicate ServerFrame(s: Stores, t: Stores, other: string) {
    SameIn(s.dbs, t.dbs, other) && SameIn(s.roles, t.roles, other)
  }

  /** Secret and SOPS file of another tenant. */
  predicate CredentialFrame(ws: Workspace, s: Stores, t: Stores, other: string) {
    SameIn(s.secrets, t.secrets, SecretName(ws, other)) && SameIn(s.files, t.files, SecretPath(ws, other))
  }

  /** The manifest entries of all names outside a set, in order. */
  predicate EntryFrame(s: Stores, t: Stores, names: set<string>) {
    if !ManifestReady(s) then t.manifest == s.manifest
    else
      && ManifestReady(t)
      && Manifest.RolesPath(t.manifest.value) == Manifest.RolesPath(s.manifest.value)
      && Manifest.Outside(Manifest.Entries(t.manifest.value), names) == Manifest.Outside(Manifest.Entries(s.manifest.value), names)
  }

  lemma ApplyFrame(ws: Workspace, s: Stores, c: Command, app: string, other: string)
    requires Apply(s, c).Some? && Aims(ws, app, c) && other != app
    ensures ServerFrame(s, Apply(s, c).value, other)
  {
  }

  lemma ApplyCredentialFrame(ws: Workspace, s: Stores, c: Command, app: string, other: string)
    requires IsAbs(ws.root) && Apply(s, c).Some? && Aims(ws, app, c) && SecretName(ws, other) != SecretName(ws, app)
    ensures CredentialFrame(ws, s, Apply(s, c).value, other)
  {
    SecretPathsCollide(ws, app, other);
  }

  lemma ApplyEntryFrame(ws: Workspace, s: Stores, c: Command, app: string, names: set<string>)
    requires Apply(s, c).Some? && Aims(ws, app, c) && !c.Tear? && app in names
    ensures EntryFrame(s, Apply(s, c).value, names)
  {
    if c.AppendEntry? || c.RemoveEntry? {
      var doc := s.manifest.value;
      var e := if c.AppendEntry? then Manifest.Append(c.entry) else Manifest.Remove(c.role);
      assert Apply(s, c).value.manifest == Some(Manifest.Apply(doc, e));
      Manifest.ApplyKeepsOthers(doc, e);
      Manifest.OutsideOfOthers(Manifest.Entries(doc), app, names);
      Manifest.OutsideOfOthers(Manifest.Entries(Manifest.Apply(doc, e)), app, names);
    } else {
      AppliedAway(s, c, TheManifest);
    }
  }

  lemma {:induction false} RunFrame(ws: Workspace, s: Stores, cs: seq<Command>, app: string, other: string)
    requires Run(s, cs).Some? && AllAim(ws, app, cs) && other != app
    ensures ServerFrame(s, Run(s, cs).value, other)
    ensures IsAbs(ws.root) && SecretName(ws, other) != SecretName(ws, app) ==>
      CredentialFrame(ws, s, Run(s, cs).value, other)
    decreases cs
  {
    if cs != [] {
      ApplyFrame(ws, s, cs[0], app, other);
      if IsAbs(ws.root) && SecretName(ws, other) != SecretName(ws, app) {
        ApplyCredentialFrame(ws, s, cs[0], app, other);
      }
      RunFrame(ws, Apply(s, cs[0]).value, cs[1..], app, other);
    }
  }

  lemma {:induction false} RunEntryFrame(ws: Workspace, s: Stores, cs: seq<Command>, app: string, names: set<string>)
    requires Run(s, cs).Some? && AllAim(ws, app, cs) && NoTear(cs) && app in names
    ensures EntryFrame(s, Run(s, cs).value, names)
    decreases cs
  {
    if cs != [] {
      ApplyEntryFrame(ws, s, cs[0], app, names);
      RunEntryFrame(ws, Apply(s, cs[0]).value, cs[1..], app, names);
    }
  }

  /** Another role's password moves only when the operator copies it from that role's own Secret. */
  lemma {:induction false} OtherPasswordStays(ws: Workspace, s: State, acts: seq<Act>, app: string, other: string)
    requires Exec(ws, s, acts).Some? && AllAim(ws, app, Commands(acts)) && other != app
    requires !OperatorActs(acts, other)
    ensures SameIn(s.passwords, Exec(ws, s, acts).value.passwords, other)
    decreases acts
  {
    if acts != [] {
      var u := Happen(ws, s, acts[0]).value;
      assert acts[0] != Reconciled(other);
      if acts[0].Did? {
        assert Commands(acts)[0] == acts[0].command && Commands(acts)[1..] == Commands(acts[1..]);
      } else {
        assert Commands(acts) == Commands(acts[1..]);
      }
      assert forall k :: 0 <= k < |acts[1..]| ==> acts[1..][k] == acts[k + 1];
      assert SameIn(s.passwords, u.passwords, other);
      OtherPasswordStays(ws, u, acts[1..], app, other);
    }
  }

  predicate NoTearIn(h: seq<Event>) {
    forall i :: 0 <= i < |h| ==> NoTear(Commands(h[i].acts))
  }

  /**
   Over every history of every verb: databases and roles of tenants no verb aimed at are untouched; so are Secret
   and SOPS file of a tenant whose Secret name differs from all targets'; and unless a manifest write was torn,
   the manifest entries of all other names are the same, in the same order.
   */
  lemma {:induction false} OtherTenantsUntouched(ws: Workspace, s: State, h: seq<Event>, t: State, other: string,
                                                 targets: set<string>)
    requires IsAbs(ws.root) && History(ws, s, h, t)
    requires forall i :: 0 <= i < |h| ==> h[i].verb.app in targets
    requires other !in targets
    ensures ServerFrame(s.stores, t.stores, other)
    ensures (forall a :: a in targets ==> SecretName(ws, a) != SecretName(ws, other)) ==>
      CredentialFrame(ws, s.stores, t.stores, other)
    ensures NoTearIn(h) ==> EntryFrame(s.stores, t.stores, targets)
    decreases h
  {
    if h != [] {
      var acts := h[0].acts;
      var u := Exec(ws, s, acts).value;
      VerbAims(ws, s, h[0].verb, acts);
      OperatorOnlyTouchesPasswords(ws, s, acts);
      RunFrame(ws, s.stores, Commands(acts), h[0].verb.app, other);
      if NoTearIn(h) {
        RunEntryFrame(ws, s.stores, Commands(acts), h[0].verb.app, targets);
        assert NoTearIn(h[1..]);
      }
      OtherTenantsUntouched(ws, u, h[1..], t, other, targets);
    }
  }

  // ----- every reachable state can be repaired

  /** A file that is missing or can be used again. */
  ghost predicate Usable(ws: Workspace, s: Stores, app: string) {
    SecretPath(ws, app) in s.files ==>
      exists pw :: SecretYaml.ParsedPassword(s.files[SecretPath(ws, app)]) == Some(pw) && !Contains(pw, "$$")
  }

  lemma ApplyKeepsUsable(ws: Workspace, s: Stores, c: Command, target: string, app: string)
    requires Resolved(ws) && Names.IdentSafe(target)
    requires Apply(s, c).Some? && Aims(ws, target, c) && Usable(ws, s, app)
    ensures Usable(ws, Apply(s, c).value, app)
  {
    if c.PutFile? {
      WrittenIsUsable(ws, s, c, target, app);
    } else if !c.RemoveFile? {
      AppliedAway(s, c, Files);
    }
  }

  lemma WrittenIsUsable(ws: Workspace, s: Stores, c: Command, target: string, app: string)
    requires Resolved(ws) && Names.IdentSafe(target) && c.PutFile? && Aims(ws, target, c) && Usable(ws, s, app)
    ensures Usable(ws, Apply(s, c).value, app)
  {
    var pw :| SecretYaml.Generated(pw) && c.body == SecretBody(ws, target, pw);
    SecretYaml.GeneratedIsSafe(pw);
    Sql.FreeHasNoDollars(pw);
    SecretNameIsOneLine(ws, target);
    assert Free(target, '\n');
    SecretYaml.PasswordRoundTrip(SecretName(ws, target), ws.namespace, target, pw);
  }

  lemma {:induction false} RunKeepsUsable(ws: Workspace, s: Stores, cs: seq<Command>, target: string, app: string)
    requires Resolved(ws) && Names.IdentSafe(target)
    requires Run(s, cs).Some? && AllAim(ws, target, cs) && Usable(ws, s, app)
    ensures Usable(ws, Run(s, cs).value, app)
    decreases cs
  {
    if cs != [] {
      ApplyKeepsUsable(ws, s, cs[0], target, app);
      RunKeepsUsable(ws, Apply(s, cs[0]).value, cs[1..], target, app);
    }
  }

  lemma ActingVerbIsSafe(ws: Workspace, s: State, v: Verb, acts: seq<Act>)
    requires VerbAttempt(ws, s, v, acts) && Commands(acts) != []
    ensures Names.IdentSafe(v.app)
  {
  }

  predicate Succeeds(v: Verb) {
    match v
    case ProvisionVerb(_, _, _, r) => r.Ok?
    case RotateVerb(_, _, _, r) => r.Ok?
    case DropVerb(_, _, ok) => ok
    case SyncVerb(_, _, _, ok) => ok
    case BranchVerb(_, _, _, _, _, r) => r.Ok?
    case RestoreVerb(_, _, _, _, _, _, ok) => ok
  }

  /**
   No attempt changes a store or returns nil unless the request passed every check: the names are valid and differ,
   the destructive verbs were confirmed, Rotate found the role, and Restore found the live cluster and a completed
   backup of it that has an ID.
   */
  lemma GuardsHold(ws: Workspace, s: State, v: Verb, acts: seq<Act>)
    requires Exec(ws, s, acts).Some? && VerbAttempt(ws, s, v, acts)
    requires Exec(ws, s, acts).value.stores != s.stores || Succeeds(v)
    ensures Names.IdentSafe(v.app)
    ensures v.RotateVerb? ==> v.confirmed && v.app in s.stores.roles
    ensures v.DropVerb? ==> v.confirmed
    ensures v.SyncVerb? ==> v.confirmed && Names.DatabaseNameSafe(v.src) && v.src != v.app
    ensures v.BranchVerb? ==> Names.DatabaseNameSafe(v.src) && v.src != v.app
    ensures v.RestoreVerb? ==>
      && Names.DnsSubdomain(TrimSpace(v.name)) && ws.clusterName in s.stores.clusters && v.chosen.Some?
      && v.chosen.value in v.backups && v.chosen.value.name == TrimSpace(v.name)
      && v.chosen.value.phase == "completed" && v.chosen.value.backupID != "" && v.chosen.value.cluster == ws.clusterName
  {
    OperatorOnlyTouchesPasswords(ws, s, acts);
  }

  /** Over every history of partly failed verbs, torn writes included: a tenant's file stays missing or usable. */
  lemma {:induction false} AlwaysUsable(ws: Workspace, s: State, h: seq<Event>, t: State, app: string)
    requires Resolved(ws) && History(ws, s, h, t) && Usable(ws, s.stores, app)
    ensures Usable(ws, t.stores, app)
    decreases h
  {
    if h != [] {
      var acts := h[0].acts;
      OperatorOnlyTouchesPasswords(ws, s, acts);
      VerbAims(ws, s, h[0].verb, acts);
      if Commands(acts) != [] {
        ActingVerbIsSafe(ws, s, h[0].verb, acts);
        RunKeepsUsable(ws, s.stores, Commands(acts), h[0].verb.app, app);
      }
      AlwaysUsable(ws, Exec(ws, s, acts).value, h[1..], t, app);
    }
  }

  /** Only a torn write can take the roles sequence away. */
  lemma {:induction false} AlwaysReady(ws: Workspace, s: State, h: seq<Event>, t: State)
    requires History(ws, s, h, t) && NoTearIn(h) && ManifestReady(s.stores)
    ensures ManifestReady(t.stores)
    decreases h
  {
    if h != [] {
      var acts := h[0].acts;
      OperatorOnlyTouchesPasswords(ws, s, acts);
      VerbAims(ws, s, h[0].verb, acts);
      RunEntryFrame(ws, s.stores, Commands(acts), h[0].verb.app, {h[0].verb.app});
      assert NoTearIn(h[1..]);
      AlwaysReady(ws, Exec(ws, s, acts).value, h[1..], t);
    }
  }

  lemma UsableProvisionableIff(ws: Workspace, s: Stores, app: string, entropy: Entropy)
    requires Names.IdentSafe(app) && (ws.secretPrefix == "" || Names.ValidClusterID(ws.secretPrefix))
    requires Usable(ws, s, app)
    ensures Provisionable(ws, s, app, entropy) <==> ManifestReady(s)
  {
    Names.SecretNameLength(ws.secretPrefix, app);
    SecretYaml.GeneratedPassword(entropy);
    SecretYaml.GeneratedIsSafe(SecretYaml.GeneratePassword(entropy));
    Sql.FreeHasNoDollars(SecretYaml.GeneratePassword(entropy));
    ProvisionableIff(ws, s, app, entropy);
  }

  /**
   Exactly when retrying works. After every history of partly failed verbs, torn writes included: an attempt at
   Provision that meets no fault returns nil if and only if the manifest still has a roles sequence, and any
   attempt that returns nil brings all copies of the password back together.
   */
  lemma RecoverableFromEverywhere(ws: Workspace, s: State, h: seq<Event>, t: State, app: string, entropy: Entropy,
                                  blind: bool, acts: seq<Act>, r: Result<Tenant>)
    requires Resolved(ws) && History(ws, s, h, t) && Usable(ws, s.stores, app)
    requires Names.IdentSafe(app) && (ws.secretPrefix == "" || Names.ValidClusterID(ws.secretPrefix))
    requires Exec(ws, t, acts).Some? && ProvisionAttempt(ws, t, app, entropy, blind, acts, r)
    ensures Provisionable(ws, t.stores, app, entropy) <==> ManifestReady(t.stores)
    ensures r.Ok? ==> Provisioned(ws, Exec(ws, t, acts).value, app, r.value.dsn.password)
    ensures NoTearIn(h) && ManifestReady(s.stores) ==> Provisionable(ws, t.stores, app, entropy)
  {
    AlwaysUsable(ws, s, h, t, app);
    UsableProvisionableIff(ws, t.stores, app, entropy);
    if r.Ok? {
      ProvisionDelivers(ws, t, app, entropy, blind, acts, r);
    }
    if NoTearIn(h) && ManifestReady(s.stores) {
      AlwaysReady(ws, s, h, t);
    }
  }

  /**
   Such a torn write happens: for every tenant Provision could finish but whose entry is missing, there is an
   attempt that empties the manifest, after which no attempt returns nil.
   */
  lemma TornWriteHappens(ws: Workspace, s: State, app: string, entropy: Entropy) returns (acts: seq<Act>)
    requires Provisionable(ws, s.stores, app, entropy) && !Declared(s.stores, ws, app)
    ensures Exec(ws, s, acts).Some? && ProvisionAttempt(ws, s, app, entropy, false, acts, Err)
    ensures !ManifestReady(Exec(ws, s, acts).value.stores)
  {
    var src := PasswordSource(ws, s.stores, app, entropy, false);
    var server, edit := ServerPlan(ws, s.stores, app, src), AppendEntry(Entry(ws, app));
    assert ProvisionPlan(ws, s.stores, app, src) == server + [edit];
    acts := TornRun(ws, s, server, edit);
  }

  lemma TornRun(ws: Workspace, s: State, server: seq<Command>, edit: Command) returns (acts: seq<Act>)
    requires Run(s.stores, server + [edit]).Some? && edit.AppendEntry?
    ensures Exec(ws, s, acts).Some? && Attempted(acts, server + [edit], false)
    ensures Exec(ws, s, acts).value.stores.manifest == None
  {
    var tear := Tear(None);
    EmptiedManifest(s.stores, server, edit);
    acts := Straight(server + [tear]);
    StraightRun(ws, s, server + [tear]);
    OperatorOnlyTouchesPasswords(ws, s, acts);
    TornAfter(server, tear, edit);
  }

  lemma EmptiedManifest(s: Stores, server: seq<Command>, edit: Command)
    requires Run(s, server + [edit]).Some?
    ensures Run(s, server + [Tear(None)]).Some? && Run(s, server + [Tear(None)]).value.manifest == None
  {
    RunAppend(s, server, [edit]);
    RunAppend(s, server, [Tear(None)]);
    RunOne(Run(s, server).value, Tear(None));
  }

  lemma TornAfter(server: seq<Command>, tear: Command, edit: Command)
    requires tear.Tear? && edit.AppendEntry?
    ensures Torn(server + [tear], server + [edit])
  {
    assert (server + [tear])[..|server|] == server;
  }

  /**
   A torn write is the one thing retrying cannot mend: once what is left in the manifest has no roles sequence,
   no attempt at Provision returns nil any more.
   */
  lemma TornManifestBlocks(ws: Workspace, s: State, app: string, entropy: Entropy, blind: bool, acts: seq<Act>, r: Result<Tenant>)
    requires Names.IdentSafe(app) && Exec(ws, s, acts).Some?
    requires ProvisionAttempt(ws, s, app, entropy, blind, acts, r)
    requires !ManifestReady(s.stores)
    ensures r.Err?
  {
    var src := PasswordSource(ws, s.stores, app, entropy, blind);
    if r.Ok? {
      OperatorOnlyTouchesPasswords(ws, s, acts);
      var server, e := ServerPlan(ws, s.stores, app, src), EntryPlan(s.stores, ws, app);
      RunAppend(s.stores, server, e);
      ServerAvoidsManifest(ws, s.stores, app, src);
      UntouchedStays(s.stores, server, TheManifest);
      EntryPlanAccepted(ws, Run(s.stores, server).value, app);
      assert false;
    }
  }
}
