/**
 What one attempt at each verb may have done: some prefix of a plan that depends only on the state it started
 from. Success is the whole plan; the operator may have acted anywhere in between.
 */
module Plans {
  import opened Strings
  import Names
  import Manifest
  import SecretYaml
  import opened Paths
  import opened Stores

  type Entropy = e: seq<SecretYaml.Byte> | |e| == 24 witness seq(24, i => 0)

  /** The returned DSN by its parts. */
  datatype Dsn = Dsn(serviceName: string, role: string, password: string, namespace: string, database: string)

  datatype Tenant = Tenant(name: string, role: string, database: string, secretName: string, dsn: Dsn)

  function TenantOf(ws: Workspace, app: string, pw: string): Tenant {
    Tenant(app, app, app, SecretName(ws, app), Dsn(ws.serviceName, app, pw, ws.namespace, app))
  }

  /** What a verb says about the tenant it leaves. */
  predicate Describes(tenant: Tenant, ws: Workspace, app: string, pw: string) {
    && tenant.name == app && tenant.role == app && tenant.database == app && tenant.secretName == SecretName(ws, app)
    && tenant.dsn.role == app && tenant.dsn.password == pw && tenant.dsn.database == app
    && tenant.dsn.serviceName == ws.serviceName && tenant.dsn.namespace == ws.namespace
  }

  // ----- plans

  function SecretBody(ws: Workspace, app: string, pw: string): string {
    SecretYaml.BuildSecretYaml(SecretName(ws, app), ws.namespace, app, pw)
  }

  function FilePlan(ws: Workspace, app: string, pw: string): seq<Command> {
    [PutFile(SecretPath(ws, app), SecretBody(ws, app, pw))]
  }

  predicate Holds(secret: Secret, user: string, pw: string) {
    Get(secret.data, "password") == pw && Get(secret.data, "username") == user
  }

  function SecretPlan(s: Stores, name: string, user: string, pw: string): seq<Command> {
    if name !in s.secrets then [CreateSecret(name, user, pw)]
    else if Holds(s.secrets[name], user, pw) then []
    else [UpdateSecret(name, user, pw)]
  }

  function DatabasePlan(s: Stores, db: string): seq<Command> {
    if db in s.dbs then [AlterDbOwner(db, db)] else [CreateDb(db, db)]
  }

  function GrantPlan(db: string): seq<Command> {
    [Grant(db, Connect, db)] + [Grant(db, SchemaPublic, db), Grant(db, FutureTables, db), Grant(db, FutureSequences, db)]
  }

  function LoadPlan(db: string, objects: seq<string>): (cs: seq<Command>)
    ensures |cs| == |objects| && forall i :: 0 <= i < |cs| ==> cs[i] == AddObject(db, objects[i])
  {
    seq(|objects|, i requires 0 <= i < |objects| => AddObject(db, objects[i]))
  }

  function Entry(ws: Workspace, app: string): Manifest.Role {
    Manifest.Role(app, app + " application user", SecretName(ws, app))
  }

  predicate Declared(s: Stores, ws: Workspace, app: string) {
    s.manifest.Some? && Manifest.Appended(s.manifest.value, Entry(ws, app)).RoleExists?
  }

  function EntryPlan(s: Stores, ws: Workspace, app: string): seq<Command> {
    if Declared(s, ws, app) then [] else [AppendEntry(Entry(ws, app))]
  }

  /** The password an attempt at Provision works with, and whether it is a fresh one that must be written first. */
  datatype Source = Existing(pw: string) | Fresh(pw: string) | Unreadable

  /**
   ensureSecretFile: an existing file is reused, a missing one is made; a failing os.Stat is taken for a missing
   file, which `blind` records.
   */
  function PasswordSource(ws: Workspace, s: Stores, app: string, entropy: Entropy, blind: bool): Source {
    var path := SecretPath(ws, app);
    if path in s.files && !blind then
      match SecretYaml.ParsedPassword(s.files[path])
      case None => Unreadable
      case Some(pw) => Existing(pw)
    else Fresh(SecretYaml.GeneratePassword(entropy))
  }

  function SourcePlan(ws: Workspace, app: string, src: Source): seq<Command> {
    if src.Fresh? then FilePlan(ws, app, src.pw) else []
  }

  /** The Secret first, then the role, so that the operator never brings back an older password. */
  function CredentialPlan(ws: Workspace, s: Stores, app: string, pw: string): seq<Command> {
    SecretPlan(s, SecretName(ws, app), app, pw) + [EnsureRole(app, pw)]
  }

  function TenantDbPlan(s: Stores, app: string): seq<Command> {
    DatabasePlan(s, app) + GrantPlan(app)
  }

  function ProvisionPlan(ws: Workspace, s: Stores, app: string, src: Source): seq<Command>
    requires !src.Unreadable?
  {
    SourcePlan(ws, app, src) + (CredentialPlan(ws, s, app, src.pw) + TenantDbPlan(s, app)) + EntryPlan(s, ws, app)
  }

  function RotatePlan(ws: Workspace, s: Stores, app: string, pw: string): seq<Command> {
    [AlterRole(app, pw)] + SecretPlan(s, SecretName(ws, app), app, pw) + FilePlan(ws, app, pw)
  }

  function DropPlan(ws: Workspace, app: string): seq<Command> {
    [DropDb(app)] + [DropRole(app)] + [DeleteSecret(SecretName(ws, app))] + [RemoveEntry(app)]
    + [RemoveFile(SecretPath(ws, app))]
  }

  function DumpPlan(src: string, dst: string, objects: seq<string>): seq<Command> {
    [CheckDb(src)] + LoadPlan(dst, objects)
  }

  function SyncFront(src: string, dst: string): seq<Command> {
    [CheckDb(src)] + [CheckDb(dst)] + [DropDb(dst)] + [CreateDb(dst, dst)]
  }

  function BranchTail(src: string, dst: string, objects: seq<string>): seq<Command> {
    DumpPlan(src, dst, objects) + GrantPlan(dst)
  }

  function SyncPlan(src: string, dst: string, objects: seq<string>): seq<Command> {
    SyncFront(src, dst) + BranchTail(src, dst, objects)
  }

  function RecreatePlan(app: string): seq<Command> {
    [DropDb(app)] + [CreateDb(app, app)]
  }

  function RefillPlan(app: string, objects: seq<string>): seq<Command> {
    LoadPlan(app, objects) + GrantPlan(app)
  }

  function RecoverPlan(rec: string, app: string, objects: seq<string>): seq<Command> {
    [CheckReachable(rec, app)] + (RecreatePlan(app) + RefillPlan(app, objects)) + [DeleteCluster(rec)]
  }

  function RestorePlan(app: string, rec: string, point: RecoveryPoint, objects: seq<string>): seq<Command> {
    [CreateCluster(rec, point)] + RecoverPlan(rec, app, objects)
  }

  // ----- the places each part of a plan keeps away from

  lemma SourceAvoids(ws: Workspace, app: string, src: Source, p: Place)
    requires p != Files
    ensures Avoids(SourcePlan(ws, app, src), p)
  {
  }

  lemma CredentialAvoids(ws: Workspace, s: Stores, app: string, pw: string, p: Place)
    requires p != Secrets && p != Roles
    ensures Avoids(CredentialPlan(ws, s, app, pw), p)
  {
    assert Avoids(SecretPlan(s, SecretName(ws, app), app, pw), p);
    AvoidsAppend(SecretPlan(s, SecretName(ws, app), app, pw), [EnsureRole(app, pw)], p);
  }

  lemma GrantAvoids(app: string, p: Place)
    requires p != Dbs
    ensures Avoids(GrantPlan(app), p)
  {
  }

  lemma TenantDbAvoids(s: Stores, app: string, p: Place)
    requires p != Dbs
    ensures Avoids(TenantDbPlan(s, app), p)
  {
    GrantAvoids(app, p);
    AvoidsAppend(DatabasePlan(s, app), GrantPlan(app), p);
  }

  lemma EntryAvoids(ws: Workspace, s: Stores, app: string, p: Place)
    requires p != TheManifest
    ensures Avoids(EntryPlan(s, ws, app), p)
  {
  }

  /** After the file part, nothing touches the file again. */
  lemma RestAvoidsFiles(ws: Workspace, s: Stores, app: string, pw: string)
    ensures Avoids(CredentialPlan(ws, s, app, pw) + TenantDbPlan(s, app) + EntryPlan(s, ws, app), Files)
  {
    var c, d, e := CredentialPlan(ws, s, app, pw), TenantDbPlan(s, app), EntryPlan(s, ws, app);
    CredentialAvoids(ws, s, app, pw, Files);
    TenantDbAvoids(s, app, Files);
    EntryAvoids(ws, s, app, Files);
    AvoidsAppend(c, d, Files);
    AvoidsAppend(c + d, e, Files);
  }

  /** Before the entry part, nothing touches the manifest. */
  lemma ServerAvoidsManifest(ws: Workspace, s: Stores, app: string, src: Source)
    requires !src.Unreadable?
    ensures Avoids(SourcePlan(ws, app, src) + (CredentialPlan(ws, s, app, src.pw) + TenantDbPlan(s, app)), TheManifest)
  {
    var f, c, d := SourcePlan(ws, app, src), CredentialPlan(ws, s, app, src.pw), TenantDbPlan(s, app);
    SourceAvoids(ws, app, src, TheManifest);
    CredentialAvoids(ws, s, app, src.pw, TheManifest);
    TenantDbAvoids(s, app, TheManifest);
    AvoidsAppend(c, d, TheManifest);
    AvoidsAppend(f, c + d, TheManifest);
  }

  /** The commands a Provision of app is made of. */
  predicate Provisioning(c: Command, app: string) {
    match c
    case PutFile(_, _) => true
    case CreateSecret(_, _, _) => true
    case UpdateSecret(_, _, _) => true
    case EnsureRole(_, _) => true
    case CreateDb(db, _) => db == app
    case AlterDbOwner(db, _) => db == app
    case Grant(db, _, _) => db == app
    case AppendEntry(_) => true
    case _ => false
  }

  predicate AllProvisioning(cs: seq<Command>, app: string) {
    forall i :: 0 <= i < |cs| ==> Provisioning(cs[i], app)
  }

  lemma AllProvisioningAppend(a: seq<Command>, b: seq<Command>, app: string)
    requires AllProvisioning(a, app) && AllProvisioning(b, app)
    ensures AllProvisioning(a + b, app)
  {
  }

  lemma ProvisionPlanKinds(ws: Workspace, s: Stores, app: string, src: Source)
    requires !src.Unreadable?
    ensures AllProvisioning(ProvisionPlan(ws, s, app, src), app)
  {
    var f, c, d, e :=
      SourcePlan(ws, app, src), CredentialPlan(ws, s, app, src.pw), TenantDbPlan(s, app), EntryPlan(s, ws, app);
    AllProvisioningAppend(SecretPlan(s, SecretName(ws, app), app, src.pw), [EnsureRole(app, src.pw)], app);
    AllProvisioningAppend(DatabasePlan(s, app), GrantPlan(app), app);
    AllProvisioningAppend(c, d, app);
    AllProvisioningAppend(f, c + d, app);
    AllProvisioningAppend(f + (c + d), e, app);
  }

  // ----- attempts

  /** The commands stop in the middle of a manifest write. */
  predicate Torn(cs: seq<Command>, plan: seq<Command>) {
    && 0 < |cs| <= |plan|
    && cs[|cs| - 1].Tear?
    && cs[..|cs| - 1] <= plan
    && (plan[|cs| - 1].AppendEntry? || plan[|cs| - 1].RemoveEntry?)
  }

  predicate Attempted(acts: seq<Act>, plan: seq<Command>, ok: bool) {
    var cs := Commands(acts);
    if ok then cs == plan else cs <= plan || Torn(cs, plan)
  }

  /** Without a manifest edit in the plan, an attempt is a prefix of it. */
  lemma NeverTorn(acts: seq<Act>, plan: seq<Command>, ok: bool)
    requires Attempted(acts, plan, ok)
    requires forall i :: 0 <= i < |plan| ==> !plan[i].AppendEntry? && !plan[i].RemoveEntry?
    ensures Commands(acts) <= plan
  {
  }

  /** One attempt at Provision of app from s, without or with a failing os.Stat. */
  predicate ProvisionAttempt(ws: Workspace, s: State, app: string, entropy: Entropy, blind: bool, acts: seq<Act>,
                             r: Result<Tenant>) {
    if !Names.IdentSafe(app) then r.Err? && Commands(acts) == []
    else
      var src := PasswordSource(ws, s.stores, app, entropy, blind);
      if src.Unreadable? then r.Err? && Commands(acts) == []
      else
        && Attempted(acts, ProvisionPlan(ws, s.stores, app, src), r.Ok?)
        && (r.Ok? ==> r.value == TenantOf(ws, app, src.pw))
  }

  predicate RotateAttempt(ws: Workspace, s: State, app: string, entropy: Entropy, confirmed: bool, acts: seq<Act>,
                          r: Result<Tenant>) {
    if !Names.IdentSafe(app) || !confirmed || app !in s.stores.roles then r.Err? && Commands(acts) == []
    else
      var pw := SecretYaml.GeneratePassword(entropy);
      && Attempted(acts, RotatePlan(ws, s.stores, app, pw), r.Ok?)
      && (r.Ok? ==> r.value == TenantOf(ws, app, pw))
  }

  predicate DropAttempt(ws: Workspace, s: State, app: string, confirmed: bool, acts: seq<Act>, ok: bool) {
    if !Names.IdentSafe(app) || !confirmed then !ok && Commands(acts) == []
    else Attempted(acts, DropPlan(ws, app), ok)
  }

  function ObjectsOf(s: Stores, db: string): seq<string> {
    if db in s.dbs then s.dbs[db].objects else []
  }

  predicate SyncAttempt(s: State, src: string, dst: string, confirmed: bool, acts: seq<Act>, ok: bool) {
    if !Names.DatabaseNameSafe(src) || !Names.IdentSafe(dst) || src == dst || !confirmed
    then !ok && Commands(acts) == []
    else Attempted(acts, SyncPlan(src, dst, ObjectsOf(s.stores, src)), ok)
  }

  /**
   Provision of the destination, then the clone. What a load into a destination that already has contents
   brings is left open: `loaded` is only fixed for an empty one.
   */
  predicate BranchAttempt(ws: Workspace, s: State, src: string, dst: string, entropy: Entropy, blind: bool,
                          loaded: seq<string>, acts: seq<Act>, r: Result<Tenant>) {
    if !Names.DatabaseNameSafe(src) || !Names.IdentSafe(dst) || src == dst then r.Err? && Commands(acts) == []
    else
      var from := PasswordSource(ws, s.stores, dst, entropy, blind);
      if from.Unreadable? then r.Err? && Commands(acts) == []
      else
        && (ObjectsOf(s.stores, dst) == [] ==> loaded == ObjectsOf(s.stores, src))
        && Attempted(acts, ProvisionPlan(ws, s.stores, dst, from) + BranchTail(src, dst, loaded), r.Ok?)
        && (r.Ok? ==> r.value == TenantOf(ws, dst, from.pw))
  }

  /**
   Restore: a failure once the recovery cluster was created is followed by an attempt to delete it again, which
   may itself fail.
   */
  predicate RestoreCommands(cs: seq<Command>, plan: seq<Command>, rec: string, ok: bool) {
    if ok then cs == plan
    else
      || cs <= plan
      || (cs != [] && cs[|cs| - 1] == DeleteCluster(rec) && [] < cs[..|cs| - 1] <= plan)
  }
}
