/** The three copies of a tenant's password: when they agree, and how they come to agree again. */
module Agreement {
  import opened Strings
  import Names
  import Manifest
  import SecretYaml
  import opened Paths
  import opened Stores
  import opened Cluster
  import opened Plans
  import opened Verbs

  /** What loading a workspace leaves possible: an absolute root, and a namespace on one line. */
  predicate Resolved(ws: Workspace) {
    IsAbs(ws.root) && Free(ws.namespace, '\n')
  }

  predicate FileHolds(s: Stores, ws: Workspace, app: string, pw: string) {
    SecretPath(ws, app) in s.files && SecretYaml.ParsedPassword(s.files[SecretPath(ws, app)]) == Some(pw)
  }

  predicate SecretHolds(s: Stores, ws: Workspace, app: string, pw: string) {
    && SecretName(ws, app) in s.secrets
    && "password" in s.secrets[SecretName(ws, app)].data && s.secrets[SecretName(ws, app)].data["password"] == pw
    && "username" in s.secrets[SecretName(ws, app)].data && s.secrets[SecretName(ws, app)].data["username"] == app
  }

  /** A Secret that was there keeps its type and its other keys; a new one has the type for credentials and no others. */
  ghost predicate SecretKept(s: Stores, t: Stores, name: string) {
    name in t.secrets
    && if name in s.secrets then
         && t.secrets[name].kind == s.secrets[name].kind
         && forall k :: k != "username" && k != "password" ==>
              (k in t.secrets[name].data <==> k in s.secrets[name].data)
              && (k in s.secrets[name].data ==> t.secrets[name].data[k] == s.secrets[name].data[k])
       else
         t.secrets[name].kind == "kubernetes.io/basic-auth" && t.secrets[name].data.Keys == {"username", "password"}
  }

  /** The Secret of a tenant has a password, whoever it names as the user. */
  predicate SecretPassword(s: Stores, ws: Workspace, app: string, q: string) {
    && SecretName(ws, app) in s.secrets && "password" in s.secrets[SecretName(ws, app)].data
    && s.secrets[SecretName(ws, app)].data["password"] == q
  }

  predicate RoleHolds(s: State, app: string, pw: string) {
    app in s.stores.roles && app in s.passwords && s.passwords[app] == pw
  }

  /** File, Secret and role all hold the password. */
  predicate Agree3(ws: Workspace, s: State, app: string, pw: string) {
    FileHolds(s.stores, ws, app, pw) && SecretHolds(s.stores, ws, app, pw) && RoleHolds(s, app, pw)
  }

  predicate DatabaseReady(s: Stores, app: string) {
    && app in s.dbs && s.dbs[app].owner == app
    && (Connect, app) in s.dbs[app].grants && (SchemaPublic, app) in s.dbs[app].grants
    && (FutureTables, app) in s.dbs[app].grants && (FutureSequences, app) in s.dbs[app].grants
  }

  predicate EntryDeclared(s: Stores, app: string) {
    && s.manifest.Some? && Manifest.RolesPath(s.manifest.value).Some?
    && Manifest.Declares(Manifest.Entries(s.manifest.value), app)
  }

  lemma KeptThrough(s: Stores, s1: Stores, s2: Stores, t: Stores, name: string)
    requires s1.secrets == s.secrets && t.secrets == s2.secrets && SecretKept(s1, s2, name)
    ensures SecretKept(s, t, name)
  {
  }

  /** An entry that was there is left alone; a missing one is appended, as a role to keep with the tenant's Secret. */
  predicate EntryKept(s: Stores, t: Stores, ws: Workspace, app: string) {
    if EntryDeclared(s, app) then t.manifest == s.manifest
    else
      && s.manifest.Some? && t.manifest.Some?
      && Manifest.RolesPath(s.manifest.value).Some? && Manifest.RolesPath(t.manifest.value).Some?
      && var e, e' := Manifest.Entries(s.manifest.value), Manifest.Entries(t.manifest.value);
         |e'| == |e| + 1 && e <= e' && Manifest.StandardRole(e'[|e|], app, app + " application user", SecretName(ws, app))
  }

  /** A tenant with nothing missing. */
  predicate Provisioned(ws: Workspace, s: State, app: string, pw: string) {
    && Agree3(ws, s, app, pw)
    && s.stores.roles[app]
    && DatabaseReady(s.stores, app)
    && EntryDeclared(s.stores, app)
  }

  // ----- what the parts of a plan establish

  lemma WrittenFileHolds(ws: Workspace, s: Stores, app: string, pw: string, t: Stores)
    requires Resolved(ws) && Names.IdentSafe(app) && SecretYaml.RoundTrips(pw)
    requires Run(s, FilePlan(ws, app, pw)) == Some(t)
    ensures FileHolds(t, ws, app, pw)
  {
    RunOne(s, PutFile(SecretPath(ws, app), SecretBody(ws, app, pw)));
    SecretNameIsOneLine(ws, app);
    assert Free(app, '\n');
    SecretYaml.PasswordRoundTrip(SecretName(ws, app), ws.namespace, app, pw);
  }

  lemma SecretNameIsOneLine(ws: Workspace, app: string)
    ensures Free(SecretName(ws, app), '\n')
  {
    Names.SecretNameIsJoined(ws.secretPrefix, app);
    Names.JoinedWordsAreHyphenated(Names.AllSegments(ws.secretPrefix, app));
  }

  lemma SecretPlanHolds(s: Stores, ws: Workspace, app: string, pw: string, t: Stores)
    requires pw != "" && app != "" && Run(s, SecretPlan(s, SecretName(ws, app), app, pw)) == Some(t)
    ensures SecretHolds(t, ws, app, pw) && SecretKept(s, t, SecretName(ws, app))
  {
    var name := SecretName(ws, app);
    RunOne(s, CreateSecret(name, app, pw));
    RunOne(s, UpdateSecret(name, app, pw));
  }

  lemma DatabasePlanOwns(s: Stores, app: string, t: Stores)
    requires Run(s, DatabasePlan(s, app)) == Some(t)
    ensures app in t.dbs && t.dbs[app].owner == app
    ensures t.dbs[app].objects == ObjectsOf(s, app)
  {
    RunOne(s, CreateDb(app, app));
    RunOne(s, AlterDbOwner(app, app));
  }

  lemma GrantOnce(s: Stores, db: string, p: Privilege, t: Stores)
    requires Apply(s, Grant(db, p, db)) == Some(t)
    ensures db in s.dbs && db in s.roles
    ensures t == s.(dbs := s.dbs[db := s.dbs[db].(grants := s.dbs[db].grants + {(p, db)})])
  {
  }

  /** The four grants are added; owner, contents and everything else stay. */
  lemma GrantPlanGrants(s: Stores, db: string, t: Stores)
    requires Run(s, GrantPlan(db)) == Some(t)
    ensures db in s.dbs
    ensures var all := {(Connect, db), (SchemaPublic, db), (FutureTables, db), (FutureSequences, db)};
            t == s.(dbs := s.dbs[db := s.dbs[db].(grants := s.dbs[db].grants + all)])
  {
    var g1, g2, g3, g4 := Grant(db, Connect, db), Grant(db, SchemaPublic, db), Grant(db, FutureTables, db),
                          Grant(db, FutureSequences, db);
    assert GrantPlan(db) == [g1] + ([g2] + ([g3] + [g4]));
    RunAppend(s, [g1], [g2] + ([g3] + [g4]));
    RunOne(s, g1);
    var s1 := Apply(s, g1).value;
    RunAppend(s1, [g2], [g3] + [g4]);
    RunOne(s1, g2);
    var s2 := Apply(s1, g2).value;
    RunAppend(s2, [g3], [g4]);
    RunOne(s2, g3);
    var s3 := Apply(s2, g3).value;
    RunOne(s3, g4);
    GrantOnce(s, db, Connect, s1);
    GrantOnce(s1, db, SchemaPublic, s2);
    GrantOnce(s2, db, FutureTables, s3);
    GrantOnce(s3, db, FutureSequences, t);
    var all := {(Connect, db), (SchemaPublic, db), (FutureTables, db), (FutureSequences, db)};
    assert t.dbs[db].grants == s.dbs[db].grants + all;
    assert t.dbs == s.dbs[db := s.dbs[db].(grants := s.dbs[db].grants + all)];
  }

  lemma EntryPlanDeclares(ws: Workspace, s: Stores, app: string, t: Stores)
    requires Names.IdentSafe(app) && Run(s, EntryPlan(s, ws, app)) == Some(t)
    ensures EntryDeclared(t, app) && EntryKept(s, t, ws, app)
  {
    if !Declared(s, ws, app) {
      var entry := Entry(ws, app);
      RunOne(s, AppendEntry(entry));
      AppendedIsDeclared(s.manifest.value, entry);
    }
  }

  lemma AppendedIsDeclared(doc: Manifest.Node, entry: Manifest.Role)
    requires Manifest.Appended(doc, entry).Patched?
    ensures var doc' := Manifest.Appended(doc, entry).doc;
            && Manifest.RolesPath(doc').Some? && Manifest.Declares(Manifest.Entries(doc'), entry.name)
            && !Manifest.Declares(Manifest.Entries(doc), entry.name)
            && |Manifest.Entries(doc')| == |Manifest.Entries(doc)| + 1 && Manifest.Entries(doc) <= Manifest.Entries(doc')
            && Manifest.StandardRole(Manifest.Entries(doc')[|Manifest.Entries(doc)|], entry.name, entry.comment,
                                     entry.passwordSecret)
  {
    Manifest.AppendListsRole(doc, entry);
    var e := Manifest.Entries(Manifest.Appended(doc, entry).doc)[|Manifest.Entries(doc)|];
    assert Manifest.RoleName(e) == entry.name;
  }

  /** The password a readable source gives is never empty. */
  lemma SourceShape(ws: Workspace, s: Stores, app: string, entropy: Entropy, blind: bool)
    ensures var src := PasswordSource(ws, s, app, entropy, blind);
            && (!src.Unreadable? ==> src.pw != "")
            && (src.Fresh? ==> SecretYaml.Generated(src.pw))
            && (src.Existing? ==> FileHolds(s, ws, app, src.pw))
  {
    SecretYaml.GeneratedPassword(entropy);
    if SecretPath(ws, app) in s.files {
      SecretYaml.ParsedShape(s.files[SecretPath(ws, app)]);
    }
  }

  // ----- Provision

  lemma InClusterResult(ws: Workspace, s: Stores, app: string, pw: string, t: Stores)
    requires pw != "" && app != "" && Run(s, CredentialPlan(ws, s, app, pw) + TenantDbPlan(s, app)) == Some(t)
    ensures SecretKept(s, t, SecretName(ws, app))
    ensures SecretHolds(t, ws, app, pw) && app in t.roles && t.roles[app] && DatabaseReady(t, app)
    ensures t.dbs[app].objects == ObjectsOf(s, app)
  {
    var secret, role, db, grants := SecretPlan(s, SecretName(ws, app), app, pw), [EnsureRole(app, pw)],
                                    DatabasePlan(s, app), GrantPlan(app);
    RunAppend(s, secret + role, db + grants);
    RunAppend(s, secret, role);
    var s1 := Run(s, secret).value;
    SecretPlanHolds(s, ws, app, pw, s1);
    RunOne(s1, EnsureRole(app, pw));
    var s2 := Apply(s1, EnsureRole(app, pw)).value;
    assert Avoids(secret + role, Dbs) by { CredentialAvoids(ws, s, app, pw, Dbs); }
    UntouchedStays(s, secret + role, Dbs);
    RunAppend(s2, db, grants);
    var s3 := Run(s2, db).value;
    DatabasePlanOwns(s2, app, s3);
    GrantPlanGrants(s3, app, t);
    TenantDbAvoids(s, app, Secrets);
    TenantDbAvoids(s, app, Roles);
    UntouchedStays(s2, db + grants, Secrets);
    KeptThrough(s, s, s1, t, SecretName(ws, app));
    UntouchedStays(s2, db + grants, Roles);
  }

  /** Everything but the role password and the manifest, after all steps up to the manifest. */
  lemma ServerResult(ws: Workspace, s: Stores, app: string, entropy: Entropy, blind: bool, u: Stores)
    requires Resolved(ws) && Names.IdentSafe(app)
    requires var src := PasswordSource(ws, s, app, entropy, blind);
             !src.Unreadable? && Run(s, ServerPlan(ws, s, app, src)) == Some(u)
    ensures var pw := PasswordSource(ws, s, app, entropy, blind).pw;
            && FileHolds(u, ws, app, pw) && SecretHolds(u, ws, app, pw)
            && app in u.roles && u.roles[app] && DatabaseReady(u, app)
            && u.dbs[app].objects == ObjectsOf(s, app)
    ensures SecretKept(s, u, SecretName(ws, app)) && u.manifest == s.manifest
  {
    var src := PasswordSource(ws, s, app, entropy, blind);
    SourceShape(ws, s, app, entropy, blind);
    var f, cd := SourcePlan(ws, app, src), CredentialPlan(ws, s, app, src.pw) + TenantDbPlan(s, app);
    RunAppend(s, f, cd);
    var s1 := Run(s, f).value;
    FileLeavesCluster(ws, s, app, src, f, s1);
    SameServerPlan(ws, s, s1, app, src.pw);
    InClusterResult(ws, s1, app, src.pw, u);
    FilePartHolds(ws, s, app, src, s1);
    ClusterPartKeepsFiles(ws, s, app, src.pw, s1, u);
    KeptThrough(s, s1, u, u, SecretName(ws, app));
    ServerAvoidsManifest(ws, s, app, src);
    UntouchedStays(s, f + cd, TheManifest);
  }

  lemma SameServerPlan(ws: Workspace, s: Stores, t: Stores, app: string, pw: string)
    requires s.secrets == t.secrets && s.dbs == t.dbs
    ensures CredentialPlan(ws, s, app, pw) + TenantDbPlan(s, app) == CredentialPlan(ws, t, app, pw) + TenantDbPlan(t, app)
    ensures ObjectsOf(s, app) == ObjectsOf(t, app)
  {
  }

  /** Everything but the role password, after a whole plan. */
  lemma ProvisionResult(ws: Workspace, s: Stores, app: string, entropy: Entropy, blind: bool, t: Stores)
    requires Resolved(ws) && Names.IdentSafe(app)
    requires var src := PasswordSource(ws, s, app, entropy, blind);
             !src.Unreadable? && Run(s, ProvisionPlan(ws, s, app, src)) == Some(t)
    ensures var pw := PasswordSource(ws, s, app, entropy, blind).pw;
            && FileHolds(t, ws, app, pw) && SecretHolds(t, ws, app, pw)
            && app in t.roles && t.roles[app] && DatabaseReady(t, app) && EntryDeclared(t, app)
            && t.dbs[app].objects == ObjectsOf(s, app)
    ensures SecretKept(s, t, SecretName(ws, app)) && EntryKept(s, t, ws, app)
  {
    var src := PasswordSource(ws, s, app, entropy, blind);
    var server, e := ServerPlan(ws, s, app, src), EntryPlan(s, ws, app);
    RunAppend(s, server, e);
    var u := Run(s, server).value;
    ServerResult(ws, s, app, entropy, blind, u);
    EntryPartKeeps(ws, s, app, u, t);
    SameEntryPlan(ws, s, u, app);
    EntryPlanDeclares(ws, u, app, t);
    KeptThrough(s, s, u, t, SecretName(ws, app));
    SameEntryKept(s, u, t, ws, app);
  }

  lemma SameEntryKept(s: Stores, u: Stores, t: Stores, ws: Workspace, app: string)
    requires s.manifest == u.manifest && EntryKept(u, t, ws, app)
    ensures EntryKept(s, t, ws, app)
  {
  }

  lemma FilePartHolds(ws: Workspace, s: Stores, app: string, src: Source, s1: Stores)
    requires Resolved(ws) && Names.IdentSafe(app) && !src.Unreadable?
    requires src.Fresh? ==> SecretYaml.Generated(src.pw)
    requires src.Existing? ==> FileHolds(s, ws, app, src.pw)
    requires Run(s, SourcePlan(ws, app, src)) == Some(s1)
    ensures FileHolds(s1, ws, app, src.pw)
  {
    if src.Fresh? {
      SecretYaml.GeneratedIsSafe(src.pw);
      WrittenFileHolds(ws, s, app, src.pw, s1);
    }
  }

  lemma ClusterPartKeepsFiles(ws: Workspace, s: Stores, app: string, pw: string, s1: Stores, s2: Stores)
    requires Run(s1, CredentialPlan(ws, s, app, pw) + TenantDbPlan(s, app)) == Some(s2)
    ensures s2.files == s1.files
  {
    var c, d := CredentialPlan(ws, s, app, pw), TenantDbPlan(s, app);
    CredentialAvoids(ws, s, app, pw, Files);
    TenantDbAvoids(s, app, Files);
    AvoidsAppend(c, d, Files);
    UntouchedStays(s1, c + d, Files);
  }

  lemma SameEntryPlan(ws: Workspace, s: Stores, t: Stores, app: string)
    requires s.manifest == t.manifest
    ensures EntryPlan(s, ws, app) == EntryPlan(t, ws, app)
  {
  }

  lemma EntryPartKeeps(ws: Workspace, s: Stores, app: string, s2: Stores, t: Stores)
    requires Run(s2, EntryPlan(s, ws, app)) == Some(t)
    ensures t.files == s2.files && t.secrets == s2.secrets && t.roles == s2.roles && t.dbs == s2.dbs
  {
    var e := EntryPlan(s, ws, app);
    EntryAvoids(ws, s, app, Files);
    EntryAvoids(ws, s, app, Secrets);
    EntryAvoids(ws, s, app, Roles);
    EntryAvoids(ws, s, app, Dbs);
    UntouchedStays(s2, e, Files);
    UntouchedStays(s2, e, Secrets);
    UntouchedStays(s2, e, Roles);
    UntouchedStays(s2, e, Dbs);
  }

  /** A command that leaves Secrets and roles alone. */
  predicate Settled(c: Command) {
    Secrets !in Touched(c) && Roles !in Touched(c)
  }

  /** Once Secret and role hold the same password, the operator and all settled commands keep it so. */
  lemma {:induction false} StaysSettled(ws: Workspace, s: State, app: string, pw: string, acts: seq<Act>)
    requires Exec(ws, s, acts).Some?
    requires SecretPassword(s.stores, ws, app, pw) && RoleHolds(s, app, pw)
    requires forall i :: 0 <= i < |Commands(acts)| ==> Settled(Commands(acts)[i])
    ensures RoleHolds(Exec(ws, s, acts).value, app, pw)
    decreases acts
  {
    if acts != [] {
      var u := Happen(ws, s, acts[0]).value;
      if acts[0].Did? {
        var c := acts[0].command;
        assert Commands(acts)[0] == c && Commands(acts)[1..] == Commands(acts[1..]);
        AppliedAway(s.stores, c, Secrets);
        AppliedAway(s.stores, c, Roles);
        assert SetPasswords(s.passwords, c) == s.passwords;
      } else {
        assert Commands(acts) == Commands(acts[1..]);
      }
      StaysSettled(ws, u, app, pw, acts[1..]);
    }
  }

  lemma AfterRoleSettles(ws: Workspace, s: Stores, app: string)
    ensures var rest := TenantDbPlan(s, app) + EntryPlan(s, ws, app); forall k :: 0 <= k < |rest| ==> Settled(rest[k])
  {
    var d, e := TenantDbPlan(s, app), EntryPlan(s, ws, app);
    TenantDbAvoids(s, app, Secrets);
    TenantDbAvoids(s, app, Roles);
    EntryAvoids(ws, s, app, Secrets);
    EntryAvoids(ws, s, app, Roles);
    AvoidsAppend(d, e, Secrets);
    AvoidsAppend(d, e, Roles);
  }

  /** By the time the role is written, the Secret holds the password. */
  lemma BeforeRole(ws: Workspace, s: Stores, app: string, src: Source, t: Stores)
    requires !src.Unreadable? && src.pw != "" && app != ""
    requires Run(s, SourcePlan(ws, app, src) + SecretPlan(s, SecretName(ws, app), app, src.pw)) == Some(t)
    ensures SecretHolds(t, ws, app, src.pw)
  {
    var f, secret := SourcePlan(ws, app, src), SecretPlan(s, SecretName(ws, app), app, src.pw);
    RunAppend(s, f, secret);
    var s1 := Run(s, f).value;
    FileLeavesCluster(ws, s, app, src, f, s1);
    SecretPlanHolds(s1, ws, app, src.pw, t);
  }

  lemma Regroup(f: seq<Command>, a: seq<Command>, c: seq<Command>, d: seq<Command>, e: seq<Command>)
    ensures f + ((a + c) + d) + e == (f + a) + c + (d + e)
  {
  }

  lemma RoleInPlan(ws: Workspace, s: Stores, app: string, src: Source)
    requires !src.Unreadable?
    ensures ProvisionPlan(ws, s, app, src)
         == SourcePlan(ws, app, src) + SecretPlan(s, SecretName(ws, app), app, src.pw) + [EnsureRole(app, src.pw)]
            + (TenantDbPlan(s, app) + EntryPlan(s, ws, app))
  {
    Regroup(SourcePlan(ws, app, src), SecretPlan(s, SecretName(ws, app), app, src.pw), [EnsureRole(app, src.pw)],
            TenantDbPlan(s, app), EntryPlan(s, ws, app));
  }

  lemma RoleSetOnce(ws: Workspace, s: State, app: string, pw: string)
    requires Happen(ws, s, Did(EnsureRole(app, pw))).Some? && SecretHolds(s.stores, ws, app, pw)
    ensures var t := Happen(ws, s, Did(EnsureRole(app, pw))).value;
            SecretHolds(t.stores, ws, app, pw) && RoleHolds(t, app, pw)
  {
  }

  /** The role password after a whole Provision plan, whatever the operator did in between. */
  lemma ProvisionRolePassword(ws: Workspace, s: State, app: string, src: Source, acts: seq<Act>)
    requires !src.Unreadable? && src.pw != "" && app != "" && Exec(ws, s, acts).Some?
    requires Commands(acts) == ProvisionPlan(ws, s.stores, app, src)
    ensures RoleHolds(Exec(ws, s, acts).value, app, src.pw)
  {
    var front := SourcePlan(ws, app, src) + SecretPlan(s.stores, SecretName(ws, app), app, src.pw);
    var rest := TenantDbPlan(s.stores, app) + EntryPlan(s.stores, ws, app);
    var c := EnsureRole(app, src.pw);
    RoleInPlan(ws, s.stores, app, src);
    var i := FindCommand(acts, front, c, rest);
    ExecAround(ws, s, acts, i);
    var before := Exec(ws, s, acts[..i]).value;
    OperatorOnlyTouchesPasswords(ws, s, acts[..i]);
    BeforeRole(ws, s.stores, app, src, before.stores);
    RoleSetOnce(ws, before, app, src.pw);
    AfterRoleSettles(ws, s.stores, app);
    StaysSettled(ws, Happen(ws, before, acts[i]).value, app, src.pw, acts[i + 1..]);
  }

  /**
   From every state, with any faults before and any operator steps in between: an attempt at Provision that
   returns nil leaves a fully provisioned tenant whose three passwords are the one in the returned DSN.
   */
  lemma ProvisionDelivers(ws: Workspace, s: State, app: string, entropy: Entropy, blind: bool, acts: seq<Act>,
                          r: Result<Tenant>)
    requires Resolved(ws) && Exec(ws, s, acts).Some?
    requires ProvisionAttempt(ws, s, app, entropy, blind, acts, r) && r.Ok?
    ensures Provisioned(ws, Exec(ws, s, acts).value, app, r.value.dsn.password)
    ensures Describes(r.value, ws, app, r.value.dsn.password)
    ensures Exec(ws, s, acts).value.stores.dbs[app].objects == ObjectsOf(s.stores, app)
    ensures SecretKept(s.stores, Exec(ws, s, acts).value.stores, SecretName(ws, app))
    ensures EntryKept(s.stores, Exec(ws, s, acts).value.stores, ws, app)
  {
    var src := PasswordSource(ws, s.stores, app, entropy, blind);
    SourceShape(ws, s.stores, app, entropy, blind);
    OperatorOnlyTouchesPasswords(ws, s, acts);
    ProvisionResult(ws, s.stores, app, entropy, blind, Exec(ws, s, acts).value.stores);
    ProvisionRolePassword(ws, s, app, src, acts);
  }
}
