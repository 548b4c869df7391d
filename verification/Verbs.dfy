/** The tenant verbs: ordered calls on the outside world, each proved to attempt its plan. */
module Verbs {
  import opened Strings
  import Names
  import Manifest
  import SecretYaml
  import opened Paths
  import opened Stores
  import opened Cluster
  import opened Plans

  // ----- the steps

  /** Calls that only read leave the commands where they were. */
  lemma NothingSent(was: seq<Command>, now: seq<Command>)
    requires was <= now && now[|was|..] <= []
    ensures now == was
  {
  }

  /** Encrypt in memory, then replace the file (writeSOPSSecret). */
  method WriteSecretFile(w: World, app: string, pw: string) returns (ok: bool)
    requires w.Valid()
    modifies w
    ensures w.Sent(FilePlan(w.ws, app, pw), ok)
  {
    ghost var was := Commands(w.acts);
    var body := SecretBody(w.ws, app, pw);
    ok := w.Ask();
    NothingSent(was, Commands(w.acts));
    if ok {
      ok := w.Send([PutFile(SecretPath(w.ws, app), body)]);
    }
  }

  method WriteFreshSecret(w: World, app: string, entropy: Entropy) returns (r: Result<string>)
    requires w.Valid()
    modifies w
    ensures w.Sent(FilePlan(w.ws, app, SecretYaml.GeneratePassword(entropy)), r.Ok?)
    ensures r.Ok? ==> r.value == SecretYaml.GeneratePassword(entropy)
  {
    ghost var was := Commands(w.acts);
    var drawn := w.Ask();
    NothingSent(was, Commands(w.acts));
    if !drawn {
      return Err;
    }
    var pw := SecretYaml.GeneratePassword(entropy);
    var written := WriteSecretFile(w, app, pw);
    r := if written then Ok(pw) else Err;
  }

  method ReadSecretFile(w: World, path: string) returns (r: Result<string>)
    requires w.Valid() && path in w.state.stores.files
    modifies w
    ensures w.Sent([], r.Ok? || SecretYaml.ParsedPassword(old(w.state.stores.files[path])).None?)
    ensures r.Ok? ==> SecretYaml.ParsedPassword(old(w.state.stores.files[path])) == Some(r.value)
  {
    var decrypted := w.Ask();
    if !decrypted {
      return Err;
    }
    var pw := SecretYaml.ParseSecretPassword(w.state.stores.files[path]);
    r := if pw.None? then Err else Ok(pw.value);
  }

  /** The file part: reuse the password of an existing file, else write a file with a fresh one. */
  method EnsureSecretFile(w: World, app: string, entropy: Entropy)
    returns (r: Result<string>, ghost blind: bool, ghost src: Source)
    requires w.Valid()
    modifies w
    ensures src == PasswordSource(w.ws, old(w.state.stores), app, entropy, blind)
    ensures w.Sent(SourcePlan(w.ws, app, src), r.Ok? || src.Unreadable?)
    ensures r.Ok? ==> !src.Unreadable? && r.value == src.pw
    ensures old(Calm(w.script)) ==> !blind
  {
    var path := SecretPath(w.ws, app);
    ghost var s, was := w.state.stores, Commands(w.acts);
    var found := w.Ask();
    NothingSent(was, Commands(w.acts));
    blind := !found;
    src := PasswordSource(w.ws, s, app, entropy, blind);
    if found && path in w.state.stores.files {
      r := ReadSecretFile(w, path);
    } else {
      r := WriteFreshSecret(w, app, entropy);
    }
  }

  /** Get, then Create, Update or nothing. */
  method ApplyClusterSecret(w: World, name: string, user: string, pw: string) returns (ok: bool)
    requires w.Valid()
    modifies w
    ensures w.Sent(SecretPlan(old(w.state.stores), name, user, pw), ok)
  {
    ghost var was := Commands(w.acts);
    var got := w.Ask();
    assert Commands(w.acts)[|was|..] == [];
    if !got {
      return false;
    }
    var secrets := w.state.stores.secrets;
    if name !in secrets {
      ok := w.Send([CreateSecret(name, user, pw)]);
      return;
    }
    if Get(secrets[name].data, "password") == pw && Get(secrets[name].data, "username") == user {
      return true;
    }
    ok := w.Send([UpdateSecret(name, user, pw)]);
  }

  /** One DO block: CREATE ROLE, or ALTER ROLE when it exists. */
  method EnsureRoleExists(w: World, role: string, pw: string) returns (ok: bool)
    requires w.Valid()
    modifies w
    ensures w.Sent([EnsureRole(role, pw)], ok)
  {
    ok := w.Send([EnsureRole(role, pw)]);
  }

  method EnsureDatabase(w: World, db: string) returns (ok: bool)
    requires w.Valid()
    modifies w
    ensures w.Sent(DatabasePlan(old(w.state.stores), db), ok)
    ensures OnlyBlamed(old(w.acts), w.acts, DatabasePlan(old(w.state.stores), db))
  {
    ghost var was := Commands(w.acts);
    var asked := w.Ask();
    assert Commands(w.acts)[|was|..] == [];
    if !asked {
      return false;
    }
    if db !in w.state.stores.dbs {
      ok := w.Send([CreateDb(db, db)]);
    } else {
      ok := w.Send([AlterDbOwner(db, db)]);
    }
  }

  /** Two scripts: one grant, then three statements run one after the other. */
  method EnsureGrants(w: World, app: string) returns (ok: bool)
    requires w.Valid()
    modifies w
    ensures w.Sent(GrantPlan(app), ok)
    ensures OnlyBlamed(old(w.acts), w.acts, GrantPlan(app))
  {
    ghost var was, s, c0 := Commands(w.acts), w.state.stores, Calm(w.script);
    var connect := [Grant(app, Connect, app)];
    var schema := [Grant(app, SchemaPublic, app), Grant(app, FutureTables, app), Grant(app, FutureSequences, app)];
    ok := w.Send(connect);
    if !ok {
      ProgressStops(was, Commands(w.acts), s, w.state.stores, connect, schema, c0, Calm(w.script));
      return;
    }
    ghost var mid, t, c1 := Commands(w.acts), w.state.stores, Calm(w.script);
    ghost var first := w.acts;
    ok := w.Send(schema);
    BlameChains(old(w.acts), first, w.acts, connect, schema);
    ProgressChains(was, mid, Commands(w.acts), s, t, w.state.stores, connect, schema, ok, c0, c1, Calm(w.script));
  }

  // ----- Provision

  /** Secret, then role. */
  method EnsureCredentials(w: World, app: string, pw: string) returns (ok: bool)
    requires w.Valid()
    modifies w
    ensures w.Sent(CredentialPlan(w.ws, old(w.state.stores), app, pw), ok)
  {
    ghost var was, s, c0 := Commands(w.acts), w.state.stores, Calm(w.script);
    ghost var secret, role := SecretPlan(s, SecretName(w.ws, app), app, pw), [EnsureRole(app, pw)];
    ok := ApplyClusterSecret(w, SecretName(w.ws, app), app, pw);
    if !ok {
      ProgressStops(was, Commands(w.acts), s, w.state.stores, secret, role, c0, Calm(w.script));
      return;
    }
    ghost var mid, t, c1 := Commands(w.acts), w.state.stores, Calm(w.script);
    ok := EnsureRoleExists(w, app, pw);
    ProgressChains(was, mid, Commands(w.acts), s, t, w.state.stores, secret, role, ok, c0, c1, Calm(w.script));
  }

  /** Database, then grants. */
  method EnsureTenantDatabase(w: World, app: string) returns (ok: bool)
    requires w.Valid()
    modifies w
    ensures w.Sent(TenantDbPlan(old(w.state.stores), app), ok)
  {
    ghost var was, s, c0 := Commands(w.acts), w.state.stores, Calm(w.script);
    ghost var db, grants := DatabasePlan(s, app), GrantPlan(app);
    ok := EnsureDatabase(w, app);
    if !ok {
      ProgressStops(was, Commands(w.acts), s, w.state.stores, db, grants, c0, Calm(w.script));
      return;
    }
    ghost var mid, t, c1 := Commands(w.acts), w.state.stores, Calm(w.script);
    ok := EnsureGrants(w, app);
    ProgressChains(was, mid, Commands(w.acts), s, t, w.state.stores, db, grants, ok, c0, c1, Calm(w.script));
  }

  lemma CredentialsLeaveDbs(ws: Workspace, s: Stores, app: string, pw: string, cs: seq<Command>, t: Stores)
    requires cs == CredentialPlan(ws, s, app, pw) && Run(s, cs) == Some(t)
    ensures TenantDbPlan(t, app) == TenantDbPlan(s, app)
  {
    CredentialAvoids(ws, s, app, pw, Dbs);
    UntouchedStays(s, cs, Dbs);
  }

  lemma FileLeavesCluster(ws: Workspace, s: Stores, app: string, src: Source, cs: seq<Command>, t: Stores)
    requires cs == SourcePlan(ws, app, src) && Run(s, cs) == Some(t)
    ensures t.secrets == s.secrets && t.dbs == s.dbs
  {
    SourceAvoids(ws, app, src, Secrets);
    UntouchedStays(s, cs, Secrets);
    SourceAvoids(ws, app, src, Dbs);
    UntouchedStays(s, cs, Dbs);
  }

  /** Everything that happens in the cluster: credentials, then database. */
  method EnsureInCluster(w: World, app: string, pw: string) returns (ok: bool)
    requires w.Valid()
    modifies w
    ensures w.Sent(CredentialPlan(w.ws, old(w.state.stores), app, pw) + TenantDbPlan(old(w.state.stores), app), ok)
  {
    ghost var was, s, c0 := Commands(w.acts), w.state.stores, Calm(w.script);
    ghost var c, d := CredentialPlan(w.ws, s, app, pw), TenantDbPlan(s, app);
    ok := EnsureCredentials(w, app, pw);
    if !ok {
      ProgressStops(was, Commands(w.acts), s, w.state.stores, c, d, c0, Calm(w.script));
      return;
    }
    ghost var mid, t, c1 := Commands(w.acts), w.state.stores, Calm(w.script);
    CredentialsLeaveDbs(w.ws, s, app, pw, mid[|was|..], t);
    ok := EnsureTenantDatabase(w, app);
    ProgressChains(was, mid, Commands(w.acts), s, t, w.state.stores, c, d, ok, c0, c1, Calm(w.script));
  }

  /** All steps of Provision up to the manifest. */
  function ServerPlan(ws: Workspace, s: Stores, app: string, src: Source): seq<Command>
    requires !src.Unreadable?
  {
    SourcePlan(ws, app, src) + (CredentialPlan(ws, s, app, src.pw) + TenantDbPlan(s, app))
  }

  method ProvisionServer(w: World, app: string, entropy: Entropy)
    returns (r: Result<string>, ghost blind: bool, ghost src: Source)
    requires w.Valid()
    modifies w
    ensures src == PasswordSource(w.ws, old(w.state.stores), app, entropy, blind)
    ensures src.Unreadable? ==> w.Sent([], true) && r.Err?
    ensures !src.Unreadable? ==> w.Sent(ServerPlan(w.ws, old(w.state.stores), app, src), r.Ok?)
    ensures r.Ok? ==> r.value == src.pw
    ensures old(Calm(w.script)) ==> !blind
  {
    ghost var was, s, c0 := Commands(w.acts), w.state.stores, Calm(w.script);
    r, blind, src := EnsureSecretFile(w, app, entropy);
    if r.Err? {
      if !src.Unreadable? {
        ProgressStops(was, Commands(w.acts), s, w.state.stores, SourcePlan(w.ws, app, src),
                      CredentialPlan(w.ws, s, app, src.pw) + TenantDbPlan(s, app), c0, Calm(w.script));
      }
      return;
    }
    ghost var f, rest := SourcePlan(w.ws, app, src), CredentialPlan(w.ws, s, app, src.pw) + TenantDbPlan(s, app);
    ghost var mid, t, c1 := Commands(w.acts), w.state.stores, Calm(w.script);
    FileLeavesCluster(w.ws, s, app, src, mid[|was|..], t);
    var ok := EnsureInCluster(w, app, r.value);
    ProgressChains(was, mid, Commands(w.acts), s, t, w.state.stores, f, rest, ok, c0, c1, Calm(w.script));
    if !ok {
      r := Err;
    }
  }

  /** A verb that ends with a manifest edit which may find its work already done. */
  lemma EndsWithEdit(acts: seq<Act>, server: seq<Command>, s: Stores, u: Stores, t: Stores, c: Command, r: Patch)
    requires Run(s, server) == Some(u) && EditsManifest(c)
    requires EditOutcome(server, Commands(acts), u, t, c, r)
    ensures var edit := if AlreadyDeclared(u, c) then [] else [c];
            && Attempted(acts, server + edit, !r.PatchFailed?)
            && (Run(s, server + edit).Some? <==> Editable(u, c))
  {
    var cs := Commands(acts);
    var edit := if AlreadyDeclared(u, c) then [] else [c];
    assert cs == server + cs[|server|..];
    RunAppend(s, server, edit);
    RunOne(u, c);
    EditIsApplied(u, c);
    assert server + [] == server;
    if cs == server + [c] {
      assert cs[|server|..] == [c];
    }
  }

  lemma ServerLeavesManifest(ws: Workspace, s: Stores, app: string, src: Source, cs: seq<Command>, t: Stores)
    requires !src.Unreadable? && cs == ServerPlan(ws, s, app, src) && Run(s, cs) == Some(t)
    ensures t.manifest == s.manifest
  {
    ServerAvoidsManifest(ws, s, app, src);
    UntouchedStays(s, cs, TheManifest);
  }

  /** tenant.Provision. */
  method Provision(w: World, app: string, entropy: Entropy) returns (r: Result<Tenant>, ghost blind: bool)
    requires w.Valid()
    modifies w
    ensures w.Valid() && w.base == old(w.state)
    ensures ProvisionAttempt(w.ws, w.base, app, entropy, blind, w.acts, r)
    ensures old(Calm(w.script)) ==>
      Calm(w.script) && !blind && (r.Ok? <==> Provisionable(w.ws, w.base.stores, app, entropy))
    ensures !Names.IdentSafe(app) ==> r.Err? && w.state == old(w.state)
    ensures r.Ok? ==> Describes(r.value, w.ws, app, r.value.dsn.password)
  {
    w.Begin();
    blind := false;
    if !Names.IdentSafe(app) {
      return Err, blind;
    }
    ghost var src;
    var pw;
    pw, blind, src := ProvisionServer(w, app, entropy);
    ghost var u, server := w.state.stores, Commands(w.acts);
    assert server[0..] == server;
    if pw.Err? {
      ProvisionStopsEarly(w.ws, w.base, app, src, w.acts);
      return Err, blind;
    }
    var entry := Manifest.Role(app, app + " application user", SecretName(w.ws, app));
    var patched := w.PatchManifest(AppendEntry(entry));
    ProvisionEnds(w.ws, w.base, app, src, server, u, w.state.stores, w.acts, patched);
    r := if patched.PatchFailed? then Err
         else Ok(Tenant(app, app, app, SecretName(w.ws, app),
                        Dsn(w.ws.serviceName, app, pw.value, w.ws.namespace, app)));
  }

  lemma ProvisionEnds(ws: Workspace, s: State, app: string, src: Source, server: seq<Command>, u: Stores, t: Stores,
                      acts: seq<Act>, r: Patch)
    requires !src.Unreadable? && server == ServerPlan(ws, s.stores, app, src) && Run(s.stores, server) == Some(u)
    requires EditOutcome(server, Commands(acts), u, t, AppendEntry(Entry(ws, app)), r)
    ensures Attempted(acts, ProvisionPlan(ws, s.stores, app, src), !r.PatchFailed?)
    ensures Run(s.stores, ProvisionPlan(ws, s.stores, app, src)).Some? <==> Editable(u, AppendEntry(Entry(ws, app)))
  {
    ServerLeavesManifest(ws, s.stores, app, src, server, u);
    EndsWithEdit(acts, server, s.stores, u, t, AppendEntry(Entry(ws, app)), r);
  }

  lemma ProvisionStopsEarly(ws: Workspace, s: State, app: string, src: Source, acts: seq<Act>)
    requires !src.Unreadable? ==> Commands(acts) <= ServerPlan(ws, s.stores, app, src)
    ensures !src.Unreadable? ==>
      && Attempted(acts, ProvisionPlan(ws, s.stores, app, src), false)
      && (Run(s.stores, ServerPlan(ws, s.stores, app, src)).None? ==>
            Run(s.stores, ProvisionPlan(ws, s.stores, app, src)).None?)
  {
    if !src.Unreadable? {
      RunAppend(s.stores, ServerPlan(ws, s.stores, app, src), EntryPlan(s.stores, ws, app));
    }
  }

  /** Provision is bound to succeed: its file can be read and every service accepts its part of the plan. */
  predicate Provisionable(ws: Workspace, s: Stores, app: string, entropy: Entropy) {
    var src := PasswordSource(ws, s, app, entropy, false);
    Names.IdentSafe(app) && !src.Unreadable? && Run(s, ProvisionPlan(ws, s, app, src)).Some?
  }

  // ----- Rotate

  function RotateFront(ws: Workspace, s: Stores, app: string, pw: string): seq<Command> {
    [AlterRole(app, pw)] + SecretPlan(s, SecretName(ws, app), app, pw)
  }

  method RotateInCluster(w: World, app: string, pw: string) returns (ok: bool)
    requires w.Valid()
    modifies w
    ensures w.Sent(RotateFront(w.ws, old(w.state.stores), app, pw), ok)
  {
    ghost var was, s, c0 := Commands(w.acts), w.state.stores, Calm(w.script);
    ghost var role, secret := [AlterRole(app, pw)], SecretPlan(s, SecretName(w.ws, app), app, pw);
    ok := w.Send([AlterRole(app, pw)]);
    if !ok {
      ProgressStops(was, Commands(w.acts), s, w.state.stores, role, secret, c0, Calm(w.script));
      return;
    }
    ghost var mid, t, c1 := Commands(w.acts), w.state.stores, Calm(w.script);
    RunOne(s, AlterRole(app, pw));
    ok := ApplyClusterSecret(w, SecretName(w.ws, app), app, pw);
    ProgressChains(was, mid, Commands(w.acts), s, t, w.state.stores, role, secret, ok, c0, c1, Calm(w.script));
  }

  /** The role first, then the Secret, then the file. */
  method RotateCredentials(w: World, app: string, pw: string) returns (ok: bool)
    requires w.Valid()
    modifies w
    ensures w.Sent(RotatePlan(w.ws, old(w.state.stores), app, pw), ok)
  {
    ghost var was, s, c0 := Commands(w.acts), w.state.stores, Calm(w.script);
    ghost var front, file := RotateFront(w.ws, s, app, pw), FilePlan(w.ws, app, pw);
    ok := RotateInCluster(w, app, pw);
    if !ok {
      ProgressStops(was, Commands(w.acts), s, w.state.stores, front, file, c0, Calm(w.script));
      return;
    }
    ghost var mid, t, c1 := Commands(w.acts), w.state.stores, Calm(w.script);
    ok := WriteSecretFile(w, app, pw);
    ProgressChains(was, mid, Commands(w.acts), s, t, w.state.stores, front, file, ok, c0, c1, Calm(w.script));
  }

  /** tenant.Rotate. */
  method Rotate(w: World, app: string, entropy: Entropy, confirmed: bool) returns (r: Result<Tenant>)
    requires w.Valid()
    modifies w
    ensures w.Valid() && w.base == old(w.state)
    ensures RotateAttempt(w.ws, w.base, app, entropy, confirmed, w.acts, r)
    ensures old(Calm(w.script)) ==>
      (r.Ok? <==> Names.IdentSafe(app) && confirmed && app in w.base.stores.roles
                  && Run(w.base.stores, RotatePlan(w.ws, w.base.stores, app, SecretYaml.GeneratePassword(entropy))).Some?)
    ensures !Names.IdentSafe(app) || !confirmed ==> r.Err? && w.state == old(w.state)
    ensures r.Ok? ==> Describes(r.value, w.ws, app, SecretYaml.GeneratePassword(entropy))
    ensures app !in old(w.state.stores.roles) ==> r.Err? && w.state.stores == old(w.state.stores)
  {
    w.Begin();
    if !Names.IdentSafe(app) || !confirmed {
      return Err;
    }
    var asked := w.Ask();
    NothingSent([], Commands(w.acts));
    if !asked || app !in w.state.stores.roles {
      return Err;
    }
    var drawn := w.Ask();
    NothingSent([], Commands(w.acts));
    if !drawn {
      return Err;
    }
    var pw := SecretYaml.GeneratePassword(entropy);
    var ok := RotateCredentials(w, app, pw);
    assert Commands(w.acts)[0..] == Commands(w.acts);
    r := if !ok then Err
         else Ok(Tenant(app, app, app, SecretName(w.ws, app), Dsn(w.ws.serviceName, app, pw, w.ws.namespace, app)));
  }

  // ----- Drop

  /** Three calls in order. */
  method SendThree(w: World, a: Command, b: Command, c: Command) returns (ok: bool)
    requires w.Valid()
    modifies w
    ensures w.Sent([a] + [b] + [c], ok)
  {
    ghost var was, s, c0 := Commands(w.acts), w.state.stores, Calm(w.script);
    ok := w.Send([a]);
    if !ok {
      ProgressStops(was, Commands(w.acts), s, w.state.stores, [a], [b], c0, Calm(w.script));
      ProgressStops(was, Commands(w.acts), s, w.state.stores, [a] + [b], [c], c0, Calm(w.script));
      return;
    }
    ghost var mid, t, c1 := Commands(w.acts), w.state.stores, Calm(w.script);
    ok := w.Send([b]);
    ProgressChains(was, mid, Commands(w.acts), s, t, w.state.stores, [a], [b], ok, c0, c1, Calm(w.script));
    if !ok {
      ProgressStops(was, Commands(w.acts), s, w.state.stores, [a] + [b], [c], c0, Calm(w.script));
      return;
    }
    mid, t, c1 := Commands(w.acts), w.state.stores, Calm(w.script);
    ok := w.Send([c]);
    ProgressChains(was, mid, Commands(w.acts), s, t, w.state.stores, [a] + [b], [c], ok, c0, c1, Calm(w.script));
  }

  /**
   tenant.Drop. A Secret or file that is already gone counts as deleted, and a failing termination of open sessions,
   the first call, does not matter.
   */
  method Drop(w: World, app: string, confirmed: bool) returns (ok: bool)
    requires w.Valid()
    modifies w
    ensures w.Valid() && w.base == old(w.state)
    ensures DropAttempt(w.ws, w.base, app, confirmed, w.acts, ok)
    ensures old(Calm(w.script)) ==>
      (ok <==> Names.IdentSafe(app) && confirmed && Run(w.base.stores, DropPlan(w.ws, app)).Some?)
    ensures Calm(Later(old(w.script), 1)) ==>
      (ok <==> Names.IdentSafe(app) && confirmed && Run(w.base.stores, DropPlan(w.ws, app)).Some?)
    ensures !Names.IdentSafe(app) || !confirmed ==> !ok && w.state == old(w.state)
  {
    w.Begin();
    if !Names.IdentSafe(app) || !confirmed {
      return false;
    }
    var terminated := w.Ask();
    NothingSent([], Commands(w.acts));
    ok := SendThree(w, DropDb(app), DropRole(app), DeleteSecret(SecretName(w.ws, app)));
    ghost var front := [DropDb(app)] + [DropRole(app)] + [DeleteSecret(SecretName(w.ws, app))];
    assert Commands(w.acts)[0..] == Commands(w.acts);
    ghost var mid := Commands(w.acts);
    DropAcceptedWhen(w.ws, w.base.stores, app);
    if !ok {
      DropStops(w.ws, app, w.acts);
      return;
    }
    RemovalIsEdit(w.state.stores, app);
    var patched := w.PatchManifest(RemoveEntry(app));
    if !patched.PatchDone? {
      DropTears(w.ws, app, w.acts, mid, patched);
      return false;
    }
    ghost var edited := Commands(w.acts);
    RunOne(w.state.stores, RemoveFile(SecretPath(w.ws, app)));
    ok := w.Send([RemoveFile(SecretPath(w.ws, app))]);
    DropEnds(w.ws, app, w.acts, edited, ok);
  }

  lemma RemovalIsEdit(s: Stores, app: string)
    ensures Editable(s, RemoveEntry(app)) <==> Apply(s, RemoveEntry(app)).Some?
    ensures !AlreadyDeclared(s, RemoveEntry(app))
  {
  }

  /** The file removal is never refused. */
  lemma DropAcceptedWhen(ws: Workspace, s: Stores, app: string)
    ensures var front := [DropDb(app)] + [DropRole(app)] + [DeleteSecret(SecretName(ws, app))];
            Run(s, DropPlan(ws, app)).Some?
            <==> Run(s, front).Some? && Apply(Run(s, front).value, RemoveEntry(app)).Some?
  {
    var front := [DropDb(app)] + [DropRole(app)] + [DeleteSecret(SecretName(ws, app))];
    var edit, file := RemoveEntry(app), RemoveFile(SecretPath(ws, app));
    RunAppend(s, front + [edit], [file]);
    RunAppend(s, front, [edit]);
    if Run(s, front).Some? {
      RunOne(Run(s, front).value, edit);
      if Run(s, front + [edit]).Some? {
        RunOne(Run(s, front + [edit]).value, file);
      }
    }
  }

  lemma DropStops(ws: Workspace, app: string, acts: seq<Act>)
    requires Commands(acts) <= [DropDb(app)] + [DropRole(app)] + [DeleteSecret(SecretName(ws, app))]
    ensures Attempted(acts, DropPlan(ws, app), false)
  {
  }

  lemma DropTears(ws: Workspace, app: string, acts: seq<Act>, mid: seq<Command>, r: Patch)
    requires mid == [DropDb(app)] + [DropRole(app)] + [DeleteSecret(SecretName(ws, app))]
    requires mid <= Commands(acts) && !r.PatchDone?
    requires Commands(acts) == mid || Commands(acts) == mid + [RemoveEntry(app)]
             || (|Commands(acts)| == |mid| + 1 && Commands(acts)[|mid|].Tear?)
    ensures Attempted(acts, DropPlan(ws, app), false)
  {
    var cs := Commands(acts);
    if |cs| == |mid| + 1 {
      assert cs[..|cs| - 1] == mid;
      assert DropPlan(ws, app)[3] == RemoveEntry(app);
    }
  }

  lemma DropEnds(ws: Workspace, app: string, acts: seq<Act>, edited: seq<Command>, ok: bool)
    requires edited == [DropDb(app)] + [DropRole(app)] + [DeleteSecret(SecretName(ws, app))] + [RemoveEntry(app)]
    requires edited <= Commands(acts) && Commands(acts)[|edited|..] <= [RemoveFile(SecretPath(ws, app))]
    requires ok ==> Commands(acts) == edited + [RemoveFile(SecretPath(ws, app))]
    ensures Attempted(acts, DropPlan(ws, app), ok)
  {
    assert Commands(acts) == edited + Commands(acts)[|edited|..];
  }

  // ----- Sync and Branch

  /**
   pg_dump | pg_restore inside the primary's pod. The shell reports the status of pg_restore alone; that it fails on
   a stream pg_dump did not finish is an assumption, without which nil would say nothing about what was loaded.
   `leftover` is what a load into a filled database brings.
   */
  method PgDumpRestore(w: World, src: string, dst: string, leftover: seq<string>)
    returns (ok: bool, ghost loaded: seq<string>)
    requires w.Valid()
    modifies w
    ensures ObjectsOf(old(w.state.stores), dst) == [] ==> loaded == ObjectsOf(old(w.state.stores), src)
    ensures w.Sent(DumpPlan(src, dst, loaded), ok)
  {
    var objects := if ObjectsOf(w.state.stores, dst) == [] then ObjectsOf(w.state.stores, src) else leftover;
    loaded := objects;
    ok := w.Send([CheckDb(src)] + LoadPlan(dst, objects));
  }

  method LoadAndGrant(w: World, src: string, dst: string, leftover: seq<string>)
    returns (ok: bool, ghost loaded: seq<string>)
    requires w.Valid()
    modifies w
    ensures ObjectsOf(old(w.state.stores), dst) == [] ==> loaded == ObjectsOf(old(w.state.stores), src)
    ensures w.Sent(BranchTail(src, dst, loaded), ok)
  {
    ghost var was, s, c0 := Commands(w.acts), w.state.stores, Calm(w.script);
    ok, loaded := PgDumpRestore(w, src, dst, leftover);
    ghost var dump, grants := DumpPlan(src, dst, loaded), GrantPlan(dst);
    if !ok {
      ProgressStops(was, Commands(w.acts), s, w.state.stores, dump, grants, c0, Calm(w.script));
      return;
    }
    ghost var mid, t, c1 := Commands(w.acts), w.state.stores, Calm(w.script);
    ok := EnsureGrants(w, dst);
    ProgressChains(was, mid, Commands(w.acts), s, t, w.state.stores, dump, grants, ok, c0, c1, Calm(w.script));
  }

  /** Both checks, then the destination is dropped and created anew. */
  method RecreateDestination(w: World, src: string, dst: string) returns (ok: bool)
    requires w.Valid()
    modifies w
    ensures w.Sent(SyncFront(src, dst), ok)
  {
    ghost var was, s, c0 := Commands(w.acts), w.state.stores, Calm(w.script);
    ghost var front := [CheckDb(src)] + [CheckDb(dst)] + [DropDb(dst)];
    ok := SendThree(w, CheckDb(src), CheckDb(dst), DropDb(dst));
    if !ok {
      ProgressStops(was, Commands(w.acts), s, w.state.stores, front, [CreateDb(dst, dst)], c0, Calm(w.script));
      return;
    }
    ghost var mid, t, c1 := Commands(w.acts), w.state.stores, Calm(w.script);
    ok := w.Send([CreateDb(dst, dst)]);
    ProgressChains(was, mid, Commands(w.acts), s, t, w.state.stores, front, [CreateDb(dst, dst)], ok, c0, c1, Calm(w.script));
  }

  lemma RecreatedIsEmpty(s: Stores, src: string, dst: string, t: Stores)
    requires src != dst && Run(s, SyncFront(src, dst)) == Some(t)
    ensures src in s.dbs && dst in s.dbs && dst in s.roles
    ensures t == s.(dbs := s.dbs[dst := Database(dst, [], {})])
  {
    var s1 := s.(dbs := s.dbs - {dst});
    RunAppend(s, [CheckDb(src)] + [CheckDb(dst)] + [DropDb(dst)], [CreateDb(dst, dst)]);
    RunAppend(s, [CheckDb(src)] + [CheckDb(dst)], [DropDb(dst)]);
    RunAppend(s, [CheckDb(src)], [CheckDb(dst)]);
    RunOne(s, CheckDb(src));
    RunOne(s, CheckDb(dst));
    RunOne(s, DropDb(dst));
    RunOne(s1, CreateDb(dst, dst));
    assert (s.dbs - {dst})[dst := Database(dst, [], {})] == s.dbs[dst := Database(dst, [], {})];
  }

  /** tenant.Sync. */
  method Sync(w: World, src: string, dst: string, confirmed: bool) returns (ok: bool)
    requires w.Valid()
    modifies w
    ensures w.Valid() && w.base == old(w.state)
    ensures SyncAttempt(w.base, src, dst, confirmed, w.acts, ok)
    ensures old(Calm(w.script)) ==>
      (ok <==> Names.DatabaseNameSafe(src) && Names.IdentSafe(dst) && src != dst && confirmed
               && Run(w.base.stores, SyncPlan(src, dst, ObjectsOf(w.base.stores, src))).Some?)
    ensures !Names.DatabaseNameSafe(src) || !Names.IdentSafe(dst) || src == dst || !confirmed ==>
      !ok && w.state == old(w.state)
  {
    w.Begin();
    if !Names.DatabaseNameSafe(src) || !Names.IdentSafe(dst) || src == dst || !confirmed {
      return false;
    }
    ghost var s, c0 := w.base.stores, Calm(w.script);
    ghost var front, tail := SyncFront(src, dst), BranchTail(src, dst, ObjectsOf(s, src));
    ok := RecreateDestination(w, src, dst);
    if !ok {
      ProgressStops([], Commands(w.acts), s, w.state.stores, front, tail, c0, Calm(w.script));
    } else {
      ghost var mid, t, c1 := Commands(w.acts), w.state.stores, Calm(w.script);
      assert mid[0..] == front;
      RecreatedIsEmpty(s, src, dst, t);
      ghost var loaded;
      ok, loaded := LoadAndGrant(w, src, dst, []);
      ProgressChains([], mid, Commands(w.acts), s, t, w.state.stores, front, tail, ok, c0, c1, Calm(w.script));
    }
    assert Commands(w.acts)[0..] == Commands(w.acts);
  }

  lemma KeepsObjectsOnce(s: Stores, c: Command, db: string)
    requires Apply(s, c).Some? && !c.AddObject? && !c.DropDb?
    ensures ObjectsOf(Apply(s, c).value, db) == ObjectsOf(s, db)
  {
    if c.CreateDb? || c.AlterDbOwner? || c.Grant? {
      assert db in s.dbs ==> db in Apply(s, c).value.dbs;
    } else {
      AppliedAway(s, c, Dbs);
    }
  }

  lemma {:induction false} KeepsObjects(s: Stores, cs: seq<Command>, db: string)
    requires Run(s, cs).Some? && forall i :: 0 <= i < |cs| ==> !cs[i].AddObject? && !cs[i].DropDb?
    ensures ObjectsOf(Run(s, cs).value, db) == ObjectsOf(s, db)
    decreases cs
  {
    if cs != [] {
      KeepsObjectsOnce(s, cs[0], db);
      KeepsObjects(Apply(s, cs[0]).value, cs[1..], db);
    }
  }

  lemma ProvisionKeepsObjects(ws: Workspace, s: Stores, app: string, src: Source, db: string)
    requires !src.Unreadable? && Run(s, ProvisionPlan(ws, s, app, src)).Some?
    ensures ObjectsOf(Run(s, ProvisionPlan(ws, s, app, src)).value, db) == ObjectsOf(s, db)
  {
    ProvisionPlanKinds(ws, s, app, src);
    KeepsObjects(s, ProvisionPlan(ws, s, app, src), db);
  }

  lemma LongerPlan(acts: seq<Act>, a: seq<Command>, b: seq<Command>)
    requires Attempted(acts, a, false)
    ensures Attempted(acts, a + b, false)
  {
  }

  /** Branch is bound to succeed: so is Provision of the destination, and every service accepts the clone after it. */
  predicate Branchable(ws: Workspace, s: Stores, src: string, dst: string, entropy: Entropy, loaded: seq<string>) {
    && Names.DatabaseNameSafe(src) && src != dst && Provisionable(ws, s, dst, entropy)
    && Run(s, ProvisionPlan(ws, s, dst, PasswordSource(ws, s, dst, entropy, false)) + BranchTail(src, dst, loaded)).Some?
  }

  /** tenant.Branch; `made` is the tenant it returns, which may come beside an error of the clone. */
  method Branch(w: World, src: string, dst: string, entropy: Entropy, leftover: seq<string>)
    returns (r: Result<Tenant>, made: Option<Tenant>, ghost blind: bool, ghost loaded: seq<string>)
    requires w.Valid()
    modifies w
    ensures w.Valid() && w.base == old(w.state)
    ensures r.Ok? ==> made == Some(r.value)
    ensures made.Some? ==> Describes(made.value, w.ws, dst, made.value.dsn.password)
    ensures made.Some? ==>
      var from := PasswordSource(w.ws, w.base.stores, dst, entropy, blind);
      && !from.Unreadable? && made.value == TenantOf(w.ws, dst, from.pw)
      && ProvisionPlan(w.ws, w.base.stores, dst, from) <= Commands(w.acts)
    ensures BranchAttempt(w.ws, w.base, src, dst, entropy, blind, loaded, w.acts, r)
    ensures old(Calm(w.script)) ==>
      (r.Ok? <==> Branchable(w.ws, w.base.stores, src, dst, entropy, loaded))
    ensures !Names.DatabaseNameSafe(src) || !Names.IdentSafe(dst) || src == dst ==>
      r.Err? && made.None? && w.state == old(w.state)
  {
    w.Begin();
    made, blind, loaded := None, false, [];
    if !Names.DatabaseNameSafe(src) || !Names.IdentSafe(dst) || src == dst {
      return Err, made, blind, loaded;
    }
    r, blind := Provision(w, dst, entropy);
    ghost var s := w.base.stores;
    ghost var from := PasswordSource(w.ws, s, dst, entropy, blind);
    loaded := if ObjectsOf(s, dst) == [] then ObjectsOf(s, src) else leftover;
    if r.Err? {
      if !from.Unreadable? {
        LongerPlan(w.acts, ProvisionPlan(w.ws, s, dst, from), BranchTail(src, dst, loaded));
      }
      return;
    }
    made := Some(r.value);
    ghost var plan := ProvisionPlan(w.ws, s, dst, from);
    OperatorOnlyTouchesPasswords(w.ws, w.base, w.acts);
    ProvisionKeepsObjects(w.ws, s, dst, from, src);
    ProvisionKeepsObjects(w.ws, s, dst, from, dst);
    var ok;
    ghost var u := w.state.stores;
    ok, loaded := LoadAndGrant(w, src, dst, leftover);
    RunAppend(s, plan, BranchTail(src, dst, loaded));
    BranchEnds(w.acts, plan, BranchTail(src, dst, loaded), ok);
    if !ok {
      r := Err;
    }
  }

  lemma BranchEnds(acts: seq<Act>, plan: seq<Command>, tail: seq<Command>, ok: bool)
    requires plan <= Commands(acts) && Commands(acts)[|plan|..] <= tail
    requires ok ==> Commands(acts) == plan + tail
    ensures Attempted(acts, plan + tail, ok)
  {
    assert Commands(acts) == plan + Commands(acts)[|plan|..];
  }
}
