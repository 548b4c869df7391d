/**
 The five stores a tenant is spread over, plus the CNPG clusters of the namespace, and the commands that change
 them. A command either takes effect at once or is refused by the service that receives it.
 */
module Stores {
  import opened Strings
  import Names
  import Manifest
  import opened Paths

  datatype Privilege = Connect | SchemaPublic | FutureTables | FutureSequences

  /** `objects` stands for the contents, in the order a dump lists them. */
  datatype Database = Database(owner: string, objects: seq<string>, grants: set<(Privilege, string)>)

  datatype Secret = Secret(kind: string, data: map<string, string>)

  /** A base backup with an optional recovery target time. */
  datatype RecoveryPoint = RecoveryPoint(backupID: string, target: Option<int>)

  /** The databases a recovered cluster serves. */
  type Image = map<string, seq<string>>

  /** Everything but the role passwords; `roles` maps a role to its LOGIN attribute. */
  datatype Stores = Stores(
    roles: map<string, bool>, dbs: map<string, Database>, secrets: map<string, Secret>, files: map<string, string>,
    manifest: Option<Manifest.Node>, clusters: map<string, Image>, archive: map<RecoveryPoint, Image>)

  /** Role passwords are kept apart because the operator may rewrite them between any two calls. */
  datatype State = State(stores: Stores, passwords: map<string, string>)

  datatype Command =
    | PutFile(path: string, body: string)
    | RemoveFile(path: string)
    | CreateSecret(name: string, user: string, pw: string)
    | UpdateSecret(name: string, user: string, pw: string)
    | DeleteSecret(name: string)
    | EnsureRole(role: string, pw: string)
    | AlterRole(role: string, pw: string)
    | DropRole(role: string)
    | CheckDb(db: string)
    | CreateDb(db: string, owner: string)
    | AlterDbOwner(db: string, owner: string)
    | DropDb(db: string)
    | Grant(db: string, privilege: Privilege, role: string)
    | AddObject(db: string, object_: string)
    | AppendEntry(entry: Manifest.Role)
    | RemoveEntry(role: string)
    | Tear(debris: Option<Manifest.Node>)
    | CreateCluster(cluster: string, point: RecoveryPoint)
    | CheckReachable(cluster: string, db: string)
    | DeleteCluster(cluster: string)

  const SUPERUSER_DB := "postgres"

  const BASIC_AUTH := "kubernetes.io/basic-auth"

  function Credentials(data: map<string, string>, user: string, pw: string): map<string, string> {
    data["username" := user]["password" := pw]
  }

  function Get(data: map<string, string>, key: string): string {
    if key in data then data[key] else ""
  }

  predicate RoleInUse(s: Stores, role: string) {
    exists d :: d in s.dbs && (s.dbs[d].owner == role || exists g :: g in s.dbs[d].grants && g.1 == role)
  }

  function WithManifest(s: Stores, r: Manifest.Outcome): Option<Stores> {
    if r.Patched? then Some(s.(manifest := Some(r.doc))) else None
  }

  /** What a command does to the stores; None when the service refuses it and nothing happens. */
  function Apply(s: Stores, c: Command): Option<Stores> {
    match c
    case PutFile(path, body) => Some(s.(files := s.files[path := body]))
    case RemoveFile(path) => Some(s.(files := s.files - {path}))
    case CreateSecret(name, user, pw) =>
      if name in s.secrets || !Names.DnsSubdomain(name) then None
      else Some(s.(secrets := s.secrets[name := Secret(BASIC_AUTH, Credentials(map[], user, pw))]))
    case UpdateSecret(name, user, pw) =>
      if name !in s.secrets then None
      else Some(s.(secrets := s.secrets[name := s.secrets[name].(data := Credentials(s.secrets[name].data, user, pw))]))
    case DeleteSecret(name) => Some(s.(secrets := s.secrets - {name}))
    case EnsureRole(role, pw) =>
      // a password with $$ ends the DO block early: see Sql.EnsureRoleBlockEnds
      if Contains(pw, "$$") then None else Some(s.(roles := s.roles[role := true]))
    case AlterRole(role, pw) => if role !in s.roles then None else Some(s.(roles := s.roles[role := true]))
    case DropRole(role) => if RoleInUse(s, role) then None else Some(s.(roles := s.roles - {role}))
    case CheckDb(db) => if db in s.dbs then Some(s) else None
    case CreateDb(db, owner) =>
      if db in s.dbs || owner !in s.roles then None else Some(s.(dbs := s.dbs[db := Database(owner, [], {})]))
    case AlterDbOwner(db, owner) =>
      if db !in s.dbs || owner !in s.roles then None else Some(s.(dbs := s.dbs[db := s.dbs[db].(owner := owner)]))
    case DropDb(db) => if db == SUPERUSER_DB then None else Some(s.(dbs := s.dbs - {db}))
    case Grant(db, privilege, role) =>
      if db !in s.dbs || role !in s.roles then None
      else Some(s.(dbs := s.dbs[db := s.dbs[db].(grants := s.dbs[db].grants + {(privilege, role)})]))
    case AddObject(db, object_) =>
      if db !in s.dbs || db !in s.roles then None
      else Some(s.(dbs := s.dbs[db := s.dbs[db].(objects := s.dbs[db].objects + [object_])]))
    case AppendEntry(entry) =>
      if s.manifest.None? then None else WithManifest(s, Manifest.Appended(s.manifest.value, entry))
    case RemoveEntry(role) =>
      if s.manifest.None? then None else WithManifest(s, Manifest.Removed(s.manifest.value, role))
    case Tear(debris) => Some(s.(manifest := debris))
    case CreateCluster(cluster, point) =>
      if cluster in s.clusters then None
      else Some(s.(clusters := s.clusters[cluster := if point in s.archive then s.archive[point] else map[]]))
    case CheckReachable(cluster, db) => if cluster in s.clusters && db in s.clusters[cluster] then Some(s) else None
    case DeleteCluster(cluster) =>
      if cluster !in s.clusters then None else Some(s.(clusters := s.clusters - {cluster}))
  }

  function SetPasswords(passwords: map<string, string>, c: Command): map<string, string> {
    match c
    case EnsureRole(role, pw) => passwords[role := pw]
    case AlterRole(role, pw) => passwords[role := pw]
    case DropRole(role) => passwords - {role}
    case _ => passwords
  }

  /** The commands in order; None as soon as one of them is refused. */
  function Run(s: Stores, cs: seq<Command>): Option<Stores>
    decreases cs
  {
    if cs == [] then Some(s)
    else
      var r := Apply(s, cs[0]);
      if r.None? then None else Run(r.value, cs[1..])
  }

  // ----- what happens to the world: effects, operator steps, and calls that reported an error

  datatype Act = Did(command: Command) | Reconciled(role: string) | Failed(commands: seq<Command>)

  /** The operator copies a role's password from its Secret. */
  function Reconcile(ws: Workspace, s: State, role: string): State {
    var name := SecretName(ws, role);
    if role in s.stores.roles && name in s.stores.secrets && "password" in s.stores.secrets[name].data
    then s.(passwords := s.passwords[role := s.stores.secrets[name].data["password"]])
    else s
  }

  function Happen(ws: Workspace, s: State, a: Act): Option<State> {
    match a
    case Did(c) =>
      var r := Apply(s.stores, c);
      if r.None? then None else Some(State(r.value, SetPasswords(s.passwords, c)))
    case Reconciled(role) => Some(Reconcile(ws, s, role))
    case Failed(_) => Some(s)
  }

  function Exec(ws: Workspace, s: State, acts: seq<Act>): Option<State>
    decreases acts
  {
    if acts == [] then Some(s)
    else
      var r := Happen(ws, s, acts[0]);
      if r.None? then None else Exec(ws, r.value, acts[1..])
  }

  function CommandOf(a: Act): seq<Command> {
    if a.Did? then [a.command] else []
  }

  /** The commands that took effect, without what the operator did in between. */
  function Commands(acts: seq<Act>): seq<Command> {
    if acts == [] then [] else CommandOf(acts[0]) + Commands(acts[1..])
  }

  lemma {:induction false} CommandsAppend(a: seq<Act>, b: seq<Act>)
    ensures Commands(a + b) == Commands(a) + Commands(b)
  {
    if a == [] {
      assert a + b == b;
    } else {
      CommandsAppend(a[1..], b);
      assert (a + b)[0] == a[0] && (a + b)[1..] == a[1..] + b;
      ConsAppend(CommandOf(a[0]), Commands(a[1..]), Commands(b));
    }
  }

  lemma {:induction false} RunAppend(s: Stores, a: seq<Command>, b: seq<Command>)
    ensures Run(s, a + b) == if Run(s, a).None? then None else Run(Run(s, a).value, b)
    decreases a
  {
    if a == [] {
      assert a + b == b;
    } else {
      assert (a + b)[0] == a[0] && (a + b)[1..] == a[1..] + b;
      if Apply(s, a[0]).Some? {
        RunAppend(Apply(s, a[0]).value, a[1..], b);
      }
    }
  }

  lemma {:induction false} ExecAppend(ws: Workspace, s: State, a: seq<Act>, b: seq<Act>)
    ensures Exec(ws, s, a + b) == if Exec(ws, s, a).None? then None else Exec(ws, Exec(ws, s, a).value, b)
    decreases a
  {
    if a == [] {
      assert a + b == b;
    } else {
      assert (a + b)[0] == a[0] && (a + b)[1..] == a[1..] + b;
      if Happen(ws, s, a[0]).Some? {
        ExecAppend(ws, Happen(ws, s, a[0]).value, a[1..], b);
      }
    }
  }

  /**
   However the operator interleaves, everything but the role passwords is what the commands alone make of it.
   */
  lemma {:induction false} OperatorOnlyTouchesPasswords(ws: Workspace, s: State, acts: seq<Act>)
    requires Exec(ws, s, acts).Some?
    ensures Run(s.stores, Commands(acts)) == Some(Exec(ws, s, acts).value.stores)
    decreases acts
  {
    if acts != [] {
      var u := Happen(ws, s, acts[0]).value;
      OperatorOnlyTouchesPasswords(ws, u, acts[1..]);
      if acts[0].Did? {
        assert Commands(acts)[1..] == Commands(acts[1..]);
      } else {
        assert Commands(acts) == Commands(acts[1..]);
      }
    }
  }

  /** The moment at which a given command of the run took effect. */
  lemma {:induction false} FindCommand(acts: seq<Act>, before: seq<Command>, c: Command, after: seq<Command>)
    returns (i: nat)
    requires Commands(acts) == before + [c] + after
    ensures i < |acts| && acts[i] == Did(c)
    ensures Commands(acts[..i]) == before && Commands(acts[i + 1..]) == after
  {
    var rest := acts[1..];
    if acts[0].Did? && before == [] {
      i := 0;
      assert Commands(acts)[1..] == Commands(rest) == after;
      assert Commands(acts)[0] == acts[0].command;
    } else {
      var before' := if acts[0].Did? then before[1..] else before;
      assert Commands(rest) == before' + [c] + after by {
        if acts[0].Did? {
          assert Commands(acts)[1..] == Commands(rest);
        }
      }
      var j := FindCommand(rest, before', c, after);
      i := j + 1;
      assert acts[..i] == [acts[0]] + rest[..j];
      assert acts[..i][1..] == rest[..j];
      assert acts[i + 1..] == rest[j + 1..];
      if acts[0].Did? {
        assert Commands(acts)[0] == acts[0].command;
        assert before == [before[0]] + before';
      }
    }
  }

  /** The first act of a run. */
  lemma HappensFirst(ws: Workspace, s: State, a: Act, rest: seq<Act>)
    ensures Commands([a] + rest) == CommandOf(a) + Commands(rest)
    ensures Happen(ws, s, a).Some? ==> Exec(ws, s, [a] + rest) == Exec(ws, Happen(ws, s, a).value, rest)
  {
    assert ([a] + rest)[1..] == rest;
  }

  /** Commands that take effect one after the other with nothing in between. */
  function Straight(cs: seq<Command>): (acts: seq<Act>)
    ensures |acts| == |cs|
  {
    if cs == [] then [] else [Did(cs[0])] + Straight(cs[1..])
  }

  lemma {:induction false} StraightRun(ws: Workspace, s: State, cs: seq<Command>)
    ensures Commands(Straight(cs)) == cs
    ensures Run(s.stores, cs).Some? ==> Exec(ws, s, Straight(cs)).Some?
    decreases cs
  {
    if cs != [] {
      HappensFirst(ws, s, Did(cs[0]), Straight(cs[1..]));
      assert [cs[0]] + cs[1..] == cs;
      var u := if Happen(ws, s, Did(cs[0])).Some? then Happen(ws, s, Did(cs[0])).value else s;
      StraightRun(ws, u, cs[1..]);
    }
  }

  /** The commands before and after one that took effect. */
  lemma CommandsAround(acts: seq<Act>, i: nat)
    requires i < |acts| && acts[i].Did?
    ensures Commands(acts) == Commands(acts[..i]) + ([acts[i].command] + Commands(acts[i + 1..]))
  {
    assert acts == acts[..i] + acts[i..];
    CommandsAppend(acts[..i], acts[i..]);
    assert acts[i..][1..] == acts[i + 1..];
  }

  /** The state before and after one act of a run. */
  lemma ExecAround(ws: Workspace, s: State, acts: seq<Act>, i: nat)
    requires i < |acts| && Exec(ws, s, acts).Some?
    ensures Exec(ws, s, acts[..i]).Some?
    ensures Happen(ws, Exec(ws, s, acts[..i]).value, acts[i]).Some?
    ensures Exec(ws, Happen(ws, Exec(ws, s, acts[..i]).value, acts[i]).value, acts[i + 1..]) == Exec(ws, s, acts)
  {
    assert acts == acts[..i] + acts[i..];
    ExecAppend(ws, s, acts[..i], acts[i..]);
    assert acts[i..][1..] == acts[i + 1..];
  }

  // ----- which stores a command can change

  datatype Place = Roles | Dbs | Secrets | Files | TheManifest | Clusters

  function Touched(c: Command): set<Place> {
    match c
    case PutFile(_, _) => {Files}
    case RemoveFile(_) => {Files}
    case CreateSecret(_, _, _) => {Secrets}
    case UpdateSecret(_, _, _) => {Secrets}
    case DeleteSecret(_) => {Secrets}
    case EnsureRole(_, _) => {Roles}
    case AlterRole(_, _) => {Roles}
    case DropRole(_) => {Roles}
    case CheckDb(_) => {}
    case CreateDb(_, _) => {Dbs}
    case AlterDbOwner(_, _) => {Dbs}
    case DropDb(_) => {Dbs}
    case Grant(_, _, _) => {Dbs}
    case AddObject(_, _) => {Dbs}
    case AppendEntry(_) => {TheManifest}
    case RemoveEntry(_) => {TheManifest}
    case Tear(_) => {TheManifest}
    case CreateCluster(_, _) => {Clusters}
    case CheckReachable(_, _) => {}
    case DeleteCluster(_) => {Clusters}
  }

  predicate Agree(s: Stores, t: Stores, p: Place) {
    match p
    case Roles => s.roles == t.roles
    case Dbs => s.dbs == t.dbs
    case Secrets => s.secrets == t.secrets
    case Files => s.files == t.files
    case TheManifest => s.manifest == t.manifest
    case Clusters => s.clusters == t.clusters
  }

  /** No command of the list touches the place. */
  predicate Avoids(cs: seq<Command>, p: Place) {
    forall i :: 0 <= i < |cs| ==> p !in Touched(cs[i])
  }

  /** No manifest write was torn. */
  predicate NoTear(cs: seq<Command>) {
    forall i :: 0 <= i < |cs| ==> !cs[i].Tear?
  }

  lemma AvoidsAppend(a: seq<Command>, b: seq<Command>, p: Place)
    ensures Avoids(a + b, p) <==> Avoids(a, p) && Avoids(b, p)
  {
    assert forall i :: 0 <= i < |a| ==> (a + b)[i] == a[i];
    assert forall i :: 0 <= i < |b| ==> (a + b)[|a| + i] == b[i];
  }

  lemma AppliedAway(s: Stores, c: Command, p: Place)
    requires Apply(s, c).Some? && p !in Touched(c)
    ensures Agree(s, Apply(s, c).value, p)
  {
  }

  lemma ArchiveStays(s: Stores, c: Command)
    requires Apply(s, c).Some?
    ensures Apply(s, c).value.archive == s.archive
  {
  }

  lemma AgreeTrans(s: Stores, t: Stores, u: Stores, p: Place)
    requires Agree(s, t, p) && Agree(t, u, p)
    ensures Agree(s, u, p)
  {
  }

  lemma {:induction false} UntouchedStays(s: Stores, cs: seq<Command>, p: Place)
    requires Run(s, cs).Some? && Avoids(cs, p)
    ensures Agree(s, Run(s, cs).value, p)
    ensures s.archive == Run(s, cs).value.archive
    decreases cs
  {
    if cs != [] {
      var u := Apply(s, cs[0]).value;
      AppliedAway(s, cs[0], p);
      ArchiveStays(s, cs[0]);
      UntouchedStays(u, cs[1..], p);
      AgreeTrans(s, u, Run(s, cs).value, p);
    }
  }
}
