/** Drop over all its runs: the order in which a tenant's traces disappear. */
module Drops {
  import opened Strings
  import Manifest
  import opened Paths
  import opened Stores
  import opened Cluster
  import opened Plans
  import opened Agreement
  import opened Convergence

  /** Four of the five traces of a tenant, in the order Drop removes them; the manifest entry comes before the file. */
  predicate HasDatabase(s: Stores, app: string) { app in s.dbs }
  predicate HasRole(s: Stores, app: string) { app in s.roles }
  predicate HasSecret(ws: Workspace, s: Stores, app: string) { SecretName(ws, app) in s.secrets }
  predicate HasFile(ws: Workspace, s: Stores, app: string) { SecretPath(ws, app) in s.files }

  predicate Gone(ws: Workspace, s: Stores, app: string) {
    !HasDatabase(s, app) && !HasRole(s, app) && !HasSecret(ws, s, app) && !EntryDeclared(s, app) && !HasFile(ws, s, app)
  }

  function WithoutEntry(s: Stores, app: string): Option<Manifest.Node> {
    var r := Apply(s, RemoveEntry(app));
    if r.None? then s.manifest else r.value.manifest
  }

  /** The stores after k commands of a Drop. */
  function AfterDrop(ws: Workspace, s: Stores, app: string, k: nat): Stores {
    s.(dbs := if k >= 1 then s.dbs - {app} else s.dbs,
       roles := if k >= 2 then s.roles - {app} else s.roles,
       secrets := if k >= 3 then s.secrets - {SecretName(ws, app)} else s.secrets,
       manifest := if k >= 4 then WithoutEntry(s, app) else s.manifest,
       files := if k >= 5 then s.files - {SecretPath(ws, app)} else s.files)
  }

  lemma DropPlanAt(ws: Workspace, app: string)
    ensures var plan := DropPlan(ws, app);
            && |plan| == 5
            && plan[0] == DropDb(app) && plan[1] == DropRole(app) && plan[2] == DeleteSecret(SecretName(ws, app))
            && plan[3] == RemoveEntry(app) && plan[4] == RemoveFile(SecretPath(ws, app))
  {
  }

  lemma DropStep(ws: Workspace, s: Stores, app: string, k: nat, c: Command)
    requires k < 5 && c == DropPlan(ws, app)[k] && Apply(AfterDrop(ws, s, app, k), c).Some?
    ensures Apply(AfterDrop(ws, s, app, k), c).value == AfterDrop(ws, s, app, k + 1)
    ensures k == 3 ==> Apply(s, RemoveEntry(app)).Some?
  {
    DropPlanAt(ws, app);
  }

  lemma {:induction false} DropPrefix(ws: Workspace, s: Stores, app: string, k: nat)
    requires k <= 5 && Run(s, DropPlan(ws, app)[..k]).Some?
    ensures Run(s, DropPlan(ws, app)[..k]).value == AfterDrop(ws, s, app, k)
    ensures k >= 4 ==> Apply(s, RemoveEntry(app)).Some?
    decreases k
  {
    DropPlanAt(ws, app);
    if k > 0 {
      RunSnoc(s, DropPlan(ws, app), k - 1);
      DropPrefix(ws, s, app, k - 1);
      DropStep(ws, s, app, k - 1, DropPlan(ws, app)[k - 1]);
    }
  }

  lemma EntryRemoved(ws: Workspace, s: Stores, app: string, k: nat)
    requires app != "" && k >= 4 && Apply(s, RemoveEntry(app)).Some?
    ensures !EntryDeclared(AfterDrop(ws, s, app, k), app)
  {
    Manifest.RemoveListsOthers(s.manifest.value, app);
  }

  /** A Drop that returns nil leaves none of the five traces, from every state. */
  lemma DropDelivers(ws: Workspace, s: State, app: string, confirmed: bool, acts: seq<Act>)
    requires Exec(ws, s, acts).Some? && DropAttempt(ws, s, app, confirmed, acts, true)
    ensures Gone(ws, Exec(ws, s, acts).value.stores, app)
  {
    OperatorOnlyTouchesPasswords(ws, s, acts);
    WholeDrop(ws, s.stores, app, Commands(acts));
    EntryRemoved(ws, s.stores, app, 5);
  }

  lemma WholeDrop(ws: Workspace, s: Stores, app: string, cs: seq<Command>)
    requires cs == DropPlan(ws, app) && Run(s, cs).Some?
    ensures Run(s, cs).value == AfterDrop(ws, s, app, 5) && Apply(s, RemoveEntry(app)).Some?
  {
    DropPlanAt(ws, app);
    assert cs[..5] == cs;
    DropPrefix(ws, s, app, 5);
  }

  /** A later trace is only touched when every earlier one is gone. */
  predicate DropOrder(ws: Workspace, s: Stores, t: Stores, app: string) {
    && (HasDatabase(t, app) ==> t == s)
    && (HasRole(t, app) ==> t.roles == s.roles && t.secrets == s.secrets && t.manifest == s.manifest && t.files == s.files)
    && (HasSecret(ws, t, app) ==> t.secrets == s.secrets && t.manifest == s.manifest && t.files == s.files)
    && (EntryDeclared(t, app) ==> t.files == s.files)
  }

  /** Drop creates nothing. */
  predicate DropShrinks(ws: Workspace, s: Stores, t: Stores, app: string) {
    && (HasDatabase(t, app) ==> HasDatabase(s, app))
    && (HasRole(t, app) ==> HasRole(s, app))
    && (HasSecret(ws, t, app) ==> HasSecret(ws, s, app))
    && (HasFile(ws, t, app) ==> HasFile(ws, s, app))
  }

  lemma IdleRemoval<K, V>(m: map<K, V>, k: K)
    requires k !in m
    ensures m - {k} == m
  {
  }

  lemma StageOrder(ws: Workspace, s: Stores, app: string, k: nat)
    requires app != "" && k <= 5 && (k >= 4 ==> Apply(s, RemoveEntry(app)).Some?)
    ensures DropOrder(ws, s, AfterDrop(ws, s, app, k), app) && DropShrinks(ws, s, AfterDrop(ws, s, app, k), app)
  {
    if k >= 4 {
      EntryRemoved(ws, s, app, k);
    }
    if k >= 1 {
      assert !HasDatabase(AfterDrop(ws, s, app, k), app);
    }
  }

  /** A write of the manifest torn at Drop's fourth command: the first three traces are gone, the file is not touched. */
  lemma TornStageOrder(ws: Workspace, s: Stores, app: string, debris: Option<Manifest.Node>)
    ensures var t := AfterDrop(ws, s, app, 3).(manifest := debris);
            DropOrder(ws, s, t, app) && DropShrinks(ws, s, t, app)
  {
  }

  lemma StageEntry(ws: Workspace, s: Stores, app: string, k: nat)
    requires app != "" && (k >= 4 ==> Apply(s, RemoveEntry(app)).Some?)
    ensures EntryDeclared(AfterDrop(ws, s, app, k), app) ==> EntryDeclared(s, app)
  {
    if k >= 4 {
      EntryRemoved(ws, s, app, k);
    }
  }

  lemma TornAtEntry(ws: Workspace, app: string, cs: seq<Command>)
    requires Torn(cs, DropPlan(ws, app))
    ensures |cs| == 4 && cs[..3] == DropPlan(ws, app)[..3] && cs[3].Tear?
  {
    DropPlanAt(ws, app);
  }

  lemma TornDrop(ws: Workspace, s: Stores, app: string, cs: seq<Command>)
    requires Torn(cs, DropPlan(ws, app)) && Run(s, cs).Some?
    ensures Run(s, cs).value == AfterDrop(ws, s, app, 3).(manifest := cs[|cs| - 1].debris)
  {
    TornAtEntry(ws, app, cs);
    DropPlanAt(ws, app);
    assert cs[..4] == cs;
    RunSnoc(s, cs, 3);
    DropPrefix(ws, s, app, 3);
  }

  /** At every state an interrupted Drop can leave: the order holds, and nothing new has appeared. */
  lemma DropAttemptOrder(ws: Workspace, s: State, app: string, confirmed: bool, acts: seq<Act>, ok: bool)
    requires Exec(ws, s, acts).Some? && DropAttempt(ws, s, app, confirmed, acts, ok)
    ensures DropOrder(ws, s.stores, Exec(ws, s, acts).value.stores, app)
    ensures DropShrinks(ws, s.stores, Exec(ws, s, acts).value.stores, app)
    ensures NoTear(Commands(acts)) && EntryDeclared(Exec(ws, s, acts).value.stores, app) ==> EntryDeclared(s.stores, app)
  {
    var cs := Commands(acts);
    OperatorOnlyTouchesPasswords(ws, s, acts);
    if cs != [] {
      if cs <= DropPlan(ws, app) {
        assert cs == DropPlan(ws, app)[..|cs|];
        DropPlanAt(ws, app);
        DropPrefix(ws, s.stores, app, |cs|);
        StageOrder(ws, s.stores, app, |cs|);
        StageEntry(ws, s.stores, app, |cs|);
      } else {
        TornDrop(ws, s.stores, app, cs);
        TornStageOrder(ws, s.stores, app, cs[|cs| - 1].debris);
      }
    }
  }

  lemma RoleIsSecond(ws: Workspace, app: string, cs: seq<Command>, k: nat, role: string)
    requires k < |cs| && cs[k] == DropRole(role)
    requires cs <= DropPlan(ws, app) || Torn(cs, DropPlan(ws, app))
    ensures k == 1 && role == app && cs[..k] == DropPlan(ws, app)[..1]
  {
    DropPlanAt(ws, app);
    if !(cs <= DropPlan(ws, app)) {
      TornAtEntry(ws, app, cs);
      assert cs[..3][k] == cs[k];
      assert cs[..3][..1] == cs[..1];
    }
  }

  /**
   The role is only ever dropped when the tenant's database is gone already. This is the program's own order; what
   the server would refuse is not used.
   */
  lemma RoleDroppedAfterDatabase(ws: Workspace, s: State, app: string, confirmed: bool, acts: seq<Act>, ok: bool, i: nat,
                                 role: string)
    requires Exec(ws, s, acts).Some? && DropAttempt(ws, s, app, confirmed, acts, ok)
    requires i < |acts| && acts[i] == Did(DropRole(role))
    ensures role == app && Exec(ws, s, acts[..i]).Some?
    ensures !HasDatabase(Exec(ws, s, acts[..i]).value.stores, app)
  {
    var before := Commands(acts[..i]);
    CommandsAround(acts, i);
    RoleIsSecond(ws, app, Commands(acts), |before|, role);
    ExecAround(ws, s, acts, i);
    OperatorOnlyTouchesPasswords(ws, s, acts[..i]);
    assert before == DropPlan(ws, app)[..1];
    DropPrefix(ws, s.stores, app, 1);
  }

  /** A server that would drop any role at once. */
  function LenientApply(s: Stores, c: Command): Option<Stores> {
    if c.DropRole? then Some(s.(roles := s.roles - {c.role})) else Apply(s, c)
  }

  function LenientRun(s: Stores, cs: seq<Command>): Option<Stores> {
    if cs == [] then Some(s)
    else
      var r := LenientRun(s, cs[..|cs| - 1]);
      if r.None? then None else LenientApply(r.value, cs[|cs| - 1])
  }

  /** Whatever depends on the role finds it. */
  predicate RoleSound(s: Stores, app: string) {
    app in s.roles ||
    forall d :: d in s.dbs ==> s.dbs[d].owner != app && forall g :: g in s.dbs[d].grants ==> g.1 != app
  }

  lemma {:induction false} LenientDrop(ws: Workspace, s: Stores, app: string, k: nat)
    requires k <= 5 && LenientRun(s, DropPlan(ws, app)[..k]).Some?
    ensures LenientRun(s, DropPlan(ws, app)[..k]).value == AfterDrop(ws, s, app, k)
    decreases k
  {
    DropPlanAt(ws, app);
    if k > 0 {
      var plan := DropPlan(ws, app);
      assert plan[..k][..k - 1] == plan[..k - 1] && plan[..k][k - 1] == plan[k - 1];
      LenientDrop(ws, s, app, k - 1);
      LenientStep(ws, s, app, k - 1, plan[k - 1]);
    }
  }

  lemma LenientStep(ws: Workspace, s: Stores, app: string, k: nat, c: Command)
    requires k < 5 && c == DropPlan(ws, app)[k] && LenientApply(AfterDrop(ws, s, app, k), c).Some?
    ensures LenientApply(AfterDrop(ws, s, app, k), c).value == AfterDrop(ws, s, app, k + 1)
  {
    DropPlanAt(ws, app);
    if !c.DropRole? {
      DropStep(ws, s, app, k, c);
    }
  }

  /**
   What Drop's order protects by itself, and what it leaves to the server: even where every role could be dropped,
   an interrupted Drop leaves the tenant's own database without its role in no case, and another database exactly
   when one depends on the role and the Drop came as far as the role.
   */
  lemma OrderProtectsOwnDatabase(ws: Workspace, s: Stores, app: string, k: nat)
    requires k <= 5 && LenientRun(s, DropPlan(ws, app)[..k]).Some? && app in s.roles
    ensures var t := LenientRun(s, DropPlan(ws, app)[..k]).value;
            && (app !in t.roles ==> !HasDatabase(t, app))
            && (RoleSound(t, app) <==> k < 2 || FreeElsewhere(s, app))
  {
    LenientDrop(ws, s, app, k);
    if k >= 2 {
      FreeIsSound(ws, s, app, k);
    }
  }

  lemma FreeIsSound(ws: Workspace, s: Stores, app: string, k: nat)
    requires k >= 2
    ensures RoleSound(AfterDrop(ws, s, app, k), app) <==> FreeElsewhere(s, app)
  {
    var rest := s.dbs - {app};
    forall d | d in s.dbs && d != app ensures d in rest && rest[d] == s.dbs[d] {
    }
  }

  /** No other database is owned by the role or grants it anything. */
  predicate FreeElsewhere(s: Stores, app: string) {
    forall d :: d in s.dbs && d != app ==> s.dbs[d].owner != app && forall g :: g in s.dbs[d].grants ==> g.1 != app
  }

  datatype DropTry = DropTry(confirmed: bool, acts: seq<Act>, ok: bool)

  predicate DropRetries(ws: Workspace, app: string, s: State, tries: seq<DropTry>, t: State)
    decreases tries
  {
    if tries == [] then s == t
    else
      && Exec(ws, s, tries[0].acts).Some?
      && DropAttempt(ws, s, app, tries[0].confirmed, tries[0].acts, tries[0].ok)
      && DropRetries(ws, app, Exec(ws, s, tries[0].acts).value, tries[1..], t)
  }

  /** What survives from one attempt to the next. */
  predicate RunOrder(ws: Workspace, s: Stores, t: Stores, app: string) {
    && DropShrinks(ws, s, t, app)
    && (HasDatabase(t, app) ==> t == s)
    && (HasRole(t, app) ==> t.secrets == s.secrets && t.manifest == s.manifest && t.files == s.files)
    && (HasSecret(ws, t, app) ==> t.manifest == s.manifest && t.files == s.files)
  }

  lemma OrderChains(ws: Workspace, s: Stores, u: Stores, t: Stores, app: string)
    requires DropOrder(ws, s, u, app) && DropShrinks(ws, s, u, app) && RunOrder(ws, u, t, app)
    ensures RunOrder(ws, s, t, app)
  {
  }

  /**
   Over every run of interrupted and retried Drops: while the database is still there nothing has changed; while
   the role is still there, Secret, manifest and file have not; while the Secret is, manifest and file have not;
   and while the manifest entry is, the file has not, unless a manifest write was torn.
   */
  lemma {:induction false} DropRunsInOrder(ws: Workspace, app: string, s: State, tries: seq<DropTry>, t: State)
    requires DropRetries(ws, app, s, tries, t)
    ensures RunOrder(ws, s.stores, t.stores, app)
    ensures (forall i :: 0 <= i < |tries| ==> NoTear(Commands(tries[i].acts))) && EntryDeclared(t.stores, app) ==>
      EntryDeclared(s.stores, app) && t.stores.files == s.stores.files
    decreases tries
  {
    if tries != [] {
      var u := Exec(ws, s, tries[0].acts).value;
      DropAttemptOrder(ws, s, app, tries[0].confirmed, tries[0].acts, tries[0].ok);
      DropRunsInOrder(ws, app, u, tries[1..], t);
      OrderChains(ws, s.stores, u.stores, t.stores, app);
    }
  }

  lemma RemovingAbsentIsIdle(s: Stores, app: string)
    requires app != "" && ManifestReady(s) && !EntryDeclared(s, app)
    ensures Apply(s, RemoveEntry(app)) == Some(s)
  {
    Manifest.OthersOfAbsent(Manifest.Entries(s.manifest.value), app);
    Manifest.EntriesOfWith(s.manifest.value, []);
  }

  /** Dropping what is gone changes nothing: the SQL, the deletions and the manifest edit all find no work. */
  lemma DropAgainIsIdle(ws: Workspace, s: State, app: string, confirmed: bool, acts: seq<Act>)
    requires Exec(ws, s, acts).Some? && DropAttempt(ws, s, app, confirmed, acts, true)
    requires Gone(ws, s.stores, app)
    ensures Exec(ws, s, acts).value.stores == s.stores
  {
    OperatorOnlyTouchesPasswords(ws, s, acts);
    WholeDrop(ws, s.stores, app, Commands(acts));
    RemovingAbsentIsIdle(s.stores, app);
    IdleRemoval(s.stores.dbs, app);
    IdleRemoval(s.stores.roles, app);
    IdleRemoval(s.stores.secrets, SecretName(ws, app));
    IdleRemoval(s.stores.files, SecretPath(ws, app));
  }

  // ----- when nothing goes wrong

  lemma RoleFree(ws: Workspace, s: Stores, app: string)
    ensures RoleInUse(AfterDrop(ws, s, app, 1), app) <==> !FreeElsewhere(s, app)
  {
    var rest := s.dbs - {app};
    if !FreeElsewhere(s, app) {
      var d :| d in s.dbs && d != app && !(s.dbs[d].owner != app && forall g :: g in s.dbs[d].grants ==> g.1 != app);
      assert d in rest && rest[d] == s.dbs[d];
    }
  }

  /** What the k-th command of a Drop needs of the state the Drop started from. */
  predicate StageFree(s: Stores, app: string, k: nat) {
    (k == 0 ==> app != SUPERUSER_DB) && (k == 1 ==> FreeElsewhere(s, app)) && (k == 3 ==> ManifestReady(s))
  }

  lemma StageAccepted(ws: Workspace, s: Stores, app: string, k: nat, c: Command)
    requires app != "" && k < 5 && c == DropPlan(ws, app)[k]
    ensures Apply(AfterDrop(ws, s, app, k), c).Some? <==> StageFree(s, app, k)
  {
    DropPlanAt(ws, app);
    if k == 0 {
      assert c == DropDb(app);
    } else if k == 1 {
      assert c == DropRole(app);
      RoleFree(ws, s, app);
    } else if k == 3 {
      assert c == RemoveEntry(app);
    } else {
      assert c.DeleteSecret? || c.RemoveFile?;
    }
  }

  lemma {:induction false} DropsUpTo(ws: Workspace, s: Stores, app: string, k: nat)
    requires app != "" && k <= 5
    ensures Run(s, DropPlan(ws, app)[..k]).Some? <==> forall i :: 0 <= i < k ==> StageFree(s, app, i)
    decreases k
  {
    DropPlanAt(ws, app);
    if k > 0 {
      var plan := DropPlan(ws, app);
      DropsUpTo(ws, s, app, k - 1);
      RunSnoc(s, plan, k - 1);
      StageAccepted(ws, s, app, k - 1, plan[k - 1]);
      if Run(s, plan[..k - 1]).Some? {
        DropPrefix(ws, s, app, k - 1);
      }
    }
  }

  /**
   The services accept a whole Drop exactly when the database is not the one sessions start in, no other database
   is owned by the role or grants it anything, and the manifest has a roles sequence.
   */
  lemma DroppableIff(ws: Workspace, s: Stores, app: string)
    requires app != ""
    ensures Run(s, DropPlan(ws, app)).Some? <==> app != SUPERUSER_DB && FreeElsewhere(s, app) && ManifestReady(s)
  {
    DropPlanAt(ws, app);
    assert DropPlan(ws, app)[..5] == DropPlan(ws, app);
    DropsUpTo(ws, s, app, 5);
    assert StageFree(s, app, 0) && StageFree(s, app, 1) && StageFree(s, app, 3) ==>
             forall i :: 0 <= i < 5 ==> StageFree(s, app, i);
  }
}
