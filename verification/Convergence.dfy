/** Retrying Provision, rotating under the operator, and exactly when a fault-free attempt succeeds. */
module Convergence {
  import opened Strings
  import Names
  import Manifest
  import SecretYaml
  import Sql
  import opened Paths
  import opened Stores
  import opened Cluster
  import opened Plans
  import opened Verbs
  import opened Agreement

  // ----- the file over retries

  lemma PrefixAvoids(cs: seq<Command>, plan: seq<Command>, p: Place)
    requires cs <= plan && Avoids(plan, p)
    ensures Avoids(cs, p)
  {
    assert forall i :: 0 <= i < |cs| ==> cs[i] == plan[i];
  }

  /** Whatever an attempt at a plan did, it kept away from the places its plan keeps away from. */
  lemma AttemptAvoids(acts: seq<Act>, plan: seq<Command>, ok: bool, p: Place)
    requires Attempted(acts, plan, ok) && Avoids(plan, p) && p != TheManifest
    ensures Avoids(Commands(acts), p)
  {
    if Commands(acts) <= plan {
      PrefixAvoids(Commands(acts), plan, p);
    } else {
      TornAvoids(Commands(acts), plan, p);
    }
  }

  lemma TornAvoids(cs: seq<Command>, plan: seq<Command>, p: Place)
    requires Torn(cs, plan) && Avoids(plan, p) && p != TheManifest
    ensures Avoids(cs, p)
  {
    var init, last := cs[..|cs| - 1], cs[|cs| - 1];
    PrefixAvoids(init, plan, p);
    assert cs == init + [last];
    assert Avoids([last], p);
    AvoidsAppend(init, [last], p);
  }

  lemma PrefixRest(cs: seq<Command>, first: Command, rest: seq<Command>, p: Place)
    requires cs != [] && cs <= [first] + rest && Avoids(rest, p)
    ensures cs[0] == first && Avoids(cs[1..], p)
  {
    assert ([first] + rest)[1..] == rest;
    PrefixAvoids(cs[1..], rest, p);
  }

  /** What follows the first command of a plan, in an attempt that got that far. */
  lemma AttemptRest(acts: seq<Act>, first: Command, rest: seq<Command>, ok: bool, p: Place)
    requires Attempted(acts, [first] + rest, ok) && Commands(acts) != []
    requires !first.AppendEntry? && !first.RemoveEntry? && Avoids(rest, p) && p != TheManifest
    ensures Commands(acts)[0] == first && Avoids(Commands(acts)[1..], p)
  {
    var cs := Commands(acts);
    if cs <= [first] + rest {
      PrefixRest(cs, first, rest, p);
    } else {
      TornRest(cs, first, rest, p);
    }
  }

  lemma TornRest(cs: seq<Command>, first: Command, rest: seq<Command>, p: Place)
    requires Torn(cs, [first] + rest)
    requires !first.AppendEntry? && !first.RemoveEntry? && Avoids(rest, p) && p != TheManifest
    ensures cs[0] == first && Avoids(cs[1..], p)
  {
    var init, last := cs[..|cs| - 1], cs[|cs| - 1];
    assert |cs| > 1 by {
      assert ([first] + rest)[0] == first;
    }
    PrefixRest(init, first, rest, p);
    assert Avoids([last], p);
    AvoidsAppend(init[1..], [last], p);
    assert cs[1..] == init[1..] + [last];
  }

  /**
   One attempt, cut off anywhere: a password already in the file is kept exactly unless os.Stat failed, a fresh
   file was then written over it, and the fresh password is another one.
   */
  lemma PersistedPasswordKept(ws: Workspace, s: State, app: string, entropy: Entropy, blind: bool, acts: seq<Act>,
                              r: Result<Tenant>, pw: string)
    requires Resolved(ws) && Exec(ws, s, acts).Some?
    requires ProvisionAttempt(ws, s, app, entropy, blind, acts, r)
    requires FileHolds(s.stores, ws, app, pw)
    ensures FileHolds(Exec(ws, s, acts).value.stores, ws, app, pw)
       <==> !blind || Commands(acts) == [] || SecretYaml.GeneratePassword(entropy) == pw
    ensures !blind && r.Ok? ==> r.value.dsn.password == pw
  {
    OperatorOnlyTouchesPasswords(ws, s, acts);
    if Commands(acts) != [] {
      if blind {
        BlindAttemptOverwrites(ws, s, app, entropy, acts, r);
      } else {
        SightedAttemptKeepsFiles(ws, s, app, entropy, acts, r);
        UntouchedStays(s.stores, Commands(acts), Files);
      }
    }
  }

  lemma SightedAttemptKeepsFiles(ws: Workspace, s: State, app: string, entropy: Entropy, acts: seq<Act>, r: Result<Tenant>)
    requires ProvisionAttempt(ws, s, app, entropy, false, acts, r) && Commands(acts) != []
    requires SecretPath(ws, app) in s.stores.files
    ensures Avoids(Commands(acts), Files)
  {
    var src := PasswordSource(ws, s.stores, app, entropy, false);
    var rest := CredentialPlan(ws, s.stores, app, src.pw) + TenantDbPlan(s.stores, app) + EntryPlan(s.stores, ws, app);
    RestAvoidsFiles(ws, s.stores, app, src.pw);
    assert ProvisionPlan(ws, s.stores, app, src) == rest;
    AttemptAvoids(acts, rest, r.Ok?, Files);
  }

  lemma BlindAttemptOverwrites(ws: Workspace, s: State, app: string, entropy: Entropy, acts: seq<Act>, r: Result<Tenant>)
    requires Resolved(ws) && Exec(ws, s, acts).Some?
    requires ProvisionAttempt(ws, s, app, entropy, true, acts, r) && Commands(acts) != []
    ensures FileHolds(Exec(ws, s, acts).value.stores, ws, app, SecretYaml.GeneratePassword(entropy))
  {
    var pw := SecretYaml.GeneratePassword(entropy);
    OperatorOnlyTouchesPasswords(ws, s, acts);
    var rest := CredentialPlan(ws, s.stores, app, pw) + TenantDbPlan(s.stores, app) + EntryPlan(s.stores, ws, app);
    RestAvoidsFiles(ws, s.stores, app, pw);
    var put := PutFile(SecretPath(ws, app), SecretBody(ws, app, pw));
    assert ProvisionPlan(ws, s.stores, app, Fresh(pw)) == [put] + rest;
    AttemptRest(acts, put, rest, r.Ok?, Files);
    OverwrittenFile(ws, s.stores, app, pw, entropy, Commands(acts), Exec(ws, s, acts).value.stores);
  }

  lemma OverwrittenFile(ws: Workspace, s: Stores, app: string, pw: string, entropy: Entropy, cs: seq<Command>, t: Stores)
    requires Resolved(ws) && Names.IdentSafe(app) && pw == SecretYaml.GeneratePassword(entropy)
    requires cs != [] && cs[0] == PutFile(SecretPath(ws, app), SecretBody(ws, app, pw))
    requires Avoids(cs[1..], Files) && Run(s, cs) == Some(t)
    ensures FileHolds(t, ws, app, pw)
  {
    var s1 := Apply(s, cs[0]).value;
    SecretYaml.GeneratedPassword(entropy);
    SecretYaml.GeneratedIsSafe(pw);
    RunOne(s, cs[0]);
    WrittenFileHolds(ws, s, app, pw, s1);
    UntouchedStays(s1, cs[1..], Files);
  }

  /** A file that is there but holds no password is reported, and nothing is done. */
  lemma UnreadableIsRefused(ws: Workspace, s: State, app: string, entropy: Entropy, acts: seq<Act>, r: Result<Tenant>)
    requires Exec(ws, s, acts).Some? && ProvisionAttempt(ws, s, app, entropy, false, acts, r)
    requires SecretPath(ws, app) in s.stores.files
    requires SecretYaml.ParsedPassword(s.stores.files[SecretPath(ws, app)]).None?
    ensures r.Err? && Exec(ws, s, acts).value.stores == s.stores
  {
    OperatorOnlyTouchesPasswords(ws, s, acts);
  }

  /** The manifest is touched last: by then file, Secret, role and database are all in place. */
  lemma ProvisionEndsWithManifest(ws: Workspace, s: State, app: string, entropy: Entropy, blind: bool, acts: seq<Act>,
                                  r: Result<Tenant>)
    requires Resolved(ws) && Exec(ws, s, acts).Some?
    requires ProvisionAttempt(ws, s, app, entropy, blind, acts, r)
    requires Exec(ws, s, acts).value.stores.manifest != s.stores.manifest
    ensures var t := Exec(ws, s, acts).value.stores;
            var src := PasswordSource(ws, s.stores, app, entropy, blind);
            && !src.Unreadable? && FileHolds(t, ws, app, src.pw) && SecretHolds(t, ws, app, src.pw)
            && app in t.roles && t.roles[app] && DatabaseReady(t, app)
  {
    var cs, src := Commands(acts), PasswordSource(ws, s.stores, app, entropy, blind);
    OperatorOnlyTouchesPasswords(ws, s, acts);
    var server, edit := ServerPlan(ws, s.stores, app, src), EntryPlan(s.stores, ws, app);
    ServerAvoidsManifest(ws, s.stores, app, src);
    if cs <= server {
      PrefixAvoids(cs, server, TheManifest);
      UntouchedStays(s.stores, cs, TheManifest);
      assert false;
    }
    BeyondServer(acts, server, edit, r.Ok?);
    AfterServer(s.stores, cs, server);
    ServerResult(ws, s.stores, app, entropy, blind, Run(s.stores, server).value);
  }

  lemma PrefixOrWhole(cs: seq<Command>, front: seq<Command>, c: Command)
    requires cs <= front + [c]
    ensures cs <= front || cs == front + [c]
  {
    if |cs| <= |front| {
      assert cs == (front + [c])[..|cs|];
    }
  }

  /** An attempt that is not a prefix of the plan's front has done all of it, and one manifest command more. */
  lemma BeyondServer(acts: seq<Act>, server: seq<Command>, edit: seq<Command>, ok: bool)
    requires Attempted(acts, server + edit, ok) && !(Commands(acts) <= server)
    requires |edit| <= 1 && (forall i :: 0 <= i < |edit| ==> edit[i].AppendEntry?) && Avoids(server, TheManifest)
    ensures server <= Commands(acts) && |Commands(acts)| == |server| + 1
    ensures Touched(Commands(acts)[|server|]) == {TheManifest}
  {
    if edit == [] {
      assert server + edit == server;
    } else {
      assert edit == [edit[0]];
    }
    if Commands(acts) <= server + edit {
      PrefixOrWhole(Commands(acts), server, edit[0]);
    } else {
      TornBeyond(Commands(acts), server, edit);
    }
  }

  lemma TornBeyond(cs: seq<Command>, server: seq<Command>, edit: seq<Command>)
    requires Torn(cs, server + edit) && |edit| <= 1 && Avoids(server, TheManifest)
    ensures server <= cs && |cs| == |server| + 1 && cs[|server|].Tear?
  {
    var plan := server + edit;
    assert forall i :: 0 <= i < |server| ==> plan[i] == server[i] && TheManifest !in Touched(plan[i]);
    assert plan[..|server|] == server;
  }

  lemma AfterServer(s: Stores, cs: seq<Command>, server: seq<Command>)
    requires Run(s, cs).Some? && server <= cs && |cs| == |server| + 1 && Touched(cs[|server|]) == {TheManifest}
    ensures Run(s, server).Some?
    ensures var u, t := Run(s, server).value, Run(s, cs).value;
            t.files == u.files && t.secrets == u.secrets && t.roles == u.roles && t.dbs == u.dbs
  {
    assert cs == server + [cs[|server|]];
    RunAppend(s, server, [cs[|server|]]);
    var u := Run(s, server).value;
    RunOne(u, cs[|server|]);
    AppliedAway(u, cs[|server|], Files);
    AppliedAway(u, cs[|server|], Secrets);
    AppliedAway(u, cs[|server|], Roles);
    AppliedAway(u, cs[|server|], Dbs);
  }

  datatype Try = Try(entropy: Entropy, blind: bool, acts: seq<Act>, r: Result<Tenant>)

  /** Attempts at Provision one after the other, each cut off wherever it was. */
  predicate Retries(ws: Workspace, app: string, s: State, tries: seq<Try>, t: State)
    decreases tries
  {
    if tries == [] then s == t
    else
      var x := tries[0];
      && Exec(ws, s, x.acts).Some?
      && ProvisionAttempt(ws, s, app, x.entropy, x.blind, x.acts, x.r)
      && Retries(ws, app, Exec(ws, s, x.acts).value, tries[1..], t)
  }

  /** Either os.Stat did not fail, or nothing came of the attempt. */
  predicate Sighted(blind: bool, acts: seq<Act>) {
    !blind || Commands(acts) == []
  }

  lemma NilIsNotIdle(ws: Workspace, s: State, app: string, entropy: Entropy, blind: bool, acts: seq<Act>, r: Result<Tenant>)
    requires ProvisionAttempt(ws, s, app, entropy, blind, acts, r) && r.Ok?
    ensures Commands(acts) != []
  {
    var src := PasswordSource(ws, s.stores, app, entropy, blind);
    assert EnsureRole(app, src.pw) in CredentialPlan(ws, s.stores, app, src.pw);
    assert EnsureRole(app, src.pw) in ProvisionPlan(ws, s.stores, app, src);
  }

  /**
   Over any number of attempts, from the moment a password is in the file: if no os.Stat fails, that password
   stays there and is the one every successful attempt returns; and if the last attempt succeeded, Secret and
   role hold it too, next to a ready database and a declared role.
   */
  lemma {:induction false} RetriesConverge(ws: Workspace, app: string, s: State, tries: seq<Try>, t: State, pw: string)
    requires Resolved(ws) && Retries(ws, app, s, tries, t)
    requires FileHolds(s.stores, ws, app, pw)
    requires forall i :: 0 <= i < |tries| ==> Sighted(tries[i].blind, tries[i].acts)
    ensures FileHolds(t.stores, ws, app, pw)
    ensures forall i :: 0 <= i < |tries| && tries[i].r.Ok? ==> tries[i].r.value.dsn.password == pw
    ensures tries != [] && tries[|tries| - 1].r.Ok? ==> Provisioned(ws, t, app, pw)
    decreases tries
  {
    if tries != [] {
      var x := tries[0];
      PersistedPasswordKept(ws, s, app, x.entropy, x.blind, x.acts, x.r, pw);
      if x.r.Ok? {
        NilIsNotIdle(ws, s, app, x.entropy, x.blind, x.acts, x.r);
        ProvisionDelivers(ws, s, app, x.entropy, x.blind, x.acts, x.r);
      }
      var rest := tries[1..];
      RetriesConverge(ws, app, Exec(ws, s, x.acts).value, rest, t, pw);
      forall i | 0 <= i < |tries| && tries[i].r.Ok? ensures tries[i].r.value.dsn.password == pw {
        if i > 0 {
          assert rest[i - 1] == tries[i];
        }
      }
      if |tries| > 1 {
        assert rest[|rest| - 1] == tries[|tries| - 1];
      }
    }
  }

  /** The first attempt that does anything for a tenant without a file writes a password there. */
  lemma FirstPassword(ws: Workspace, s: State, app: string, entropy: Entropy, blind: bool, acts: seq<Act>, r: Result<Tenant>)
    requires Resolved(ws) && Exec(ws, s, acts).Some?
    requires ProvisionAttempt(ws, s, app, entropy, blind, acts, r)
    requires SecretPath(ws, app) !in s.stores.files
    ensures Commands(acts) == [] ==> r.Err? && Exec(ws, s, acts).value.stores == s.stores
    ensures Commands(acts) != [] ==>
      FileHolds(Exec(ws, s, acts).value.stores, ws, app, SecretYaml.GeneratePassword(entropy))
    ensures r.Ok? ==> r.value.dsn.password == SecretYaml.GeneratePassword(entropy)
  {
    if Commands(acts) == [] {
      OperatorOnlyTouchesPasswords(ws, s, acts);
      if r.Ok? {
        NilIsNotIdle(ws, s, app, entropy, blind, acts, r);
      }
    } else {
      assert PasswordSource(ws, s.stores, app, entropy, blind) == PasswordSource(ws, s.stores, app, entropy, true);
      BlindAttemptOverwrites(ws, s, app, entropy, acts, r);
    }
  }

  /**
   The same from the very start, for a tenant without a file: either no attempt has done anything yet, or one
   password was written first and from then on stays in the file and is what every successful attempt returns.
   */
  lemma {:induction false} FreshRetriesConverge(ws: Workspace, app: string, s: State, tries: seq<Try>, t: State)
    returns (first: Option<string>, k: nat)
    requires Resolved(ws) && Retries(ws, app, s, tries, t)
    requires SecretPath(ws, app) !in s.stores.files
    requires forall i :: 0 <= i < |tries| ==> Sighted(tries[i].blind, tries[i].acts)
    ensures first.None? ==> t.stores == s.stores && forall i :: 0 <= i < |tries| ==> tries[i].r.Err?
    ensures first.Some? ==> FileHolds(t.stores, ws, app, first.value)
    ensures first.Some? ==> k < |tries| && first.value == SecretYaml.GeneratePassword(tries[k].entropy)
    ensures forall i :: 0 <= i < |tries| && tries[i].r.Ok? ==> first == Some(tries[i].r.value.dsn.password)
    ensures tries != [] && tries[|tries| - 1].r.Ok? ==> first.Some? && Provisioned(ws, t, app, first.value)
    decreases tries
  {
    if tries == [] {
      first, k := None, 0;
    } else {
      var x, rest := tries[0], tries[1..];
      var u := Exec(ws, s, x.acts).value;
      assert forall i :: 1 <= i < |tries| ==> rest[i - 1] == tries[i];
      FirstPassword(ws, s, app, x.entropy, x.blind, x.acts, x.r);
      if Commands(x.acts) == [] {
        first, k := FreshRetriesConverge(ws, app, u, rest, t);
        k := k + 1;
      } else {
        first, k := Some(SecretYaml.GeneratePassword(x.entropy)), 0;
        RetriesConverge(ws, app, u, rest, t, first.value);
        if x.r.Ok? {
          ProvisionDelivers(ws, s, app, x.entropy, x.blind, x.acts, x.r);
        }
      }
    }
  }

  /** The failing os.Stat does overwrite: from every state with a password in the file there is such an attempt. */
  lemma StatErrorOverwrites(ws: Workspace, s: State, app: string, entropy: Entropy, pw: string) returns (acts: seq<Act>)
    requires Resolved(ws) && Names.IdentSafe(app)
    requires FileHolds(s.stores, ws, app, pw) && SecretYaml.GeneratePassword(entropy) != pw
    ensures Exec(ws, s, acts).Some? && ProvisionAttempt(ws, s, app, entropy, true, acts, Err)
    ensures FileHolds(Exec(ws, s, acts).value.stores, ws, app, SecretYaml.GeneratePassword(entropy))
    ensures !FileHolds(Exec(ws, s, acts).value.stores, ws, app, pw)
  {
    var made := SecretYaml.GeneratePassword(entropy);
    var put := PutFile(SecretPath(ws, app), SecretBody(ws, app, made));
    acts := Straight([put]);
    RunOne(s.stores, put);
    StraightRun(ws, s, [put]);
    assert ProvisionPlan(ws, s.stores, app, Fresh(made))
        == [put] + (CredentialPlan(ws, s.stores, app, made) + TenantDbPlan(s.stores, app) + EntryPlan(s.stores, ws, app));
    BlindAttemptOverwrites(ws, s, app, entropy, acts, Err);
  }

  // ----- a fault-free attempt

  predicate ManifestReady(s: Stores) {
    s.manifest.Some? && Manifest.RolesPath(s.manifest.value).Some?
  }

  lemma SecretPlanAccepted(s: Stores, name: string, user: string, pw: string)
    ensures Run(s, SecretPlan(s, name, user, pw)).Some? <==> name in s.secrets || Names.DnsSubdomain(name)
  {
    RunOne(s, CreateSecret(name, user, pw));
    RunOne(s, UpdateSecret(name, user, pw));
  }

  lemma {:induction false} GrantsAccepted(s: Stores, app: string, cs: seq<Command>)
    requires app in s.roles && app in s.dbs
    requires forall i :: 0 <= i < |cs| ==> cs[i].Grant? && cs[i].db == app && cs[i].role == app
    ensures Run(s, cs).Some?
    decreases cs
  {
    if cs != [] {
      GrantsAccepted(Apply(s, cs[0]).value, app, cs[1..]);
    }
  }

  lemma TenantDbAccepted(s: Stores, app: string)
    requires app in s.roles
    ensures Run(s, TenantDbPlan(s, app)).Some?
  {
    RunOne(s, CreateDb(app, app));
    RunOne(s, AlterDbOwner(app, app));
    RunAppend(s, DatabasePlan(s, app), GrantPlan(app));
    GrantsAccepted(Run(s, DatabasePlan(s, app)).value, app, GrantPlan(app));
  }

  lemma EntryPlanAccepted(ws: Workspace, s: Stores, app: string)
    requires Names.IdentSafe(app)
    ensures Run(s, EntryPlan(s, ws, app)).Some? <==> ManifestReady(s)
  {
    RunOne(s, AppendEntry(Entry(ws, app)));
    assert SecretName(ws, app) != "";
  }

  lemma InClusterAccepted(ws: Workspace, s: Stores, app: string, pw: string)
    ensures Run(s, CredentialPlan(ws, s, app, pw) + TenantDbPlan(s, app)).Some?
       <==> (SecretName(ws, app) in s.secrets || |SecretName(ws, app)| <= 253) && !Contains(pw, "$$")
  {
    var secret, role, db := SecretPlan(s, SecretName(ws, app), app, pw), [EnsureRole(app, pw)], TenantDbPlan(s, app);
    Names.SecretNameIsValid(ws.secretPrefix, app);
    SecretPlanAccepted(s, SecretName(ws, app), app, pw);
    RunAppend(s, secret + role, db);
    RunAppend(s, secret, role);
    if Run(s, secret).Some? {
      var s1 := Run(s, secret).value;
      RunOne(s1, EnsureRole(app, pw));
      if Apply(s1, EnsureRole(app, pw)).Some? {
        var s2 := Apply(s1, EnsureRole(app, pw)).value;
        CredentialAvoids(ws, s, app, pw, Dbs);
        UntouchedStays(s, secret + role, Dbs);
        TenantDbAccepted(s2, app);
      }
    }
  }

  /** With no faults, Provision returns nil exactly when all of this holds of the state it starts from. */
  lemma ProvisionableIff(ws: Workspace, s: Stores, app: string, entropy: Entropy)
    requires Names.IdentSafe(app) && !PasswordSource(ws, s, app, entropy, false).Unreadable?
    ensures Provisionable(ws, s, app, entropy)
       <==> && (SecretName(ws, app) in s.secrets || |SecretName(ws, app)| <= 253)
            && !Contains(PasswordSource(ws, s, app, entropy, false).pw, "$$")
            && ManifestReady(s)
  {
    var src := PasswordSource(ws, s, app, entropy, false);
    var f, cd, e :=
      SourcePlan(ws, app, src), CredentialPlan(ws, s, app, src.pw) + TenantDbPlan(s, app), EntryPlan(s, ws, app);
    RunAppend(s, f + cd, e);
    RunAppend(s, f, cd);
    RunOne(s, PutFile(SecretPath(ws, app), SecretBody(ws, app, src.pw)));
    var s1 := Run(s, f).value;
    FileLeavesCluster(ws, s, app, src, f, s1);
    InClusterAccepted(ws, s1, app, src.pw);
    ServerAvoidsManifest(ws, s, app, src);
    if Run(s, f + cd).Some? {
      var s2 := Run(s, f + cd).value;
      UntouchedStays(s, f + cd, TheManifest);
      EntryPlanAccepted(ws, s2, app);
    }
  }

  /** In a catalog workspace, for a fresh tenant, only the manifest can stand in the way. */
  lemma FreshTenantProvisionable(ws: Workspace, s: Stores, app: string, entropy: Entropy)
    requires Names.IdentSafe(app) && (ws.secretPrefix == "" || Names.ValidClusterID(ws.secretPrefix))
    requires SecretPath(ws, app) !in s.files
    ensures Provisionable(ws, s, app, entropy) <==> ManifestReady(s)
  {
    ProvisionableIff(ws, s, app, entropy);
    Names.SecretNameLength(ws.secretPrefix, app);
    SecretYaml.GeneratedPassword(entropy);
    SecretYaml.GeneratedIsSafe(SecretYaml.GeneratePassword(entropy));
    Sql.FreeHasNoDollars(SecretYaml.GeneratePassword(entropy));
  }

  /** Commands that change nothing where they are accepted change nothing together. */
  lemma {:induction false} IdleRun(s: Stores, cs: seq<Command>)
    requires Run(s, cs).Some? && forall i :: 0 <= i < |cs| ==> Apply(s, cs[i]) == None || Apply(s, cs[i]) == Some(s)
    ensures Run(s, cs) == Some(s)
    ensures forall i :: 0 <= i < |cs| ==> Apply(s, cs[i]) == Some(s)
  {
    if cs != [] {
      IdleRun(s, cs[1..]);
      assert forall i :: 1 <= i < |cs| ==> cs[i] == cs[1..][i - 1];
    }
  }

  lemma IdleGrant(s: Stores, app: string, p: Privilege)
    requires app in s.dbs && app in s.roles && (p, app) in s.dbs[app].grants
    ensures Apply(s, Grant(app, p, app)) == Some(s)
  {
    assert s.dbs[app].grants + {(p, app)} == s.dbs[app].grants;
    assert s.dbs[app := s.dbs[app]] == s.dbs;
  }

  /** On a fully provisioned tenant every sighted attempt, finished or cut off, changes nothing. */
  lemma ProvisionedStays(ws: Workspace, s: State, app: string, entropy: Entropy, blind: bool, acts: seq<Act>,
                         r: Result<Tenant>, pw: string)
    requires Provisioned(ws, s, app, pw) && Exec(ws, s, acts).Some?
    requires ProvisionAttempt(ws, s, app, entropy, blind, acts, r) && Sighted(blind, acts)
    ensures Exec(ws, s, acts).value.stores == s.stores
    ensures RoleHolds(Exec(ws, s, acts).value, app, pw)
  {
    OperatorOnlyTouchesPasswords(ws, s, acts);
    if Commands(acts) != [] {
      IdlePlan(ws, s, app, entropy, pw);
      var plan := [EnsureRole(app, pw), AlterDbOwner(app, app)] + GrantPlan(app);
      ProvisionedPlanIsIdle(s.stores, app, pw, plan, acts, r);
      IdleRun(s.stores, Commands(acts));
    }
    IdleRole(ws, s, app, pw, acts);
  }

  /** What is left to do for a fully provisioned tenant. */
  lemma IdlePlan(ws: Workspace, s: State, app: string, entropy: Entropy, pw: string)
    requires Provisioned(ws, s, app, pw) && Names.IdentSafe(app)
    ensures PasswordSource(ws, s.stores, app, entropy, false) == Existing(pw)
    ensures ProvisionPlan(ws, s.stores, app, Existing(pw)) == [EnsureRole(app, pw), AlterDbOwner(app, app)] + GrantPlan(app)
  {
    assert SecretPlan(s.stores, SecretName(ws, app), app, pw) == [];
    assert EntryPlan(s.stores, ws, app) == [];
  }

  lemma IdleCommand(s: Stores, app: string, pw: string, c: Command)
    requires DatabaseReady(s, app) && app in s.roles && s.roles[app]
    requires c == EnsureRole(app, pw) || c == AlterDbOwner(app, app) || c in GrantPlan(app)
    ensures (Apply(s, c) == None || Apply(s, c) == Some(s)) && KeepsPassword(c, app, pw)
  {
    if c.Grant? {
      IdleGrant(s, app, c.privilege);
    } else {
      assert s.roles[app := true] == s.roles;
      assert s.dbs[app := s.dbs[app]] == s.dbs;
    }
  }

  lemma IdlePlanHasNoEdit(app: string, pw: string, plan: seq<Command>)
    requires plan == [EnsureRole(app, pw), AlterDbOwner(app, app)] + GrantPlan(app)
    ensures forall i :: 0 <= i < |plan| ==> !plan[i].AppendEntry? && !plan[i].RemoveEntry?
    ensures forall i :: 0 <= i < |plan| ==>
      plan[i] == EnsureRole(app, pw) || plan[i] == AlterDbOwner(app, app) || plan[i] in GrantPlan(app)
  {
  }

  lemma ProvisionedPlanIsIdle(s: Stores, app: string, pw: string, plan: seq<Command>, acts: seq<Act>, r: Result<Tenant>)
    requires DatabaseReady(s, app) && app in s.roles && s.roles[app]
    requires plan == [EnsureRole(app, pw), AlterDbOwner(app, app)] + GrantPlan(app)
    requires Attempted(acts, plan, r.Ok?)
    ensures forall i :: 0 <= i < |Commands(acts)| ==>
      && (Apply(s, Commands(acts)[i]) == None || Apply(s, Commands(acts)[i]) == Some(s))
      && KeepsPassword(Commands(acts)[i], app, pw)
  {
    var cs := Commands(acts);
    IdlePlanHasNoEdit(app, pw, plan);
    NeverTorn(acts, plan, r.Ok?);
    forall i | 0 <= i < |cs|
      ensures (Apply(s, cs[i]) == None || Apply(s, cs[i]) == Some(s)) && KeepsPassword(cs[i], app, pw)
    {
      assert cs[i] == plan[i];
      IdleCommand(s, app, pw, plan[i]);
    }
  }

  predicate KeepsPassword(c: Command, app: string, pw: string) {
    c == EnsureRole(app, pw) || Roles !in Touched(c)
  }

  lemma {:induction false} IdleRole(ws: Workspace, s: State, app: string, pw: string, acts: seq<Act>)
    requires SecretHolds(s.stores, ws, app, pw) && RoleHolds(s, app, pw) && Exec(ws, s, acts).Some?
    requires forall i :: 0 <= i < |Commands(acts)| ==>
      KeepsPassword(Commands(acts)[i], app, pw) && Apply(s.stores, Commands(acts)[i]) == Some(s.stores)
    ensures RoleHolds(Exec(ws, s, acts).value, app, pw)
    decreases acts
  {
    if acts != [] {
      if acts[0].Did? {
        assert Commands(acts)[0] == acts[0].command && Commands(acts)[1..] == Commands(acts[1..]);
      } else {
        assert Commands(acts) == Commands(acts[1..]);
      }
      IdleRole(ws, Happen(ws, s, acts[0]).value, app, pw, acts[1..]);
    }
  }

  // ----- Rotate under the operator

  /**
   One step of the operator makes role and Secret agree, whatever came before, and they agree from then on for as
   long as no call touches a Secret or a role.
   */
  lemma OperatorAgrees(ws: Workspace, s: State, app: string, q: string, acts: seq<Act>)
    requires SecretPassword(s.stores, ws, app, q) && app in s.stores.roles
    requires Exec(ws, Reconcile(ws, s, app), acts).Some?
    requires forall i :: 0 <= i < |Commands(acts)| ==> Settled(Commands(acts)[i])
    ensures RoleHolds(Exec(ws, Reconcile(ws, s, app), acts).value, app, q)
    ensures SecretPassword(Exec(ws, Reconcile(ws, s, app), acts).value.stores, ws, app, q)
  {
    var u := Reconcile(ws, s, app);
    QuietStretch(ws, u, app, q, acts);
    StaysSettled(ws, u, app, q, acts);
  }

  lemma RotateResult(ws: Workspace, s: Stores, app: string, entropy: Entropy, t: Stores)
    requires Resolved(ws) && Names.IdentSafe(app)
    requires Run(s, RotatePlan(ws, s, app, SecretYaml.GeneratePassword(entropy))) == Some(t)
    ensures var pw := SecretYaml.GeneratePassword(entropy);
            FileHolds(t, ws, app, pw) && SecretHolds(t, ws, app, pw) && app in t.roles && t.roles[app]
    ensures app in s.roles && SecretKept(s, t, SecretName(ws, app))
    ensures t.dbs == s.dbs && t.manifest == s.manifest && t.clusters == s.clusters
  {
    var pw := SecretYaml.GeneratePassword(entropy);
    SecretYaml.GeneratedPassword(entropy);
    SecretYaml.GeneratedIsSafe(pw);
    RotateStores(ws, s, app, pw, t);
    RotateAvoids(ws, s, app, pw);
    UntouchedStays(s, RotatePlan(ws, s, app, pw), Dbs);
    UntouchedStays(s, RotatePlan(ws, s, app, pw), TheManifest);
    UntouchedStays(s, RotatePlan(ws, s, app, pw), Clusters);
  }

  lemma RotateStores(ws: Workspace, s: Stores, app: string, pw: string, t: Stores)
    requires Resolved(ws) && Names.IdentSafe(app) && SecretYaml.RoundTrips(pw)
    requires Run(s, RotatePlan(ws, s, app, pw)) == Some(t)
    ensures FileHolds(t, ws, app, pw) && SecretHolds(t, ws, app, pw) && app in t.roles && t.roles[app]
    ensures app in s.roles && SecretKept(s, t, SecretName(ws, app))
  {
    var front, file := [AlterRole(app, pw)] + SecretPlan(s, SecretName(ws, app), app, pw), FilePlan(ws, app, pw);
    RunAppend(s, front, file);
    var s2 := Run(s, front).value;
    RotatedInCluster(ws, s, app, pw, s2);
    WrittenFileHolds(ws, s2, app, pw, t);
    UntouchedStays(s2, file, Secrets);
    UntouchedStays(s2, file, Roles);
    KeptThrough(s, s, s2, t, SecretName(ws, app));
  }

  lemma RotatedInCluster(ws: Workspace, s: Stores, app: string, pw: string, t: Stores)
    requires app != "" && pw != "" && Run(s, [AlterRole(app, pw)] + SecretPlan(s, SecretName(ws, app), app, pw)) == Some(t)
    ensures SecretHolds(t, ws, app, pw) && app in t.roles && t.roles[app]
    ensures app in s.roles && SecretKept(s, t, SecretName(ws, app))
  {
    var alter, secret := AlterRole(app, pw), SecretPlan(s, SecretName(ws, app), app, pw);
    RunAppend(s, [alter], secret);
    RunOne(s, alter);
    var s1 := Apply(s, alter).value;
    AlteredStores(s, app, pw, s1);
    SamePlan(s, s1, SecretName(ws, app), app, pw);
    SecretPlanHolds(s1, ws, app, pw, t);
    KeptThrough(s, s1, t, t, SecretName(ws, app));
    SecretPlanAvoidsRoles(s, SecretName(ws, app), app, pw);
    UntouchedStays(s1, secret, Roles);
  }

  lemma AlteredStores(s: Stores, app: string, pw: string, t: Stores)
    requires Apply(s, AlterRole(app, pw)) == Some(t)
    ensures app in s.roles && t.roles == s.roles[app := true] && t.secrets == s.secrets
  {
  }

  lemma SecretPlanAvoidsRoles(s: Stores, name: string, user: string, pw: string)
    ensures Avoids(SecretPlan(s, name, user, pw), Roles)
  {
  }

  lemma SamePlan(s: Stores, t: Stores, name: string, user: string, pw: string)
    requires s.secrets == t.secrets
    ensures SecretPlan(s, name, user, pw) == SecretPlan(t, name, user, pw)
  {
  }

  lemma RotateAvoids(ws: Workspace, s: Stores, app: string, pw: string)
    ensures Avoids(RotatePlan(ws, s, app, pw), Dbs) && Avoids(RotatePlan(ws, s, app, pw), TheManifest)
    ensures Avoids(RotatePlan(ws, s, app, pw), Clusters)
    ensures Avoids(SecretPlan(s, SecretName(ws, app), app, pw), Roles)
    ensures Avoids(FilePlan(ws, app, pw), Secrets) && Avoids(FilePlan(ws, app, pw), Roles)
  {
  }

  /**
   From every state, with faults and operator steps anywhere: after a Rotate that returned nil, file and Secret
   hold the password of the returned DSN, one operator step later the role holds it too, and database, manifest
   and clusters are as before.
   */
  lemma RotateDelivers(ws: Workspace, s: State, app: string, entropy: Entropy, confirmed: bool, acts: seq<Act>,
                       r: Result<Tenant>)
    requires Resolved(ws) && Exec(ws, s, acts).Some?
    requires RotateAttempt(ws, s, app, entropy, confirmed, acts, r) && r.Ok?
    ensures Agree3(ws, Reconcile(ws, Exec(ws, s, acts).value, app), app, r.value.dsn.password)
    ensures Describes(r.value, ws, app, SecretYaml.GeneratePassword(entropy))
    ensures SecretKept(s.stores, Exec(ws, s, acts).value.stores, SecretName(ws, app))
    ensures var t := Exec(ws, s, acts).value.stores;
            t.dbs == s.stores.dbs && t.manifest == s.stores.manifest && t.clusters == s.stores.clusters
  {
    OperatorOnlyTouchesPasswords(ws, s, acts);
    var t := Exec(ws, s, acts).value;
    RotateResult(ws, s.stores, app, entropy, t.stores);
    OperatorAgrees(ws, t, app, SecretYaml.GeneratePassword(entropy), []);
  }

  /** The services accept a whole Rotate exactly when the role exists and the Secret exists or can be named. */
  lemma RotatableIff(ws: Workspace, s: Stores, app: string, pw: string)
    ensures Run(s, RotatePlan(ws, s, app, pw)).Some?
       <==> app in s.roles && (SecretName(ws, app) in s.secrets || |SecretName(ws, app)| <= 253)
  {
    var alter, secret, file := [AlterRole(app, pw)], SecretPlan(s, SecretName(ws, app), app, pw), FilePlan(ws, app, pw);
    RunAppend(s, alter + secret, file);
    RunAppend(s, alter, secret);
    RunOne(s, AlterRole(app, pw));
    Names.SecretNameIsValid(ws.secretPrefix, app);
    if app in s.roles {
      var s1 := Apply(s, AlterRole(app, pw)).value;
      SecretPlanAccepted(s1, SecretName(ws, app), app, pw);
      if Run(s1, secret).Some? {
        RunOne(Run(s1, secret).value, PutFile(SecretPath(ws, app), SecretBody(ws, app, pw)));
      }
    }
  }

  /** Wherever a Rotate stops: a new file means a new Secret, and a new Secret means that the role was altered first. */
  lemma RotateInOrder(ws: Workspace, s: State, app: string, entropy: Entropy, confirmed: bool, acts: seq<Act>,
                      r: Result<Tenant>)
    requires Resolved(ws) && Exec(ws, s, acts).Some?
    requires RotateAttempt(ws, s, app, entropy, confirmed, acts, r)
    ensures var t := Exec(ws, s, acts).value.stores;
            var pw := SecretYaml.GeneratePassword(entropy);
            && (t.files != s.stores.files ==> FileHolds(t, ws, app, pw) && SecretHolds(t, ws, app, pw))
            && (t.secrets != s.stores.secrets ==> Commands(acts) != [] && Commands(acts)[0] == AlterRole(app, pw))
  {
    var cs, pw := Commands(acts), SecretYaml.GeneratePassword(entropy);
    OperatorOnlyTouchesPasswords(ws, s, acts);
    if cs != [] {
      var front, plan := RotateFront(ws, s.stores, app, pw), RotatePlan(ws, s.stores, app, pw);
      RotateFrontKinds(ws, s.stores, app, pw);
      NeverTorn(acts, plan, r.Ok?);
      assert cs[0] == plan[0];
      PrefixOrWhole(cs, front, PutFile(SecretPath(ws, app), SecretBody(ws, app, pw)));
      if cs <= front {
        PrefixAvoids(cs, front, Files);
        UntouchedStays(s.stores, cs, Files);
      } else {
        RotateResult(ws, s.stores, app, entropy, Exec(ws, s, acts).value.stores);
      }
    }
  }

  lemma RotateFrontKinds(ws: Workspace, s: Stores, app: string, pw: string)
    ensures Avoids(RotateFront(ws, s, app, pw), Files)
    ensures var plan := RotatePlan(ws, s, app, pw);
            && |plan| > 0 && plan[0] == AlterRole(app, pw)
            && forall i :: 0 <= i < |plan| ==> !plan[i].AppendEntry? && !plan[i].RemoveEntry?
  {
  }

  predicate OperatorActs(acts: seq<Act>, app: string) {
    exists i :: 0 <= i < |acts| && acts[i] == Reconciled(app)
  }

  lemma OperatorActsHead(acts: seq<Act>, app: string)
    requires acts != []
    ensures OperatorActs(acts, app) <==> acts[0] == Reconciled(app) || OperatorActs(acts[1..], app)
  {
    assert forall k :: 0 <= k < |acts[1..]| ==> acts[1..][k] == acts[k + 1];
    if OperatorActs(acts, app) && acts[0] != Reconciled(app) {
      var k :| 0 <= k < |acts| && acts[k] == Reconciled(app);
      assert acts[1..][k - 1] == Reconciled(app);
    }
  }

  lemma QuietStep(ws: Workspace, s: State, app: string, q: string, a: Act)
    requires Happen(ws, s, a).Some? && app in s.stores.roles && app in s.passwords && SecretPassword(s.stores, ws, app, q)
    requires a.Did? ==> Settled(a.command)
    ensures var t := Happen(ws, s, a).value;
            && t.stores.roles == s.stores.roles && t.stores.secrets == s.stores.secrets && app in t.passwords
            && t.passwords[app] == if a == Reconciled(app) then q else s.passwords[app]
  {
    if a.Did? {
      AppliedAway(s.stores, a.command, Secrets);
      AppliedAway(s.stores, a.command, Roles);
      assert SetPasswords(s.passwords, a.command) == s.passwords;
    }
  }

  lemma CommandsHead(acts: seq<Act>)
    requires acts != []
    ensures acts[0].Did? ==> Commands(acts) == [acts[0].command] + Commands(acts[1..])
    ensures !acts[0].Did? ==> Commands(acts) == Commands(acts[1..])
  {
  }

  /** A stretch in which Secret and role are left alone by the verb: the role ends with the Secret's password or its own. */
  lemma {:induction false} QuietStretch(ws: Workspace, s: State, app: string, q: string, acts: seq<Act>)
    requires Exec(ws, s, acts).Some? && app in s.stores.roles && app in s.passwords && SecretPassword(s.stores, ws, app, q)
    requires forall i :: 0 <= i < |Commands(acts)| ==> Settled(Commands(acts)[i])
    ensures var t := Exec(ws, s, acts).value;
            && t.stores.roles == s.stores.roles && t.stores.secrets == s.stores.secrets && app in t.passwords
            && t.passwords[app] == if OperatorActs(acts, app) then q else s.passwords[app]
    decreases acts
  {
    if acts != [] {
      CommandsHead(acts);
      if acts[0].Did? {
        assert Commands(acts)[0] == acts[0].command && Commands(acts)[1..] == Commands(acts[1..]);
      }
      QuietStep(ws, s, app, q, acts[0]);
      QuietStretch(ws, Happen(ws, s, acts[0]).value, app, q, acts[1..]);
      OperatorActsHead(acts, app);
    }
  }

  /** The Secret holds a password, and another one. */
  predicate Stale(s: Stores, ws: Workspace, app: string, pw: string) {
    && SecretName(ws, app) in s.secrets && "password" in s.secrets[SecretName(ws, app)].data
    && s.secrets[SecretName(ws, app)].data["password"] != pw
  }

  predicate BringsPassword(ws: Workspace, app: string, pw: string, c: Command) {
    c == CreateSecret(SecretName(ws, app), app, pw) || c == UpdateSecret(SecretName(ws, app), app, pw) || c.PutFile?
  }

  lemma FreshStep(ws: Workspace, s: State, app: string, pw: string, a: Act)
    requires Happen(ws, s, a).Some? && RoleHolds(s, app, pw) && !Stale(s.stores, ws, app, pw)
    requires a.Did? ==> BringsPassword(ws, app, pw, a.command)
    ensures RoleHolds(Happen(ws, s, a).value, app, pw) && !Stale(Happen(ws, s, a).value.stores, ws, app, pw)
  {
  }

  /** Without another password around, the operator can only bring the new one. */
  lemma {:induction false} FreshStretch(ws: Workspace, s: State, app: string, pw: string, acts: seq<Act>)
    requires Exec(ws, s, acts).Some? && RoleHolds(s, app, pw) && !Stale(s.stores, ws, app, pw)
    requires forall i :: 0 <= i < |Commands(acts)| ==> BringsPassword(ws, app, pw, Commands(acts)[i])
    ensures RoleHolds(Exec(ws, s, acts).value, app, pw)
    decreases acts
  {
    if acts != [] {
      CommandsHead(acts);
      if acts[0].Did? {
        assert Commands(acts)[0] == acts[0].command && Commands(acts)[1..] == Commands(acts[1..]);
      }
      FreshStep(ws, s, app, pw, acts[0]);
      FreshStretch(ws, Happen(ws, s, acts[0]).value, app, pw, acts[1..]);
    }
  }

  lemma AfterAlter(ws: Workspace, s: Stores, app: string, pw: string)
    ensures var rest := SecretPlan(s, SecretName(ws, app), app, pw) + FilePlan(ws, app, pw);
            rest != [] && forall i :: 0 <= i < |rest| ==> BringsPassword(ws, app, pw, rest[i])
    ensures RotatePlan(ws, s, app, pw)
         == [] + [AlterRole(app, pw)] + (SecretPlan(s, SecretName(ws, app), app, pw) + FilePlan(ws, app, pw))
  {
  }

  lemma AlteredOnce(ws: Workspace, s: State, app: string, pw: string)
    requires Happen(ws, s, Did(AlterRole(app, pw))).Some?
    ensures var t := Happen(ws, s, Did(AlterRole(app, pw))).value;
            RoleHolds(t, app, pw) && t.stores.secrets == s.stores.secrets
  {
  }

  /**
   Immediate agreement is not promised. From every state, at the return of a successful Rotate the role holds the
   new password unless the Secret held another one before, the operator acted on the role between the ALTER and
   the Secret write, and it did not act again afterwards.
   */
  lemma RotateAtReturn(ws: Workspace, s: State, app: string, entropy: Entropy, confirmed: bool, acts: seq<Act>,
                       r: Result<Tenant>) returns (i: nat, j: nat)
    requires Exec(ws, s, acts).Some?
    requires RotateAttempt(ws, s, app, entropy, confirmed, acts, r) && r.Ok?
    ensures var pw := SecretYaml.GeneratePassword(entropy);
            && i < j < |acts| && acts[i] == Did(AlterRole(app, pw))
            && (Stale(s.stores, ws, app, pw) ==> acts[j] == Did(UpdateSecret(SecretName(ws, app), app, pw)))
            && (RoleHolds(Exec(ws, s, acts).value, app, pw)
                <==> || !Stale(s.stores, ws, app, pw)
                     || !OperatorActs(acts[i + 1..j], app)
                     || OperatorActs(acts[j + 1..], app))
  {
    var pw := SecretYaml.GeneratePassword(entropy);
    var s1;
    i, s1 := FirstHalf(ws, s, app, pw, acts);
    var k := SecondHalf(ws, s1, app, pw, acts[i + 1..], SecretPlan(s.stores, SecretName(ws, app), app, pw));
    j := i + 1 + k;
    TailSlices(acts, i + 1, k);
  }

  /** A Rotate up to the ALTER. */
  lemma FirstHalf(ws: Workspace, s: State, app: string, pw: string, acts: seq<Act>) returns (i: nat, s1: State)
    requires Exec(ws, s, acts).Some? && Commands(acts) == RotatePlan(ws, s.stores, app, pw)
    ensures i < |acts| && acts[i] == Did(AlterRole(app, pw))
    ensures Exec(ws, s1, acts[i + 1..]) == Exec(ws, s, acts)
    ensures RoleHolds(s1, app, pw) && s1.stores.secrets == s.stores.secrets
    ensures Commands(acts[i + 1..]) == SecretPlan(s.stores, SecretName(ws, app), app, pw) + FilePlan(ws, app, pw)
  {
    var rest := SecretPlan(s.stores, SecretName(ws, app), app, pw) + FilePlan(ws, app, pw);
    AfterAlter(ws, s.stores, app, pw);
    i := FindCommand(acts, [], AlterRole(app, pw), rest);
    ExecAround(ws, s, acts, i);
    OperatorOnlyTouchesPasswords(ws, s, acts[..i]);
    var s0 := Exec(ws, s, acts[..i]).value;
    AlteredOnce(ws, s0, app, pw);
    s1 := Happen(ws, s0, acts[i]).value;
  }

  lemma TailSlices(acts: seq<Act>, from: nat, k: nat)
    requires from + k < |acts|
    ensures acts[from..][k] == acts[from + k]
    ensures acts[from..][..k] == acts[from..from + k] && acts[from..][k + 1..] == acts[from + k + 1..]
  {
  }

  /** A Rotate from the ALTER on. */
  lemma SecondHalf(ws: Workspace, s: State, app: string, pw: string, acts: seq<Act>, secret: seq<Command>) returns (k: nat)
    requires Exec(ws, s, acts).Some? && RoleHolds(s, app, pw)
    requires secret == SecretPlan(s.stores, SecretName(ws, app), app, pw)
    requires Commands(acts) == secret + FilePlan(ws, app, pw)
    ensures k < |acts|
    ensures Stale(s.stores, ws, app, pw) ==> acts[k] == Did(UpdateSecret(SecretName(ws, app), app, pw))
    ensures RoleHolds(Exec(ws, s, acts).value, app, pw)
       <==> !Stale(s.stores, ws, app, pw) || !OperatorActs(acts[..k], app) || OperatorActs(acts[k + 1..], app)
  {
    AfterAlter(ws, s.stores, app, pw);
    if Stale(s.stores, ws, app, pw) {
      var q := s.stores.secrets[SecretName(ws, app)].data["password"];
      k := UpdateAfterAlter(ws, s, app, pw, q, acts, FilePlan(ws, app, pw));
    } else {
      k := 0;
      FreshStretch(ws, s, app, pw, acts);
    }
  }

  /** And it does fail: from every state with another password in the Secret, a successful Rotate can lose the race. */
  lemma RotateLosesRace(ws: Workspace, s: State, app: string, entropy: Entropy) returns (acts: seq<Act>, r: Result<Tenant>)
    requires Names.IdentSafe(app) && app in s.stores.roles
    requires Stale(s.stores, ws, app, SecretYaml.GeneratePassword(entropy))
    ensures Exec(ws, s, acts).Some? && RotateAttempt(ws, s, app, entropy, true, acts, r) && r.Ok?
    ensures !RoleHolds(Exec(ws, s, acts).value, app, r.value.dsn.password)
  {
    var pw := SecretYaml.GeneratePassword(entropy);
    var q := s.stores.secrets[SecretName(ws, app)].data["password"];
    r := Ok(TenantOf(ws, app, pw));
    UpdatingRotation(ws, s.stores, app, pw, q);
    acts := RacedRotation(ws, s, app, pw, q);
  }

  lemma RacedRotation(ws: Workspace, s: State, app: string, pw: string, q: string) returns (acts: seq<Act>)
    requires app in s.stores.roles && SecretPassword(s.stores, ws, app, q) && q != pw
    ensures Exec(ws, s, acts).Some? && !RoleHolds(Exec(ws, s, acts).value, app, pw)
    ensures Commands(acts) == [AlterRole(app, pw)] + ([UpdateSecret(SecretName(ws, app), app, pw)] + FilePlan(ws, app, pw))
  {
    var alter, act, update := Did(AlterRole(app, pw)), Reconciled(app), Did(UpdateSecret(SecretName(ws, app), app, pw));
    var put := Did(PutFile(SecretPath(ws, app), SecretBody(ws, app, pw)));
    var s1 := Happen(ws, s, alter).value;
    var s2 := Happen(ws, s1, act).value;
    var s3 := Happen(ws, s2, update).value;
    var s4 := Happen(ws, s3, put).value;
    acts := [alter] + ([act] + ([update] + ([put] + [])));
    HappensFirst(ws, s3, put, []);
    HappensFirst(ws, s2, update, [put] + []);
    HappensFirst(ws, s1, act, [update] + ([put] + []));
    HappensFirst(ws, s, alter, [act] + ([update] + ([put] + [])));
    assert s4.passwords[app] == q;
  }

  lemma UpdatingRotation(ws: Workspace, s: Stores, app: string, pw: string, q: string)
    requires SecretPassword(s, ws, app, q) && q != pw
    ensures RotatePlan(ws, s, app, pw)
         == [] + [AlterRole(app, pw)] + ([UpdateSecret(SecretName(ws, app), app, pw)] + FilePlan(ws, app, pw))
  {
    assert SecretPlan(s, SecretName(ws, app), app, pw) == [UpdateSecret(SecretName(ws, app), app, pw)];
  }

  /** The second half of a Rotate: the role already holds pw, the Secret still holds q. */
  lemma UpdateAfterAlter(ws: Workspace, s: State, app: string, pw: string, q: string, acts: seq<Act>, file: seq<Command>)
    returns (k: nat)
    requires Exec(ws, s, acts).Some? && RoleHolds(s, app, pw) && pw != q
    requires SecretPassword(s.stores, ws, app, q)
    requires file == FilePlan(ws, app, pw)
    requires Commands(acts) == [UpdateSecret(SecretName(ws, app), app, pw)] + file
    ensures k < |acts| && acts[k] == Did(UpdateSecret(SecretName(ws, app), app, pw))
    ensures RoleHolds(Exec(ws, s, acts).value, app, pw)
       <==> !OperatorActs(acts[..k], app) || OperatorActs(acts[k + 1..], app)
  {
    var update := UpdateSecret(SecretName(ws, app), app, pw);
    assert [update] + file == [] + [update] + file;
    k := FindCommand(acts, [], update, file);
    ExecAround(ws, s, acts, k);
    var s2 := Exec(ws, s, acts[..k]).value;
    QuietStretch(ws, s, app, q, acts[..k]);
    SecretUpdatedOnce(ws, s2, app, pw);
    assert forall i :: 0 <= i < |file| ==> Settled(file[i]);
    QuietStretch(ws, Happen(ws, s2, acts[k]).value, app, pw, acts[k + 1..]);
  }

  lemma SecretUpdatedOnce(ws: Workspace, s: State, app: string, pw: string)
    requires Happen(ws, s, Did(UpdateSecret(SecretName(ws, app), app, pw))).Some?
    ensures var t := Happen(ws, s, Did(UpdateSecret(SecretName(ws, app), app, pw))).value;
            SecretPassword(t.stores, ws, app, pw) && t.stores.roles == s.stores.roles && t.passwords == s.passwords
  {
  }
}
