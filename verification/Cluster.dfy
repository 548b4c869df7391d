/**
 The outside world as the program meets it: calls that may fail before, within or after their effect, and an
 operator that acts in between. A script fixes what goes wrong, so quantifying over scripts is quantifying over
 everything that can happen.
 */
module Cluster {
  import opened Strings
  import Manifest
  import opened Paths
  import opened Stores

  /**
   A call that is cut reports an error after the first `done` commands it carried took effect. A manifest write
   is not atomic: cut at 1 it leaves `debris` in the file.
   */
  datatype Fault = NoFault | Cut(done: nat, debris: Option<Manifest.Node>)

  datatype Tick = Tick(reconciled: seq<string>, fault: Fault)

  predicate Calm(script: seq<Tick>) {
    forall i :: 0 <= i < |script| ==> script[i].fault.NoFault?
  }

  /** What is left of a script after n calls, and how its i-th call ends; beyond its end nothing goes wrong. */
  function Later(script: seq<Tick>, n: nat): seq<Tick> {
    if n <= |script| then script[n..] else []
  }

  function FaultAt(script: seq<Tick>, i: nat): Fault {
    if i < |script| then script[i].fault else NoFault
  }

  lemma LaterLater(script: seq<Tick>, a: nat, b: nat)
    ensures Later(Later(script, a), b) == Later(script, a + b)
    ensures forall i: nat :: FaultAt(Later(script, a), i) == FaultAt(script, a + i)
  {
  }

  datatype Patch = PatchDone | PatchExists | PatchFailed

  predicate EditsManifest(c: Command) { c.AppendEntry? || c.RemoveEntry? }

  /**
   Calls carrying `cs` moved the stores from s to t: the commands that took effect are a prefix of cs, all of them
   on success; and when nothing goes wrong, they succeed exactly if the services accept them all.
   */
  predicate Progress(was: seq<Command>, now: seq<Command>, s: Stores, t: Stores, cs: seq<Command>, ok: bool,
                     calmBefore: bool, calmAfter: bool) {
    && was <= now
    && now[|was|..] <= cs
    && (ok ==> now == was + cs)
    && Run(s, now[|was|..]) == Some(t)
    && (calmBefore ==> calmAfter && (ok <==> Run(s, cs).Some?))
  }

  /** Calls in sequence. */
  lemma ProgressChains(was: seq<Command>, mid: seq<Command>, now: seq<Command>, s: Stores, t: Stores, u: Stores,
                       a: seq<Command>, b: seq<Command>, ok: bool, c0: bool, c1: bool, c2: bool)
    requires Progress(was, mid, s, t, a, true, c0, c1)
    requires Progress(mid, now, t, u, b, ok, c1, c2)
    ensures Progress(was, now, s, u, a + b, ok, c0, c2)
  {
    assert mid[|was|..] == a;
    assert now[|was|..] == a + now[|mid|..];
    RunAppend(s, a, now[|mid|..]);
    RunAppend(s, a, b);
  }

  /** A sequence that stops at its first failing call. */
  lemma ProgressStops(was: seq<Command>, now: seq<Command>, s: Stores, t: Stores, a: seq<Command>, b: seq<Command>,
                      c0: bool, c1: bool)
    requires Progress(was, now, s, t, a, false, c0, c1)
    ensures Progress(was, now, s, t, a + b, false, c0, c1)
  {
    RunAppend(s, a, b);
  }

  /** No call reported an error between `was` and `now`. */
  ghost predicate NoneBlamed(was: seq<Act>, now: seq<Act>) {
    was <= now && forall f :: Failed(f) in now ==> Failed(f) in was
  }

  /** Every call that reported an error between `was` and `now` carried commands of `cs` only. */
  ghost predicate OnlyBlamed(was: seq<Act>, now: seq<Act>, cs: seq<Command>) {
    was <= now && forall f :: Failed(f) in now ==> Failed(f) in was || forall c :: c in f ==> c in cs
  }

  lemma BlameChains(was: seq<Act>, mid: seq<Act>, now: seq<Act>, a: seq<Command>, b: seq<Command>)
    requires OnlyBlamed(was, mid, a) && OnlyBlamed(mid, now, b)
    ensures OnlyBlamed(was, now, a + b)
  {
  }

  function EditedTree(doc: Manifest.Node, c: Command): Manifest.Outcome
    requires EditsManifest(c)
  {
    if c.AppendEntry? then Manifest.Appended(doc, c.entry) else Manifest.Removed(doc, c.role)
  }

  method EditTree(doc: Manifest.Node, c: Command) returns (r: Manifest.Outcome)
    requires EditsManifest(c)
    ensures r == EditedTree(doc, c)
  {
    if c.AppendEntry? {
      r := Manifest.AppendRole(doc, c.entry);
    } else {
      r := Manifest.RemoveRole(doc, c.role);
    }
  }

  class World {
    const ws: Workspace
    var state: State
    var script: seq<Tick>

    /** Where the running verb started, and what has happened since. */
    ghost var base: State
    ghost var acts: seq<Act>

    ghost predicate Valid()
      reads this
    {
      Exec(ws, base, acts) == Some(state)
    }

    constructor (ws: Workspace, state: State, script: seq<Tick>)
      ensures this.ws == ws && this.state == state && this.script == script
      ensures Valid() && acts == []
    {
      this.ws, this.state, this.script := ws, state, script;
      this.base, this.acts := state, [];
    }

    ghost method Begin()
      modifies this`base, this`acts
      ensures Valid() && base == state && acts == []
    {
      base, acts := state, [];
    }

    ghost method Record(a: Act)
      requires Exec(ws, base, acts).Some? && Happen(ws, Exec(ws, base, acts).value, a) == Some(state)
      modifies this`acts
      ensures Valid() && acts == old(acts) + [a]
      ensures Commands(acts) == old(Commands(acts)) + CommandOf(a)
    {
      ExecAppend(ws, base, acts, [a]);
      CommandsAppend(acts, [a]);
      assert [a][1..] == [];
      assert Exec(ws, state, []) == Some(state);
      assert CommandOf(a) + [] == CommandOf(a);
      acts := acts + [a];
    }

    /** What every sequence of calls guarantees; see Progress. */
    twostate predicate Sent(cs: seq<Command>, ok: bool)
      reads this
    {
      && Valid() && base == old(base) && old(acts) <= acts
      && Progress(old(Commands(acts)), Commands(acts), old(state.stores), state.stores, cs, ok,
                  old(Calm(script)), Calm(script))
    }

    /** Time passes: the operator may act, and the script says how the next call ends. */
    method Await() returns (f: Fault)
      requires Valid()
      modifies this
      ensures Valid() && base == old(base) && state.stores == old(state.stores)
      ensures old(acts) <= acts && Commands(acts) == old(Commands(acts))
      ensures old(Calm(script)) ==> Calm(script) && f.NoFault?
      ensures script == Later(old(script), 1) && f == FaultAt(old(script), 0)
      ensures NoneBlamed(old(acts), acts)
    {
      if script == [] {
        return NoFault;
      }
      var t := script[0];
      script := script[1..];
      for i := 0 to |t.reconciled|
        invariant Valid() && base == old(base) && state.stores == old(state.stores)
        invariant NoneBlamed(old(acts), acts) && Commands(acts) == old(Commands(acts))
        invariant script == old(script)[1..]
      {
        state := Reconcile(ws, state, t.reconciled[i]);
        Record(Reconciled(t.reconciled[i]));
      }
      f := t.fault;
    }

    /** A call that only reads. */
    method Ask() returns (ok: bool)
      requires Valid()
      modifies this
      ensures Sent([], ok) && state.stores == old(state.stores) && NoneBlamed(old(acts), acts)
      ensures script == Later(old(script), 1) && (ok <==> FaultAt(old(script), 0).NoFault?)
    {
      var f := Await();
      ok := f.NoFault?;
      assert Run(old(state.stores), []) == Some(state.stores);
    }

    /** The service executes commands one by one, at most `limit` of them, until one is refused. */
    method Execute(cs: seq<Command>, limit: nat) returns (done: nat)
      requires Valid() && limit <= |cs|
      modifies this`state, this`acts
      ensures Valid() && NoneBlamed(old(acts), acts)
      ensures done <= limit
      ensures Commands(acts) == old(Commands(acts)) + cs[..done]
      ensures Run(old(state.stores), cs[..done]) == Some(state.stores)
      ensures done < limit ==> Run(old(state.stores), cs).None?
    {
      done := 0;
      while done < limit && Apply(state.stores, cs[done]).Some?
        invariant done <= limit
        invariant Valid() && NoneBlamed(old(acts), acts)
        invariant Commands(acts) == old(Commands(acts)) + cs[..done]
        invariant Run(old(state.stores), cs[..done]) == Some(state.stores)
      {
        RunSnoc(old(state.stores), cs, done);
        state := State(Apply(state.stores, cs[done]).value, SetPasswords(state.passwords, cs[done]));
        Record(Did(cs[done]));
        assert cs[..done + 1] == cs[..done] + [cs[done]];
        done := done + 1;
      }
      if done < limit {
        RunSnoc(old(state.stores), cs, done);
        RunCut(old(state.stores), cs, done + 1);
      }
    }

    /** A call carrying commands; an error says nothing about how many of them took effect. */
    method Send(cs: seq<Command>) returns (ok: bool)
      requires Valid()
      modifies this
      ensures Sent(cs, ok)
      ensures script == Later(old(script), 1)
      ensures ok <==> FaultAt(old(script), 0).NoFault? && Run(old(state.stores), cs).Some?
      ensures ok ==> NoneBlamed(old(acts), acts)
      ensures !ok ==> Failed(cs) in acts && OnlyBlamed(old(acts), acts, cs)
    {
      var f := Await();
      var limit := if f.NoFault? || f.done > |cs| then |cs| else f.done;
      var done := Execute(cs, limit);
      assert cs[..|cs|] == cs;
      ok := f.NoFault? && done == |cs|;
      ghost var now := Commands(acts);
      if !ok {
        Record(Failed(cs));
        assert now + [] == now;
      }
      assert now[|old(Commands(acts))|..] == cs[..done];
    }

    /** A manifest edit is carried through, refused because the role exists, or fails at some point of the write. */
    twostate predicate Edited(c: Command, r: Patch)
      requires EditsManifest(c)
      reads this
    {
      && Valid() && base == old(base) && old(acts) <= acts
      && EditOutcome(old(Commands(acts)), Commands(acts), old(state.stores), state.stores, c, r)
      && (old(Calm(script)) ==> Calm(script) && (r.PatchFailed? <==> !Editable(old(state.stores), c)))
    }

    /** One effect of a call. */
    method Effect(c: Command)
      requires Valid() && Apply(state.stores, c).Some?
      modifies this`state, this`acts
      ensures Valid() && NoneBlamed(old(acts), acts)
      ensures Commands(acts) == old(Commands(acts)) + [c]
      ensures Apply(old(state.stores), c) == Some(state.stores)
    {
      state := State(Apply(state.stores, c).value, SetPasswords(state.passwords, c));
      Record(Did(c));
    }

    /** os.WriteFile over the manifest: truncate, then write. */
    method WriteManifest(c: Command) returns (r: Patch)
      requires Valid() && EditsManifest(c)
      requires state.stores.manifest.Some? && EditedTree(state.stores.manifest.value, c).Patched?
      modifies this
      ensures Edited(c, r) && !r.PatchExists?
    {
      EditIsApplied(state.stores, c);
      var f := Await();
      ghost var was := Commands(acts);
      if f.NoFault? || f.done > 1 {
        RunOne(state.stores, c);
        Effect(c);
        assert Commands(acts)[|was|..] == [c];
        r := if f.NoFault? then PatchDone else PatchFailed;
      } else if f.done == 1 {
        RunOne(state.stores, Tear(f.debris));
        Effect(Tear(f.debris));
        assert Commands(acts)[|was|..] == [Tear(f.debris)];
        r := PatchFailed;
      } else {
        assert Commands(acts)[|was|..] == [];
        r := PatchFailed;
      }
    }

    /** Read, edit in memory, write back (clusteryaml.modify). */
    method PatchManifest(c: Command) returns (r: Patch)
      requires Valid() && EditsManifest(c)
      modifies this
      ensures Edited(c, r)
    {
      var read := Ask();
      ghost var was := Commands(acts);
      assert Commands(acts)[|was|..] == [];
      if !read || state.stores.manifest.None? {
        return PatchFailed;
      }
      var edited := EditTree(state.stores.manifest.value, c);
      if edited.RoleExists? {
        return PatchExists;
      }
      if !edited.Patched? {
        return PatchFailed;
      }
      r := WriteManifest(c);
    }
  }

  lemma RunOne(s: Stores, c: Command)
    ensures Run(s, [c]) == Apply(s, c)
  {
    assert [c][1..] == [];
  }

  predicate EditOutcome(was: seq<Command>, now: seq<Command>, s: Stores, t: Stores, c: Command, r: Patch)
    requires EditsManifest(c)
  {
    && was <= now
    && Run(s, now[|was|..]) == Some(t)
    && match r
       case PatchDone => now == was + [c]
       case PatchExists => now == was && AlreadyDeclared(s, c)
       case PatchFailed =>
         now == was || (Apply(s, c).Some? && (now == was + [c] || (|now| == |was| + 1 && now[|was|].Tear?)))
  }

  predicate AlreadyDeclared(s: Stores, c: Command)
    requires EditsManifest(c)
  {
    s.manifest.Some? && EditedTree(s.manifest.value, c).RoleExists?
  }

  predicate Editable(s: Stores, c: Command)
    requires EditsManifest(c)
  {
    s.manifest.Some? && (EditedTree(s.manifest.value, c).Patched? || EditedTree(s.manifest.value, c).RoleExists?)
  }

  /** What a failing manifest write left in the file is the tree that was there. */
  predicate SameTree(s: Stores, c: Command, done: Command)
    requires EditsManifest(c)
  {
    if done.Tear? then done.debris == s.manifest
    else s.manifest.Some? && EditedTree(s.manifest.value, c) == Manifest.Patched(s.manifest.value)
  }

  /**
   An error of a manifest edit leaves the file as it was exactly when nothing was written, or what was written is
   the same tree; and a completed write is the same tree only when it removes a role that is not declared.
   */
  lemma FailedEditUnchangedIff(was: seq<Command>, now: seq<Command>, s: Stores, t: Stores, c: Command)
    requires EditsManifest(c) && EditOutcome(was, now, s, t, c, PatchFailed)
    ensures t == s.(manifest := t.manifest)
    ensures t.manifest == s.manifest <==> now == was || SameTree(s, c, now[|was|])
    ensures now == was + [c] && t.manifest == s.manifest ==>
      s.manifest.Some? && Manifest.RolesPath(s.manifest.value).Some? && c.RemoveEntry?
      && !Manifest.Declares(Manifest.Entries(s.manifest.value), c.role)
  {
    if now == was {
      assert now[|was|..] == [];
    } else {
      var done := now[|was|];
      assert now[|was|..] == [done];
      RunOne(s, done);
      WrittenOnce(s, done, c, t);
      if done == c && t.manifest == s.manifest {
        CompletedSameTree(s, c);
      }
    }
  }

  lemma WrittenOnce(s: Stores, done: Command, c: Command, t: Stores)
    requires EditsManifest(c) && Apply(s, done) == Some(t) && (done == c || done.Tear?)
    ensures t == s.(manifest := t.manifest)
    ensures t.manifest == s.manifest <==> SameTree(s, c, done)
  {
  }

  lemma CompletedSameTree(s: Stores, c: Command)
    requires EditsManifest(c) && SameTree(s, c, c)
    ensures s.manifest.Some?
    ensures Manifest.RolesPath(s.manifest.value).Some? && c.RemoveEntry?
    ensures !Manifest.Declares(Manifest.Entries(s.manifest.value), c.role)
  {
    Manifest.SameTreeIff(s.manifest.value,
                         if c.AppendEntry? then Manifest.Append(c.entry) else Manifest.Remove(c.role));
  }

  lemma EditIsApplied(s: Stores, c: Command)
    requires EditsManifest(c)
    ensures Apply(s, c).Some? <==> s.manifest.Some? && EditedTree(s.manifest.value, c).Patched?
  {
  }

  lemma RunSnoc(s: Stores, cs: seq<Command>, i: nat)
    requires i < |cs|
    ensures Run(s, cs[..i + 1]) == if Run(s, cs[..i]).None? then None else Apply(Run(s, cs[..i]).value, cs[i])
  {
    assert cs[..i + 1] == cs[..i] + [cs[i]];
    RunAppend(s, cs[..i], [cs[i]]);
    if Run(s, cs[..i]).Some? {
      var u := Run(s, cs[..i]).value;
      assert [cs[i]][1..] == [];
      assert Run(u, [cs[i]]) == Apply(u, cs[i]);
    }
  }

  lemma RunCut(s: Stores, cs: seq<Command>, i: nat)
    requires i <= |cs| && Run(s, cs[..i]).None?
    ensures Run(s, cs).None?
  {
    assert cs == cs[..i] + cs[i..];
    RunAppend(s, cs[..i], cs[i..]);
  }
}
