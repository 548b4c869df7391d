/**
 pg.CrossPodDumpRestore: two goroutines joined by a synchronous pipe, two buffered result channels and a wait
 group, as a transition system over every interleaving.
 */
module Stream {
  import opened Strings

  newtype Octet = x: int | 0 <= x < 256

  type Bytes = seq<Octet>

  /** Where the dumping goroutine is: its Exec, the send, and the two deferred calls in the order they run. */
  datatype DumpAt = Dumping | DumpReturned(ok: bool) | DumpSent(ok: bool) | DumpClosed(ok: bool) | DumpDone(ok: bool)

  datatype RestoreAt = Restoring | RestoreReturned(ok: bool) | RestoreSent(ok: bool) | RestoreDone(ok: bool)

  datatype MainAt =
    | WantDump
    | WantRestore(dumpOk: bool)
    | WantBoth(dumpOk: bool, restoreOk: bool)
    | ClosingReader(dumpOk: bool, restoreOk: bool)
    | Returned(dumpOk: bool, restoreOk: bool)

  /**
   `pending` is what a Write in progress still waits to hand over; `read` is what pg_restore was given, and `stray`
   what the copying of its standard input still took out of the pipe after its Exec had returned: one chunk at most,
   for handing it on fails. A channel holds at most one result.
   */
  datatype System = System(
    archive: Bytes, written: Bytes, pending: Bytes, read: Bytes, stray: Bytes, closed: bool, eof: bool, cancelled: bool,
    dump: DumpAt, restore: RestoreAt, main: MainAt, dumpC: Option<bool>, restoreC: Option<bool>)

  datatype Step =
    | Cancel
    | Write(chunk: Bytes)
    | DumpReturns(ok: bool)
    | DumpSends
    | DumpCloses
    | DumpFinishes
    | Read(count: nat)
    | ReadEof
    | ReadInVain(count: nat)
    | RestoreReturns(ok: bool)
    | RestoreSends
    | RestoreFinishes
    | TakeDump
    | TakeRestore
    | WaitEnds
    | ReaderCloses

  function Start(archive: Bytes): System {
    System(archive, [], [], [], [], false, false, false, Dumping, Restoring, WantDump, None, None)
  }

  /**
   A Write returns when the reader has taken all of it. Exec succeeds only once everything was written; with a
   Write in progress it returns only because of a cancellation. pg_restore may give up at any moment.
   */
  predicate Enabled(s: System, step: Step) {
    match step
    case Cancel => !s.cancelled
    case Write(chunk) => s.dump.Dumping? && s.pending == [] && chunk != [] && s.written + chunk <= s.archive
    case DumpReturns(ok) =>
      s.dump.Dumping? && if ok then s.pending == [] && s.written == s.archive else s.pending == [] || s.cancelled
    case DumpSends => s.dump.DumpReturned? && s.dumpC.None?
    case DumpCloses => s.dump.DumpSent?
    case DumpFinishes => s.dump.DumpClosed?
    case Read(count) => s.restore.Restoring? && 0 < count <= |s.pending|
    case ReadEof => s.restore.Restoring? && s.closed && !s.eof
    case ReadInVain(count) => !s.restore.Restoring? && s.stray == [] && 0 < count <= |s.pending|
    case RestoreReturns(_) => s.restore.Restoring?
    case RestoreSends => s.restore.RestoreReturned? && s.restoreC.None?
    case RestoreFinishes => s.restore.RestoreSent?
    case TakeDump => s.main.WantDump? && s.dumpC.Some?
    case TakeRestore => s.main.WantRestore? && s.restoreC.Some?
    case WaitEnds => s.main.WantBoth? && s.dump.DumpDone? && s.restore.RestoreDone?
    case ReaderCloses => s.main.ClosingReader?
  }

  function Next(s: System, step: Step): System
    requires Enabled(s, step)
  {
    match step
    case Cancel => s.(cancelled := true)
    case Write(chunk) => s.(written := s.written + chunk, pending := chunk)
    case DumpReturns(ok) => s.(dump := DumpReturned(ok))
    case DumpSends => s.(dump := DumpSent(s.dump.ok), dumpC := Some(s.dump.ok))
    case DumpCloses => s.(dump := DumpClosed(s.dump.ok), closed := true, pending := [])
    case DumpFinishes => s.(dump := DumpDone(s.dump.ok))
    case Read(count) => s.(read := s.read + s.pending[..count], pending := s.pending[count..])
    case ReadEof => s.(eof := true)
    case ReadInVain(count) => s.(stray := s.pending[..count], pending := s.pending[count..])
    case RestoreReturns(ok) => s.(restore := RestoreReturned(ok))
    case RestoreSends => s.(restore := RestoreSent(s.restore.ok), restoreC := Some(s.restore.ok))
    case RestoreFinishes => s.(restore := RestoreDone(s.restore.ok))
    case TakeDump => s.(main := WantRestore(s.dumpC.value), dumpC := None)
    case TakeRestore => s.(main := WantBoth(s.main.dumpOk, s.restoreC.value), restoreC := None)
    case WaitEnds => s.(main := ClosingReader(s.main.dumpOk, s.main.restoreOk))
    case ReaderCloses => s.(main := Returned(s.main.dumpOk, s.main.restoreOk))
  }

  function Run(s: System, steps: seq<Step>): Option<System>
    decreases steps
  {
    if steps == [] then Some(s)
    else if !Enabled(s, steps[0]) then None
    else Run(Next(s, steps[0]), steps[1..])
  }

  // ----- what every interleaving keeps

  predicate PipeInv(s: System) {
    && s.written <= s.archive
    && (if s.closed then s.pending == [] && s.read + s.stray <= s.written else s.read + s.stray + s.pending == s.written)
    && (s.stray != [] ==> !s.restore.Restoring? && !s.eof)
    && (s.closed <==> s.dump.DumpClosed? || s.dump.DumpDone?)
    && (s.eof ==> s.closed)
    && (!s.dump.Dumping? && s.dump.ok ==> s.read + s.stray == s.written == s.archive && s.pending == [])
  }

  predicate ChannelInv(s: System) {
    && s.dumpC == (if s.main.WantDump? && !s.dump.Dumping? && !s.dump.DumpReturned? then Some(s.dump.ok) else None)
    && s.restoreC == (if (s.main.WantDump? || s.main.WantRestore?) && !s.restore.Restoring? && !s.restore.RestoreReturned?
                      then Some(s.restore.ok) else None)
  }

  predicate MainInv(s: System) {
    && (!s.main.WantDump? ==> !s.dump.Dumping? && !s.dump.DumpReturned? && s.main.dumpOk == s.dump.ok)
    && (!s.main.WantDump? && !s.main.WantRestore? ==>
          !s.restore.Restoring? && !s.restore.RestoreReturned? && s.main.restoreOk == s.restore.ok)
    && (s.main.ClosingReader? || s.main.Returned? ==> s.dump.DumpDone? && s.restore.RestoreDone?)
  }

  predicate Inv(s: System) {
    PipeInv(s) && ChannelInv(s) && MainInv(s)
  }

  lemma StepKeepsPipe(s: System, step: Step)
    requires PipeInv(s) && Enabled(s, step)
    ensures PipeInv(Next(s, step))
  {
    match step
    case Write(chunk) =>
      assert s.read + s.stray + [] == s.written;
    case Read(count) =>
      assert s.stray == [];
      HandedOver(s.read, s.pending, count);
    case ReadInVain(count) =>
      assert s.read + [] == s.read;
      HandedOver(s.read, s.pending, count);
    case DumpReturns(ok) =>
      assert ok ==> s.read + s.stray + [] == s.read + s.stray;
    case DumpCloses =>
      assert s.read + s.stray <= s.read + s.stray + s.pending;
    case _ =>
  }

  lemma HandedOver(read: Bytes, pending: Bytes, count: nat)
    requires count <= |pending|
    ensures read + pending[..count] + pending[count..] == read + pending
    ensures read + pending[..count] + [] + pending[count..] == read + pending
    ensures read + [] + pending == read + pending
  {
    assert pending[..count] + pending[count..] == pending;
    ConsAppend(read, pending[..count], pending[count..]);
  }

  lemma StepKeepsRest(s: System, step: Step)
    requires Inv(s) && Enabled(s, step)
    ensures ChannelInv(Next(s, step)) && MainInv(Next(s, step))
  {
  }

  lemma {:induction false} RunKeepsInv(s: System, steps: seq<Step>)
    requires Inv(s) && Run(s, steps).Some?
    ensures Inv(Run(s, steps).value)
    ensures Run(s, steps).value.archive == s.archive
    decreases steps
  {
    if steps != [] {
      StepKeepsPipe(s, steps[0]);
      StepKeepsRest(s, steps[0]);
      RunKeepsInv(Next(s, steps[0]), steps[1..]);
    }
  }

  ghost predicate Reachable(s: System) {
    exists steps :: Run(Start(s.archive), steps) == Some(s)
  }

  lemma ReachableInv(s: System)
    requires Reachable(s)
    ensures Inv(s)
  {
    var steps :| Run(Start(s.archive), steps) == Some(s);
    RunKeepsInv(Start(s.archive), steps);
  }

  // ----- what arrives

  /** In every interleaving, restore has read a prefix of what dump wrote, and that is a prefix of the archive. */
  lemma OnlyPrefixesArrive(s: System)
    requires Reachable(s)
    ensures s.read <= s.read + s.stray <= s.written <= s.archive
  {
    ReachableInv(s);
  }

  /** The end of the stream shows only after dump's Exec has returned, and its result was sent. */
  lemma EofAfterDump(s: System)
    requires Reachable(s) && s.eof
    ensures s.dump.DumpClosed? || s.dump.DumpDone?
  {
    ReachableInv(s);
  }

  /** What the caller gets: nil is the absence of both errors. */
  predicate IsNil(s: System)
    requires s.main.Returned?
  {
    s.main.dumpOk && s.main.restoreOk
  }

  /**
   nil exactly when both Execs succeeded. Then the whole archive went through the pipe, and pg_restore was given all
   of it exactly when nothing was taken in vain; a pg_restore that stopped only at the end of the stream got it all.
   */
  lemma NilMeansWholeArchive(s: System)
    requires Reachable(s) && s.main.Returned?
    ensures s.dump.DumpDone? && s.restore.RestoreDone?
    ensures IsNil(s) <==> s.dump.ok && s.restore.ok
    ensures IsNil(s) ==> s.read + s.stray == s.archive
    ensures IsNil(s) ==> (s.read == s.archive <==> s.stray == [])
    ensures IsNil(s) && s.eof ==> s.read == s.archive
  {
    ReachableInv(s);
    assert s.read + [] == s.read;
    if s.stray != [] {
      assert |s.read + s.stray| == |s.read| + |s.stray|;
    }
  }

  /**
   That pg_restore succeeds only at the end of the stream is needed: for every archive there is a run that returns
   nil and has restored nothing.
   */
  lemma EarlySuccessLosesAll(archive: Bytes) returns (s: System)
    requires archive != []
    ensures s.archive == archive && Reachable(s) && s.main.Returned? && IsNil(s)
    ensures s.read == [] && !s.eof
  {
    var s4 := TakenInVain(archive, Ending());
    s := RunOut(s4);
  }

  lemma TakenInVain(archive: Bytes, rest: seq<Step>) returns (s: System)
    requires archive != []
    ensures s.archive == archive && s.dump == DumpReturned(true) && s.restore == RestoreReturned(true)
    ensures s.main.WantDump? && s.dumpC.None? && s.restoreC.None? && s.read == [] && !s.eof
    ensures Run(Start(archive), [Write(archive)] + ([RestoreReturns(true)] + ([ReadInVain(|archive|)]
                                + ([DumpReturns(true)] + rest)))) == Run(s, rest)
  {
    assert [] + archive == archive;
    var s1 := Next(Start(archive), Write(archive));
    var s2 := Next(s1, RestoreReturns(true));
    var s3 := Next(s2, ReadInVain(|archive|));
    s := Next(s3, DumpReturns(true));
    RunStep(s3, DumpReturns(true), rest);
    RunStep(s2, ReadInVain(|archive|), [DumpReturns(true)] + rest);
    RunStep(s1, RestoreReturns(true), [ReadInVain(|archive|)] + ([DumpReturns(true)] + rest));
    RunStep(Start(archive), Write(archive),
            [RestoreReturns(true)] + ([ReadInVain(|archive|)] + ([DumpReturns(true)] + rest)));
  }

  /** What remains to happen once both Execs have returned. */
  function Ending(): seq<Step> {
    [DumpSends] + ([DumpCloses] + LateEnding())
  }

  lemma RunOut(s: System) returns (t: System)
    requires s.dump.DumpReturned? && s.restore.RestoreReturned? && s.main.WantDump? && s.dumpC.None? && s.restoreC.None?
    ensures Run(s, Ending()) == Some(t)
    ensures t.main == Returned(s.dump.ok, s.restore.ok)
    ensures t.archive == s.archive && t.read == s.read && t.stray == s.stray && t.eof == s.eof
  {
    var a := Next(s, DumpSends);
    var b := Next(a, DumpCloses);
    t := RunOutLate(b);
    RunStep(a, DumpCloses, LateEnding());
    RunStep(s, DumpSends, [DumpCloses] + LateEnding());
  }

  /** What remains to happen once the pipe is closed and restore has returned. */
  function LateEnding(): seq<Step> {
    [DumpFinishes] + ([RestoreSends] + ([RestoreFinishes] + ([TakeDump] + ([TakeRestore] + ([WaitEnds]
    + ([ReaderCloses] + []))))))
  }

  lemma RunOutLate(s: System) returns (t: System)
    requires s.dump.DumpClosed? && s.restore.RestoreReturned? && s.main.WantDump?
    requires s.dumpC == Some(s.dump.ok) && s.restoreC.None?
    ensures Run(s, LateEnding()) == Some(t)
    ensures t.main == Returned(s.dump.ok, s.restore.ok) && t.restore == RestoreDone(s.restore.ok)
    ensures t.archive == s.archive && t.read == s.read && t.stray == s.stray && t.eof == s.eof
  {
    var c := Next(s, DumpFinishes);
    var d := Next(c, RestoreSends);
    var e := Next(d, RestoreFinishes);
    var f := Next(e, TakeDump);
    var g := Next(f, TakeRestore);
    var h := Next(g, WaitEnds);
    t := Next(h, ReaderCloses);
    RunStep(h, ReaderCloses, []);
    RunStep(g, WaitEnds, [ReaderCloses] + []);
    var r7 := [WaitEnds] + ([ReaderCloses] + []);
    RunStep(f, TakeRestore, r7);
    var r6 := [TakeRestore] + r7;
    RunStep(e, TakeDump, r6);
    var r5 := [TakeDump] + r6;
    RunStep(d, RestoreFinishes, r5);
    var r4 := [RestoreFinishes] + r5;
    RunStep(c, RestoreSends, r4);
    RunStep(s, DumpFinishes, [RestoreSends] + r4);
  }

  /**
   pg_restore may take a truncated stream for a whole one, but the caller is told: for every archive there is a run
   in which it succeeds at the end of an empty stream, and the result is dump's error.
   */
  lemma TruncationIsReported(archive: Bytes) returns (s: System)
    requires archive != []
    ensures s.archive == archive && Reachable(s) && s.main.Returned?
    ensures s.restore == RestoreDone(true) && s.eof && s.read == [] && !IsNil(s)
  {
    var s1 := Next(Start(archive), DumpReturns(false));
    var s2 := Next(s1, DumpSends);
    var s3 := Next(s2, DumpCloses);
    var s4 := Next(s3, ReadEof);
    var s5 := Next(s4, RestoreReturns(true));
    var tail := LateEnding();
    s := RunOutLate(s5);
    RunStep(s4, RestoreReturns(true), tail);
    RunStep(s3, ReadEof, [RestoreReturns(true)] + tail);
    RunStep(s2, DumpCloses, [ReadEof] + ([RestoreReturns(true)] + tail));
    RunStep(s1, DumpSends, [DumpCloses] + ([ReadEof] + ([RestoreReturns(true)] + tail)));
    RunStep(Start(archive), DumpReturns(false),
            [DumpSends] + ([DumpCloses] + ([ReadEof] + ([RestoreReturns(true)] + tail))));
  }

  // ----- who waits for whom

  /** Neither goroutine ever waits to hand over its result. */
  lemma SendsNeverBlock(s: System)
    requires Reachable(s)
    ensures s.dump.DumpReturned? ==> Enabled(s, DumpSends)
    ensures s.restore.RestoreReturned? ==> Enabled(s, RestoreSends)
  {
    ReachableInv(s);
  }

  /** dump waits for a reader that has already given up, and has taken its last chunk. */
  predicate Abandoned(s: System) {
    s.dump.Dumping? && s.pending != [] && !s.cancelled && s.restore.RestoreDone? && s.stray != []
  }

  /** Nothing but a cancellation can still happen. */
  ghost predicate Stuck(s: System) {
    !s.main.Returned? && forall step :: Enabled(s, step) ==> step.Cancel?
  }

  /** Where a call that is not stuck can go on. */
  function Onward(s: System): Step
    requires s.written <= s.archive
  {
    if s.main.ClosingReader? then ReaderCloses
    else if s.dumpC.Some? then TakeDump
    else if s.main.WantRestore? && s.restoreC.Some? then TakeRestore
    else if s.restore.Restoring? && s.pending != [] then Read(|s.pending|)
    else if s.stray == [] && s.pending != [] then ReadInVain(|s.pending|)
    else if s.dump.Dumping? && s.pending == [] then
      if s.written == s.archive then DumpReturns(true) else Write(s.archive[|s.written|..])
    else if s.dump.Dumping? && s.cancelled then DumpReturns(false)
    else if s.dump.DumpReturned? then DumpSends
    else if s.dump.DumpSent? then DumpCloses
    else if s.dump.DumpClosed? then DumpFinishes
    else if s.restore.Restoring? && !s.eof then ReadEof
    else if s.restore.Restoring? then RestoreReturns(true)
    else if s.restore.RestoreReturned? then RestoreSends
    else if s.restore.RestoreSent? then RestoreFinishes
    else WaitEnds
  }

  lemma OnwardIsEnabled(s: System)
    requires Inv(s) && !s.main.Returned? && !Abandoned(s)
    ensures Enabled(s, Onward(s)) && !Onward(s).Cancel?
  {
    if s.dump.Dumping? && s.pending == [] && s.written != s.archive {
      assert s.written + s.archive[|s.written|..] == s.archive;
    }
  }

  lemma AbandonedIsStuck(s: System, step: Step)
    requires Inv(s) && Abandoned(s) && Enabled(s, step)
    ensures step.Cancel?
  {
  }

  /** The only way to hang: restore is done, its last chunk was taken in vain, a Write still waits, and nobody has cancelled. */
  lemma StuckIff(s: System)
    requires Reachable(s)
    ensures Stuck(s) <==> Abandoned(s)
  {
    ReachableInv(s);
    if Abandoned(s) {
      forall step | Enabled(s, step) ensures step.Cancel? {
        AbandonedIsStuck(s, step);
      }
    } else if !s.main.Returned? {
      OnwardIsEnabled(s);
    }
  }

  /** A restore that reads to the end of the stream never leaves the call stuck; nor does anything, once cancelled. */
  lemma ReadingToTheEndSuffices(s: System)
    requires Reachable(s) && (s.cancelled || s.restore.Restoring? || s.eof)
    ensures !Stuck(s)
  {
    ReachableInv(s);
    StuckIff(s);
  }

  lemma RunStep(s: System, step: Step, rest: seq<Step>)
    requires Enabled(s, step)
    ensures Run(s, [step] + rest) == Run(Next(s, step), rest)
  {
    assert ([step] + rest)[1..] == rest;
  }

  /** A restore that fails before reading anything makes the call hang until it is cancelled: for every archive but the shortest. */
  lemma EarlyFailureHangs(archive: Bytes) returns (s: System)
    requires |archive| > 1
    ensures s.archive == archive && Reachable(s) && Stuck(s)
    ensures s.restore == RestoreDone(false) && s.read == []
  {
    assert [] + archive == archive;
    var s1 := Next(Start(archive), Write(archive));
    var s2 := Next(s1, RestoreReturns(false));
    var s3 := Next(s2, ReadInVain(1));
    var s4 := Next(s3, RestoreSends);
    s := Next(s4, RestoreFinishes);
    RunStep(s4, RestoreFinishes, []);
    RunStep(s3, RestoreSends, [RestoreFinishes] + []);
    RunStep(s2, ReadInVain(1), [RestoreSends] + ([RestoreFinishes] + []));
    RunStep(s1, RestoreReturns(false), [ReadInVain(1)] + ([RestoreSends] + ([RestoreFinishes] + [])));
    RunStep(Start(archive), Write(archive),
            [RestoreReturns(false)] + ([ReadInVain(1)] + ([RestoreSends] + ([RestoreFinishes] + []))));
    StuckIff(s);
  }

  // ----- no run goes on forever

  function DumpLeft(d: DumpAt): nat {
    match d
    case Dumping => 4
    case DumpReturned(_) => 3
    case DumpSent(_) => 2
    case DumpClosed(_) => 1
    case DumpDone(_) => 0
  }

  function RestoreLeft(r: RestoreAt): nat {
    match r case Restoring => 3 case RestoreReturned(_) => 2 case RestoreSent(_) => 1 case RestoreDone(_) => 0
  }

  function MainLeft(m: MainAt): nat {
    match m
    case WantDump => 4
    case WantRestore(_) => 3
    case WantBoth(_, _) => 2
    case ClosingReader(_, _) => 1
    case Returned(_, _) => 0
  }

  function Left(s: System): nat
    requires |s.written| <= |s.archive|
  {
    2 * (|s.archive| - |s.written|) + |s.pending| + (if s.cancelled then 0 else 1) + (if s.eof then 0 else 1)
    + DumpLeft(s.dump) + RestoreLeft(s.restore) + MainLeft(s.main)
  }

  lemma StepCosts(s: System, step: Step)
    requires Enabled(s, step) && PipeInv(s) && PipeInv(Next(s, step))
    ensures Left(Next(s, step)) < Left(s)
  {
  }

  /** A run that cannot go on has returned to its caller. */
  lemma NothingLeftMeansReturned(s: System)
    requires Reachable(s) && forall step :: !Enabled(s, step)
    ensures s.main.Returned?
  {
    StuckIff(s);
    assert !Enabled(s, Cancel);
  }

  /** And every run is finite, with a bound in the size of the archive. */
  lemma {:induction false} RunsEnd(s: System, steps: seq<Step>)
    requires Inv(s) && Run(s, steps).Some?
    ensures |steps| <= Left(s)
    decreases steps
  {
    if steps != [] {
      StepKeepsPipe(s, steps[0]);
      StepKeepsRest(s, steps[0]);
      StepCosts(s, steps[0]);
      RunsEnd(Next(s, steps[0]), steps[1..]);
    }
  }
}
