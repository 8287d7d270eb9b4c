/**
  The drive loop itself, over the durable journal and release state of one accepted
  deployment.  What the executor does in each iteration, where the process stops and whether
  cleanup succeeds are inputs; the loop is proved to be a run of the step machine, to end
  within three iterations more than the plan has phases, and to leave a sound journal.
*/
module DeployLoop {
  import opened Domain
  import opened DeployDriver
  import opened DeployRuns

  /** What executing the current phase comes to. */
  datatype PhaseOutcome =
    | Committed(intent: nat, observation: nat, artifacts: Artifacts, committedAt: int)
    | Failed
    | StoppedBefore
    | StoppedAfter(intent: nat, observation: nat, artifacts: Artifacts, committedAt: int)

  datatype DriveError = Driver(error: DriverError) | PhaseError | CleanupError | Interrupted

  function ReceiptFor(op: Record, intent: nat, observation: nat, artifacts: Artifacts, committedAt: int)
    : (receipt: Receipt)
    ensures op.state.result == Running ==> Produces(op, receipt)
  {
    var payload := ReceiptPayload(op.attempt, op.state.phase, BranchOf(InRollback(op)), intent, observation, artifacts,
                                  committedAt);
    Receipt(payload, Sha256(payload))
  }

  ghost function RunFrom(a: Accepted, w: World, events: seq<Event>): World {
    if events == [] then w else Step(a, RunFrom(a, w, events[..|events| - 1]), events[|events| - 1])
  }

  lemma RunExtends(a: Accepted, w: World, events: seq<Event>, e: Event)
    ensures RunFrom(a, w, events + [e]) == Step(a, RunFrom(a, w, events), e)
  {
    assert (events + [e])[..|events|] == events;
  }

  /** Iterations the loop can still make. */
  ghost function Remaining(j: Journal, k: nat, m: nat): nat
    requires k <= |CODE_ONLY_PHASES| && m <= |RECOVERY_PHASES|
  {
    if j.takeover.Some? then |RECOVERY_PHASES| - m else |CODE_ONLY_PHASES| + |RECOVERY_PHASES| - k
  }

  class DeployJob {
    const accepted: Accepted
    const initial: ReleaseState
    var journal: Journal
    var release: ReleaseState

    constructor (accepted: Accepted, initial: ReleaseState)
      requires initial.current != Some(accepted.candidate)
      ensures this.accepted == accepted && this.initial == initial && Valid()
      ensures journal == EMPTY_JOURNAL && release == initial
    {
      this.accepted, this.initial, journal, release := accepted, initial, EMPTY_JOURNAL, initial;
      new;
      assert Shape(accepted, EMPTY_JOURNAL, 0, 0);
    }

    ghost function Durable(): World
      reads this
    {
      World(journal, release, None)
    }

    ghost predicate Valid()
      reads this
    {
      initial.current != Some(accepted.candidate) && Sound(accepted, initial, Durable())
    }

    /** Drive once from whatever earlier drives left behind. */
    method DriveAccepted(execute: nat -> PhaseOutcome, now: int, cleanedUp: bool)
      returns (r: Result<Record, DriveError>, iterations: nat, ghost events: seq<Event>)
      requires Valid()
      modifies this
      ensures Valid()
      ensures RunFrom(accepted, old(Durable()), events) == Durable()
      ensures iterations <= |CODE_ONLY_PHASES| + 3
      ensures r.Ok? ==> r.value.state.result in {Succeeded, RolledBack} && HasTerminalReceipt(journal)
      ensures r.Ok? && r.value.state.result == Succeeded ==> release.current == Some(accepted.candidate)
      ensures r.Ok? && r.value.state.result == RolledBack ==> release == initial
      ensures old(HasTerminalReceipt(journal)) ==> iterations == 0
    {
      hide Replay, Project, BeginRollback, Shape, Sound, Step, ReleaseShape, Reconstruct, Bound, CommitRelease, RunFrom;
      iterations, events := 0, [];
      ghost var before := Durable();
      ghost var k: nat, m: nat := Witness();
      BothFresh(accepted);
      RunNowhere(accepted, before);
      var start := StartDrive(accepted, World(journal, release, None));
      if start.Refused? { return Err(Driver(start.error)), 0, []; }
      if start.Done? {
        DoneIsTerminal(accepted, initial, before, start.op);
        return Ok(start.op), 0, [];
      }
      var seen, operation := release, start.op;
      events := [Begin];
      EnterRun(accepted, initial, before, operation);
      ShapeBounds(accepted, journal, k, m);
      if HasTerminalReceipt(journal) { TerminalIsNotRunning(accepted, Bound(accepted), journal, k, m, operation); }

      while operation.state.result == Running
        invariant Shape(accepted, journal, k, m) && k <= |CODE_ONLY_PHASES| && m <= |RECOVERY_PHASES|
        invariant release == initial == seen
        invariant Replay(Bound(accepted), journal) == Ok(operation)
        invariant RunFrom(accepted, before, events) == World(journal, release, Some(Live(operation, seen)))
        invariant iterations + Remaining(journal, k, m) <= |CODE_ONLY_PHASES| + |RECOVERY_PHASES|
        invariant old(HasTerminalReceipt(journal)) ==> iterations == 0 && operation.state.result != Running
        decreases Remaining(journal, k, m)
      {
        var outcome := execute(iterations);
        iterations := iterations + 1;
        StillToGo(accepted, Bound(accepted), journal, k, m, operation);
        match outcome
        case Committed(intent, observation, artifacts, committedAt) =>
          var receipt := ReceiptFor(operation, intent, observation, artifacts, committedAt);
          var next := Project(operation, receipt, InRollback(operation));
          RunExtends(accepted, before, events, PhaseCommitted(receipt));
          CommitStep(accepted, World(journal, release, Some(Live(operation, seen))), receipt);
          events := events + [PhaseCommitted(receipt)];
          k, m := ReplayAfterReceipt(accepted, Bound(accepted), journal, k, m, operation, receipt);
          JournalledKeepsTakeover(journal, operation, receipt);
          journal := Journalled(journal, operation, receipt);
          if next.Err? {
            SoundWhenStopped(accepted, initial, Durable(), k, m);
            return Err(Driver(Unreplayable(next.error))), iterations, events;
          }
          ShapeBounds(accepted, journal, k, m);
          operation := next.value;
        case StoppedAfter(intent, observation, artifacts, committedAt) =>
          var receipt := ReceiptFor(operation, intent, observation, artifacts, committedAt);
          RunExtends(accepted, before, events, PhaseCommittedThenStopped(receipt));
          StoppedAfterCommitStep(accepted, World(journal, release, Some(Live(operation, seen))), receipt);
          events := events + [PhaseCommittedThenStopped(receipt)];
          k, m := ReplayAfterReceipt(accepted, Bound(accepted), journal, k, m, operation, receipt);
          journal := Journalled(journal, operation, receipt);
          SoundWhenStopped(accepted, initial, Durable(), k, m);
          return Err(Interrupted), iterations, events;
        case Failed =>
          RunExtends(accepted, before, events, PhaseFailed(now));
          FailStep(accepted, World(journal, release, Some(Live(operation, seen))), now);
          events := events + [PhaseFailed(now)];
          if !RollsBack(accepted, operation) {
            SoundWhenStopped(accepted, initial, Durable(), k, m);
            return Err(PhaseError), iterations, events;
          }
          var next := BeginRollback(operation, now);
          ReplayAfterTakeover(accepted, Bound(accepted), journal, k, m, operation, now);
          TakeoverShortens(accepted, journal, k, m, operation, now);
          m := 0;
          journal := TakenOver(journal, now);
          operation := next.value;
        case StoppedBefore =>
          RunExtends(accepted, before, events, Stopped);
          StoppedStep(accepted, World(journal, release, Some(Live(operation, seen))));
          events := events + [Stopped];
          SoundWhenStopped(accepted, initial, Durable(), k, m);
          return Err(Interrupted), iterations, events;
      }
      RunExtends(accepted, before, events, Finish(cleanedUp, now));
      FinishStep(accepted, World(journal, release, Some(Live(operation, seen))), cleanedUp, now);
      events := events + [Finish(cleanedUp, now)];
      EndIsTerminal(accepted, Bound(accepted), journal, k, m, operation);
      FinishKeepsSound(accepted, initial, World(journal, release, Some(Live(operation, seen))), k, m,
                       Finish(cleanedUp, now));
      if !cleanedUp { return Err(CleanupError), iterations, events; }
      if operation.state.result == RolledBack { return Ok(operation), iterations, events; }
      var committed := CommitRelease(release, seen, accepted, now);
      if committed.Err? { return Err(Driver(committed.error)), iterations, events; }
      release := committed.value;
      return Ok(operation), iterations, events;
    }

    /** How many receipts of each branch the journal holds. */
    lemma Witness() returns (k: nat, m: nat)
      requires Valid()
      ensures Shape(accepted, journal, k, m) && ReleaseSound(accepted, initial, Durable(), k)
    {
      k, m :| Shape(accepted, journal, k, m) && ReleaseSound(accepted, initial, Durable(), k)
        && LiveSound(accepted, initial, Durable());
    }
  }

  // ---------------------------------------------------------------- the loop's steps are the machine's

  lemma RunNowhere(a: Accepted, w: World)
    ensures RunFrom(a, w, []) == w
  {
  }

  lemma EnterRun(a: Accepted, initial: ReleaseState, w: World, op: Record)
    requires Sound(a, initial, w) && w.live.None? && StartDrive(a, w) == Entered(op)
    ensures RunFrom(a, w, [Begin]) == w.(live := Some(Live(op, w.release)))
    ensures w.release == initial && Replay(Bound(a), w.journal) == Ok(op)
  {
    hide Replay, Shape;
    assert [Begin][..0] == [];
  }

  lemma CommitStep(a: Accepted, w: World, receipt: Receipt)
    requires w.live.Some? && Produces(w.live.value.op, receipt)
    ensures Step(a, w, PhaseCommitted(receipt))
         == Continue(w, Journalled(w.journal, w.live.value.op, receipt),
                     Project(w.live.value.op, receipt, InRollback(w.live.value.op)))
  {
    hide Project, Journalled;
  }

  lemma StoppedAfterCommitStep(a: Accepted, w: World, receipt: Receipt)
    requires w.live.Some? && Produces(w.live.value.op, receipt)
    ensures Step(a, w, PhaseCommittedThenStopped(receipt)) ==
            w.(journal := Journalled(w.journal, w.live.value.op, receipt), live := None)
  {
    hide Project, Journalled;
  }

  lemma FailStep(a: Accepted, w: World, at: int)
    requires w.live.Some? && w.live.value.op.state.result == Running
    ensures Step(a, w, PhaseFailed(at)) ==
            if !RollsBack(a, w.live.value.op) then w.(live := None)
            else Continue(w, TakenOver(w.journal, at), BeginRollback(w.live.value.op, at))
  {
    hide BeginRollback, RollsBack, TakenOver;
  }

  lemma StoppedStep(a: Accepted, w: World)
    requires w.live.Some?
    ensures Step(a, w, Stopped) == w.(live := None)
  {
  }

  lemma FinishStep(a: Accepted, w: World, cleanedUp: bool, at: int)
    requires w.live.Some? && w.live.value.op.state.result != Running
    ensures var committed := CommitRelease(w.release, w.live.value.seen, a, at);
            var commits := cleanedUp && w.live.value.op.state.result != RolledBack && committed.Ok?;
            Step(a, w, Finish(cleanedUp, at)) ==
              w.(release := if commits then committed.value else w.release, live := None)
  {
    hide CommitRelease;
  }

  // ---------------------------------------------------------------- what the journal says at each point

  lemma ShapeBounds(a: Accepted, j: Journal, k: nat, m: nat)
    requires Shape(a, j, k, m)
    ensures k <= |CODE_ONLY_PHASES| && m <= |RECOVERY_PHASES|
  {
  }

  lemma StillToGo(a: Accepted, base: Record, j: Journal, k: nat, m: nat, op: Record)
    requires Fresh(a, base) && Shape(a, j, k, m) && Replay(base, j) == Ok(op) && op.state.result == Running
    ensures if InRollback(op) then j.takeover.Some? && m < |RECOVERY_PHASES|
            else j.takeover.None? && k < |CODE_ONLY_PHASES|
  {
    hide Replay;
    JournalStands(a, base, j, k, m, op);
  }

  lemma JournalledKeepsTakeover(j: Journal, op: Record, receipt: Receipt)
    ensures Journalled(j, op, receipt).takeover == j.takeover
  {
  }

  lemma TakeoverShortens(a: Accepted, j: Journal, k: nat, m: nat, op: Record, at: int)
    requires Shape(a, j, k, m) && Replay(Bound(a), j) == Ok(op) && op.state.result == Running && RollsBack(a, op)
    ensures j.takeover.None? && TakenOver(j, at).takeover.Some? && 7 <= k <= 8
  {
    hide Replay;
    BothFresh(a);
    JournalStands(a, Bound(a), j, k, m, op);
  }

  lemma SoundWhenStopped(a: Accepted, initial: ReleaseState, w: World, k: nat, m: nat)
    requires Shape(a, w.journal, k, m) && w.release == initial && w.live.None?
    ensures Sound(a, initial, w)
  {
  }

  lemma EndIsTerminal(a: Accepted, base: Record, j: Journal, k: nat, m: nat, op: Record)
    requires Fresh(a, base) && Shape(a, j, k, m) && Replay(base, j) == Ok(op) && op.state.result != Running
    ensures HasTerminalReceipt(j) && op.state.result in {Succeeded, RolledBack}
  {
    hide Replay;
    JournalStands(a, base, j, k, m, op);
    assert CODE_ONLY_PHASES[8] == Soaking && RECOVERY_PHASES[2] == Soaking;
  }

  /** A drive that returns at once found the outcome already durable. */
  lemma DoneIsTerminal(a: Accepted, initial: ReleaseState, w: World, op: Record)
    requires Sound(a, initial, w) && initial.current != Some(a.candidate) && w.live.None?
             && StartDrive(a, w) == Done(op)
    ensures op.state.result in {Succeeded, RolledBack} && HasTerminalReceipt(w.journal)
    ensures op.state.result == Succeeded ==> w.release.current == Some(a.candidate)
    ensures op.state.result == RolledBack ==> w.release == initial
  {
    BothFresh(a);
    hide Replay, Shape, Reconstruct, Bound;
    var k, m :| Shape(a, w.journal, k, m) && ReleaseSound(a, initial, w, k) && LiveSound(a, initial, w);
    EndIsTerminal(a, Reconstruct(a), w.journal, k, m, op);
    if op.state.result == RolledBack && w.release != initial {
      CompletePlanSucceeds(a, Reconstruct(a), w.journal, k, m, op);
    }
  }

  lemma CompletePlanSucceeds(a: Accepted, base: Record, j: Journal, k: nat, m: nat, op: Record)
    requires Fresh(a, base) && Shape(a, j, k, m) && Replay(base, j) == Ok(op) && k == |CODE_ONLY_PHASES|
             && j.takeover.None?
    ensures op.state.result == Succeeded
  {
    hide Replay;
    JournalStands(a, base, j, k, m, op);
  }
}
