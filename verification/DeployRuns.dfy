/**
  What every sequence of drives, crashes and re-drives of one accepted deployment keeps:
  replaying the journal rebuilds exactly the operation the live loop held, no phase runs
  twice, and the installed release becomes the candidate at most once and only after the
  last primary receipt.
*/
module DeployRuns {
  import opened Domain
  import opened DeployDriver
  import AttemptLifecycle

  // ---------------------------------------------------------------- receipts stored in order

  /** Exactly the first k phases of the plan have a stored receipt. */
  ghost predicate Prefix(receipts: map<Phase, Receipt>, plan: seq<Phase>, k: nat) {
    k <= |plan| && forall i :: 0 <= i < |plan| ==> (plan[i] in receipts <==> i < k)
  }

  lemma {:induction false} NothingToReplay(op: Record, receipts: map<Phase, Receipt>, plan: seq<Phase>, i: nat,
                                           missing: bool, rollback: bool)
    requires i <= |plan| && forall x :: i <= x < |plan| ==> plan[x] !in receipts
    ensures ReplayFrom(op, receipts, plan, i, missing, rollback) == Ok(op)
    decreases |plan| - i
  {
    if i < |plan| { NothingToReplay(op, receipts, plan, i + 1, true, rollback); }
  }

  ghost function Then(before: Projection, receipt: Receipt, rollback: bool): Projection {
    if before.Err? then before else Project(before.value, receipt, rollback)
  }

  /** One more stored receipt is one more projected receipt. */
  lemma {:induction false} ReplayExtends(op: Record, receipts: map<Phase, Receipt>, plan: seq<Phase>, i: nat, k: nat,
                                         receipt: Receipt, rollback: bool)
    requires Distinct(plan) && i <= k < |plan| && Prefix(receipts, plan, k)
    ensures ReplayFrom(op, receipts[plan[k] := receipt], plan, i, false, rollback)
         == Then(ReplayFrom(op, receipts, plan, i, false, rollback), receipt, rollback)
    decreases k - i
  {
    hide Project;
    if i == k {
      NothingToReplay(op, receipts, plan, i, false, rollback);
      var next := Project(op, receipt, rollback);
      if next.Ok? { NothingToReplay(next.value, receipts[plan[k] := receipt], plan, i + 1, false, rollback); }
    } else {
      var next := Project(op, receipts[plan[i]], rollback);
      if next.Ok? { ReplayExtends(next.value, receipts, plan, i + 1, k, receipt, rollback); }
    }
  }

  /** What a projection leaves alone. */
  ghost predicate SameDeployment(a: Record, b: Record) {
    && a.kind == b.kind && a.release == b.release && a.attempt == b.attempt
    && a.evidence.recovery == b.evidence.recovery
    && (PreviousReleaseBundle in a.evidence.fields <==> PreviousReleaseBundle in b.evidence.fields)
  }

  lemma MergeLeaves(e: Evidence, x: Artifacts, phase: Phase, branch: Branch, rollback: bool)
    requires AttemptLifecycle.MergeArtifacts(e, Only(x, DEPLOY_SLOTS), phase, branch, rollback).Some?
    ensures var merged := AttemptLifecycle.MergeArtifacts(e, Only(x, DEPLOY_SLOTS), phase, branch, rollback).value;
            && merged.recovery == e.recovery && merged.transitions == e.transitions
            && (PreviousReleaseBundle in merged.fields <==> PreviousReleaseBundle in e.fields)
  {
    hide MergeSpec, MergeFields;
  }

  lemma ProjectStep(op: Record, receipt: Receipt, plan: seq<Phase>, k: nat, rollback: bool)
    requires PlanOf(op, rollback) == Some(plan) && Distinct(plan) && k < |plan|
             && op.state == StateAt(plan, k, rollback)
    requires Project(op, receipt, rollback).Ok?
    ensures var next := Project(op, receipt, rollback).value;
            && SameDeployment(op, next)
            && next.state == StateAt(plan, k + 1, rollback)
            && |next.evidence.transitions| == |op.evidence.transitions| + 1
            && next.evidence.transitions[|op.evidence.transitions|].receipt == Some(receipt.digest)
  {
    hide AttemptLifecycle.MergeArtifacts, MergeDeployArtifacts, ValidForPhase, Position, RequiredPhases, Only;
    PositionInDistinct(plan, k);
    DeployMergeIsRestricted(op.evidence, receipt.payload.artifacts, receipt.payload.phase, rollback);
    MergeLeaves(op.evidence, receipt.payload.artifacts, receipt.payload.phase, BranchOf(rollback), rollback);
  }

  /** Where a replay of k receipts stands. */
  lemma {:induction false} ReplayStands(op: Record, receipts: map<Phase, Receipt>, plan: seq<Phase>, i: nat, k: nat,
                                        rollback: bool)
    requires PlanOf(op, rollback) == Some(plan) && Distinct(plan) && plan != [] && i <= k && Prefix(receipts, plan, k)
    requires op.state == StateAt(plan, i, rollback)
    requires ReplayFrom(op, receipts, plan, i, false, rollback).Ok?
    ensures var x := ReplayFrom(op, receipts, plan, i, false, rollback).value;
            && SameDeployment(op, x)
            && x.state == StateAt(plan, k, rollback)
            && |x.evidence.transitions| == |op.evidence.transitions| + k - i
    decreases k - i
  {
    hide Project;
    if i == k {
      NothingToReplay(op, receipts, plan, i, false, rollback);
    } else {
      ProjectStep(op, receipts[plan[i]], plan, i, rollback);
      ReplayStands(Project(op, receipts[plan[i]], rollback).value, receipts, plan, i + 1, k, rollback);
    }
  }

  // ---------------------------------------------------------------- journals a drive can leave

  /** k primary receipts in order; recovery receipts only after a takeover during health check or soak. */
  ghost predicate Shape(a: Accepted, j: Journal, k: nat, m: nat) {
    && Prefix(j.primary, CODE_ONLY_PHASES, k)
    && Prefix(j.recovery, RECOVERY_PHASES, m)
    && (j.takeover.None? ==> m == 0)
    && (j.takeover.Some? ==> 7 <= k <= 8 && a.previous.Some?)
  }

  /** The reconstructed operation, before or after the reservation is bound in. */
  ghost predicate Fresh(a: Accepted, base: Record) {
    && base.kind == Deploy && base.release == Some(CodeOnlyCompatible) && base.attempt == a.attempt
    && base.state == QUEUED_STATE && base.evidence.recovery.None? && base.evidence.transitions == []
    && (PreviousReleaseBundle in base.evidence.fields <==> a.previous.Some?)
  }

  lemma BothFresh(a: Accepted)
    ensures Fresh(a, Reconstruct(a)) && Fresh(a, Bound(a))
  {
  }

  ghost predicate Stands(a: Accepted, j: Journal, k: nat, m: nat, op: Record) {
    && op.kind == Deploy && op.release == Some(CodeOnlyCompatible) && op.attempt == a.attempt
    && op.evidence.recovery == (if j.takeover.Some? then Some(RollbackMode) else None)
    && op.state == (if j.takeover.Some? then StateAt(RECOVERY_PHASES, m, true) else StateAt(CODE_ONLY_PHASES, k, false))
    && (PreviousReleaseBundle in op.evidence.fields <==> a.previous.Some?)
    && |op.evidence.transitions| == k + if j.takeover.Some? then m + 1 else 0
  }

  lemma PlansDistinct()
    ensures Distinct(CODE_ONLY_PHASES) && Distinct(RECOVERY_PHASES)
  {
    assert WellFormedPlan(Deploy, RequiredPhases(Deploy, Some(CodeOnlyCompatible)).value);
  }

  /** The primary part of a replay. */
  lemma PrimaryStands(a: Accepted, base: Record, j: Journal, k: nat)
    requires Fresh(a, base) && Prefix(j.primary, CODE_ONLY_PHASES, k)
    requires ReplayFrom(base, j.primary, CODE_ONLY_PHASES, 0, false, false).Ok?
    ensures Stands(a, j.(takeover := None), k, 0, ReplayFrom(base, j.primary, CODE_ONLY_PHASES, 0, false, false).value)
  {
    hide ReplayFrom;
    PlansDistinct();
    ReplayStands(base, j.primary, CODE_ONLY_PHASES, 0, k, false);
  }

  lemma JournalStands(a: Accepted, base: Record, j: Journal, k: nat, m: nat, op: Record)
    requires Fresh(a, base) && Shape(a, j, k, m) && Replay(base, j) == Ok(op)
    ensures Stands(a, j, k, m, op)
  {
    hide ReplayFrom;
    PrimaryStands(a, base, j, k);
    if j.takeover.Some? {
      var forward := ReplayFrom(base, j.primary, CODE_ONLY_PHASES, 0, false, false).value;
      var begun := BeginRollback(forward, j.takeover.value).value;
      PlansDistinct();
      ReplayStands(begun, j.recovery, RECOVERY_PHASES, 0, m, true);
    }
  }

  /** Journalling a receipt and replaying gives what projecting it gives. */
  lemma ReplayAfterReceipt(a: Accepted, base: Record, j: Journal, k: nat, m: nat, op: Record, receipt: Receipt)
    returns (k': nat, m': nat)
    requires Fresh(a, base) && Shape(a, j, k, m) && Replay(base, j) == Ok(op) && Produces(op, receipt)
    ensures Shape(a, Journalled(j, op, receipt), k', m')
    ensures if j.takeover.Some? then k' == k && m' == m + 1 else k' == k + 1 && m' == m
    ensures Replay(base, Journalled(j, op, receipt)) == Project(op, receipt, InRollback(op))
  {
    hide ReplayFrom, Project;
    JournalStands(a, base, j, k, m, op);
    PlansDistinct();
    if j.takeover.None? {
      k', m' := k + 1, m;
      ReplayExtends(base, j.primary, CODE_ONLY_PHASES, 0, k, receipt, false);
    } else {
      k', m' := k, m + 1;
      PrimaryStands(a, base, j, k);
      var forward := ReplayFrom(base, j.primary, CODE_ONLY_PHASES, 0, false, false).value;
      var begun := BeginRollback(forward, j.takeover.value).value;
      ReplayExtends(begun, j.recovery, RECOVERY_PHASES, 0, m, receipt, true);
    }
  }

  /** Journalling the takeover and replaying gives what beginning the rollback gives, and that never fails. */
  lemma ReplayAfterTakeover(a: Accepted, base: Record, j: Journal, k: nat, m: nat, op: Record, at: int)
    requires Fresh(a, base) && Shape(a, j, k, m) && Replay(base, j) == Ok(op)
    requires op.state.result == Running && RollsBack(a, op)
    ensures Shape(a, TakenOver(j, at), k, 0)
    ensures Replay(base, TakenOver(j, at)) == BeginRollback(op, at)
    ensures BeginRollback(op, at).Ok?
  {
    hide ReplayFrom;
    JournalStands(a, base, j, k, m, op);
    assert j.takeover.None?;
    NothingToReplay(BeginRollback(op, at).value, j.recovery, RECOVERY_PHASES, 0, false, true);
  }

  // ---------------------------------------------------------------- every reachable world

  ghost predicate HasTerminalReceipt(j: Journal) {
    Soaking in j.primary || Soaking in j.recovery
  }

  /** The release is untouched, or it is the candidate and the whole primary plan is on record. */
  ghost predicate ReleaseSound(a: Accepted, initial: ReleaseState, w: World, k: nat) {
    || w.release == initial
    || (w.release.current == Some(a.candidate) && k == |CODE_ONLY_PHASES| && w.journal.takeover.None? && w.live.None?)
  }

  /** A running drive holds exactly what a replay of the journal would rebuild. */
  ghost predicate LiveSound(a: Accepted, initial: ReleaseState, w: World) {
    w.live.Some? ==>
      && w.release == initial == w.live.value.seen
      && Replay(Bound(a), w.journal) == Ok(w.live.value.op)
  }

  ghost predicate Sound(a: Accepted, initial: ReleaseState, w: World) {
    exists k, m :: Shape(a, w.journal, k, m) && ReleaseSound(a, initial, w, k) && LiveSound(a, initial, w)
  }

  lemma StepKeepsSound(a: Accepted, initial: ReleaseState, w: World, e: Event)
    requires Sound(a, initial, w) && initial.current != Some(a.candidate)
    ensures Sound(a, initial, Step(a, w, e))
  {
    hide Replay, Project, BeginRollback, Produces, Shape, Reconstruct, Bound, Journalled, TakenOver;
    BothFresh(a);
    var k, m :| Shape(a, w.journal, k, m) && ReleaseSound(a, initial, w, k) && LiveSound(a, initial, w);
    var next := Step(a, w, e);
    if w.live.None? {
      if e.Begin? { BeginKeepsSound(a, initial, w, k, m); }
    } else {
      var op := w.live.value.op;
      match e
      case PhaseCommitted(receipt) =>
        if Produces(op, receipt) {
          var k', m' := ReplayAfterReceipt(a, Bound(a), w.journal, k, m, op, receipt);
          assert Shape(a, next.journal, k', m');
        }
      case PhaseCommittedThenStopped(receipt) =>
        if Produces(op, receipt) {
          var k', m' := ReplayAfterReceipt(a, Bound(a), w.journal, k, m, op, receipt);
          assert Shape(a, next.journal, k', m');
        }
      case PhaseFailed(at) =>
        if op.state.result == Running && RollsBack(a, op) {
          ReplayAfterTakeover(a, Bound(a), w.journal, k, m, op, at);
          assert Shape(a, next.journal, k, 0);
        }
      case PhaseFailedThenStopped(at) =>
        if op.state.result == Running && RollsBack(a, op) {
          ReplayAfterTakeover(a, Bound(a), w.journal, k, m, op, at);
          assert Shape(a, next.journal, k, 0);
        }
      case Finish(_, _) => FinishKeepsSound(a, initial, w, k, m, e);
      case _ =>
    }
  }

  /** A drive is only entered while the release is untouched. */
  lemma BeginKeepsSound(a: Accepted, initial: ReleaseState, w: World, k: nat, m: nat)
    requires Shape(a, w.journal, k, m) && ReleaseSound(a, initial, w, k) && w.live.None?
    ensures Sound(a, initial, Step(a, w, Begin))
  {
    hide Replay;
    BothFresh(a);
    assert Shape(a, Step(a, w, Begin).journal, k, m);
  }

  lemma FinishKeepsSound(a: Accepted, initial: ReleaseState, w: World, k: nat, m: nat, e: Event)
    requires Shape(a, w.journal, k, m) && ReleaseSound(a, initial, w, k) && LiveSound(a, initial, w) && w.live.Some?
    requires e.Finish? && initial.current != Some(a.candidate)
    ensures Sound(a, initial, Step(a, w, e))
  {
    hide Replay;
    BothFresh(a);
    JournalStands(a, Bound(a), w.journal, k, m, w.live.value.op);
    assert Shape(a, Step(a, w, e).journal, k, m);
  }

  /** The world after the first n events of a run that starts with an empty journal. */
  ghost function At(a: Accepted, initial: ReleaseState, events: seq<Event>, n: nat): World
    requires n <= |events|
  {
    if n == 0 then World(EMPTY_JOURNAL, initial, None) else Step(a, At(a, initial, events, n - 1), events[n - 1])
  }

  lemma EmptyIsSound(a: Accepted, initial: ReleaseState)
    ensures Sound(a, initial, World(EMPTY_JOURNAL, initial, None))
  {
    assert Shape(a, EMPTY_JOURNAL, 0, 0);
  }

  lemma {:induction false} EveryRunIsSound(a: Accepted, initial: ReleaseState, events: seq<Event>, n: nat)
    requires n <= |events| && initial.current != Some(a.candidate)
    ensures Sound(a, initial, At(a, initial, events, n))
  {
    hide Step, Sound;
    if n == 0 {
      EmptyIsSound(a, initial);
    } else {
      EveryRunIsSound(a, initial, events, n - 1);
      StepKeepsSound(a, initial, At(a, initial, events, n - 1), events[n - 1]);
    }
  }

  // ---------------------------------------------------------------- what no run can do

  /** The candidate is installed only once the primary soak receipt is on record, and never after a takeover. */
  lemma CandidateOnlyAfterSoak(a: Accepted, initial: ReleaseState, events: seq<Event>, n: nat)
    requires n <= |events| && initial.current != Some(a.candidate)
    requires At(a, initial, events, n).release != initial
    ensures var w := At(a, initial, events, n);
            && w.release.current == Some(a.candidate)
            && Soaking in w.journal.primary
            && w.journal.takeover.None?
  {
    EveryRunIsSound(a, initial, events, n);
    assert CODE_ONLY_PHASES[8] == Soaking;
  }

  lemma CommittedReleaseStays(a: Accepted, initial: ReleaseState, w: World, e: Event)
    requires Sound(a, initial, w) && w.release != initial
    ensures Step(a, w, e).release == w.release
  {
    hide Shape, Replay;
  }

  /** The release state changes at most once in a run, whatever crashes and re-drives follow. */
  lemma {:induction false} ReleaseChangesOnce(a: Accepted, initial: ReleaseState, events: seq<Event>, i: nat, j: nat)
    requires i <= j <= |events| && initial.current != Some(a.candidate)
    requires At(a, initial, events, i).release != initial
    ensures At(a, initial, events, j).release == At(a, initial, events, i).release
    decreases j
  {
    hide Step, Sound;
    if i < j {
      ReleaseChangesOnce(a, initial, events, i, j - 1);
      EveryRunIsSound(a, initial, events, j - 1);
      CommittedReleaseStays(a, initial, At(a, initial, events, j - 1), events[j - 1]);
    }
  }

  /** A drive that stands at its last receipt is not running. */
  lemma TerminalIsNotRunning(a: Accepted, base: Record, j: Journal, k: nat, m: nat, op: Record)
    requires Fresh(a, base) && Shape(a, j, k, m) && Replay(base, j) == Ok(op) && HasTerminalReceipt(j)
    ensures op.state.result == (if j.takeover.Some? then RolledBack else Succeeded)
  {
    hide Replay;
    JournalStands(a, base, j, k, m, op);
    assert CODE_ONLY_PHASES[8] == Soaking && RECOVERY_PHASES[2] == Soaking;
  }

  lemma TerminalJournalStays(a: Accepted, initial: ReleaseState, w: World, e: Event)
    requires Sound(a, initial, w) && HasTerminalReceipt(w.journal)
    ensures Step(a, w, e).journal == w.journal
  {
    hide Shape, Replay, HasTerminalReceipt, Reconstruct, Bound, Project, BeginRollback;
    BothFresh(a);
    var k, m :| Shape(a, w.journal, k, m) && ReleaseSound(a, initial, w, k) && LiveSound(a, initial, w);
    if w.live.Some? { TerminalIsNotRunning(a, Bound(a), w.journal, k, m, w.live.value.op); }
  }

  /** After the last receipt, primary or recovery, no run executes another phase. */
  lemma {:induction false} NothingRunsAfterTheLastReceipt(a: Accepted, initial: ReleaseState, events: seq<Event>,
                                                          i: nat, j: nat)
    requires i <= j <= |events| && initial.current != Some(a.candidate)
    requires HasTerminalReceipt(At(a, initial, events, i).journal)
    ensures At(a, initial, events, j).journal == At(a, initial, events, i).journal
    decreases j
  {
    hide Step, Sound;
    if i < j {
      NothingRunsAfterTheLastReceipt(a, initial, events, i, j - 1);
      EveryRunIsSound(a, initial, events, j - 1);
      TerminalJournalStays(a, initial, At(a, initial, events, j - 1), events[j - 1]);
    }
  }

  ghost predicate Extends(j: Journal, j': Journal) {
    && (forall p :: p in j.primary ==> p in j'.primary && j'.primary[p] == j.primary[p])
    && (forall p :: p in j.recovery ==> p in j'.recovery && j'.recovery[p] == j.recovery[p])
    && (j.takeover.Some? ==> j'.takeover == j.takeover)
  }

  lemma JournalledIsNew(a: Accepted, base: Record, j: Journal, k: nat, m: nat, op: Record, receipt: Receipt)
    requires Fresh(a, base) && Shape(a, j, k, m) && Replay(base, j) == Ok(op) && op.state.result == Running
    ensures Extends(j, Journalled(j, op, receipt))
  {
    hide Replay;
    JournalStands(a, base, j, k, m, op);
  }

  lemma StepExtendsJournal(a: Accepted, initial: ReleaseState, w: World, e: Event)
    requires Sound(a, initial, w)
    ensures Extends(w.journal, Step(a, w, e).journal)
  {
    hide Shape, Replay, Reconstruct, Bound, Project, BeginRollback, Journalled;
    BothFresh(a);
    var k, m :| Shape(a, w.journal, k, m) && ReleaseSound(a, initial, w, k) && LiveSound(a, initial, w);
    if w.live.Some? && w.live.value.op.state.result == Running && (e.PhaseCommitted? || e.PhaseCommittedThenStopped?) {
      JournalledIsNew(a, Bound(a), w.journal, k, m, w.live.value.op, e.receipt);
    }
  }

  /** No phase is committed twice and the takeover is fixed: later journals only add to earlier ones. */
  lemma {:induction false} ReceiptsAreNeverReplaced(a: Accepted, initial: ReleaseState, events: seq<Event>, i: nat,
                                                    j: nat)
    requires i <= j <= |events| && initial.current != Some(a.candidate)
    ensures Extends(At(a, initial, events, i).journal, At(a, initial, events, j).journal)
    decreases j
  {
    hide Step, Sound;
    if i < j {
      ReceiptsAreNeverReplaced(a, initial, events, i, j - 1);
      EveryRunIsSound(a, initial, events, j - 1);
      StepExtendsJournal(a, initial, At(a, initial, events, j - 1), events[j - 1]);
    }
  }

  /** The release state never names the candidate without the receipts that justify it. */
  lemma NeverWithoutTerminalReceipt(a: Accepted, initial: ReleaseState, events: seq<Event>, n: nat)
    requires n <= |events| && initial.current != Some(a.candidate)
    ensures StartDrive(a, At(a, initial, events, n)) != Refused(ReleaseStateWithoutTerminalReceipt)
    ensures HasCommittedTerminal(a, At(a, initial, events, n)) != Err(ReleaseStateWithoutTerminalReceipt)
  {
    var w := At(a, initial, events, n);
    EveryRunIsSound(a, initial, events, n);
    BothFresh(a);
    hide Replay, Shape, Reconstruct, Bound;
    var k, m :| Shape(a, w.journal, k, m) && ReleaseSound(a, initial, w, k) && LiveSound(a, initial, w);
    if w.release != initial && Replay(Reconstruct(a), w.journal).Ok? {
      CandidateOnlyAfterSoak(a, initial, events, n);
      TerminalIsNotRunning(a, Reconstruct(a), w.journal, k, m, Replay(Reconstruct(a), w.journal).value);
    }
  }

  // ---------------------------------------------------------------- stopping and starting again

  /** The two reconstructions differ only in the reservation, which the bound one already holds. */
  ghost predicate DiffersInReservation(u: Record, b: Record, reservation: Value) {
    && b == u.(evidence := u.evidence.(fields := u.evidence.fields[ResourceReservation := reservation]))
    && NotOtherwise(u.evidence.fields, reservation)
  }

  ghost predicate NotOtherwise(fields: map<Field, Value>, reservation: Value) {
    ResourceReservation in fields ==> fields[ResourceReservation] == reservation
  }

  lemma MergeFieldsIgnoresReservation(target: map<Field, Value>, incoming: map<Field, Value>, reservation: Value)
    requires MergeFields(target[ResourceReservation := reservation], incoming).Some?
             && NotOtherwise(target, reservation)
    ensures MergeFields(target, incoming).Some? && NotOtherwise(MergeFields(target, incoming).value, reservation)
    ensures MergeFields(target[ResourceReservation := reservation], incoming).value
         == MergeFields(target, incoming).value[ResourceReservation := reservation]
  {
    var bound := target[ResourceReservation := reservation];
    forall f | f in target && f in incoming ensures target[f] == incoming[f] {
      assert bound[f] == target[f];
    }
  }

  lemma MergeIgnoresReservation(u: Evidence, b: Evidence, x: Artifacts, phase: Phase, branch: Branch, rollback: bool,
                                reservation: Value)
    requires b == u.(fields := u.fields[ResourceReservation := reservation]) && NotOtherwise(u.fields, reservation)
    requires AttemptLifecycle.MergeArtifacts(b, x, phase, branch, rollback).Some?
    ensures AttemptLifecycle.MergeArtifacts(u, x, phase, branch, rollback).Some?
    ensures var u', b' := AttemptLifecycle.MergeArtifacts(u, x, phase, branch, rollback).value,
                          AttemptLifecycle.MergeArtifacts(b, x, phase, branch, rollback).value;
            b' == u'.(fields := u'.fields[ResourceReservation := reservation]) && NotOtherwise(u'.fields, reservation)
  {
    hide MergeSpec, MergeFields;
    MergeFieldsIgnoresReservation(u.fields, x.fields - {HealthEvidence}, reservation);
    if HealthEvidence in x.fields {
      var slot := if rollback then RollbackHealthEvidence else HealthEvidence;
      var others := MergeFields(u.fields, x.fields - {HealthEvidence}).value;
      if phase == Soaking {
        var health := x.fields[HealthEvidence];
        assert others[ResourceReservation := reservation][slot := health] ==
               others[slot := health][ResourceReservation := reservation];
      } else {
        MergeFieldsIgnoresReservation(others, map[slot := x.fields[HealthEvidence]], reservation);
      }
    }
  }

  lemma ProjectIgnoresReservation(u: Record, b: Record, receipt: Receipt, rollback: bool, reservation: Value)
    requires DiffersInReservation(u, b, reservation) && Project(b, receipt, rollback).Ok?
    ensures Project(u, receipt, rollback).Ok?
    ensures DiffersInReservation(Project(u, receipt, rollback).value, Project(b, receipt, rollback).value, reservation)
  {
    hide AttemptLifecycle.MergeArtifacts, MergeDeployArtifacts, ValidForPhase, Position, RequiredPhases, Only;
    var p := receipt.payload;
    DeployMergeIsRestricted(u.evidence, p.artifacts, p.phase, rollback);
    DeployMergeIsRestricted(b.evidence, p.artifacts, p.phase, rollback);
    MergeIgnoresReservation(u.evidence, b.evidence, Only(p.artifacts, DEPLOY_SLOTS), p.phase, BranchOf(rollback),
                            rollback, reservation);
  }

  lemma {:induction false} ReplayFromIgnoresReservation(u: Record, b: Record, receipts: map<Phase, Receipt>,
                                                        plan: seq<Phase>, i: nat, missing: bool, rollback: bool,
                                                        reservation: Value)
    requires i <= |plan| && DiffersInReservation(u, b, reservation)
             && ReplayFrom(b, receipts, plan, i, missing, rollback).Ok?
    ensures ReplayFrom(u, receipts, plan, i, missing, rollback).Ok?
    ensures DiffersInReservation(ReplayFrom(u, receipts, plan, i, missing, rollback).value,
                                 ReplayFrom(b, receipts, plan, i, missing, rollback).value, reservation)
    decreases |plan| - i
  {
    hide Project;
    if i < |plan| {
      if plan[i] !in receipts {
        ReplayFromIgnoresReservation(u, b, receipts, plan, i + 1, true, rollback, reservation);
      } else {
        ProjectIgnoresReservation(u, b, receipts[plan[i]], rollback, reservation);
        ReplayFromIgnoresReservation(Project(u, receipts[plan[i]], rollback).value,
                                     Project(b, receipts[plan[i]], rollback).value,
                                     receipts, plan, i + 1, missing, rollback, reservation);
      }
    }
  }

  lemma ReplayIgnoresReservation(a: Accepted, j: Journal)
    requires Replay(Bound(a), j).Ok?
    ensures Replay(Reconstruct(a), j).Ok?
    ensures Replay(Reconstruct(a), j).value.state == Replay(Bound(a), j).value.state
  {
    hide ReplayFrom;
    var u, b := Reconstruct(a), Bound(a);
    ReplayFromIgnoresReservation(u, b, j.primary, CODE_ONLY_PHASES, 0, false, false, a.reservation);
    if j.takeover.Some? {
      var u1 := ReplayFrom(u, j.primary, CODE_ONLY_PHASES, 0, false, false).value;
      var b1 := ReplayFrom(b, j.primary, CODE_ONLY_PHASES, 0, false, false).value;
      var u2 := if u1.evidence.recovery.None? then BeginRollback(u1, j.takeover.value).value else u1;
      var b2 := if b1.evidence.recovery.None? then BeginRollback(b1, j.takeover.value).value else b1;
      ReplayFromIgnoresReservation(u2, b2, j.recovery, RECOVERY_PHASES, 0, false, true, a.reservation);
    }
  }

  /** A drive stopped anywhere is resumed at exactly the operation it held, unless that had already been rolled back. */
  lemma RestartResumes(a: Accepted, initial: ReleaseState, events: seq<Event>, n: nat)
    requires n <= |events| && initial.current != Some(a.candidate) && ReleaseShape(initial, a)
    requires At(a, initial, events, n).live.Some?
    ensures var w := At(a, initial, events, n);
            var op := w.live.value.op;
            var again := StartDrive(a, w.(live := None));
            if op.state.result == RolledBack then again.Done? && again.op.state == op.state else again == Entered(op)
  {
    hide Replay, Shape, Reconstruct, Bound, At, ReleaseShape;
    EveryRunIsSound(a, initial, events, n);
    var w := At(a, initial, events, n);
    ReplayIgnoresReservation(a, w.journal);
    BothFresh(a);
    var k, m :| Shape(a, w.journal, k, m) && ReleaseSound(a, initial, w, k) && LiveSound(a, initial, w);
    JournalStands(a, Bound(a), w.journal, k, m, w.live.value.op);
    if w.live.value.op.state.result == RolledBack {
      RolledBackHadPrevious(a, initial, w.journal, k, m, w.live.value.op);
    }
  }

  lemma RolledBackHadPrevious(a: Accepted, initial: ReleaseState, j: Journal, k: nat, m: nat, op: Record)
    requires Shape(a, j, k, m) && Stands(a, j, k, m, op) && op.state.result == RolledBack
    requires ReleaseShape(initial, a) && initial.current != Some(a.candidate)
    ensures initial.current == a.previous
  {
  }

  /** Stopping between journalling a receipt and projecting it loses nothing: the replay is the projection. */
  lemma StopBeforeProjecting(a: Accepted, initial: ReleaseState, events: seq<Event>, n: nat, receipt: Receipt)
    requires n <= |events| && initial.current != Some(a.candidate)
    requires var w := At(a, initial, events, n); w.live.Some? && Produces(w.live.value.op, receipt)
    ensures var w := At(a, initial, events, n);
            var again := Replay(Bound(a), Step(a, w, PhaseCommittedThenStopped(receipt)).journal);
            again == Project(w.live.value.op, receipt, InRollback(w.live.value.op))
  {
    hide Replay, Shape, Reconstruct, Bound, At, Project, Produces;
    EveryRunIsSound(a, initial, events, n);
    var w := At(a, initial, events, n);
    BothFresh(a);
    var k, m :| Shape(a, w.journal, k, m) && ReleaseSound(a, initial, w, k) && LiveSound(a, initial, w);
    var k', m' := ReplayAfterReceipt(a, Bound(a), w.journal, k, m, w.live.value.op, receipt);
  }
}
