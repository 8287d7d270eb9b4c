/**
  The fixed-adapter job protocol for one authorised phase.  Executors and observers walk the
  steps of the spec; a step's transient unit is started only after a start marker has been
  created exclusively, its result and its terminal receipt are written by the unit, and the
  cleanup receipt by the executor that started it.  Every file is written once and never
  removed.  Processes interleave at every file access and may stop at any point, also between
  creating a receipt file and filling it.
*/
module AdapterJobs {
  import opened Domain
  import opened ResultChain

  // ---------------------------------------------------------------- the job directories

  /** A write-once file: created exclusively, then filled by its creator. */
  datatype File<T> = Absent | Partial(writer: nat) | Written(value: T)

  datatype Terminal = Terminal(start: nat, succeeded: bool)

  datatype Cleanup = Cleanup(terminal: Terminal, complete: bool)

  /** The start marker names the process that created it. */
  datatype Job = Job(start: File<nat>, result: Option<StepResult>, terminal: File<Terminal>, cleanup: File<Cleanup>)

  const EMPTY_JOB := Job(Absent, None, Absent, Absent)

  /** What must be on record before a result of a started step is used. */
  predicate EvidenceComplete(j: Job) {
    && j.start.Written? && j.terminal.Written? && j.cleanup.Written?
    && j.terminal.value.start == j.start.value && j.terminal.value.succeeded
    && j.cleanup.value.terminal == j.terminal.value && j.cleanup.value.complete
  }

  // ---------------------------------------------------------------- one process

  datatype Outcome = Projected(results: seq<StepResult>) | NothingYet | Refused

  /** `executing` is false during the observation pass that every execution begins with. */
  datatype Pc =
    | LookForResult(k: nat)
    | LookForStart(k: nat)
    | ReadResult(k: nat)
    | CheckStarted(k: nat, r: StepResult)
    | ReadTerminal(k: nat, r: StepResult)
    | ReadCleanup(k: nat, r: StepResult, terminal: Terminal)
    | RecheckStart(k: nat)
    | RecheckResult(k: nat)
    | ReadPrior(k: nat, read: seq<StepResult>)
    | CreateStart(k: nat)
    | WriteStart(k: nat)
    | Spawn(k: nat)
    | Wait(k: nat)
    | FetchTerminal(k: nat, collected: bool, exitedWell: bool)
    | CreateCleanup(k: nat, terminal: Terminal, collected: bool, exitedWell: bool)
    | WriteCleanup(k: nat, terminal: Terminal, collected: bool, exitedWell: bool)
    | Done(outcome: Outcome)

  datatype Process = Process(mayExecute: bool, executing: bool, results: seq<StepResult>, pc: Pc)

  /** What the outside world contributes to a step. */
  datatype Choice = Choice(exited: bool, exitedWell: bool, collected: bool)

  function Refuse(p: Process): Process {
    p.(pc := Done(Refused))
  }

  /** All earlier results in hand: go on to step k, or finish. */
  function NextStep(s: PhaseSpec, p: Process, k: nat): (next: Process)
    ensures next.pc.LookForResult? || next.pc.Done?
  {
    if k < |s.content.steps| then p.(pc := LookForResult(k))
    else if CompleteChainValid(s, p.results) then p.(pc := Done(Projected(p.results)))
    else Refuse(p)
  }

  /** An observer stops at the first step not started; an executor starts over, this time executing. */
  function FoundReady(p: Process, k: nat): Process {
    if p.executing then p.(pc := RecheckStart(k))
    else if p.mayExecute then p.(executing := true, results := [], pc := LookForResult(0))
    else p.(pc := Done(NothingYet))
  }

  /** One file access of process `id`; the job directories afterwards, and whether a unit was spawned. */
  function ProcessStep(s: PhaseSpec, jobs: seq<Job>, id: nat, p: Process, c: Choice): (seq<Job>, Process, bool)
    requires |jobs| == |s.content.steps|
  {
    match p.pc
    case Done(_) => (jobs, p, false)
    case LookForResult(k) =>
      if k >= |jobs| then (jobs, Refuse(p), false)
      else (jobs, p.(pc := if jobs[k].result.Some? then ReadResult(k) else LookForStart(k)), false)
    case LookForStart(k) =>
      if k >= |jobs| then (jobs, Refuse(p), false)
      else (jobs, if jobs[k].start == Absent then FoundReady(p, k) else Refuse(p), false)
    case ReadResult(k) =>
      if k >= |jobs| || jobs[k].result.None?
         || !Authorised(jobs[k].result.value, s, k + 1, p.results) then (jobs, Refuse(p), false)
      else (jobs, p.(pc := CheckStarted(k, jobs[k].result.value)), false)
    case CheckStarted(k, r) =>
      if k >= |jobs| || jobs[k].start.Partial? then (jobs, Refuse(p), false)
      else if jobs[k].start == Absent then (jobs, NextStep(s, p.(results := p.results + [r]), k + 1), false)
      else (jobs, p.(pc := ReadTerminal(k, r)), false)
    case ReadTerminal(k, r) =>
      if k >= |jobs| || !jobs[k].start.Written? || !jobs[k].terminal.Written?
         || jobs[k].terminal.value.start != jobs[k].start.value then
        (jobs, Refuse(p), false)
      else (jobs, p.(pc := ReadCleanup(k, r, jobs[k].terminal.value)), false)
    case ReadCleanup(k, r, terminal) =>
      if || k >= |jobs| || !jobs[k].cleanup.Written? || jobs[k].cleanup.value.terminal != terminal
         || !terminal.succeeded || !jobs[k].cleanup.value.complete then (jobs, Refuse(p), false)
      else (jobs, NextStep(s, p.(results := p.results + [r]), k + 1), false)
    case RecheckStart(k) =>
      if k >= |jobs| || jobs[k].start != Absent then (jobs, Refuse(p), false)
      else (jobs, p.(pc := RecheckResult(k)), false)
    case RecheckResult(k) =>
      if k >= |jobs| || jobs[k].result.Some? || !PriorChainValid(s, k + 1, p.results) then (jobs, Refuse(p), false)
      else (jobs, p.(pc := ReadPrior(k, [])), false)
    case ReadPrior(k, read) =>
      if |read| >= k then (jobs, if read == p.results then p.(pc := CreateStart(k)) else Refuse(p), false)
      else if || |read| >= |jobs| || jobs[|read|].result.None?
              || !Authorised(jobs[|read|].result.value, s, |read| + 1, read) then (jobs, Refuse(p), false)
      else (jobs, p.(pc := ReadPrior(k, read + [jobs[|read|].result.value])), false)
    case CreateStart(k) =>
      if k >= |jobs| || jobs[k].start != Absent then (jobs, Refuse(p), false)
      else (jobs[k := jobs[k].(start := Partial(id))], p.(pc := WriteStart(k)), false)
    case WriteStart(k) =>
      if k >= |jobs| then (jobs, Refuse(p), false)
      else (jobs[k := jobs[k].(start := Written(id))], p.(pc := Spawn(k)), false)
    case Spawn(k) => (jobs, p.(pc := Wait(k)), true)
    case Wait(k) =>
      if c.exited then (jobs, p.(pc := FetchTerminal(k, true, c.exitedWell)), false)
      else (jobs, p.(pc := FetchTerminal(k, c.collected, false)), false)
    case FetchTerminal(k, collected, well) =>
      if k >= |jobs| || !jobs[k].start.Written? || !jobs[k].terminal.Written?
         || jobs[k].terminal.value.start != jobs[k].start.value then
        (jobs, Refuse(p), false)
      else (jobs, p.(pc := CreateCleanup(k, jobs[k].terminal.value, collected, well)), false)
    case CreateCleanup(k, terminal, collected, well) =>
      if k >= |jobs| || jobs[k].cleanup.Partial? then (jobs, Refuse(p), false)
      else if jobs[k].cleanup.Written? then
        (jobs, if jobs[k].cleanup.value.terminal == terminal && well then p.(pc := ReadResult(k)) else Refuse(p), false)
      else (jobs[k := jobs[k].(cleanup := Partial(id))], p.(pc := WriteCleanup(k, terminal, collected, well)), false)
    case WriteCleanup(k, terminal, collected, well) =>
      if k >= |jobs| then (jobs, Refuse(p), false)
      else (jobs[k := jobs[k].(cleanup := Written(Cleanup(terminal, collected)))],
            if well then p.(pc := ReadResult(k)) else Refuse(p), false)
  }

  // ---------------------------------------------------------------- everybody together

  /** `spawned` counts, per step, how often its unit has been spawned. */
  datatype World = World(jobs: seq<Job>, spawned: seq<nat>, processes: seq<Process>)

  datatype Event =
    | Start(mayExecute: bool)
    | Run(process: nat, choice: Choice)
    | Stop(process: nat)
    | UnitPublishes(step: nat, result: StepResult)
    | UnitCreatesTerminal(step: nat)
    | UnitWritesTerminal(step: nat, succeeded: bool)

  function StepOf(pc: Pc): nat {
    if pc.Done? then 0 else pc.k
  }

  function Step(s: PhaseSpec, w: World, e: Event): World
    requires |w.jobs| == |w.spawned| == |s.content.steps|
  {
    match e
    case Start(mayExecute) =>
      w.(processes := w.processes + [NextStep(s, Process(mayExecute, false, [], Done(Refused)), 0)])
    case Run(i, choice) =>
      if i >= |w.processes| then w
      else
        var k := StepOf(w.processes[i].pc);
        var (jobs, p, spawns) := ProcessStep(s, w.jobs, i, w.processes[i], choice);
        World(jobs, if spawns && k < |w.spawned| then w.spawned[k := w.spawned[k] + 1] else w.spawned,
              w.processes[i := p])
    case Stop(i) =>
      if i >= |w.processes| || w.processes[i].pc.Done? then w
      else w.(processes := w.processes[i := Refuse(w.processes[i])])
    case UnitPublishes(k, r) =>
      if k >= |w.jobs| || w.spawned[k] == 0 || w.jobs[k].result.Some? then w
      else w.(jobs := w.jobs[k := w.jobs[k].(result := Some(r))])
    case UnitCreatesTerminal(k) =>
      if k >= |w.jobs| || w.spawned[k] == 0 || w.jobs[k].terminal != Absent then w
      else w.(jobs := w.jobs[k := w.jobs[k].(terminal := Partial(0))])
    case UnitWritesTerminal(k, succeeded) =>
      if k >= |w.jobs| || !w.jobs[k].terminal.Partial? || !w.jobs[k].start.Written? then w
      else w.(jobs := w.jobs[k := w.jobs[k].(terminal := Written(Terminal(w.jobs[k].start.value, succeeded)))])
  }

  // ---------------------------------------------------------------- the invariant

  /** Units run only behind a written marker, results only come from units, and receipts are bound to each other. */
  ghost predicate JobSound(j: Job, spawned: nat) {
    && spawned <= 1
    && (spawned > 0 ==> j.start.Written?)
    && (j.result.Some? ==> spawned > 0)
    && (j.terminal.Written? ==> j.start.Written? && j.terminal.value.start == j.start.value)
    && (j.cleanup.Written? ==> j.terminal.Written? && j.cleanup.value.terminal == j.terminal.value)
  }

  /** The results in hand are the files, each with complete evidence, and each authorised by those before it. */
  ghost predicate Holds(s: PhaseSpec, jobs: seq<Job>, rs: seq<StepResult>) {
    && |rs| <= |jobs|
    && forall i :: 0 <= i < |rs| ==>
         && jobs[i].result == Some(rs[i])
         && EvidenceComplete(jobs[i])
         && Authorised(rs[i], s, i + 1, rs[..i])
  }

  ghost predicate ProcessSound(s: PhaseSpec, jobs: seq<Job>, spawned: seq<nat>, id: nat, p: Process)
    requires |jobs| == |spawned|
  {
    && Holds(s, jobs, p.results)
    && match p.pc
       case Done(Projected(rs)) => |rs| == |jobs| && Holds(s, jobs, rs) && CompleteChainValid(s, rs)
       case Done(_) => true
       case LookForResult(k) => k == |p.results| < |jobs|
       case LookForStart(k) => k == |p.results| < |jobs|
       case ReadResult(k) => k == |p.results| < |jobs|
       case CheckStarted(k, r) =>
         k == |p.results| < |jobs| && jobs[k].result == Some(r) && Authorised(r, s, k + 1, p.results)
       case ReadTerminal(k, r) =>
         k == |p.results| < |jobs| && jobs[k].result == Some(r) && Authorised(r, s, k + 1, p.results)
       case ReadCleanup(k, r, terminal) =>
         && k == |p.results| < |jobs| && jobs[k].result == Some(r) && Authorised(r, s, k + 1, p.results)
         && jobs[k].terminal == Written(terminal)
       case RecheckStart(k) => k == |p.results| < |jobs|
       case RecheckResult(k) => k == |p.results| < |jobs|
       case ReadPrior(k, read) => k == |p.results| < |jobs| && PriorChainValid(s, k + 1, p.results)
       case CreateStart(k) => k == |p.results| < |jobs| && PriorChainValid(s, k + 1, p.results)
       case WriteStart(k) =>
         && k == |p.results| < |jobs| && PriorChainValid(s, k + 1, p.results)
         && jobs[k].start == Partial(id) && spawned[k] == 0
       case Spawn(k) =>
         && k == |p.results| < |jobs| && PriorChainValid(s, k + 1, p.results)
         && jobs[k].start == Written(id) && spawned[k] == 0
       case Wait(k) => k == |p.results| < |jobs|
       case FetchTerminal(k, _, _) => k == |p.results| < |jobs|
       case CreateCleanup(k, terminal, _, _) => k == |p.results| < |jobs| && jobs[k].terminal == Written(terminal)
       case WriteCleanup(k, terminal, _, _) =>
         k == |p.results| < |jobs| && jobs[k].terminal == Written(terminal) && jobs[k].cleanup == Partial(id)
  }

  ghost predicate Sound(s: PhaseSpec, w: World) {
    && |w.jobs| == |w.spawned| == |s.content.steps|
    && (forall k :: 0 <= k < |w.jobs| ==> JobSound(w.jobs[k], w.spawned[k]))
    && (forall i :: 0 <= i < |w.processes| ==> ProcessSound(s, w.jobs, w.spawned, i, w.processes[i]))
  }

  /** How a job may change: files are created once and then keep their content. */
  ghost predicate JobMoves(j: Job, j': Job) {
    && (j.start.Written? ==> j'.start == j.start)
    && (j.result.Some? ==> j'.result == j.result)
    && (j.terminal.Written? ==> j'.terminal == j.terminal)
    && (j.cleanup.Written? ==> j'.cleanup == j.cleanup)
  }

  /** A file being filled belongs to one process and waits for it. */
  ghost predicate LeavesAlone(j: Job, spawned: nat, j': Job, spawned': nat, id: nat) {
    && (j.start == Partial(id) ==> j'.start == j.start && spawned' == spawned)
    && (j.start == Written(id) ==> spawned' == spawned)
    && (j.cleanup == Partial(id) ==> j'.cleanup == j.cleanup)
  }

  ghost predicate Moves(w: World, w': World) {
    && |w.jobs| == |w'.jobs| == |w.spawned| == |w'.spawned|
    && forall k :: 0 <= k < |w.jobs| ==> JobMoves(w.jobs[k], w'.jobs[k]) && w.spawned[k] <= w'.spawned[k]
  }

  lemma HoldsStays(s: PhaseSpec, jobs: seq<Job>, jobs': seq<Job>, rs: seq<StepResult>)
    requires Holds(s, jobs, rs) && |jobs| == |jobs'| && forall k :: 0 <= k < |jobs| ==> JobMoves(jobs[k], jobs'[k])
    ensures Holds(s, jobs', rs)
  {
    hide Authorised;
    forall i | 0 <= i < |rs| ensures jobs'[i].result == Some(rs[i]) && EvidenceComplete(jobs'[i]) {
      assert JobMoves(jobs[i], jobs'[i]);
    }
  }

  /** A process is unaffected by what others do, as long as they leave its own files alone. */
  lemma OthersStaySound(s: PhaseSpec, w: World, w': World, id: nat, p: Process)
    requires |w.jobs| == |w.spawned| && ProcessSound(s, w.jobs, w.spawned, id, p) && Moves(w, w')
    requires forall k :: 0 <= k < |w.jobs| ==> LeavesAlone(w.jobs[k], w.spawned[k], w'.jobs[k], w'.spawned[k], id)
    ensures ProcessSound(s, w'.jobs, w'.spawned, id, p)
  {
    hide Authorised, Holds, PriorChainValid, CompleteChainValid;
    HoldsStays(s, w.jobs, w'.jobs, p.results);
    if p.pc.Done? {
      if p.pc.outcome.Projected? { HoldsStays(s, w.jobs, w'.jobs, p.pc.outcome.results); }
    } else if p.pc.k < |w.jobs| {
      assert JobMoves(w.jobs[p.pc.k], w'.jobs[p.pc.k]);
      assert LeavesAlone(w.jobs[p.pc.k], w.spawned[p.pc.k], w'.jobs[p.pc.k], w'.spawned[p.pc.k], id);
    }
  }

  lemma HoldsOneMore(s: PhaseSpec, jobs: seq<Job>, rs: seq<StepResult>, r: StepResult)
    requires Holds(s, jobs, rs) && |rs| < |jobs| && jobs[|rs|].result == Some(r) && EvidenceComplete(jobs[|rs|])
    requires Authorised(r, s, |rs| + 1, rs)
    ensures Holds(s, jobs, rs + [r])
  {
    hide Authorised;
    var all := rs + [r];
    forall i | 0 <= i < |all|
      ensures jobs[i].result == Some(all[i]) && EvidenceComplete(jobs[i]) && Authorised(all[i], s, i + 1, all[..i])
    {
      if i < |rs| { assert all[..i] == rs[..i]; } else { assert all[..i] == rs; }
    }
  }

  lemma NextStepSound(s: PhaseSpec, jobs: seq<Job>, spawned: seq<nat>, id: nat, p: Process, k: nat)
    requires |jobs| == |spawned| == |s.content.steps| && Holds(s, jobs, p.results) && |p.results| == k
    ensures ProcessSound(s, jobs, spawned, id, NextStep(s, p, k))
  {
    hide Holds, Authorised;
  }

  ghost predicate Writes(pc: Pc) {
    pc.CreateStart? || pc.WriteStart? || pc.Spawn? || pc.CreateCleanup? || pc.WriteCleanup?
  }

  ghost predicate ReadsFine(s: PhaseSpec, jobs: seq<Job>, spawned: seq<nat>, id: nat, p: Process, c: Choice)
    requires |jobs| == |spawned| == |s.content.steps|
  {
    var (jobs', p', spawns) := ProcessStep(s, jobs, id, p, c);
    jobs' == jobs && !spawns && ProcessSound(s, jobs, spawned, id, p')
  }

  /** Calls that only read leave the directories as they are and the process sound. */
  lemma ReadingKeepsSound(s: PhaseSpec, jobs: seq<Job>, spawned: seq<nat>, id: nat, p: Process, c: Choice)
    requires |jobs| == |spawned| == |s.content.steps| && ProcessSound(s, jobs, spawned, id, p) && !Writes(p.pc)
    requires forall k :: 0 <= k < |jobs| ==> JobSound(jobs[k], spawned[k])
    ensures ReadsFine(s, jobs, spawned, id, p, c)
  {
    hide ReadsFine, ProcessSound, JobSound;
    if p.pc.LookForResult? || p.pc.LookForStart? || p.pc.ReadResult? {
      LookingKeepsSound(s, jobs, spawned, id, p, c);
    } else if p.pc.CheckStarted? || p.pc.ReadTerminal? || p.pc.ReadCleanup? {
      EvidenceKeepsSound(s, jobs, spawned, id, p, c);
    } else {
      CheckingKeepsSound(s, jobs, spawned, id, p, c);
    }
  }

  lemma LookingKeepsSound(s: PhaseSpec, jobs: seq<Job>, spawned: seq<nat>, id: nat, p: Process, c: Choice)
    requires |jobs| == |spawned| == |s.content.steps| && ProcessSound(s, jobs, spawned, id, p)
    requires p.pc.LookForResult? || p.pc.LookForStart? || p.pc.ReadResult?
    ensures ReadsFine(s, jobs, spawned, id, p, c)
  {
    hide Authorised, Holds, PriorChainValid, CompleteChainValid, NextStep;
    HoldsNothing(s, jobs);
  }

  lemma EvidenceKeepsSound(s: PhaseSpec, jobs: seq<Job>, spawned: seq<nat>, id: nat, p: Process, c: Choice)
    requires |jobs| == |spawned| == |s.content.steps| && ProcessSound(s, jobs, spawned, id, p)
    requires forall k :: 0 <= k < |jobs| ==> JobSound(jobs[k], spawned[k])
    requires p.pc.CheckStarted? || p.pc.ReadTerminal? || p.pc.ReadCleanup?
    ensures ReadsFine(s, jobs, spawned, id, p, c)
  {
    hide Authorised, Holds, PriorChainValid, CompleteChainValid, NextStep;
    var k := p.pc.k;
    assert JobSound(jobs[k], spawned[k]);
    if p.pc.ReadCleanup? {
      var terminal := p.pc.terminal;
      if jobs[k].cleanup.Written? && jobs[k].cleanup.value.terminal == terminal && terminal.succeeded
         && jobs[k].cleanup.value.complete {
        HoldsOneMore(s, jobs, p.results, p.pc.r);
        NextStepSound(s, jobs, spawned, id, p.(results := p.results + [p.pc.r]), k + 1);
      }
    }
  }

  lemma CheckingKeepsSound(s: PhaseSpec, jobs: seq<Job>, spawned: seq<nat>, id: nat, p: Process, c: Choice)
    requires |jobs| == |spawned| == |s.content.steps| && ProcessSound(s, jobs, spawned, id, p) && !Writes(p.pc)
    requires !(p.pc.LookForResult? || p.pc.LookForStart? || p.pc.ReadResult? || p.pc.CheckStarted? || p.pc.ReadTerminal?
               || p.pc.ReadCleanup?)
    ensures ReadsFine(s, jobs, spawned, id, p, c)
  {
    hide Authorised, Holds, PriorChainValid, CompleteChainValid, NextStep;
  }

  lemma HoldsNothing(s: PhaseSpec, jobs: seq<Job>)
    ensures Holds(s, jobs, [])
  {
  }

  /** What a single write does to one job. */
  ghost predicate WriteSound(jobs: seq<Job>, spawned: seq<nat>, jobs': seq<Job>, spawned': seq<nat>, id: nat) {
    && |jobs| == |jobs'| == |spawned| == |spawned'|
    && forall k :: 0 <= k < |jobs| ==>
         && JobMoves(jobs[k], jobs'[k])
         && spawned[k] <= spawned'[k]
         && JobSound(jobs'[k], spawned'[k])
         && forall other :: other != id ==> LeavesAlone(jobs[k], spawned[k], jobs'[k], spawned'[k], other)
  }

  /** A call that writes changes one job only; if that change is sound, the whole write is. */
  lemma OneJobWritten(jobs: seq<Job>, spawned: seq<nat>, jobs': seq<Job>, spawned': seq<nat>, id: nat, x: nat)
    requires x < |jobs| == |spawned| == |spawned'|
    requires forall k :: 0 <= k < |jobs| ==> JobSound(jobs[k], spawned[k])
    requires |jobs'| == |jobs| && jobs' == jobs[x := jobs'[x]] && spawned' == spawned[x := spawned'[x]]
    requires JobMoves(jobs[x], jobs'[x]) && spawned[x] <= spawned'[x] && JobSound(jobs'[x], spawned'[x])
    requires forall other :: other != id ==> LeavesAlone(jobs[x], spawned[x], jobs'[x], spawned'[x], other)
    ensures WriteSound(jobs, spawned, jobs', spawned', id)
  {
    forall k | 0 <= k < |jobs|
      ensures JobMoves(jobs[k], jobs'[k]) && spawned[k] <= spawned'[k] && JobSound(jobs'[k], spawned'[k])
      ensures forall other :: other != id ==> LeavesAlone(jobs[k], spawned[k], jobs'[k], spawned'[k], other)
    {
    }
  }

  lemma StartWriteIsSound(s: PhaseSpec, jobs: seq<Job>, spawned: seq<nat>, i: nat, p: Process, c: Choice)
    requires |jobs| == |spawned| == |s.content.steps| && ProcessSound(s, jobs, spawned, i, p)
    requires forall k :: 0 <= k < |jobs| ==> JobSound(jobs[k], spawned[k])
    requires p.pc.CreateStart? || p.pc.WriteStart? || p.pc.Spawn?
    ensures var (jobs', p', spawns) := ProcessStep(s, jobs, i, p, c);
            var spawned' := if spawns then spawned[p.pc.k := spawned[p.pc.k] + 1] else spawned;
            WriteSound(jobs, spawned, jobs', spawned', i)
  {
    hide Authorised, Holds, PriorChainValid, CompleteChainValid, NextStep, WriteSound;
    var (jobs', p', spawns) := ProcessStep(s, jobs, i, p, c);
    var spawned' := if spawns then spawned[p.pc.k := spawned[p.pc.k] + 1] else spawned;
    assert JobSound(jobs[p.pc.k], spawned[p.pc.k]);
    OneJobWritten(jobs, spawned, jobs', spawned', i, p.pc.k);
  }

  lemma CleanupWriteIsSound(s: PhaseSpec, jobs: seq<Job>, spawned: seq<nat>, i: nat, p: Process, c: Choice)
    requires |jobs| == |spawned| == |s.content.steps| && ProcessSound(s, jobs, spawned, i, p)
    requires forall k :: 0 <= k < |jobs| ==> JobSound(jobs[k], spawned[k])
    requires p.pc.CreateCleanup? || p.pc.WriteCleanup?
    ensures var (jobs', p', spawns) := ProcessStep(s, jobs, i, p, c);
            !spawns && WriteSound(jobs, spawned, jobs', spawned, i)
  {
    hide Authorised, Holds, PriorChainValid, CompleteChainValid, NextStep, WriteSound;
    var (jobs', p', spawns) := ProcessStep(s, jobs, i, p, c);
    assert JobSound(jobs[p.pc.k], spawned[p.pc.k]);
    OneJobWritten(jobs, spawned, jobs', spawned, i, p.pc.k);
  }

  lemma WriteIsSound(s: PhaseSpec, w: World, i: nat, c: Choice)
    requires Sound(s, w) && i < |w.processes| && Writes(w.processes[i].pc)
    ensures var w' := Step(s, w, Run(i, c)); WriteSound(w.jobs, w.spawned, w'.jobs, w'.spawned, i)
  {
    hide Holds, JobSound, WriteSound, ProcessStep, NextStep, PriorChainValid, CompleteChainValid;
    var p := w.processes[i];
    assert ProcessSound(s, w.jobs, w.spawned, i, p);
    hide ProcessSound;
    if p.pc.CreateCleanup? || p.pc.WriteCleanup? {
      CleanupWriteIsSound(s, w.jobs, w.spawned, i, p, c);
    } else {
      StartWriteIsSound(s, w.jobs, w.spawned, i, p, c);
    }
  }

  lemma WriterStaysSound(s: PhaseSpec, w: World, i: nat, c: Choice)
    requires Sound(s, w) && i < |w.processes| && Writes(w.processes[i].pc)
    requires var w' := Step(s, w, Run(i, c)); WriteSound(w.jobs, w.spawned, w'.jobs, w'.spawned, i)
    ensures var w' := Step(s, w, Run(i, c)); ProcessSound(s, w'.jobs, w'.spawned, i, w'.processes[i])
  {
    hide Authorised, Holds, PriorChainValid, CompleteChainValid, NextStep;
    var w', p := Step(s, w, Run(i, c)), w.processes[i];
    assert ProcessSound(s, w.jobs, w.spawned, i, p);
    HoldsStays(s, w.jobs, w'.jobs, p.results);
    hide JobSound, LeavesAlone, JobMoves;
  }

  lemma WritingKeepsSound(s: PhaseSpec, w: World, i: nat, c: Choice)
    requires Sound(s, w) && i < |w.processes| && Writes(w.processes[i].pc)
    ensures var w' := Step(s, w, Run(i, c));
            && WriteSound(w.jobs, w.spawned, w'.jobs, w'.spawned, i)
            && ProcessSound(s, w'.jobs, w'.spawned, i, w'.processes[i])
  {
    hide Sound, Writes, WriteSound, ProcessSound, ProcessStep;
    SoundHasJobs(s, w);
    WriteIsSound(s, w, i, c);
    WriterStaysSound(s, w, i, c);
  }

  lemma RunKeepsSound(s: PhaseSpec, w: World, i: nat, c: Choice)
    requires Sound(s, w) && i < |w.processes|
    ensures Sound(s, Step(s, w, Run(i, c))) && Moves(w, Step(s, w, Run(i, c)))
  {
    hide ProcessSound, JobSound, ProcessStep, JobMoves;
    var w', p := Step(s, w, Run(i, c)), w.processes[i];
    if Writes(p.pc) {
      WritingKeepsSound(s, w, i, c);
      forall j | 0 <= j < |w.processes| ensures ProcessSound(s, w'.jobs, w'.spawned, j, w'.processes[j]) {
        if j != i { OthersStaySound(s, w, w', j, w.processes[j]); }
      }
    } else {
      ReadingKeepsSound(s, w.jobs, w.spawned, i, p, c);
      NothingMoves(w);
    }
  }

  lemma NothingMoves(w: World)
    requires |w.jobs| == |w.spawned|
    ensures Moves(w, w)
  {
  }

  lemma UnitWriteIsSound(s: PhaseSpec, w: World, e: Event)
    requires Sound(s, w) && (e.UnitPublishes? || e.UnitCreatesTerminal? || e.UnitWritesTerminal?)
    ensures var w' := Step(s, w, e);
            && |w'.jobs| == |w.jobs| && w'.spawned == w.spawned && w'.processes == w.processes
            && forall k :: 0 <= k < |w.jobs| ==>
                 && JobMoves(w.jobs[k], w'.jobs[k]) && JobSound(w'.jobs[k], w'.spawned[k])
                 && forall id :: LeavesAlone(w.jobs[k], w.spawned[k], w'.jobs[k], w'.spawned[k], id)
  {
    hide ProcessSound;
    var w' := Step(s, w, e);
    forall k | 0 <= k < |w.jobs|
      ensures JobMoves(w.jobs[k], w'.jobs[k]) && JobSound(w'.jobs[k], w'.spawned[k])
      ensures forall id :: LeavesAlone(w.jobs[k], w.spawned[k], w'.jobs[k], w'.spawned[k], id)
    {
      assert JobSound(w.jobs[k], w.spawned[k]);
    }
  }

  lemma UnitKeepsSound(s: PhaseSpec, w: World, e: Event)
    requires Sound(s, w) && (e.UnitPublishes? || e.UnitCreatesTerminal? || e.UnitWritesTerminal?)
    ensures Sound(s, Step(s, w, e)) && Moves(w, Step(s, w, e))
  {
    hide ProcessSound;
    var w' := Step(s, w, e);
    UnitWriteIsSound(s, w, e);
    hide JobSound, JobMoves, LeavesAlone;
    forall j | 0 <= j < |w.processes| ensures ProcessSound(s, w'.jobs, w'.spawned, j, w'.processes[j]) {
      OthersStaySound(s, w, w', j, w.processes[j]);
    }
  }

  lemma StepKeepsSound(s: PhaseSpec, w: World, e: Event)
    requires Sound(s, w)
    ensures Sound(s, Step(s, w, e)) && Moves(w, Step(s, w, e))
  {
    hide ProcessSound, JobSound, ProcessStep, NextStep;
    match e
    case Run(i, c) => if i < |w.processes| { RunKeepsSound(s, w, i, c); } else { NothingMoves(w); }
    case Start(mayExecute) =>
      HoldsNothing(s, w.jobs);
      NextStepSound(s, w.jobs, w.spawned, |w.processes|, Process(mayExecute, false, [], Done(Refused)), 0);
      NothingMoves(w);
    case Stop(i) =>
      if i < |w.processes| { StoppedIsSound(s, w, i); }
      NothingMoves(w);
    case _ => UnitKeepsSound(s, w, e);
  }

  lemma StoppedIsSound(s: PhaseSpec, w: World, i: nat)
    requires Sound(s, w) && i < |w.processes|
    ensures ProcessSound(s, w.jobs, w.spawned, i, Refuse(w.processes[i]))
  {
    hide Holds;
    assert ProcessSound(s, w.jobs, w.spawned, i, w.processes[i]);
  }

  // ---------------------------------------------------------------- whole runs

  /** The world after the first n events of a run that starts with empty job directories. */
  ghost function At(s: PhaseSpec, events: seq<Event>, n: nat): (w: World)
    requires n <= |events|
    ensures Sound(s, w)
  {
    if n == 0 then
      var steps := |s.content.steps|;
      World(seq(steps, _ => EMPTY_JOB), seq(steps, _ => 0), [])
    else
      StepKeepsSound(s, At(s, events, n - 1), events[n - 1]);
      Step(s, At(s, events, n - 1), events[n - 1])
  }

  lemma MovesCompose(a: World, b: World, c: World)
    requires Moves(a, b) && Moves(b, c)
    ensures Moves(a, c)
  {
    forall k | 0 <= k < |a.jobs| ensures JobMoves(a.jobs[k], c.jobs[k]) && a.spawned[k] <= c.spawned[k] {
      assert JobMoves(a.jobs[k], b.jobs[k]) && JobMoves(b.jobs[k], c.jobs[k]);
    }
  }

  lemma {:induction false} RunMoves(s: PhaseSpec, events: seq<Event>, i: nat, j: nat)
    requires i <= j <= |events|
    ensures Moves(At(s, events, i), At(s, events, j))
    decreases j
  {
    hide Step, Moves, Sound;
    if i < j {
      RunMoves(s, events, i, j - 1);
      StepKeepsSound(s, At(s, events, j - 1), events[j - 1]);
      MovesCompose(At(s, events, i), At(s, events, j - 1), At(s, events, j));
    } else {
      SoundHasJobs(s, At(s, events, i));
      NothingMoves(At(s, events, i));
    }
  }

  lemma SoundHasJobs(s: PhaseSpec, w: World)
    requires Sound(s, w)
    ensures |w.jobs| == |w.spawned| == |s.content.steps|
  {
  }

  /** However executors interleave and stop, no step's unit is spawned twice, and never without its marker. */
  lemma SpawnedAtMostOnce(s: PhaseSpec, events: seq<Event>, n: nat, k: nat)
    requires n <= |events| && k < |s.content.steps|
    ensures |At(s, events, n).jobs| == |At(s, events, n).spawned| == |s.content.steps|
    ensures At(s, events, n).spawned[k] <= 1
    ensures At(s, events, n).spawned[k] == 1 ==> At(s, events, n).jobs[k].start.Written?
  {
    hide At, ProcessSound;
    assert JobSound(At(s, events, n).jobs[k], At(s, events, n).spawned[k]);
  }

  /**
    A unit is spawned only by the process that wrote its start marker, holding a validated chain of
    the results of all earlier steps that equals the result files, each with complete evidence.
  */
  lemma SpawnsAreJustified(s: PhaseSpec, events: seq<Event>, n: nat, k: nat)
    requires n < |events| && k < |s.content.steps|
    requires |At(s, events, n).spawned| == |At(s, events, n + 1).spawned| == |s.content.steps|
    requires At(s, events, n + 1).spawned[k] != At(s, events, n).spawned[k]
    ensures var w := At(s, events, n);
            && events[n].Run? && events[n].process < |w.processes|
            && var p := w.processes[events[n].process];
            && p.pc == Spawn(k)
            && w.jobs[k].start == Written(events[n].process)
            && PriorChainValid(s, k + 1, p.results)
            && Holds(s, w.jobs, p.results)
            && |p.results| == k
  {
    hide Holds, PriorChainValid, JobSound, NextStep;
    var w, e := At(s, events, n), events[n];
    assert At(s, events, n + 1) == Step(s, w, e);
    hide At;
    assert e.Run? && e.process < |w.processes|;
    assert ProcessSound(s, w.jobs, w.spawned, e.process, w.processes[e.process]);
    SpawnStep(s, w, e.process, e.choice, k);
  }

  lemma SpawnStep(s: PhaseSpec, w: World, i: nat, c: Choice, k: nat)
    requires |w.jobs| == |w.spawned| == |s.content.steps| && i < |w.processes| && k < |w.spawned|
    requires Step(s, w, Run(i, c)).spawned[k] != w.spawned[k]
    ensures w.processes[i].pc == Spawn(k)
  {
    hide Authorised, PriorChainValid, CompleteChainValid, NextStep;
  }

  // ---------------------------------------------------------------- marked steps

  /** Some process has created the start marker of step k and not yet spawned its unit. */
  ghost predicate Claimed(w: World, k: nat) {
    exists i :: 0 <= i < |w.processes| && BeforeSpawn(w.processes[i].pc, k)
  }

  predicate BeforeSpawn(pc: Pc, k: nat) {
    pc == WriteStart(k) || pc == Spawn(k)
  }

  /** The step is marked as started, whether the marker is complete or not, and nobody is about to spawn it. */
  ghost predicate PastStarting(w: World, k: nat) {
    k < |w.jobs| && w.jobs[k].start != Absent && !Claimed(w, k)
  }

  /** A process that is not about to spawn a marked step does not get there. */
  lemma MarkerRefuses(s: PhaseSpec, jobs: seq<Job>, id: nat, p: Process, c: Choice, k: nat)
    requires |jobs| == |s.content.steps| && k < |jobs| && jobs[k].start != Absent && !BeforeSpawn(p.pc, k)
    ensures !BeforeSpawn(ProcessStep(s, jobs, id, p, c).1.pc, k)
    ensures ProcessStep(s, jobs, id, p, c).2 ==> StepOf(p.pc) != k
  {
    hide Authorised, PriorChainValid, CompleteChainValid, NextStep;
    if !(p.pc.CreateStart? || p.pc.WriteStart? || p.pc.Spawn?) { OnlyStartersStart(s, jobs, id, p, c); }
  }

  /** Only creating a marker leads to writing it, and only writing it to spawning. */
  lemma OnlyStartersStart(s: PhaseSpec, jobs: seq<Job>, id: nat, p: Process, c: Choice)
    requires |jobs| == |s.content.steps| && !p.pc.CreateStart? && !p.pc.WriteStart? && !p.pc.Spawn?
    ensures var after := ProcessStep(s, jobs, id, p, c);
            !after.1.pc.WriteStart? && !after.1.pc.Spawn? && !after.2
  {
    if Checks(p.pc) { CheckersOnlyRead(s, jobs, id, p, c); } else { UnitWaitersWait(s, jobs, id, p, c); }
  }

  predicate Checks(pc: Pc) {
    || pc.LookForResult? || pc.LookForStart? || pc.ReadResult? || pc.CheckStarted? || pc.ReadTerminal?
    || pc.ReadCleanup? || pc.RecheckStart? || pc.RecheckResult? || pc.ReadPrior?
  }

  lemma CheckersOnlyRead(s: PhaseSpec, jobs: seq<Job>, id: nat, p: Process, c: Choice)
    requires |jobs| == |s.content.steps| && Checks(p.pc)
    ensures var (jobs', p', spawns) := ProcessStep(s, jobs, id, p, c);
            jobs' == jobs && !p'.pc.WriteStart? && !p'.pc.Spawn? && !spawns
  {
    hide Authorised, PriorChainValid, CompleteChainValid, NextStep;
  }

  lemma UnitWaitersWait(s: PhaseSpec, jobs: seq<Job>, id: nat, p: Process, c: Choice)
    requires |jobs| == |s.content.steps|
    requires p.pc.Wait? || p.pc.FetchTerminal? || p.pc.CreateCleanup? || p.pc.WriteCleanup? || p.pc.Done?
    ensures var (_, p', spawns) := ProcessStep(s, jobs, id, p, c);
            !p'.pc.WriteStart? && !p'.pc.Spawn? && !spawns
  {
    hide Authorised, PriorChainValid, CompleteChainValid, NextStep;
  }

  /** Only the process that creates or writes a marker touches it. */
  lemma MarkerStays(s: PhaseSpec, jobs: seq<Job>, id: nat, p: Process, c: Choice, k: nat)
    requires |jobs| == |s.content.steps| && k < |jobs| && jobs[k].start != Absent && p.pc != WriteStart(k)
    ensures var jobs' := ProcessStep(s, jobs, id, p, c).0;
            |jobs'| == |jobs| && jobs'[k].start == jobs[k].start
  {
    hide Authorised, PriorChainValid, CompleteChainValid, NextStep;
  }

  lemma PastStartingStep(s: PhaseSpec, w: World, e: Event, k: nat)
    requires |w.jobs| == |w.spawned| == |s.content.steps| && PastStarting(w, k)
    ensures var w' := Step(s, w, e);
            && |w'.jobs| == |w'.spawned| == |w.jobs|
            && PastStarting(w', k) && w'.jobs[k].start == w.jobs[k].start && w'.spawned[k] == w.spawned[k]
  {
    hide ProcessStep, CompleteChainValid;
    if e.Run? && e.process < |w.processes| {
      MarkerRefuses(s, w.jobs, e.process, w.processes[e.process], e.choice, k);
      MarkerStays(s, w.jobs, e.process, w.processes[e.process], e.choice, k);
    }
  }

  /**
    A started step is never executed again: once its marker exists, complete or not, and no process
    stands between creating it and spawning the unit, neither the marker nor the number of spawns
    ever changes, and no process ever stands there again.
  */
  lemma {:induction false} StartedIsNeverRestarted(s: PhaseSpec, events: seq<Event>, i: nat, j: nat, k: nat)
    requires i <= j <= |events| && PastStarting(At(s, events, i), k)
    ensures PastStarting(At(s, events, j), k)
    ensures |At(s, events, i).spawned| == |At(s, events, j).spawned| == |At(s, events, i).jobs|
    ensures At(s, events, j).jobs[k].start == At(s, events, i).jobs[k].start
    ensures At(s, events, j).spawned[k] == At(s, events, i).spawned[k]
    decreases j
  {
    hide Step, PastStarting, Sound;
    SoundHasJobs(s, At(s, events, i));
    SoundHasJobs(s, At(s, events, j));
    PastStartingHasJob(At(s, events, i), k);
    if i < j {
      StartedIsNeverRestarted(s, events, i, j - 1, k);
      SoundHasJobs(s, At(s, events, j - 1));
      PastStartingStep(s, At(s, events, j - 1), events[j - 1], k);
    }
  }

  lemma PastStartingHasJob(w: World, k: nat)
    requires PastStarting(w, k)
    ensures k < |w.jobs|
  {
  }

  /** The world after some further events. */
  ghost function After(s: PhaseSpec, w: World, events: seq<Event>): (w': World)
    requires Sound(s, w)
    ensures Sound(s, w')
    decreases |events|
  {
    if events == [] then w
    else
      StepKeepsSound(s, w, events[0]);
      After(s, Step(s, w, events[0]), events[1..])
  }

  ghost predicate CanSpawn(s: PhaseSpec, w: World, k: nat)
    requires Sound(s, w) && k < |s.content.steps|
  {
    SoundHasJobs(s, w);
    exists events: seq<Event> :: SpawnsIn(s, w, events, k)
  }

  ghost predicate SpawnsIn(s: PhaseSpec, w: World, events: seq<Event>, k: nat)
    requires Sound(s, w) && k < |s.content.steps|
  {
    SoundHasJobs(s, w);
    SoundHasJobs(s, After(s, w, events));
    After(s, w, events).spawned[k] > w.spawned[k]
  }

  lemma {:induction false} PastStartingNeverSpawns(s: PhaseSpec, w: World, events: seq<Event>, k: nat)
    requires Sound(s, w) && k < |s.content.steps| && PastStarting(w, k)
    ensures !SpawnsIn(s, w, events, k)
    decreases |events|
  {
    hide Step, PastStarting, Sound;
    SoundHasJobs(s, w);
    if events != [] {
      StepKeepsSound(s, w, events[0]);
      PastStartingStep(s, w, events[0], k);
      PastStartingNeverSpawns(s, Step(s, w, events[0]), events[1..], k);
    }
  }

  /** The process between marker and spawn, running alone, spawns the unit. */
  lemma ClaimantSpawns(s: PhaseSpec, w: World, i: nat, k: nat)
    requires Sound(s, w) && k < |s.content.steps| && i < |w.processes| && BeforeSpawn(w.processes[i].pc, k)
    ensures CanSpawn(s, w, k)
  {
    hide Holds, PriorChainValid, CompleteChainValid, Authorised, NextStep, JobSound;
    SoundHasJobs(s, w);
    var run := Run(i, Choice(true, true, true));
    StepKeepsSound(s, w, run);
    var next := Step(s, w, run);
    if w.processes[i].pc == Spawn(k) {
      assert [run][1..] == [];
      assert After(s, w, [run]) == After(s, next, []) == next;
      assert SpawnsIn(s, w, [run], k);
    } else {
      StepKeepsSound(s, next, run);
      var last := Step(s, next, run);
      assert [run, run][1..] == [run] && [run][1..] == [];
      assert After(s, next, [run]) == After(s, last, []) == last;
      assert After(s, w, [run, run]) == last;
      assert SpawnsIn(s, w, [run, run], k);
    }
  }

  /** A marked step can still run exactly while the process that created its marker stands before the spawn. */
  lemma MarkedRunsWhileClaimed(s: PhaseSpec, w: World, k: nat)
    requires Sound(s, w) && k < |s.content.steps| && |w.jobs| == |s.content.steps| && w.jobs[k].start != Absent
    ensures CanSpawn(s, w, k) <==> Claimed(w, k)
  {
    hide Sound, SpawnsIn;
    if Claimed(w, k) {
      var i :| 0 <= i < |w.processes| && BeforeSpawn(w.processes[i].pc, k);
      ClaimantSpawns(s, w, i, k);
    } else {
      forall events: seq<Event> ensures !SpawnsIn(s, w, events, k) { PastStartingNeverSpawns(s, w, events, k); }
    }
  }

  /** Where a process goes that finds the first step untouched, access by access, up to creating its marker. */
  lemma WayToTheMarker(s: PhaseSpec, jobs: seq<Job>, p: Process, c: Choice)
    requires |jobs| == |s.content.steps| && |jobs| > 0 && jobs[0] == EMPTY_JOB
    requires p.mayExecute && p.executing && p.results == []
    ensures ProcessStep(s, jobs, 0, p.(executing := false, pc := LookForResult(0)), c)
         == (jobs, p.(executing := false, pc := LookForStart(0)), false)
    ensures ProcessStep(s, jobs, 0, p.(executing := false, pc := LookForStart(0)), c)
         == (jobs, p.(pc := LookForResult(0)), false)
    ensures ProcessStep(s, jobs, 0, p.(pc := LookForResult(0)), c) == (jobs, p.(pc := LookForStart(0)), false)
    ensures ProcessStep(s, jobs, 0, p.(pc := LookForStart(0)), c) == (jobs, p.(pc := RecheckStart(0)), false)
    ensures ProcessStep(s, jobs, 0, p.(pc := RecheckStart(0)), c) == (jobs, p.(pc := RecheckResult(0)), false)
    ensures ProcessStep(s, jobs, 0, p.(pc := RecheckResult(0)), c) == (jobs, p.(pc := ReadPrior(0, [])), false)
    ensures ProcessStep(s, jobs, 0, p.(pc := ReadPrior(0, [])), c) == (jobs, p.(pc := CreateStart(0)), false)
    ensures ProcessStep(s, jobs, 0, p.(pc := CreateStart(0)), c)
         == (jobs[0 := EMPTY_JOB.(start := Partial(0))], p.(pc := WriteStart(0)), false)
  {
    hide NextStep, ElementValid;
  }

  lemma AccessAlone(s: PhaseSpec, w: World, c: Choice)
    requires |w.jobs| == |w.spawned| == |s.content.steps| && |w.processes| == 1
    ensures var (jobs, p, spawns) := ProcessStep(s, w.jobs, 0, w.processes[0], c);
            !spawns ==> Step(s, w, Run(0, c)) == World(jobs, w.spawned, [p])
  {
    hide ProcessStep;
  }

  /** The events of an executor that stops right after creating the marker of the first step. */
  ghost function StoppedRun(): (events: seq<Event>)
    ensures |events| == 10
  {
    var run := Run(0, Choice(false, false, false));
    [Start(true), run, run, run, run, run, run, run, run, Stop(0)]
  }

  lemma UpToTheMarker(s: PhaseSpec)
    requires |s.content.steps| > 0
    ensures var w, p := At(s, StoppedRun(), 0), Process(true, true, [], WriteStart(0));
            && |w.jobs| == |w.spawned| == |s.content.steps|
            && w.spawned[0] == 0
            && At(s, StoppedRun(), 9) == World(w.jobs[0 := EMPTY_JOB.(start := Partial(0))], w.spawned, [p])
  {
    hide Sound, ProcessStep, CompleteChainValid;
    var events, c := StoppedRun(), Choice(false, false, false);
    var w, p := At(s, events, 0), Process(true, true, [], WriteStart(0));
    assert At(s, events, 1) == w.(processes := [p.(executing := false, pc := LookForResult(0))]);
    WayToTheMarker(s, w.jobs, p, c);
    hide Step;
    AccessAlone(s, At(s, events, 1), c);
    assert At(s, events, 2) == w.(processes := [p.(executing := false, pc := LookForStart(0))]);
    AccessAlone(s, At(s, events, 2), c);
    assert At(s, events, 3) == w.(processes := [p.(pc := LookForResult(0))]);
    AccessAlone(s, At(s, events, 3), c);
    assert At(s, events, 4) == w.(processes := [p.(pc := LookForStart(0))]);
    AccessAlone(s, At(s, events, 4), c);
    assert At(s, events, 5) == w.(processes := [p.(pc := RecheckStart(0))]);
    AccessAlone(s, At(s, events, 5), c);
    assert At(s, events, 6) == w.(processes := [p.(pc := RecheckResult(0))]);
    AccessAlone(s, At(s, events, 6), c);
    assert At(s, events, 7) == w.(processes := [p.(pc := ReadPrior(0, []))]);
    AccessAlone(s, At(s, events, 7), c);
    assert At(s, events, 8) == w.(processes := [p.(pc := CreateStart(0))]);
    AccessAlone(s, At(s, events, 8), c);
  }

  /** It does happen: that run leaves the step marked, never spawned, and out of reach of every later run. */
  lemma StoppingLosesTheStep(s: PhaseSpec)
    requires |s.content.steps| > 0
    ensures PastStarting(At(s, StoppedRun(), 10), 0)
    ensures |At(s, StoppedRun(), 10).spawned| > 0 && At(s, StoppedRun(), 10).spawned[0] == 0
    ensures !CanSpawn(s, At(s, StoppedRun(), 10), 0)
  {
    hide Sound, CompleteChainValid, CanSpawn, ProcessStep;
    UpToTheMarker(s);
    var w := At(s, StoppedRun(), 9);
    assert At(s, StoppedRun(), 10) == w.(processes := [Refuse(w.processes[0])]);
    MarkedRunsWhileClaimed(s, At(s, StoppedRun(), 10), 0);
  }

  // ---------------------------------------------------------------- projections

  ghost predicate HasProjection(w: World, i: nat) {
    i < |w.processes| && w.processes[i].pc.Done? && w.processes[i].pc.outcome.Projected?
  }

  lemma ProjectionHolds(s: PhaseSpec, w: World, i: nat)
    requires Sound(s, w) && HasProjection(w, i)
    ensures var rs := w.processes[i].pc.outcome.results;
            |rs| == |w.jobs| && Holds(s, w.jobs, rs) && CompleteChainValid(s, rs)
  {
    hide Holds, CompleteChainValid, JobSound;
    assert ProcessSound(s, w.jobs, w.spawned, i, w.processes[i]);
  }

  /** A projection exists only if every step was spawned once and has succeeded, collected and bound receipts. */
  lemma ProjectionNeedsEvidence(s: PhaseSpec, events: seq<Event>, n: nat, i: nat, k: nat)
    requires n <= |events| && HasProjection(At(s, events, n), i) && k < |s.content.steps|
    ensures var w := At(s, events, n);
            && |w.jobs| == |w.spawned| == |s.content.steps|
            && EvidenceComplete(w.jobs[k])
            && w.spawned[k] == 1
            && w.jobs[k].result == Some(w.processes[i].pc.outcome.results[k])
  {
    hide At, ProcessSound;
    var w := At(s, events, n);
    ProjectionHolds(s, w, i);
    assert JobSound(w.jobs[k], w.spawned[k]);
  }

  /** All projections of a run, whoever computed them and whenever, are the same. */
  lemma ProjectionsAgree(s: PhaseSpec, events: seq<Event>, m: nat, i: nat, n: nat, j: nat)
    requires m <= n <= |events| && HasProjection(At(s, events, m), i) && HasProjection(At(s, events, n), j)
    ensures At(s, events, m).processes[i].pc.outcome == At(s, events, n).processes[j].pc.outcome
  {
    hide At, ProcessSound, JobSound;
    var w, w' := At(s, events, m), At(s, events, n);
    ProjectionHolds(s, w, i);
    ProjectionHolds(s, w', j);
    RunMoves(s, events, m, n);
    var a, b := w.processes[i].pc.outcome.results, w'.processes[j].pc.outcome.results;
    forall k | 0 <= k < |a| ensures a[k] == b[k] { assert JobMoves(w.jobs[k], w'.jobs[k]); }
  }

  /** After a projection exists, no unit is ever spawned again. */
  lemma NothingSpawnsAfterProjection(s: PhaseSpec, events: seq<Event>, m: nat, i: nat, n: nat)
    requires m <= n <= |events| && HasProjection(At(s, events, m), i)
    ensures At(s, events, n).spawned == At(s, events, m).spawned
  {
    hide At, ProcessSound, JobSound, Moves;
    SoundHasJobs(s, At(s, events, m));
    SoundHasJobs(s, At(s, events, n));
    forall k | 0 <= k < |s.content.steps| ensures At(s, events, n).spawned[k] == At(s, events, m).spawned[k] {
      ProjectionNeedsEvidence(s, events, m, i, k);
      SpawnedAtMostOnce(s, events, n, k);
      RunMoves(s, events, m, n);
      SpawnedGrows(At(s, events, m), At(s, events, n), k);
    }
  }

  lemma SpawnedGrows(w: World, w': World, k: nat)
    requires Moves(w, w') && k < |w.jobs|
    ensures w.spawned[k] <= w'.spawned[k]
  {
  }

  /** A process in its observation pass that has so far read the settled results. */
  ghost predicate OnTrack(rs: seq<StepResult>, p: Process) {
    match p.pc
    case LookForResult(k) => !p.executing && k < |rs| && p.results == rs[..k]
    case ReadResult(k) => !p.executing && k < |rs| && p.results == rs[..k]
    case CheckStarted(k, r) => !p.executing && k < |rs| && p.results == rs[..k] && r == rs[k]
    case ReadTerminal(k, r) => !p.executing && k < |rs| && p.results == rs[..k] && r == rs[k]
    case ReadCleanup(k, r, terminal) => !p.executing && k < |rs| && p.results == rs[..k] && r == rs[k]
    case Done(Projected(x)) => x == rs
    case _ => false
  }

  /** File accesses an on-track process still makes. */
  ghost function Ahead(n: nat, pc: Pc): nat {
    match pc
    case LookForResult(k) => if k < n then 5 * (n - k) else 0
    case ReadResult(k) => if k < n then 5 * (n - k) - 1 else 0
    case CheckStarted(k, _) => if k < n then 5 * (n - k) - 2 else 0
    case ReadTerminal(k, _) => if k < n then 5 * (n - k) - 3 else 0
    case ReadCleanup(k, _, _) => if k < n then 5 * (n - k) - 4 else 0
    case _ => 0
  }

  lemma OnTrackStep(s: PhaseSpec, jobs: seq<Job>, spawned: seq<nat>, rs: seq<StepResult>, id: nat, p: Process,
                    c: Choice)
    requires |jobs| == |spawned| == |s.content.steps| == |rs| && Holds(s, jobs, rs) && CompleteChainValid(s, rs)
    requires OnTrack(rs, p) && ProcessSound(s, jobs, spawned, id, p)
    ensures var (jobs', p', spawns) := ProcessStep(s, jobs, id, p, c);
            && jobs' == jobs && !spawns && OnTrack(rs, p')
            && (!p.pc.Done? ==> Ahead(|rs|, p'.pc) < Ahead(|rs|, p.pc))
  {
    hide Authorised, PriorChainValid, CompleteChainValid;
    if !p.pc.Done? {
      var k := p.pc.k;
      assert jobs[k].result == Some(rs[k]) && EvidenceComplete(jobs[k]) && Authorised(rs[k], s, k + 1, rs[..k]);
      assert rs[..k] + [rs[k]] == rs[..k + 1];
      assert rs[..|rs|] == rs;
    }
  }

  /** Every process started after a projection exists, unless stopped, is on the way to that same projection. */
  lemma {:induction false} LaterRunsFollow(s: PhaseSpec, events: seq<Event>, m: nat, i: nat, n: nat, j: nat)
    requires m <= n <= |events| && HasProjection(At(s, events, m), i)
    requires |At(s, events, m).processes| <= j < |At(s, events, n).processes|
    requires forall x :: m <= x < n ==> events[x] != Stop(j)
    ensures OnTrack(At(s, events, m).processes[i].pc.outcome.results, At(s, events, n).processes[j])
    decreases n
  {
    hide Step, Holds, CompleteChainValid, Sound, OnTrack;
    if m < n {
      SettledLater(s, events, m, i, n - 1);
      if j < |At(s, events, n - 1).processes| { LaterRunsFollow(s, events, m, i, n - 1, j); }
      FollowStep(s, At(s, events, n - 1), events[n - 1], At(s, events, m).processes[i].pc.outcome.results, j);
    }
  }

  lemma FollowStep(s: PhaseSpec, w: World, e: Event, rs: seq<StepResult>, j: nat)
    requires Sound(s, w) && |rs| == |w.jobs| && Holds(s, w.jobs, rs) && CompleteChainValid(s, rs)
    requires e != Stop(j) && j < |Step(s, w, e).processes| && (j < |w.processes| ==> OnTrack(rs, w.processes[j]))
    ensures OnTrack(rs, Step(s, w, e).processes[j])
  {
    hide Holds, CompleteChainValid, ProcessSound, JobSound, OnTrack, ProcessStep, NextStep;
    if j < |w.processes| {
      if e.Run? && e.process == j { TrackedRun(s, w, rs, j, e.choice); }
    } else {
      StartsOnTrack(s, rs, e.mayExecute);
    }
  }

  lemma TrackedRun(s: PhaseSpec, w: World, rs: seq<StepResult>, j: nat, c: Choice)
    requires Sound(s, w) && j < |w.processes| && |rs| == |w.jobs| && Holds(s, w.jobs, rs) && CompleteChainValid(s, rs)
    requires OnTrack(rs, w.processes[j])
    ensures OnTrack(rs, Step(s, w, Run(j, c)).processes[j])
  {
    hide Holds, CompleteChainValid, ProcessSound, JobSound, OnTrack, ProcessStep;
    OnTrackStep(s, w.jobs, w.spawned, rs, j, w.processes[j], c);
  }

  lemma StartsOnTrack(s: PhaseSpec, rs: seq<StepResult>, mayExecute: bool)
    requires |rs| == |s.content.steps| && CompleteChainValid(s, rs)
    ensures OnTrack(rs, NextStep(s, Process(mayExecute, false, [], Done(Refused)), 0))
  {
  }

  /** What a projection was computed from is still there at any later time. */
  lemma SettledLater(s: PhaseSpec, events: seq<Event>, m: nat, i: nat, n: nat)
    requires m <= n <= |events| && HasProjection(At(s, events, m), i)
    ensures var rs := At(s, events, m).processes[i].pc.outcome.results;
            && |rs| == |At(s, events, n).jobs| == |s.content.steps|
            && Holds(s, At(s, events, n).jobs, rs)
            && CompleteChainValid(s, rs)
  {
    hide At, ProcessSound, JobSound, Holds, CompleteChainValid, JobMoves;
    ProjectionHolds(s, At(s, events, m), i);
    RunMoves(s, events, m, n);
    HoldsStays(s, At(s, events, m).jobs, At(s, events, n).jobs, At(s, events, m).processes[i].pc.outcome.results);
  }

  /** How many file accesses process j makes between two points of a run. */
  ghost function Accesses(events: seq<Event>, a: nat, n: nat, j: nat): nat
    requires a <= n <= |events|
  {
    if a == n then 0
    else Accesses(events, a, n - 1, j) + if events[n - 1].Run? && events[n - 1].process == j then 1 else 0
  }

  lemma AheadBounded(rs: seq<StepResult>, p: Process)
    requires OnTrack(rs, p)
    ensures Ahead(|rs|, p.pc) <= 5 * |rs|
    ensures Ahead(|rs|, p.pc) == 0 ==> p.pc == Done(Projected(rs))
  {
  }

  /** Other processes and the units do not move a process; its own access brings it closer. */
  lemma FollowMeasure(s: PhaseSpec, w: World, e: Event, rs: seq<StepResult>, j: nat)
    requires Sound(s, w) && |rs| == |w.jobs| && Holds(s, w.jobs, rs) && CompleteChainValid(s, rs)
    requires e != Stop(j) && j < |w.processes| && OnTrack(rs, w.processes[j])
    ensures j < |Step(s, w, e).processes|
    ensures var before, after := Ahead(|rs|, w.processes[j].pc), Ahead(|rs|, Step(s, w, e).processes[j].pc);
            if e.Run? && e.process == j then after == 0 || after < before else after == before
  {
    hide Holds, CompleteChainValid, ProcessSound, JobSound, OnTrack, ProcessStep, NextStep, Ahead;
    if e.Run? && e.process == j {
      OnTrackStep(s, w.jobs, w.spawned, rs, j, w.processes[j], e.choice);
      DoneIsThere(rs, w.processes[j]);
      if w.processes[j].pc.Done? { DoneStays(s, w, j, e.choice); }
    }
  }

  lemma DoneIsThere(rs: seq<StepResult>, p: Process)
    ensures p.pc.Done? ==> Ahead(|rs|, p.pc) == 0
  {
  }

  lemma DoneStays(s: PhaseSpec, w: World, j: nat, c: Choice)
    requires |w.jobs| == |w.spawned| == |s.content.steps| && j < |w.processes| && w.processes[j].pc.Done?
    ensures Step(s, w, Run(j, c)).processes[j] == w.processes[j]
  {
  }

  lemma {:induction false} LaterMeasure(s: PhaseSpec, events: seq<Event>, m: nat, i: nat, a: nat, n: nat, j: nat)
    requires m <= a <= n <= |events| && HasProjection(At(s, events, m), i)
    requires |At(s, events, m).processes| <= j < |At(s, events, a).processes|
    requires forall x :: m <= x < n ==> events[x] != Stop(j)
    ensures j < |At(s, events, n).processes|
    ensures var rs := At(s, events, m).processes[i].pc.outcome.results;
            var left := Ahead(|rs|, At(s, events, n).processes[j].pc);
            && OnTrack(rs, At(s, events, n).processes[j])
            && (left == 0 || left + Accesses(events, a, n, j) <= 5 * |s.content.steps|)
    decreases n
  {
    hide Step, Holds, CompleteChainValid, Sound, OnTrack, Ahead;
    var rs := At(s, events, m).processes[i].pc.outcome.results;
    SettledLater(s, events, m, i, a);
    if a == n {
      LaterRunsFollow(s, events, m, i, n, j);
      AheadBounded(rs, At(s, events, n).processes[j]);
    } else {
      LaterMeasure(s, events, m, i, a, n - 1, j);
      SettledLater(s, events, m, i, n - 1);
      FollowMeasure(s, At(s, events, n - 1), events[n - 1], rs, j);
      LaterRunsFollow(s, events, m, i, n, j);
    }
  }

  /**
    Every process started after a projection exists, unless stopped, has reached that same projection
    once it has made five file accesses per step.
  */
  lemma LaterRunsReachTheProjection(s: PhaseSpec, events: seq<Event>, m: nat, i: nat, a: nat, n: nat, j: nat)
    requires m <= a <= n <= |events| && HasProjection(At(s, events, m), i)
    requires |At(s, events, m).processes| <= j < |At(s, events, a).processes|
    requires forall x :: m <= x < n ==> events[x] != Stop(j)
    requires Accesses(events, a, n, j) >= 5 * |s.content.steps|
    ensures j < |At(s, events, n).processes|
    ensures At(s, events, n).processes[j].pc == At(s, events, m).processes[i].pc
  {
    hide At, OnTrack, Ahead, Accesses;
    LaterMeasure(s, events, m, i, a, n, j);
    AheadBounded(At(s, events, m).processes[i].pc.outcome.results, At(s, events, n).processes[j]);
  }
}
