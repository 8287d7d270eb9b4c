/**
  Publication of a step result.  A publisher writes the encoded result to a pending file it
  creates exclusively, reads it back, hard-links it to the result name and removes the pending
  name.  Any number of publishers and reconcilers interleave at every file-system call and may
  stop between any two of them.

  Files are append-only inodes; a name maps to an inode or to nothing, and inode numbers are
  not reused.  The document encoding is a parameter, assumed prefix-free (as canonical JSON of
  RFC 8785, section 3.2, is on objects).
*/
module ResultPublication {
  import opened Domain

  type Bytes = seq<nat>

  /** The job's constants: how documents are encoded, which are authorised here, and the size limit. */
  datatype Job = Job(encode: nat -> Bytes, authorised: nat -> bool, maximum: nat)

  ghost predicate PrefixFree(job: Job) {
    forall a, b :: job.encode(a) <= job.encode(b) ==> a == b
  }

  ghost predicate Encodes(job: Job, d: nat, bytes: Bytes) {
    job.authorised(d) && job.encode(d) == bytes
  }

  /** Decode and authorise; None when the bytes are not the encoding of an authorised document. */
  ghost function Decode(job: Job, bytes: Bytes): (r: Option<nat>)
    ensures r.Some? ==> Encodes(job, r.value, bytes)
    ensures r.None? ==> forall d :: !Encodes(job, d, bytes)
  {
    if exists d :: Encodes(job, d, bytes) then
      var d :| Encodes(job, d, bytes);
      Some(d)
    else None
  }

  // ---------------------------------------------------------------- the file system

  /** A file created by a publisher of `doc`, of which `written` bytes have arrived. */
  datatype Inode = Inode(doc: nat, written: nat)

  datatype Files = Files(inodes: seq<Inode>, pending: Option<nat>, result: Option<nat>)

  const EMPTY_JOB := Files([], None, None)

  datatype Path = PendingPath | ResultPath

  function Lookup(fs: Files, path: Path): Option<nat> {
    if path == PendingPath then fs.pending else fs.result
  }

  ghost predicate WellFormedInode(job: Job, i: Inode) {
    job.authorised(i.doc) && i.written <= |job.encode(i.doc)|
  }

  ghost function Contents(job: Job, i: Inode): Bytes
    requires WellFormedInode(job, i)
  {
    job.encode(i.doc)[..i.written]
  }

  ghost predicate Complete(job: Job, fs: Files, ino: nat, doc: nat) {
    && ino < |fs.inodes|
    && fs.inodes[ino] == Inode(doc, |job.encode(doc)|)
    && job.authorised(doc)
  }

  /** Names point at files, and the result name only ever at a complete one. */
  ghost predicate FilesSound(job: Job, fs: Files) {
    && (forall i :: 0 <= i < |fs.inodes| ==> WellFormedInode(job, fs.inodes[i]))
    && (fs.pending.Some? ==> fs.pending.value < |fs.inodes|)
    && (fs.result.Some? ==>
          fs.result.value < |fs.inodes| && Complete(job, fs, fs.result.value, fs.inodes[fs.result.value].doc))
  }

  // ---------------------------------------------------------------- one process

  datatype Outcome = Published | Reconciled(doc: nat) | NothingToReconcile | GaveUp

  /** The steps of reading a file: exists, stat, open, stat the open file, read, stat again. */
  datatype ReadPhase =
    | Exists | Stat | Open(ino: nat, len: nat) | StatOpened(ino: nat, len: nat, fd: nat)
    | Read(fd: nat, len: nat) | StatAgain(fd: nat, len: nat, bytes: Bytes)

  /** What a read is for. */
  datatype Purpose = FirstLook | FirstLookOfReconcile | PendingOfReconcile | Verify | LostTheLink | LastLook

  datatype Pc =
    | Reading(phase: ReadPhase, purpose: Purpose)
    | CheckPending | CreatePending | Writing(ino: nat) | Link | Unlink
    | Done(outcome: Outcome)

  /** `doc` is what the process publishes; a reconciler learns it from the pending file. */
  datatype Process = Process(doc: Option<nat>, reconciles: bool, pc: Pc)

  function PathOf(purpose: Purpose): Path {
    if purpose in {PendingOfReconcile, Verify} then PendingPath else ResultPath
  }

  datatype ReadResult = Missing | Contains(bytes: Bytes)

  function Finished(p: Process, outcome: Outcome): Process {
    p.(pc := Done(outcome))
  }

  function Succeeds(p: Process): Process
    requires p.doc.Some?
  {
    Finished(p, if p.reconciles then Reconciled(p.doc.value) else Published)
  }

  /** What the process does with the outcome of a read. */
  ghost function AfterRead(job: Job, p: Process, purpose: Purpose, r: ReadResult): Process {
    var decoded := if r.Contains? then Decode(job, r.bytes) else None;
    match purpose
    case FirstLookOfReconcile =>
      if r.Missing? then p.(pc := Reading(Exists, PendingOfReconcile))
      else if decoded.None? then Finished(p, GaveUp)
      else Finished(p, Reconciled(decoded.value))
    case PendingOfReconcile =>
      if r.Missing? then Finished(p, NothingToReconcile)
      else if decoded.None? then Finished(p, GaveUp)
      else p.(doc := decoded, pc := Reading(Exists, FirstLook))
    case FirstLook =>
      if r.Missing? then p.(pc := CheckPending)
      else if decoded.None? || decoded != p.doc then Finished(p, GaveUp)
      else Succeeds(p)
    case Verify =>
      if r.Missing? || p.doc.None? || r.bytes != job.encode(p.doc.value) || decoded.None? then Finished(p, GaveUp)
      else p.(pc := Link)
    case LostTheLink =>
      if decoded.None? || decoded != p.doc then Finished(p, GaveUp) else p.(pc := Unlink)
    case LastLook =>
      if decoded.None? || decoded != p.doc then Finished(p, GaveUp) else Succeeds(p)
  }

  ghost function ReadStep(job: Job, fs: Files, p: Process, phase: ReadPhase, purpose: Purpose): Process
    requires forall i :: 0 <= i < |fs.inodes| ==> WellFormedInode(job, fs.inodes[i])
  {
    var at := Lookup(fs, PathOf(purpose));
    match phase
    case Exists => if at.None? then AfterRead(job, p, purpose, Missing) else p.(pc := Reading(Stat, purpose))
    case Stat =>
      if at.None? || at.value >= |fs.inodes| then Finished(p, GaveUp)
      else
        var len := fs.inodes[at.value].written;
        if len == 0 || len > job.maximum then Finished(p, GaveUp) else p.(pc := Reading(Open(at.value, len), purpose))
    case Open(ino, len) =>
      if at.None? then Finished(p, GaveUp) else p.(pc := Reading(StatOpened(ino, len, at.value), purpose))
    case StatOpened(ino, len, fd) =>
      if fd != ino || fd >= |fs.inodes| || fs.inodes[fd].written != len then Finished(p, GaveUp)
      else p.(pc := Reading(Read(fd, len), purpose))
    case Read(fd, len) =>
      if fd >= |fs.inodes| then Finished(p, GaveUp)
      else p.(pc := Reading(StatAgain(fd, len, Contents(job, fs.inodes[fd])), purpose))
    case StatAgain(fd, len, bytes) =>
      if at != Some(fd) || fd >= |fs.inodes| || fs.inodes[fd].written != len then Finished(p, GaveUp)
      else AfterRead(job, p, purpose, Contains(bytes))
  }

  /** One file-system call of one process; `chunk` is how many bytes a write delivers. */
  ghost function ProcessStep(job: Job, fs: Files, p: Process, chunk: nat): (Files, Process)
    requires forall i :: 0 <= i < |fs.inodes| ==> WellFormedInode(job, fs.inodes[i])
  {
    match p.pc
    case Done(_) => (fs, p)
    case Reading(phase, purpose) => (fs, ReadStep(job, fs, p, phase, purpose))
    case CheckPending => (fs, p.(pc := if fs.pending.None? then CreatePending else Reading(Stat, Verify)))
    case CreatePending =>
      if fs.pending.Some? || p.doc.None? then (fs, p.(pc := Reading(Stat, Verify)))
      else (fs.(inodes := fs.inodes + [Inode(p.doc.value, 0)], pending := Some(|fs.inodes|)),
            p.(pc := Writing(|fs.inodes|)))
    case Writing(ino) =>
      if ino >= |fs.inodes| then (fs, Finished(p, GaveUp))
      else
        var file := fs.inodes[ino];
        var total := |job.encode(file.doc)|;
        if file.written == total then (fs, p.(pc := Reading(Stat, Verify)))
        else
          var written := if file.written + chunk < total then file.written + chunk else total;
          (fs.(inodes := fs.inodes[ino := file.(written := written)]), p)
    case Link =>
      if fs.pending.None? then (fs, Finished(p, GaveUp))
      else if fs.result.Some? then (fs, p.(pc := Reading(Exists, LostTheLink)))
      else (fs.(result := fs.pending), p.(pc := Unlink))
    case Unlink => (fs.(pending := None), p.(pc := Reading(Exists, LastLook)))
  }

  // ---------------------------------------------------------------- many processes

  datatype World = World(files: Files, processes: seq<Process>)

  datatype Event =
    | StartPublish(doc: nat)
    | StartReconcile
    | Run(process: nat, chunk: nat)
    | Stop(process: nat)

  ghost function Step(job: Job, w: World, e: Event): World
    requires FilesSound(job, w.files)
  {
    match e
    case StartPublish(doc) =>
      if job.authorised(doc) then w.(processes := w.processes + [Process(Some(doc), false, Reading(Exists, FirstLook))])
      else w
    case StartReconcile => w.(processes := w.processes + [Process(None, true, Reading(Exists, FirstLookOfReconcile))])
    case Run(i, chunk) =>
      if i >= |w.processes| then w
      else
        var (files, p) := ProcessStep(job, w.files, w.processes[i], chunk);
        World(files, w.processes[i := p])
    case Stop(i) =>
      if i >= |w.processes| || w.processes[i].pc.Done? then w
      else w.(processes := w.processes[i := Finished(w.processes[i], GaveUp)])
  }

  // ---------------------------------------------------------------- what every process knows

  /** The result holds this document in full. */
  ghost predicate ResultIs(job: Job, fs: Files, doc: nat) {
    fs.result.Some? && Complete(job, fs, fs.result.value, doc)
  }

  /** What has been read came from the named file, as long as the result is still missing. */
  ghost predicate ReadSound(job: Job, fs: Files, phase: ReadPhase, purpose: Purpose) {
    match phase
    case Exists => true
    case Stat => true
    case Open(_, _) => true
    case StatOpened(_, _, fd) => OpenedSound(fs, fd, purpose)
    case Read(fd, _) => OpenedSound(fs, fd, purpose)
    case StatAgain(fd, _, bytes) =>
      && OpenedSound(fs, fd, purpose)
      && bytes <= job.encode(fs.inodes[fd].doc)
      && |bytes| <= fs.inodes[fd].written
      && (PathOf(purpose) == ResultPath ==> bytes == job.encode(fs.inodes[fd].doc))
  }

  ghost predicate OpenedSound(fs: Files, fd: nat, purpose: Purpose) {
    && fd < |fs.inodes|
    && if PathOf(purpose) == ResultPath then fs.result == Some(fd)
       else fs.result.None? ==> fs.pending == Some(fd)
  }

  ghost predicate ProcessSound(job: Job, fs: Files, p: Process) {
    && (p.doc.Some? ==> job.authorised(p.doc.value))
    && (!p.reconciles ==> p.doc.Some?)
    && match p.pc
       case Reading(phase, purpose) =>
         && ReadSound(job, fs, phase, purpose)
         && (purpose in {LostTheLink, LastLook} ==> fs.result.Some?)
         && (purpose !in {FirstLookOfReconcile, PendingOfReconcile} ==> p.doc.Some?)
       case CheckPending => p.doc.Some?
       case CreatePending => p.doc.Some?
       case Writing(ino) => p.doc.Some? && ino < |fs.inodes| && fs.inodes[ino].doc == p.doc.value
       case Link =>
         p.doc.Some? && (fs.result.None? ==> fs.pending.Some? && Complete(job, fs, fs.pending.value, p.doc.value))
       case Unlink => p.doc.Some? && fs.result.Some?
       case Done(Published) => p.doc.Some? && ResultIs(job, fs, p.doc.value)
       case Done(Reconciled(d)) => ResultIs(job, fs, d)
       case Done(_) => true
  }

  ghost predicate Sound(job: Job, w: World) {
    && FilesSound(job, w.files)
    && forall i :: 0 <= i < |w.processes| ==> ProcessSound(job, w.files, w.processes[i])
  }

  /** How the files may change under a process that is not looking. */
  ghost predicate Moves(fs: Files, fs': Files) {
    && |fs.inodes| <= |fs'.inodes|
    && (forall i :: 0 <= i < |fs.inodes| ==>
                      fs'.inodes[i].doc == fs.inodes[i].doc && fs.inodes[i].written <= fs'.inodes[i].written)
    && (fs.result.Some? ==> fs'.result == fs.result)
    && (fs.pending.Some? && fs'.result.None? ==> fs'.pending == fs.pending)
  }

  lemma CompleteStays(job: Job, fs: Files, fs': Files, ino: nat, doc: nat)
    requires Complete(job, fs, ino, doc) && Moves(fs, fs') && FilesSound(job, fs')
    ensures Complete(job, fs', ino, doc)
  {
    assert WellFormedInode(job, fs'.inodes[ino]);
  }

  lemma OthersStaySound(job: Job, fs: Files, fs': Files, p: Process)
    requires FilesSound(job, fs') && ProcessSound(job, fs, p) && Moves(fs, fs')
    ensures ProcessSound(job, fs', p)
  {
    match p.pc
    case Link => if fs'.result.None? { CompleteStays(job, fs, fs', fs.pending.value, p.doc.value); }
    case Done(Published) => CompleteStays(job, fs, fs', fs.result.value, p.doc.value);
    case Done(Reconciled(d)) => CompleteStays(job, fs, fs', fs.result.value, d);
    case _ =>
  }

  /** Bytes that decode and are a prefix of a file are the whole file. */
  lemma DecodedIsTheFile(job: Job, i: Inode, bytes: Bytes)
    requires PrefixFree(job) && WellFormedInode(job, i) && bytes <= job.encode(i.doc) && |bytes| <= i.written
    ensures Decode(job, bytes).Some? ==>
              Decode(job, bytes) == Some(i.doc) && i.written == |job.encode(i.doc)| && bytes == job.encode(i.doc)
    ensures bytes == job.encode(i.doc) ==> Decode(job, bytes) == Some(i.doc)
    ensures forall d :: job.encode(d) == bytes ==> d == i.doc
  {
    forall d | job.encode(d) == bytes ensures d == i.doc { assert job.encode(d) <= job.encode(i.doc); }
    if bytes == job.encode(i.doc) { assert Encodes(job, i.doc, bytes); }
    if Decode(job, bytes).Some? { assert job.encode(Decode(job, bytes).value) <= job.encode(i.doc); }
  }

  lemma ReadKeepsSound(job: Job, fs: Files, p: Process)
    requires PrefixFree(job) && FilesSound(job, fs) && ProcessSound(job, fs, p) && p.pc.Reading?
    ensures ProcessSound(job, fs, ReadStep(job, fs, p, p.pc.phase, p.pc.purpose))
  {
    hide Decode, PrefixFree;
    var phase, purpose := p.pc.phase, p.pc.purpose;
    if phase.StatAgain? && phase.fd < |fs.inodes| {
      DecodedIsTheFile(job, fs.inodes[phase.fd], phase.bytes);
    }
  }

  lemma ProcessKeepsSound(job: Job, fs: Files, p: Process, chunk: nat)
    requires PrefixFree(job) && FilesSound(job, fs) && ProcessSound(job, fs, p)
    ensures var (fs', p') := ProcessStep(job, fs, p, chunk);
            FilesSound(job, fs') && Moves(fs, fs') && ProcessSound(job, fs', p')
  {
    hide ReadStep, PrefixFree, Decode, ProcessSound, FilesSound, Moves;
    if p.pc.Reading? {
      ReadKeepsSound(job, fs, p);
      StartedIsSound(job, fs, 0);
    } else if p.pc.Writing? || p.pc.CreatePending? {
      WritingKeepsSound(job, fs, p, chunk);
    } else {
      NamingKeepsSound(job, fs, p, chunk);
    }
  }

  lemma WritingKeepsSound(job: Job, fs: Files, p: Process, chunk: nat)
    requires FilesSound(job, fs) && ProcessSound(job, fs, p) && (p.pc.Writing? || p.pc.CreatePending?)
    ensures var (fs', p') := ProcessStep(job, fs, p, chunk);
            FilesSound(job, fs') && Moves(fs, fs') && ProcessSound(job, fs', p')
  {
  }

  lemma NamingKeepsSound(job: Job, fs: Files, p: Process, chunk: nat)
    requires FilesSound(job, fs) && ProcessSound(job, fs, p) && !(p.pc.Reading? || p.pc.Writing? || p.pc.CreatePending?)
    ensures var (fs', p') := ProcessStep(job, fs, p, chunk);
            FilesSound(job, fs') && Moves(fs, fs') && ProcessSound(job, fs', p')
  {
    hide ReadStep, Decode;
  }

  lemma StepKeepsSound(job: Job, w: World, e: Event)
    requires PrefixFree(job) && Sound(job, w)
    ensures Sound(job, Step(job, w, e)) && Moves(w.files, Step(job, w, e).files)
  {
    hide ProcessStep, PrefixFree, ProcessSound, FilesSound;
    match e
    case Run(i, chunk) =>
      if i < |w.processes| {
        ProcessKeepsSound(job, w.files, w.processes[i], chunk);
        var after := Step(job, w, e);
        forall j | 0 <= j < |w.processes| ensures ProcessSound(job, after.files, after.processes[j]) {
          if j != i { OthersStaySound(job, w.files, after.files, w.processes[j]); }
        }
      }
    case Stop(i) => if i < |w.processes| { StoppedIsSound(job, w.files, w.processes[i]); }
    case StartPublish(doc) => StartedIsSound(job, w.files, doc);
    case StartReconcile => StartedIsSound(job, w.files, 0);
  }

  lemma StoppedIsSound(job: Job, fs: Files, p: Process)
    requires ProcessSound(job, fs, p)
    ensures ProcessSound(job, fs, Finished(p, GaveUp))
  {
  }

  lemma StartedIsSound(job: Job, fs: Files, doc: nat)
    ensures job.authorised(doc) ==> ProcessSound(job, fs, Process(Some(doc), false, Reading(Exists, FirstLook)))
    ensures ProcessSound(job, fs, Process(None, true, Reading(Exists, FirstLookOfReconcile)))
    ensures Moves(fs, fs)
  {
  }

  // ---------------------------------------------------------------- whole runs

  /** The world after the first n events of a run that starts in an empty job directory. */
  ghost function At(job: Job, events: seq<Event>, n: nat): (w: World)
    requires PrefixFree(job) && n <= |events|
    ensures Sound(job, w)
  {
    if n == 0 then World(EMPTY_JOB, [])
    else
      StepKeepsSound(job, At(job, events, n - 1), events[n - 1]);
      Step(job, At(job, events, n - 1), events[n - 1])
  }

  lemma MovesCompose(a: Files, b: Files, c: Files)
    requires Moves(a, b) && Moves(b, c)
    ensures Moves(a, c)
  {
  }

  lemma {:induction false} RunMoves(job: Job, events: seq<Event>, i: nat, j: nat)
    requires PrefixFree(job) && i <= j <= |events|
    ensures Moves(At(job, events, i).files, At(job, events, j).files)
    decreases j
  {
    hide PrefixFree, Step, Moves, Sound;
    if i < j {
      RunMoves(job, events, i, j - 1);
      StepKeepsSound(job, At(job, events, j - 1), events[j - 1]);
      MovesCompose(At(job, events, i).files, At(job, events, j - 1).files, At(job, events, j).files);
    } else {
      StartedIsSound(job, At(job, events, i).files, 0);
    }
  }

  /** The result, once there, is one authorised document in full, and stays exactly that. */
  lemma ResultNeverChanges(job: Job, events: seq<Event>, i: nat, j: nat)
    requires PrefixFree(job) && i <= j <= |events| && At(job, events, i).files.result.Some?
    ensures var before, after := At(job, events, i).files, At(job, events, j).files;
            && after.result == before.result
            && exists doc :: ResultIs(job, before, doc) && ResultIs(job, after, doc)
  {
    hide PrefixFree, Step;
    RunMoves(job, events, i, j);
    var before, after := At(job, events, i).files, At(job, events, j).files;
    var doc := before.inodes[before.result.value].doc;
    CompleteStays(job, before, after, before.result.value, doc);
    assert ResultIs(job, before, doc) && ResultIs(job, after, doc);
  }

  /** While the result is missing, the pending file is never removed or replaced. */
  lemma PendingStaysUntilPublished(job: Job, events: seq<Event>, i: nat, j: nat)
    requires PrefixFree(job) && i <= j <= |events|
    requires At(job, events, i).files.pending.Some? && At(job, events, j).files.result.None?
    ensures At(job, events, j).files.pending == At(job, events, i).files.pending
  {
    hide PrefixFree, Step, At;
    RunMoves(job, events, i, j);
  }

  /** The document a call that succeeded returned or published. */
  ghost function Agreed(p: Process): Option<nat> {
    match p.pc
    case Done(Published) => p.doc
    case Done(Reconciled(d)) => Some(d)
    case _ => None
  }

  /** Any two calls that succeed, whenever they do, agree with each other and with the result file. */
  lemma SuccessesAgree(job: Job, events: seq<Event>, n: nat, i: nat, j: nat)
    requires PrefixFree(job) && n <= |events|
    requires var w := At(job, events, n);
             i < |w.processes| && j < |w.processes| && Agreed(w.processes[i]).Some? && Agreed(w.processes[j]).Some?
    ensures var w := At(job, events, n);
            && Agreed(w.processes[i]) == Agreed(w.processes[j])
            && ResultIs(job, w.files, Agreed(w.processes[i]).value)
  {
    hide PrefixFree, At;
    var w := At(job, events, n);
    assert ProcessSound(job, w.files, w.processes[i]) && ProcessSound(job, w.files, w.processes[j]);
  }

  // ---------------------------------------------------------------- when publication can still happen

  /** A pending file nobody is writing any more, and not all of it there. */
  ghost predicate Abandoned(job: Job, w: World) {
    && w.files.result.None?
    && w.files.pending.Some?
    && var ino := w.files.pending.value;
    && ino < |w.files.inodes|
    && w.files.inodes[ino].written < |job.encode(w.files.inodes[ino].doc)|
    && forall i :: 0 <= i < |w.processes| ==> w.processes[i].pc != Writing(ino)
  }

  lemma AbandonedProcess(job: Job, fs: Files, p: Process, chunk: nat, ino: nat)
    requires FilesSound(job, fs) && ProcessSound(job, fs, p) && p.pc != Writing(ino)
    requires fs.result.None? && fs.pending == Some(ino) && fs.inodes[ino].written < |job.encode(fs.inodes[ino].doc)|
    ensures var (fs', p') := ProcessStep(job, fs, p, chunk);
            && fs'.result.None? && fs'.pending == Some(ino) && fs'.inodes[ino] == fs.inodes[ino]
            && p'.pc != Writing(ino)
  {
    hide Decode;
  }

  lemma AbandonedStep(job: Job, w: World, e: Event)
    requires PrefixFree(job) && Sound(job, w) && Abandoned(job, w)
    ensures Abandoned(job, Step(job, w, e))
    ensures Step(job, w, e).files.pending == w.files.pending
  {
    hide ProcessStep, PrefixFree;
    match e
    case Run(i, chunk) =>
      if i < |w.processes| {
        AbandonedProcess(job, w.files, w.processes[i], chunk, w.files.pending.value);
        ProcessKeepsSound(job, w.files, w.processes[i], chunk);
      }
    case _ =>
  }

  /**
    A publisher that stops while writing leaves a partial pending file no later call repairs:
    from then on the result never appears, whatever is started or retried.
  */
  lemma {:induction false} AbandonedForever(job: Job, events: seq<Event>, i: nat, j: nat)
    requires PrefixFree(job) && i <= j <= |events| && Abandoned(job, At(job, events, i))
    ensures Abandoned(job, At(job, events, j))
    decreases j
  {
    hide PrefixFree, Step, Abandoned;
    if i < j {
      AbandonedForever(job, events, i, j - 1);
      AbandonedStep(job, At(job, events, j - 1), events[j - 1]);
    }
  }

  /** A process running alone for n calls, every write delivering the whole file. */
  ghost function Solo(job: Job, fs: Files, p: Process, chunk: nat, n: nat): (r: (Files, Process))
    requires PrefixFree(job) && FilesSound(job, fs) && ProcessSound(job, fs, p)
    ensures FilesSound(job, r.0) && ProcessSound(job, r.0, r.1)
    decreases n
  {
    if n == 0 then (fs, p)
    else
      ProcessKeepsSound(job, fs, p, chunk);
      var (fs', p') := ProcessStep(job, fs, p, chunk);
      Solo(job, fs', p', chunk, n - 1)
  }

  ghost predicate Publishes(job: Job, fs: Files, p: Process, chunk: nat) {
    && PrefixFree(job) && FilesSound(job, fs) && ProcessSound(job, fs, p)
    && exists n: nat :: Solo(job, fs, p, chunk, n).0.result.Some?
  }

  /** If the next call leads to publication, so does this point. */
  lemma OneCallEarlier(job: Job, fs: Files, p: Process, chunk: nat)
    requires PrefixFree(job) && FilesSound(job, fs) && ProcessSound(job, fs, p)
    requires var (fs', p') := ProcessStep(job, fs, p, chunk); Publishes(job, fs', p', chunk)
    ensures Publishes(job, fs, p, chunk)
  {
    hide ProcessStep, ProcessSound, PrefixFree;
    var (fs', p') := ProcessStep(job, fs, p, chunk);
    var n: nat :| Solo(job, fs', p', chunk, n).0.result.Some?;
    assert Solo(job, fs, p, chunk, n + 1) == Solo(job, fs', p', chunk, n);
  }

  ghost predicate Fits(job: Job) {
    forall d :: job.authorised(d) ==> 0 < |job.encode(d)| <= job.maximum
  }

  /** Ready to be linked: the pending file is complete and the result is missing. */
  ghost predicate Ready(job: Job, fs: Files, doc: nat) {
    && PrefixFree(job) && Fits(job) && FilesSound(job, fs)
    && fs.result.None? && fs.pending.Some? && Complete(job, fs, fs.pending.value, doc)
  }

  lemma LinkPublishes(job: Job, fs: Files, p: Process, chunk: nat)
    requires FilesSound(job, fs) && ProcessSound(job, fs, p) && PrefixFree(job) && fs.result.None? && p.pc == Link
    ensures Publishes(job, fs, p, chunk)
  {
    ProcessKeepsSound(job, fs, p, chunk);
    var (fs', p') := ProcessStep(job, fs, p, chunk);
    assert Solo(job, fs', p', chunk, 0).0.result.Some?;
    OneCallEarlier(job, fs, p, chunk);
  }

  /** Reading a complete pending file succeeds and yields the whole encoding. */
  lemma WholeReadPublishes(job: Job, fs: Files, p: Process, purpose: Purpose, doc: nat, chunk: nat)
    requires Ready(job, fs, doc) && ProcessSound(job, fs, p) && p.pc == Reading(Stat, purpose)
             && PathOf(purpose) == PendingPath
    requires Publishes(job, fs, AfterRead(job, p, purpose, Contains(job.encode(doc))), chunk)
    ensures Publishes(job, fs, p, chunk)
  {
    hide PrefixFree, Fits, AfterRead, Publishes;
    var ino, len, bytes := fs.pending.value, |job.encode(doc)|, job.encode(doc);
    assert 0 < len <= job.maximum by { FitsDoc(job, doc); }
    var p1 := p.(pc := Reading(Open(ino, len), purpose));
    var p2 := p.(pc := Reading(StatOpened(ino, len, ino), purpose));
    var p3 := p.(pc := Reading(Read(ino, len), purpose));
    var p4 := p.(pc := Reading(StatAgain(ino, len, bytes), purpose));
    assert Contents(job, fs.inodes[ino]) == bytes;
    AfterReadSetsPc(job, p, p4, purpose, Contains(bytes));
    OneCallEarlier(job, fs, p4, chunk);
    OneCallEarlier(job, fs, p3, chunk);
    OneCallEarlier(job, fs, p2, chunk);
    OneCallEarlier(job, fs, p1, chunk);
    OneCallEarlier(job, fs, p, chunk);
  }

  lemma AfterReadSetsPc(job: Job, p: Process, q: Process, purpose: Purpose, r: ReadResult)
    requires q == p.(pc := q.pc)
    ensures AfterRead(job, p, purpose, r) == AfterRead(job, q, purpose, r)
  {
  }

  lemma FitsDoc(job: Job, doc: nat)
    requires Fits(job) && job.authorised(doc)
    ensures 0 < |job.encode(doc)| <= job.maximum
  {
  }

  lemma VerifyPublishes(job: Job, fs: Files, p: Process, doc: nat, chunk: nat)
    requires Ready(job, fs, doc) && ProcessSound(job, fs, p) && p.doc == Some(doc) && p.pc == Reading(Stat, Verify)
    ensures Publishes(job, fs, p, chunk)
  {
    hide PrefixFree, Fits, Publishes, Decode;
    DecodedIsTheFile(job, fs.inodes[fs.pending.value], job.encode(doc));
    LinkPublishes(job, fs, p.(pc := Link), chunk);
    WholeReadPublishes(job, fs, p, Verify, doc, chunk);
  }

  lemma ReconcilerPublishes(job: Job, fs: Files, doc: nat, chunk: nat)
    requires Ready(job, fs, doc)
    ensures Publishes(job, fs, Process(None, true, Reading(Exists, FirstLookOfReconcile)), chunk)
  {
    hide PrefixFree, Fits, Publishes, Decode;
    var verify := Process(Some(doc), true, Reading(Stat, Verify));
    VerifyPublishes(job, fs, verify, doc, chunk);
    OneCallEarlier(job, fs, verify.(pc := CheckPending), chunk);
    OneCallEarlier(job, fs, verify.(pc := Reading(Exists, FirstLook)), chunk);
    var blank := Process(None, true, Reading(Stat, PendingOfReconcile));
    DecodedIsTheFile(job, fs.inodes[fs.pending.value], job.encode(doc));
    WholeReadPublishes(job, fs, blank, PendingOfReconcile, doc, chunk);
    OneCallEarlier(job, fs, blank.(pc := Reading(Exists, PendingOfReconcile)), chunk);
    OneCallEarlier(job, fs, blank.(pc := Reading(Exists, FirstLookOfReconcile)), chunk);
  }

  /** A writer running alone finishes its file and publishes it. */
  lemma WriterPublishes(job: Job, fs: Files, p: Process, doc: nat)
    requires PrefixFree(job) && Fits(job) && FilesSound(job, fs) && ProcessSound(job, fs, p) && fs.result.None?
    requires fs.pending.Some? && p.pc == Writing(fs.pending.value) && p.doc == Some(doc)
    ensures Publishes(job, fs, p, |job.encode(doc)|)
  {
    hide PrefixFree, Fits, Publishes, Decode;
    var ino, chunk := fs.pending.value, |job.encode(doc)|;
    var full := fs.(inodes := fs.inodes[ino := Inode(doc, chunk)]);
    ProcessKeepsSound(job, fs, p, chunk);
    VerifyPublishes(job, full, p.(pc := Reading(Stat, Verify)), doc, chunk);
    OneCallEarlier(job, full, p, chunk);
    if fs.inodes[ino].written != chunk {
      OneCallEarlier(job, fs, p, chunk);
    } else {
      assert full == fs;
    }
  }

  lemma NewPublisherPublishes(job: Job, fs: Files, doc: nat)
    requires PrefixFree(job) && Fits(job) && FilesSound(job, fs) && fs.result.None? && fs.pending.None?
             && job.authorised(doc)
    ensures Publishes(job, fs, Process(Some(doc), false, Reading(Exists, FirstLook)), |job.encode(doc)|)
  {
    hide PrefixFree, Fits, Publishes, Decode;
    var p := Process(Some(doc), false, CreatePending);
    ProcessKeepsSound(job, fs, p, |job.encode(doc)|);
    var (fs', p') := ProcessStep(job, fs, p, |job.encode(doc)|);
    WriterPublishes(job, fs', p', doc);
    OneCallEarlier(job, fs, p, |job.encode(doc)|);
    OneCallEarlier(job, fs, p.(pc := CheckPending), |job.encode(doc)|);
    OneCallEarlier(job, fs, p.(pc := Reading(Exists, FirstLook)), |job.encode(doc)|);
  }

  /** The world after some further events. */
  ghost function After(job: Job, w: World, events: seq<Event>): (w': World)
    requires PrefixFree(job) && Sound(job, w)
    ensures Sound(job, w')
    decreases |events|
  {
    if events == [] then w
    else
      StepKeepsSound(job, w, events[0]);
      After(job, Step(job, w, events[0]), events[1..])
  }

  ghost predicate CanPublish(job: Job, w: World)
    requires PrefixFree(job) && Sound(job, w)
  {
    exists events: seq<Event> :: After(job, w, events).files.result.Some?
  }

  lemma OneEventEarlier(job: Job, w: World, e: Event)
    requires PrefixFree(job) && Sound(job, w) && Sound(job, Step(job, w, e)) && CanPublish(job, Step(job, w, e))
    ensures CanPublish(job, w)
  {
    hide PrefixFree, Step, ProcessSound;
    var events: seq<Event> :| After(job, Step(job, w, e), events).files.result.Some?;
    assert ([e] + events)[1..] == events;
    assert After(job, w, [e] + events).files.result.Some?;
  }

  /** What a process can do alone, the world can do. */
  lemma {:induction false} SoloIsARun(job: Job, w: World, i: nat, chunk: nat, n: nat)
    requires PrefixFree(job) && Sound(job, w) && i < |w.processes|
    requires Solo(job, w.files, w.processes[i], chunk, n).0.result.Some?
    ensures CanPublish(job, w)
    decreases n
  {
    hide PrefixFree, ProcessStep, ProcessSound, FilesSound, CanPublish;
    if n == 0 {
      AlreadyThere(job, w);
    } else {
      StepKeepsSound(job, w, Run(i, chunk));
      SoloIsARun(job, Step(job, w, Run(i, chunk)), i, chunk, n - 1);
      OneEventEarlier(job, w, Run(i, chunk));
    }
  }

  lemma AlreadyThere(job: Job, w: World)
    requires PrefixFree(job) && Sound(job, w) && w.files.result.Some?
    ensures CanPublish(job, w)
  {
    assert After(job, w, []).files.result.Some?;
  }

  lemma {:induction false} AbandonedAfter(job: Job, w: World, events: seq<Event>)
    requires PrefixFree(job) && Sound(job, w) && Abandoned(job, w)
    ensures After(job, w, events).files.result.None?
    decreases |events|
  {
    hide PrefixFree, Step, ProcessSound;
    if events != [] {
      StepKeepsSound(job, w, events[0]);
      AbandonedStep(job, w, events[0]);
      AbandonedAfter(job, Step(job, w, events[0]), events[1..]);
    }
  }

  lemma PublisherStarted(job: Job, w: World, e: Event, chunk: nat)
    requires PrefixFree(job) && Sound(job, w) && (e.StartReconcile? || (e.StartPublish? && job.authorised(e.doc)))
    requires var p := if e.StartReconcile? then Process(None, true, Reading(Exists, FirstLookOfReconcile))
                      else Process(Some(e.doc), false, Reading(Exists, FirstLook));
             Publishes(job, w.files, p, chunk)
    ensures CanPublish(job, w)
  {
    hide PrefixFree, CanPublish, ProcessStep, ProcessSound, FilesSound;
    StepKeepsSound(job, w, e);
    var next := Step(job, w, e);
    var p := next.processes[|w.processes|];
    var n: nat :| Solo(job, w.files, p, chunk, n).0.result.Some?;
    SoloIsARun(job, next, |w.processes|, chunk, n);
    OneEventEarlier(job, w, e);
  }

  /** The result can still be published, by somebody, exactly when the pending file is not abandoned. */
  lemma PublishableUnlessAbandoned(job: Job, w: World, doc: nat)
    requires PrefixFree(job) && Fits(job) && Sound(job, w) && job.authorised(doc)
    ensures CanPublish(job, w) <==> !Abandoned(job, w)
  {
    if Abandoned(job, w) {
      forall events: seq<Event> ensures After(job, w, events).files.result.None? { AbandonedAfter(job, w, events); }
    } else if w.files.result.Some? {
      AlreadyThere(job, w);
    } else {
      PublishableFrom(job, w, doc);
    }
  }

  lemma PublishableFrom(job: Job, w: World, doc: nat)
    requires PrefixFree(job) && Fits(job) && Sound(job, w) && job.authorised(doc) && w.files.result.None?
             && !Abandoned(job, w)
    ensures CanPublish(job, w)
  {
    hide PrefixFree, Fits, CanPublish, Publishes, ProcessStep, Step;
    var fs := w.files;
    if fs.pending.None? {
      NewPublisherPublishes(job, fs, doc);
      PublisherStarted(job, w, StartPublish(doc), |job.encode(doc)|);
    } else if i :| 0 <= i < |w.processes| && w.processes[i].pc == Writing(fs.pending.value) {
      var p := w.processes[i];
      WriterPublishes(job, fs, p, p.doc.value);
      WriterInWorld(job, w, i, |job.encode(p.doc.value)|);
    } else {
      assert WellFormedInode(job, fs.inodes[fs.pending.value]);
      ReconcilerPublishes(job, fs, fs.inodes[fs.pending.value].doc, 0);
      PublisherStarted(job, w, StartReconcile, 0);
    }
  }

  lemma WriterInWorld(job: Job, w: World, i: nat, chunk: nat)
    requires PrefixFree(job) && Sound(job, w) && i < |w.processes| && Publishes(job, w.files, w.processes[i], chunk)
    ensures CanPublish(job, w)
  {
    hide PrefixFree, CanPublish, ProcessStep;
    var n: nat :| Solo(job, w.files, w.processes[i], chunk, n).0.result.Some?;
    SoloIsARun(job, w, i, chunk, n);
  }

  /** It does happen: a lone publisher that stops right after creating the pending file abandons it. */
  lemma StoppingAbandons(job: Job, doc: nat)
    requires PrefixFree(job) && job.authorised(doc) && |job.encode(doc)| > 0
    ensures var events := [StartPublish(doc), Run(0, 0), Run(0, 0), Run(0, 0), Stop(0)];
            Abandoned(job, At(job, events, 5))
  {
    hide Sound, PrefixFree, Decode;
    var events := [StartPublish(doc), Run(0, 0), Run(0, 0), Run(0, 0), Stop(0)];
    var p := Process(Some(doc), false, Reading(Exists, FirstLook));
    assert At(job, events, 1) == World(EMPTY_JOB, [p]);
    assert At(job, events, 2) == World(EMPTY_JOB, [p.(pc := CheckPending)]);
    assert At(job, events, 3) == World(EMPTY_JOB, [p.(pc := CreatePending)]);
    assert At(job, events, 4) == World(Files([Inode(doc, 0)], Some(0), None), [p.(pc := Writing(0))]);
    assert At(job, events, 5) == World(Files([Inode(doc, 0)], Some(0), None), [Finished(p, GaveUp)]);
  }
}
