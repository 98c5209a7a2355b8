/** The ring shared by one producer and one consumer thread, step by step: every load and
    store of a cursor, every byte copied and every wait is a step of its own, and each
    thread keeps the cursor values it loaded in its locals. */
module RingProtocol {
  import opened RingBytes
  import Runs

  /** What the producer wants space for. */
  datatype Use =
    | ForWrite(src: seq<byte>)      // Write: all of src, copied round the ring
    | ForSlice                      // ReadFrom and WriteWait: a slice for the caller to fill
    | ForCommit(data: seq<byte>)    // WriteCommit: bytes the caller has put in that slice

  datatype Producer =
    | PIdle
    | PLocked(use: Use, n: nat, ppos: nat)     // cached cursor refused: has pcond.L, will load cseq
    | PRefused(use: Use, n: nat, ppos: nat)    // loaded cseq, no room: has pcond.L, will wait
    | PParked(use: Use, n: nat, ppos: nat)     // asleep in pcond.Wait
    | PGranted(use: Use, n: nat, ppos: nat, staged: seq<byte>)   // filling what it was granted
    | PStore(ppos: nat, data: seq<byte>)       // will store pseq
    | PNotify                                  // will broadcast to the consumer

  datatype ReadOp = OpRead(n: nat) | OpPeek(n: nat) | OpWait(n: nat)

  datatype Via = Alias | Tmp(bytes: seq<byte>)

  datatype Consumer =
    | CIdle
    | CLoaded(op: ReadOp, cpos: nat, ppos: nat)              // has loaded both cursors
    | CCopy(op: ReadOp, cpos: nat, m: nat, out: seq<byte>)   // copying m bytes out of the ring
    | CHold(cpos: nat, m: nat, via: Via)                     // its caller looks at a peeked slice
    | CStore(cpos: nat, bytes: seq<byte>)                    // will store cseq
    | CNotify                                                // will broadcast to the producer

  datatype State = State(
    size: nat, buf: seq<byte>, pseq: nat, gate: nat, cseq: nat, done: bool,
    plocked: bool,               // the producer has pcond.L
    p: Producer, c: Consumer,
    produced: seq<byte>,         // history: every byte published
    delivered: seq<byte>         // history: every byte committed by the consumer, as it saw it
  )

  datatype Step =
    | PBegin(use: Use, n: nat) | PLoad | PWait | PFill(b: byte) | PCopied | PCommit(m: nat)
    | PAbandon | PPublish | PBroadcast
    | CBegin(op: ReadOp) | CReload | CProceed | CCopyByte | CCopied | CCommit(k: nat)
    | CPublish | CBroadcast
    | Close | CloseBroadcast

  ghost predicate Init(s: State) {
    && s.size > 0 && |s.buf| == s.size
    && s.pseq == s.gate == s.cseq == 0 && !s.done && !s.plocked
    && s.p == PIdle && s.c == CIdle && s.produced == [] && s.delivered == []
  }

  // The producer

  /** Where a granted wait continues. */
  function Granted(use: Use, n: nat, ppos: nat): Producer {
    if use.ForCommit? then PStore(ppos, use.data) else PGranted(use, n, ppos, [])
  }

  /** waitForWriteSpace up to the test of the cached cursor. */
  ghost predicate Acquire(s: State, use: Use, n: nat, s': State) {
    if s.done then s' == s.(p := PIdle)
    else if s.pseq + n > s.gate + s.size || s.gate > s.pseq then
      !s.plocked && s' == s.(p := PLocked(use, n, s.pseq), plocked := true)
    else s' == s.(p := Granted(use, n, s.pseq))
  }

  /** How many bytes may be put in what was granted: a slice ends with the array. */
  function Room(size: nat, use: Use, n: nat, ppos: nat): nat
    requires size > 0
  {
    if use.ForSlice? && Cell(ppos, size) + n > size then size - Cell(ppos, size) else n
  }

  ghost predicate ProducerNext(s: State, step: Step, s': State)
    requires s.size > 0 && |s.buf| == s.size
  {
    match step
    case PBegin(use, n) =>
      && s.p.PIdle? && !use.ForCommit? && (use.ForWrite? ==> n == |use.src|)
      && Acquire(s, use, n, s')
    case PLoad =>
      && s.p.PLocked?
      && s' == if s.p.ppos + s.p.n > s.cseq + s.size
               then s.(p := PRefused(s.p.use, s.p.n, s.p.ppos))
               else s.(p := Granted(s.p.use, s.p.n, s.p.ppos), gate := s.cseq, plocked := false)
    case PWait =>
      // a closed ring ends the wait without giving the lock back
      && s.p.PRefused?
      && s' == if s.done then s.(p := PIdle)
               else s.(p := PParked(s.p.use, s.p.n, s.p.ppos), plocked := false)
    case PFill(b) =>
      && s.p.PGranted? && |s.p.staged| < Room(s.size, s.p.use, s.p.n, s.p.ppos)
      && (s.p.use.ForWrite? ==> |s.p.staged| < |s.p.use.src| && b == s.p.use.src[|s.p.staged|])
      && s' == s.(buf := s.buf[Cell(s.p.ppos + |s.p.staged|, s.size) := b],
                  p := s.p.(staged := s.p.staged + [b]))
    case PCopied =>
      && s.p.PGranted? && s.p.use.ForWrite? && |s.p.staged| == s.p.n
      && s' == s.(p := PStore(s.p.ppos, s.p.staged))
    case PCommit(m) =>
      && s.p.PGranted? && s.p.use.ForSlice? && m <= |s.p.staged|
      && Acquire(s, ForCommit(s.p.staged[..m]), m, s')
    case PAbandon =>
      && s.p.PGranted? && s.p.use.ForSlice?
      && s' == s.(p := PIdle)
    case PPublish =>
      && s.p.PStore?
      && s' == s.(pseq := s.p.ppos + |s.p.data|, produced := s.produced + s.p.data, p := PNotify)
    case PBroadcast =>
      s.p.PNotify? && s' == s.(p := PIdle)
    case _ => false
  }

  // The consumer

  /** The loop condition of the three waits, on the loaded cursors. */
  predicate MustWait(c: Consumer)
    requires c.CLoaded?
  {
    if c.op.OpWait? then c.cpos + c.op.n > c.ppos else c.cpos >= c.ppos
  }

  /** How many bytes the operation takes once it goes on. */
  function Take(size: nat, c: Consumer): (m: nat)
    requires size > 0 && c.CLoaded? && !MustWait(c)
  {
    match c.op
    case OpWait(n) => n
    case OpPeek(n) => if c.ppos - c.cpos >= n then n else c.ppos - c.cpos
    case OpRead(n) =>
      var room := size - Cell(c.cpos, size);
      var m := if c.cpos + n < c.ppos then n else if n <= c.ppos - c.cpos then n else c.ppos - c.cpos;
      if m <= room then m else room
  }

  /** The bytes the caller of a peek sees at this moment. */
  function Seen(s: State): seq<byte>
    requires s.size > 0 && |s.buf| == s.size && s.c.CHold?
    requires s.c.via.Alias? ==> Cell(s.c.cpos, s.size) + s.c.m <= s.size
  {
    match s.c.via
    case Alias => s.buf[Cell(s.c.cpos, s.size)..Cell(s.c.cpos, s.size) + s.c.m]
    case Tmp(bytes) => bytes
  }

  /** Wakes a parked producer, which then has the lock again. */
  function Woken(s: State): State {
    if s.p.PParked? then s.(p := PLocked(s.p.use, s.p.n, s.p.ppos), plocked := true) else s
  }

  ghost predicate ConsumerNext(s: State, step: Step, s': State)
    requires s.size > 0 && |s.buf| == s.size
  {
    match step
    case CBegin(op) =>
      && (s.c.CIdle? || s.c.CHold?) && (op.OpRead? || op.n <= s.size)
      && s' == s.(c := CLoaded(op, s.cseq, s.pseq))
    case CReload =>
      && s.c.CLoaded? && MustWait(s.c)
      && s' == if s.done then s.(c := CIdle) else s.(c := s.c.(ppos := s.pseq))
    case CProceed =>
      && s.c.CLoaded? && !MustWait(s.c)
      && var m := Take(s.size, s.c);
         s' == if s.c.op.OpRead? || Cell(s.c.cpos, s.size) + m > s.size
               then s.(c := CCopy(s.c.op, s.c.cpos, m, []))
               else s.(c := CHold(s.c.cpos, m, Alias))
    case CCopyByte =>
      && s.c.CCopy? && |s.c.out| < s.c.m
      && s' == s.(c := s.c.(out := s.c.out + [s.buf[Cell(s.c.cpos + |s.c.out|, s.size)]]))
    case CCopied =>
      && s.c.CCopy? && |s.c.out| == s.c.m
      && s' == if s.c.op.OpRead? then s.(c := CStore(s.c.cpos, s.c.out))
               else s.(c := CHold(s.c.cpos, s.c.m, Tmp(s.c.out)))
    case CCommit(k) =>
      && s.c.CHold? && k <= s.c.m && s.cseq + k <= s.pseq
      && (s.c.via.Alias? ==> Cell(s.c.cpos, s.size) + s.c.m <= s.size) && k <= |Seen(s)|
      && s' == s.(c := CStore(s.cseq, Seen(s)[..k]))
    case CPublish =>
      && s.c.CStore?
      && s' == s.(cseq := s.c.cpos + |s.c.bytes|, delivered := s.delivered + s.c.bytes, c := CNotify)
    case CBroadcast =>
      && s.c.CNotify? && !s.plocked
      && s' == Woken(s).(c := CIdle)
    case _ => false
  }

  ghost predicate CloseNext(s: State, step: Step, s': State) {
    match step
    case Close => s' == s.(done := true)
    case CloseBroadcast => s.done && !s.plocked && s' == Woken(s)
    case _ => false
  }

  ghost predicate Next(s: State, step: Step, s': State) {
    s.size > 0 && |s.buf| == s.size &&
    (ProducerNext(s, step, s') || ConsumerNext(s, step, s') || CloseNext(s, step, s'))
  }

  // The invariant

  ghost predicate CursorInv(s: State) {
    && s.size > 0 && |s.buf| == s.size
    && s.gate <= s.cseq <= s.pseq <= s.cseq + s.size
    && |s.produced| == s.pseq
    && Run(s.buf, s.cseq, s.pseq - s.cseq) == s.produced[s.cseq..]
    && s.delivered == s.produced[..s.cseq]
  }

  ghost predicate ProducerInv(s: State)
    requires CursorInv(s)
  {
    match s.p
    case PIdle => true
    case PLocked(use, n, ppos) => s.plocked && ppos == s.pseq && Waits(use, n)
    case PRefused(use, n, ppos) => s.plocked && ppos == s.pseq && Waits(use, n) && NoMissedWake(s)
    case PParked(use, n, ppos) => !s.plocked && ppos == s.pseq && Waits(use, n) && NoMissedWake(s)
    case PGranted(use, n, ppos, staged) =>
      && ppos == s.pseq && ppos + n <= s.gate + s.size && Waits(use, n)
      && |staged| <= Room(s.size, use, n, ppos)
      && Run(s.buf, ppos, |staged|) == staged
      && (use.ForWrite? ==> staged == use.src[..|staged|])
    case PStore(ppos, data) =>
      && ppos == s.pseq && ppos + |data| <= s.gate + s.size
      && Run(s.buf, ppos, |data|) == data
    case PNotify => true
  }

  /** A commit never gets as far as waiting. */
  predicate Waits(use: Use, n: nat) {
    !use.ForCommit? && (use.ForWrite? ==> n == |use.src|)
  }

  /** Room for a producer that is about to sleep, or sleeps, means its wake-up is on the way. */
  predicate NoMissedWake(s: State)
    requires s.p.PRefused? || s.p.PParked?
  {
    s.p.ppos + s.p.n <= s.cseq + s.size ==> s.c.CNotify?
  }

  ghost predicate ConsumerInv(s: State)
    requires CursorInv(s)
  {
    match s.c
    case CIdle => true
    case CLoaded(op, cpos, ppos) =>
      cpos == s.cseq && cpos <= ppos <= s.pseq && (op.OpRead? || op.n <= s.size)
    case CCopy(op, cpos, m, out) =>
      && cpos == s.cseq && |out| <= m && cpos + m <= s.pseq
      && out == s.produced[cpos..cpos + |out|]
    case CHold(cpos, m, via) =>
      && cpos == s.cseq && cpos + m <= s.pseq
      && (via.Alias? ==> Cell(cpos, s.size) + m <= s.size)
      && (via.Tmp? ==> via.bytes == s.produced[cpos..cpos + m])
    case CStore(cpos, bytes) =>
      && cpos == s.cseq && cpos + |bytes| <= s.pseq
      && bytes == s.produced[cpos..cpos + |bytes|]
    case CNotify => true
  }

  /** While the ring is open, a lock that is held is held by a producer about to use it. */
  predicate LockInv(s: State) {
    s.plocked && !s.done ==> s.p.PLocked? || s.p.PRefused?
  }

  ghost predicate Inv(s: State) {
    CursorInv(s) && ProducerInv(s) && ConsumerInv(s) && LockInv(s)
  }

  lemma InitInv(s: State)
    requires Init(s)
    ensures Inv(s)
  {
  }

  // Preservation

  /** What the consumer knows survives any step that leaves its locals and cursor alone. */
  lemma ConsumerKept(s: State, s': State)
    requires Inv(s) && CursorInv(s')
    requires s'.c == s.c && s'.cseq == s.cseq && s'.size == s.size && s.produced <= s'.produced
    ensures ConsumerInv(s')
  {
  }

  /** What the producer knows survives any step that leaves its locals and cursor alone
      and does not call off a wake-up. */
  lemma ProducerKept(s: State, s': State)
    requires Inv(s) && CursorInv(s') && s'.size == s.size && s'.buf == s.buf
    requires s'.p == s.p && s'.pseq == s.pseq && s'.gate == s.gate && s'.plocked == s.plocked
    requires s'.c.CNotify? || (s'.cseq == s.cseq && !s.c.CNotify?)
    ensures ProducerInv(s')
  {
  }

  lemma AcquireInv(s: State, use: Use, n: nat, s': State)
    requires Inv(s) && (s.p.PIdle? || s.p.PGranted?) && Acquire(s, use, n, s')
    requires use.ForWrite? ==> n == |use.src|
    requires use.ForCommit? ==>
      n == |use.data| && s.pseq + n <= s.gate + s.size && Run(s.buf, s.pseq, n) == use.data
    ensures Inv(s')
  {
    ConsumerKept(s, s');
  }

  lemma LoadInv(s: State, s': State)
    requires Inv(s) && ProducerNext(s, PLoad, s')
    ensures Inv(s')
  {
    ConsumerKept(s, s');
  }

  lemma WaitInv(s: State, s': State)
    requires Inv(s) && ProducerNext(s, PWait, s')
    ensures Inv(s')
  {
    ConsumerKept(s, s');
  }

  lemma FillInv(s: State, b: byte, s': State)
    requires Inv(s) && ProducerNext(s, PFill(b), s')
    ensures Inv(s')
  {
    FillRuns(s.buf, s.cseq, s.pseq, s.p.staged, b);
    ConsumerKept(s, s');
  }

  /** A byte put behind the staged ones, short of a whole ring from cseq, disturbs nothing. */
  lemma FillRuns(buf: seq<byte>, cseq: nat, pseq: nat, staged: seq<byte>, b: byte)
    requires |buf| > 0 && cseq <= pseq && pseq + |staged| < cseq + |buf|
    requires Run(buf, pseq, |staged|) == staged
    ensures var buf' := buf[Cell(pseq + |staged|, |buf|) := b];
            && Run(buf', cseq, pseq - cseq) == Run(buf, cseq, pseq - cseq)
            && Run(buf', pseq, |staged| + 1) == staged + [b]
  {
    var at := pseq + |staged|;
    var buf' := buf[Cell(at, |buf|) := b];
    assert buf' == Put(buf, at, [b]) by { assert Put(buf, at, [b]) == Put(buf', at + 1, []); }
    PutKeepsRun(buf, at, [b], cseq, pseq - cseq);
    PutKeepsRun(buf, at, [b], pseq, |staged|);
    PutRun(buf, at, [b]);
    RunSplit(buf', pseq, |staged|, 1);
  }

  lemma CommitInv(s: State, m: nat, s': State)
    requires Inv(s) && ProducerNext(s, PCommit(m), s')
    ensures Inv(s')
  {
    RunSplit(s.buf, s.pseq, m, |s.p.staged| - m);
    assert Run(s.buf, s.pseq, m) == s.p.staged[..m];
    AcquireInv(s, ForCommit(s.p.staged[..m]), m, s');
  }

  lemma PublishInv(s: State, s': State)
    requires Inv(s) && ProducerNext(s, PPublish, s')
    ensures Inv(s')
  {
    PublishRuns(s.buf, s.cseq, s.pseq, s.produced, s.p.data);
    assert CursorInv(s');
    ConsumerKept(s, s');
  }

  lemma PublishRuns(buf: seq<byte>, cseq: nat, pseq: nat, produced: seq<byte>, data: seq<byte>)
    requires |buf| > 0 && cseq <= pseq == |produced|
    requires Run(buf, cseq, pseq - cseq) == produced[cseq..] && Run(buf, pseq, |data|) == data
    ensures Run(buf, cseq, pseq + |data| - cseq) == (produced + data)[cseq..]
    ensures (produced + data)[..cseq] == produced[..cseq]
  {
    RunSplit(buf, cseq, pseq - cseq, |data|);
  }

  lemma QuietProducerInv(s: State, step: Step, s': State)
    requires Inv(s) && ProducerNext(s, step, s') && (step.PCopied? || step.PAbandon? || step.PBroadcast?)
    ensures Inv(s')
  {
    ConsumerKept(s, s');
  }

  lemma ProducerStepInv(s: State, step: Step, s': State)
    requires Inv(s) && ProducerNext(s, step, s')
    ensures Inv(s')
  {
    match step
    case PBegin(use, n) => AcquireInv(s, use, n, s');
    case PLoad => LoadInv(s, s');
    case PWait => WaitInv(s, s');
    case PFill(b) => FillInv(s, b, s');
    case PCommit(m) => CommitInv(s, m, s');
    case PPublish => PublishInv(s, s');
    case PCopied => QuietProducerInv(s, step, s');
    case PAbandon => QuietProducerInv(s, step, s');
    case PBroadcast => QuietProducerInv(s, step, s');
    case _ =>
  }

  /** The held slice shows exactly the bytes published at its positions. */
  lemma SeenIsProduced(s: State)
    requires Inv(s) && s.c.CHold?
    ensures Seen(s) == s.produced[s.c.cpos..s.c.cpos + s.c.m]
  {
    if s.c.via.Alias? {
      RunFlat(s.buf, s.cseq, s.c.m);
      RunSplit(s.buf, s.cseq, s.c.m, s.pseq - s.cseq - s.c.m);
      assert Seen(s) == s.produced[s.cseq..][..s.c.m];
    }
  }

  lemma LoadCursorsInv(s: State, step: Step, s': State)
    requires Inv(s) && ConsumerNext(s, step, s') && (step.CBegin? || step.CReload? || step.CProceed?)
    ensures Inv(s')
  {
    ProducerKept(s, s');
  }

  lemma CopyByteInv(s: State, s': State)
    requires Inv(s) && ConsumerNext(s, CCopyByte, s')
    ensures Inv(s')
  {
    var i := |s.c.out|;
    assert Run(s.buf, s.cseq, s.pseq - s.cseq)[i] == s.produced[s.cseq..][i];
    assert s'.c.out == s.produced[s.cseq..s.cseq + i + 1];
    ProducerKept(s, s');
  }

  lemma CopiedInv(s: State, s': State)
    requires Inv(s) && ConsumerNext(s, CCopied, s')
    ensures Inv(s')
  {
    ProducerKept(s, s');
  }

  lemma CommitChoiceInv(s: State, k: nat, s': State)
    requires Inv(s) && ConsumerNext(s, CCommit(k), s')
    ensures Inv(s')
  {
    SeenIsProduced(s);
    assert Seen(s)[..k] == s.produced[s.cseq..s.cseq + k];
    ProducerKept(s, s');
  }

  lemma ConsumePublishInv(s: State, s': State)
    requires Inv(s) && ConsumerNext(s, CPublish, s')
    ensures Inv(s')
  {
    var k := |s.c.bytes|;
    RunSplit(s.buf, s.cseq, k, s.pseq - s.cseq - k);
    assert s'.delivered == s.produced[..s.cseq + k];
    assert s.produced[s.cseq..][k..] == s.produced[s.cseq + k..];
    assert CursorInv(s');
    ProducerKept(s, s');
  }

  lemma NotifyInv(s: State, s': State)
    requires Inv(s) && ConsumerNext(s, CBroadcast, s')
    ensures Inv(s')
  {
  }

  lemma ConsumerStepInv(s: State, step: Step, s': State)
    requires Inv(s) && ConsumerNext(s, step, s')
    ensures Inv(s')
  {
    match step
    case CBegin(_) => LoadCursorsInv(s, step, s');
    case CReload => LoadCursorsInv(s, step, s');
    case CProceed => LoadCursorsInv(s, step, s');
    case CCopyByte => CopyByteInv(s, s');
    case CCopied => CopiedInv(s, s');
    case CCommit(k) => CommitChoiceInv(s, k, s');
    case CPublish => ConsumePublishInv(s, s');
    case CBroadcast => NotifyInv(s, s');
    case _ =>
  }

  lemma CloseInv(s: State, step: Step, s': State)
    requires Inv(s) && CloseNext(s, step, s')
    ensures Inv(s')
  {
  }

  lemma StepInv(s: State, step: Step, s': State)
    requires Inv(s) && Next(s, step, s')
    ensures Inv(s') && s'.size == s.size
  {
    if ProducerNext(s, step, s') {
      ProducerStepInv(s, step, s');
    } else if ConsumerNext(s, step, s') {
      ConsumerStepInv(s, step, s');
    } else {
      CloseInv(s, step, s');
    }
  }

  // Every run

  /** Some step of either thread, or of a close. */
  ghost predicate Moves(s: State, s': State) {
    exists step :: Next(s, step, s')
  }

  lemma MoveInv(s: State, s': State)
    requires Inv(s) && Moves(s, s')
    ensures Inv(s') && s'.size == s.size
  {
    var step :| Next(s, step, s');
    StepInv(s, step, s');
  }

  ghost function Starts(size: nat): State -> bool {
    s => Init(s) && s.size == size
  }

  ghost function Keeps(size: nat): State -> bool {
    s => Inv(s) && s.size == size
  }

  ghost predicate Reachable(size: nat, s: State) {
    Runs.Reachable(Starts(size), Moves, s)
  }

  /** Whatever the mix of operations and however their steps interleave. */
  lemma ReachableInv(size: nat, s: State)
    requires Reachable(size, s)
    ensures Inv(s) && s.size == size
    ensures 0 <= s.gate <= s.cseq <= s.pseq <= s.cseq + size
    ensures s.delivered + Run(s.buf, s.cseq, s.pseq - s.cseq) == s.produced
  {
    forall x: State | Starts(size)(x) ensures Keeps(size)(x) { InitInv(x); }
    forall x: State, y: State | Keeps(size)(x) && Moves(x, y) ensures Keeps(size)(y) { MoveInv(x, y); }
    Runs.Invariant(Starts(size), Moves, Keeps(size), s);
    assert s.produced[..s.cseq] + s.produced[s.cseq..] == s.produced;
  }

  lemma Extend(size: nat, s: State, step: Step, s': State)
    requires Reachable(size, s) && Next(s, step, s')
    ensures Reachable(size, s')
  {
    assert Moves(s, s');
    Runs.Extend(Starts(size), Moves, s, s');
  }

  // Refinement to a bounded queue

  datatype Fifo = Fifo(queue: seq<byte>, entered: seq<byte>, left: seq<byte>)

  function Abstract(s: State): Fifo
    requires s.size > 0 && |s.buf| == s.size && s.cseq <= s.pseq
  {
    Fifo(Run(s.buf, s.cseq, s.pseq - s.cseq), s.produced, s.delivered)
  }

  ghost predicate Enqueue(a: Fifo, x: seq<byte>, a': Fifo) {
    a' == Fifo(a.queue + x, a.entered + x, a.left)
  }

  ghost predicate Dequeue(a: Fifo, x: seq<byte>, a': Fifo) {
    a.queue == x + a'.queue && a'.entered == a.entered && a'.left == a.left + x
  }

  lemma HistoryKept(s: State, step: Step, s': State)
    requires Next(s, step, s') && !step.PPublish? && !step.CPublish?
    ensures s'.produced == s.produced && s'.delivered == s.delivered
    ensures s'.pseq == s.pseq && s'.cseq == s.cseq
  {
  }

  /** Storing pseq enqueues the producer's bytes, storing cseq dequeues what the consumer
      saw, and every other step leaves the queue alone. */
  lemma StepRefinesFifo(s: State, step: Step, s': State)
    requires Inv(s) && Next(s, step, s')
    ensures Inv(s') && |Abstract(s').queue| <= s'.size
    ensures step.PPublish? ==> s.p.PStore? && Enqueue(Abstract(s), s.p.data, Abstract(s'))
    ensures step.CPublish? ==> s.c.CStore? && Dequeue(Abstract(s), s.c.bytes, Abstract(s'))
    ensures !step.PPublish? && !step.CPublish? ==> Abstract(s') == Abstract(s)
  {
    StepInv(s, step, s');
    if step.PPublish? {
      assert s'.produced[s.cseq..] == s.produced[s.cseq..] + s.p.data;
    } else if step.CPublish? {
      assert s.produced[s.cseq..] == s.c.bytes + s.produced[s'.cseq..];
    } else {
      HistoryKept(s, step, s');
    }
  }

  // What a peek handed out does not change

  /** No step of the producer, nor a close, changes what the consumer's caller sees. */
  lemma SeenIsStable(s: State, s': State)
    requires Inv(s) && Moves(s, s') && s.c.CHold? && s'.c == s.c
    ensures Inv(s') && Seen(s') == Seen(s)
  {
    MoveInv(s, s');
    SeenIsProduced(s);
    SeenIsProduced(s');
    ProducedGrows(s, s');
  }

  lemma ProducedGrows(s: State, s': State)
    requires Moves(s, s')
    ensures s.produced <= s'.produced
  {
  }

  /** Consecutive states of a run in which the consumer does not move. */
  ghost predicate Linked(run: seq<State>, i: nat)
    requires i + 1 < |run|
  {
    Moves(run[i], run[i + 1]) && run[i + 1].c == run[i].c
  }

  /** So the slice shows the same bytes however long the caller keeps it uncommitted. */
  lemma {:induction false} SeenIsStableThroughout(run: seq<State>, k: nat)
    requires k < |run| && Inv(run[0]) && run[0].c.CHold?
    requires forall i: nat :: i + 1 < |run| ==> Linked(run, i)
    ensures Inv(run[k]) && run[k].c == run[0].c && Seen(run[k]) == Seen(run[0])
  {
    if k > 0 {
      SeenIsStableThroughout(run, k - 1);
      assert Linked(run, k - 1);
      SeenIsStable(run[k - 1], run[k]);
    }
  }

  // Reservations

  /** Space is granted only when it is there, whatever the cached cursor said. */
  lemma GrantIsSound(size: nat, s: State)
    requires Reachable(size, s) && s.p.PGranted?
    ensures s.p.ppos == s.pseq && s.p.n <= s.size - (s.pseq - s.cseq)
  {
    ReachableInv(size, s);
  }

  /** The second wait, inside the commit of bytes a slice was granted for, neither waits
      nor moves: it goes straight on to publish them where they were written. */
  lemma CommitNeverWaits(size: nat, s: State, m: nat, s': State)
    requires Reachable(size, s) && ProducerNext(s, PCommit(m), s')
    ensures s' == if s.done then s.(p := PIdle) else s.(p := PStore(s.pseq, s.p.staged[..m]))
  {
    ReachableInv(size, s);
  }

  /** A parked producer is not forgotten: once there is room for it, the consumer stands
      between its store of the cursor and its broadcast, the lock the broadcast needs is
      free, and the broadcast wakes the producer. */
  lemma ParkedProducerIsWoken(size: nat, s: State)
    requires Reachable(size, s) && s.p.PParked?
    requires s.p.n <= s.size - (s.pseq - s.cseq)
    ensures s.c.CNotify? && s.size > 0 && |s.buf| == s.size
    ensures ConsumerNext(s, CBroadcast, Woken(s).(c := CIdle))
    ensures Woken(s).p == PLocked(s.p.use, s.p.n, s.p.ppos)
  {
    ReachableInv(size, s);
  }

  // Progress

  /** The receiver sleeps until a block is free and the processor until n bytes are there,
      each on the cursors as they are. */
  predicate Deadlocked(s: State, n: nat) {
    && !s.done && s.p == PParked(ForSlice, BLOCK, s.pseq)
    && s.c == CLoaded(OpWait(n), s.cseq, s.pseq) && s.cseq + n > s.pseq
  }

  lemma DeadlockedForGood(s: State, n: nat, step: Step, s': State)
    requires Deadlocked(s, n) && Next(s, step, s')
    ensures step.Close? || s' == s
  {
  }

  /** A state with avail bytes in the ring, nothing consumed, both threads idle. */
  ghost predicate Filled(size: nat, s: State, avail: nat) {
    && Reachable(size, s) && !s.done && !s.plocked && s.p == PIdle && s.c == CIdle
    && s.pseq == avail && s.cseq == s.gate == 0
  }

  lemma FillOne(size: nat, s: State) returns (s': State)
    requires Filled(size, s, s.pseq) && s.pseq + BLOCK <= size
    ensures Filled(size, s', s.pseq + 1)
  {
    ReachableInv(size, s);
    var s1 := s.(p := PGranted(ForSlice, BLOCK, s.pseq, []));
    Extend(size, s, PBegin(ForSlice, BLOCK), s1);
    var s2 := s1.(buf := s.buf[Cell(s.pseq, size) := 0], p := PGranted(ForSlice, BLOCK, s.pseq, [0]));
    assert ProducerNext(s1, PFill(0), s2) by { assert [] + [0] == [0]; assert s.pseq + 0 == s.pseq; }
    Extend(size, s1, PFill(0), s2);
    var s3 := s2.(p := PStore(s.pseq, [0]));
    assert ProducerNext(s2, PCommit(1), s3) by { assert [0][..1] == [0]; }
    Extend(size, s2, PCommit(1), s3);
    var s4 := s3.(pseq := s.pseq + 1, produced := s.produced + [0], p := PNotify);
    Extend(size, s3, PPublish, s4);
    s' := s4.(p := PIdle);
    Extend(size, s4, PBroadcast, s');
  }

  lemma {:induction false} FillUpTo(size: nat, avail: nat) returns (s: State)
    requires size > 0 && (avail == 0 || avail + BLOCK <= size + 1)
    ensures Filled(size, s, avail)
  {
    if avail == 0 {
      s := State(size, seq(size, _ => 0), 0, 0, 0, false, false, PIdle, CIdle, [], []);
      Runs.Start(Starts(size), Moves, s);
    } else {
      var before := FillUpTo(size, avail - 1);
      s := FillOne(size, before);
    }
  }

  lemma DeadlockReachable(size: nat, n: nat) returns (s: State)
    requires BLOCK <= size && n <= size && n + BLOCK > size + 1
    ensures Reachable(size, s) && Deadlocked(s, n)
  {
    var s0 := FillUpTo(size, size - BLOCK + 1);
    ReachableInv(size, s0);
    var s1 := s0.(p := PLocked(ForSlice, BLOCK, s0.pseq), plocked := true);
    Extend(size, s0, PBegin(ForSlice, BLOCK), s1);
    var s2 := s1.(p := PRefused(ForSlice, BLOCK, s0.pseq));
    Extend(size, s1, PLoad, s2);
    var s3 := s2.(p := PParked(ForSlice, BLOCK, s0.pseq), plocked := false);
    Extend(size, s2, PWait, s3);
    s := s3.(c := CLoaded(OpWait(n), 0, s0.pseq));
    Extend(size, s3, CBegin(OpWait(n)), s);
  }

  /** The receiver and a processor waiting for n bytes can put each other to sleep for
      good exactly when n exceeds the ring's size less one block, plus one. */
  lemma DeadlockIff(size: nat, n: nat)
    requires BLOCK <= size && n <= size
    ensures (exists s :: Reachable(size, s) && Deadlocked(s, n)) <==> n + BLOCK > size + 1
  {
    if n + BLOCK > size + 1 {
      var s := DeadlockReachable(size, n);
    }
    if s :| Reachable(size, s) && Deadlocked(s, n) {
      ReachableInv(size, s);
    }
  }
}
