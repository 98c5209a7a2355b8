/** The agent's receiver and processor around one ring: the receiver fills it from the
    connection in whatever pieces arrive, the processor peeks, handles and commits frames. */
module EndToEnd {
  import opened RingBytes
  import opened Wire
  import opened RingProtocol
  import Runs

  /** Where the processor's loop stands; `asked` once its ReadWait has begun. */
  datatype Proc =
    | PeekSize(cnt: nat, asked: bool)
    | PeekBody(mtype: byte, total: nat, asked: bool)
    | Handling(total: nat)       // the message is with processIncoming
    | Committing(total: nat)
    | Stopped

  datatype Sys = Sys(ring: State, net: seq<byte>, receiving: bool, proc: Proc, handled: seq<Message>)

  datatype Act = Receive(step: Step) | StopReceiving | Process(step: Step)
               | SizeKnown | TooBig | Decode | StopProcessing | Env(step: Step)

  ghost predicate Init(s: Sys, size: nat, ms: seq<Message>) {
    && RingProtocol.Init(s.ring) && s.ring.size == size
    && s.net == Frames(ms) && s.receiving && s.proc == PeekSize(2, false) && s.handled == []
  }

  // The receiver: ReadFrom on the connection

  /** ReadFrom reserves a block, puts what a Read delivers in the slice and commits it all. */
  predicate ReadFromStep(s: Sys, step: Step) {
    match step
    case PBegin(use, n) => use.ForSlice? && n == BLOCK
    case PFill(b) => s.net != [] && b == s.net[0]
    case PCommit(m) => s.ring.p.PGranted? && m == |s.ring.p.staged| && m > 0
    case PAbandon => s.ring.p.PGranted? && s.ring.p.staged == []
    case PLoad => true
    case PWait => true
    case PPublish => true
    case PBroadcast => true
    case _ => false
  }

  /** A wait that finds the ring closed ends ReadFrom, and with it the receiver. */
  predicate EndsReceiving(s: Sys, step: Step) {
    s.ring.done && (step.PBegin? || step.PCommit? || step.PWait?)
  }

  ghost predicate ReceiverNext(s: Sys, step: Step, s': Sys)
    requires s.ring.size > 0 && |s.ring.buf| == s.ring.size
  {
    && s.receiving && ReadFromStep(s, step) && ProducerNext(s.ring, step, s'.ring)
    && s' == s.(ring := s'.ring, receiving := !EndsReceiving(s, step),
                net := if step.PFill? then s.net[1..] else s.net)
  }

  // The processor

  /** The bytes its current ReadWait asks for. */
  function Wanted(p: Proc): nat {
    match p case PeekSize(cnt, _) => cnt case PeekBody(_, total, _) => total case _ => 0
  }

  predicate Asking(p: Proc, asked: bool) {
    (p.PeekSize? || p.PeekBody?) && p.asked == asked
  }

  ghost predicate ProcessorNext(s: Sys, step: Step, s': Sys)
    requires s.ring.size > 0 && |s.ring.buf| == s.ring.size
  {
    && ConsumerNext(s.ring, step, s'.ring)
    && match step
       case CBegin(op) =>
         && Asking(s.proc, false) && op == OpWait(Wanted(s.proc))
         && s' == s.(ring := s'.ring, proc := s.proc.(asked := true))
       case CReload =>
         && Asking(s.proc, true)
         && s' == s.(ring := s'.ring, proc := if s.ring.done then Stopped else s.proc)
       case CProceed => Asking(s.proc, true) && s' == s.(ring := s'.ring)
       case CCopyByte => Asking(s.proc, true) && s' == s.(ring := s'.ring)
       case CCopied => Asking(s.proc, true) && s' == s.(ring := s'.ring)
       case CCommit(k) =>
         && s.proc.Handling? && k == s.proc.total
         && s' == s.(ring := s'.ring, proc := Committing(s.proc.total))
       case CPublish => s.proc.Committing? && s' == s.(ring := s'.ring)
       case CBroadcast =>
         s.proc.Committing? && s' == s.(ring := s'.ring, proc := PeekSize(2, false))
       case _ => false
  }

  ghost predicate Holds(s: State) {
    && s.size > 0 && |s.buf| == s.size && s.c.CHold?
    && (s.c.via.Alias? ==> Cell(s.c.cpos, s.size) + s.c.m <= s.size)
  }

  /** peekMessageSize: one more byte until there are five, then the size they announce. */
  ghost predicate SizeNext(s: Sys, s': Sys) {
    && s.proc.PeekSize? && s.proc.asked && Holds(s.ring)
    && s' == s.(proc := if s.proc.cnt < 5 then PeekSize(s.proc.cnt + 1, false)
                        else if |Seen(s.ring)| == 5 then PeekBody(Seen(s.ring)[0], FrameSize(Seen(s.ring)), false)
                        else Stopped)
  }

  /** peekMessage, once its bytes are there, and the call of processIncoming. */
  ghost predicate DecodeNext(s: Sys, s': Sys) {
    && s.proc.PeekBody? && s.proc.asked && Holds(s.ring)
    && s' == match NewMessage(s.proc.mtype)
             case UnknownType => s.(proc := Stopped)
             case New(k) =>
               match DecodeAs(k, Seen(s.ring))
               case Decoded(m, _) => s.(handled := s.handled + [m], proc := Handling(s.proc.total))
               case _ => s.(proc := Stopped)
  }

  /** After a commit, with nothing left in the ring: where the processor, told to stop, stops. */
  predicate Drained(s: Sys) {
    s.proc == PeekSize(2, false) && s.handled != [] && s.ring.pseq == s.ring.cseq
  }

  ghost predicate Next(s: Sys, act: Act, s': Sys) {
    && s.ring.size > 0 && |s.ring.buf| == s.ring.size
    && match act
       case Receive(step) => ReceiverNext(s, step, s')
       case StopReceiving => s.receiving && s.ring.p.PIdle? && s' == s.(receiving := false)
       case Process(step) => ProcessorNext(s, step, s')
       case SizeKnown => SizeNext(s, s')
       case TooBig => Asking(s.proc, false) && Wanted(s.proc) > s.ring.size && s' == s.(proc := Stopped)
       case Decode => DecodeNext(s, s')
       case StopProcessing => Drained(s) && s' == s.(proc := Stopped)
       case Env(step) => CloseNext(s.ring, step, s'.ring) && s' == s.(ring := s'.ring)
  }

  ghost predicate Moves(s: Sys, s': Sys) {
    exists act :: Next(s, act, s')
  }

  // The invariant

  /** What the receiver has taken off the connection and not published. */
  function Pending(p: Producer): seq<byte> {
    match p case PGranted(_, _, _, staged) => staged case PStore(_, data) => data case _ => []
  }

  ghost predicate StreamInv(s: Sys, ms: seq<Message>) {
    if s.receiving then
      && s.ring.produced + Pending(s.ring.p) + s.net == Frames(ms)
      && (s.ring.p.PGranted? ==> s.ring.p.use.ForSlice?)
      && (s.ring.p.PLocked? || s.ring.p.PRefused? || s.ring.p.PParked? ==>
            s.ring.p.use.ForSlice? && s.ring.p.n == BLOCK)
    else s.ring.p.PIdle? && s.ring.produced <= Frames(ms)
  }

  /** The consumer's place while the processor is in a ReadWait for n bytes, or about to. */
  predicate Waiting(c: Consumer, n: nat, asked: bool) {
    if asked then
      && (c.CLoaded? || c.CCopy? || c.CHold?)
      && (c.CLoaded? ==> c.op == OpWait(n))
      && (c.CCopy? ==> c.op == OpWait(n) && c.m == n)
      && (c.CHold? ==> c.m == n)
    else c.CIdle? || c.CHold?
  }

  ghost predicate ProcInv(s: Sys, ms: seq<Message>) {
    var h := |s.handled|;
    match s.proc
    case PeekSize(cnt, asked) =>
      2 <= cnt <= 5 && Waiting(s.ring.c, cnt, asked) && s.ring.cseq == |Frames(s.handled)|
    case PeekBody(mtype, total, asked) =>
      && Waiting(s.ring.c, total, asked) && s.ring.cseq == |Frames(s.handled)|
      && h < |ms| && mtype == TypeByte(KindOf(ms[h])) && total == Len(ms[h])
    case Handling(total) =>
      && h > 0 && s.ring.c.CHold? && s.ring.c.m == total == Len(s.handled[h - 1])
      && s.ring.cseq == |Frames(s.handled[..h - 1])|
    case Committing(total) =>
      && h > 0 && total == Len(s.handled[h - 1])
      && if s.ring.c.CStore? then s.ring.cseq == |Frames(s.handled[..h - 1])| && |s.ring.c.bytes| == total
         else s.ring.c.CNotify? && s.ring.cseq == |Frames(s.handled)|
    case Stopped => true
  }

  ghost predicate SysInv(s: Sys, ms: seq<Message>) {
    && Inv(s.ring) && s.handled <= ms && StreamInv(s, ms) && ProcInv(s, ms)
    && forall i :: 0 <= i < |s.handled| ==> Len(s.handled[i]) <= s.ring.size
  }

  /** At a frame boundary the published bytes are the next frame's. */
  lemma NextFrame(s: Sys, ms: seq<Message>, n: nat)
    requires SysInv(s, ms) && s.ring.cseq == |Frames(s.handled)|
    requires 0 < n && s.ring.cseq + n <= s.ring.pseq
    ensures var h := |s.handled|;
            h < |ms| && (n <= Len(ms[h]) ==> s.ring.produced[s.ring.cseq..s.ring.cseq + n] == Frame(ms[h])[..n])
  {
    var h := |s.handled|;
    assert s.handled == ms[..h];
    StreamGrows(s, ms);
    WholePrefix(ms);
    if h < |ms| {
      FramesSplit(ms, h);
      if n <= Len(ms[h]) {
        SliceOfPrefix(s.ring.produced, Frames(ms[..h]), Frame(ms[h]), Frames(ms[h + 1..]), n);
      }
    }
  }

  lemma WholePrefix(ms: seq<Message>)
    ensures ms[..|ms|] == ms
  {
  }

  lemma StreamGrows(s: Sys, ms: seq<Message>)
    requires StreamInv(s, ms)
    ensures s.ring.produced <= Frames(ms)
  {
  }

  lemma SliceOfPrefix(p: seq<byte>, a: seq<byte>, b: seq<byte>, c: seq<byte>, n: nat)
    requires p <= a + b + c && |a| + n <= |p| && n <= |b|
    ensures p[|a|..|a| + n] == b[..n]
  {
    assert p == (a + b + c)[..|p|];
  }

  lemma InitInv(s: Sys, size: nat, ms: seq<Message>)
    requires Init(s, size, ms)
    ensures SysInv(s, ms)
  {
    RingProtocol.InitInv(s.ring);
    assert s.ring.produced + Pending(s.ring.p) + s.net == Frames(ms);
    assert Frames([]) == [];
  }

  // Preservation, actor by actor

  /** The producer's steps do not touch the consumer's cursor or locals. */
  lemma ProducerFrame(s: State, step: Step, s': State)
    requires s.size > 0 && |s.buf| == s.size && ProducerNext(s, step, s')
    ensures s'.c == s.c && s'.cseq == s.cseq && s'.size == s.size && s'.done == s.done
  {
  }

  lemma ConsumerFrame(s: State, step: Step, s': State)
    requires s.size > 0 && |s.buf| == s.size && ConsumerNext(s, step, s')
    ensures s'.produced == s.produced && s'.pseq == s.pseq && s'.size == s.size && s'.done == s.done
    ensures !step.CBroadcast? ==> s'.p == s.p
    ensures step.CBroadcast? ==> s'.p == Woken(s).p
  {
  }

  lemma ReceiverInv(s: Sys, step: Step, s': Sys, ms: seq<Message>)
    requires SysInv(s, ms) && ReceiverNext(s, step, s')
    ensures SysInv(s', ms)
  {
    ProducerStepInv(s.ring, step, s'.ring);
    ProducerFrame(s.ring, step, s'.ring);
    ReceiverStream(s, step, s', ms);
  }

  /** Nothing is lost between the connection and the ring: a byte is on the connection,
      in the slice being filled, or published. */
  lemma ReceiverStream(s: Sys, step: Step, s': Sys, ms: seq<Message>)
    requires Inv(s.ring) && StreamInv(s, ms) && ReceiverNext(s, step, s')
    ensures StreamInv(s', ms)
  {
    match step
    case PFill(b) => FillStream(s, b, s', ms);
    case PPublish => PublishStream(s, s', ms);
    case PCommit(m) => CommitStream(s, m, s', ms);
    case _ => QuietStream(s, step, s', ms);
  }

  lemma FillStream(s: Sys, b: byte, s': Sys, ms: seq<Message>)
    requires StreamInv(s, ms) && s.ring.size > 0 && |s.ring.buf| == s.ring.size && ReceiverNext(s, PFill(b), s')
    ensures StreamInv(s', ms)
  {
    assert s.net == [b] + s'.net;
    assert s.ring.produced + (s.ring.p.staged + [b]) + s'.net == s.ring.produced + s.ring.p.staged + s.net;
  }

  lemma PublishStream(s: Sys, s': Sys, ms: seq<Message>)
    requires StreamInv(s, ms) && s.ring.size > 0 && |s.ring.buf| == s.ring.size && ReceiverNext(s, PPublish, s')
    ensures StreamInv(s', ms)
  {
    assert s'.ring.produced + [] == s.ring.produced + s.ring.p.data;
  }

  lemma CommitStream(s: Sys, m: nat, s': Sys, ms: seq<Message>)
    requires Inv(s.ring) && StreamInv(s, ms) && ReceiverNext(s, PCommit(m), s')
    ensures StreamInv(s', ms)
  {
    assert s.ring.p.staged[..m] == s.ring.p.staged;
  }

  lemma QuietStream(s: Sys, step: Step, s': Sys, ms: seq<Message>)
    requires StreamInv(s, ms) && s.ring.size > 0 && |s.ring.buf| == s.ring.size && ReceiverNext(s, step, s')
    requires !step.PFill? && !step.PPublish? && !step.PCommit?
    ensures StreamInv(s', ms)
  {
    assert Pending(s'.ring.p) == Pending(s.ring.p) == [] && s'.ring.produced == s.ring.produced && s'.net == s.net;
    if !s'.receiving {
      assert s.ring.produced <= s.ring.produced + [] + s.net;
    }
  }

  lemma ProcessorInv(s: Sys, step: Step, s': Sys, ms: seq<Message>)
    requires SysInv(s, ms) && ProcessorNext(s, step, s')
    ensures SysInv(s', ms)
  {
    ConsumerStepInv(s.ring, step, s'.ring);
    ConsumerFrame(s.ring, step, s'.ring);
    ProcessorPlace(s, step, s', ms);
  }

  lemma ProcessorPlace(s: Sys, step: Step, s': Sys, ms: seq<Message>)
    requires SysInv(s, ms) && ProcessorNext(s, step, s')
    ensures ProcInv(s', ms)
  {
    if step.CPublish? {
      CommittedPlace(s, s', ms);
    } else if step.CCommit? {
      SeenIsProduced(s.ring);
    }
  }

  /** Storing the consumer's cursor moves it over exactly the frame just handled. */
  lemma CommittedPlace(s: Sys, s': Sys, ms: seq<Message>)
    requires SysInv(s, ms) && ProcessorNext(s, CPublish, s')
    ensures ProcInv(s', ms)
  {
    var h := |s.handled|;
    FramesSplit(s.handled, h - 1);
    assert s.handled[..h - 1 + 1] == s.handled;
  }

  lemma SizeInv(s: Sys, s': Sys, ms: seq<Message>)
    requires Sendable(ms) && SysInv(s, ms) && SizeNext(s, s')
    ensures SysInv(s', ms)
  {
    if s.proc.cnt == 5 {
      SeenIsProduced(s.ring);
      NextFrame(s, ms, 5);
      var m := ms[|s.handled|];
      assert Seen(s.ring) == Frame(m)[..5];
      FrameSizeIff(m);
      FrameTypeByte(m);
    }
  }

  lemma FrameTypeByte(m: Message)
    requires |Body(m)| < TWO_28
    ensures Frame(m)[0] == TypeByte(KindOf(m))
  {
    FrameIsPadded(m);
  }

  /** The processor decodes the message that was sent, and no other. */
  lemma DecodesNext(s: Sys, s': Sys, ms: seq<Message>)
    requires Sendable(ms) && SysInv(s, ms) && DecodeNext(s, s')
    ensures |s.handled| < |ms| && s'.handled == s.handled + [ms[|s.handled|]]
    ensures s'.proc == Handling(s.proc.total) && s' == s.(handled := s'.handled, proc := s'.proc)
  {
    var m := ms[|s.handled|];
    SeenIsProduced(s.ring);
    NextFrame(s, ms, s.proc.total);
    assert Seen(s.ring) == Frame(m)[..Len(m)] == Frame(m);
    NewOfTypeByte(KindOf(m), s.proc.mtype);
    FrameRoundTrip(m);
  }

  lemma DecodeInv(s: Sys, s': Sys, ms: seq<Message>)
    requires Sendable(ms) && SysInv(s, ms) && DecodeNext(s, s')
    ensures SysInv(s', ms)
  {
    DecodesNext(s, s', ms);
    HandsOn(s, s', ms);
  }

  lemma HandsOn(s: Sys, s': Sys, ms: seq<Message>)
    requires SysInv(s, ms) && s.proc.PeekBody? && s.ring.c.CHold? && s.proc.asked
    requires s' == s.(handled := s.handled + [ms[|s.handled|]], proc := Handling(s.proc.total))
    ensures SysInv(s', ms)
  {
    assert s'.handled[..|s.handled|] == s.handled;
  }

  lemma EnvInv(s: Sys, step: Step, s': Sys, ms: seq<Message>)
    requires SysInv(s, ms) && CloseNext(s.ring, step, s'.ring) && s' == s.(ring := s'.ring)
    ensures SysInv(s', ms)
  {
  }

  lemma MoveInv(s: Sys, s': Sys, ms: seq<Message>)
    requires Sendable(ms) && SysInv(s, ms) && Moves(s, s')
    ensures SysInv(s', ms)
  {
    var act :| Next(s, act, s');
    match act
    case Receive(step) => ReceiverInv(s, step, s', ms);
    case StopReceiving =>
      assert s.ring.produced <= s.ring.produced + Pending(s.ring.p) + s.net;
    case Process(step) => ProcessorInv(s, step, s', ms);
    case SizeKnown => SizeInv(s, s', ms);
    case TooBig =>
    case Decode => DecodeInv(s, s', ms);
    case StopProcessing =>
    case Env(step) => EnvInv(s, step, s', ms);
  }

  // Every run

  ghost function Starts(size: nat, ms: seq<Message>): Sys -> bool {
    s => Init(s, size, ms)
  }

  ghost function Keeps(ms: seq<Message>): Sys -> bool {
    s => SysInv(s, ms)
  }

  ghost predicate Reachable(size: nat, ms: seq<Message>, s: Sys) {
    Runs.Reachable(Starts(size, ms), Moves, s)
  }

  lemma ReachableInv(size: nat, ms: seq<Message>, s: Sys)
    requires Sendable(ms) && Reachable(size, ms, s)
    ensures SysInv(s, ms)
  {
    forall x: Sys | Starts(size, ms)(x) ensures Keeps(ms)(x) { InitInv(x, size, ms); }
    forall x: Sys, y: Sys | Keeps(ms)(x) && Moves(x, y) ensures Keeps(ms)(y) { MoveInv(x, y, ms); }
    Runs.Invariant(Starts(size, ms), Moves, Keeps(ms), s);
  }

  /** Whatever was sent, however it was chunked and whatever the interleaving: the messages
      handed to processIncoming are the first of those sent, each commit has landed on the
      boundary behind their frames, and nothing on the way was lost or repeated. */
  lemma HandledIsPrefixOfSent(size: nat, ms: seq<Message>, s: Sys)
    requires Sendable(ms) && Reachable(size, ms, s)
    ensures s.handled <= ms
    ensures s.proc.PeekSize? || s.proc.PeekBody? ==> s.ring.delivered == Frames(s.handled)
    ensures s.receiving ==> s.ring.produced + Pending(s.ring.p) + s.net == Frames(ms)
  {
    ReachableInv(size, ms, s);
    var h := |s.handled|;
    assert s.handled == ms[..h];
    if s.proc.PeekSize? || s.proc.PeekBody? {
      BoundaryPrefix(ms, h);
    }
  }

  lemma BoundaryPrefix(ms: seq<Message>, h: nat)
    requires h <= |ms|
    ensures Frames(ms[..h]) <= Frames(ms)
  {
    ConcatAppend(Frame, ms[..h], ms[h..]);
    assert ms[..h] + ms[h..] == ms;
  }

  /** While a message is being processed, the slice its payload aliases still shows its
      frame, whatever the receiver has put in the ring since. */
  lemma FrameStaysPut(size: nat, ms: seq<Message>, s: Sys)
    requires Sendable(ms) && Reachable(size, ms, s) && s.proc.Handling?
    ensures |s.handled| > 0 && Holds(s.ring)
    ensures var m := s.handled[|s.handled| - 1];
            Seen(s.ring) == Frame(m) && DecodeAs(KindOf(m), Seen(s.ring)) == Decoded(m, |Encode(m)|)
  {
    ReachableInv(size, ms, s);
    HandlingSees(ms, s);
    FrameRoundTrip(s.handled[|s.handled| - 1]);
  }

  lemma HandlingSees(ms: seq<Message>, s: Sys)
    requires SysInv(s, ms) && s.proc.Handling?
    ensures |s.handled| > 0 && Holds(s.ring) && Seen(s.ring) == Frame(s.handled[|s.handled| - 1])
  {
    var h := |s.handled| - 1;
    var m := ms[h];
    assert s.handled[h] == m && s.handled[..h] == ms[..h];
    SeenIsProduced(s.ring);
    FramesSplit(ms, h);
    StreamGrows(s, ms);
    SliceOfPrefix(s.ring.produced, Frames(ms[..h]), Frame(m), Frames(ms[h + 1..]), Len(m));
    assert Frame(m)[..Len(m)] == Frame(m);
  }
}
