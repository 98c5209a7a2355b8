/** The master's client: any number of handlers ask the agent for something over one
    connection, each holding client.mu from the write of its request to the read of the
    reply. The agent handles one message at a time and answers each request once. */
module RequestReply {
  import opened RingBytes
  import opened Wire
  import Runs

  datatype Handler =
    | Idle
    | Wanting(req: Message)                  // called, waiting for client.mu
    | Locked(req: Message)                   // has client.mu, will write
    | Sent(req: Message)                     // has written, will read the reply
    | Answered(req: Message, reply: Outcome) // has decoded what it read, still has client.mu

  /** What getAckMessage or getQuerydetailMessage made of the frame read. */
  datatype Outcome = Reply(m: Message) | BadReply

  datatype State = State(
    handlers: seq<Handler>,
    toAgent: seq<byte>, toMaster: seq<byte>,   // bytes written and not yet read, each way
    requests: seq<Message>, replies: seq<Message>   // history: requests written, replies written
  )

  datatype Act =
    | Call(i: nat, req: Message) | Lock(i: nat) | Send(i: nat) | Receive(i: nat, buf: seq<byte>) | Unlock(i: nat)
    | Answer(buf: seq<byte>, reply: Message)

  predicate HoldsLock(h: Handler) { h.Locked? || h.Sent? || h.Answered? }

  /** The requests a client makes: StartProcess, StopProcess and QueryProcess. */
  predicate IsRequest(m: Message) {
    (m.Query? || (m.Payload? && (m.kind.START? || m.kind.STOP?))) && |Body(m)| < TWO_28
  }

  /** Which type of message answers which: the type switch of processIncoming. */
  function ReplyKind(req: Message): Kind
    requires IsRequest(req)
  {
    if req.Query? then QUERYDETAIL else ACK
  }

  /** Whatever code or process list the agent puts in it. */
  predicate Answers(req: Message, reply: Message) {
    IsRequest(req) && WellFormed(reply) && KindOf(reply) == ReplyKind(req) && |Body(reply)| < TWO_28
  }

  /** The master decodes what it reads as the type of reply its request expects. */
  function Understand(req: Message, buf: seq<byte>): Outcome
    requires IsRequest(req)
  {
    match DecodeAs(ReplyKind(req), buf)
    case Decoded(m, _) => Reply(m)
    case _ => BadReply
  }

  ghost predicate Init(s: State) {
    && (forall i :: 0 <= i < |s.handlers| ==> s.handlers[i] == Idle)
    && s.toAgent == s.toMaster == [] && s.requests == s.replies == []
  }

  /** One whole frame at the front of a stream, as getMessageBuffer and the agent's peeks
      cut it off: its first five bytes say how long it is. */
  predicate FrameAtFront(stream: seq<byte>, buf: seq<byte>) {
    |buf| >= 5 && buf <= stream && |buf| == FrameSize(buf[..5])
  }

  ghost predicate Next(s: State, act: Act, s': State) {
    match act
    case Call(i, req) =>
      && i < |s.handlers| && s.handlers[i].Idle? && IsRequest(req)
      && s' == s.(handlers := s.handlers[i := Wanting(req)])
    case Lock(i) =>
      && i < |s.handlers| && s.handlers[i].Wanting?
      && (forall j :: 0 <= j < |s.handlers| ==> !HoldsLock(s.handlers[j]))
      && s' == s.(handlers := s.handlers[i := Locked(s.handlers[i].req)])
    case Send(i) =>
      && i < |s.handlers| && s.handlers[i].Locked?
      && var req := s.handlers[i].req;
         s' == s.(handlers := s.handlers[i := Handler.Sent(req)], toAgent := s.toAgent + Frame(req),
                  requests := s.requests + [req])
    case Answer(buf, reply) =>
      && FrameAtFront(s.toAgent, buf) && NewMessage(buf[0]).New?
      && var d := DecodeAs(NewMessage(buf[0]).kind, buf);
         && d.Decoded? && Answers(d.msg, reply)
         && s' == s.(toAgent := s.toAgent[|buf|..], toMaster := s.toMaster + Frame(reply),
                     replies := s.replies + [reply])
    case Receive(i, buf) =>
      && i < |s.handlers| && s.handlers[i].Sent? && IsRequest(s.handlers[i].req) && FrameAtFront(s.toMaster, buf)
      && var req := s.handlers[i].req;
         s' == s.(handlers := s.handlers[i := Answered(req, Understand(req, buf))],
                  toMaster := s.toMaster[|buf|..])
    case Unlock(i) =>
      && i < |s.handlers| && s.handlers[i].Answered?
      && s' == s.(handlers := s.handlers[i := Idle])
  }

  ghost predicate Moves(s: State, s': State) {
    exists act :: Next(s, act, s')
  }

  // The invariant

  ghost predicate OneHolder(s: State) {
    forall i, j :: 0 <= i < j < |s.handlers| ==> !(HoldsLock(s.handlers[i]) && HoldsLock(s.handlers[j]))
  }

  /** What is on the wire while handler i has, or nobody has, the lock. */
  ghost predicate HandlerInv(s: State, h: Handler) {
    var n := |s.requests|;
    match h
    case Idle => true
    case Wanting(req) => IsRequest(req)
    case Locked(req) => IsRequest(req) && Quiet(s)
    case Sent(req) =>
      && IsRequest(req) && n > 0 && s.requests[n - 1] == req
      && if |s.replies| == n then s.toAgent == [] && s.toMaster == Frame(s.replies[n - 1])
         else |s.replies| == n - 1 && s.toAgent == Frame(req) && s.toMaster == []
    case Answered(req, reply) =>
      && IsRequest(req) && n > 0 && s.requests[n - 1] == req && Quiet(s)
      && reply == Reply(s.replies[n - 1])
  }

  /** Nothing in flight, every request answered. */
  ghost predicate Quiet(s: State) {
    s.toAgent == s.toMaster == [] && |s.requests| == |s.replies|
  }

  ghost predicate Inv(s: State) {
    && OneHolder(s)
    && (forall i :: 0 <= i < |s.handlers| ==> HandlerInv(s, s.handlers[i]))
    && ((forall i :: 0 <= i < |s.handlers| ==> !HoldsLock(s.handlers[i])) ==> Quiet(s))
    && |s.replies| <= |s.requests|
    && (forall k :: 0 <= k < |s.replies| ==> Answers(s.requests[k], s.replies[k]))
  }

  /** A frame at the front of a stream that is one frame is that frame. */
  lemma OnlyFrame(m: Message, buf: seq<byte>)
    requires |Body(m)| < TWO_28 && FrameAtFront(Frame(m), buf)
    ensures buf == Frame(m)
  {
    FrameSizeIff(m);
    assert buf[..5] == Frame(m)[..5];
  }

  /** The master cuts the agent's reply off its stream whole, and decodes it to the reply. */
  lemma ReplyUnderstood(req: Message, reply: Message, buf: seq<byte>)
    requires Answers(req, reply) && FrameAtFront(Frame(reply), buf)
    ensures |buf| == |Frame(reply)| && Understand(req, buf) == Reply(reply)
  {
    OnlyFrame(reply, buf);
    FrameRoundTrip(reply);
  }

  /** The agent cuts a request off its stream whole, and decodes it to the request. */
  lemma RequestUnderstood(req: Message, buf: seq<byte>)
    requires IsRequest(req) && FrameAtFront(Frame(req), buf)
    ensures |buf| == |Frame(req)| && NewMessage(buf[0]) == New(KindOf(req))
    ensures DecodeAs(KindOf(req), buf) == Decoded(req, |Encode(req)|)
  {
    OnlyFrame(req, buf);
    FrameRoundTrip(req);
    FrameIsPadded(req);
    assert Frame(req)[0] == TypeByte(KindOf(req));
    NewOfTypeByte(KindOf(req), 0);
  }

  lemma StepInv(s: State, act: Act, s': State)
    requires Inv(s) && Next(s, act, s')
    ensures Inv(s')
  {
    match act
    case Call(i, req) => LocalStep(s, i, s');
    case Lock(i) => LocalStep(s, i, s');
    case Unlock(i) => LocalStep(s, i, s');
    case Send(i) => SendInv(s, i, s');
    case Receive(i, buf) => ReceiveInv(s, i, buf, s');
    case Answer(buf, reply) => AnswerInv(s, buf, reply, s');
  }

  lemma LocalStep(s: State, i: nat, s': State)
    requires Inv(s) && i < |s.handlers|
    requires Next(s, Lock(i), s') || Next(s, Unlock(i), s') || exists req :: Next(s, Call(i, req), s')
    ensures Inv(s')
  {
    var h := s'.handlers[i];
    assert s' == s.(handlers := s.handlers[i := h]);
    assert HandlerInv(s, s.handlers[i]);
    assert HandlerInv(s', h);
    forall j | 0 <= j < |s.handlers| && j != i ensures HandlerInv(s', s'.handlers[j]) {
      assert HandlerInv(s, s.handlers[j]);
    }
    if !HoldsLock(h) && !HoldsLock(s.handlers[i]) {
      assert forall j :: 0 <= j < |s.handlers| && HoldsLock(s.handlers[j]) ==> HoldsLock(s'.handlers[j]);
    }
  }

  /** Whoever does not have the lock knows nothing about the wire. */
  lemma OthersUnaware(s: State, s': State, i: nat)
    requires Inv(s) && i < |s.handlers| == |s'.handlers| && HoldsLock(s.handlers[i])
    requires forall j :: 0 <= j < |s.handlers| && j != i ==> s'.handlers[j] == s.handlers[j]
    ensures forall j :: 0 <= j < |s.handlers| && j != i ==> HandlerInv(s', s'.handlers[j]) && !HoldsLock(s.handlers[j])
  {
    forall j | 0 <= j < |s.handlers| && j != i
      ensures HandlerInv(s', s'.handlers[j]) && !HoldsLock(s.handlers[j])
    {
      assert HandlerInv(s, s.handlers[j]);
    }
  }

  /** A step of the wire that leaves the holder's place right, and the others alone. */
  lemma Assemble(s: State, s': State, i: nat)
    requires Inv(s) && i < |s.handlers| == |s'.handlers| && HoldsLock(s.handlers[i])
    requires forall j :: 0 <= j < |s.handlers| && j != i ==> s'.handlers[j] == s.handlers[j]
    requires HoldsLock(s'.handlers[i]) && HandlerInv(s', s'.handlers[i])
    requires |s'.replies| <= |s'.requests|
    requires forall k :: 0 <= k < |s'.replies| ==> Answers(s'.requests[k], s'.replies[k])
    ensures Inv(s')
  {
    OthersUnaware(s, s', i);
  }

  lemma SendInv(s: State, i: nat, s': State)
    requires Inv(s) && Next(s, Send(i), s')
    ensures Inv(s')
  {
    assert HandlerInv(s, s.handlers[i]);
    assert s'.toAgent == Frame(s.handlers[i].req) && s'.handlers[i] == Sent(s.handlers[i].req);
    Assemble(s, s', i);
  }

  lemma ReceiveInv(s: State, i: nat, buf: seq<byte>, s': State)
    requires Inv(s) && Next(s, Receive(i, buf), s')
    ensures Inv(s')
  {
    ReceivePlace(s, i, buf, s');
    Assemble(s, s', i);
  }

  lemma ReceivePlace(s: State, i: nat, buf: seq<byte>, s': State)
    requires Inv(s) && Next(s, Receive(i, buf), s')
    ensures HandlerInv(s', s'.handlers[i])
  {
    var req, reply := ReplyOnTheWay(s, i);
    ReplyUnderstood(req, reply, buf);
    assert s'.toMaster == [];
  }

  /** Bytes on the way to the master are the reply to the lock holder's request. */
  lemma ReplyOnTheWay(s: State, i: nat) returns (req: Message, reply: Message)
    requires Inv(s) && i < |s.handlers| && s.handlers[i].Sent? && s.toMaster != []
    ensures var n := |s.requests|;
            && |s.replies| == n > 0 && req == s.handlers[i].req == s.requests[n - 1] && reply == s.replies[n - 1]
    ensures Answers(req, reply) && s.toMaster == Frame(reply) && s.toAgent == []
  {
    assert HandlerInv(s, s.handlers[i]);
    req, reply := s.requests[|s.requests| - 1], s.replies[|s.replies| - 1];
    assert Answers(s.requests[|s.replies| - 1], reply);
  }

  lemma AnswerInv(s: State, buf: seq<byte>, reply: Message, s': State)
    requires Inv(s) && Next(s, Answer(buf, reply), s')
    ensures Inv(s')
  {
    var i := AnswerPlace(s, buf, reply, s');
    Assemble(s, s', i);
  }

  /** Bytes on the way to the agent are the lock holder's request, still unanswered. */
  lemma PendingRequest(s: State) returns (i: nat)
    requires Inv(s) && s.toAgent != []
    ensures i < |s.handlers| && s.handlers[i].Sent? && IsRequest(s.handlers[i].req)
    ensures s.toAgent == Frame(s.handlers[i].req) && s.toMaster == []
    ensures |s.requests| == |s.replies| + 1 && s.requests[|s.replies|] == s.handlers[i].req
  {
    i :| 0 <= i < |s.handlers| && HoldsLock(s.handlers[i]);
    assert HandlerInv(s, s.handlers[i]);
  }

  lemma AnswerPlace(s: State, buf: seq<byte>, reply: Message, s': State) returns (i: nat)
    requires Inv(s) && Next(s, Answer(buf, reply), s')
    ensures i < |s.handlers| && HoldsLock(s.handlers[i]) && HandlerInv(s', s.handlers[i])
    ensures |s'.replies| <= |s'.requests|
    ensures forall k :: 0 <= k < |s'.replies| ==> Answers(s'.requests[k], s'.replies[k])
  {
    i := PendingRequest(s);
    RequestUnderstood(s.handlers[i].req, buf);
    assert s'.toAgent == [] && s'.toMaster == Frame(reply);
    OneMoreAnswer(s.requests, s.replies, reply);
  }

  lemma OneMoreAnswer(requests: seq<Message>, replies: seq<Message>, reply: Message)
    requires |replies| < |requests| && Answers(requests[|replies|], reply)
    requires forall k :: 0 <= k < |replies| ==> Answers(requests[k], replies[k])
    ensures forall k :: 0 <= k < |replies + [reply]| ==> Answers(requests[k], (replies + [reply])[k])
  {
  }

  // Every run

  ghost predicate Reachable(s: State) {
    Runs.Reachable(Init, Moves, s)
  }

  lemma ReachableInv(s: State)
    requires Reachable(s)
    ensures Inv(s)
  {
    forall x: State, y: State | Inv(x) && Moves(x, y) ensures Inv(y) {
      var act :| Next(x, act, y);
      StepInv(x, act, y);
    }
    Runs.Invariant(Init, Moves, Inv, s);
  }

  /** With any number of handlers: one lock holder at most, the k-th reply answers the k-th
      request, and bytes are on the wire, in one direction, only between the holder's write
      and its read. */
  lemma RepliesMatchRequests(s: State)
    requires Reachable(s)
    ensures OneHolder(s)
    ensures |s.replies| <= |s.requests| <= |s.replies| + 1
    ensures forall k :: 0 <= k < |s.replies| ==> Answers(s.requests[k], s.replies[k])
    ensures s.toAgent == [] || s.toMaster == []
    ensures s.toAgent != [] || s.toMaster != [] ==>
              exists i :: 0 <= i < |s.handlers| && s.handlers[i].Sent?
  {
    ReachableInv(s);
    if i :| 0 <= i < |s.handlers| && HoldsLock(s.handlers[i]) {
      assert HandlerInv(s, s.handlers[i]);
    }
  }

  /** A handler that has its answer has the agent's answer to its own request, and the
      decoder's type check passed. */
  lemma AnsweredCorrectly(s: State, i: nat)
    requires Reachable(s) && i < |s.handlers| && s.handlers[i].Answered?
    ensures s.handlers[i].reply.Reply? && Answers(s.handlers[i].req, s.handlers[i].reply.m)
  {
    ReachableInv(s);
    assert HandlerInv(s, s.handlers[i]);
  }

  // Every list of calls can be answered

  /** A call by one of the handlers, and the agent's answer to it. */
  datatype Exchange = Exchange(who: nat, req: Message, reply: Message)

  lemma Go(s: State, act: Act, s': State)
    requires Reachable(s) && Next(s, act, s')
    ensures Reachable(s')
  {
    assert Moves(s, s');
    Runs.Extend(Init, Moves, s, s');
  }

  predicate AllIdle(s: State) {
    forall i :: 0 <= i < |s.handlers| ==> s.handlers[i] == Idle
  }

  /** A frame is at the front of the stream that holds it alone. */
  lemma FrameAlone(m: Message)
    requires |Body(m)| < TWO_28
    ensures FrameAtFront(Frame(m), Frame(m)) && Frame(m)[|Frame(m)|..] == []
  {
    FrameSizeIff(m);
  }

  /** A handler takes the lock and writes its request. */
  lemma Requests(s: State, i: nat, req: Message) returns (s': State)
    requires Reachable(s) && AllIdle(s) && Quiet(s) && i < |s.handlers| && IsRequest(req)
    ensures Reachable(s')
    ensures s' == s.(handlers := s.handlers[i := Handler.Sent(req)], toAgent := Frame(req),
                     requests := s.requests + [req])
  {
    var s1 := s.(handlers := s.handlers[i := Wanting(req)]);
    Go(s, Call(i, req), s1);
    var s2 := s1.(handlers := s1.handlers[i := Locked(req)]);
    Go(s1, Lock(i), s2);
    assert [] + Frame(req) == Frame(req);
    s' := s2.(handlers := s2.handlers[i := Handler.Sent(req)], toAgent := s2.toAgent + Frame(req),
              requests := s2.requests + [req]);
    Go(s2, Send(i), s');
    assert s'.handlers == s.handlers[i := Handler.Sent(req)];
  }

  /** The agent reads the request and writes its reply. */
  lemma Replies(s: State, req: Message, reply: Message) returns (s': State)
    requires Reachable(s) && s.toAgent == Frame(req) && s.toMaster == [] && Answers(req, reply)
    ensures Reachable(s') && s' == s.(toAgent := [], toMaster := Frame(reply), replies := s.replies + [reply])
  {
    FrameAlone(req);
    RequestUnderstood(req, Frame(req));
    assert [] + Frame(reply) == Frame(reply);
    s' := s.(toAgent := s.toAgent[|Frame(req)|..], toMaster := s.toMaster + Frame(reply),
             replies := s.replies + [reply]);
    Go(s, Answer(Frame(req), reply), s');
  }

  /** The handler reads the reply and gives the lock back. */
  lemma Concludes(s: State, i: nat, req: Message, reply: Message) returns (s': State)
    requires Reachable(s) && i < |s.handlers| && s.handlers[i] == Handler.Sent(req) && Answers(req, reply)
    requires s.toMaster == Frame(reply)
    ensures Reachable(s') && s' == s.(handlers := s.handlers[i := Idle], toMaster := [])
  {
    FrameAlone(reply);
    var s1 := s.(handlers := s.handlers[i := Answered(req, Understand(req, Frame(reply)))],
                 toMaster := s.toMaster[|Frame(reply)|..]);
    Go(s, Receive(i, Frame(reply)), s1);
    s' := s1.(handlers := s1.handlers[i := Idle]);
    Go(s1, Unlock(i), s');
    assert s'.handlers == s.handlers[i := Idle];
  }

  function Asked(calls: seq<Exchange>): seq<Message> {
    seq(|calls|, k requires 0 <= k < |calls| => calls[k].req)
  }

  function Told(calls: seq<Exchange>): seq<Message> {
    seq(|calls|, k requires 0 <= k < |calls| => calls[k].reply)
  }

  /** For every list of calls, whoever makes each and whatever the agent answers, some run
      ends with every request answered, by the answer given, and every handler idle. */
  lemma {:induction false} AllCanBeAnswered(n: nat, calls: seq<Exchange>) returns (s: State)
    requires forall k :: 0 <= k < |calls| ==> calls[k].who < n && Answers(calls[k].req, calls[k].reply)
    ensures Reachable(s) && |s.handlers| == n && AllIdle(s) && Quiet(s)
    ensures s.requests == Asked(calls) && s.replies == Told(calls)
    decreases |calls|
  {
    if calls == [] {
      s := State(seq(n, _ => Idle), [], [], [], []);
      Runs.Start(Init, Moves, s);
    } else {
      var k := |calls| - 1;
      var Exchange(who, req, reply) := calls[k];
      var s0 := AllCanBeAnswered(n, calls[..k]);
      s := IsAnswered(s0, who, req, reply);
      OneCallMore(calls);
    }
  }

  lemma IsAnswered(s: State, i: nat, req: Message, reply: Message) returns (s': State)
    requires Reachable(s) && AllIdle(s) && Quiet(s) && i < |s.handlers| && Answers(req, reply)
    ensures Reachable(s') && |s'.handlers| == |s.handlers| && AllIdle(s') && Quiet(s')
    ensures s'.requests == s.requests + [req] && s'.replies == s.replies + [reply]
  {
    var s1 := Requests(s, i, req);
    var s2 := Replies(s1, req, reply);
    s' := Concludes(s2, i, req, reply);
  }

  lemma OneCallMore(calls: seq<Exchange>)
    requires calls != []
    ensures var k := |calls| - 1;
            Asked(calls) == Asked(calls[..k]) + [calls[k].req] && Told(calls) == Told(calls[..k]) + [calls[k].reply]
  {
  }
}
