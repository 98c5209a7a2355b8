/** The steps the agent's receiver and processor can always take next, in any run they are
    part of: a byte received, a wait that is over, a message handed on, a frame committed. */
module Drives {
  import opened RingBytes
  import opened Wire
  import opened RingProtocol
  import opened EndToEnd
  import Runs

  // Steps of a run

  /** Some states, with every one of them whatever a step leads to. */
  type Places = Sys -> bool

  ghost predicate Closed(ms: seq<Message>, at: Places) {
    && Sendable(ms)
    && (forall s {:trigger at(s), SysInv(s, ms)} :: at(s) ==> SysInv(s, ms))
    && (forall s, s' {:trigger at(s), EndToEnd.Moves(s, s')} :: at(s) && EndToEnd.Moves(s, s') ==> at(s'))
  }

  lemma Sound(ms: seq<Message>, at: Places, s: Sys)
    requires Closed(ms, at) && at(s)
    ensures SysInv(s, ms)
  {
  }

  lemma Go(ms: seq<Message>, at: Places, s: Sys, act: Act, s': Sys)
    requires Closed(ms, at) && at(s) && EndToEnd.Next(s, act, s')
    ensures at(s')
  {
    assert EndToEnd.Moves(s, s');
  }

  /** The receiver takes a step of ReadFrom. */
  lemma Receives(ms: seq<Message>, at: Places, s: Sys, step: Step, ring: State) returns (s': Sys)
    requires Closed(ms, at) && at(s) && s.receiving && !s.ring.done
    requires s.ring.size > 0 && |s.ring.buf| == s.ring.size
    requires ReadFromStep(s, step) && ProducerNext(s.ring, step, ring)
    ensures s' == s.(ring := ring, net := if step.PFill? then s.net[1..] else s.net)
    ensures at(s')
  {
    s' := s.(ring := ring, net := if step.PFill? then s.net[1..] else s.net);
    Go(ms, at, s, Receive(step), s');
  }

  /** Nothing but the receiver's side of the ring has changed, and it is idle again. */
  predicate Received(s: Sys, s': Sys, n: nat) {
    && n <= |s.net| && s'.net == s.net[n..] && s'.receiving && s'.proc == s.proc && s'.handled == s.handled
    && s'.ring.size == s.ring.size && s'.ring.c == s.ring.c && s'.ring.cseq == s.ring.cseq
    && s'.ring.pseq == s.ring.pseq + n && s'.ring.p == PIdle && !s'.ring.plocked && !s'.ring.done
  }

  /** Open, the receiver idle and a block of room in the ring. */
  predicate CanReceive(s: Sys) {
    && s.receiving && !s.ring.done && s.ring.p == PIdle && !s.ring.plocked && s.net != []
    && s.ring.pseq - s.ring.cseq + BLOCK <= s.ring.size
  }

  /** The wait for room, from the cached cursor or a fresh one. */
  lemma Reserves(ms: seq<Message>, at: Places, s: Sys) returns (s': Sys)
    requires Closed(ms, at) && at(s) && CanReceive(s)
    ensures at(s') && s'.ring.pseq + BLOCK <= s'.ring.gate + s'.ring.size
    ensures s' == s.(ring := s.ring.(gate := s'.ring.gate, p := PGranted(ForSlice, BLOCK, s.ring.pseq, [])))
  {
    Sound(ms, at, s);
    var pseq := s.ring.pseq;
    if pseq + BLOCK > s.ring.gate + s.ring.size {
      var s1 := Receives(ms, at, s, PBegin(ForSlice, BLOCK),
                         s.ring.(p := PLocked(ForSlice, BLOCK, pseq), plocked := true));
      s' := Receives(ms, at, s1, PLoad,
                     s1.ring.(p := PGranted(ForSlice, BLOCK, pseq, []), gate := s.ring.cseq, plocked := false));
    } else {
      s' := Receives(ms, at, s, PBegin(ForSlice, BLOCK), s.ring.(p := PGranted(ForSlice, BLOCK, pseq, [])));
    }
  }

  lemma RoomForOne(size: nat, pseq: nat)
    requires size > 0
    ensures Room(size, ForSlice, BLOCK, pseq) > 0
  {
  }

  /** One byte from the connection into the ring. */
  lemma ReceivesOne(ms: seq<Message>, at: Places, s: Sys) returns (s': Sys)
    requires Closed(ms, at) && at(s) && CanReceive(s)
    ensures at(s') && Received(s, s', 1)
  {
    var s1 := Reserves(ms, at, s);
    var s2 := ReadsByte(ms, at, s1);
    s' := Publishes(ms, at, s2);
  }

  lemma ReadsByte(ms: seq<Message>, at: Places, s: Sys) returns (s': Sys)
    requires Closed(ms, at) && at(s) && s.receiving && !s.ring.done && s.net != []
    requires s.ring.p == PGranted(ForSlice, BLOCK, s.ring.pseq, [])
    ensures at(s')
    ensures s' == s.(net := s.net[1..], ring := s.ring.(buf := s'.ring.buf,
                     p := PGranted(ForSlice, BLOCK, s.ring.pseq, [s.net[0]])))
  {
    Sound(ms, at, s);
    var r, b, pseq := s.ring, s.net[0], s.ring.pseq;
    RoomForOne(r.size, pseq);
    assert [] + [b] == [b] && pseq + 0 == pseq;
    s' := Receives(ms, at, s, PFill(b), r.(buf := r.buf[Cell(pseq, r.size) := b], p := r.p.(staged := [b])));
  }

  /** Commits all that has been read into the slice. */
  lemma Publishes(ms: seq<Message>, at: Places, s: Sys) returns (s': Sys)
    requires Closed(ms, at) && at(s) && s.receiving && !s.ring.done
    requires s.ring.p.PGranted? && s.ring.p.staged != []
    ensures at(s')
    ensures s' == s.(ring := s.ring.(pseq := s.ring.pseq + |s.ring.p.staged|,
                                     produced := s.ring.produced + s.ring.p.staged, p := PIdle))
  {
    Sound(ms, at, s);
    var data := s.ring.p.staged;
    assert data[..|data|] == data;
    RoomInside(s.ring.size, s.ring.p.use, s.ring.p.n, s.ring.p.ppos);
    var s1 := Receives(ms, at, s, PCommit(|data|), s.ring.(p := PStore(s.ring.pseq, data)));
    s' := PublishesStored(ms, at, s1);
  }

  lemma RoomInside(size: nat, use: Use, n: nat, ppos: nat)
    requires size > 0
    ensures Room(size, use, n, ppos) <= n
  {
  }

  lemma PublishesStored(ms: seq<Message>, at: Places, s: Sys) returns (s': Sys)
    requires Closed(ms, at) && at(s) && s.receiving && !s.ring.done && s.ring.p.PStore?
    ensures at(s')
    ensures s' == s.(ring := s.ring.(pseq := s.ring.pseq + |s.ring.p.data|,
                                     produced := s.ring.produced + s.ring.p.data, p := PIdle))
  {
    Sound(ms, at, s);
    var data := s.ring.p.data;
    var s1 := Receives(ms, at, s, PPublish,
                       s.ring.(pseq := s.ring.pseq + |data|, produced := s.ring.produced + data, p := PNotify));
    s' := Receives(ms, at, s1, PBroadcast, s1.ring.(p := PIdle));
  }

  lemma {:induction false} ReceivesMany(ms: seq<Message>, at: Places, s: Sys, n: nat) returns (s': Sys)
    requires Closed(ms, at) && at(s) && n <= |s.net|
    requires s.receiving && !s.ring.done && s.ring.p == PIdle && !s.ring.plocked
    requires n > 0 ==> s.ring.pseq - s.ring.cseq + n - 1 + BLOCK <= s.ring.size
    ensures at(s') && Received(s, s', n)
    decreases n
  {
    if n == 0 {
      s' := s;
    } else {
      var s1 := ReceivesOne(ms, at, s);
      s' := ReceivesMany(ms, at, s1, n - 1);
    }
  }

  /** The processor takes a step of its own on the ring. */
  lemma Processes(ms: seq<Message>, at: Places, s: Sys, step: Step, ring: State, proc: Proc) returns (s': Sys)
    requires Closed(ms, at) && at(s)
    requires s.ring.size > 0 && |s.ring.buf| == s.ring.size
    requires ProcessorNext(s, step, s.(ring := ring, proc := proc))
    ensures s' == s.(ring := ring, proc := proc) && at(s')
  {
    s' := s.(ring := ring, proc := proc);
    Go(ms, at, s, Process(step), s');
  }

  /** The bytes of a wait that goes round the end of the array are copied out one by one. */
  lemma {:induction false} CopiesOut(ms: seq<Message>, at: Places, s: Sys) returns (s': Sys)
    requires Closed(ms, at) && at(s) && Asking(s.proc, true)
    requires s.ring.c.CCopy? && s.ring.c.op.OpWait? && |s.ring.c.out| <= s.ring.c.m
    ensures at(s')
    ensures exists bytes :: s' == s.(ring := s.ring.(c := CHold(s.ring.c.cpos, s.ring.c.m, Tmp(bytes))))
    decreases s.ring.c.m - |s.ring.c.out|
  {
    Sound(ms, at, s);
    var c := s.ring.c;
    if |c.out| == c.m {
      s' := Processes(ms, at, s, CCopied, s.ring.(c := CHold(c.cpos, c.m, Tmp(c.out))), s.proc);
    } else {
      var more := c.out + [s.ring.buf[Cell(c.cpos + |c.out|, s.ring.size)]];
      var s1 := Processes(ms, at, s, CCopyByte, s.ring.(c := c.(out := more)), s.proc);
      s' := CopiesOut(ms, at, s1);
    }
  }

  /** The processor holds the first n bytes of the ring, and nothing else has changed. */
  predicate Held(s: Sys, s': Sys, n: nat) {
    && (s'.proc.PeekSize? || s'.proc.PeekBody?) && (s.proc.PeekSize? || s.proc.PeekBody?)
    && s'.proc == s.proc.(asked := true)
    && s'.ring.c.CHold? && s'.ring.c.m == n
    && s' == s.(proc := s'.proc, ring := s.ring.(c := s'.ring.c))
  }

  /** ReadWait, when the bytes are there. */
  lemma ReadsWait(ms: seq<Message>, at: Places, s: Sys) returns (s': Sys)
    requires Closed(ms, at) && at(s) && Asking(s.proc, false)
    requires s.ring.cseq + Wanted(s.proc) <= s.ring.pseq
    ensures at(s') && Held(s, s', Wanted(s.proc))
  {
    Sound(ms, at, s);
    var n, cseq := Wanted(s.proc), s.ring.cseq;
    var s1 := Processes(ms, at, s, CBegin(OpWait(n)), s.ring.(c := CLoaded(OpWait(n), cseq, s.ring.pseq)),
                        s.proc.(asked := true));
    s' := Proceeds(ms, at, s1);
  }

  /** The rest of ReadWait, once the bytes are there on the cursors it has loaded. */
  lemma Proceeds(ms: seq<Message>, at: Places, s: Sys) returns (s': Sys)
    requires Closed(ms, at) && at(s) && Asking(s.proc, true) && s.ring.c.CLoaded? && !MustWait(s.ring.c)
    ensures at(s') && Held(s, s', Wanted(s.proc))
  {
    Sound(ms, at, s);
    var n, cseq := Wanted(s.proc), s.ring.cseq;
    if Cell(cseq, s.ring.size) + n > s.ring.size {
      var s1 := Processes(ms, at, s, CProceed, s.ring.(c := CCopy(OpWait(n), cseq, n, [])), s.proc);
      s' := CopiesOut(ms, at, s1);
    } else {
      s' := Processes(ms, at, s, CProceed, s.ring.(c := CHold(cseq, n, Alias)), s.proc);
    }
  }

  /** What follows a ReadWait of the header: one more byte, or the size. */
  lemma KnowsMore(ms: seq<Message>, at: Places, s: Sys) returns (s': Sys)
    requires Closed(ms, at) && at(s) && s.proc.PeekSize? && s.proc.asked && s.ring.c.CHold?
    ensures at(s') && s' == s.(proc := s'.proc)
    ensures s.proc.cnt < 5 ==> s'.proc == PeekSize(s.proc.cnt + 1, false)
    ensures s.proc.cnt == 5 ==> s'.proc.PeekBody? && !s'.proc.asked
    ensures s'.proc.PeekBody? ==> |s.handled| < |ms| && s'.proc.total == Len(ms[|s.handled|])
  {
    Sound(ms, at, s);
    SeenIsProduced(s.ring);
    s' := s.(proc := if s.proc.cnt < 5 then PeekSize(s.proc.cnt + 1, false)
                     else PeekBody(Seen(s.ring)[0], FrameSize(Seen(s.ring)), false));
    Go(ms, at, s, SizeKnown, s');
    Sound(ms, at, s');
  }

  lemma SizeGrows(ms: seq<Message>, at: Places, s: Sys) returns (s': Sys)
    requires Closed(ms, at) && at(s) && s.proc.PeekSize? && !s.proc.asked && s.proc.cnt <= 5
    requires s.ring.cseq + 5 <= s.ring.pseq
    ensures at(s') && s' == s.(proc := s'.proc, ring := s.ring.(c := s'.ring.c))
    ensures s.proc.cnt < 5 ==> s'.proc == PeekSize(s.proc.cnt + 1, false)
    ensures s.proc.cnt == 5 ==> s'.proc.PeekBody? && !s'.proc.asked
    ensures s'.proc.PeekBody? ==> |s.handled| < |ms| && s'.proc.total == Len(ms[|s.handled|])
  {
    var s1 := ReadsWait(ms, at, s);
    s' := KnowsMore(ms, at, s1);
  }

  /** peekMessageSize, when five bytes of the next message's frame are there. */
  lemma FindsSize(ms: seq<Message>, at: Places, s: Sys) returns (s': Sys)
    requires Closed(ms, at) && at(s) && s.proc == PeekSize(2, false)
    requires s.ring.cseq + 5 <= s.ring.pseq
    ensures at(s') && s'.proc.PeekBody? && !s'.proc.asked
    ensures |s.handled| < |ms| && s'.proc.total == Len(ms[|s.handled|])
    ensures s' == s.(proc := s'.proc, ring := s.ring.(c := s'.ring.c))
  {
    var s1 := SizeGrows(ms, at, s);
    var s2 := SizeGrows(ms, at, s1);
    var s3 := SizeGrows(ms, at, s2);
    s' := SizeGrows(ms, at, s3);
  }

  /** What follows the ReadWait of a frame: its message is handed on. */
  lemma HandsOver(ms: seq<Message>, at: Places, s: Sys) returns (s': Sys)
    requires Closed(ms, at) && at(s) && s.proc.PeekBody? && s.proc.asked && s.ring.c.CHold?
    ensures at(s') && s'.proc == Handling(s.proc.total)
    ensures |s.handled| < |ms| && s'.handled == s.handled + [ms[|s.handled|]]
    ensures s' == s.(proc := s'.proc, handled := s'.handled)
  {
    Sound(ms, at, s);
    s' := match NewMessage(s.proc.mtype)
          case UnknownType => s.(proc := Stopped)
          case New(k) => match DecodeAs(k, Seen(s.ring))
            case Decoded(m, _) => s.(handled := s.handled + [m], proc := Handling(s.proc.total))
            case _ => s.(proc := Stopped);
    DecodesNext(s, s', ms);
    Go(ms, at, s, EndToEnd.Decode, s');
  }

  lemma Stores(ms: seq<Message>, at: Places, s: Sys) returns (s': Sys, seen: seq<byte>)
    requires Closed(ms, at) && at(s) && s.proc.Handling?
    ensures at(s') && |seen| == s.proc.total && s.ring.size == |s.ring.buf| > 0
    ensures s' == s.(ring := s.ring.(c := CStore(s.ring.cseq, seen)), proc := Committing(s.proc.total))
  {
    Sound(ms, at, s);
    SeenIsProduced(s.ring);
    var total := s.proc.total;
    seen := Seen(s.ring);
    assert seen[..total] == seen;
    s' := Processes(ms, at, s, CCommit(total), s.ring.(c := CStore(s.ring.cseq, seen)), Committing(total));
  }

  /** The store and the broadcast of ReadCommit; the receiver wakes if it slept. */
  lemma Commits(ms: seq<Message>, at: Places, s: Sys) returns (s': Sys)
    requires Closed(ms, at) && at(s) && s.proc.Committing? && s.ring.c.CStore?
    requires s.ring.p == PIdle || s.ring.p.PParked?
    requires !s.ring.plocked
    ensures at(s') && s'.proc == PeekSize(2, false) && s'.ring.c == CIdle
    ensures var r := Woken(s.ring).(c := CIdle, cseq := s.ring.c.cpos + |s.ring.c.bytes|,
                                    delivered := s.ring.delivered + s.ring.c.bytes);
            s' == s.(proc := PeekSize(2, false), ring := r)
  {
    Sound(ms, at, s);
    var c := s.ring.c;
    var s1 := Processes(ms, at, s, CPublish,
                        s.ring.(cseq := c.cpos + |c.bytes|, delivered := s.ring.delivered + c.bytes, c := CNotify),
                        s.proc);
    s' := Broadcasts(ms, at, s1);
  }

  lemma Broadcasts(ms: seq<Message>, at: Places, s: Sys) returns (s': Sys)
    requires Closed(ms, at) && at(s) && s.proc.Committing? && s.ring.c.CNotify? && !s.ring.plocked
    ensures at(s') && s' == s.(proc := PeekSize(2, false), ring := Woken(s.ring).(c := CIdle))
  {
    Sound(ms, at, s);
    s' := Processes(ms, at, s, CBroadcast, Woken(s.ring).(c := CIdle), PeekSize(2, false));
  }

  // From any place on

  /** Open, the receiver and the processor at work. */
  predicate Live(s: Sys) { s.receiving && !s.ring.done && !s.proc.Stopped? }

  /** The receiver between two blocks, or asleep. */
  predicate Calm(s: Sys) { (s.ring.p == PIdle || s.ring.p.PParked?) && !s.ring.plocked }

  /** The consumer's side is as it was, and no byte left the connection for another place
      than the ring. */
  predicate Aside(s: Sys, s': Sys) {
    && s'.proc == s.proc && s'.handled == s.handled && s'.receiving == s.receiving
    && s'.ring.size == s.ring.size && s'.ring.done == s.ring.done
    && s'.ring.c == s.ring.c && s'.ring.cseq == s.ring.cseq
  }

  /** From wherever it is, the receiver finishes its block, or goes to sleep. */
  lemma Calms(ms: seq<Message>, at: Places, s: Sys) returns (s': Sys)
    requires Closed(ms, at) && at(s) && Live(s)
    ensures at(s') && Calm(s') && Aside(s, s')
  {
    Sound(ms, at, s);
    match s.ring.p
    case PIdle => s' := s;
    case PParked(_, _, _) => s' := s;
    case PRefused(_, _, _) => s' := FallsAsleep(ms, at, s);
    case PLocked(_, _, _) => s' := LooksAgain(ms, at, s);
    case PGranted(_, _, _, _) => s' := GivesUp(ms, at, s);
    case PStore(_, _) => s' := PublishesStored(ms, at, s);
    case PNotify => s' := Receives(ms, at, s, PBroadcast, s.ring.(p := PIdle));
  }

  lemma FallsAsleep(ms: seq<Message>, at: Places, s: Sys) returns (s': Sys)
    requires Closed(ms, at) && at(s) && Live(s) && s.ring.p.PRefused?
    ensures at(s') && Calm(s') && Aside(s, s')
  {
    Sound(ms, at, s);
    var p := s.ring.p;
    s' := Receives(ms, at, s, PWait, s.ring.(p := PParked(p.use, p.n, p.ppos), plocked := false));
  }

  lemma LooksAgain(ms: seq<Message>, at: Places, s: Sys) returns (s': Sys)
    requires Closed(ms, at) && at(s) && Live(s) && s.ring.p.PLocked?
    ensures at(s') && Calm(s') && Aside(s, s')
  {
    Sound(ms, at, s);
    var p := s.ring.p;
    if p.ppos + p.n > s.ring.cseq + s.ring.size {
      var s1 := Receives(ms, at, s, PLoad, s.ring.(p := PRefused(p.use, p.n, p.ppos)));
      s' := FallsAsleep(ms, at, s1);
    } else {
      var s1 := Receives(ms, at, s, PLoad,
                         s.ring.(p := PGranted(p.use, p.n, p.ppos, []), gate := s.ring.cseq, plocked := false));
      s' := GivesUp(ms, at, s1);
    }
  }

  /** The Read returns with what it has read so far. */
  lemma GivesUp(ms: seq<Message>, at: Places, s: Sys) returns (s': Sys)
    requires Closed(ms, at) && at(s) && Live(s) && s.ring.p.PGranted?
    ensures at(s') && Calm(s') && Aside(s, s')
  {
    Sound(ms, at, s);
    if s.ring.p.staged == [] {
      s' := Receives(ms, at, s, PAbandon, s.ring.(p := PIdle));
    } else {
      s' := Publishes(ms, at, s);
    }
  }
}
