/** What the agent's receiver and processor can come to: every message handled, when each
    frame is short enough for the ring; or both asleep for good, when some frame is not. */
module Progress {
  import opened RingBytes
  import opened Wire
  import opened RingProtocol
  import opened EndToEnd
  import opened Drives
  import Runs

  /** The longest frame that the receiver, who waits for a block of room, always gets into a
      ring of this size. */
  function Longest(size: nat): int { size - BLOCK + 1 }

  /** Receiver and processor both sleep, each on the cursors as they are. */
  predicate Sleeping(s: Sys) {
    Asking(s.proc, true) && Deadlocked(s.ring, Wanted(s.proc))
  }

  // Short frames: never both asleep

  /** The receiver sleeps for want of a block of room, the processor for want of bytes. */
  predicate BothWait(s: Sys) {
    && !s.ring.done && s.ring.p.PParked? && Asking(s.proc, true) && s.ring.c.CLoaded?
    && s.ring.cseq + Wanted(s.proc) > s.ring.pseq
  }

  /** When both wait, the processor waits for a frame longer than the bound, the next one. */
  lemma WaitsForLongFrame(size: nat, ms: seq<Message>, s: Sys)
    requires 2 * BLOCK <= size && Sendable(ms) && EndToEnd.Reachable(size, ms, s) && BothWait(s)
    ensures |s.handled| < |ms| && s.handled == ms[..|s.handled|]
    ensures Longest(size) < Len(ms[|s.handled|]) <= size
    ensures forall i :: 0 <= i < |s.handled| ==> Len(ms[i]) <= size
  {
    EndToEnd.ReachableInv(size, ms, s);
    SizeKept(size, ms, s);
  }

  lemma SizeKept(size: nat, ms: seq<Message>, s: Sys)
    requires EndToEnd.Reachable(size, ms, s)
    ensures s.ring.size == size
  {
    var init, inv := EndToEnd.Starts(size, ms), (x: Sys) => x.ring.size == size;
    forall x: Sys, y: Sys | inv(x) && EndToEnd.Moves(x, y) ensures inv(y) { SizeStep(x, y); }
    Runs.Invariant(init, EndToEnd.Moves, inv, s);
  }

  lemma SizeStep(s: Sys, s': Sys)
    requires EndToEnd.Moves(s, s')
    ensures s'.ring.size == s.ring.size
  {
    var act :| EndToEnd.Next(s, act, s');
    match act
    case Receive(step) => ProducerFrame(s.ring, step, s'.ring);
    case Process(step) => ConsumerFrame(s.ring, step, s'.ring);
    case _ =>
  }

  // The places of all runs

  /** Whatever a run can come to. */
  ghost function Anywhere(size: nat, ms: seq<Message>): Places {
    s => EndToEnd.Reachable(size, ms, s) && s.ring.size == size
  }

  lemma AnywhereIsClosed(size: nat, ms: seq<Message>)
    requires Sendable(ms)
    ensures Closed(ms, Anywhere(size, ms))
  {
    forall s | Anywhere(size, ms)(s) ensures SysInv(s, ms) { EndToEnd.ReachableInv(size, ms, s); }
    forall s, s' | Anywhere(size, ms)(s) && EndToEnd.Moves(s, s') ensures Anywhere(size, ms)(s') {
      Runs.Extend(EndToEnd.Starts(size, ms), EndToEnd.Moves, s, s');
      SizeKept(size, ms, s');
    }
  }

  // Whole frames

  /** k messages have been handled, and the rest has not left the connection. */
  ghost predicate Clean(ms: seq<Message>, at: Places, s: Sys, k: nat) {
    && at(s) && k <= |ms| && s.handled == ms[..k] && s.net == Frames(ms[k..])
    && s.receiving && s.ring.p == PIdle && !s.ring.plocked && !s.ring.done
    && s.proc == PeekSize(2, false) && s.ring.pseq == s.ring.cseq
  }

  lemma StartsClean(size: nat, ms: seq<Message>) returns (s: Sys)
    requires size > 0
    ensures Clean(ms, Anywhere(size, ms), s, 0)
  {
    var ring := State(size, seq(size, _ => 0), 0, 0, 0, false, false, PIdle, CIdle, [], []);
    s := Sys(ring, Frames(ms), true, PeekSize(2, false), []);
    assert ms[0..] == ms && ms[..0] == [];
    Runs.Start(EndToEnd.Starts(size, ms), EndToEnd.Moves, s);
  }

  lemma FirstOfRest(ms: seq<Message>, k: nat)
    requires k < |ms|
    ensures Frames(ms[k..]) == Frame(ms[k]) + Frames(ms[k + 1..]) && |Frame(ms[k])| == Len(ms[k])
    ensures Frames(ms[k..])[Len(ms[k])..] == Frames(ms[k + 1..]) && ms[..k] + [ms[k]] == ms[..k + 1]
  {
    assert ms[k..][0] == ms[k] && ms[k..][1..] == ms[k + 1..];
  }

  lemma HandlesOne(ms: seq<Message>, at: Places, s: Sys, k: nat) returns (s': Sys)
    requires Closed(ms, at) && Clean(ms, at, s, k)
    requires k < |ms| && Len(ms[k]) <= Longest(s.ring.size)
    ensures Clean(ms, at, s', k + 1) && s'.ring.size == s.ring.size
  {
    FirstOfRest(ms, k);
    var s1 := ReceivesMany(ms, at, s, Len(ms[k]));
    var s2 := FindsSize(ms, at, s1);
    var s3 := ReadsWait(ms, at, s2);
    var s4 := HandsOver(ms, at, s3);
    Sound(ms, at, s4);
    var s5, seen := Stores(ms, at, s4);
    s' := Commits(ms, at, s5);
  }

  lemma {:induction false} HandlesFirst(size: nat, ms: seq<Message>, k: nat) returns (s: Sys)
    requires size > 0 && Sendable(ms) && k <= |ms| && forall i :: 0 <= i < k ==> Len(ms[i]) <= Longest(size)
    ensures Clean(ms, Anywhere(size, ms), s, k) && s.ring.size == size
    decreases k
  {
    AnywhereIsClosed(size, ms);
    if k == 0 {
      s := StartsClean(size, ms);
    } else {
      var before := HandlesFirst(size, ms, k - 1);
      s := HandlesOne(ms, Anywhere(size, ms), before, k - 1);
    }
  }

  // Short frames: no dead ends

  predicate AllShort(size: nat, ms: seq<Message>) {
    forall i :: 0 <= i < |ms| ==> Len(ms[i]) <= Longest(size)
  }

  lemma {:induction false} FramesUpTo(ms: seq<Message>, h: nat)
    requires h < |ms|
    ensures |Frames(ms[..h])| + Len(ms[h]) <= |Frames(ms)|
  {
    FramesSplit(ms, h);
  }

  /** The receiver brings the bytes the processor waits for. */
  lemma Supplies(ms: seq<Message>, at: Places, s: Sys, n: nat) returns (s': Sys)
    requires Closed(ms, at) && at(s) && Live(s) && Calm(s) && !s.ring.c.CNotify?
    requires n <= Longest(s.ring.size) && s.ring.cseq + n <= |Frames(ms)|
    ensures at(s') && Live(s') && Calm(s') && Aside(s, s') && s'.ring.cseq + n <= s'.ring.pseq
  {
    Sound(ms, at, s);
    if s.ring.cseq + n <= s.ring.pseq {
      s' := s;
    } else {
      s' := ReceivesMany(ms, at, s, s.ring.cseq + n - s.ring.pseq);
    }
  }

  /** What the processor waits for is part of the next frame. */
  lemma WantedIsThere(ms: seq<Message>, s: Sys)
    requires SysInv(s, ms) && (s.proc.PeekSize? || s.proc.PeekBody?) && |s.handled| < |ms|
    requires 5 <= Longest(s.ring.size) && AllShort(s.ring.size, ms)
    ensures Wanted(s.proc) <= Longest(s.ring.size) && s.ring.cseq + Wanted(s.proc) <= |Frames(ms)|
    ensures !s.ring.c.CNotify?
  {
    var h := |s.handled|;
    assert s.handled == ms[..h];
    FramesUpTo(ms, h);
  }

  /** The processor comes to hold what it waits for. */
  lemma Obtains(ms: seq<Message>, at: Places, s: Sys) returns (s': Sys)
    requires Closed(ms, at) && at(s) && Live(s) && Calm(s) && |s.handled| < |ms|
    requires 5 <= Longest(s.ring.size) && AllShort(s.ring.size, ms) && (s.proc.PeekSize? || s.proc.PeekBody?)
    ensures at(s') && Live(s') && Calm(s') && s'.proc == s.proc.(asked := true) && s'.ring.c.CHold?
    ensures s'.handled == s.handled && s'.ring.size == s.ring.size
  {
    Sound(ms, at, s);
    WantedIsThere(ms, s);
    var s1 := Supplies(ms, at, s, Wanted(s.proc));
    if !s.proc.asked {
      s' := ReadsWait(ms, at, s1);
    } else {
      s' := FinishesWait(ms, at, s1);
    }
  }

  /** A wait that has begun goes on, on fresh cursors if it must. */
  lemma FinishesWait(ms: seq<Message>, at: Places, s: Sys) returns (s': Sys)
    requires Closed(ms, at) && at(s) && Asking(s.proc, true) && s.ring.cseq + Wanted(s.proc) <= s.ring.pseq
    requires !s.ring.done
    ensures at(s') && s'.ring.c.CHold? && s' == s.(ring := s.ring.(c := s'.ring.c))
  {
    Sound(ms, at, s);
    match s.ring.c
    case CHold(_, _, _) => s' := s;
    case CCopy(_, _, _, _) => s' := CopiesOut(ms, at, s);
    case CLoaded(op, cpos, _) =>
      if MustWait(s.ring.c) {
        var s1 := Processes(ms, at, s, CReload, s.ring.(c := CLoaded(op, cpos, s.ring.pseq)), s.proc);
        s' := Proceeds(ms, at, s1);
      } else {
        s' := Proceeds(ms, at, s);
      }
  }

  /** How far the processor is from the end of its round. */
  function Phase(p: Proc): nat {
    match p
    case Handling(_) => 20
    case Committing(_) => 19
    case PeekSize(cnt, _) => if cnt <= 5 then 2 * (6 - cnt) + 2 else 0
    case PeekBody(_, _, _) => 2
    case Stopped => 0
  }

  /** The messages still to be handled, and the rest of the round. */
  predicate Nearer(s: Sys, s': Sys) {
    |s'.handled| > |s.handled| || (|s'.handled| == |s.handled| && Phase(s'.proc) < Phase(s.proc))
  }

  /** From every place the processor's round goes on. */
  lemma Advances(ms: seq<Message>, at: Places, s: Sys) returns (s': Sys)
    requires Closed(ms, at) && at(s) && Live(s) && Calm(s) && |s.handled| < |ms|
    requires 5 <= Longest(s.ring.size) && AllShort(s.ring.size, ms)
    ensures at(s') && Live(s') && Calm(s') && Nearer(s, s') && s'.ring.size == s.ring.size
  {
    Sound(ms, at, s);
    match s.proc
    case PeekSize(_, _) =>
      var s1 := Obtains(ms, at, s);
      s' := KnowsMore(ms, at, s1);
    case PeekBody(_, _, _) =>
      var s1 := Obtains(ms, at, s);
      s' := HandsOver(ms, at, s1);
    case Handling(_) =>
      var seen;
      s', seen := Stores(ms, at, s);
    case Committing(_) =>
      s' := EndsRound(ms, at, s);
  }

  lemma EndsRound(ms: seq<Message>, at: Places, s: Sys) returns (s': Sys)
    requires Closed(ms, at) && at(s) && Live(s) && Calm(s) && s.proc.Committing?
    ensures at(s') && Live(s') && Calm(s') && s'.proc == PeekSize(2, false)
    ensures s'.handled == s.handled && s'.ring.size == s.ring.size
  {
    Sound(ms, at, s);
    var s1;
    if s.ring.c.CStore? { s1 := Commits(ms, at, s); } else { s1 := Broadcasts(ms, at, s); }
    s' := Calms(ms, at, s1);
  }

  lemma {:induction false} Finishes(ms: seq<Message>, at: Places, s: Sys) returns (s': Sys)
    requires Closed(ms, at) && at(s) && Live(s) && Calm(s)
    requires 5 <= Longest(s.ring.size) && AllShort(s.ring.size, ms)
    ensures at(s') && s'.handled == ms
    decreases |ms| - |s.handled|, Phase(s.proc)
  {
    Sound(ms, at, s);
    if |s.handled| < |ms| {
      var s1 := Advances(ms, at, s);
      Sound(ms, at, s1);
      s' := Finishes(ms, at, s1);
    } else {
      s' := s;
    }
  }

  ghost function Only(s: Sys): Sys -> bool {
    x => x == s
  }

  /** What can follow s. */
  ghost function Later(size: nat, ms: seq<Message>, s: Sys): Places {
    x => EndToEnd.Reachable(size, ms, x) && Runs.Reachable(Only(s), EndToEnd.Moves, x)
  }

  lemma LaterIsClosed(size: nat, ms: seq<Message>, s: Sys)
    requires Sendable(ms) && EndToEnd.Reachable(size, ms, s)
    ensures Closed(ms, Later(size, ms, s)) && Later(size, ms, s)(s)
  {
    Runs.Start(Only(s), EndToEnd.Moves, s);
    forall x | Later(size, ms, s)(x) ensures SysInv(x, ms) { EndToEnd.ReachableInv(size, ms, x); }
    forall x, y | Later(size, ms, s)(x) && EndToEnd.Moves(x, y) ensures Later(size, ms, s)(y) {
      Runs.Extend(EndToEnd.Starts(size, ms), EndToEnd.Moves, x, y);
      Runs.Extend(Only(s), EndToEnd.Moves, x, y);
    }
  }

  /** With no frame longer than the bound there are no dead ends: from every state of every
      run in which the ring is open and receiver and processor are at work, the run can go on
      to handle every message that was sent. */
  lemma NoDeadEnds(size: nat, ms: seq<Message>, s: Sys) returns (s': Sys)
    requires 2 * BLOCK <= size && Sendable(ms) && AllShort(size, ms)
    requires EndToEnd.Reachable(size, ms, s) && Live(s)
    ensures Runs.Reachable(Only(s), EndToEnd.Moves, s') && s'.handled == ms
  {
    LaterIsClosed(size, ms, s);
    SizeKept(size, ms, s);
    var s1 := Calms(ms, Later(size, ms, s), s);
    s' := Finishes(ms, Later(size, ms, s), s1);
  }

  /** In particular some run handles every message, and commits every frame. */
  lemma AllCanBeHandled(size: nat, ms: seq<Message>) returns (s: Sys)
    requires size > 0 && Sendable(ms) && AllShort(size, ms)
    ensures EndToEnd.Reachable(size, ms, s) && s.handled == ms && s.net == []
    ensures s.ring.delivered == Frames(ms)
  {
    s := HandlesFirst(size, ms, |ms|);
    assert ms[..|ms|] == ms && ms[|ms|..] == [];
    HandledIsPrefixOfSent(size, ms, s);
  }

  // Long frames: both asleep

  /** The receiver finds no room for a block and goes to sleep. */
  lemma Parks(ms: seq<Message>, at: Places, s: Sys) returns (s': Sys)
    requires Closed(ms, at) && at(s) && s.receiving && !s.ring.done
    requires s.ring.p == PIdle && !s.ring.plocked && s.ring.pseq + BLOCK > s.ring.cseq + s.ring.size
    ensures at(s') && s' == s.(ring := s.ring.(p := PParked(ForSlice, BLOCK, s.ring.pseq)))
  {
    Sound(ms, at, s);
    var pseq := s.ring.pseq;
    var s1 := Receives(ms, at, s, PBegin(ForSlice, BLOCK),
                       s.ring.(p := PLocked(ForSlice, BLOCK, pseq), plocked := true));
    var s2 := Receives(ms, at, s1, PLoad, s1.ring.(p := PRefused(ForSlice, BLOCK, pseq)));
    s' := Receives(ms, at, s2, PWait, s2.ring.(p := PParked(ForSlice, BLOCK, pseq), plocked := false));
  }

  /** A frame longer than the bound, but not than the ring, puts both to sleep after all the
      messages before it have been handled. */
  lemma LongFramePutsToSleep(size: nat, ms: seq<Message>, h: nat) returns (s: Sys)
    requires 2 * BLOCK <= size && Sendable(ms) && h < |ms| && Longest(size) < Len(ms[h]) <= size
    requires forall j :: 0 <= j < h ==> Len(ms[j]) <= Longest(size)
    ensures EndToEnd.Reachable(size, ms, s) && Sleeping(s) && s.handled == ms[..h]
    ensures s.proc.PeekBody? && s.proc.total == Len(ms[h])
  {
    var at := Anywhere(size, ms);
    AnywhereIsClosed(size, ms);
    var s0 := HandlesFirst(size, ms, h);
    FirstOfRest(ms, h);
    var s1 := ReceivesMany(ms, at, s0, Longest(size));
    var s2 := Parks(ms, at, s1);
    var s3 := FindsSize(ms, at, s2);
    Sound(ms, at, s3);
    var n := s3.proc.total;
    s := Processes(ms, at, s3, CBegin(OpWait(n)), s3.ring.(c := CLoaded(OpWait(n), s3.ring.cseq, s3.ring.pseq)),
                   PeekBody(s3.proc.mtype, n, true));
  }

  /** Some message's frame is longer than the bound, the first such not longer than the ring. */
  predicate Blocks(size: nat, ms: seq<Message>) {
    exists h :: 0 <= h < |ms| && Longest(size) < Len(ms[h]) <= size &&
                forall j :: 0 <= j < h ==> Len(ms[j]) <= Longest(size)
  }

  lemma {:induction false} FirstLong(size: nat, ms: seq<Message>, h: nat)
    requires h < |ms| && Len(ms[h]) > Longest(size) && forall i :: 0 <= i <= h ==> Len(ms[i]) <= size
    ensures Blocks(size, ms)
    decreases h
  {
    if j :| 0 <= j < h && Len(ms[j]) > Longest(size) {
      FirstLong(size, ms, j);
    }
  }

  /** The agent's receiver and processor can put each other to sleep for good exactly when the
      first frame longer than the ring's size less 8191 is not longer than the ring. */
  lemma SleepIff(size: nat, ms: seq<Message>)
    requires 2 * BLOCK <= size && Sendable(ms)
    ensures (exists s :: EndToEnd.Reachable(size, ms, s) && Sleeping(s)) <==> Blocks(size, ms)
  {
    if Blocks(size, ms) {
      var s := BlockedSleeps(size, ms);
      assert EndToEnd.Reachable(size, ms, s) && Sleeping(s);
    }
    forall s | EndToEnd.Reachable(size, ms, s) && Sleeping(s) ensures Blocks(size, ms) {
      SleeperIsBlocked(size, ms, s);
    }
  }

  lemma BlockedSleeps(size: nat, ms: seq<Message>) returns (s: Sys)
    requires 2 * BLOCK <= size && Sendable(ms) && Blocks(size, ms)
    ensures EndToEnd.Reachable(size, ms, s) && Sleeping(s)
  {
    var h :| 0 <= h < |ms| && Longest(size) < Len(ms[h]) <= size &&
             forall j :: 0 <= j < h ==> Len(ms[j]) <= Longest(size);
    s := LongFramePutsToSleep(size, ms, h);
  }

  lemma SleeperIsBlocked(size: nat, ms: seq<Message>, s: Sys)
    requires 2 * BLOCK <= size && Sendable(ms) && EndToEnd.Reachable(size, ms, s) && Sleeping(s)
    ensures Blocks(size, ms)
  {
    WaitsForLongFrame(size, ms, s);
    var h := |s.handled|;
    forall i | 0 <= i <= h ensures Len(ms[i]) <= size { }
    FirstLong(size, ms, h);
  }

  /** With no frame longer than the bound, receiver and processor never both wait. */
  lemma ShortFramesNeverBlock(size: nat, ms: seq<Message>, s: Sys)
    requires 2 * BLOCK <= size && Sendable(ms) && AllShort(size, ms)
    requires EndToEnd.Reachable(size, ms, s)
    ensures !BothWait(s)
  {
    if BothWait(s) { WaitsForLongFrame(size, ms, s); }
  }

  /** And it is for good: once both sleep, only a close changes anything. */
  lemma SleepsForGood(s: Sys, act: Act, s': Sys)
    requires Sleeping(s) && EndToEnd.Next(s, act, s')
    ensures s' == s || act == Env(Close)
  {
  }

  // Frames longer than the ring

  /** The processor can only stop before a frame that is longer than the ring. */
  lemma LongerThanRingOnlyStops(s: Sys, ms: seq<Message>, act: Act, s': Sys)
    requires SysInv(s, ms) && s.proc.PeekBody? && s.proc.total > s.ring.size && EndToEnd.Next(s, act, s')
    ensures s'.proc == s.proc || (act == TooBig && s'.proc == Stopped)
    ensures s'.handled == s.handled
  {
  }

  /** No message whose frame is longer than the ring is ever handled, nor one after it. */
  lemma LongerThanRingNeverHandled(size: nat, ms: seq<Message>, s: Sys, h: nat)
    requires Sendable(ms) && EndToEnd.Reachable(size, ms, s) && h < |ms| && Len(ms[h]) > size
    ensures |s.handled| <= h
  {
    HandledFit(size, ms, s);
  }

  lemma HandledFit(size: nat, ms: seq<Message>, s: Sys)
    requires Sendable(ms) && EndToEnd.Reachable(size, ms, s)
    ensures |s.handled| <= |ms| && forall i :: 0 <= i < |s.handled| ==> Len(ms[i]) <= size
  {
    EndToEnd.ReachableInv(size, ms, s);
    SizeKept(size, ms, s);
    assert forall i :: 0 <= i < |s.handled| ==> ms[i] == s.handled[i];
  }

  /** It comes to stop there: when the messages before it have been handled, the processor
      learns the size of the frame, and stops. */
  lemma LongerThanRingStops(size: nat, ms: seq<Message>, h: nat) returns (s: Sys, s': Sys)
    requires 2 * BLOCK <= size && Sendable(ms) && h < |ms| && Len(ms[h]) > size
    requires forall j :: 0 <= j < h ==> Len(ms[j]) <= Longest(size)
    ensures EndToEnd.Reachable(size, ms, s) && s.handled == ms[..h] && s.proc.PeekBody? && s.proc.total == Len(ms[h])
    ensures EndToEnd.Next(s, TooBig, s') && s'.proc == Stopped
  {
    var at := Anywhere(size, ms);
    AnywhereIsClosed(size, ms);
    var s0 := HandlesFirst(size, ms, h);
    FirstOfRest(ms, h);
    var s1 := ReceivesMany(ms, at, s0, 5);
    s := FindsSize(ms, at, s1);
    Sound(ms, at, s);
    s' := s.(proc := Stopped);
  }
}
