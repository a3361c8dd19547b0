/** What callers of the device can count on: bounded retries, clean returns, and a truthful poll. */
module FifoCalls {
  import opened Basics
  import opened FifoModel
  import opened FifoInvariant
  import opened FifoWakeups
  import opened FifoRefinement

  // ----------------------------------------------------------- retry bound

  /** 1 if the step puts thread `t` to sleep. */
  function Dozes(s: Fifo, a: Action, t: nat): nat
    requires Enabled(s, a)
  {
    if a.Advance? && a.t == t && s.threads[t].pc.Doze? then 1 else 0
  }

  /** 1 if the step wakes the readers' (writers') queue. */
  function Wakes(s: Fifo, a: Action, readers: bool): nat {
    if (if readers then WakesReaders(s, a) else WakesWriters(s, a)) then 1 else 0
  }

  function DozeCount(s: Fifo, run: seq<Action>, t: nat): nat
    requires Legal(s, run)
    decreases run
  {
    if run == [] then 0 else Dozes(s, run[0], t) + DozeCount(Next(s, run[0]), run[1..], t)
  }

  function WakeCount(s: Fifo, run: seq<Action>, readers: bool): nat
    requires Legal(s, run)
    decreases run
  {
    if run == [] then 0 else Wakes(s, run[0], readers) + WakeCount(Next(s, run[0]), run[1..], readers)
  }

  /** Whether the thread may yet go to sleep without anybody waking its queue first. */
  function Credit(th: Thread): nat {
    match th.pc
    case Lock => 1
    case Enqueue => 1
    case Check => 1
    case Doze => 1
    case Relock => 1
    case DropLock => if Asleep(th) || th.signal then 0 else 1
    case Schedule => if Asleep(th) || th.signal then 0 else 1
    case SigCheck => if th.signal then 0 else 1
    case _ => 0
  }

  lemma OwnSleepCredit(s: Fifo, a: Action)
    requires Sane(s) && Enabled(s, a) && ThreadOk(s, a.t) && a.Advance? && Sleeping(s.threads[a.t].pc)
    ensures Next(s, a).threads[a.t].call == s.threads[a.t].call
    ensures Dozes(s, a, a.t) + Credit(Next(s, a).threads[a.t]) <= Credit(s.threads[a.t])
  {
  }

  lemma OwnEnterCredit(s: Fifo, a: Action)
    requires Sane(s) && Enabled(s, a) && ThreadOk(s, a.t) && a.Advance? && Entering(s.threads[a.t].pc)
    ensures Next(s, a).threads[a.t].call == s.threads[a.t].call
    ensures Dozes(s, a, a.t) + Credit(Next(s, a).threads[a.t]) <= Credit(s.threads[a.t])
  {
  }

  lemma OwnMoveCredit(s: Fifo, a: Action)
    requires Sane(s) && Enabled(s, a) && ThreadOk(s, a.t) && a.Advance?
    requires s.threads[a.t].pc.Shift? || s.threads[a.t].pc.SetLen?
    ensures Next(s, a).threads[a.t].call == s.threads[a.t].call
    ensures Dozes(s, a, a.t) + Credit(Next(s, a).threads[a.t]) <= Credit(s.threads[a.t])
  {
  }

  lemma OwnCopyCredit(s: Fifo, a: Action)
    requires Sane(s) && Enabled(s, a) && ThreadOk(s, a.t) && a.Advance? && s.threads[a.t].pc.Copy?
    ensures Next(s, a).threads[a.t].call == s.threads[a.t].call
    ensures Dozes(s, a, a.t) + Credit(Next(s, a).threads[a.t]) <= Credit(s.threads[a.t])
  {
  }

  lemma OwnCredit(s: Fifo, a: Action)
    requires Sane(s) && Enabled(s, a) && ThreadOk(s, a.t) && !a.Begin?
    ensures Next(s, a).threads[a.t].call == s.threads[a.t].call
    ensures Dozes(s, a, a.t) + Credit(Next(s, a).threads[a.t]) <= Credit(s.threads[a.t])
  {
    if a.Advance? {
      if Sleeping(s.threads[a.t].pc) {
        OwnSleepCredit(s, a);
      } else if Entering(s.threads[a.t].pc) {
        OwnEnterCredit(s, a);
      } else if s.threads[a.t].pc.Copy? {
        OwnCopyCredit(s, a);
      } else if Moving(s.threads[a.t].pc) {
        OwnMoveCredit(s, a);
      }
    }
  }

  lemma OtherCredit(s: Fifo, a: Action, t: nat)
    requires Sane(s) && Enabled(s, a) && ThreadOk(s, a.t) && t in s.threads && ThreadOk(s, t) && t != a.t
    requires Io(s.threads[t].call)
    ensures Next(s, a).threads[t].call == s.threads[t].call
    ensures Credit(Next(s, a).threads[t]) <= Credit(s.threads[t]) + Wakes(s, a, s.threads[t].call.Read?)
  {
    ThreadFrame(s, a, t);
  }

  lemma StepCredit(s: Fifo, a: Action, t: nat)
    requires Inv(s) && Enabled(s, a) && t in s.threads && !(a.Begin? && a.t == t)
    requires Io(s.threads[t].call)
    ensures Next(s, a).threads[t].call == s.threads[t].call
    ensures Dozes(s, a, t) + Credit(Next(s, a).threads[t])
         <= Credit(s.threads[t]) + Wakes(s, a, s.threads[t].call.Read?)
  {
    assert ThreadOk(s, a.t) && ThreadOk(s, t);
    if t == a.t { OwnCredit(s, a); } else { OtherCredit(s, a, t); }
  }

  lemma {:induction false} CreditBound(s: Fifo, run: seq<Action>, t: nat)
    requires Inv(s) && Legal(s, run) && t in s.threads && NoBegin(t, run) && Io(s.threads[t].call)
    ensures DozeCount(s, run, t) <= Credit(s.threads[t]) + WakeCount(s, run, s.threads[t].call.Read?)
    decreases run
  {
    if run != [] {
      assert !(run[0].Begin? && run[0].t == t);
      StepInv(s, run[0]);
      StepCredit(s, run[0], t);
      CreditBound(Next(s, run[0]), run[1..], t);
    }
  }

  /** A read goes to sleep at most once more than writers wake r_wait during it; a write likewise with w_wait. */
  lemma RetryBound(s0: Fifo, before: seq<Action>, t: nat, c: Call, call: seq<Action>)
    requires Init(s0) && Legal(s0, before) && Enabled(Exec(s0, before), Begin(t, c)) && Io(c)
    requires Legal(Next(Exec(s0, before), Begin(t, c)), call) && NoBegin(t, call)
    ensures var s := Next(Exec(s0, before), Begin(t, c));
      DozeCount(s, call, t) <= 1 + WakeCount(s, call, c.Read?)
  {
    InitInv(s0);
    RunInv(s0, before);
    StepInv(Exec(s0, before), Begin(t, c));
    CreditBound(Next(Exec(s0, before), Begin(t, c)), call, t);
  }

  // ----------------------------------------------------------- termination

  /** 1 if the step is one of `t`'s own. */
  function OwnStep(a: Action, t: nat): nat { if a.Advance? && a.t == t then 1 else 0 }

  function OwnSteps(run: seq<Action>, t: nat): nat {
    if run == [] then 0 else OwnStep(run[0], t) + OwnSteps(run[1..], t)
  }

  /** How many own steps a call still takes if it does not go to sleep again. */
  function Remaining(pc: Pc): nat {
    match pc
    case Idle => 0
    case Lock => 10
    case Enqueue => 9
    case Check => 8
    case Doze => 7
    case DropLock => 12
    case Schedule => 11
    case SigCheck => 10
    case Relock => 9
    case Copy => 7
    case Shift => 6
    case SetLen => 5
    case Wake => 4
    case ClearLen => 5
    case ClearMem => 4
    case ReadMask => 5
    case WriteMask(_) => 4
    case Unlock(_) => 3
    case Dequeue(_) => 2
    case Leave(_) => 1
  }

  lemma LoopRemaining(s: Fifo, a: Action)
    requires Sane(s) && Enabled(s, a) && ThreadOk(s, a.t) && a.Advance?
    requires Entering(s.threads[a.t].pc) || Sleeping(s.threads[a.t].pc)
    ensures 1 + Remaining(Next(s, a).threads[a.t].pc) <= Remaining(s.threads[a.t].pc) + 6 * Dozes(s, a, a.t)
  {
  }

  lemma CopyRemaining(s: Fifo, a: Action)
    requires Sane(s) && Enabled(s, a) && ThreadOk(s, a.t) && a.Advance? && s.threads[a.t].pc.Copy?
    ensures 1 + Remaining(Next(s, a).threads[a.t].pc) <= Remaining(s.threads[a.t].pc)
  {
  }

  lemma MoveRemaining(s: Fifo, a: Action)
    requires Sane(s) && Enabled(s, a) && ThreadOk(s, a.t) && a.Advance?
    requires s.threads[a.t].pc.Shift? || s.threads[a.t].pc.SetLen?
    ensures 1 + Remaining(Next(s, a).threads[a.t].pc) <= Remaining(s.threads[a.t].pc)
  {
  }

  lemma WakeRemaining(s: Fifo, a: Action)
    requires Sane(s) && Enabled(s, a) && ThreadOk(s, a.t) && a.Advance? && s.threads[a.t].pc.Wake?
    ensures 1 + Remaining(Next(s, a).threads[a.t].pc) <= Remaining(s.threads[a.t].pc)
  {
  }

  lemma SweepRemaining(s: Fifo, a: Action)
    requires Sane(s) && Enabled(s, a) && ThreadOk(s, a.t) && a.Advance? && Sweeping(s.threads[a.t].pc)
    ensures 1 + Remaining(Next(s, a).threads[a.t].pc) <= Remaining(s.threads[a.t].pc)
  {
  }

  lemma LeaveRemaining(s: Fifo, a: Action)
    requires Sane(s) && Enabled(s, a) && ThreadOk(s, a.t) && a.Advance? && Leaving(s.threads[a.t].pc)
    ensures 1 + Remaining(Next(s, a).threads[a.t].pc) <= Remaining(s.threads[a.t].pc)
  {
  }

  /** Every own step is progress, except that going to sleep costs six more. */
  lemma StepRemaining(s: Fifo, a: Action, t: nat)
    requires Sane(s) && Enabled(s, a) && ThreadOk(s, a.t) && t in s.threads && !(a.Begin? && a.t == t)
    ensures OwnStep(a, t) + Remaining(Next(s, a).threads[t].pc) <= Remaining(s.threads[t].pc) + 6 * Dozes(s, a, t)
  {
    if t != a.t {
      ThreadFrame(s, a, t);
    } else if a.Advance? {
      var pc := s.threads[t].pc;
      if Entering(pc) || Sleeping(pc) {
        LoopRemaining(s, a);
      } else if pc.Copy? {
        CopyRemaining(s, a);
      } else if Moving(pc) {
        MoveRemaining(s, a);
      } else if pc.Wake? {
        WakeRemaining(s, a);
      } else if Sweeping(pc) {
        SweepRemaining(s, a);
      } else {
        LeaveRemaining(s, a);
      }
    }
  }

  lemma {:induction false} RunRemaining(s: Fifo, run: seq<Action>, t: nat)
    requires Inv(s) && Legal(s, run) && t in s.threads && NoBegin(t, run)
    ensures t in Exec(s, run).threads
    ensures OwnSteps(run, t) + Remaining(Exec(s, run).threads[t].pc)
         <= Remaining(s.threads[t].pc) + 6 * DozeCount(s, run, t)
    decreases run
  {
    if run != [] {
      assert !(run[0].Begin? && run[0].t == t) && ThreadOk(s, run[0].t);
      StepInv(s, run[0]);
      StepRemaining(s, run[0], t);
      RunRemaining(Next(s, run[0]), run[1..], t);
    }
  }

  /** Clears, polls and rejected commands never sleep. */
  lemma {:induction false} OnlyIoDozes(s: Fifo, run: seq<Action>, t: nat)
    requires Inv(s) && Legal(s, run) && t in s.threads && NoBegin(t, run) && !Io(s.threads[t].call)
    ensures DozeCount(s, run, t) == 0
    decreases run
  {
    if run != [] {
      var a := run[0];
      assert !(a.Begin? && a.t == t) && ThreadOk(s, t) && ThreadOk(s, a.t);
      StepInv(s, a);
      if a.t == t { OwnCredit(s, a); } else { ThreadFrame(s, a, t); }
      OnlyIoDozes(Next(s, a), run[1..], t);
    }
  }

  /**
   No call runs forever: a call takes at most ten steps of its own, and a read or write six more for each time it
   sleeps, which is at most once more than its queue is woken.
   */
  lemma CallSteps(s0: Fifo, before: seq<Action>, t: nat, c: Call, call: seq<Action>)
    requires Init(s0) && Legal(s0, before) && Enabled(Exec(s0, before), Begin(t, c))
    requires Legal(Next(Exec(s0, before), Begin(t, c)), call) && NoBegin(t, call)
    ensures var s := Next(Exec(s0, before), Begin(t, c));
      OwnSteps(call, t) <= 10 + (if Io(c) then 6 * (1 + WakeCount(s, call, c.Read?)) else 0)
  {
    var s := Next(Exec(s0, before), Begin(t, c));
    InitInv(s0);
    RunInv(s0, before);
    StepInv(Exec(s0, before), Begin(t, c));
    RunRemaining(s, call, t);
    if Io(c) { RetryBound(s0, before, t, c, call); } else { OnlyIoDozes(s, call, t); }
  }

  /** Sleeps left to a thread with a signal pending: it may lie down once more, but it does not stay. */
  function LastSleep(th: Thread): nat {
    if Entering(th.pc) || th.pc.Relock? then 1 else 0
  }

  /** A pending signal stays until the call has returned, and only an unfinished approach to the queue can still sleep. */
  lemma SignalledStep(s: Fifo, a: Action)
    requires Sane(s) && Enabled(s, a) && ThreadOk(s, a.t) && !a.Begin? && s.threads[a.t].signal
    ensures var th' := Next(s, a).threads[a.t];
      && (th'.signal || th'.pc.Idle?)
      && Dozes(s, a, a.t) + LastSleep(th') <= LastSleep(s.threads[a.t])
  {
    if a.Advance? && Sleeping(s.threads[a.t].pc) { SignalledSleep(s, a); }
  }

  lemma SignalledSleep(s: Fifo, a: Action)
    requires Sane(s) && Enabled(s, a) && ThreadOk(s, a.t) && a.Advance? && s.threads[a.t].signal
    requires Sleeping(s.threads[a.t].pc)
    ensures var th' := Next(s, a).threads[a.t]; th'.signal && LastSleep(th') <= LastSleep(s.threads[a.t])
  {
  }

  lemma IdleStays(s: Fifo, a: Action, t: nat)
    requires Sane(s) && Enabled(s, a) && ThreadOk(s, a.t) && t in s.threads && s.threads[t].pc.Idle?
    requires !(a.Begin? && a.t == t)
    ensures Next(s, a).threads[t].pc.Idle? && Dozes(s, a, t) == 0
  {
    if t != a.t { ThreadFrame(s, a, t); }
  }

  lemma {:induction false} SignalledRun(s: Fifo, run: seq<Action>, t: nat)
    requires Inv(s) && Legal(s, run) && t in s.threads && NoBegin(t, run)
    requires s.threads[t].signal || s.threads[t].pc.Idle?
    ensures DozeCount(s, run, t) <= if s.threads[t].pc.Idle? then 0 else LastSleep(s.threads[t])
    decreases run
  {
    if run != [] {
      var a := run[0];
      assert !(a.Begin? && a.t == t) && ThreadOk(s, a.t);
      StepInv(s, a);
      if s.threads[t].pc.Idle? {
        IdleStays(s, a, t);
      } else if a.t == t {
        SignalledStep(s, a);
      } else {
        ThreadFrame(s, a, t);
      }
      SignalledRun(Next(s, a), run[1..], t);
    }
  }

  /** A signal ends a call: from any point of it at most 16 own steps are left, however often its queue is woken. */
  lemma SignalEndsCall(s0: Fifo, before: seq<Action>, t: nat, rest: seq<Action>)
    requires Init(s0) && Legal(s0, before) && Legal(Exec(s0, before), rest) && NoBegin(t, rest)
    requires t in Exec(s0, before).threads && Exec(s0, before).threads[t].signal
    ensures DozeCount(Exec(s0, before), rest, t) <= 1 && OwnSteps(rest, t) <= 16
  {
    InitInv(s0);
    RunInv(s0, before);
    SignalledRun(Exec(s0, before), rest, t);
    RunRemaining(Exec(s0, before), rest, t);
  }

  /** Whatever path a call returned on, it left the mutex, both queues and the run state as it must. */
  lemma ReturnsClean(s0: Fifo, run: seq<Action>, t: nat)
    requires Init(s0) && Legal(s0, run) && t in Exec(s0, run).threads && Exec(s0, run).threads[t].pc.Idle?
    ensures var s := Exec(s0, run);
      s.owner != Some(t) && !s.threads[t].onRead && !s.threads[t].onWrite && s.threads[t].task.Running?
  {
    InitInv(s0);
    RunInv(s0, run);
    assert ThreadOk(Exec(s0, run), t);
  }

  // ------------------------------------------------------------------ poll

  predicate WouldBlock(s: Fifo, u: nat, th: Thread) {
    CheckStep(s, u, th).pc == Unlock(Failed(EAGAIN))
  }

  /** The bits poll is about to report agree with what O_NONBLOCK calls would get there, and one is set. */
  lemma PollAgrees(s: Fifo, p: nat, reader: Thread, writer: Thread)
    requires Inv(s) && p in s.threads && s.threads[p].pc.WriteMask?
    requires reader.nonblock && reader.call.Read? && writer.nonblock && writer.call.Write?
    ensures var ret := Next(s, Advance(p, false, [])).threads[p].pc.ret;
      && (ret.readable <==> !WouldBlock(s, p, reader))
      && (ret.writable <==> !WouldBlock(s, p, writer))
      && (ret.readable || ret.writable)
  {
    PollReports(s, p);
    assert CheckStep(s, p, reader).pc == Unlock(Failed(EAGAIN)) <==> s.len == 0;
    assert CheckStep(s, p, writer).pc == Unlock(Failed(EAGAIN)) <==> s.len == |s.mem|;
  }

  lemma PollReports(s: Fifo, p: nat)
    requires Inv(s) && p in s.threads && s.threads[p].pc.WriteMask?
    ensures Next(s, Advance(p, false, [])).threads[p].pc == Unlock(Ready(s.len != 0, s.len != |s.mem|))
  {
    assert ThreadOk(s, p);
  }

  lemma {:induction false} EmptyUnlessWoken(s: Fifo, run: seq<Action>)
    requires Inv(s) && Legal(s, run) && (s.len == 0 || WriterAtWake(s)) && WakeCount(s, run, true) == 0
    ensures Exec(s, run).len == 0 || WriterAtWake(Exec(s, run))
    decreases run
  {
    if run != [] {
      assert ThreadOk(s, run[0].t);
      StepInv(s, run[0]);
      EmptyStays(s, run[0]);
      EmptyUnlessWoken(Next(s, run[0]), run[1..]);
    }
  }

  lemma {:induction false} FullUnlessWoken(s: Fifo, run: seq<Action>)
    requires Inv(s) && Legal(s, run) && NoClear(s, run) && WakeCount(s, run, false) == 0
    requires s.len == |s.mem| || ReaderAtWake(s)
    ensures Exec(s, run).len == |s.mem| || ReaderAtWake(Exec(s, run))
    decreases run
  {
    if run != [] {
      StepInv(s, run[0]);
      FullStays(s, run[0]);
      FullUnlessWoken(Next(s, run[0]), run[1..]);
    }
  }

  /** Between a state with nothing to read and a later unlocked state with data, r_wait was woken. */
  lemma ReadableRiseIsAnnounced(s0: Fifo, before: seq<Action>, run: seq<Action>)
    requires Init(s0) && Legal(s0, before) && Legal(Exec(s0, before), run)
    requires var s, s' := Exec(s0, before), Exec(Exec(s0, before), run);
      s.len == 0 && s'.len != 0 && s'.owner.None?
    ensures WakeCount(Exec(s0, before), run, true) > 0
  {
    InitInv(s0);
    RunInv(s0, before);
    if WakeCount(Exec(s0, before), run, true) == 0 { EmptyUnlessWoken(Exec(s0, before), run); }
  }

  /** Without clears, between a full state and a later unlocked state with room, w_wait was woken. */
  lemma WritableRiseIsAnnounced(s0: Fifo, before: seq<Action>, run: seq<Action>)
    requires Init(s0) && Legal(s0, before) && Legal(Exec(s0, before), run) && NoClear(Exec(s0, before), run)
    requires var s, s' := Exec(s0, before), Exec(Exec(s0, before), run);
      s.len == |s.mem| && s'.len != |s'.mem| && s'.owner.None?
    ensures WakeCount(Exec(s0, before), run, false) > 0
  {
    InitInv(s0);
    RunInv(s0, before);
    RunInv(Exec(s0, before), run);
    if WakeCount(Exec(s0, before), run, false) == 0 { FullUnlessWoken(Exec(s0, before), run); }
  }
}
