/** Which result every call returns, told from the actions of the run and the lengths its steps meet. */
module FifoOutcomes {
  import opened Basics
  import opened FifoModel
  import opened FifoInvariant
  import opened FifoRefinement
  import opened FifoClear

  // ------------------------------------------------------------ the reference

  /**
   What a step of the calling thread settles, if `pending` says whether a signal has arrived and `nonblock` whether
   O_NONBLOCK is set: EAGAIN at a closed queue, ERESTARTSYS when woken with a signal, EFAULT when the copy of at least
   one byte fails, and otherwise as many bytes as were asked for and are there.
   */
  function Settles(s: Fifo, a: Action, pending: bool, nonblock: bool): Option<Result>
    requires a.Advance? && a.t in s.threads
  {
    var th := s.threads[a.t];
    match th.call
    case Read(want) =>
      if th.pc.Check? && s.len == 0 && nonblock then Some(Failed(EAGAIN))
      else if th.pc.SigCheck? && pending then Some(Failed(ERESTARTSYS))
      else if th.pc.Copy? then
        Some(if a.fault && want > 0 then Failed(EFAULT) else Moved(if want < s.len then want else s.len))
      else None
    case Write(data) =>
      if th.pc.Check? && s.len == |s.mem| && nonblock then Some(Failed(EAGAIN))
      else if th.pc.SigCheck? && pending then Some(Failed(ERESTARTSYS))
      else if th.pc.Copy? && s.len <= |s.mem| then
        Some(if a.fault && data != [] then Failed(EFAULT)
             else Moved(if |data| < |s.mem| - s.len then |data| else |s.mem| - s.len))
      else None
    case Ioctl(cmd) => if th.pc.ClearMem? && cmd == 1 then Some(Cleared) else None
    case Poll => if th.pc.WriteMask? then Some(Ready(s.len != 0, s.len != |s.mem|)) else None
  }

  /** The first thing settled in a run by a step of `t`, with signals and flags as the run's actions set them. */
  function Settled(s: Fifo, run: seq<Action>, t: nat, pending: bool, nonblock: bool): Option<Result>
    requires Legal(s, run)
    decreases run
  {
    if run == [] then None
    else
      var a := run[0];
      var here := if a.Advance? && a.t == t then Settles(s, a, pending, nonblock) else None;
      if here.Some? then here
      else Settled(Next(s, a), run[1..], t, pending || a == Signal(t),
                   if a.SetFlags? && a.t == t then a.nonblock else nonblock)
  }

  // ------------------------------------------------------- it is what happens

  /** The result a thread is already bound to return. */
  function Bound(th: Thread): Option<Result> {
    match th.pc
    case Shift => Some(Moved(th.count))
    case SetLen => Some(Moved(th.count))
    case Wake => Some(Moved(th.count))
    case Unlock(ret) => Some(ret)
    case Dequeue(ret) => Some(ret)
    case Leave(ret) => Some(ret)
    case _ => None
  }

  predicate Undecided(th: Thread) { Bound(th).None? && !th.pc.Idle? }

  /** The step settles exactly what the reference says; otherwise call, flag and pending signal stay as they are. */
  predicate Agrees(s: Fifo, a: Action)
    requires Enabled(s, a) && a.Advance?
  {
    var th, th' := s.threads[a.t], Next(s, a).threads[a.t];
    && Bound(th') == Settles(s, a, th.signal, th.nonblock) && !th'.pc.Idle?
    && th'.call == th.call && th'.signal == th.signal && th'.nonblock == th.nonblock
  }

  lemma EnterAgrees(s: Fifo, a: Action)
    requires Sane(s) && Enabled(s, a) && ThreadOk(s, a.t) && a.Advance? && Entering(s.threads[a.t].pc)
    ensures Agrees(s, a)
  {
  }

  lemma SleepAgrees(s: Fifo, a: Action)
    requires Sane(s) && Enabled(s, a) && ThreadOk(s, a.t) && a.Advance? && Sleeping(s.threads[a.t].pc)
    ensures Agrees(s, a)
  {
  }

  lemma CopyAgrees(s: Fifo, a: Action)
    requires Sane(s) && Enabled(s, a) && ThreadOk(s, a.t) && a.Advance? && s.threads[a.t].pc.Copy?
    ensures Agrees(s, a)
  {
  }

  lemma SweepAgrees(s: Fifo, a: Action)
    requires Sane(s) && Enabled(s, a) && ThreadOk(s, a.t) && a.Advance? && Sweeping(s.threads[a.t].pc)
    ensures Agrees(s, a)
  {
  }

  lemma OwnAgrees(s: Fifo, a: Action)
    requires Sane(s) && Enabled(s, a) && ThreadOk(s, a.t) && a.Advance? && Undecided(s.threads[a.t])
    ensures Agrees(s, a)
  {
    var pc := s.threads[a.t].pc;
    if Entering(pc) {
      EnterAgrees(s, a);
    } else if Sleeping(pc) {
      SleepAgrees(s, a);
    } else if pc.Copy? {
      CopyAgrees(s, a);
    } else {
      SweepAgrees(s, a);
    }
  }

  /** Nobody else decides for `t`. */
  lemma OtherAgrees(s: Fifo, a: Action, t: nat)
    requires Sane(s) && Enabled(s, a) && ThreadOk(s, a.t) && t in s.threads && !(a.t == t && (a.Begin? || a.Advance?))
    ensures var th, th' := s.threads[t], Next(s, a).threads[t];
      && th'.pc == th.pc && th'.count == th.count && th'.call == th.call
      && th'.signal == (th.signal || a == Signal(t))
      && th'.nonblock == (if a.SetFlags? && a.t == t then a.nonblock else th.nonblock)
  {
    if t != a.t { ThreadFrame(s, a, t); }
  }

  lemma OwnStaysBound(s: Fifo, a: Action)
    requires Sane(s) && Enabled(s, a) && ThreadOk(s, a.t) && a.Advance? && Bound(s.threads[a.t]).Some?
    ensures var th, th' := s.threads[a.t], Next(s, a).threads[a.t];
      th'.call == th.call && (th'.pc.Idle? || Bound(th') == Bound(th))
  {
  }

  lemma {:induction false} RunStaysBound(s: Fifo, run: seq<Action>, t: nat)
    requires Inv(s) && Legal(s, run) && NoBegin(t, run) && t in s.threads
    requires s.threads[t].pc.Idle? || Bound(s.threads[t]).Some?
    ensures t in Exec(s, run).threads
    ensures var th, th' := s.threads[t], Exec(s, run).threads[t];
      th'.call == th.call && (th'.pc.Idle? || (!th.pc.Idle? && Bound(th') == Bound(th)))
    decreases run
  {
    if run != [] {
      var a := run[0];
      assert !(a.Begin? && a.t == t) && ThreadOk(s, a.t);
      StepInv(s, a);
      if a.Advance? && a.t == t { OwnStaysBound(s, a); } else { OtherAgrees(s, a, t); }
      RunStaysBound(Next(s, a), run[1..], t);
    }
  }

  /** What the step settles for `t`, which has settled nothing yet. */
  function Here(s: Fifo, a: Action, t: nat): Option<Result>
    requires t in s.threads
  {
    if a.Advance? && a.t == t then Settles(s, a, s.threads[t].signal, s.threads[t].nonblock) else None
  }

  /** One step of any thread, as seen by an undecided thread `t`. */
  lemma OneStep(s: Fifo, a: Action, t: nat)
    requires Inv(s) && Enabled(s, a) && t in s.threads && Undecided(s.threads[t]) && !(a.Begin? && a.t == t)
    ensures Inv(Next(s, a)) && t in Next(s, a).threads
    ensures var th, th' := s.threads[t], Next(s, a).threads[t];
      && Bound(th') == Here(s, a, t) && !th'.pc.Idle? && th'.call == th.call
      && (Here(s, a, t).None? ==> th'.signal == (th.signal || a == Signal(t)) &&
                                  th'.nonblock == if a.SetFlags? && a.t == t then a.nonblock else th.nonblock)
  {
    assert ThreadOk(s, a.t);
    StepInv(s, a);
    if a.Advance? && a.t == t {
      OwnAgrees(s, a);
    } else {
      OtherAgrees(s, a, t);
      SameBound(s.threads[t], Next(s, a).threads[t]);
    }
  }

  lemma SameBound(th: Thread, th': Thread)
    requires th'.pc == th.pc && th'.count == th.count
    ensures Bound(th') == Bound(th)
  {
  }

  lemma {:induction false} RunSettles(s: Fifo, run: seq<Action>, t: nat)
    requires Inv(s) && Legal(s, run) && NoBegin(t, run) && t in s.threads && Undecided(s.threads[t])
    ensures t in Exec(s, run).threads
    ensures var th, th' := s.threads[t], Exec(s, run).threads[t];
      th'.call == th.call && (th'.pc.Idle? || Bound(th') == Settled(s, run, t, th.signal, th.nonblock))
    decreases run
  {
    if run != [] {
      assert !(run[0].Begin? && run[0].t == t);
      OneStep(s, run[0], t);
      if Here(s, run[0], t).None? {
        RunSettles(Next(s, run[0]), run[1..], t);
      } else {
        RunStaysBound(Next(s, run[0]), run[1..], t);
      }
    }
  }

  /** A call of thread `t` from its start, after the run `before`, up to its return with `ret`. */
  ghost predicate Returns(s0: Fifo, before: seq<Action>, t: nat, c: Call, call: seq<Action>, ret: Result) {
    && Init(s0) && Legal(s0, before) && Enabled(Exec(s0, before), Begin(t, c))
    && Legal(Started(s0, before, t, c), call) && NoBegin(t, call)
    && t in Exec(Started(s0, before, t, c), call).threads
    && Exec(Started(s0, before, t, c), call).threads[t].pc == Leave(ret)
  }

  function Started(s0: Fifo, before: seq<Action>, t: nat, c: Call): Fifo
    requires Legal(s0, before) && Enabled(Exec(s0, before), Begin(t, c))
  {
    Next(Exec(s0, before), Begin(t, c))
  }

  lemma StartedOk(s0: Fifo, before: seq<Action>, t: nat, c: Call)
    requires Init(s0) && Legal(s0, before) && Enabled(Exec(s0, before), Begin(t, c))
    ensures var s, s1 := Exec(s0, before), Started(s0, before, t, c);
      && Inv(s1) && t in s1.threads && s1.threads[t].call == c
      && s1.threads[t].signal == s.threads[t].signal && s1.threads[t].nonblock == s.threads[t].nonblock
      && s1.threads[t].pc == if c.Ioctl? && c.cmd != 1 then Leave(Failed(EINVAL)) else Lock
  {
    InitInv(s0);
    RunInv(s0, before);
    StepInv(Exec(s0, before), Begin(t, c));
  }

  /** Every call returns exactly what its steps, its signals and its flags settle; an unknown command is EINVAL. */
  lemma CallReturnsExactly(s0: Fifo, before: seq<Action>, t: nat, c: Call, call: seq<Action>, ret: Result)
    requires Returns(s0, before, t, c, call, ret)
    ensures var s := Exec(s0, before);
      if c.Ioctl? && c.cmd != 1 then ret == Failed(EINVAL)
      else Settled(Started(s0, before, t, c), call, t, s.threads[t].signal, s.threads[t].nonblock) == Some(ret)
  {
    var s1 := Started(s0, before, t, c);
    StartedOk(s0, before, t, c);
    if Undecided(s1.threads[t]) { RunSettles(s1, call, t); } else { RunStaysBound(s1, call, t); }
  }

  // -------------------------------------------------- reasons, from actions alone

  predicate Faulty(a: Action, t: nat) { a.Advance? && a.t == t && a.fault }

  predicate Signalled(run: seq<Action>, t: nat) { exists i :: 0 <= i < |run| && run[i] == Signal(t) }

  predicate Faulted(run: seq<Action>, t: nat) { exists i :: 0 <= i < |run| && Faulty(run[i], t) }

  predicate Unblocked(run: seq<Action>, t: nat) { exists i :: 0 <= i < |run| && run[i] == SetFlags(t, true) }

  lemma Later(run: seq<Action>, t: nat)
    requires run != []
    ensures Signalled(run, t) <==> run[0] == Signal(t) || Signalled(run[1..], t)
    ensures Faulted(run, t) <==> Faulty(run[0], t) || Faulted(run[1..], t)
    ensures Unblocked(run, t) <==> run[0] == SetFlags(t, true) || Unblocked(run[1..], t)
  {
    forall i | 0 < i < |run|
      ensures run[i] == run[1..][i - 1]
    {
    }
    if Signalled(run[1..], t) {
      var i :| 0 <= i < |run[1..]| && run[1..][i] == Signal(t);
      assert run[i + 1] == Signal(t);
    }
    if Faulted(run[1..], t) {
      var i :| 0 <= i < |run[1..]| && Faulty(run[1..][i], t);
      assert Faulty(run[i + 1], t);
    }
    if Unblocked(run[1..], t) {
      var i :| 0 <= i < |run[1..]| && run[1..][i] == SetFlags(t, true);
      assert run[i + 1] == SetFlags(t, true);
    }
  }

  lemma {:induction false} Reasons(s: Fifo, run: seq<Action>, t: nat, pending: bool, nonblock: bool)
    requires Legal(s, run)
    ensures var r := Settled(s, run, t, pending, nonblock);
      && (r == Some(Failed(ERESTARTSYS)) ==> pending || Signalled(run, t))
      && (r == Some(Failed(EFAULT)) ==> Faulted(run, t))
      && (r == Some(Failed(EAGAIN)) ==> nonblock || Unblocked(run, t))
      && r != Some(Failed(EINVAL))
    decreases run
  {
    if run != [] {
      var a := run[0];
      Later(run, t);
      Reasons(Next(s, a), run[1..], t, pending || a == Signal(t),
              if a.SetFlags? && a.t == t then a.nonblock else nonblock);
    }
  }

  /** No call fails without its reason: a signal, a failing copy, O_NONBLOCK or an unknown command. */
  lemma FailureHasReason(s0: Fifo, before: seq<Action>, t: nat, c: Call, call: seq<Action>, errno: Errno)
    requires Returns(s0, before, t, c, call, Failed(errno))
    ensures var th := Exec(s0, before).threads[t];
      match errno
      case ERESTARTSYS => th.signal || Signalled(call, t)
      case EFAULT => Faulted(call, t)
      case EAGAIN => th.nonblock || Unblocked(call, t)
      case EINVAL => c.Ioctl? && c.cmd != 1
  {
    var th := Exec(s0, before).threads[t];
    CallReturnsExactly(s0, before, t, c, call, Failed(errno));
    Reasons(Started(s0, before, t, c), call, t, th.signal, th.nonblock);
  }

  /** The bytes a read or write is to move in a state: as many as asked for, or as many as are there (or fit). */
  function Share(s: Fifo, c: Call): nat
    requires s.len <= |s.mem|
  {
    match c
    case Read(want) => if want < s.len then want else s.len
    case Write(data) => if |data| < |s.mem| - s.len then |data| else |s.mem| - s.len
    case _ => 0
  }

  /** The state in which a call moves its bytes: the queue is open, and the result is the call's share. */
  predicate MovesHere(m: Fifo, c: Call, n: nat) {
    m.len <= |m.mem| && n == Share(m, c) && (if c.Read? then 0 < m.len else m.len < |m.mem|)
  }

  lemma MovedHere(s: Fifo, a: Action, t: nat, n: nat)
    requires Inv(s) && t in s.threads && Here(s, a, t) == Some(Moved(n))
    ensures MovesHere(s, s.threads[t].call, n)
  {
    assert ThreadOk(s, t);
  }

  lemma AtLater(s: Fifo, run: seq<Action>, j: nat)
    requires Legal(s, run) && run != [] && j <= |run| - 1
    ensures At(s, run, j + 1) == At(Next(s, run[0]), run[1..], j)
  {
    PrefixLegal(s, run, j + 1);
    PrefixLegal(Next(s, run[0]), run[1..], j);
    assert run[..j + 1][1..] == run[1..][..j];
  }

  /** Where a run settles on moving bytes, and how many. */
  lemma {:induction false} MovedWhere(s: Fifo, run: seq<Action>, t: nat, n: nat) returns (i: nat)
    requires Inv(s) && Legal(s, run) && NoBegin(t, run) && t in s.threads && Undecided(s.threads[t])
    requires Settled(s, run, t, s.threads[t].signal, s.threads[t].nonblock) == Some(Moved(n))
    ensures i < |run| && run[i].Advance? && run[i].t == t && MovesHere(At(s, run, i), s.threads[t].call, n)
    decreases run
  {
    assert !(run[0].Begin? && run[0].t == t);
    if Here(s, run[0], t).Some? {
      assert run[..0] == [];
      MovedHere(s, run[0], t, n);
      i := 0;
    } else {
      OneStep(s, run[0], t);
      var j := MovedWhere(Next(s, run[0]), run[1..], t, n);
      AtLater(s, run, j);
      i := j + 1;
    }
  }

  lemma ReturnFits(s0: Fifo, before: seq<Action>, t: nat, c: Call, call: seq<Action>, ret: Result)
    requires Returns(s0, before, t, c, call, ret)
    ensures RetFits(ret, c)
  {
    var s1 := Started(s0, before, t, c);
    StartedOk(s0, before, t, c);
    RunInv(s1, call);
    if Undecided(s1.threads[t]) { RunSettles(s1, call, t); } else { RunStaysBound(s1, call, t); }
    assert ThreadOk(Exec(s1, call), t);
  }

  /**
   Without signals, failing copies and O_NONBLOCK, every read or write that returns has moved bytes: at some step of
   its own it found the queue open, and moved the smaller of what was asked for and what was there.
   */
  lemma BlockingCallMoves(s0: Fifo, before: seq<Action>, t: nat, c: Call, call: seq<Action>, ret: Result)
      returns (i: nat)
    requires Returns(s0, before, t, c, call, ret) && Io(c)
    requires !Exec(s0, before).threads[t].signal && !Exec(s0, before).threads[t].nonblock
    requires !Signalled(call, t) && !Faulted(call, t) && !Unblocked(call, t)
    ensures ret.Moved? && i < |call| && call[i].Advance? && call[i].t == t
    ensures MovesHere(At(Started(s0, before, t, c), call, i), c, ret.n)
  {
    ReturnFits(s0, before, t, c, call, ret);
    if ret.Failed? { FailureHasReason(s0, before, t, c, call, ret.errno); }
    CallReturnsExactly(s0, before, t, c, call, ret);
    StartedOk(s0, before, t, c);
    i := MovedWhere(Started(s0, before, t, c), call, t, ret.n);
  }
}
