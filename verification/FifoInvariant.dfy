/** What every reachable state of the globalfifo device satisfies, clears and signals included. */
module FifoInvariant {
  import opened Basics
  import opened BoundedQueue
  import opened FifoModel

  /** Which program points belong to which entry of the driver. */
  predicate PcFits(pc: Pc, c: Call) {
    match pc
    case Idle => true
    case Lock => c.Ioctl? ==> c.cmd == FIFO_CLEAR
    case Shift => c.Read?
    case ClearLen => c.Ioctl? && c.cmd == FIFO_CLEAR
    case ClearMem => c.Ioctl? && c.cmd == FIFO_CLEAR
    case ReadMask => c.Poll?
    case WriteMask(_) => c.Poll?
    case Unlock(ret) => RetFits(ret, c)
    case Dequeue(ret) => RetFits(ret, c) && Io(c)
    case Leave(ret) => RetFits(ret, c)
    case _ => Io(c)
  }

  predicate RetFits(ret: Result, c: Call) {
    match ret
    case Moved(_) => Io(c)
    case Cleared => c.Ioctl?
    case Ready(_, _) => c.Poll?
    case Failed(EINVAL) => c.Ioctl?
    case Failed(_) => Io(c)
  }

  /** What the mutex holder may rely on about `mem` and `current_len`. */
  predicate Locked(mem: seq<Byte>, len: nat, th: Thread) {
    match th.pc
    case Doze => if th.call.Read? then len == 0 else len == |mem|
    case DropLock => if th.call.Read? then len == 0 else len == |mem|
    case Copy => if th.call.Read? then len > 0 else len < |mem|
    case Shift => th.call.Read? && 0 < len <= |mem| && th.count == Min(th.call.want, len) && th.user == mem[..th.count]
    case SetLen =>
      if th.call.Read? then 0 < len && th.count == Min(th.call.want, len)
      else th.call.Write? && len < |mem| && th.count == Min(|th.call.data|, |mem| - len) &&
           mem[len..len + th.count] == th.call.data[..th.count]
    case ClearMem => len == 0
    case WriteMask(readable) => readable == (len != 0)
    case _ => true
  }

  predicate ThreadOk(s: Fifo, t: nat)
    requires t in s.threads
  {
    var th := s.threads[t];
    && PcFits(th.pc, th.call)
    && (th.onRead <==> th.call.Read? && Queued(th.pc))
    && (th.onWrite <==> th.call.Write? && Queued(th.pc))
    && (th.task.Interruptible? ==> th.pc.DropLock? || th.pc.Schedule?)
    && (Holds(th.pc) <==> s.owner == Some(t))
    && (Holds(th.pc) ==> Locked(s.mem, s.len, th))
  }

  /** A writer holds the mutex between its length update and its wake. */
  predicate WriterAtWake(s: Fifo) {
    s.owner.Some? && s.owner.value in s.threads &&
    s.threads[s.owner.value].pc.Wake? && s.threads[s.owner.value].call.Write?
  }

  predicate Asleep(th: Thread) { th.task.Interruptible? }

  /** No lost wake-up for readers. */
  ghost predicate ReaderAwake(s: Fifo) {
    forall t :: t in s.threads && Asleep(s.threads[t]) && s.threads[t].call.Read? ==>
      s.threads[t].onRead && (s.len == 0 || WriterAtWake(s))
  }

  predicate Sane(s: Fifo) { 0 < |s.mem| && s.len <= |s.mem| }

  ghost predicate Inv(s: Fifo) {
    && Sane(s)
    && (s.owner.Some? ==> s.owner.value in s.threads)
    && (forall t :: t in s.threads ==> ThreadOk(s, t))
    && ReaderAwake(s)
  }

  lemma InitInv(s: Fifo)
    requires Init(s)
    ensures Inv(s)
  {
  }

  /** The stretches of a call: getting to the data, moving it, waking, getting out. */
  predicate Entering(pc: Pc) { pc.Lock? || pc.Enqueue? || pc.Check? || pc.Doze? }

  predicate Sleeping(pc: Pc) { pc.DropLock? || pc.Schedule? || pc.SigCheck? || pc.Relock? }

  predicate Moving(pc: Pc) { pc.Copy? || pc.Shift? || pc.SetLen? }

  lemma EnterOk(s: Fifo, a: Action)
    requires Sane(s) && Enabled(s, a) && ThreadOk(s, a.t) && a.Advance? && Entering(s.threads[a.t].pc)
    ensures ThreadOk(Next(s, a), a.t)
  {
  }

  lemma SleepOk(s: Fifo, a: Action)
    requires Sane(s) && Enabled(s, a) && ThreadOk(s, a.t) && a.Advance? && Sleeping(s.threads[a.t].pc)
    ensures ThreadOk(Next(s, a), a.t)
  {
  }

  lemma MoveOk(s: Fifo, a: Action)
    requires Sane(s) && Enabled(s, a) && ThreadOk(s, a.t) && a.Advance? && Moving(s.threads[a.t].pc)
    ensures ThreadOk(Next(s, a), a.t)
  {
  }

  predicate Leaving(pc: Pc) { pc.Unlock? || pc.Dequeue? || pc.Leave? }

  lemma WakeOk(s: Fifo, a: Action)
    requires Sane(s) && Enabled(s, a) && ThreadOk(s, a.t) && a.Advance? && s.threads[a.t].pc.Wake?
    ensures ThreadOk(Next(s, a), a.t)
  {
  }

  predicate Sweeping(pc: Pc) { pc.ClearLen? || pc.ClearMem? || pc.ReadMask? || pc.WriteMask? }

  lemma SweepOk(s: Fifo, a: Action)
    requires Sane(s) && Enabled(s, a) && ThreadOk(s, a.t) && a.Advance? && Sweeping(s.threads[a.t].pc)
    ensures ThreadOk(Next(s, a), a.t)
  {
  }

  lemma LeaveOk(s: Fifo, a: Action)
    requires Sane(s) && Enabled(s, a) && ThreadOk(s, a.t) && a.Advance? && Leaving(s.threads[a.t].pc)
    ensures ThreadOk(Next(s, a), a.t)
  {
  }

  lemma OwnThreadOk(s: Fifo, a: Action)
    requires Sane(s) && Enabled(s, a) && ThreadOk(s, a.t)
    ensures ThreadOk(Next(s, a), a.t)
  {
    if a.Advance? {
      if Entering(s.threads[a.t].pc) {
        EnterOk(s, a);
      } else if Sleeping(s.threads[a.t].pc) {
        SleepOk(s, a);
      } else if Moving(s.threads[a.t].pc) {
        MoveOk(s, a);
      } else if Leaving(s.threads[a.t].pc) {
        LeaveOk(s, a);
      } else if s.threads[a.t].pc.Wake? {
        WakeOk(s, a);
      } else {
        SweepOk(s, a);
      }
    }
  }

  /** Everything a step of `t` may change apart from `t`'s own record. */
  ghost predicate Frame(s: Fifo, s': Fifo, t: nat)
    requires t in s.threads
  {
    && s'.threads.Keys == s.threads.Keys
    && |s'.mem| == |s.mem|
    && ((s'.mem == s.mem && s'.len == s.len) || s.owner == Some(t))
    && (s'.owner == s.owner || (s.owner == Some(t) && s'.owner == None) || (s.owner == None && s'.owner == Some(t)))
    && (forall u :: u in s.threads && u != t ==>
          s'.threads[u] == s.threads[u] ||
          (s.owner == Some(t) && s.threads[t].pc.Wake? &&
           s'.threads[u] == Roused(s.threads[u], s.threads[t].call.Write?)))
  }

  lemma SharedFrame(s: Fifo, a: Action)
    requires Sane(s) && Enabled(s, a) && ThreadOk(s, a.t)
    ensures var s' := Next(s, a);
      && s'.threads.Keys == s.threads.Keys
      && |s'.mem| == |s.mem| && s'.len <= |s'.mem|
      && ((s'.mem == s.mem && s'.len == s.len) || s.owner == Some(a.t))
      && (s'.owner == s.owner || (s.owner == Some(a.t) && s'.owner == None) || (s.owner == None && s'.owner == Some(a.t)))
  {
  }

  lemma ThreadFrame(s: Fifo, a: Action, u: nat)
    requires Sane(s) && Enabled(s, a) && ThreadOk(s, a.t) && u in s.threads && u != a.t
    ensures Next(s, a).threads[u] == s.threads[u] ||
            (s.owner == Some(a.t) && a.Advance? && s.threads[a.t].pc.Wake? &&
             Next(s, a).threads[u] == Roused(s.threads[u], s.threads[a.t].call.Write?))
  {
  }

  lemma StepFrame(s: Fifo, a: Action)
    requires Inv(s) && Enabled(s, a)
    ensures Frame(s, Next(s, a), a.t)
  {
    assert ThreadOk(s, a.t);
    SharedFrame(s, a);
    forall u | u in s.threads && u != a.t
      ensures Next(s, a).threads[u] == s.threads[u] ||
              (s.owner == Some(a.t) && s.threads[a.t].pc.Wake? &&
               Next(s, a).threads[u] == Roused(s.threads[u], s.threads[a.t].call.Write?))
    {
      ThreadFrame(s, a, u);
    }
  }

  lemma OtherThreadOk(s: Fifo, s': Fifo, t: nat, u: nat)
    requires Inv(s) && t in s.threads && Frame(s, s', t) && u in s.threads && u != t
    ensures ThreadOk(s', u)
  {
    assert ThreadOk(s, u);
  }

  predicate WakesReaders(s: Fifo, a: Action) {
    a.t in s.threads && a.Advance? && s.threads[a.t].pc.Wake? && s.threads[a.t].call.Write?
  }

  predicate WakesWriters(s: Fifo, a: Action) {
    a.t in s.threads && a.Advance? && s.threads[a.t].pc.Wake? && s.threads[a.t].call.Read?
  }

  /** An empty buffer can gain bytes only under a writer that still owes its wake. */
  lemma EmptyStays(s: Fifo, a: Action)
    requires Sane(s) && Enabled(s, a) && ThreadOk(s, a.t)
    requires s.len == 0 || WriterAtWake(s)
    ensures Next(s, a).len == 0 || WriterAtWake(Next(s, a)) || WakesReaders(s, a)
  {
  }

  /** A sleeping reader other than `t` is still covered. */
  lemma OtherReaderAwake(s: Fifo, a: Action, u: nat)
    requires Sane(s) && Enabled(s, a) && ThreadOk(s, a.t)
    requires u in s.threads && u != a.t && ThreadOk(s, u) && s.threads[u].call.Read?
    requires Asleep(s.threads[u]) ==> s.len == 0 || WriterAtWake(s)
    requires Asleep(Next(s, a).threads[u])
    ensures Next(s, a).len == 0 || WriterAtWake(Next(s, a))
  {
    ThreadFrame(s, a, u);
    EmptyStays(s, a);
  }

  lemma KeepsReaderAwake(s: Fifo, a: Action)
    requires Inv(s) && Enabled(s, a) && Frame(s, Next(s, a), a.t)
    requires forall t :: t in s.threads ==> ThreadOk(Next(s, a), t)
    ensures ReaderAwake(Next(s, a))
  {
    var s' := Next(s, a);
    forall u | u in s'.threads && Asleep(s'.threads[u]) && s'.threads[u].call.Read?
      ensures s'.threads[u].onRead && (s'.len == 0 || WriterAtWake(s'))
    {
      assert ThreadOk(s', u);
      assert ThreadOk(s, u) && ThreadOk(s, a.t);
      if u != a.t {
        OtherReaderAwake(s, a, u);
      } else {
        assert ThreadOk(s, u);
      }
    }
  }

  lemma StepInv(s: Fifo, a: Action)
    requires Inv(s) && Enabled(s, a)
    ensures Inv(Next(s, a)) && Frame(s, Next(s, a), a.t)
  {
    var s' := Next(s, a);
    assert ThreadOk(s, a.t);
    StepFrame(s, a);
    forall t | t in s.threads
      ensures ThreadOk(s', t)
    {
      assert ThreadOk(s, t);
      if t == a.t { OwnThreadOk(s, a); } else { OtherThreadOk(s, s', a.t, t); }
    }
    KeepsReaderAwake(s, a);
    SharedFrame(s, a);
  }

  /** Safety over whole runs. */
  lemma {:induction false} RunInv(s: Fifo, run: seq<Action>)
    requires Inv(s) && Legal(s, run)
    ensures Inv(Exec(s, run))
    ensures |Exec(s, run).mem| == |s.mem| && Exec(s, run).threads.Keys == s.threads.Keys
    decreases run
  {
    if run != [] {
      StepInv(s, run[0]);
      RunInv(Next(s, run[0]), run[1..]);
    }
  }
}
