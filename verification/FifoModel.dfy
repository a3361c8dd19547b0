/**
 The globalfifo device as a transition system.  Any number of threads are each
 at one program point of a driver entry; every action executes one program
 point of one thread, delivers a signal, changes a file's O_NONBLOCK flag or
 starts a call.  The capacity is the length of `mem`.
 */
module FifoModel {
  import opened Basics
  import opened BoundedQueue

  const FIFO_CLEAR: nat := 1

  datatype Errno = EAGAIN | EFAULT | ERESTARTSYS | EINVAL
  datatype Result = Moved(n: nat) | Cleared | Ready(readable: bool, writable: bool) | Failed(errno: Errno)
  datatype Call = Read(want: nat) | Write(data: seq<Byte>) | Ioctl(cmd: nat) | Poll
  datatype Task = Running | Interruptible

  datatype Pc =
    | Idle                       // in user space
    | Lock                       // about to take the mutex for the first time
    | Enqueue                    // add_wait_queue
    | Check                      // the while condition and the O_NONBLOCK test
    | Doze                       // __set_current_state(TASK_INTERRUPTIBLE)
    | DropLock                   // mutex_unlock before sleeping
    | Schedule                   // schedule()
    | SigCheck                   // signal_pending(current)
    | Relock                     // mutex_lock at the end of the loop body
    | Copy                       // clamp count, copy_{to,from}_user
    | Shift                      // memcpy of the remaining bytes (read only)
    | SetLen                     // current_len -= / += count
    | Wake                       // wake_up_interruptible
    | ClearLen                   // ioctl: current_len = 0
    | ClearMem                   // ioctl: memset
    | ReadMask                   // poll: test for data
    | WriteMask(readable: bool)  // poll: test for room
    | Unlock(ret: Result)        // label out
    | Dequeue(ret: Result)       // label out2: remove_wait_queue
    | Leave(ret: Result)         // set_current_state(TASK_RUNNING), return

  /** `user` is the caller's buffer as far as a read has filled it; `effect` records the call's one visible act. */
  datatype Thread = Thread(
    pc: Pc, call: Call, nonblock: bool, count: nat,
    task: Task, onRead: bool, onWrite: bool, signal: bool,
    user: seq<Byte>, effect: Option<Effect>)

  datatype Fifo = Fifo(mem: seq<Byte>, len: nat, owner: Option<nat>, threads: map<nat, Thread>)

  datatype Action =
    | Begin(t: nat, call: Call)
    | Signal(t: nat)
    | SetFlags(t: nat, nonblock: bool)
    | Advance(t: nat, fault: bool, junk: seq<Byte>)  // a copy of at least one byte may fail, leaving junk

  predicate Io(c: Call) { c.Read? || c.Write? }

  predicate Holds(pc: Pc) {
    pc.Enqueue? || pc.Check? || pc.Doze? || pc.DropLock? || pc.Copy? || pc.Shift? || pc.SetLen? || pc.Wake? ||
    pc.ClearLen? || pc.ClearMem? || pc.ReadMask? || pc.WriteMask? || pc.Unlock?
  }

  predicate Queued(pc: Pc) {
    pc.Check? || pc.Doze? || pc.DropLock? || pc.Schedule? || pc.SigCheck? || pc.Relock? ||
    pc.Copy? || pc.Shift? || pc.SetLen? || pc.Wake? || pc.Unlock? || pc.Dequeue?
  }

  /** The memory after memcpy(mem, mem + count, len - count) on non-overlapping or ascending copies. */
  function Shifted(mem: seq<Byte>, len: nat, count: nat): (r: seq<Byte>)
    requires count <= len <= |mem|
    ensures |r| == |mem|
    ensures r[..len - count] == mem[count..len]
    ensures forall i :: len - count <= i < |mem| ==> r[i] == mem[i]
  {
    mem[count..len] + mem[len - count..]
  }

  /** Bytes a write will move: its size clamped to the room left. */
  function Room(s: Fifo, data: seq<Byte>): nat
    requires s.len <= |s.mem|
  {
    Min(|data|, |s.mem| - s.len)
  }

  /** No unsigned subtraction of the step underflows and no copy leaves `mem`. */
  predicate InBounds(s: Fifo, th: Thread) {
    match th.pc
    case Copy => s.len <= |s.mem|
    case Shift => th.count <= s.len <= |s.mem|
    case SetLen => (th.call.Read? ==> th.count <= s.len) && s.len <= |s.mem| &&
                   (th.call.Write? ==> th.count <= |s.mem| - s.len)
    case ClearLen => s.len <= |s.mem|
    case _ => true
  }

  /** mutex_lock waits for the owner; schedule() returns once the task is running or has a signal. */
  predicate Waits(s: Fifo, th: Thread) {
    match th.pc
    case Idle => true
    case Lock => s.owner.Some?
    case Relock => s.owner.Some?
    case Schedule => th.task.Interruptible? && !th.signal
    case _ => false
  }

  predicate Enabled(s: Fifo, a: Action) {
    a.t in s.threads &&
    var th := s.threads[a.t];
    match a
    case Begin(_, _) => th.pc.Idle?
    case Signal(_) => true
    case SetFlags(_, _) => true
    case Advance(_, fault, junk) =>
      !Waits(s, th) && InBounds(s, th) &&
      (th.pc.Copy? && th.call.Write? && fault ==> |junk| == Room(s, th.call.data))
  }

  /** What wake_up_interruptible does to one waiter of the queue. */
  function Roused(th: Thread, wakeReaders: bool): Thread {
    if (if wakeReaders then th.onRead else th.onWrite) then th.(task := Running) else th
  }

  function WakeAll(threads: map<nat, Thread>, wakeReaders: bool): map<nat, Thread> {
    map u | u in threads :: Roused(threads[u], wakeReaders)
  }

  function Put(s: Fifo, t: nat, th: Thread): Fifo {
    s.(threads := s.threads[t := th])
  }

  function AfterLock(c: Call): Pc {
    match c
    case Read(_) => Enqueue
    case Write(_) => Enqueue
    case Ioctl(_) => ClearLen
    case Poll => ReadMask
  }

  /** The queue condition of the while loop: nothing to read, or no room to write. */
  predicate MustWait(s: Fifo, c: Call) {
    if c.Read? then s.len == 0 else s.len == |s.mem|
  }

  function CheckStep(s: Fifo, t: nat, th: Thread): Thread {
    if MustWait(s, th.call) then
      if th.nonblock then
        th.(pc := Unlock(Failed(EAGAIN)), effect := Some(if th.call.Read? then Empty(t) else Full(t)))
      else th.(pc := Doze)
    else th.(pc := Copy)
  }

  function CopyStep(s: Fifo, t: nat, th: Thread, fault: bool, junk: seq<Byte>): Fifo
    requires s.len <= |s.mem|
    requires th.call.Write? && fault ==> |junk| == Room(s, th.call.data)
  {
    if th.call.Read? then
      var n := Min(th.call.want, s.len);
      if fault && n > 0 then Put(s, t, th.(count := n, pc := Unlock(Failed(EFAULT))))
      else Put(s, t, th.(count := n, user := s.mem[..n], pc := Shift))
    else if th.call.Write? then
      var n := Room(s, th.call.data);
      if fault && n > 0 then
        Put(s.(mem := Overlay(s.mem, s.len, junk)), t, th.(count := n, pc := Unlock(Failed(EFAULT))))
      else
        Put(s.(mem := Overlay(s.mem, s.len, th.call.data[..n])), t, th.(count := n, pc := SetLen))
    else s
  }

  function LenStep(s: Fifo, t: nat, th: Thread): Fifo
    requires th.call.Read? ==> th.count <= s.len
  {
    if th.call.Read? then Put(s.(len := s.len - th.count), t, th.(pc := Wake))
    else if th.call.Write? then
      Put(s.(len := s.len + th.count), t,
          th.(pc := Wake, effect := Some(Enq(t, th.call.data, th.call.data[..Min(th.count, |th.call.data|)]))))
    else s
  }

  function WakeStep(s: Fifo, t: nat, th: Thread): Fifo {
    Put(s.(threads := WakeAll(s.threads, !th.call.Read?)), t, th.(pc := Unlock(Moved(th.count))))
  }

  function AdvanceStep(s: Fifo, t: nat, fault: bool, junk: seq<Byte>): Fifo
    requires Enabled(s, Advance(t, fault, junk))
  {
    var th := s.threads[t];
    match th.pc
    case Idle => s
    case Lock => Put(s.(owner := Some(t)), t, th.(pc := AfterLock(th.call)))
    case Enqueue => Put(s, t, th.(pc := Check, onRead := th.call.Read?, onWrite := th.call.Write?))
    case Check => Put(s, t, CheckStep(s, t, th))
    case Doze => Put(s, t, th.(pc := DropLock, task := Interruptible))
    case DropLock => Put(s.(owner := None), t, th.(pc := Schedule))
    case Schedule => Put(s, t, th.(pc := SigCheck, task := Running))
    case SigCheck => Put(s, t, th.(pc := if th.signal then Dequeue(Failed(ERESTARTSYS)) else Relock))
    case Relock => Put(s.(owner := Some(t)), t, th.(pc := Check))
    case Copy => CopyStep(s, t, th, fault, junk)
    case Shift =>
      Put(s.(mem := Shifted(s.mem, s.len, th.count)), t,
          th.(pc := SetLen, effect := Some(Deq(t, if th.call.Read? then th.call.want else 0, th.user))))
    case SetLen => LenStep(s, t, th)
    case Wake => WakeStep(s, t, th)
    case ClearLen => Put(s.(len := 0), t, th.(pc := ClearMem, effect := Some(Clear(t, s.mem[..s.len]))))
    case ClearMem => Put(s.(mem := seq(|s.mem|, _ => 0)), t, th.(pc := Unlock(Cleared)))
    case ReadMask => Put(s, t, th.(pc := WriteMask(s.len != 0)))
    case WriteMask(readable) =>
      Put(s, t, th.(pc := Unlock(Ready(readable, s.len != |s.mem|)),
                    effect := Some(Mask(t, readable, s.len != |s.mem|))))
    case Unlock(ret) => Put(s.(owner := None), t, th.(pc := if Io(th.call) then Dequeue(ret) else Leave(ret)))
    case Dequeue(ret) => Put(s, t, th.(pc := Leave(ret), onRead := false, onWrite := false))
    case Leave(ret) => Put(s, t, th.(pc := Idle, task := if Io(th.call) then Running else th.task, signal := false))
  }

  function Next(s: Fifo, a: Action): Fifo
    requires Enabled(s, a)
  {
    var th := s.threads[a.t];
    match a
    case Begin(t, call) =>
      Put(s, t, Thread(if call.Ioctl? && call.cmd != FIFO_CLEAR then Leave(Failed(EINVAL)) else Lock,
                       call, th.nonblock, 0, th.task, th.onRead, th.onWrite, th.signal, [], None))
    case Signal(t) => Put(s, t, th.(signal := true, task := Running))
    case SetFlags(t, nonblock) => Put(s, t, th.(nonblock := nonblock))
    case Advance(t, fault, junk) => AdvanceStep(s, t, fault, junk)
  }

  predicate Fresh(th: Thread) {
    th.pc.Idle? && th.task.Running? && !th.onRead && !th.onWrite
  }

  /** The device just after initialisation: kzalloc'ed, unlocked, every thread in user space. */
  predicate Init(s: Fifo) {
    |s.mem| > 0 && s.len == 0 && s.owner.None? &&
    forall t :: t in s.threads ==> Fresh(s.threads[t])
  }

  /** A run is a sequence of actions each enabled where it is taken. */
  predicate Legal(s: Fifo, run: seq<Action>)
    decreases run
  {
    run == [] || (Enabled(s, run[0]) && Legal(Next(s, run[0]), run[1..]))
  }

  function Exec(s: Fifo, run: seq<Action>): Fifo
    requires Legal(s, run)
    decreases run
  {
    if run == [] then s else Exec(Next(s, run[0]), run[1..])
  }

  lemma {:induction false} RunConcat(s: Fifo, run: seq<Action>, more: seq<Action>)
    requires Legal(s, run) && Legal(Exec(s, run), more)
    ensures Legal(s, run + more) && Exec(s, run + more) == Exec(Exec(s, run), more)
    decreases run
  {
    if run == [] {
      assert run + more == more;
    } else {
      assert (run + more)[1..] == run[1..] + more;
      RunConcat(Next(s, run[0]), run[1..], more);
    }
  }
}
