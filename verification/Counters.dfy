/**
 The two kernel threads of globalmem that increment one plain variable under four kinds of lock and one atomic
 beside it.  An increment of the plain variable is a load step and a store step; locks are held exactly between
 their Lock and Unlock points.
 */
module Counters {
  datatype Section = Mutex | Spin | Rw | Atomic | Seq | Stopped
  datatype Point = Lock | Load | Store | Unlock

  /** A thread is about to execute point `pt` of section `sec`; `reg` is what it loaded. */
  datatype Thread = Thread(sec: Section, pt: Point, reg: int)

  /** `seqNo` is the seqlock's sequence number and `seen` the one the reader started with. */
  datatype State = State(x: int, atomic: nat, seqNo: nat, seen: nat, one: Thread, two: Thread)

  datatype Action = Run(first: bool) | Stop(first: bool)

  predicate Inside(th: Thread, sec: Section) { th.sec == sec && th.pt != Lock }

  /** thread_function: mutex and spinlock increments, a reader of the rwlock, the atomic, a seqlock reader. */
  predicate EnabledOne(s: State) {
    match s.one.sec
    case Mutex => s.one.pt == Lock ==> !Inside(s.two, Mutex)
    case Spin => s.one.pt == Lock ==> !Inside(s.two, Spin)
    case Rw => s.one.pt == Lock ==> !Inside(s.two, Rw)
    case Atomic => true
    case Seq => s.one.pt == Lock ==> s.seqNo % 2 == 0
    case Stopped => false
  }

  /** thread_function2: increments under mutex, spinlock, rwlock writer and seqlock writer, and the atomic. */
  predicate EnabledTwo(s: State) {
    match s.two.sec
    case Mutex => s.two.pt == Lock ==> !Inside(s.one, Mutex)
    case Spin => s.two.pt == Lock ==> !Inside(s.one, Spin)
    case Rw => s.two.pt == Lock ==> !Inside(s.one, Rw)
    case Atomic => true
    case Seq => true
    case Stopped => false
  }

  predicate Enabled(s: State, a: Action) {
    match a
    case Run(first) => if first then EnabledOne(s) else EnabledTwo(s)
    case Stop(first) => var th := if first then s.one else s.two; th.sec == Mutex && th.pt == Lock
  }

  function Goto(th: Thread, sec: Section): Thread { th.(sec := sec, pt := Lock) }

  /** One point of `globalmem_thread_variable++` between its lock and unlock; `next` is the section that follows. */
  function Increment(x: int, th: Thread, next: Section): (int, Thread) {
    match th.pt
    case Lock => (x, th.(pt := Load))
    case Load => (x, th.(pt := Store, reg := x))
    case Store => (th.reg + 1, th.(pt := Unlock))
    case Unlock => (x, Goto(th, next))
  }

  function RunOne(s: State): State {
    match s.one.sec
    case Mutex => var (x, th) := Increment(s.x, s.one, Spin); s.(x := x, one := th)
    case Spin => var (x, th) := Increment(s.x, s.one, Rw); s.(x := x, one := th)
    case Rw => s.(one := if s.one.pt == Lock then s.one.(pt := Unlock) else Goto(s.one, Atomic))
    case Atomic => s.(atomic := s.atomic + 1, one := Goto(s.one, Seq))
    case Seq =>
      (match s.one.pt
       case Lock => s.(seen := s.seqNo, one := s.one.(pt := Load))
       case Load => s.(one := s.one.(pt := Unlock, reg := s.x))
       case _ => s.(one := Goto(s.one, if s.seqNo != s.seen then Seq else Mutex)))
    case Stopped => s
  }

  function RunTwo(s: State): State {
    match s.two.sec
    case Mutex => var (x, th) := Increment(s.x, s.two, Spin); s.(x := x, two := th)
    case Spin => var (x, th) := Increment(s.x, s.two, Rw); s.(x := x, two := th)
    case Rw => var (x, th) := Increment(s.x, s.two, Atomic); s.(x := x, two := th)
    case Atomic => s.(atomic := s.atomic + 1, two := Goto(s.two, Seq))
    case Seq =>
      var (x, th) := Increment(s.x, s.two, Mutex);
      s.(x := x, two := th, seqNo := if s.two.pt == Lock || s.two.pt == Unlock then s.seqNo + 1 else s.seqNo)
    case Stopped => s
  }

  function Next(s: State, a: Action): State
    requires Enabled(s, a)
  {
    match a
    case Run(first) => if first then RunOne(s) else RunTwo(s)
    case Stop(first) => if first then s.(one := Goto(s.one, Stopped)) else s.(two := Goto(s.two, Stopped))
  }

  predicate Init(s: State) {
    s.x == 0 && s.atomic == 0 && s.seqNo % 2 == 0 && s.one == Thread(Mutex, Lock, 0) && s.two == Thread(Mutex, Lock, 0)
  }

  predicate Legal(s: State, run: seq<Action>)
    decreases run
  {
    run == [] || (Enabled(s, run[0]) && Legal(Next(s, run[0]), run[1..]))
  }

  function Exec(s: State, run: seq<Action>): State
    requires Legal(s, run)
    decreases run
  {
    if run == [] then s else Exec(Next(s, run[0]), run[1..])
  }

  predicate Stores(s: State, a: Action) {
    a.Run? && (if a.first then (s.one.sec == Mutex || s.one.sec == Spin) && s.one.pt == Store
               else s.two.sec != Atomic && s.two.sec != Stopped && s.two.pt == Store)
  }

  predicate AtomicIncs(s: State, a: Action) {
    a.Run? && (if a.first then s.one.sec == Atomic else s.two.sec == Atomic)
  }

  /** Increments of the plain variable completed in a run. */
  function StoreCount(s: State, run: seq<Action>): nat
    requires Legal(s, run)
    decreases run
  {
    if run == [] then 0
    else (if Stores(s, run[0]) then 1 else 0) + StoreCount(Next(s, run[0]), run[1..])
  }

  function AtomicCount(s: State, run: seq<Action>): nat
    requires Legal(s, run)
    decreases run
  {
    if run == [] then 0
    else (if AtomicIncs(s, run[0]) then 1 else 0) + AtomicCount(Next(s, run[0]), run[1..])
  }

  // --------------------------------------------------------- how stale a load gets

  predicate Loaded(th: Thread) { th.pt == Store }

  /** The section of the thread's next store. */
  function Pending(th: Thread): Section {
    match th.sec
    case Mutex => if th.pt == Unlock then Spin else Mutex
    case Spin => if th.pt == Unlock then Rw else Spin
    case Rw => if th.pt == Unlock then Seq else Rw
    case Atomic => Seq
    case Seq => if th.pt == Unlock then Mutex else Seq
    case Stopped => Mutex
  }

  /** Whether the first thread's next store is the one under the mutex. */
  predicate BeforeMutex(one: Thread) { Pending(one) != Spin }

  /** Stores the second thread can have made since the first took the lock it holds. */
  function StoresOfTwo(sec: Section, pending: Section): int {
    if sec == Mutex then
      match pending case Spin => 0 case Rw => 1 case Seq => 2 case _ => 3
    else
      match pending case Rw => 0 case Seq => 1 case Mutex => 2 case _ => 3
  }

  /** Stores the first thread can have made since the second took the lock it holds. */
  function StoresOfOne(sec: Section, one: Thread): int {
    match sec
    case Mutex => if BeforeMutex(one) then 1 else 0
    case Spin => if BeforeMutex(one) then 0 else 1
    case Rw => if !BeforeMutex(one) then 1 else if one.sec == Spin || one.sec == Rw then 2 else 0
    case _ =>
      if !BeforeMutex(one) then 1
      else if one.sec == Spin || one.sec == Rw || one.sec == Atomic || (one.sec == Seq && one.pt == Lock) then 2
      else 0
  }

  predicate Shape(s: State) {
    && (s.one.sec == Rw ==> s.one.pt == Lock || s.one.pt == Unlock)
    && (s.one.sec == Atomic || s.one.sec == Stopped ==> s.one.pt == Lock)
    && (s.one.sec == Seq ==> s.one.pt != Store)
    && (s.two.sec == Atomic || s.two.sec == Stopped ==> s.two.pt == Lock)
    && (s.seqNo % 2 == 1 <==> Inside(s.two, Seq))
    && !(Inside(s.one, Mutex) && Inside(s.two, Mutex))
    && !(Inside(s.one, Spin) && Inside(s.two, Spin))
    && !(Inside(s.one, Rw) && Inside(s.two, Rw))
  }

  /** How far the variable has moved since each thread's load, while it has one outstanding. */
  predicate Stale(s: State) {
    var d1, d2 := s.x - s.one.reg, s.x - s.two.reg;
    && (Loaded(s.one) ==> 0 <= d1 <= StoresOfTwo(s.one.sec, Pending(s.two)))
    && (Loaded(s.two) ==>
          (if StoresOfOne(s.two.sec, s.one) == 1 && (s.two.sec == Mutex || s.two.sec == Seq) then -1 else 0)
          <= d2 <= StoresOfOne(s.two.sec, s.one))
    && (Loaded(s.one) && Loaded(s.two) && s.one.sec == Spin && s.two.sec == Seq ==> d1 - d2 <= 1)
  }

  predicate Inv(s: State) { Shape(s) && Stale(s) }

  lemma InitInv(s: State)
    requires Init(s)
    ensures Inv(s)
  {
  }

  lemma StepOneInv(s: State)
    requires Inv(s) && EnabledOne(s)
    ensures Inv(RunOne(s))
  {
  }

  lemma StepTwoInv(s: State)
    requires Inv(s) && EnabledTwo(s)
    ensures Inv(RunTwo(s))
  {
  }

  lemma StepInv(s: State, a: Action)
    requires Inv(s) && Enabled(s, a)
    ensures Inv(Next(s, a))
  {
    if a.Run? {
      if a.first { StepOneInv(s); } else { StepTwoInv(s); }
    }
  }

  lemma {:induction false} RunInv(s: State, run: seq<Action>)
    requires Inv(s) && Legal(s, run)
    ensures Inv(Exec(s, run))
    decreases run
  {
    if run != [] {
      StepInv(s, run[0]);
      RunInv(Next(s, run[0]), run[1..]);
    }
  }

  /** However the threads interleave, one store of the first thread loses at most 2, one of the second at most 1. */
  lemma LoweringBound(s0: State, run: seq<Action>, a: Action)
    requires Init(s0) && Legal(s0, run) && Enabled(Exec(s0, run), a)
    ensures Next(Exec(s0, run), a).x >= Exec(s0, run).x - (if a.Run? && a.first then 2 else 1)
  {
    InitInv(s0);
    RunInv(s0, run);
  }

  // ------------------------------------------------------- how much is lost overall

  /** Credit that three times the variable keeps over the increments completed, by the second thread's next store. */
  function Idle(beforeMutex: bool, pending: Section): int {
    if beforeMutex then (match pending case Spin => 2 case Rw => 1 case _ => 0)
    else (match pending case Spin => 3 case Rw => 3 case Seq => 2 case _ => 1)
  }

  /** The same while the first thread has a load outstanding, before counting how stale it is. */
  function Busy(sec: Section, pending: Section): int {
    if sec == Mutex then (match pending case Spin => 2 case Rw => 1 case Seq => 0 case _ => -1)
    else (match pending case Rw => 3 case Seq => 2 case Mutex => 1 case _ => 0)
  }

  function Max(a: int, b: int): int { if a >= b then a else b }

  /** The section of the second thread's store after next. */
  function Following(pending: Section): Section {
    match pending case Mutex => Spin case Spin => Rw case Rw => Seq case _ => Mutex
  }

  function Credit(s: State): int {
    var d1, d2, p := s.x - s.one.reg, s.x - s.two.reg, Pending(s.two);
    if Loaded(s.one) then
      var own := Max(0, 3 * d1 + Busy(s.one.sec, p));
      if Loaded(s.two) then Max(own, 3 * d2 + Idle(s.one.sec == Spin, Following(p)) - 1) else own
    else
      var rest := Idle(BeforeMutex(s.one), p);
      if Loaded(s.two) then Max(rest, 3 * d2 + Idle(BeforeMutex(s.one), Following(p)) - 2) else rest
  }

  lemma CreditOne(s: State)
    requires Inv(s) && EnabledOne(s)
    ensures Credit(RunOne(s)) <= Credit(s) + 3 * (RunOne(s).x - s.x) - (if Stores(s, Run(true)) then 1 else 0)
  {
  }

  lemma CreditTwo(s: State)
    requires Inv(s) && EnabledTwo(s)
    ensures Credit(RunTwo(s)) <= Credit(s) + 3 * (RunTwo(s).x - s.x) - (if Stores(s, Run(false)) then 1 else 0)
  {
  }

  lemma {:induction false} RunCredit(s: State, run: seq<Action>)
    requires Inv(s) && Legal(s, run)
    ensures StoreCount(s, run) + Credit(Exec(s, run)) <= Credit(s) + 3 * (Exec(s, run).x - s.x)
    decreases run
  {
    if run != [] {
      var a, s' := run[0], Next(s, run[0]);
      StepInv(s, a);
      if a.Run? {
        if a.first { CreditOne(s); } else { CreditTwo(s); }
      }
      RunCredit(s', run[1..]);
    }
  }

  /** Neither the variable nor an outstanding load exceeds `n`. */
  predicate Under(s: State, n: nat) {
    s.x <= n && (Loaded(s.one) ==> s.one.reg <= n) && (Loaded(s.two) ==> s.two.reg <= n)
  }

  lemma {:induction false} RunUnder(s: State, n: nat, run: seq<Action>)
    requires Inv(s) && Under(s, n) && Legal(s, run)
    ensures Under(Exec(s, run), n + StoreCount(s, run))
    decreases run
  {
    if run != [] {
      var a, s' := run[0], Next(s, run[0]);
      StepInv(s, a);
      RunUnder(s', n + (if Stores(s, a) then 1 else 0), run[1..]);
    }
  }

  /**
   In every run the variable lies between a third of the increments completed and all of them: the mixed locks
   lose updates, but never more than two in three.
   */
  lemma ThirdSurvives(s0: State, run: seq<Action>)
    requires Init(s0) && Legal(s0, run)
    ensures StoreCount(s0, run) <= 3 * Exec(s0, run).x
    ensures Exec(s0, run).x <= StoreCount(s0, run)
  {
    InitInv(s0);
    RunInv(s0, run);
    RunCredit(s0, run);
    RunUnder(s0, 0, run);
  }

  /** Since a thread loaded, the other has stored: a store of the first (second) thread on it loses an update. */
  datatype Crossed = Crossed(one: bool, two: bool)

  /** Only the schedule decides: a thread's own step uncrosses it, a store of the other crosses it. */
  function Cross(c: Crossed, s: State, a: Action): Crossed {
    match a
    case Run(true) => Crossed(false, c.two || Stores(s, a))
    case Run(false) => Crossed(c.one || Stores(s, a), false)
    case Stop(_) => c
  }

  predicate ApartFrom(c: Crossed, s: State, run: seq<Action>)
    requires Legal(s, run)
    decreases run
  {
    run == [] ||
    (!(Stores(s, run[0]) && (if run[0].first then c.one else c.two)) &&
     ApartFrom(Cross(c, s, run[0]), Next(s, run[0]), run[1..]))
  }

  /** No store of one thread falls between a load of the other and the store that follows the load. */
  predicate Apart(s: State, run: seq<Action>)
    requires Legal(s, run)
  {
    ApartFrom(Crossed(false, false), s, run)
  }

  /** What a load is worth: behind all `n` increments if it was crossed, else what the variable holds. */
  predicate Worth(th: Thread, crossed: bool, x: int, n: nat) {
    Loaded(th) ==> if crossed then th.reg < n else th.reg == x
  }

  predicate Tally(c: Crossed, s: State, n: nat) {
    s.x <= n && Worth(s.one, c.one, s.x, n) && Worth(s.two, c.two, s.x, n)
  }

  lemma StepTally(c: Crossed, s: State, n: nat, a: Action)
    requires Inv(s) && Tally(c, s, n) && Enabled(s, a)
    ensures var s', n' := Next(s, a), n + (if Stores(s, a) then 1 else 0);
      && Tally(Cross(c, s, a), s', n')
      && (s'.x == n' <==> s.x == n && !(Stores(s, a) && (if a.first then c.one else c.two)))
  {
  }

  lemma {:induction false} RunTally(c: Crossed, s: State, n: nat, run: seq<Action>)
    requires Inv(s) && Tally(c, s, n) && Legal(s, run)
    ensures Exec(s, run).x == n + StoreCount(s, run) <==> s.x == n && ApartFrom(c, s, run)
    decreases run
  {
    if run != [] {
      var a := run[0];
      StepInv(s, a);
      StepTally(c, s, n, a);
      RunTally(Cross(c, s, a), Next(s, a), n + (if Stores(s, a) then 1 else 0), run[1..]);
    }
  }

  /** Exactly which runs lose nothing. */
  lemma NothingLostExactly(s0: State, run: seq<Action>)
    requires Init(s0) && Legal(s0, run)
    ensures Exec(s0, run).x == StoreCount(s0, run) <==> Apart(s0, run)
  {
    InitInv(s0);
    RunTally(Crossed(false, false), s0, 0, run);
  }

  // -------------------------------------------------------------- whole passes

  /** The step that begins a pass of a thread's loop. */
  predicate Begins(s: State, a: Action, first: bool) {
    var th := if first then s.one else s.two;
    a == Run(first) && th.sec == Mutex && th.pt == Lock
  }

  function Passes(s: State, run: seq<Action>, first: bool): nat
    requires Legal(s, run)
    decreases run
  {
    if run == [] then 0
    else (if Begins(s, run[0], first) then 1 else 0) + Passes(Next(s, run[0]), run[1..], first)
  }

  predicate BetweenPasses(th: Thread) { th.sec == Stopped || (th.sec == Mutex && th.pt == Lock) }

  /** Increments of the plain variable a thread still owes in its current pass, out of two and out of four. */
  function Owes(th: Thread, first: bool): nat {
    var done := if th.pt == Unlock then 1 else 0;
    if BetweenPasses(th) then 0
    else if first then (match th.sec case Mutex => 2 - done case Spin => 1 - done case _ => 0)
    else
      match th.sec
      case Mutex => 4 - done
      case Spin => 3 - done
      case Rw => 2 - done
      case Atomic => 1
      case Seq => 1 - done
      case Stopped => 0
  }

  /** The one increment of the atomic, until it has been made. */
  function OwesAtomic(th: Thread): nat {
    if BetweenPasses(th) || th.sec == Seq then 0 else 1
  }

  lemma StepPasses(s: State, a: Action)
    requires Inv(s) && Enabled(s, a)
    ensures var s', p1, p2 := Next(s, a), if Begins(s, a, true) then 1 else 0, if Begins(s, a, false) then 1 else 0;
      && s'.atomic + OwesAtomic(s'.one) + OwesAtomic(s'.two)
         == s.atomic + OwesAtomic(s.one) + OwesAtomic(s.two) + p1 + p2
      && (if Stores(s, a) then 1 else 0) + Owes(s'.one, true) + Owes(s'.two, false)
         == Owes(s.one, true) + Owes(s.two, false) + 2 * p1 + 4 * p2
  {
  }

  lemma {:induction false} RunPasses(s: State, run: seq<Action>)
    requires Inv(s) && Legal(s, run)
    ensures var s', p1, p2 := Exec(s, run), Passes(s, run, true), Passes(s, run, false);
      && s'.atomic + OwesAtomic(s'.one) + OwesAtomic(s'.two)
         == s.atomic + OwesAtomic(s.one) + OwesAtomic(s.two) + p1 + p2
      && StoreCount(s, run) + Owes(s'.one, true) + Owes(s'.two, false)
         == Owes(s.one, true) + Owes(s.two, false) + 2 * p1 + 4 * p2
    decreases run
  {
    if run != [] {
      StepInv(s, run[0]);
      StepPasses(s, run[0]);
      RunPasses(Next(s, run[0]), run[1..]);
    }
  }

  /**
   Whenever both threads are between passes: each pass has incremented the atomic once, a pass of the first thread the
   plain variable twice and one of the second four times, and of these a third at least survive.
   */
  lemma WholePasses(s0: State, run: seq<Action>)
    requires Init(s0) && Legal(s0, run) && BetweenPasses(Exec(s0, run).one) && BetweenPasses(Exec(s0, run).two)
    ensures var p1, p2 := Passes(s0, run, true), Passes(s0, run, false);
      && Exec(s0, run).atomic == p1 + p2
      && StoreCount(s0, run) == 2 * p1 + 4 * p2
      && Exec(s0, run).x <= 2 * p1 + 4 * p2 <= 3 * Exec(s0, run).x
  {
    InitInv(s0);
    RunPasses(s0, run);
    ThirdSurvives(s0, run);
  }

  // --------------------------------------------------------- the width of a C int

  const TWO31: int := 0x8000_0000
  const TWO32: int := 0x1_0000_0000

  /** The value that 32-bit two's complement keeps of `x`. */
  function Int32(x: int): (r: int)
    ensures -TWO31 <= r < TWO31
    ensures -TWO31 <= x < TWO31 ==> r == x
  {
    (x + TWO31) % TWO32 - TWO31
  }

  function Narrow(th: Thread): Thread { th.(reg := Int32(th.reg)) }

  /** The same state in 32-bit variables. */
  function Low(s: State): State { s.(x := Int32(s.x), one := Narrow(s.one), two := Narrow(s.two)) }

  /** A step on 32-bit variables. */
  function NextInt(s: State, a: Action): State
    requires Enabled(s, a)
  {
    Low(Next(s, a))
  }

  predicate LegalInt(s: State, run: seq<Action>)
    decreases run
  {
    run == [] || (Enabled(s, run[0]) && LegalInt(NextInt(s, run[0]), run[1..]))
  }

  function ExecInt(s: State, run: seq<Action>): State
    requires LegalInt(s, run)
    decreases run
  {
    if run == [] then s else ExecInt(NextInt(s, run[0]), run[1..])
  }

  lemma Int32Succ(x: int)
    ensures Int32(Int32(x) + 1) == Int32(x + 1)
  {
    var q, r := (x + TWO31) / TWO32, (x + TWO31) % TWO32;
    assert x + 1 + TWO31 == TWO32 * q + (r + 1);
    assert Int32(x) + 1 + TWO31 == r + 1;
  }

  lemma LowIncrement(x: int, th: Thread, next: Section)
    ensures var (y, u), (y', u') := Increment(Int32(x), Narrow(th), next), Increment(x, th, next);
      Int32(y) == Int32(y') && Narrow(u) == Narrow(u')
  {
    if th.pt == Store { Int32Succ(th.reg); }
  }

  lemma LowOne(s: State)
    ensures Low(RunOne(Low(s))) == Low(RunOne(s))
  {
    LowIncrement(s.x, s.one, if s.one.sec == Mutex then Spin else Rw);
  }

  lemma LowTwo(s: State)
    ensures Low(RunTwo(Low(s))) == Low(RunTwo(s))
  {
    LowIncrement(s.x, s.two, match s.two.sec case Mutex => Spin case Spin => Rw case Rw => Atomic case _ => Mutex);
  }

  lemma LowStep(s: State, a: Action)
    ensures Enabled(Low(s), a) == Enabled(s, a)
    ensures Enabled(s, a) ==> NextInt(Low(s), a) == Low(Next(s, a))
  {
    LowOne(s);
    LowTwo(s);
  }

  /** The 32-bit run goes where the unbounded one goes, modulo 2^32, for any length. */
  lemma {:induction false} LowRun(s: State, run: seq<Action>)
    ensures LegalInt(Low(s), run) == Legal(s, run)
    ensures Legal(s, run) ==> ExecInt(Low(s), run) == Low(Exec(s, run))
    decreases run
  {
    if run != [] {
      LowStep(s, run[0]);
      if Enabled(s, run[0]) { LowRun(Next(s, run[0]), run[1..]); }
    }
  }

  /** On C ints the bounds hold as they stand until 2^31 increments are completed, and modulo 2^32 from then on. */
  lemma ThirdSurvivesInt(s0: State, run: seq<Action>)
    requires Init(s0) && LegalInt(s0, run)
    ensures Legal(s0, run) && ExecInt(s0, run).x == Int32(Exec(s0, run).x)
    ensures StoreCount(s0, run) < TWO31 ==>
              ExecInt(s0, run).x <= StoreCount(s0, run) <= 3 * ExecInt(s0, run).x &&
              (ExecInt(s0, run).x == StoreCount(s0, run) <==> Apart(s0, run))
  {
    assert Low(s0) == s0;
    LowRun(s0, run);
    ThirdSurvives(s0, run);
    NothingLostExactly(s0, run);
  }

  /** The atomic counter equals its increments exactly. */
  lemma {:induction false} AtomicExact(s: State, run: seq<Action>)
    requires Legal(s, run)
    ensures Exec(s, run).atomic == s.atomic + AtomicCount(s, run)
    decreases run
  {
    if run != [] { AtomicExact(Next(s, run[0]), run[1..]); }
  }

  // ------------------------------------------------------ the seqlock reader

  predicate EntersSeq(s: State, a: Action) { a.Run? && !a.first && s.two.sec == Seq && s.two.pt == Lock }

  /** Seqlock write sections begun in a run, and increments made inside them. */
  function SeqEntries(s: State, run: seq<Action>): nat
    requires Legal(s, run)
    decreases run
  {
    if run == [] then 0
    else (if EntersSeq(s, run[0]) then 1 else 0) + SeqEntries(Next(s, run[0]), run[1..])
  }

  function SeqStores(s: State, run: seq<Action>): nat
    requires Legal(s, run)
    decreases run
  {
    if run == [] then 0
    else (if Stores(s, run[0]) && !run[0].first && s.two.sec == Seq then 1 else 0)
         + SeqStores(Next(s, run[0]), run[1..])
  }

  function StepsOfOne(run: seq<Action>): nat {
    if run == [] then 0 else (if run[0] == Run(true) then 1 else 0) + StepsOfOne(run[1..])
  }

  /** The sequence number stands still exactly while no write section begins, if none was open. */
  lemma {:induction false} SeqNoStands(s: State, run: seq<Action>)
    requires Inv(s) && Legal(s, run)
    ensures Exec(s, run).seqNo >= s.seqNo + SeqEntries(s, run)
    ensures s.seqNo % 2 == 0 && SeqEntries(s, run) == 0 ==> Exec(s, run).seqNo == s.seqNo && SeqStores(s, run) == 0
    decreases run
  {
    if run != [] {
      StepInv(s, run[0]);
      SeqNoStands(Next(s, run[0]), run[1..]);
    }
  }

  /** Between its begin and its retry check the reader only loads. */
  lemma {:induction false} ReaderWaits(s: State, run: seq<Action>)
    requires Legal(s, run) && s.one.sec == Seq
    requires (s.one.pt == Load && StepsOfOne(run) == 1) || (s.one.pt == Unlock && StepsOfOne(run) == 0)
    ensures Exec(s, run).one.sec == Seq && Exec(s, run).one.pt == Unlock && Exec(s, run).seen == s.seen
    decreases run
  {
    if run != [] { ReaderWaits(Next(s, run[0]), run[1..]); }
  }

  /**
   A reader of the seqlock that began, loaded and now checks, with anything of the second thread in between, is
   let go exactly when no write section has begun since; its value then was not written under it.
   */
  lemma SeqReadUndisturbed(s: State, run: seq<Action>)
    requires Inv(s) && s.one.sec == Seq && s.one.pt == Lock && EnabledOne(s)
    requires Legal(RunOne(s), run) && StepsOfOne(run) == 1
    ensures var t := Exec(RunOne(s), run);
      && EnabledOne(t)
      && (RunOne(t).one.sec == Mutex <==> SeqEntries(RunOne(s), run) == 0)
      && (RunOne(t).one.sec == Mutex ==> SeqStores(RunOne(s), run) == 0)
  {
    StepInv(s, Run(true));
    SeqNoStands(RunOne(s), run);
    ReaderWaits(RunOne(s), run);
  }

  // ------------------------------------------------------ the bounds are attained

  /** Some run leads from `s` to `t` and completes `n` increments on the way. */
  ghost predicate Reaches(s: State, t: State, n: nat) {
    exists run :: Legal(s, run) && Exec(s, run) == t && StoreCount(s, run) == n
  }

  lemma Stay(s: State)
    ensures Reaches(s, s, 0)
  {
    assert Legal(s, []) && Exec(s, []) == s && StoreCount(s, []) == 0;
  }

  lemma {:induction false} Snoc(s: State, run: seq<Action>, a: Action)
    requires Legal(s, run) && Enabled(Exec(s, run), a)
    ensures Legal(s, run + [a]) && Exec(s, run + [a]) == Next(Exec(s, run), a)
    ensures StoreCount(s, run + [a]) == StoreCount(s, run) + (if Stores(Exec(s, run), a) then 1 else 0)
    decreases run
  {
    if run == [] {
      assert run + [a] == [a] && [a][1..] == [];
      assert Legal(Next(s, a), []);
    } else {
      assert (run + [a])[1..] == run[1..] + [a];
      Snoc(Next(s, run[0]), run[1..], a);
    }
  }

  lemma Go(s: State, mid: State, n: nat, first: bool) returns (t: State, m: nat)
    requires Reaches(s, mid, n) && Enabled(mid, Run(first))
    ensures t == Next(mid, Run(first)) && m == n + (if Stores(mid, Run(first)) then 1 else 0)
    ensures Reaches(s, t, m)
  {
    var run :| Legal(s, run) && Exec(s, run) == mid && StoreCount(s, run) == n;
    Snoc(s, run, Run(first));
    t, m := Next(mid, Run(first)), n + (if Stores(mid, Run(first)) then 1 else 0);
  }

  /** The second thread takes a whole increment while the first waits. */
  lemma WholeIncrement(s: State, mid: State, n: nat) returns (t: State, m: nat)
    requires Reaches(s, mid, n) && mid.two.pt == Lock && EnabledTwo(mid)
    requires mid.two.sec != Atomic && mid.two.sec != Stopped
    ensures Reaches(s, t, m) && m == n + 1 && t.x == mid.x + 1 && t.one == mid.one && t.seqNo % 2 == mid.seqNo % 2
    ensures t.two.pt == Lock &&
            t.two.sec == match mid.two.sec case Mutex => Spin case Spin => Rw case Rw => Atomic case _ => Mutex
  {
    t, m := Go(s, mid, n, false);
    t, m := Go(s, t, m, false);
    t, m := Go(s, t, m, false);
    t, m := Go(s, t, m, false);
  }

  predicate Resting(s: State) {
    s.one.sec == Mutex && s.one.pt == Lock && s.two.sec == Spin && s.two.pt == Lock && s.seqNo % 2 == 0
  }

  /** While the first thread holds a stale load under the mutex, the second completes its other three increments. */
  lemma StaleUnderMutex(s: State, mid: State, n: nat) returns (t: State, m: nat)
    requires Reaches(s, mid, n) && Resting(mid)
    ensures Reaches(s, t, m) && m == n + 3 && t.x == mid.x + 3 && t.seqNo % 2 == 0
    ensures t.one == Thread(Mutex, Store, mid.x) && t.two.sec == Mutex && t.two.pt == Lock
  {
    t, m := Go(s, mid, n, true);
    t, m := Go(s, t, m, true);
    t, m := WholeIncrement(s, t, m);
    t, m := WholeIncrement(s, t, m);
    t, m := Go(s, t, m, false);
    t, m := WholeIncrement(s, t, m);
  }

  /** Its store throws all three away; under the spinlock the same happens to one more. */
  lemma StaleUnderSpin(s: State, mid: State, n: nat) returns (t: State, m: nat)
    requires Reaches(s, mid, n) && Loaded(mid.one) && mid.one.sec == Mutex
    requires mid.two.sec == Mutex && mid.two.pt == Lock && mid.seqNo % 2 == 0
    ensures Reaches(s, t, m) && m == n + 3 && t.x == mid.one.reg + 2 && t.seqNo % 2 == 0
    ensures t.one.sec == Spin && t.one.pt == Unlock && t.two.sec == Spin && t.two.pt == Lock
  {
    t, m := Go(s, mid, n, true);
    t, m := Go(s, t, m, true);
    t, m := Go(s, t, m, true);
    t, m := Go(s, t, m, true);
    t, m := WholeIncrement(s, t, m);
    t, m := Go(s, t, m, true);
  }

  /** The first thread's way back to the top of its loop stores nothing. */
  lemma BackToTop(s: State, mid: State, n: nat) returns (t: State)
    requires Reaches(s, mid, n) && mid.one.sec == Spin && mid.one.pt == Unlock
    requires mid.two.sec == Spin && mid.two.pt == Lock && mid.seqNo % 2 == 0
    ensures Reaches(s, t, n) && t.x == mid.x && Resting(t)
  {
    var m := n;
    t, m := Go(s, mid, m, true);
    t, m := Go(s, t, m, true);
    t, m := Go(s, t, m, true);
    t, m := Go(s, t, m, true);
    t, m := Go(s, t, m, true);
    t, m := Go(s, t, m, true);
    t, m := Go(s, t, m, true);
  }

  /** One third is tight: for every k some run completes 6k+1 increments and leaves the variable at 2k+1. */
  lemma {:induction false} ThirdIsTight(s0: State, k: nat) returns (t: State)
    requires Init(s0)
    ensures Reaches(s0, t, 6 * k + 1) && t.x == 2 * k + 1 && Resting(t)
    decreases k
  {
    var m: nat;
    if k == 0 {
      Stay(s0);
      t, m := WholeIncrement(s0, s0, 0);
    } else {
      t := ThirdIsTight(s0, k - 1);
      t, m := StaleUnderMutex(s0, t, 6 * (k - 1) + 1);
      t, m := StaleUnderSpin(s0, t, m);
      t := BackToTop(s0, t, m);
    }
  }

  /** A store that lowers the variable by 2 does happen, so updates are lost. */
  lemma LoweringByTwoHappens(s0: State) returns (t: State, m: nat)
    requires Init(s0)
    ensures Reaches(s0, t, m) && Enabled(t, Run(true)) && Next(t, Run(true)).x == t.x - 2
  {
    t := ThirdIsTight(s0, 0);
    t, m := StaleUnderMutex(s0, t, 1);
  }
}
