/** Wake-ups: who may be asleep in which state, and what FIFO_CLEAR does to sleeping writers. */
module FifoWakeups {
  import opened Basics
  import opened FifoModel
  import opened FifoInvariant

  // ---------------------------------------------------------------- readers

  predicate SleepingReader(s: Fifo, t: nat) {
    t in s.threads && Asleep(s.threads[t]) && s.threads[t].call.Read?
  }

  predicate SleepingWriter(s: Fifo, t: nat) {
    t in s.threads && Asleep(s.threads[t]) && s.threads[t].call.Write?
  }

  /** In every reachable state a sleeping reader sits on r_wait, and there is nothing to read or a wake is due. */
  lemma NoLostReaderWakeup(s0: Fifo, run: seq<Action>, t: nat)
    requires Init(s0) && Legal(s0, run) && SleepingReader(Exec(s0, run), t)
    ensures var s := Exec(s0, run); s.threads[t].onRead && (s.len == 0 || WriterAtWake(s))
  {
    InitInv(s0);
    RunInv(s0, run);
  }

  /** A write's wake leaves no reader asleep, so no reader can use up the wake of another. */
  lemma WakeReachesEveryReader(s: Fifo, a: Action, t: nat)
    requires Inv(s) && Enabled(s, a) && WakesReaders(s, a)
    ensures !SleepingReader(Next(s, a), t)
  {
    if t in s.threads {
      assert ThreadOk(s, t) && ThreadOk(s, a.t);
    }
  }

  /** Only a wake touches another thread's record: leaving on a signal takes nothing from anybody. */
  lemma SignalExitTakesNoWake(s: Fifo, a: Action, u: nat)
    requires Inv(s) && Enabled(s, a) && u in s.threads && u != a.t
    requires !WakesReaders(s, a) && !WakesWriters(s, a)
    ensures Next(s, a).threads[u] == s.threads[u]
  {
    assert ThreadOk(s, a.t);
    ThreadFrame(s, a, u);
  }

  // ---------------------------------------------------------------- writers

  /** A reader holds the mutex between its length update and its wake. */
  predicate ReaderAtWake(s: Fifo) {
    s.owner.Some? && s.owner.value in s.threads &&
    s.threads[s.owner.value].pc.Wake? && s.threads[s.owner.value].call.Read?
  }

  /** The mirror image of ReaderAwake at a full buffer. */
  ghost predicate WriterAwake(s: Fifo) {
    forall t :: SleepingWriter(s, t) ==> s.len == |s.mem| || ReaderAtWake(s)
  }

  ghost predicate Apart(s: Fifo) {
    forall t, u :: SleepingReader(s, t) ==> !SleepingWriter(s, u)
  }

  ghost predicate WriterSafe(s: Fifo) { WriterAwake(s) && Apart(s) }

  /** The one step that empties the buffer without waking anybody. */
  predicate IsClear(s: Fifo, a: Action) {
    a.t in s.threads && a.Advance? && s.threads[a.t].pc.ClearLen?
  }

  /** Where a thread asleep after the step got there. */
  lemma HowAsleep(s: Fifo, a: Action, u: nat)
    requires Inv(s) && Enabled(s, a) && u in s.threads && Asleep(Next(s, a).threads[u])
    ensures Next(s, a).threads[u].call == s.threads[u].call
    ensures Asleep(s.threads[u]) || (u == a.t && a.Advance? && s.threads[u].pc.Doze?)
    ensures u != a.t && WakesReaders(s, a) ==> !s.threads[u].call.Read?
    ensures u != a.t && WakesWriters(s, a) ==> !s.threads[u].call.Write?
  {
    assert ThreadOk(s, u) && ThreadOk(s, a.t);
    if u != a.t { ThreadFrame(s, a, u); }
  }

  /** A full buffer can lose bytes only to a clear or under a reader that still owes its wake. */
  lemma FullStays(s: Fifo, a: Action)
    requires Inv(s) && Enabled(s, a) && !IsClear(s, a)
    requires s.len == |s.mem| || ReaderAtWake(s)
    ensures Next(s, a).len == |s.mem| || ReaderAtWake(Next(s, a)) || WakesWriters(s, a)
  {
    assert ThreadOk(s, a.t);
  }

  lemma StepKeepsWriterSafe(s: Fifo, a: Action)
    requires Inv(s) && WriterSafe(s) && Enabled(s, a) && !IsClear(s, a)
    ensures WriterSafe(Next(s, a))
  {
    var s' := Next(s, a);
    SharedFrame(s, a);
    forall u | SleepingWriter(s', u)
      ensures s'.len == |s'.mem| || ReaderAtWake(s')
    {
      HowAsleep(s, a, u);
      DozeIsJustified(s, a, u);
      FullStays(s, a);
      assert ThreadOk(s, a.t) && ThreadOk(s, u);
    }
    forall t, u | SleepingReader(s', t)
      ensures !SleepingWriter(s', u)
    {
      BothAsleep(s, a, t, u);
    }
  }

  /** A thread at line 121 holds the mutex and has just seen the condition it sleeps on. */
  lemma DozeIsJustified(s: Fifo, a: Action, u: nat)
    requires Inv(s) && WriterAwake(s) && u in s.threads && s.threads[u].call.Write?
    requires Asleep(s.threads[u]) || s.threads[u].pc.Doze?
    ensures s.len == |s.mem| || ReaderAtWake(s)
  {
    assert ThreadOk(s, u);
    if Asleep(s.threads[u]) { assert SleepingWriter(s, u); }
  }

  /** A thread about to doze holds the mutex, so nobody of the other kind is asleep. */
  lemma DozeExcludes(s: Fifo, t: nat, u: nat)
    requires Inv(s) && WriterAwake(s) && t in s.threads && s.threads[t].pc.Doze?
    ensures s.threads[t].call.Write? ==> !SleepingReader(s, u)
    ensures s.threads[t].call.Read? ==> !SleepingWriter(s, u)
  {
    assert ThreadOk(s, t);
  }

  lemma BothAsleep(s: Fifo, a: Action, t: nat, u: nat)
    requires Inv(s) && WriterSafe(s) && Enabled(s, a) && !IsClear(s, a)
    ensures !(SleepingReader(Next(s, a), t) && SleepingWriter(Next(s, a), u))
  {
    assert !(SleepingReader(s, t) && SleepingWriter(s, u));
    SharedFrame(s, a);
    if t in s.threads && s.threads[t].pc.Doze? { DozeExcludes(s, t, u); }
    if u in s.threads && s.threads[u].pc.Doze? { DozeExcludes(s, u, t); }
    if t in s.threads && Asleep(Next(s, a).threads[t]) { HowAsleep(s, a, t); }
    if u in s.threads && Asleep(Next(s, a).threads[u]) { HowAsleep(s, a, u); }
  }

  predicate NoClear(s: Fifo, run: seq<Action>)
    requires Legal(s, run)
    decreases run
  {
    run == [] || (!IsClear(s, run[0]) && NoClear(Next(s, run[0]), run[1..]))
  }

  lemma {:induction false} RunKeepsWriterSafe(s: Fifo, run: seq<Action>)
    requires Inv(s) && WriterSafe(s) && Legal(s, run) && NoClear(s, run)
    ensures WriterSafe(Exec(s, run))
    decreases run
  {
    if run != [] {
      StepInv(s, run[0]);
      StepKeepsWriterSafe(s, run[0]);
      RunKeepsWriterSafe(Next(s, run[0]), run[1..]);
    }
  }

  lemma InitWriterSafe(s: Fifo)
    requires Init(s)
    ensures WriterSafe(s)
  {
  }

  // ------------------------------------------------------------- the clear

  /** From a good state the mirror invariant breaks exactly when a clear meets a sleeping writer. */
  lemma BreakIsClear(s: Fifo, a: Action)
    requires Inv(s) && WriterSafe(s) && Enabled(s, a)
    ensures WriterSafe(Next(s, a)) <==> !(IsClear(s, a) && exists t :: SleepingWriter(s, t))
  {
    if IsClear(s, a) {
      ClearKeepsTasks(s, a);
    } else {
      StepKeepsWriterSafe(s, a);
    }
  }

  lemma ClearKeepsTasks(s: Fifo, a: Action)
    requires Inv(s) && WriterSafe(s) && Enabled(s, a) && IsClear(s, a)
    ensures WriterSafe(Next(s, a)) <==> !exists t :: SleepingWriter(s, t)
  {
    var s' := Next(s, a);
    assert ThreadOk(s, a.t);
    forall t
      ensures SleepingWriter(s', t) <==> SleepingWriter(s, t)
    {
    }
    assert s'.len == 0 && !ReaderAtWake(s');
  }

  /** A completed read repairs whatever clears broke. */
  lemma ReadRestores(s: Fifo, a: Action)
    requires Inv(s) && Enabled(s, a) && WakesWriters(s, a)
    ensures WriterSafe(Next(s, a))
  {
    forall u
      ensures !SleepingWriter(Next(s, a), u)
    {
      if u in s.threads {
        assert ThreadOk(s, u) && ThreadOk(s, a.t);
        if Asleep(Next(s, a).threads[u]) { HowAsleep(s, a, u); }
      }
    }
  }

  /** ... and it stays repaired until the next clear. */
  lemma RestoredUntilNextClear(s: Fifo, a: Action, rest: seq<Action>)
    requires Inv(s) && Enabled(s, a) && WakesWriters(s, a)
    requires Legal(Next(s, a), rest) && NoClear(Next(s, a), rest)
    ensures WriterSafe(Exec(Next(s, a), rest))
  {
    StepInv(s, a);
    ReadRestores(s, a);
    RunKeepsWriterSafe(Next(s, a), rest);
  }

  // -------------------------------------------------------------- progress

  predicate Unfinished(s: Fifo, t: nat) { t in s.threads && !s.threads[t].pc.Idle? }

  predicate CanAdvance(s: Fifo, t: nat) { Enabled(s, Advance(t, false, [])) }

  /** No reachable step underflows current_len, count or the room left, or copies outside mem. */
  lemma NeverOutOfBounds(s: Fifo, t: nat)
    requires Inv(s) && t in s.threads
    ensures InBounds(s, s.threads[t])
  {
    assert ThreadOk(s, t);
  }

  /** With clears or without: if nothing can move, everybody in a call is asleep and the mutex is free. */
  lemma StuckIsAsleep(s: Fifo, t: nat)
    requires Inv(s) && Unfinished(s, t)
    requires forall u :: Unfinished(s, u) ==> !CanAdvance(s, u)
    ensures s.owner.None? && s.threads[t].pc.Schedule? && !s.threads[t].signal
    ensures SleepingReader(s, t) || SleepingWriter(s, t)
    ensures SleepingReader(s, t) ==> s.len == 0
  {
    if s.owner.Some? {
      var o := s.owner.value;
      assert ThreadOk(s, o);
      NeverOutOfBounds(s, o);
      assert CanAdvance(s, o);
      assert Unfinished(s, o);
      assert false;
    }
    assert ThreadOk(s, t);
    NeverOutOfBounds(s, t);
    assert !CanAdvance(s, t);
  }

  /** Without clears the only deadlocks are all readers asleep at empty and all writers asleep at full. */
  lemma ProgressWithoutClear(s0: Fifo, run: seq<Action>)
    requires Init(s0) && Legal(s0, run) && NoClear(s0, run)
    ensures var s := Exec(s0, run);
      || (exists t :: Unfinished(s, t) && CanAdvance(s, t))
      || (forall t :: Unfinished(s, t) ==> SleepingReader(s, t) && s.len == 0)
      || (forall t :: Unfinished(s, t) ==> SleepingWriter(s, t) && s.len == |s.mem|)
  {
    var s := Exec(s0, run);
    InitInv(s0);
    InitWriterSafe(s0);
    RunInv(s0, run);
    RunKeepsWriterSafe(s0, run);
    if forall u :: Unfinished(s, u) ==> !CanAdvance(s, u) {
      forall t | Unfinished(s, t)
        ensures (SleepingReader(s, t) && s.len == 0) || (SleepingWriter(s, t) && s.len == |s.mem|)
      {
        StuckIsAsleep(s, t);
      }
    }
  }
}
