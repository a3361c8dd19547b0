/** FIFO_CLEAR and sleeping writers: where a run goes wrong, and a run that does. */
module FifoClear {
  import opened Basics
  import opened FifoModel
  import opened FifoInvariant
  import opened FifoWakeups

  lemma {:induction false} PrefixLegal(s: Fifo, run: seq<Action>, i: nat)
    requires Legal(s, run) && i <= |run|
    ensures Legal(s, run[..i])
    ensures i < |run| ==> Enabled(Exec(s, run[..i]), run[i]) && Legal(s, run[..i + 1]) &&
                          Exec(s, run[..i + 1]) == Next(Exec(s, run[..i]), run[i])
    decreases run
  {
    if i > 0 {
      assert run[..i][1..] == run[1..][..i - 1];
      if i < |run| { assert run[..i + 1][1..] == run[1..][..i]; }
      PrefixLegal(Next(s, run[0]), run[1..], i - 1);
    } else if run != [] {
      assert run[..1] == [run[0]] && run[..1][1..] == [];
      assert Legal(Next(s, run[0]), []);
    }
  }

  /** The state after the first `i` actions of the run. */
  function At(s: Fifo, run: seq<Action>, i: nat): Fifo
    requires Legal(s, run) && i <= |run|
  {
    PrefixLegal(s, run, i);
    Exec(s, run[..i])
  }

  lemma InvAt(s0: Fifo, run: seq<Action>, i: nat)
    requires Init(s0) && Legal(s0, run) && i <= |run|
    ensures Inv(At(s0, run, i))
  {
    PrefixLegal(s0, run, i);
    InitInv(s0);
    RunInv(s0, run[..i]);
  }

  lemma {:induction false} LastSafe(s0: Fifo, run: seq<Action>, k: nat) returns (i: nat)
    requires Init(s0) && Legal(s0, run) && k <= |run| && !WriterSafe(At(s0, run, k))
    ensures i < k && WriterSafe(At(s0, run, i))
    ensures forall j {:trigger At(s0, run, j)} :: i < j <= k ==> !WriterSafe(At(s0, run, j))
    decreases k
  {
    if k == 0 {
      InitWriterSafe(s0);
      assert false;
    }
    if WriterSafe(At(s0, run, k - 1)) {
      i := k - 1;
    } else {
      i := LastSafe(s0, run, k - 1);
    }
  }

  /**
   If a run ends with the writers' wake-up broken, the break happened at a clear that found a writer asleep,
   and no read has completed its wake since.
   */
  lemma BreakStartsAtClear(s0: Fifo, run: seq<Action>) returns (i: nat)
    requires Init(s0) && Legal(s0, run) && !WriterSafe(Exec(s0, run))
    ensures i < |run| && WriterSafe(At(s0, run, i))
    ensures IsClear(At(s0, run, i), run[i]) && exists t :: SleepingWriter(At(s0, run, i), t)
    ensures forall j :: i < j < |run| ==> !WakesWriters(At(s0, run, j), run[j])
  {
    assert run[..|run|] == run;
    i := LastSafe(s0, run, |run|);
    InvAt(s0, run, i);
    PrefixLegal(s0, run, i);
    assert !WriterSafe(At(s0, run, i + 1));
    BreakIsClear(At(s0, run, i), run[i]);
    forall j | i < j < |run|
      ensures !WakesWriters(At(s0, run, j), run[j])
    {
      InvAt(s0, run, j);
      PrefixLegal(s0, run, j);
      assert !WriterSafe(At(s0, run, j + 1));
      if WakesWriters(At(s0, run, j), run[j]) { ReadRestores(At(s0, run, j), run[j]); }
    }
  }

  // ------------------------------------------------ a run that strands a writer

  ghost predicate Reaches(s: Fifo, s': Fifo) {
    exists run :: Legal(s, run) && Exec(s, run) == s'
  }

  lemma Stay(s: Fifo)
    ensures Reaches(s, s)
  {
    assert Legal(s, []) && Exec(s, []) == s;
  }

  lemma Then(s: Fifo, mid: Fifo, a: Action) returns (s': Fifo)
    requires Reaches(s, mid) && Enabled(mid, a)
    ensures s' == Next(mid, a) && Reaches(s, s')
  {
    s' := Next(mid, a);
    var run :| Legal(s, run) && Exec(s, run) == mid;
    assert [a][1..] == [] && Legal(s', []) && Exec(s', []) == s';
    assert Legal(mid, [a]) && Exec(mid, [a]) == s';
    RunConcat(s, run, [a]);
  }

  /** Thread `t` takes the next step of its call; no copy fails. */
  lemma Go(s: Fifo, mid: Fifo, t: nat) returns (s': Fifo)
    requires Reaches(s, mid) && Enabled(mid, Advance(t, false, []))
    ensures s' == AdvanceStep(mid, t, false, []) && Reaches(s, s')
  {
    s' := Then(s, mid, Advance(t, false, []));
  }

  /** A thread in user space with no signal pending and a blocking file. */
  predicate Calm(s: Fifo, t: nat) {
    t in s.threads && Fresh(s.threads[t]) && !s.threads[t].signal && !s.threads[t].nonblock
  }

  /** Only `t`'s record may differ among the threads. */
  ghost predicate OnlyMoved(s: Fifo, s': Fifo, t: nat) {
    s'.threads.Keys == s.threads.Keys && |s'.mem| == |s.mem| &&
    forall u :: u in s.threads && u != t ==> s'.threads[u] == s.threads[u]
  }

  /** A blocking call gets as far as its queue condition tells it to. */
  lemma CallStarts(s0: Fifo, s: Fifo, t: nat, c: Call) returns (s': Fifo)
    requires Reaches(s0, s) && Sane(s) && s.owner.None? && Calm(s, t) && Io(c)
    ensures Reaches(s0, s') && OnlyMoved(s, s', t) && s'.owner == Some(t) && s'.len == s.len
    ensures var th := s'.threads[t];
      && th.call == c && !th.signal && !th.nonblock && th.task.Running?
      && th.onRead == c.Read? && th.onWrite == c.Write? && th.pc == if MustWait(s, c) then Doze else Copy
  {
    s' := Then(s0, s, Begin(t, c));
    s' := Go(s0, s', t);
    s' := Go(s0, s', t);
    s' := Go(s0, s', t);
  }

  lemma FallsAsleep(s0: Fifo, s: Fifo, t: nat) returns (s': Fifo)
    requires Reaches(s0, s) && t in s.threads && s.threads[t].pc.Doze? && !s.threads[t].signal
    ensures Reaches(s0, s') && OnlyMoved(s, s', t) && s'.owner.None? && s'.len == s.len
    ensures s'.threads[t] == s.threads[t].(pc := Schedule, task := Interruptible)
  {
    s' := Go(s0, s, t);
    s' := Go(s0, s', t);
  }

  lemma WriteMoves(s0: Fifo, s: Fifo, t: nat) returns (s': Fifo)
    requires Reaches(s0, s) && Sane(s) && t in s.threads && s.owner == Some(t)
    requires s.threads[t].pc.Copy? && s.threads[t].call.Write? && |s.threads[t].call.data| == |s.mem| - s.len
    ensures Reaches(s0, s') && OnlyMoved(s, s', t) && s'.owner == Some(t) && s'.len == |s'.mem|
    ensures s'.threads[t] == s.threads[t].(pc := Wake, count := |s.mem| - s.len, effect := s'.threads[t].effect)
  {
    s' := Go(s0, s, t);
    s' := Go(s0, s', t);
  }

  lemma WriteWakes(s0: Fifo, s: Fifo, t: nat) returns (s': Fifo)
    requires Reaches(s0, s) && t in s.threads && s.owner == Some(t)
    requires s.threads[t].pc.Wake? && s.threads[t].call.Write?
    requires forall u :: u in s.threads && u != t ==> s.threads[u].task.Running?
    ensures Reaches(s0, s') && OnlyMoved(s, s', t) && s'.owner == Some(t) && s'.len == s.len
    ensures var th := s'.threads[t];
      th.pc.Unlock? && th.call == s.threads[t].call && th.nonblock == s.threads[t].nonblock
  {
    s' := Go(s0, s, t);
  }

  lemma WriteFinishes(s0: Fifo, s: Fifo, t: nat) returns (s': Fifo)
    requires Reaches(s0, s) && t in s.threads && s.owner == Some(t)
    requires s.threads[t].pc.Wake? && s.threads[t].call.Write? && !s.threads[t].nonblock
    requires forall u :: u in s.threads && u != t ==> s.threads[u].task.Running?
    ensures Reaches(s0, s') && OnlyMoved(s, s', t) && s'.owner.None? && s'.len == s.len && Calm(s', t)
  {
    s' := WriteWakes(s0, s, t);
    s' := Go(s0, s', t);
    s' := Go(s0, s', t);
    s' := Go(s0, s', t);
  }

  lemma ClearRuns(s0: Fifo, s: Fifo, t: nat) returns (s': Fifo)
    requires Reaches(s0, s) && Sane(s) && s.owner.None? && Calm(s, t)
    ensures Reaches(s0, s') && OnlyMoved(s, s', t) && s'.owner.None? && s'.len == 0 && Calm(s', t)
    ensures forall i :: 0 <= i < |s'.mem| ==> s'.mem[i] == 0
  {
    s' := Then(s0, s, Begin(t, Ioctl(FIFO_CLEAR)));
    s' := Go(s0, s', t);
    s' := Go(s0, s', t);
    s' := Go(s0, s', t);
    s' := Go(s0, s', t);
    s' := Go(s0, s', t);
  }

  /** A writer asleep at a full buffer, everybody else in user space. */
  lemma WriterSleepsAtFull(s0: Fifo, w: nat, r: nat) returns (s: Fifo)
    requires Init(s0) && w != r && Calm(s0, w) && Calm(s0, r)
    ensures Reaches(s0, s) && s.owner.None? && Sane(s) && Calm(s, r) && SleepingWriter(s, w)
    ensures s.threads[w].pc.Schedule? && !s.threads[w].signal
    ensures forall u :: u in s.threads && u != w ==> s.threads[u].pc.Idle?
  {
    Stay(s0);
    s := CallStarts(s0, s0, r, Write(seq(|s0.mem|, _ => 0)));
    s := WriteMoves(s0, s, r);
    s := WriteFinishes(s0, s, r);
    s := CallStarts(s0, s, w, Write([0]));
    s := FallsAsleep(s0, s, w);
  }

  /**
   FIFO_CLEAR can strand a writer: from any initial state with two calm threads there is a run that ends with
   writer `w` asleep although the buffer is empty, reader `r` asleep too, and no step left for anyone.
   */
  lemma ClearStrandsWriter(s0: Fifo, w: nat, r: nat) returns (s: Fifo)
    requires Init(s0) && w != r && Calm(s0, w) && Calm(s0, r)
    ensures Reaches(s0, s) && s.len == 0 && SleepingWriter(s, w) && SleepingReader(s, r)
    ensures !WriterSafe(s) && forall t :: Unfinished(s, t) ==> !CanAdvance(s, t)
  {
    s := WriterSleepsAtFull(s0, w, r);
    s := ClearRuns(s0, s, r);
    s := CallStarts(s0, s, r, Read(1));
    s := FallsAsleep(s0, s, r);
    assert SleepingWriter(s, w) && SleepingReader(s, r);
  }
}
