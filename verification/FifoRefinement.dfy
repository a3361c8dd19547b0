/** Every run of the device is a run of the sequential bounded queue. */
module FifoRefinement {
  import opened Basics
  import opened BoundedQueue
  import opened FifoModel
  import opened FifoInvariant

  /** The queue the device stands for, also between the shift of the bytes and the update of the length. */
  function Abs(s: Fifo): seq<Byte> {
    if s.len > |s.mem| then []
    else if s.owner.Some? && s.owner.value in s.threads then
      var th := s.threads[s.owner.value];
      if th.pc.SetLen? && th.call.Read? && th.count <= s.len then s.mem[..s.len - th.count] else s.mem[..s.len]
    else s.mem[..s.len]
  }

  /** The visible act of a step, if it is the one at which its call takes effect. */
  function EffectOf(s: Fifo, a: Action): seq<Effect>
    requires Enabled(s, a)
  {
    var e, e' := s.threads[a.t].effect, Next(s, a).threads[a.t].effect;
    if a.Advance? && e.None? && e'.Some? then [e'.value] else []
  }

  function Effects(s: Fifo, run: seq<Action>): seq<Effect>
    requires Legal(s, run)
    decreases run
  {
    if run == [] then [] else EffectOf(s, run[0]) + Effects(Next(s, run[0]), run[1..])
  }

  /** What a returning call must have done: exactly what its result says, or nothing. */
  predicate Completed(t: nat, c: Call, ret: Result, user: seq<Byte>, effect: Option<Effect>) {
    match ret
    case Moved(n) =>
      (c.Read? ==> effect == Some(Deq(t, c.want, user)) && n == |user|) &&
      (c.Write? ==> n <= |c.data| && effect == Some(Enq(t, c.data, c.data[..n])))
    case Cleared => effect.Some? && effect.value.Clear? && effect.value.t == t
    case Ready(readable, writable) => effect == Some(Mask(t, readable, writable))
    case Failed(EAGAIN) => effect == Some(if c.Read? then Empty(t) else Full(t))
    case Failed(_) => effect.None?
  }

  predicate EffectOk(t: nat, th: Thread) {
    match th.pc
    case Idle => true
    case SetLen => if th.call.Read? then ReadDone(t, th) else th.effect.None?
    case Wake =>
      if th.call.Read? then ReadDone(t, th)
      else th.call.Write? ==> th.count <= |th.call.data| &&
                              th.effect == Some(Enq(t, th.call.data, th.call.data[..th.count]))
    case ClearMem => th.effect.Some? && th.effect.value.Clear? && th.effect.value.t == t
    case Unlock(ret) => Completed(t, th.call, ret, th.user, th.effect)
    case Dequeue(ret) => Completed(t, th.call, ret, th.user, th.effect)
    case Leave(ret) => Completed(t, th.call, ret, th.user, th.effect)
    case _ => th.effect.None?
  }

  predicate ReadDone(t: nat, th: Thread)
    requires th.call.Read?
  {
    th.effect == Some(Deq(t, th.call.want, th.user)) && th.count == |th.user|
  }

  ghost predicate EffectsOk(s: Fifo) {
    forall t :: t in s.threads ==> EffectOk(t, s.threads[t])
  }

  lemma OwnMoveEffectOk(s: Fifo, a: Action)
    requires Sane(s) && Enabled(s, a) && ThreadOk(s, a.t) && EffectOk(a.t, s.threads[a.t])
    requires a.Advance? && Moving(s.threads[a.t].pc)
    ensures EffectOk(a.t, Next(s, a).threads[a.t])
  {
  }

  lemma OwnEffectOk(s: Fifo, a: Action)
    requires Sane(s) && Enabled(s, a) && ThreadOk(s, a.t) && EffectOk(a.t, s.threads[a.t])
    ensures EffectOk(a.t, Next(s, a).threads[a.t])
  {
    if a.Advance? && Moving(s.threads[a.t].pc) { OwnMoveEffectOk(s, a); }
  }

  lemma StepEffectsOk(s: Fifo, a: Action)
    requires Inv(s) && EffectsOk(s) && Enabled(s, a)
    ensures EffectsOk(Next(s, a))
  {
    StepFrame(s, a);
    assert ThreadOk(s, a.t);
    forall t | t in s.threads
      ensures EffectOk(t, Next(s, a).threads[t])
    {
      assert EffectOk(t, s.threads[t]);
      if t == a.t { OwnEffectOk(s, a); }
    }
  }

  /** A step that is not at a data point leaves the abstract queue alone. */
  lemma StutterStep(s: Fifo, a: Action)
    requires Inv(s) && EffectsOk(s) && Enabled(s, a)
    requires !(a.Advance? && (Moving(s.threads[a.t].pc) || Sweeping(s.threads[a.t].pc) || s.threads[a.t].pc.Check?))
    ensures EffectOf(s, a) == [] && Abs(Next(s, a)) == Abs(s)
  {
    assert ThreadOk(s, a.t) && EffectOk(a.t, s.threads[a.t]);
    StepFrame(s, a);
  }

  /** The contents fall into the part a read takes and what the shift leaves in front. */
  lemma ShiftSplits(mem: seq<Byte>, len: nat, n: nat)
    requires n <= len <= |mem|
    ensures mem[..len][..n] == mem[..n] && mem[..len][n..] == Shifted(mem, len, n)[..len - n]
  {
  }

  lemma ShiftStep(s: Fifo, a: Action)
    requires Inv(s) && EffectsOk(s) && Enabled(s, a)
    requires a.Advance? && s.threads[a.t].pc.Shift?
    ensures Replay(|s.mem|, Abs(s), EffectOf(s, a)) == Some(Abs(Next(s, a)))
  {
    var th := s.threads[a.t];
    assert ThreadOk(s, a.t) && EffectOk(a.t, th);
    ShiftSplits(s.mem, s.len, th.count);
  }

  lemma CopyOrLenStep(s: Fifo, a: Action)
    requires Inv(s) && EffectsOk(s) && Enabled(s, a)
    requires a.Advance? && (s.threads[a.t].pc.Copy? || s.threads[a.t].pc.SetLen?)
    ensures Replay(|s.mem|, Abs(s), EffectOf(s, a)) == Some(Abs(Next(s, a)))
  {
    var th, s' := s.threads[a.t], Next(s, a);
    assert ThreadOk(s, a.t) && EffectOk(a.t, th);
    if th.pc.Copy? {
      assert s'.mem[..s.len] == s.mem[..s.len];
    } else if th.call.Write? {
      assert s'.mem[..s'.len] == s.mem[..s.len] + th.call.data[..th.count];
    }
  }

  lemma OtherStep(s: Fifo, a: Action)
    requires Inv(s) && EffectsOk(s) && Enabled(s, a)
    requires a.Advance? && (Sweeping(s.threads[a.t].pc) || s.threads[a.t].pc.Check?)
    ensures Replay(|s.mem|, Abs(s), EffectOf(s, a)) == Some(Abs(Next(s, a)))
  {
    assert ThreadOk(s, a.t) && EffectOk(a.t, s.threads[a.t]);
  }

  /** One device step is at most one queue operation, and it happens under the mutex. */
  lemma StepRefines(s: Fifo, a: Action)
    requires Inv(s) && EffectsOk(s) && Enabled(s, a)
    ensures Replay(|s.mem|, Abs(s), EffectOf(s, a)) == Some(Abs(Next(s, a)))
    ensures EffectOf(s, a) != [] ==> s.owner == Some(a.t)
  {
    assert ThreadOk(s, a.t) && EffectOk(a.t, s.threads[a.t]);
    if a.Advance? && s.threads[a.t].pc.Shift? {
      ShiftStep(s, a);
    } else if a.Advance? && Moving(s.threads[a.t].pc) {
      CopyOrLenStep(s, a);
    } else if a.Advance? && (Sweeping(s.threads[a.t].pc) || s.threads[a.t].pc.Check?) {
      OtherStep(s, a);
    } else {
      StutterStep(s, a);
    }
  }

  lemma {:induction false} RunRefines(s: Fifo, run: seq<Action>)
    requires Inv(s) && EffectsOk(s) && Legal(s, run)
    ensures Inv(Exec(s, run)) && EffectsOk(Exec(s, run)) && |Exec(s, run).mem| == |s.mem|
    ensures Replay(|s.mem|, Abs(s), Effects(s, run)) == Some(Abs(Exec(s, run)))
    decreases run
  {
    if run != [] {
      var s' := Next(s, run[0]);
      StepInv(s, run[0]);
      StepEffectsOk(s, run[0]);
      StepRefines(s, run[0]);
      RunRefines(s', run[1..]);
      ReplayConcat(|s.mem|, Abs(s), EffectOf(s, run[0]), Effects(s', run[1..]));
    }
  }

  /**
   Linearizability: the effects of any run, in the order of their steps, are a run of the
   sequential queue that ends in the device's contents.
   */
  lemma Linearizable(s0: Fifo, run: seq<Action>)
    requires Init(s0) && Legal(s0, run)
    ensures var s := Exec(s0, run);
      && Replay(|s0.mem|, [], Effects(s0, run)) == Some(Abs(s))
      && s.len <= |s.mem| == |s0.mem|
      && (s.owner.None? ==> Abs(s) == s.mem[..s.len])
  {
    InitInv(s0);
    RunRefines(s0, run);
  }

  /** Conservation of bytes over whole runs. */
  lemma BytesConserved(s0: Fifo, run: seq<Action>)
    requires Init(s0) && Legal(s0, run)
    ensures Accepted(Effects(s0, run)) == Removed(Effects(s0, run)) + Abs(Exec(s0, run))
  {
    Linearizable(s0, run);
    Conservation(|s0.mem|, [], Effects(s0, run));
    assert [] + Accepted(Effects(s0, run)) == Accepted(Effects(s0, run));
  }

  // ------------------------------------------------------- one call, one effect

  function AsSeq(e: Option<Effect>): seq<Effect> {
    if e.Some? then [e.value] else []
  }

  /** The effects of one thread's steps. */
  function Own(t: nat, h: seq<Effect>): seq<Effect> {
    if h == [] then [] else (if h[0].t == t then [h[0]] else []) + Own(t, h[1..])
  }

  predicate NoBegin(t: nat, run: seq<Action>) {
    forall i :: 0 <= i < |run| ==> !(run[i].Begin? && run[i].t == t)
  }

  lemma OwnOne(t: nat, e: Effect)
    ensures Own(t, [e]) == if e.t == t then [e] else []
  {
    assert [e][1..] == [];
  }

  /** Every effect carries its thread, and a call's effect is recorded once. */
  lemma EffectIsOwn(s: Fifo, a: Action)
    requires Sane(s) && Enabled(s, a) && ThreadOk(s, a.t) && EffectOk(a.t, s.threads[a.t]) && !a.Begin?
    ensures RecordsOnce(s, a)
  {
    if a.Advance? && Moving(s.threads[a.t].pc) { MoveIsOwn(s, a); }
  }

  predicate RecordsOnce(s: Fifo, a: Action)
    requires Enabled(s, a)
  {
    var th, th' := s.threads[a.t], Next(s, a).threads[a.t];
    th'.call == th.call &&
    (th'.effect == th.effect || (a.Advance? && th.effect.None? && th'.effect.Some? && th'.effect.value.t == a.t))
  }

  lemma MoveIsOwn(s: Fifo, a: Action)
    requires Sane(s) && Enabled(s, a) && ThreadOk(s, a.t) && EffectOk(a.t, s.threads[a.t])
    requires a.Advance? && Moving(s.threads[a.t].pc)
    ensures RecordsOnce(s, a)
  {
  }

  lemma StepOwn(s: Fifo, a: Action, t: nat)
    requires Sane(s) && Enabled(s, a) && ThreadOk(s, a.t) && EffectOk(a.t, s.threads[a.t])
    requires t in s.threads && !(a.Begin? && a.t == t)
    ensures Next(s, a).threads[t].call == s.threads[t].call
    ensures AsSeq(Next(s, a).threads[t].effect) == AsSeq(s.threads[t].effect) + Own(t, EffectOf(s, a))
  {
    if t != a.t { ThreadFrame(s, a, t); }
    if !a.Begin? { EffectIsOwn(s, a); }
    if EffectOf(s, a) != [] { OwnOne(t, EffectOf(s, a)[0]); }
  }

  lemma {:induction false} OwnConcat(t: nat, h: seq<Effect>, k: seq<Effect>)
    ensures Own(t, h + k) == Own(t, h) + Own(t, k)
    decreases h
  {
    if h == [] {
      assert h + k == k;
    } else {
      var first := if h[0].t == t then [h[0]] else [];
      assert (h + k)[0] == h[0] && (h + k)[1..] == h[1..] + k;
      OwnConcat(t, h[1..], k);
      assert Own(t, h + k) == first + (Own(t, h[1..]) + Own(t, k));
      assert first + (Own(t, h[1..]) + Own(t, k)) == (first + Own(t, h[1..])) + Own(t, k);
    }
  }

  /** A chain of effects extended at its front by one step. */
  lemma OwnChain(t: nat, first: seq<Effect>, mid: seq<Effect>, last: seq<Effect>, e: seq<Effect>, rest: seq<Effect>)
    requires mid == first + Own(t, e) && last == mid + Own(t, rest)
    ensures last == first + Own(t, e + rest)
  {
    OwnConcat(t, e, rest);
    assert (first + Own(t, e)) + Own(t, rest) == first + (Own(t, e) + Own(t, rest));
  }

  lemma {:induction false} OwnEffects(s: Fifo, run: seq<Action>, t: nat)
    requires Inv(s) && EffectsOk(s) && Legal(s, run) && t in s.threads && NoBegin(t, run)
    ensures var s' := Exec(s, run);
      && t in s'.threads && s'.threads[t].call == s.threads[t].call
      && AsSeq(s'.threads[t].effect) == AsSeq(s.threads[t].effect) + Own(t, Effects(s, run))
    decreases run
  {
    if run != [] {
      var a, s' := run[0], Next(s, run[0]);
      assert !(a.Begin? && a.t == t) && ThreadOk(s, a.t) && EffectOk(a.t, s.threads[a.t]);
      StepInv(s, a);
      StepEffectsOk(s, a);
      StepOwn(s, a, t);
      OwnEffects(s', run[1..], t);
      OwnChain(t, AsSeq(s.threads[t].effect), AsSeq(s'.threads[t].effect), AsSeq(Exec(s', run[1..]).threads[t].effect),
               EffectOf(s, a), Effects(s', run[1..]));
    }
  }

  /** The result of a call to `c`, the bytes in the reader's buffer and the call's effects tell the same story. */
  predicate Honest(t: nat, c: Call, ret: Result, user: seq<Byte>, own: seq<Effect>) {
    |own| <= 1 && Completed(t, c, ret, user, if own == [] then None else Some(own[0]))
  }

  lemma HonestFrom(s: Fifo, call: seq<Action>, t: nat, ret: Result)
    requires Inv(s) && EffectsOk(s) && t in s.threads && s.threads[t].effect.None?
    requires Legal(s, call) && NoBegin(t, call)
    requires t in Exec(s, call).threads && Exec(s, call).threads[t].pc == Leave(ret)
    ensures Honest(t, s.threads[t].call, ret, Exec(s, call).threads[t].user, Own(t, Effects(s, call)))
  {
    OwnEffects(s, call, t);
    RunRefines(s, call);
    var th, own := Exec(s, call).threads[t], Own(t, Effects(s, call));
    assert EffectOk(t, th);
    assert [] + own == own == AsSeq(th.effect);
  }

  /**
   From its start to its return a call takes effect at most once; a call that succeeds has the effect its
   result reports, and a call that fails with EFAULT, ERESTARTSYS or EINVAL has none.
   */
  lemma CallTakesEffectOnce(s0: Fifo, before: seq<Action>, t: nat, c: Call, call: seq<Action>, ret: Result)
    requires Init(s0) && Legal(s0, before) && Enabled(Exec(s0, before), Begin(t, c))
    requires Legal(Next(Exec(s0, before), Begin(t, c)), call) && NoBegin(t, call)
    requires var s := Exec(Next(Exec(s0, before), Begin(t, c)), call);
      t in s.threads && s.threads[t].pc == Leave(ret)
    ensures var s1 := Next(Exec(s0, before), Begin(t, c));
      Honest(t, c, ret, Exec(s1, call).threads[t].user, Own(t, Effects(s1, call)))
  {
    var s := Exec(s0, before);
    InitInv(s0);
    RunRefines(s0, before);
    StepInv(s, Begin(t, c));
    StepEffectsOk(s, Begin(t, c));
    HonestFrom(Next(s, Begin(t, c)), call, t, ret);
  }
}
