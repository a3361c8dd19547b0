/** The debounced GPIO interrupt: a rate limiter over a wrapping tick counter, and the other writer of its pin. */
module DebouncedGpio {
  import opened Basics

  const DEBOUNCE: nat := 20

  /** `stamp` is old_jiffie, `toggle` is led_toggle, `pin` the level of GPIO 21. */
  datatype Led = Led(stamp: nat, toggle: bool, pin: bool)

  /**
   An interrupt reads jiffies at true tick `check` and, if accepted, again at tick `store`; a device write brings
   the byte that ends up first in rec_buf.
   */
  datatype Event = Irq(check: nat, store: nat) | DeviceWrite(rec: Byte)

  /** The counter `jiffies`, an unsigned integer with `m` values. */
  function Jiffies(m: nat, tick: nat): nat
    requires m > 0
  {
    tick % m
  }

  /** Unsigned subtraction of two values of the counter. */
  function Minus(m: nat, a: nat, b: nat): nat
    requires a < m && b < m
  {
    if b <= a then a - b else a + m - b
  }

  predicate LedOk(m: nat, s: Led) { DEBOUNCE < m && s.stamp < m }

  predicate Accepts(m: nat, s: Led, e: Event)
    requires LedOk(m, s)
  {
    e.Irq? && Minus(m, Jiffies(m, e.check), s.stamp) >= DEBOUNCE
  }

  /** The device file understands '1' and '0' and nothing else. */
  predicate Effective(e: Event) { e.DeviceWrite? && (e.rec == 0x31 || e.rec == 0x30) }

  function Handle(m: nat, s: Led, e: Event): (s': Led)
    requires LedOk(m, s)
    ensures LedOk(m, s')
  {
    match e
    case Irq(_, store) => if Accepts(m, s, e) then Led(Jiffies(m, store), !s.toggle, !s.toggle) else s
    case DeviceWrite(rec) => if rec == 0x31 then s.(pin := true) else if rec == 0x30 then s.(pin := false) else s
  }

  function HandleAll(m: nat, s: Led, es: seq<Event>): (s': Led)
    requires LedOk(m, s)
    ensures LedOk(m, s')
    decreases es
  {
    if es == [] then s else HandleAll(m, Handle(m, s, es[0]), es[1..])
  }

  /** Interrupts are handled one after the other, from tick `now` on. */
  predicate InOrder(now: nat, es: seq<Event>)
    decreases es
  {
    es == [] ||
    (match es[0]
     case Irq(check, store) => now <= check <= store && InOrder(store, es[1..])
     case DeviceWrite(_) => InOrder(now, es[1..]))
  }

  /** The ticks at which interrupts were accepted. */
  function Accepted(m: nat, s: Led, es: seq<Event>): seq<nat>
    requires LedOk(m, s)
    decreases es
  {
    if es == [] then []
    else (if Accepts(m, s, es[0]) then [es[0].check] else []) + Accepted(m, Handle(m, s, es[0]), es[1..])
  }

  lemma DistanceOfParts(m: nat, q: nat, r: nat, q': nat, r': nat)
    requires r < m && r' < m && m * q + r <= m * q' + r'
    ensures (m * q' + r' - (m * q + r)) % m == Minus(m, r', r)
  {
    RankOrder(m, q', r', q, r);
    assert m * (q' - q) == m * q' - m * q;
    if r <= r' {
      ModUnique(m * q' + r' - (m * q + r), m, q' - q, r' - r);
    } else {
      assert q != q' && m * (q' - q - 1) == m * (q' - q) - m;
      ModUnique(m * q' + r' - (m * q + r), m, q' - q - 1, r' + m - r);
    }
  }

  /** The unsigned difference of two readings is the true distance modulo the counter's range. */
  lemma DistanceModulo(m: nat, from: nat, to: nat)
    requires m > 0 && from <= to
    ensures Minus(m, Jiffies(m, to), Jiffies(m, from)) == (to - from) % m
  {
    var q, r, q', r' := from / m, from % m, to / m, to % m;
    assert from == m * q + r && to == m * q' + r';
    DistanceOfParts(m, q, r, q', r');
  }

  /**
   Exactly which interrupts are suppressed: those whose distance from the last stored stamp falls, modulo the
   counter's range, below the debounce time.
   */
  lemma SuppressedExactly(m: nat, s: Led, last: nat, e: Event)
    requires LedOk(m, s) && s.stamp == Jiffies(m, last) && e.Irq? && last <= e.check
    ensures Accepts(m, s, e) <==> (e.check - last) % m >= DEBOUNCE
    ensures e.check - last < m ==> (Accepts(m, s, e) <==> e.check - last >= DEBOUNCE)
  {
    DistanceModulo(m, last, e.check);
    if e.check - last < m { ModUnique(e.check - last, m, 0, e.check - last); }
  }

  predicate Spaced(ticks: seq<nat>) {
    forall i :: 0 <= i < |ticks| - 1 ==> ticks[i] + DEBOUNCE <= ticks[i + 1]
  }

  lemma {:induction false} AcceptedAfter(m: nat, s: Led, last: nat, now: nat, es: seq<Event>)
    requires LedOk(m, s) && s.stamp == Jiffies(m, last) && last <= now && InOrder(now, es)
    ensures Spaced(Accepted(m, s, es))
    ensures Accepted(m, s, es) != [] ==> Accepted(m, s, es)[0] >= last + DEBOUNCE
    decreases es
  {
    if es != [] {
      var e, s', rest := es[0], Handle(m, s, es[0]), Accepted(m, Handle(m, s, es[0]), es[1..]);
      if Accepts(m, s, e) {
        SuppressedExactly(m, s, last, e);
        ModAtMost(e.check - last, m);
        AcceptedAfter(m, s', e.store, e.store, es[1..]);
        assert Accepted(m, s, es) == [e.check] + rest;
      } else {
        AcceptedAfter(m, s', last, if e.Irq? then e.store else now, es[1..]);
        assert Accepted(m, s, es) == rest;
      }
    }
  }

  lemma ModAtMost(a: nat, m: nat)
    requires m > 0
    ensures a % m <= a
  {
    assert a == m * (a / m) + a % m;
  }

  /** Accepted interrupts are at least the debounce time apart, however often the counter wraps. */
  lemma {:induction false} AcceptedSpaced(m: nat, s: Led, now: nat, es: seq<Event>)
    requires LedOk(m, s) && InOrder(now, es)
    ensures Spaced(Accepted(m, s, es))
    decreases es
  {
    if es != [] {
      var e, s', rest := es[0], Handle(m, s, es[0]), Accepted(m, Handle(m, s, es[0]), es[1..]);
      if Accepts(m, s, e) {
        AcceptedAfter(m, s', e.store, e.store, es[1..]);
        assert Accepted(m, s, es) == [e.check] + rest;
      } else {
        AcceptedSpaced(m, s', if e.Irq? then e.store else now, es[1..]);
        assert Accepted(m, s, es) == rest;
      }
    }
  }

  /** How many of the ticks lie in from..to. */
  function Within(ticks: seq<nat>, from: int, to: int): nat {
    if ticks == [] then 0 else (if from <= ticks[0] <= to then 1 else 0) + Within(ticks[1..], from, to)
  }

  lemma {:induction false} WithinLater(ticks: seq<nat>, from: int, later: int, to: int)
    requires Spaced(ticks) && from <= later && (ticks != [] ==> later <= ticks[0])
    ensures Within(ticks, from, to) == Within(ticks, later, to)
    decreases ticks
  {
    if ticks != [] { WithinLater(ticks[1..], from, later, to); }
  }

  lemma {:induction false} WithinBound(ticks: seq<nat>, from: int, to: int)
    requires Spaced(ticks)
    ensures Within(ticks, from, to) <= (if from <= to then (to - from) / DEBOUNCE + 1 else 0)
    decreases ticks
  {
    if ticks != [] {
      var t, rest := ticks[0], ticks[1..];
      if from <= t <= to {
        WithinLater(rest, from, t + DEBOUNCE, to);
        WithinBound(rest, t + DEBOUNCE, to);
      } else {
        WithinBound(rest, from, to);
      }
    }
  }

  /** Over any span of T true ticks at most T/20 + 1 interrupts toggle the LED. */
  lemma RateLimit(m: nat, s: Led, now: nat, es: seq<Event>, from: nat, span: nat)
    requires LedOk(m, s) && InOrder(now, es)
    ensures Within(Accepted(m, s, es), from, from + span) <= span / DEBOUNCE + 1
  {
    AcceptedSpaced(m, s, now, es);
    WithinBound(Accepted(m, s, es), from, from + span);
  }

  /** led_toggle counts accepted interrupts modulo 2. */
  lemma {:induction false} ToggleIsParity(m: nat, s: Led, es: seq<Event>)
    requires LedOk(m, s)
    ensures HandleAll(m, s, es).toggle == (s.toggle != (|Accepted(m, s, es)| % 2 == 1))
    decreases es
  {
    if es != [] { ToggleIsParity(m, Handle(m, s, es[0]), es[1..]); }
  }

  lemma {:induction false} PinKept(m: nat, s: Led, es: seq<Event>)
    requires LedOk(m, s) && s.pin == s.toggle && forall i :: 0 <= i < |es| ==> !Effective(es[i])
    ensures HandleAll(m, s, es).pin == HandleAll(m, s, es).toggle
    decreases es
  {
    if es != [] {
      assert !Effective(es[0]);
      PinKept(m, Handle(m, s, es[0]), es[1..]);
    }
  }

  /** The pin shows the parity whenever no '0' or '1' has been written since the latest accepted interrupt. */
  lemma PinShowsParity(m: nat, s: Led, before: seq<Event>, irq: Event, after: seq<Event>)
    requires LedOk(m, s) && !s.toggle && Accepts(m, HandleAll(m, s, before), irq)
    requires forall i :: 0 <= i < |after| ==> !Effective(after[i])
    ensures HandleAll(m, s, before + [irq] + after).pin
         == (|Accepted(m, s, before + [irq] + after)| % 2 == 1)
  {
    var mid := HandleAll(m, s, before);
    HandleConcat(m, s, before, [irq] + after);
    assert before + ([irq] + after) == before + [irq] + after;
    assert ([irq] + after)[1..] == after;
    PinKept(m, Handle(m, mid, irq), after);
    ToggleIsParity(m, s, before + [irq] + after);
  }

  lemma {:induction false} HandleConcat(m: nat, s: Led, a: seq<Event>, b: seq<Event>)
    requires LedOk(m, s)
    ensures HandleAll(m, s, a + b) == HandleAll(m, HandleAll(m, s, a), b)
    decreases a
  {
    if a == [] {
      assert a + b == b;
    } else {
      assert (a + b)[1..] == a[1..] + b;
      HandleConcat(m, Handle(m, s, a[0]), a[1..], b);
    }
  }

  /** Event `i` writes the pin: a '1' or '0' from the device file, or an interrupt that is accepted when it arrives. */
  predicate WritesPin(m: nat, s: Led, es: seq<Event>, i: nat)
    requires LedOk(m, s) && i < |es|
  {
    es[i] == DeviceWrite(0x31) || es[i] == DeviceWrite(0x30) ||
    (es[i].Irq? && Accepts(m, HandleAll(m, s, es[..i]), es[i]))
  }

  /** Suppressed interrupts and other bytes leave the pin alone, whatever the toggle is. */
  lemma {:induction false} PinUntouched(m: nat, s: Led, es: seq<Event>)
    requires LedOk(m, s) && forall i :: 0 <= i < |es| ==> !WritesPin(m, s, es, i)
    ensures HandleAll(m, s, es).pin == s.pin
    decreases es
  {
    if es != [] {
      var s' := Handle(m, s, es[0]);
      assert es[..0] == [] && !WritesPin(m, s, es, 0);
      forall i | 0 <= i < |es[1..]|
        ensures !WritesPin(m, s', es[1..], i)
      {
        assert es[..i + 1][1..] == es[1..][..i] && !WritesPin(m, s, es, i + 1);
      }
      PinUntouched(m, s', es[1..]);
    }
  }

  /**
   The pin is what its last writer left: high after a '1', low after a '0', and after an interrupt the parity of the
   accepted interrupts.
   */
  lemma PinIsLastWritten(m: nat, s: Led, es: seq<Event>, i: nat)
    requires LedOk(m, s) && i < |es| && WritesPin(m, s, es, i)
    requires forall j :: i < j < |es| ==> !WritesPin(m, s, es, j)
    ensures HandleAll(m, s, es).pin ==
            if es[i] == DeviceWrite(0x31) then true
            else if es[i] == DeviceWrite(0x30) then false
            else s.toggle != (|Accepted(m, s, es[..i + 1])| % 2 == 1)
  {
    var mid, rest := HandleAll(m, s, es[..i]), es[i + 1..];
    assert es == es[..i] + [es[i]] + rest && es[..i + 1] == es[..i] + [es[i]];
    HandleConcat(m, s, es[..i], [es[i]]);
    assert [es[i]][1..] == [] && HandleAll(m, mid, [es[i]]) == Handle(m, mid, es[i]);
    var now := Handle(m, mid, es[i]);
    HandleConcat(m, s, es[..i + 1], rest);
    forall j | 0 <= j < |rest|
      ensures !WritesPin(m, now, rest, j)
    {
      assert !WritesPin(m, s, es, i + 1 + j);
      assert es[..i + 1 + j] == es[..i + 1] + rest[..j];
      HandleConcat(m, s, es[..i + 1], rest[..j]);
    }
    PinUntouched(m, now, rest);
    ToggleIsParity(m, s, es[..i + 1]);
  }

  /** The handler is meant to invert the pin; it does so exactly when the pin shows the toggle to begin with. */
  lemma InvertsExactly(m: nat, s: Led, e: Event)
    requires LedOk(m, s) && Accepts(m, s, e)
    ensures Handle(m, s, e).pin != s.pin <==> s.pin == s.toggle
  {
  }

  /** A '1' written to the device while the toggle is 0 makes the next accepted interrupt leave the pin alone. */
  lemma WriteMasksToggle(m: nat, s: Led, e: Event)
    requires LedOk(m, s) && !s.toggle && Accepts(m, Handle(m, s, DeviceWrite(0x31)), e)
    ensures HandleAll(m, s, [DeviceWrite(0x31), e]).pin == Handle(m, s, DeviceWrite(0x31)).pin == true
  {
    var w := Handle(m, s, DeviceWrite(0x31));
    assert [DeviceWrite(0x31), e][1..] == [e] && [e][1..] == [];
    assert HandleAll(m, w, [e]) == Handle(m, w, e);
    InvertsExactly(m, w, e);
  }

  // ---------------------------------------------------------------- the driver

  class GpioDriver {
    const modulus: nat
    var oldJiffie: nat
    var ledToggle: bool
    var pin: bool

    ghost predicate Valid()
      reads this
    {
      LedOk(modulus, State())
    }

    ghost function State(): Led
      reads this
    {
      Led(oldJiffie, ledToggle, pin)
    }

    constructor (modulus: nat)
      requires DEBOUNCE < modulus
      ensures Valid() && this.modulus == modulus && State() == Led(0, false, false)
    {
      this.modulus := modulus;
      oldJiffie, ledToggle, pin := 0, false, false;
    }

    /** gpio_irq_handler; `check` and `store` are the true ticks at which it reads jiffies. */
    method IrqHandler(check: nat, store: nat)
      requires Valid() && check <= store
      modifies this
      ensures Valid() && State() == Handle(modulus, old(State()), Irq(check, store))
    {
      var diff := Minus(modulus, Jiffies(modulus, check), oldJiffie);
      if diff < DEBOUNCE {
        return;
      }
      oldJiffie := Jiffies(modulus, store);
      ledToggle := !ledToggle;
      pin := ledToggle;
    }

    /** example_gpio_write: `copied` bytes of the user's `data` arrive in a zeroed buffer of ten bytes. */
    method DeviceFileWrite(data: seq<Byte>, copied: nat) returns (ret: nat)
      requires Valid() && copied <= |data|
      modifies this`pin
      ensures Valid() && ret == |data|
      ensures State() == Handle(modulus, old(State()), DeviceWrite(if copied == 0 then 0 else data[0]))
    {
      var recBuf := new Byte[10](_ => 0);
      forall i | 0 <= i < copied && i < recBuf.Length {
        recBuf[i] := data[i];
      }
      if recBuf[0] == 0x31 {
        pin := true;
      } else if recBuf[0] == 0x30 {
        pin := false;
      }
      ret := |data|;
    }
  }
}
