/** What the display shows after a text of any length, and across probe/remove cycles of the I2C driver. */
module OledScreen {
  import opened Basics
  import opened Ssd1306
  import opened TextEngine
  import opened DisplayWindow
  import opened OledCursor

  // ------------------------------------------------------------ a text from (0,0)

  /** First cell of the i-th character: 21 to a line, 8 lines, then over again. */
  function SpotOf(i: nat): (x: nat)
    ensures x + 6 <= CELLS && x / SEGS == i / 21 % 8 && x % SEGS == 6 * (i % 21)
  {
    (i / 21) % 8 * SEGS + 6 * (i % 21)
  }

  /** Which of the 168 slots a cell belongs to; columns 126 and 127 belong to none. */
  function SlotOf(x: nat): nat { x / SEGS * 21 + x % SEGS / 6 }

  predicate InMargin(x: nat) { x % SEGS >= 126 }

  /** The shadow cursor after n printable characters. */
  function ShadowAfter(n: nat): Shadow {
    if n == 0 then Shadow(0, 0) else Shadow((n - 1) / 21 % 8, 6 * ((n - 1) % 21) + 6)
  }

  /** `ram` shows the last 168 characters of `cs` in their slots over the screen `before`, and nothing more. */
  ghost predicate Shows(art: Art, before: seq<Byte>, ram: seq<Byte>, cs: seq<Byte>)
    requires ArtOk(art) && |before| == CELLS && |ram| == CELLS
  {
    && (forall i, k :: 0 <= i < |cs| < i + 169 && 0 <= k < 6 ==> ram[SpotOf(i) + k] == Columns(art, cs[i])[k])
    && (forall x :: 0 <= x < CELLS && (InMargin(x) || SlotOf(x) >= |cs|) ==> ram[x] == before[x])
  }

  lemma SpotsApart(i: nat, j: nat)
    requires i < j < i + 168
    ensures SpotOf(i) + 6 <= SpotOf(j) || SpotOf(j) + 6 <= SpotOf(i)
  {
    SlotNumber(i);
    SlotNumber(j);
    TurnLater(i, j);
    GridApart(i / 21 % 8, i % 21, j / 21 % 8, j % 21);
  }

  /** Two places on the 21 by 8 grid do not touch. */
  lemma GridApart(row: nat, col: nat, row': nat, col': nat)
    requires col < 21 && col' < 21 && (row, col) != (row', col')
    ensures row * SEGS + 6 * col + 6 <= row' * SEGS + 6 * col' || row' * SEGS + 6 * col' + 6 <= row * SEGS + 6 * col
  {
  }

  lemma SlotNumber(i: nat)
    ensures i % 168 == i / 21 % 8 * 21 + i % 21
  {
    ModUnique(i, 168, i / 21 / 8, i / 21 % 8 * 21 + i % 21);
  }

  lemma TurnLater(i: nat, j: nat)
    requires i < j < i + 168
    ensures i % 168 != j % 168
  {
    assert i == 168 * (i / 168) + i % 168 && j == 168 * (j / 168) + j % 168;
  }

  lemma SpotInSlot(i: nat, k: nat)
    requires k < 6
    ensures SlotOf(SpotOf(i) + k) == i % 168 && !InMargin(SpotOf(i) + k)
  {
    var row, col := i / 21 % 8, i % 21;
    ModUnique(SpotOf(i) + k, SEGS, row, 6 * col + k);
    ModUnique(6 * col + k, 6, col, k);
    SlotNumber(i);
  }

  lemma NextSpot(n: nat, c: Byte)
    requires c != NEWLINE
    ensures var at := Spot(ShadowAfter(n), c);
      at.line * SEGS + at.cursor == SpotOf(n) && ShadowAfter(n + 1) == Shadow(at.line, at.cursor + 6)
  {
    if n > 0 {
      var m := n - 1;
      ModSucc(m / 21, 8);
      if m % 21 == 20 {
        ModUnique(n, 21, m / 21 + 1, 0);
      } else {
        ModUnique(n, 21, m / 21, m % 21 + 1);
      }
    }
  }

  lemma CellOfNext(art: Art, ram: seq<Byte>, cs: seq<Byte>, c: Byte, i: nat, k: nat)
    requires ArtOk(art) && |ram| == CELLS && i <= |cs| < i + 168 && k < 6
    requires i < |cs| ==> ram[SpotOf(i) + k] == Columns(art, cs[i])[k]
    ensures Overlay(ram, SpotOf(|cs|), Columns(art, c))[SpotOf(i) + k] == Columns(art, (cs + [c])[i])[k]
  {
    var n, six := |cs|, Columns(art, c);
    if i < n {
      SpotsApart(i, n);
    } else {
      assert Overlay(ram, SpotOf(n), six)[SpotOf(n)..SpotOf(n) + 6][k] == six[k];
    }
  }

  lemma InSpot(x: nat, n: nat)
    requires SpotOf(n) <= x < SpotOf(n) + 6
    ensures SlotOf(x) <= n && !InMargin(x)
  {
    SpotInSlot(n, x - SpotOf(n));
    assert n == 168 * (n / 168) + n % 168;
  }

  lemma OverlayElsewhere(ram: seq<Byte>, at: nat, piece: seq<Byte>, x: nat)
    requires at + |piece| <= |ram| && x < |ram| && !(at <= x < at + |piece|)
    ensures Overlay(ram, at, piece)[x] == ram[x]
  {
    if x < at {
      assert Overlay(ram, at, piece)[..at][x] == ram[..at][x];
    } else {
      assert Overlay(ram, at, piece)[at + |piece|..][x - at - |piece|] == ram[at + |piece|..][x - at - |piece|];
    }
  }

  lemma RestOfNext(art: Art, ram: seq<Byte>, cs: seq<Byte>, c: Byte, x: nat)
    requires ArtOk(art) && |ram| == CELLS && x < CELLS && (InMargin(x) || SlotOf(x) > |cs|)
    ensures Overlay(ram, SpotOf(|cs|), Columns(art, c))[x] == ram[x]
  {
    if SpotOf(|cs|) <= x < SpotOf(|cs|) + 6 {
      InSpot(x, |cs|);
    } else {
      OverlayElsewhere(ram, SpotOf(|cs|), Columns(art, c), x);
    }
  }

  lemma ShowsMore(art: Art, before: seq<Byte>, ram: seq<Byte>, cs: seq<Byte>, c: Byte)
    requires ArtOk(art) && |before| == CELLS && |ram| == CELLS && Shows(art, before, ram, cs)
    ensures Shows(art, before, Overlay(ram, SpotOf(|cs|), Columns(art, c)), cs + [c])
  {
    var n, all := |cs|, cs + [c];
    var ram' := Overlay(ram, SpotOf(n), Columns(art, c));
    forall i, k | 0 <= i < |all| < i + 169 && 0 <= k < 6
      ensures ram'[SpotOf(i) + k] == Columns(art, all[i])[k]
    {
      CellOfNext(art, ram, cs, c, i, k);
    }
    forall x | 0 <= x < CELLS && (InMargin(x) || SlotOf(x) >= |all|)
      ensures ram'[x] == before[x]
    {
      RestOfNext(art, ram, cs, c, x);
    }
  }

  lemma {:induction false} TextLands(art: Art, p: Panel, cs: seq<Byte>)
    requires ArtOk(art) && Synced(Shadow(0, 0), p) && NEWLINE !in cs
    ensures var said := SayAll(art, Shadow(0, 0), cs);
      && AllWellFormed(said.ts) && said.sh == ShadowAfter(|cs|) && Synced(said.sh, Obey(p, said.ts))
      && Obey(p, said.ts).scrolling == p.scrolling
      && (!p.scrolling ==> Shows(art, p.ram, Obey(p, said.ts).ram, cs))
    decreases |cs|
  {
    if cs != [] {
      var init, c := cs[..|cs| - 1], cs[|cs| - 1];
      assert cs == init + [c];
      TextLands(art, p, init);
      var said := SayAll(art, Shadow(0, 0), init);
      var q := Obey(p, said.ts);
      SayAllSnoc(art, Shadow(0, 0), init, c);
      CharLands(art, said.sh, q, c);
      NextSpot(|init|, c);
      if !p.scrolling { ShowsMore(art, p.ram, q.ram, init, c); }
      ObeyConcat(p, said.ts, SayChar(art, said.sh, c).ts);
    }
  }

  lemma TextTokens(art: Art, sh: Shadow, cs: seq<Byte>)
    requires ArtOk(art) && 0 !in cs
    ensures var home := SayCursor(sh, 0, 0);
      var text := SayAll(art, home.sh, cs);
      DoAll(art, sh, [SetCursor(0, 0), PrintString(cs + [0])]) == Said(text.sh, home.ts + text.ts)
  {
    var calls := [SetCursor(0, 0), PrintString(cs + [0])];
    var home := SayCursor(sh, 0, 0);
    assert (cs + [0])[..|cs|] == cs;
    UpToFirstNul(cs + [0], |cs|);
    assert calls[1..] == [calls[1]] && calls[1..][1..] == [];
    var text := SayAll(art, home.sh, cs);
    assert DoAll(art, home.sh, [calls[1]]) == Said(text.sh, text.ts + []);
    assert text.ts + [] == text.ts;
  }

  /**
   SetCursor(0,0) followed by any printable text: on the bytes actually sent, character i appears with its five
   columns and a blank at column 6*(i mod 21) of page (i div 21) mod 8, for the last 168 characters; every other
   cell, columns 126 and 127 included, is as before.  While a scroll is active only the pointer can be promised.
   */
  lemma TextOnScreen(art: Art, sh: Shadow, p: Panel, cs: seq<Byte>)
    requires ArtOk(art) && PanelOk(p) && p.parser.Ready? && p.mode.Horizontal? && NEWLINE !in cs && 0 !in cs
    ensures var said := DoAll(art, sh, [SetCursor(0, 0), PrintString(cs + [0])]);
      && said.sh == ShadowAfter(|cs|) && Synced(said.sh, Feed(p, Encode(said.ts)))
      && (!p.scrolling ==> Shows(art, p.ram, Feed(p, Encode(said.ts)).ram, cs))
  {
    var calls := [SetCursor(0, 0), PrintString(cs + [0])];
    var home := SayCursor(sh, 0, 0);
    CursorLands(sh, p, 0, 0);
    TextLands(art, Obey(p, home.ts), cs);
    TextTokens(art, sh, cs);
    ObeyConcat(p, home.ts, SayAll(art, home.sh, cs).ts);
    StreamParses(art, sh, calls, p);
  }

  // ------------------------------------------------- I2C probe and remove cycles

  /**
   One probe/remove cycle: where the statics stand at its start (so that a driver that stays loaded and one that
   is reloaded in between are both covered) and the two texts.
   */
  datatype Cycle = Cycle(start: Shadow, hello: seq<Byte>, bye: seq<Byte>)

  function CycleCalls(c: Cycle): seq<Call> {
    ProbeCalls(c.hello) + RemoveCalls(c.bye)
  }

  function Cycles(art: Art, cycles: seq<Cycle>): seq<Token>
    requires ArtOk(art)
  {
    if cycles == [] then [] else DoAll(art, cycles[0].start, CycleCalls(cycles[0])).ts + Cycles(art, cycles[1..])
  }

  /** On a homed panel the probe's fill, which does no SetCursor of its own, clears every cell. */
  lemma ProbeClears(sh: Shadow, p: Panel)
    requires Homed(p)
    ensures AllWellFormed(SayInit(sh, false).ts)
    ensures Obey(p, SayInit(sh, false).ts) ==
      p.(mode := Horizontal, scrolling := false, ram := Repeat(0, CELLS))
  {
    InitLands(p);
    ScreenLands(Obey(p, InitTokens()), Repeat(0, CELLS));
    ObeyConcat(p, InitTokens(), Pixels(Repeat(0, CELLS)));
  }

  lemma ThenOff(p: Panel, ts: seq<Token>)
    requires PanelOk(p) && AllWellFormed(ts)
    ensures AllWellFormed(ts + [Order(0xAE, [])]) && Obey(p, ts + [Order(0xAE, [])]) == Obey(p, ts)
  {
    var off := [Order(0xAE, [])];
    ObeyConcat(p, ts, off);
    assert off[1..] == [] && ObeyOne(Obey(p, ts), off[0]) == Obey(p, ts);
  }

  /** Whatever the window was, remove's last calls home the panel again. */
  lemma ClosingHomes(art: Art, sh: Shadow, p: Panel)
    requires ArtOk(art) && PanelOk(p) && p.mode.Horizontal?
    ensures var said := DoAll(art, sh, [SetCursor(0, 0), Fill(0x00), DisplayOff]);
      AllWellFormed(said.ts) && Homed(Obey(p, said.ts))
  {
    DoAllWellFormed(art, sh, [SetCursor(0, 0), Fill(0x00), DisplayOff]);
    var home := SayCursor(sh, 0, 0);
    CursorLands(sh, p, 0, 0);
    ScreenLands(Obey(p, home.ts), Repeat(0, CELLS));
    ThenOff(Obey(p, home.ts), Pixels(Repeat(0, CELLS)));
    ClosingTokens(art, sh);
    ObeyConcat(p, home.ts, Pixels(Repeat(0, CELLS)) + [Order(0xAE, [])]);
  }

  lemma ClosingTokens(art: Art, sh: Shadow)
    requires ArtOk(art)
    ensures DoAll(art, sh, [SetCursor(0, 0), Fill(0x00), DisplayOff]).ts ==
            SayCursor(sh, 0, 0).ts + (Pixels(Repeat(0, CELLS)) + [Order(0xAE, [])])
  {
    var calls := [SetCursor(0, 0), Fill(0x00), DisplayOff];
    assert calls[1..] == [Fill(0), DisplayOff] && calls[1..][1..] == [DisplayOff] && [DisplayOff][1..] == [];
    assert [Order(0xAE, [])] + [] == [Order(0xAE, [])];
  }

  /** Homing calls that start at the home position leave shadow and controller in agreement on any horizontal panel. */
  lemma HomedCalls(art: Art, sh: Shadow, p: Panel, calls: seq<Call>)
    requires ArtOk(art) && PanelOk(p) && p.mode.Horizontal?
    requires calls != [] && calls[0] == SetCursor(0, 0) && forall i :: 0 <= i < |calls| ==> Homing(calls[i])
    ensures var said := DoAll(art, sh, calls); AllWellFormed(said.ts) && Synced(said.sh, Obey(p, said.ts))
  {
    var home := SayCursor(sh, 0, 0);
    CursorLands(sh, p, 0, 0);
    CallsKeepSync(art, home.sh, Obey(p, home.ts), calls[1..]);
    ObeyConcat(p, home.ts, DoAll(art, home.sh, calls[1..]).ts);
  }

  /** One cycle, from any statics, takes a homed panel to a homed panel. */
  lemma CycleHomes(art: Art, c: Cycle, p: Panel)
    requires ArtOk(art) && Homed(p)
    ensures var said := DoAll(art, c.start, CycleCalls(c)); AllWellFormed(said.ts) && Homed(Obey(p, said.ts))
  {
    var init, text := [DisplayInit(false)], ProbeCalls(c.hello)[1..] + [PrintString(c.bye)];
    var closing := [SetCursor(0, 0), Fill(0x00), DisplayOff];
    assert CycleCalls(c) == init + (text + closing);
    var started := SayInit(c.start, false);
    DoAllConcat(art, c.start, init, text + closing);
    assert init[1..] == [] && started.ts + [] == started.ts;
    ProbeClears(c.start, p);
    var q := Obey(p, started.ts);
    DoAllConcat(art, started.sh, text, closing);
    HomedCalls(art, started.sh, q, text);
    var said := DoAll(art, started.sh, text);
    ClosingHomes(art, said.sh, Obey(q, said.ts));
    ObeyConcat(q, said.ts, DoAll(art, said.sh, closing).ts);
    ObeyConcat(p, started.ts, said.ts + DoAll(art, said.sh, closing).ts);
  }

  lemma {:induction false} CyclesHome(art: Art, p: Panel, cycles: seq<Cycle>)
    requires ArtOk(art) && Homed(p)
    ensures AllWellFormed(Cycles(art, cycles)) && Homed(Obey(p, Cycles(art, cycles)))
    decreases cycles
  {
    if cycles != [] {
      var first := DoAll(art, cycles[0].start, CycleCalls(cycles[0])).ts;
      CycleHomes(art, cycles[0], p);
      CyclesHome(art, Obey(p, first), cycles[1..]);
      ObeyConcat(p, first, Cycles(art, cycles[1..]));
    }
  }

  /**
   From power-on, after any number of probe/remove cycles, the next probe's fill starts with the whole screen as
   its window and the pointer at (0,0), and clears every cell.
   */
  lemma EveryProbeClears(art: Art, p0: Panel, cycles: seq<Cycle>, sh: Shadow)
    requires ArtOk(art) && PowerOn(p0)
    ensures var p := Feed(p0, Encode(Cycles(art, cycles)));
      && Homed(Feed(p, Encode(InitTokens()))) && Feed(p, Encode(InitTokens())).mode.Horizontal?
      && forall x :: 0 <= x < CELLS ==> Feed(p, Encode(SayInit(sh, false).ts)).ram[x] == 0
  {
    CyclesHome(art, p0, cycles);
    FeedEncode(p0, Cycles(art, cycles));
    var p := Feed(p0, Encode(Cycles(art, cycles)));
    InitLands(p);
    FeedEncode(p, InitTokens());
    ProbeClears(sh, p);
    FeedEncode(p, SayInit(sh, false).ts);
  }

  /** Probing and then any homing calls, on any panel that the previous cycles left at home. */
  lemma ProbeSyncs(art: Art, sh: Shadow, p: Panel, hello: seq<Byte>, calls: seq<Call>)
    requires ArtOk(art) && Homed(p) && forall i :: 0 <= i < |calls| ==> Homing(calls[i])
    ensures var said := DoAll(art, sh, ProbeCalls(hello) + calls);
      AllWellFormed(said.ts) && Synced(said.sh, Obey(p, said.ts))
  {
    var init, rest := [DisplayInit(false)], ProbeCalls(hello)[1..] + calls;
    assert ProbeCalls(hello) + calls == init + rest;
    var started := SayInit(sh, false);
    DoAllConcat(art, sh, init, rest);
    assert init[1..] == [] && started.ts + [] == started.ts;
    ProbeClears(sh, p);
    HomedCalls(art, started.sh, Obey(p, started.ts), rest);
    ObeyConcat(p, started.ts, DoAll(art, started.sh, rest).ts);
  }

  /**
   The I2C driver's cache agrees with truth as well: from power-on, after any probe/remove cycles, a probe and any
   homing calls with any arguments leave the controller's pointer where the shadow cursor says it is.
   */
  lemma ProbeAgrees(art: Art, p0: Panel, cycles: seq<Cycle>, sh: Shadow, hello: seq<Byte>, calls: seq<Call>)
    requires ArtOk(art) && PowerOn(p0) && forall i :: 0 <= i < |calls| ==> Homing(calls[i])
    ensures var said := DoAll(art, sh, ProbeCalls(hello) + calls);
      Synced(said.sh, Feed(Feed(p0, Encode(Cycles(art, cycles))), Encode(said.ts)))
  {
    CyclesHome(art, p0, cycles);
    FeedEncode(p0, Cycles(art, cycles));
    var p := Feed(p0, Encode(Cycles(art, cycles)));
    ProbeSyncs(art, sh, p, hello, calls);
    FeedEncode(p, DoAll(art, sh, ProbeCalls(hello) + calls).ts);
  }
}
