/**
 The shadow cursor against the controller's pointer, scrolling or not, and where glyphs land on a panel that does not
 scroll.
 */
module OledCursor {
  import opened Basics
  import opened Ssd1306
  import opened TextEngine
  import opened DisplayWindow

  /**
   The window starts at the shadow line.  Below column 128 the controller's pointer is the shadow cursor; at
   exactly 128 it has wrapped to the window's first column on the next page, or on page 7 if there is none.
   */
  predicate Synced(sh: Shadow, p: Panel) {
    && Windowed(p) && p.pageStart == sh.line <= MAX_LINE
    && p.colStart <= sh.cursor <= MAX_SEG
    && (if sh.cursor < MAX_SEG then p.col == sh.cursor && p.page == sh.line
        else p.col == p.colStart && p.page == Min(sh.line + 1, 7))
  }

  lemma CursorLands(sh: Shadow, p: Panel, line: Byte, cursor: Byte)
    requires PanelOk(p) && p.mode.Horizontal? && line <= MAX_LINE && cursor < MAX_SEG
    ensures var said := SayCursor(sh, line, cursor);
      && AllWellFormed(said.ts) && Synced(said.sh, Obey(p, said.ts)) && said.sh == Shadow(line, cursor)
      && Obey(p, said.ts) == p.(colStart := cursor, colEnd := 127, pageStart := line, pageEnd := 7,
                                col := cursor, page := line)
  {
    var window, pages := Order(0x21, [cursor, MAX_SEG - 1]), Order(0x22, [line, MAX_LINE]);
    var p1 := ObeyOne(p, window);
    assert [window, pages][1..] == [pages] && [pages][1..] == [];
    assert Obey(p1, [pages]) == ObeyOne(p1, pages);
    assert p1 == p.(colStart := cursor, colEnd := 127, col := cursor);
  }

  lemma OverlayCons(ram: seq<Byte>, at: nat, bytes: seq<Byte>)
    requires bytes != [] && at + |bytes| <= |ram|
    ensures Overlay(ram[at := bytes[0]], at + 1, bytes[1..]) == Overlay(ram, at, bytes)
  {
  }

  lemma AlongMore(p: Panel, ram: seq<Byte>, ram': seq<Byte>, n: nat)
    requires Windowed(p) && 0 < n && p.col + 1 + n <= SEGS && |ram| == CELLS
    ensures Windowed(AlongRow(p, ram, 1)) && AlongRow(p, ram, 1).col == p.col + 1
    ensures Pointer(AlongRow(p, ram, 1)) == Pointer(p) + 1
    ensures AlongRow(AlongRow(p, ram, 1), ram', n) == AlongRow(p, ram', n + 1)
  {
  }

  /** Storing a byte and then the rest of the run is storing the run. */
  lemma StoreThenRest(p: Panel, bytes: seq<Byte>)
    requires Windowed(p) && p.col + |bytes| <= SEGS && |bytes| > 1
    ensures var q := AlongRow(p, p.ram[Pointer(p) := bytes[0]], 1);
      && Windowed(q) && q.col == p.col + 1
      && AlongRow(q, Overlay(q.ram, Pointer(q), bytes[1..]), |bytes| - 1)
         == AlongRow(p, Overlay(p.ram, Pointer(p), bytes), |bytes|)
  {
    var ram := p.ram[Pointer(p) := bytes[0]];
    AlongMore(p, ram, Overlay(p.ram, Pointer(p), bytes), |bytes| - 1);
    OverlayCons(p.ram, Pointer(p), bytes);
  }

  /** A run of bytes that fits on the rest of the row lands there in order. */
  lemma {:induction false} RowLands(p: Panel, bytes: seq<Byte>)
    requires Windowed(p) && p.col + |bytes| <= SEGS && bytes != []
    ensures AllWellFormed(Pixels(bytes))
    ensures Obey(p, Pixels(bytes)) == AlongRow(p, Overlay(p.ram, Pointer(p), bytes), |bytes|)
    decreases |bytes|
  {
    StoreAlong(p, bytes[0]);
    assert Pixels(bytes)[1..] == Pixels(bytes[1..]);
    if |bytes| == 1 {
      assert p.ram[Pointer(p) := bytes[0]] == Overlay(p.ram, Pointer(p), bytes);
    } else {
      StoreThenRest(p, bytes);
      RowLands(AlongRow(p, p.ram[Pointer(p) := bytes[0]], 1), bytes[1..]);
    }
  }

  /** Where a printable character goes: the cursor, or the start of the next line when six columns do not fit. */
  function Spot(sh: Shadow, c: Byte): Shadow {
    if Breaks(sh, c) then Shadow(LineAfter(sh.line), 0) else sh
  }

  lemma BreakLands(sh: Shadow, p: Panel, c: Byte)
    requires Synced(sh, p)
    ensures var said := if Breaks(sh, c) then SayNextLine(sh) else Said(sh, []);
      && AllWellFormed(said.ts) && said.sh == Spot(sh, c) && Synced(said.sh, Obey(p, said.ts))
      && Obey(p, said.ts).ram == p.ram && Obey(p, said.ts).scrolling == p.scrolling
      && (Breaks(sh, c) ==> said.sh.cursor == 0)
  {
    if Breaks(sh, c) { CursorLands(Shadow(LineAfter(sh.line), sh.cursor), p, LineAfter(sh.line), 0); }
  }

  /** Six columns at a cursor they fit behind. */
  lemma SixLand(sh: Shadow, p: Panel, six: seq<Byte>)
    requires Synced(sh, p) && sh.cursor + 6 <= MAX_SEG && |six| == 6
    ensures AllWellFormed(Pixels(six)) && Synced(Shadow(sh.line, sh.cursor + 6), Obey(p, Pixels(six)))
    ensures Obey(p, Pixels(six)).ram == Overlay(p.ram, sh.line * SEGS + sh.cursor, six)
    ensures Obey(p, Pixels(six)).scrolling == p.scrolling
  {
    RowLands(p, six);
    assert Pointer(p) == sh.line * SEGS + sh.cursor;
  }

  /** What a printable character says, without the wrap of the cursor, which never shows. */
  lemma SayCharIs(art: Art, sh: Shadow, c: Byte)
    requires ArtOk(art) && c != NEWLINE && sh.line <= MAX_LINE && sh.cursor <= MAX_SEG
    ensures var b, at := if Breaks(sh, c) then SayNextLine(sh) else Said(sh, []), Spot(sh, c);
      && b.sh == at && at.line <= MAX_LINE && at.cursor + 6 <= MAX_SEG
      && SayChar(art, sh, c) == Said(Shadow(at.line, at.cursor + 6), b.ts + Pixels(Columns(art, c)))
  {
  }

  /**
   Every printable character writes its five glyph columns and a blank to six consecutive columns of one page,
   at the shadow cursor, and changes nothing else; the shadow and the pointer still agree afterwards.  Only the RAM
   needs the panel not to scroll.
   */
  lemma CharLands(art: Art, sh: Shadow, p: Panel, c: Byte)
    requires ArtOk(art) && Synced(sh, p) && c != NEWLINE
    ensures var said, at := SayChar(art, sh, c), Spot(sh, c);
      && AllWellFormed(said.ts) && Synced(said.sh, Obey(p, said.ts))
      && said.sh == Shadow(at.line, at.cursor + 6)
      && at.line <= MAX_LINE && at.cursor + 6 <= MAX_SEG
      && Obey(p, said.ts).scrolling == p.scrolling
      && (!p.scrolling ==> Obey(p, said.ts).ram == Overlay(p.ram, at.line * SEGS + at.cursor, Columns(art, c)))
  {
    var b := if Breaks(sh, c) then SayNextLine(sh) else Said(sh, []);
    BreakLands(sh, p, c);
    SayCharIs(art, sh, c);
    SixLand(b.sh, Obey(p, b.ts), Columns(art, c));
    ObeyConcat(p, b.ts, Pixels(Columns(art, c)));
  }

  lemma CharKeepsSync(art: Art, sh: Shadow, p: Panel, c: Byte)
    requires ArtOk(art) && Synced(sh, p)
    ensures var said := SayChar(art, sh, c); AllWellFormed(said.ts) && Synced(said.sh, Obey(p, said.ts))
  {
    if c == NEWLINE { BreakLands(sh, p, c); } else { CharLands(art, sh, p, c); }
  }

  lemma {:induction false} StringKeepsSync(art: Art, sh: Shadow, p: Panel, cs: seq<Byte>)
    requires ArtOk(art) && Synced(sh, p)
    ensures var said := SayAll(art, sh, cs); AllWellFormed(said.ts) && Synced(said.sh, Obey(p, said.ts))
    decreases cs
  {
    if cs != [] {
      var first := SayChar(art, sh, cs[0]);
      CharKeepsSync(art, sh, p, cs[0]);
      StringKeepsSync(art, first.sh, Obey(p, first.ts), cs[1..]);
      ObeyConcat(p, first.ts, SayAll(art, first.sh, cs[1..]).ts);
    }
  }

  // ------------------------------------------------------------ other commands

  /** Commands that move neither the window nor the pointer, whatever the addressing mode. */
  predicate Inert(t: Token) {
    t.Order? && WellFormed(t) && 0x23 <= t.op && !(0xB0 <= t.op < 0xB8)
  }

  lemma {:induction false} InertOrders(p: Panel, ts: seq<Token>)
    requires PanelOk(p) && forall i :: 0 <= i < |ts| ==> Inert(ts[i])
    ensures AllWellFormed(ts) && Obey(p, ts).(scrolling := p.scrolling) == p
    decreases ts
  {
    if ts != [] { InertOrders(ObeyOne(p, ts[0]), ts[1..]); }
  }

  lemma ModeLands(p: Panel)
    requires PanelOk(p)
    ensures AllWellFormed([Order(0x20, [0x00])]) && Obey(p, [Order(0x20, [0x00])]) == p.(mode := Horizontal)
  {
    assert [Order(0x20, [0x00])][1..] == [];
  }

  lemma InertAround(p: Panel, a: seq<Token>, m: seq<Token>, b: seq<Token>)
    requires PanelOk(p) && forall i :: 0 <= i < |a| ==> Inert(a[i])
    requires forall i :: 0 <= i < |b| ==> Inert(b[i])
    requires m == [Order(0x20, [0x00])]
    ensures AllWellFormed(a + m + b)
    ensures Obey(p, a + m + b).(scrolling := p.scrolling) == p.(mode := Horizontal)
  {
    InertOrders(p, a);
    var p1 := Obey(p, a);
    ModeLands(p1);
    ObeyConcat(p, a, m);
    InertOrders(Obey(p1, m), b);
    ObeyConcat(p, a + m, b);
  }

  /** The initialisation commands only select horizontal addressing and stop scrolling, whatever the panel's state. */
  lemma InitLands(p: Panel)
    requires PanelOk(p)
    ensures AllWellFormed(InitTokens()) && Obey(p, InitTokens()) == p.(mode := Horizontal, scrolling := false)
  {
    InertAround(p, INIT_FIRST, [Order(0x20, [0x00])], INIT_PINS);
    var head := INIT_FIRST + [Order(0x20, [0x00])] + INIT_PINS;
    InitOnLands(Obey(p, head));
    ObeyConcat(p, head, INIT_ON);
  }

  lemma StopAndOn(p: Panel, a: seq<Token>, b: seq<Token>, c: seq<Token>)
    requires PanelOk(p) && forall i :: 0 <= i < |a| ==> Inert(a[i])
    requires b == [Order(0x2E, [])] && c == [Order(0xAF, [])]
    ensures AllWellFormed(a + b + c) && Obey(p, a + b + c) == p.(scrolling := false)
  {
    InertOrders(p, a);
    var p1 := Obey(p, a);
    assert b[1..] == [] && c[1..] == [];
    ObeyConcat(p, a, b);
    assert Obey(p1, b) == p.(scrolling := false);
    InertOrders(Obey(p1, b), c);
    ObeyConcat(p, a + b, c);
  }

  lemma InitOnLands(p: Panel)
    requires PanelOk(p)
    ensures AllWellFormed(INIT_ON) && Obey(p, INIT_ON) == p.(scrolling := false)
  {
    var a, b, c := [Order(0xDB, [0x20]), Order(0xA4, []), Order(0xA6, [])], [Order(0x2E, [])], [Order(0xAF, [])];
    StopAndOn(p, a, b, c);
    assert a + b + c == INIT_ON;
  }

  lemma ScreenKeepsSync(sh: Shadow, p: Panel, screen: seq<Byte>)
    requires PanelOk(p) && p.mode.Horizontal? && |screen| == CELLS
    ensures var said := SayScreen(sh, screen);
      && AllWellFormed(said.ts) && Synced(said.sh, Obey(p, said.ts))
      && said.sh == Shadow(0, 0) && Homed(Obey(p, said.ts)) && Obey(p, said.ts).scrolling == p.scrolling
      && (!p.scrolling ==> Obey(p, said.ts).ram == screen)
  {
    var home := SayCursor(sh, 0, 0);
    CursorLands(sh, p, 0, 0);
    ScreenLands(Obey(p, home.ts), screen);
    ObeyConcat(p, home.ts, Pixels(screen));
  }

  /** All calls but those that fill the display without homing the cursor. */
  predicate Homing(call: Call) { !call.Fill? && (call.DisplayInit? ==> call.spi) }

  lemma CommandKeepsSync(art: Art, sh: Shadow, p: Panel, call: Call)
    requires ArtOk(art) && Synced(sh, p)
    requires call.InvertDisplay? || call.SetBrightness? || call.ScrollHorizontal? || call.ScrollDiagonal? ||
             call.DeactivateScroll? || call.DisplayOff?
    ensures var said := Do(art, sh, call); AllWellFormed(said.ts) && Synced(said.sh, Obey(p, said.ts))
  {
    InertOrders(p, Do(art, sh, call).ts);
  }

  lemma CallKeepsSync(art: Art, sh: Shadow, p: Panel, call: Call)
    requires ArtOk(art) && Synced(sh, p) && Homing(call)
    ensures var said := Do(art, sh, call); AllWellFormed(said.ts) && Synced(said.sh, Obey(p, said.ts))
  {
    match call {
      case SetCursor(line, cursor) => if line <= MAX_LINE && cursor < MAX_SEG { CursorLands(sh, p, line, cursor); }
      case GoToNextLine => BreakLands(sh, p, NEWLINE);
      case PrintChar(c) => CharKeepsSync(art, sh, p, c);
      case PrintString(str) => StringKeepsSync(art, sh, p, UpToNul(str));
      case ClearDisplay => ScreenKeepsSync(sh, p, Repeat(0, CELLS));
      case PrintLogo => ScreenKeepsSync(sh, p, art.logo);
      case DisplayInit(_) => InitSyncs(sh, p);
      case _ => CommandKeepsSync(art, sh, p, call);
    }
  }

  /** The SPI initialisation brings shadow and controller together from any state with an idle parser. */
  lemma InitSyncs(sh: Shadow, p: Panel)
    requires PanelOk(p)
    ensures var said := SayInit(sh, true);
      && AllWellFormed(said.ts) && Synced(said.sh, Obey(p, said.ts))
      && said.sh == Shadow(0, 0) && !Obey(p, said.ts).scrolling
      && forall x :: 0 <= x < CELLS ==> Obey(p, said.ts).ram[x] == 0
  {
    InitLands(p);
    ScreenKeepsSync(sh, Obey(p, InitTokens()), Repeat(0, CELLS));
    ObeyConcat(p, InitTokens(), SayScreen(sh, Repeat(0, CELLS)).ts);
  }

  lemma {:induction false} CallsKeepSync(art: Art, sh: Shadow, p: Panel, calls: seq<Call>)
    requires ArtOk(art) && Synced(sh, p) && forall i :: 0 <= i < |calls| ==> Homing(calls[i])
    ensures var said := DoAll(art, sh, calls); AllWellFormed(said.ts) && Synced(said.sh, Obey(p, said.ts))
    decreases calls
  {
    if calls != [] {
      var first := Do(art, sh, calls[0]);
      CallKeepsSync(art, sh, p, calls[0]);
      CallsKeepSync(art, first.sh, Obey(p, first.ts), calls[1..]);
      ObeyConcat(p, first.ts, DoAll(art, first.sh, calls[1..]).ts);
    }
  }

  /**
   Cache agrees with truth: after DisplayInit and any sequence of display calls with any arguments, the bytes
   on the bus have left the controller's pointer where the shadow cursor says it is.
   */
  lemma CursorAgrees(art: Art, sh: Shadow, p: Panel, calls: seq<Call>)
    requires ArtOk(art) && PanelOk(p) && p.parser.Ready? && forall i :: 0 <= i < |calls| ==> Homing(calls[i])
    ensures var said := DoAll(art, sh, [DisplayInit(true)] + calls); Synced(said.sh, Feed(p, Encode(said.ts)))
  {
    var all := [DisplayInit(true)] + calls;
    assert all[1..] == calls;
    var first := Do(art, sh, all[0]);
    InitSyncs(sh, p);
    CallsKeepSync(art, first.sh, Obey(p, first.ts), calls);
    ObeyConcat(p, first.ts, DoAll(art, first.sh, calls).ts);
    StreamParses(art, sh, all, p);
  }

  /** The one public call left out: a bare fill keeps the agreement exactly when the window's size divides 1024. */
  lemma FillKeepsSync(sh: Shadow, p: Panel, d: Byte)
    requires Synced(sh, p)
    ensures Size(p) > 0 && AllWellFormed(SayFill(sh, d).ts)
    ensures Synced(sh, Obey(p, SayFill(sh, d).ts)) <==> CELLS % Size(p) == 0
  {
    FillLands(p, d);
    FillReturns(p, d);
    var q := Obey(p, SayFill(sh, d).ts);
    assert Pointer(q) == Pointer(p) ==> q.col == p.col && q.page == p.page;
  }

  lemma NarrowWindow(p: Panel)
    requires Windowed(p) && p.colStart == 1 && p.pageStart == 0
    ensures Size(p) == 1016 && CELLS % Size(p) == 8
  {
    ModUnique(CELLS, 1016, 1, 8);
  }

  /** It does break: once the cursor has been set to column 1 of line 0, the window has 1016 cells. */
  lemma FillBreaksSync(sh: Shadow, p: Panel, d: Byte)
    requires PanelOk(p) && p.mode.Horizontal?
    ensures var said := SayCursor(sh, 0, 1);
      && AllWellFormed(said.ts) && Synced(said.sh, Obey(p, said.ts))
      && AllWellFormed(SayFill(said.sh, d).ts)
      && !Synced(said.sh, Obey(Obey(p, said.ts), SayFill(said.sh, d).ts))
  {
    var said := SayCursor(sh, 0, 1);
    CursorLands(sh, p, 0, 1);
    var q := Obey(p, said.ts);
    NarrowWindow(q);
    FillKeepsSync(said.sh, q, d);
  }
}
