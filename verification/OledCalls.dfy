/** What single calls, and the probe and remove functions, put on the display: stated on the bytes sent. */
module OledCalls {
  import opened Basics
  import opened Ssd1306
  import opened TextEngine
  import opened DisplaySettings
  import opened DisplayWindow
  import opened OledCursor
  import opened OledDriver
  import opened OledLayout

  /** The panel after a call's bytes. */
  function Shown(art: Art, sh: Shadow, p: Panel, call: Call): Panel
    requires ArtOk(art) && PanelOk(p)
  {
    Feed(p, Encode(Do(art, sh, call).ts))
  }

  lemma ShownObeys(art: Art, sh: Shadow, p: Panel, call: Call)
    requires ArtOk(art) && PanelOk(p) && p.parser.Ready?
    ensures AllWellFormed(Do(art, sh, call).ts) && Shown(art, sh, p, call) == Obey(p, Do(art, sh, call).ts)
  {
    DoWellFormed(art, sh, call);
    FeedEncode(p, Do(art, sh, call).ts);
  }

  /** SetCursor moves cursor, window and pointer for the 8 lines and 128 columns, and is ignored for all else. */
  lemma CursorExactly(art: Art, sh: Shadow, p: Panel, line: Byte, cursor: Byte)
    requires ArtOk(art) && PanelOk(p) && p.parser.Ready? && p.mode.Horizontal?
    ensures var sh', q := Do(art, sh, SetCursor(line, cursor)).sh, Shown(art, sh, p, SetCursor(line, cursor));
      if line < 8 && cursor < 128
      then sh' == Shadow(line, cursor) && q == p.(colStart := cursor, colEnd := 127, pageStart := line, pageEnd := 7,
                                                  col := cursor, page := line)
      else sh' == sh && q == p
  {
    ShownObeys(art, sh, p, SetCursor(line, cursor));
    if line < 8 && cursor < 128 { CursorLands(sh, p, line, cursor); }
  }

  /** GoToNextLine goes to column 0 of the next line, from the last line to the first. */
  lemma NextLineExactly(art: Art, sh: Shadow, p: Panel)
    requires ArtOk(art) && PanelOk(p) && p.parser.Ready? && p.mode.Horizontal? && sh.line < 8
    ensures var sh', q := Do(art, sh, GoToNextLine).sh, Shown(art, sh, p, GoToNextLine);
      sh' == Shadow((sh.line + 1) % 8, 0) && q.page == (sh.line + 1) % 8 && q.col == 0 && q.ram == p.ram && Synced(sh', q)
  {
    ShownObeys(art, sh, p, GoToNextLine);
    CursorLands(Shadow(LineAfter(sh.line), sh.cursor), p, LineAfter(sh.line), 0);
  }

  /** fill puts its byte in every cell from the window's first page and column on, and nowhere else. */
  lemma FillShows(art: Art, sh: Shadow, p: Panel, d: Byte)
    requires ArtOk(art) && Windowed(p) && p.parser.Ready?
    ensures Do(art, sh, Fill(d)).sh == sh
    ensures !p.scrolling ==>
              (forall x | 0 <= x < CELLS ::
                 Shown(art, sh, p, Fill(d)).ram[x] ==
                 if p.pageStart <= x / 128 && p.colStart <= x % 128 then d else p.ram[x])
  {
    ShownObeys(art, sh, p, Fill(d));
    FillLands(p, d);
  }

  /** ClearDisplay blanks all 1024 cells and homes the cursor, from any cursor and any window. */
  lemma ClearShows(art: Art, sh: Shadow, p: Panel)
    requires ArtOk(art) && PanelOk(p) && p.parser.Ready? && p.mode.Horizontal?
    ensures Do(art, sh, ClearDisplay).sh == Shadow(0, 0) && Homed(Shown(art, sh, p, ClearDisplay))
    ensures !p.scrolling ==> forall x :: 0 <= x < CELLS ==> Shown(art, sh, p, ClearDisplay).ram[x] == 0
  {
    ShownObeys(art, sh, p, ClearDisplay);
    ScreenKeepsSync(sh, p, Repeat(0, CELLS));
  }

  /** PrintLogo makes the RAM the logo, byte for byte. */
  lemma LogoShows(art: Art, sh: Shadow, p: Panel)
    requires ArtOk(art) && PanelOk(p) && p.parser.Ready? && p.mode.Horizontal?
    ensures Do(art, sh, PrintLogo).sh == Shadow(0, 0) && Homed(Shown(art, sh, p, PrintLogo))
    ensures !p.scrolling ==> Shown(art, sh, p, PrintLogo).ram == art.logo
  {
    ShownObeys(art, sh, p, PrintLogo);
    ScreenKeepsSync(sh, p, art.logo);
  }

  /** What a bare fill after the initialisation commands does to a panel with the window of `p`. */
  lemma BareInitLands(sh: Shadow, p: Panel)
    requires Windowed(p.(mode := Horizontal))
    ensures AllWellFormed(SayInit(sh, false).ts)
    ensures var q := Obey(p, SayInit(sh, false).ts);
      && q.colStart == p.colStart && q.pageStart == p.pageStart && q.mode.Horizontal? && !q.scrolling
      && (forall x | 0 <= x < CELLS ::
            q.ram[x] == if p.pageStart <= x / 128 && p.colStart <= x % 128 then 0 else p.ram[x])
  {
    InitLands(p);
    var p1 := Obey(p, InitTokens());
    FillLands(p1, 0);
    ObeyConcat(p, InitTokens(), Pixels(Repeat(0, CELLS)));
  }

  /** The I2C DisplayInit leaves cursor and window as they were and blanks exactly the window's cells. */
  lemma BareInitShows(art: Art, sh: Shadow, p: Panel)
    requires ArtOk(art) && Windowed(p.(mode := Horizontal)) && p.parser.Ready?
    ensures var sh', q := Do(art, sh, DisplayInit(false)).sh, Shown(art, sh, p, DisplayInit(false));
      && sh' == sh && q.colStart == p.colStart && q.pageStart == p.pageStart && q.mode.Horizontal? && !q.scrolling
      && (!p.scrolling ==>
            (forall x | 0 <= x < CELLS ::
               q.ram[x] == if p.pageStart <= x / 128 && p.colStart <= x % 128 then 0 else p.ram[x]))
  {
    ShownObeys(art, sh, p, DisplayInit(false));
    BareInitLands(sh, p);
  }

  /** The SPI DisplayInit homes the cursor, stops scrolling and blanks every cell, whatever the panel's state. */
  lemma HomedInitShows(art: Art, sh: Shadow, p: Panel)
    requires ArtOk(art) && PanelOk(p) && p.parser.Ready?
    ensures var sh', q := Do(art, sh, DisplayInit(true)).sh, Shown(art, sh, p, DisplayInit(true));
      && sh' == Shadow(0, 0) && Synced(sh', q) && !q.scrolling
      && forall x | 0 <= x < CELLS :: q.ram[x] == 0
  {
    ShownObeys(art, sh, p, DisplayInit(true));
    InitSyncs(sh, p);
  }

  // ------------------------------------------------------ the data on the bus

  /** The display data among tokens, in order. */
  function DataOf(ts: seq<Token>): seq<Byte> {
    if ts == [] then [] else (if ts[0].Pixel? then [ts[0].b] else []) + DataOf(ts[1..])
  }

  /** The columns of a text, newlines having none. */
  function Glyphs(art: Art, cs: seq<Byte>): seq<Byte>
    requires ArtOk(art)
  {
    if cs == [] then [] else (if cs[0] == 10 then [] else Glyph(art, cs[0])) + Glyphs(art, cs[1..])
  }

  lemma {:induction false} DataConcat(a: seq<Token>, b: seq<Token>)
    ensures DataOf(a + b) == DataOf(a) + DataOf(b)
    decreases a
  {
    if a == [] {
      assert a + b == b;
    } else {
      assert (a + b)[0] == a[0] && (a + b)[1..] == a[1..] + b;
      DataConcat(a[1..], b);
    }
  }

  lemma {:induction false} PixelsData(bytes: seq<Byte>)
    ensures DataOf(Pixels(bytes)) == bytes
    decreases bytes
  {
    if bytes != [] {
      assert Pixels(bytes)[0] == Pixel(bytes[0]) && Pixels(bytes)[1..] == Pixels(bytes[1..]);
      PixelsData(bytes[1..]);
    }
  }

  lemma {:induction false} OrdersData(ts: seq<Token>)
    requires forall i :: 0 <= i < |ts| ==> ts[i].Order?
    ensures DataOf(ts) == []
    decreases ts
  {
    if ts != [] { OrdersData(ts[1..]); }
  }

  lemma CharData(art: Art, sh: Shadow, c: Byte)
    requires ArtOk(art)
    ensures DataOf(SayChar(art, sh, c).ts) == if c == 10 then [] else Glyph(art, c)
  {
    var b := if Breaks(sh, c) then SayNextLine(sh) else Said(sh, []);
    OrdersData(b.ts);
    if c != 10 {
      DataConcat(b.ts, Pixels(Columns(art, c)));
      PixelsData(Columns(art, c));
      GlyphIsColumns(art, c);
    }
  }

  lemma {:induction false} TextData(art: Art, sh: Shadow, cs: seq<Byte>)
    requires ArtOk(art)
    ensures DataOf(SayAll(art, sh, cs).ts) == Glyphs(art, cs)
    decreases cs
  {
    if cs != [] {
      var first := SayChar(art, sh, cs[0]);
      CharData(art, sh, cs[0]);
      TextData(art, first.sh, cs[1..]);
      DataConcat(first.ts, SayAll(art, first.sh, cs[1..]).ts);
    }
  }

  /** probe sends a blank screen and then its text; it ends where the text's layout does. */
  lemma ProbeSends(art: Art, sh: Shadow, text: seq<Byte>)
    requires ArtOk(art)
    ensures var said := DoAll(art, sh, ProbeCalls(text));
      DataOf(said.ts) == Repeat(0, 1024) + Glyphs(art, UpToNul(text))
  {
    GreetingIsCalls(art, sh, text);
    var init := SayInit(sh, false);
    var home := SayCursor(init.sh, 0, 0);
    var scroll := SayScrollHorizontal(home.sh, true, 0, 2);
    var last := SayAll(art, home.sh, UpToNul(text));
    InitData(sh);
    OrdersData(home.ts);
    OrdersData(scroll.ts);
    TextData(art, home.sh, UpToNul(text));
    DataFour(init.ts, home.ts, scroll.ts, last.ts);
    assert Repeat(0, 1024) + [] + [] + Glyphs(art, UpToNul(text)) == Repeat(0, 1024) + Glyphs(art, UpToNul(text));
  }

  lemma DataFour(a: seq<Token>, b: seq<Token>, c: seq<Token>, d: seq<Token>)
    ensures DataOf(a + b + c + d) == DataOf(a) + DataOf(b) + DataOf(c) + DataOf(d)
  {
    DataConcat(a, b);
    DataConcat(a + b, c);
    DataConcat(a + b + c, d);
  }

  lemma InitData(sh: Shadow)
    ensures DataOf(SayInit(sh, false).ts) == Repeat(0, 1024)
  {
    OrdersData(INIT_FIRST);
    OrdersData([Order(0x20, [0x00])]);
    OrdersData(INIT_PINS);
    OrdersData(INIT_ON);
    DataFour(INIT_FIRST, [Order(0x20, [0x00])], INIT_PINS, INIT_ON);
    PixelsData(Repeat(0, CELLS));
    DataConcat(InitTokens(), Pixels(Repeat(0, CELLS)));
    assert [] + Repeat(0, CELLS) == Repeat(0, 1024);
  }

  /** remove sends its text and then a blank screen. */
  lemma RemoveSends(art: Art, sh: Shadow, text: seq<Byte>)
    requires ArtOk(art)
    ensures DataOf(DoAll(art, sh, RemoveCalls(text)).ts) == Glyphs(art, UpToNul(text)) + Repeat(0, 1024)
    ensures DoAll(art, sh, RemoveCalls(text)).sh == Shadow(0, 0)
  {
    FarewellIsCalls(art, sh, text);
    var last := SayAll(art, sh, UpToNul(text));
    var home := SayCursor(last.sh, 0, 0);
    TextData(art, sh, UpToNul(text));
    OrdersData(home.ts);
    PixelsData(Repeat(0, CELLS));
    OrdersData([Order(0xAE, [])]);
    DataFour(last.ts, home.ts, Pixels(Repeat(0, CELLS)), [Order(0xAE, [])]);
    assert Glyphs(art, UpToNul(text)) + [] + Repeat(0, CELLS) + [] == Glyphs(art, UpToNul(text)) + Repeat(0, 1024);
  }

  /** probe leaves the display on, initialised and scrolling pages 0 to 2 to the left. */
  lemma ProbeSets(l: Settings, text: seq<Byte>)
    ensures MeantAll(l, ProbeCalls(text)) == (l + INITIAL)[ScrollPages := [1, 0, 0, 2]][Scrolling := [1]]
  {
    MeantFour(l, DisplayInit(false), SetCursor(0, 0), ScrollHorizontal(true, 0, 2), PrintString(text));
  }

  /** remove turns the display off and changes no other setting. */
  lemma RemoveSets(l: Settings, text: seq<Byte>)
    ensures MeantAll(l, RemoveCalls(text)) == l[Power := [0]]
  {
    MeantFour(l, PrintString(text), SetCursor(0, 0), Fill(0x00), DisplayOff);
  }

  lemma MeantFour(l: Settings, a: Call, b: Call, c: Call, d: Call)
    ensures MeantAll(l, [a, b, c, d]) == Meant(Meant(Meant(Meant(l, a), b), c), d)
  {
    assert [a, b, c, d][1..] == [b, c, d] && [b, c, d][1..] == [c, d] && [c, d][1..] == [d] && [d][1..] == [];
    var l2 := Meant(Meant(l, a), b);
    assert MeantAll(Meant(l2, c), [d]) == Meant(Meant(l2, c), d);
    assert MeantAll(l2, [c, d]) == Meant(Meant(l2, c), d);
    assert MeantAll(Meant(l, a), [b, c, d]) == MeantAll(l2, [c, d]);
  }

  /** After probe, on any panel a previous cycle left at home, cursor and pointer stand where the text's layout ends. */
  lemma ProbeEnds(art: Art, sh: Shadow, p: Panel, text: seq<Byte>)
    requires ArtOk(art) && PanelOk(p) && p.mode.Horizontal?
    ensures var said := DoAll(art, sh, ProbeCalls(text)[1..]);
      AllWellFormed(said.ts) && said.sh == CursorAfter(UpToNul(text)) && Synced(said.sh, Obey(p, said.ts))
  {
    var calls := ProbeCalls(text)[1..];
    assert calls == [SetCursor(0, 0), ScrollHorizontal(true, 0, 2), PrintString(text)];
    var home := SayCursor(sh, 0, 0);
    var scroll := SayScrollHorizontal(home.sh, true, 0, 2);
    var last := SayAll(art, home.sh, UpToNul(text));
    ThreeCalls(art, sh, calls[0], calls[1], calls[2]);
    CursorLands(sh, p, 0, 0);
    var q := Obey(p, home.ts);
    CommandKeepsSync(art, home.sh, q, calls[1]);
    LinesLand(art, Obey(q, scroll.ts), UpToNul(text));
    ObeyConcat(p, home.ts, scroll.ts);
    ObeyConcat(p, home.ts + scroll.ts, last.ts);
  }

  lemma ThreeCalls(art: Art, sh: Shadow, a: Call, b: Call, c: Call)
    requires ArtOk(art)
    ensures var s0 := Do(art, sh, a);
      var s1 := Do(art, s0.sh, b);
      var s2 := Do(art, s1.sh, c);
      DoAll(art, sh, [a, b, c]) == Said(s2.sh, s0.ts + s1.ts + s2.ts)
  {
    var s0 := Do(art, sh, a);
    var s1 := Do(art, s0.sh, b);
    var s2 := Do(art, s1.sh, c);
    assert [a, b, c][1..] == [b, c] && [b, c][1..] == [c] && [c][1..] == [];
    assert s2.ts + [] == s2.ts && s0.ts + (s1.ts + s2.ts) == s0.ts + s1.ts + s2.ts;
    assert DoAll(art, s1.sh, [c]) == s2;
  }
}
