/**
 The controller's display settings, which no RAM access reads or writes: what the command bytes of section 9 of the
 SSD1306 datasheet set, and what the calls of the driver are meant to set.
 */
module DisplaySettings {
  import opened Basics
  import opened Ssd1306
  import opened TextEngine

  datatype Register =
    | Power | Inversion | EntireOn | Contrast | Clock | Multiplex | Offset | StartLine | ChargePump
    | SegmentRemap | ComScan | ComPins | Precharge | Vcomh | Scrolling | ScrollPages | ScrollArea

  type Settings = map<Register, seq<Byte>>

  /** The controller's side: the register a command sets and the bits of its arguments that count. */
  function Sets(op: Byte, args: seq<Byte>): Option<(Register, seq<Byte>)>
    requires |args| == ArgCount(op)
  {
    if op == 0xAE || op == 0xAF then Some((Power, [op - 0xAE]))
    else if op == 0xA6 || op == 0xA7 then Some((Inversion, [op - 0xA6]))
    else if op == 0xA4 || op == 0xA5 then Some((EntireOn, [op - 0xA4]))
    else if op == 0xA0 || op == 0xA1 then Some((SegmentRemap, [op - 0xA0]))
    else if op == 0x2E || op == 0x2F then Some((Scrolling, [op - 0x2E]))
    else if op == 0x81 then Some((Contrast, args))
    else if op == 0xD5 then Some((Clock, args))
    else if op == 0xD9 then Some((Precharge, args))
    else if op == 0x8D then Some((ChargePump, args))
    else if op == 0xA8 then Some((Multiplex, [args[0] % 64]))
    else if op == 0xD3 then Some((Offset, [args[0] % 64]))
    else if op == 0xDA then Some((ComPins, args))
    else if op == 0xDB then Some((Vcomh, args))
    else if 0x40 <= op < 0x80 then Some((StartLine, [op - 0x40]))
    else if 0xC0 <= op < 0xD0 then Some((ComScan, [if op < 0xC8 then 0 else 1]))
    else if op == 0xA3 then Some((ScrollArea, [args[0] % 64, args[1] % 128]))
    else if op == 0x26 || op == 0x27 then
      Some((ScrollPages, [op - 0x26, args[1] % 8, args[2] % 8, args[3] % 8]))
    else if op == 0x29 || op == 0x2A then
      Some((ScrollPages, [op - 0x29, args[1] % 8, args[2] % 8, args[3] % 8, args[4] % 64]))
    else None
  }

  function ConfigureOne(l: Settings, t: Token): Settings
    requires WellFormed(t)
  {
    if t.Pixel? then l
    else match Sets(t.op, t.args)
         case None => l
         case Some((r, v)) => l[r := v]
  }

  function Configure(l: Settings, ts: seq<Token>): Settings
    requires AllWellFormed(ts)
    decreases ts
  {
    if ts == [] then l else Configure(ConfigureOne(l, ts[0]), ts[1..])
  }

  /** The settings after a byte stream, parsed as the controller parses it. */
  function Configured(l: Settings, items: seq<Item>): Settings
    requires Decode(Ready, items).Some? && AllWellFormed(Decode(Ready, items).value)
  {
    Configure(l, Decode(Ready, items).value)
  }

  // ----------------------------------------------------------- what is meant

  /** DisplayInit's choices, register by register. */
  const INITIAL: Settings :=
    map[Power := [1], Inversion := [0], EntireOn := [0], Contrast := [128], Clock := [0x80], Multiplex := [63],
        Offset := [0], StartLine := [0], ChargePump := [0x14], SegmentRemap := [1], ComScan := [1], ComPins := [0x12],
        Precharge := [0xF1], Vcomh := [0x20], Scrolling := [0]]

  function Flag(b: bool): Byte { if b then 1 else 0 }

  /** The settings a caller expects from a call; pages are three bits wide, a scroll area seven and rows six. */
  function Meant(l: Settings, call: Call): Settings {
    match call
    case InvertDisplay(invert) => l[Inversion := [Flag(invert)]]
    case SetBrightness(value) => l[Contrast := [value]]
    case ScrollHorizontal(left, from, to) => l[ScrollPages := [Flag(left), from % 8, 0, to % 8]][Scrolling := [1]]
    case ScrollDiagonal(left, from, to, area, rows) =>
      l[ScrollArea := [0, area % 128]][ScrollPages := [Flag(left), from % 8, 0, to % 8, rows % 64]][Scrolling := [1]]
    case DeactivateScroll => l[Scrolling := [0]]
    case DisplayInit(_) => l + INITIAL
    case DisplayOff => l[Power := [0]]
    case _ => l
  }

  function MeantAll(l: Settings, calls: seq<Call>): Settings
    decreases calls
  {
    if calls == [] then l else MeantAll(Meant(l, calls[0]), calls[1..])
  }

  // --------------------------------------------------------------- they agree

  lemma {:induction false} ConfigureConcat(l: Settings, a: seq<Token>, b: seq<Token>)
    requires AllWellFormed(a) && AllWellFormed(b)
    ensures AllWellFormed(a + b) && Configure(l, a + b) == Configure(Configure(l, a), b)
    decreases a
  {
    if a == [] {
      assert a + b == b;
    } else {
      assert (a + b)[0] == a[0] && (a + b)[1..] == a[1..] + b;
      ConfigureConcat(ConfigureOne(l, a[0]), a[1..], b);
    }
  }

  /** Data, windows and the addressing mode set none of these registers. */
  predicate Draws(t: Token) { t.Order? ==> t.op == 0x20 || t.op == 0x21 || t.op == 0x22 }

  lemma {:induction false} DrawingKeeps(l: Settings, ts: seq<Token>)
    requires AllWellFormed(ts) && forall i :: 0 <= i < |ts| ==> Draws(ts[i])
    ensures Configure(l, ts) == l
    decreases ts
  {
    if ts != [] { DrawingKeeps(l, ts[1..]); }
  }

  lemma {:induction false} TextDraws(art: Art, sh: Shadow, cs: seq<Byte>)
    requires ArtOk(art)
    ensures forall i :: 0 <= i < |SayAll(art, sh, cs).ts| ==> Draws(SayAll(art, sh, cs).ts[i])
    decreases cs
  {
    if cs != [] { TextDraws(art, SayChar(art, sh, cs[0]).sh, cs[1..]); }
  }

  lemma OneSets(l: Settings, t: Token)
    requires WellFormed(t)
    ensures AllWellFormed([t]) && Configure(l, [t]) == ConfigureOne(l, t)
  {
    assert [t][1..] == [];
  }

  lemma TwoSet(l: Settings, t: Token, u: Token)
    requires WellFormed(t) && WellFormed(u)
    ensures AllWellFormed([t, u]) && Configure(l, [t, u]) == ConfigureOne(ConfigureOne(l, t), u)
  {
    assert [t, u][1..] == [u];
    OneSets(ConfigureOne(l, t), u);
  }

  /** A command and what it sets. */
  predicate Gives(t: Token, r: Register, v: seq<Byte>) {
    t.Order? && WellFormed(t) && Sets(t.op, t.args) == Some((r, v))
  }

  lemma TwoGive(l: Settings, t: Token, u: Token, r: Register, v: seq<Byte>, r': Register, v': seq<Byte>)
    requires Gives(t, r, v) && Gives(u, r', v')
    ensures AllWellFormed([t, u]) && Configure(l, [t, u]) == l[r := v][r' := v']
  {
    TwoSet(l, t, u);
  }

  lemma ThenGives(l: Settings, ts: seq<Token>, t: Token, r: Register, v: seq<Byte>)
    requires AllWellFormed(ts) && Gives(t, r, v)
    ensures AllWellFormed(ts + [t]) && Configure(l, ts + [t]) == Configure(l, ts)[r := v]
  {
    ConfigureConcat(l, ts, [t]);
    OneSets(Configure(l, ts), t);
  }

  lemma ClockSets(l: Settings)
    ensures AllWellFormed([Order(0xAE, []), Order(0xD5, [0x80])])
    ensures Configure(l, [Order(0xAE, []), Order(0xD5, [0x80])]) == l[Power := [0]][Clock := [0x80]]
  {
    TwoGive(l, Order(0xAE, []), Order(0xD5, [0x80]), Power, [0], Clock, [0x80]);
  }

  lemma RowsSet(l: Settings)
    ensures AllWellFormed([Order(0xA8, [0x3F]), Order(0xD3, [0x00])])
    ensures Configure(l, [Order(0xA8, [0x3F]), Order(0xD3, [0x00])]) == l[Multiplex := [63]][Offset := [0]]
  {
    TwoGive(l, Order(0xA8, [0x3F]), Order(0xD3, [0x00]), Multiplex, [63], Offset, [0]);
  }

  lemma PumpSets(l: Settings)
    ensures AllWellFormed([Order(0x40, []), Order(0x8D, [0x14])])
    ensures Configure(l, [Order(0x40, []), Order(0x8D, [0x14])]) == l[StartLine := [0]][ChargePump := [0x14]]
  {
    TwoGive(l, Order(0x40, []), Order(0x8D, [0x14]), StartLine, [0], ChargePump, [0x14]);
  }

  lemma FirstSets(l: Settings)
    ensures AllWellFormed(INIT_FIRST)
    ensures Configure(l, INIT_FIRST) ==
      l[Power := [0]][Clock := [0x80]][Multiplex := [63]][Offset := [0]][StartLine := [0]][ChargePump := [0x14]]
  {
    var a, b, c := [Order(0xAE, []), Order(0xD5, [0x80])], [Order(0xA8, [0x3F]), Order(0xD3, [0x00])],
                   [Order(0x40, []), Order(0x8D, [0x14])];
    ClockSets(l);
    RowsSet(Configure(l, a));
    PumpSets(Configure(Configure(l, a), b));
    ConfigureThree(l, a, b, c);
    assert INIT_FIRST == a + b + c;
  }

  lemma ConfigureThree(l: Settings, a: seq<Token>, b: seq<Token>, c: seq<Token>)
    requires AllWellFormed(a) && AllWellFormed(b) && AllWellFormed(c)
    ensures AllWellFormed(a + b + c) && Configure(l, a + b + c) == Configure(Configure(Configure(l, a), b), c)
  {
    ConfigureConcat(l, a, b);
    ConfigureConcat(l, a + b, c);
  }

  lemma RemapSets(l: Settings)
    ensures AllWellFormed([Order(0xA1, []), Order(0xC8, [])])
    ensures Configure(l, [Order(0xA1, []), Order(0xC8, [])]) == l[SegmentRemap := [1]][ComScan := [1]]
  {
    TwoGive(l, Order(0xA1, []), Order(0xC8, []), SegmentRemap, [1], ComScan, [1]);
  }

  lemma ContrastSets(l: Settings)
    ensures AllWellFormed([Order(0xDA, [0x12]), Order(0x81, [0x80])])
    ensures Configure(l, [Order(0xDA, [0x12]), Order(0x81, [0x80])]) == l[ComPins := [0x12]][Contrast := [128]]
  {
    TwoGive(l, Order(0xDA, [0x12]), Order(0x81, [0x80]), ComPins, [0x12], Contrast, [128]);
  }

  lemma PinsSet(l: Settings)
    ensures AllWellFormed(INIT_PINS)
    ensures Configure(l, INIT_PINS) ==
      l[SegmentRemap := [1]][ComScan := [1]][ComPins := [0x12]][Contrast := [128]][Precharge := [0xF1]]
  {
    var a, b, last := [Order(0xA1, []), Order(0xC8, [])], [Order(0xDA, [0x12]), Order(0x81, [0x80])], Order(0xD9, [0xF1]);
    RemapSets(l);
    ContrastSets(Configure(l, a));
    ConfigureConcat(l, a, b);
    ThenGives(l, a + b, last, Precharge, [0xF1]);
    assert INIT_PINS == a + b + [last];
  }

  lemma VcomhSets(l: Settings)
    ensures AllWellFormed([Order(0xDB, [0x20]), Order(0xA4, [])])
    ensures Configure(l, [Order(0xDB, [0x20]), Order(0xA4, [])]) == l[Vcomh := [0x20]][EntireOn := [0]]
  {
    TwoGive(l, Order(0xDB, [0x20]), Order(0xA4, []), Vcomh, [0x20], EntireOn, [0]);
  }

  lemma NormalSets(l: Settings)
    ensures AllWellFormed([Order(0xA6, []), Order(0x2E, [])])
    ensures Configure(l, [Order(0xA6, []), Order(0x2E, [])]) == l[Inversion := [0]][Scrolling := [0]]
  {
    TwoGive(l, Order(0xA6, []), Order(0x2E, []), Inversion, [0], Scrolling, [0]);
  }

  lemma OnSets(l: Settings)
    ensures AllWellFormed(INIT_ON)
    ensures Configure(l, INIT_ON) ==
      l[Vcomh := [0x20]][EntireOn := [0]][Inversion := [0]][Scrolling := [0]][Power := [1]]
  {
    var a, b, last := [Order(0xDB, [0x20]), Order(0xA4, [])], [Order(0xA6, []), Order(0x2E, [])], Order(0xAF, []);
    VcomhSets(l);
    NormalSets(Configure(l, a));
    ConfigureConcat(l, a, b);
    ThenGives(l, a + b, last, Power, [1]);
    assert INIT_ON == a + b + [last];
  }

  lemma ModeKeeps(l: Settings)
    ensures AllWellFormed([Order(0x20, [0x00])]) && Configure(l, [Order(0x20, [0x00])]) == l
  {
    DrawingKeeps(l, [Order(0x20, [0x00])]);
  }

  lemma FourSet(l: Settings, a: seq<Token>, m: seq<Token>, b: seq<Token>, c: seq<Token>)
    requires AllWellFormed(a) && AllWellFormed(m) && AllWellFormed(b) && AllWellFormed(c)
    ensures AllWellFormed(a + m + b + c)
    ensures Configure(l, a + m + b + c) == Configure(Configure(Configure(Configure(l, a), m), b), c)
  {
    ConfigureThree(l, a, m, b);
    ConfigureConcat(l, a + m + b, c);
  }

  /** The 26 command bytes leave every register as chosen and touch no other. */
  lemma InitSets(l: Settings)
    ensures AllWellFormed(InitTokens()) && Configure(l, InitTokens()) == l + INITIAL
  {
    FirstSets(l);
    var l1 := Configure(l, INIT_FIRST);
    ModeKeeps(l1);
    PinsSet(l1);
    OnSets(Configure(l1, INIT_PINS));
    FourSet(l, INIT_FIRST, [Order(0x20, [0x00])], INIT_PINS, INIT_ON);
    InitialChain(l);
  }

  lemma InitialChain(l: Settings)
    ensures l[Power := [0]][Clock := [0x80]][Multiplex := [63]][Offset := [0]][StartLine := [0]][ChargePump := [0x14]]
             [SegmentRemap := [1]][ComScan := [1]][ComPins := [0x12]][Contrast := [128]][Precharge := [0xF1]]
             [Vcomh := [0x20]][EntireOn := [0]][Inversion := [0]][Scrolling := [0]][Power := [1]] == l + INITIAL
  {
  }

  lemma HorizontalSets(sh: Shadow, left: bool, from: Byte, to: Byte, l: Settings)
    ensures var ts := SayScrollHorizontal(sh, left, from, to).ts;
      AllWellFormed(ts) && Configure(l, ts) == l[ScrollPages := [Flag(left), from % 8, 0, to % 8]][Scrolling := [1]]
  {
    TwoGive(l, Order(if left then 0x27 else 0x26, [0x00, from, 0x00, to, 0x00, 0xFF]), Order(0x2F, []),
            ScrollPages, [Flag(left), from % 8, 0, to % 8], Scrolling, [1]);
  }

  lemma DiagonalSets(sh: Shadow, left: bool, from: Byte, to: Byte, area: Byte, rows: Byte, l: Settings)
    ensures var ts := SayScrollDiagonal(sh, left, from, to, area, rows).ts;
      && AllWellFormed(ts)
      && Configure(l, ts) == l[ScrollArea := [0, area % 128]]
                              [ScrollPages := [Flag(left), from % 8, 0, to % 8, rows % 64]][Scrolling := [1]]
  {
    var ts := [Order(0xA3, [0x00, area]), Order(if left then 0x2A else 0x29, [0x00, from, 0x00, to, rows])];
    TwoGive(l, ts[0], ts[1], ScrollArea, [0, area % 128], ScrollPages, [Flag(left), from % 8, 0, to % 8, rows % 64]);
    ThenGives(l, ts, Order(0x2F, []), Scrolling, [1]);
    assert SayScrollDiagonal(sh, left, from, to, area, rows).ts == ts + [Order(0x2F, [])];
  }

  lemma ScreenKeeps(l: Settings, sh: Shadow, screen: seq<Byte>)
    ensures AllWellFormed(SayScreen(sh, screen).ts) && Configure(l, SayScreen(sh, screen).ts) == l
    ensures AllWellFormed(Pixels(screen)) && Configure(l, Pixels(screen)) == l
  {
    DrawingKeeps(l, SayScreen(sh, screen).ts);
    DrawingKeeps(l, Pixels(screen));
  }

  lemma InitCallSets(l: Settings, sh: Shadow, spi: bool)
    ensures AllWellFormed(SayInit(sh, spi).ts) && Configure(l, SayInit(sh, spi).ts) == l + INITIAL
  {
    InitSets(l);
    ScreenKeeps(l + INITIAL, sh, Repeat(0, CELLS));
    ConfigureConcat(l, InitTokens(), if spi then SayScreen(sh, Repeat(0, CELLS)).ts else SayFill(sh, 0).ts);
  }

  predicate Text(call: Call) { call.SetCursor? || call.GoToNextLine? || call.PrintChar? || call.PrintString? }

  lemma TextKeeps(art: Art, sh: Shadow, call: Call, l: Settings)
    requires ArtOk(art) && Text(call) && AllWellFormed(Do(art, sh, call).ts)
    ensures Configure(l, Do(art, sh, call).ts) == l
  {
    if call.PrintString? { TextDraws(art, sh, UpToNul(call.str)); }
    DrawingKeeps(l, Do(art, sh, call).ts);
  }

  lemma ScreenCallKeeps(art: Art, sh: Shadow, call: Call, l: Settings)
    requires ArtOk(art) && (call.ClearDisplay? || call.PrintLogo? || call.Fill?)
    requires AllWellFormed(Do(art, sh, call).ts)
    ensures Configure(l, Do(art, sh, call).ts) == l
  {
    match call {
      case ClearDisplay => ScreenKeeps(l, sh, Repeat(0, CELLS));
      case PrintLogo => ScreenKeeps(l, sh, art.logo);
      case Fill(data) => ScreenKeeps(l, sh, Repeat(data, CELLS));
    }
  }

  lemma CommandSets(art: Art, sh: Shadow, call: Call, l: Settings)
    requires ArtOk(art) && AllWellFormed(Do(art, sh, call).ts)
    requires call.InvertDisplay? || call.SetBrightness? || call.DeactivateScroll? || call.DisplayOff?
    ensures Configure(l, Do(art, sh, call).ts) == Meant(l, call)
  {
    OneSets(l, Do(art, sh, call).ts[0]);
  }

  lemma CallSets(art: Art, sh: Shadow, call: Call, l: Settings)
    requires ArtOk(art)
    ensures AllWellFormed(Do(art, sh, call).ts) && Configure(l, Do(art, sh, call).ts) == Meant(l, call)
  {
    DoWellFormed(art, sh, call);
    match call {
      case DisplayInit(spi) => InitCallSets(l, sh, spi);
      case ScrollHorizontal(left, from, to) => HorizontalSets(sh, left, from, to, l);
      case ScrollDiagonal(left, from, to, area, rows) => DiagonalSets(sh, left, from, to, area, rows, l);
      case _ =>
        if Text(call) {
          TextKeeps(art, sh, call, l);
        } else if call.ClearDisplay? || call.PrintLogo? || call.Fill? {
          ScreenCallKeeps(art, sh, call, l);
        } else {
          CommandSets(art, sh, call, l);
        }
    }
  }

  lemma {:induction false} CallsSet(art: Art, sh: Shadow, calls: seq<Call>, l: Settings)
    requires ArtOk(art)
    ensures AllWellFormed(DoAll(art, sh, calls).ts) && Configure(l, DoAll(art, sh, calls).ts) == MeantAll(l, calls)
    decreases calls
  {
    DoAllWellFormed(art, sh, calls);
    if calls != [] {
      var first := Do(art, sh, calls[0]);
      CallSets(art, sh, calls[0], l);
      CallsSet(art, first.sh, calls[1..], Meant(l, calls[0]));
      ConfigureConcat(l, first.ts, DoAll(art, first.sh, calls[1..]).ts);
    }
  }

  /**
   After any calls with any arguments, the bytes on the bus have left every display setting as the calls meant it:
   inversion, contrast, power, scroll direction, pages and area, and all registers of DisplayInit.
   */
  lemma SettingsAreMeant(art: Art, sh: Shadow, calls: seq<Call>, l: Settings)
    requires ArtOk(art)
    ensures var items := Encode(DoAll(art, sh, calls).ts);
      && Decode(Ready, items).Some? && AllWellFormed(Decode(Ready, items).value)
      && Configured(l, items) == MeantAll(l, calls)
  {
    CallsSet(art, sh, calls, l);
    DecodeEncode(DoAll(art, sh, calls).ts);
  }

  /** The panel's scroll flag is the Scrolling register. */
  lemma {:induction false} ScrollFlagAgrees(p: Panel, l: Settings, ts: seq<Token>)
    requires PanelOk(p) && AllWellFormed(ts) && Scrolling in l && l[Scrolling] == [Flag(p.scrolling)]
    ensures Scrolling in Configure(l, ts) && Configure(l, ts)[Scrolling] == [Flag(Obey(p, ts).scrolling)]
    decreases ts
  {
    if ts != [] { ScrollFlagAgrees(ObeyOne(p, ts[0]), ConfigureOne(l, ts[0]), ts[1..]); }
  }

  /** Whether a panel scrolls after any calls: as the last call that starts, stops or initialises left it. */
  function Scrolls(was: bool, calls: seq<Call>): bool {
    if calls == [] then was
    else
      var last := calls[|calls| - 1];
      if last.ScrollHorizontal? || last.ScrollDiagonal? then true
      else if last.DeactivateScroll? || last.DisplayInit? then false
      else Scrolls(was, calls[..|calls| - 1])
  }

  lemma {:induction false} MeantSnoc(l: Settings, calls: seq<Call>, call: Call)
    ensures MeantAll(l, calls + [call]) == Meant(MeantAll(l, calls), call)
    decreases calls
  {
    if calls == [] {
      assert calls + [call] == [call] && [call][1..] == [];
    } else {
      assert (calls + [call])[1..] == calls[1..] + [call];
      MeantSnoc(Meant(l, calls[0]), calls[1..], call);
    }
  }

  lemma {:induction false} MeantScrolls(l: Settings, was: bool, calls: seq<Call>)
    requires Scrolling in l && l[Scrolling] == [Flag(was)]
    ensures Scrolling in MeantAll(l, calls) && MeantAll(l, calls)[Scrolling] == [Flag(Scrolls(was, calls))]
    decreases |calls|
  {
    if calls != [] {
      var init, last := calls[..|calls| - 1], calls[|calls| - 1];
      assert calls == init + [last];
      MeantScrolls(l, was, init);
      MeantSnoc(l, init, last);
    }
  }

  lemma ScrollingFollows(art: Art, sh: Shadow, calls: seq<Call>, p: Panel)
    requires ArtOk(art) && PanelOk(p) && p.parser.Ready?
    ensures Feed(p, Encode(DoAll(art, sh, calls).ts)).scrolling == Scrolls(p.scrolling, calls)
  {
    var l: Settings := map[Scrolling := [Flag(p.scrolling)]];
    StreamParses(art, sh, calls, p);
    CallsSet(art, sh, calls, l);
    ScrollFlagAgrees(p, l, DoAll(art, sh, calls).ts);
    MeantScrolls(l, p.scrolling, calls);
  }
}
