/** What each call of the display driver does to the shadow cursor and says to the controller. */
module TextEngine {
  import opened Basics
  import opened Ssd1306

  const MAX_SEG: Byte := 128
  const MAX_LINE: Byte := 7
  const FONT_SIZE: Byte := 5
  const NEWLINE: Byte := 10

  /** SSD1306_LineNum and SSD1306_CursorPos. */
  datatype Shadow = Shadow(line: Byte, cursor: Byte)

  /**
   The font and logo tables.  The font is indexed by `c - 0x20` in unsigned char arithmetic; rows from 95 on
   stand for whatever follows the table in memory.
   */
  datatype Art = Art(font: seq<seq<Byte>>, logo: seq<Byte>)

  predicate ArtOk(art: Art) {
    |art.font| == 256 && (forall c :: 0 <= c < 256 ==> |art.font[c]| == FONT_SIZE) && |art.logo| == CELLS
  }

  datatype Said = Said(sh: Shadow, ts: seq<Token>)

  datatype Call =
    | SetCursor(line: Byte, cursor: Byte)
    | GoToNextLine
    | PrintChar(c: Byte)
    | PrintString(str: seq<Byte>)
    | InvertDisplay(invert: bool)
    | SetBrightness(value: Byte)
    | ScrollHorizontal(left: bool, from: Byte, to: Byte)
    | ScrollDiagonal(left: bool, from: Byte, to: Byte, area: Byte, rows: Byte)
    | DeactivateScroll
    | Fill(data: Byte)
    | ClearDisplay
    | PrintLogo
    | DisplayInit(spi: bool)
    | DisplayOff

  function SayCursor(sh: Shadow, line: Byte, cursor: Byte): Said {
    if line <= MAX_LINE && cursor < MAX_SEG
    then Said(Shadow(line, cursor), [Order(0x21, [cursor, MAX_SEG - 1]), Order(0x22, [line, MAX_LINE])])
    else Said(sh, [])
  }

  /** The line after `line`: incremented as uint8_t, then masked with MAX_LINE. */
  function LineAfter(line: Byte): Byte {
    ((line + 1) % 256) % 8
  }

  function SayNextLine(sh: Shadow): Said {
    SayCursor(Shadow(LineAfter(sh.line), sh.cursor), LineAfter(sh.line), 0)
  }

  /** Six columns: the glyph and one blank. */
  function Columns(art: Art, c: Byte): (r: seq<Byte>)
    requires ArtOk(art)
    ensures |r| == 6
  {
    art.font[(c + 224) % 256] + [0]
  }

  predicate Breaks(sh: Shadow, c: Byte) { sh.cursor + FONT_SIZE >= MAX_SEG || c == NEWLINE }

  function SayChar(art: Art, sh: Shadow, c: Byte): Said
    requires ArtOk(art)
  {
    var b := if Breaks(sh, c) then SayNextLine(sh) else Said(sh, []);
    if c == NEWLINE then b
    else Said(b.sh.(cursor := (b.sh.cursor + 6) % 256), b.ts + Pixels(Columns(art, c)))
  }

  function SayAll(art: Art, sh: Shadow, cs: seq<Byte>): Said
    requires ArtOk(art)
    decreases cs
  {
    if cs == [] then Said(sh, [])
    else
      var first := SayChar(art, sh, cs[0]);
      var rest := SayAll(art, first.sh, cs[1..]);
      Said(rest.sh, first.ts + rest.ts)
  }

  lemma {:induction false} SayAllSnoc(art: Art, sh: Shadow, cs: seq<Byte>, c: Byte)
    requires ArtOk(art)
    ensures var init := SayAll(art, sh, cs);
      SayAll(art, sh, cs + [c]) == Said(SayChar(art, init.sh, c).sh, init.ts + SayChar(art, init.sh, c).ts)
    decreases cs
  {
    if cs == [] {
      assert cs + [c] == [c] && [c][1..] == [];
      assert SayChar(art, sh, c).ts + [] == SayChar(art, sh, c).ts == [] + SayChar(art, sh, c).ts;
    } else {
      var first := SayChar(art, sh, cs[0]);
      assert (cs + [c])[1..] == cs[1..] + [c];
      SayAllSnoc(art, first.sh, cs[1..], c);
      var rest := SayAll(art, first.sh, cs[1..]);
      var last := SayChar(art, rest.sh, c);
      assert first.ts + (rest.ts + last.ts) == (first.ts + rest.ts) + last.ts;
    }
  }

  /** The characters of a C string: everything before the first NUL. */
  function UpToNul(str: seq<Byte>): seq<Byte> {
    if str == [] || str[0] == 0 then [] else [str[0]] + UpToNul(str[1..])
  }

  lemma {:induction false} UpToFirstNul(str: seq<Byte>, i: nat)
    requires i < |str| && str[i] == 0 && 0 !in str[..i]
    ensures UpToNul(str) == str[..i]
  {
    if i > 0 {
      assert str[0] == str[..i][0] && str[1..][..i - 1] == str[..i][1..];
      UpToFirstNul(str[1..], i - 1);
    }
  }

  function Repeat(b: Byte, n: nat): seq<Byte> {
    seq(n, _ => b)
  }

  function SayInvert(sh: Shadow, invert: bool): Said {
    Said(sh, [Order(if invert then 0xA7 else 0xA6, [])])
  }

  function SayBrightness(sh: Shadow, value: Byte): Said {
    Said(sh, [Order(0x81, [value])])
  }

  function SayScrollHorizontal(sh: Shadow, left: bool, from: Byte, to: Byte): Said {
    Said(sh, [Order(if left then 0x27 else 0x26, [0x00, from, 0x00, to, 0x00, 0xFF]), Order(0x2F, [])])
  }

  function SayScrollDiagonal(sh: Shadow, left: bool, from: Byte, to: Byte, area: Byte, rows: Byte): Said {
    Said(sh, [Order(0xA3, [0x00, area]), Order(if left then 0x2A else 0x29, [0x00, from, 0x00, to, rows]),
              Order(0x2F, [])])
  }

  function SayDeactivateScroll(sh: Shadow): Said {
    Said(sh, [Order(0x2E, [])])
  }

  /** fill sends a whole screen of one byte from wherever the controller's pointer stands. */
  function SayFill(sh: Shadow, data: Byte): Said {
    Said(sh, Pixels(Repeat(data, CELLS)))
  }

  function SayScreen(sh: Shadow, screen: seq<Byte>): Said {
    var home := SayCursor(sh, 0, 0);
    Said(home.sh, home.ts + Pixels(screen))
  }

  /** The commands of DisplayInit before and after the one that selects horizontal addressing. */
  const INIT_FIRST: seq<Token> :=
    [Order(0xAE, []), Order(0xD5, [0x80]), Order(0xA8, [0x3F]), Order(0xD3, [0x00]), Order(0x40, []),
     Order(0x8D, [0x14])]
  const INIT_PINS: seq<Token> :=
    [Order(0xA1, []), Order(0xC8, []), Order(0xDA, [0x12]), Order(0x81, [0x80]), Order(0xD9, [0xF1])]
  const INIT_ON: seq<Token> :=
    [Order(0xDB, [0x20]), Order(0xA4, []), Order(0xA6, []), Order(0x2E, []), Order(0xAF, [])]

  function InitTokens(): seq<Token> {
    INIT_FIRST + [Order(0x20, [0x00])] + INIT_PINS + INIT_ON
  }

  /** DisplayInit clears the screen through ClearDisplay on SPI and through a bare fill on I2C. */
  function SayInit(sh: Shadow, spi: bool): Said {
    var clear := if spi then SayScreen(sh, Repeat(0, CELLS)) else SayFill(sh, 0);
    Said(clear.sh, InitTokens() + clear.ts)
  }

  function Do(art: Art, sh: Shadow, call: Call): Said
    requires ArtOk(art)
  {
    match call
    case SetCursor(line, cursor) => SayCursor(sh, line, cursor)
    case GoToNextLine => SayNextLine(sh)
    case PrintChar(c) => SayChar(art, sh, c)
    case PrintString(str) => SayAll(art, sh, UpToNul(str))
    case InvertDisplay(invert) => SayInvert(sh, invert)
    case SetBrightness(value) => SayBrightness(sh, value)
    case ScrollHorizontal(left, from, to) => SayScrollHorizontal(sh, left, from, to)
    case ScrollDiagonal(left, from, to, area, rows) => SayScrollDiagonal(sh, left, from, to, area, rows)
    case DeactivateScroll => SayDeactivateScroll(sh)
    case Fill(data) => SayFill(sh, data)
    case ClearDisplay => SayScreen(sh, Repeat(0, CELLS))
    case PrintLogo => SayScreen(sh, art.logo)
    case DisplayInit(spi) => SayInit(sh, spi)
    case DisplayOff => Said(sh, [Order(0xAE, [])])
  }

  function DoAll(art: Art, sh: Shadow, calls: seq<Call>): Said
    requires ArtOk(art)
    decreases calls
  {
    if calls == [] then Said(sh, [])
    else
      var first := Do(art, sh, calls[0]);
      var rest := DoAll(art, first.sh, calls[1..]);
      Said(rest.sh, first.ts + rest.ts)
  }

  lemma {:induction false} DoAllConcat(art: Art, sh: Shadow, a: seq<Call>, b: seq<Call>)
    requires ArtOk(art)
    ensures var first := DoAll(art, sh, a);
      DoAll(art, sh, a + b) == Said(DoAll(art, first.sh, b).sh, first.ts + DoAll(art, first.sh, b).ts)
    decreases a
  {
    if a == [] {
      assert a + b == b;
      assert [] + DoAll(art, sh, b).ts == DoAll(art, sh, b).ts;
    } else {
      var one := Do(art, sh, a[0]);
      assert (a + b)[1..] == a[1..] + b;
      DoAllConcat(art, one.sh, a[1..], b);
      var rest := DoAll(art, one.sh, a[1..]);
      assert one.ts + (rest.ts + DoAll(art, rest.sh, b).ts) == (one.ts + rest.ts) + DoAll(art, rest.sh, b).ts;
    }
  }

  /** The display calls of etx_oled_probe, which greets with `text`. */
  function ProbeCalls(text: seq<Byte>): seq<Call> {
    [DisplayInit(false), SetCursor(0, 0), ScrollHorizontal(true, 0, 2), PrintString(text)]
  }

  /** The display calls of etx_oled_remove, which takes leave with `text`. */
  function RemoveCalls(text: seq<Byte>): seq<Call> {
    [PrintString(text), SetCursor(0, 0), Fill(0x00), DisplayOff]
  }

  // ------------------------------------------------------ well-formed commands

  lemma {:induction false} SayAllWellFormed(art: Art, sh: Shadow, cs: seq<Byte>)
    requires ArtOk(art)
    ensures AllWellFormed(SayAll(art, sh, cs).ts)
    decreases cs
  {
    if cs != [] { SayAllWellFormed(art, SayChar(art, sh, cs[0]).sh, cs[1..]); }
  }

  lemma InitWellFormed()
    ensures AllWellFormed(INIT_FIRST) && AllWellFormed(INIT_PINS) && AllWellFormed(INIT_ON)
    ensures AllWellFormed(InitTokens())
  {
  }

  lemma DoWellFormed(art: Art, sh: Shadow, call: Call)
    requires ArtOk(art)
    ensures AllWellFormed(Do(art, sh, call).ts)
  {
    if call.DisplayInit? { InitWellFormed(); }
    if call.PrintString? { SayAllWellFormed(art, sh, UpToNul(call.str)); }
  }

  lemma {:induction false} DoAllWellFormed(art: Art, sh: Shadow, calls: seq<Call>)
    requires ArtOk(art)
    ensures AllWellFormed(DoAll(art, sh, calls).ts)
    decreases calls
  {
    if calls != [] {
      DoWellFormed(art, sh, calls[0]);
      DoAllWellFormed(art, Do(art, sh, calls[0]).sh, calls[1..]);
    }
  }

  /**
   For any calls with any arguments, in any order, the controller parses exactly the intended commands and
   data: every call starts and ends with the parser idle.
   */
  lemma StreamParses(art: Art, sh: Shadow, calls: seq<Call>, p: Panel)
    requires ArtOk(art) && PanelOk(p) && p.parser.Ready?
    ensures AllWellFormed(DoAll(art, sh, calls).ts)
    ensures Decode(Ready, Encode(DoAll(art, sh, calls).ts)) == Some(DoAll(art, sh, calls).ts)
    ensures Feed(p, Encode(DoAll(art, sh, calls).ts)) == Obey(p, DoAll(art, sh, calls).ts)
    ensures Feed(p, Encode(DoAll(art, sh, calls).ts)).parser.Ready?
  {
    DoAllWellFormed(art, sh, calls);
    DecodeEncode(DoAll(art, sh, calls).ts);
    FeedEncode(p, DoAll(art, sh, calls).ts);
  }
}
