/** The display driver itself: the cursor statics, and every byte it puts on the SPI or I2C bus. */
module OledDriver {
  import opened Basics
  import opened Ssd1306
  import opened TextEngine

  /**
   How the controller reads one transfer.  On SPI the first component is the level of the D/C pin while the
   byte is clocked in; on I2C it is the control byte of the frame, whose bit 6 tells data from commands.
   */
  function ItemOf(spi: bool, transfer: (Byte, Byte)): Item {
    if spi then (if transfer.0 == 1 then Data(transfer.1) else Cmd(transfer.1))
    else if transfer.0 / 64 % 2 == 1 then Data(transfer.1) else Cmd(transfer.1)
  }

  /** The command/data stream the controller sees. */
  function Stream(spi: bool, wire: seq<(Byte, Byte)>): seq<Item> {
    seq(|wire|, i requires 0 <= i < |wire| => ItemOf(spi, wire[i]))
  }

  lemma EncodeSnoc(ts: seq<Token>, t: Token)
    ensures Encode(ts + [t]) == Encode(ts) + EncodeOne(t)
  {
    EncodeConcat(ts, [t]);
    assert Encode([t]) == EncodeOne(t) + Encode([t][1..]);
  }

  lemma Append3(s: seq<Item>, a: Item, b: Item, c: Item)
    ensures s + [a] + [b] + [c] == s + [a, b, c]
  {
  }

  lemma Append7(s: seq<Item>, a: Item, b: Item, c: Item, d: Item, e: Item, f: Item, g: Item)
    ensures s + [a] + [b] + [c] + [d] + [e] + [f] + [g] == s + [a, b, c, d, e, f, g]
  {
    Append3(s, a, b, c);
    Append3(s + [a, b, c], d, e, f);
    assert s + [a, b, c] + [d, e, f] == s + [a, b, c, d, e, f];
  }

  lemma Append8(s: seq<Item>, a: Item, b: Item, c: Item, d: Item, e: Item, f: Item, g: Item, h: Item)
    ensures s + [a] + [b] + [c] + [d] + [e] + [f] + [g] + [h] == s + [a, b, c, d, e, f, g, h]
  {
    Append7(s, a, b, c, d, e, f, g);
  }

  lemma Joined(before: seq<Item>, a: seq<Token>, b: seq<Token>)
    ensures before + Encode(a) + Encode(b) == before + Encode(a + b)
  {
    EncodeConcat(a, b);
    assert before + Encode(a) + Encode(b) == before + (Encode(a) + Encode(b));
  }

  lemma Say0(op: Byte)
    ensures Encode([Order(op, [])]) == [Cmd(op)]
  {
    EncodeSnoc([], Order(op, []));
    assert [] + [Order(op, [])] == [Order(op, [])];
  }

  lemma Say1(op: Byte, a: Byte)
    ensures Encode([Order(op, [a])]) == [Cmd(op), Cmd(a)]
  {
    EncodeSnoc([], Order(op, [a]));
    assert [] + [Order(op, [a])] == [Order(op, [a])];
  }

  lemma Say2(op: Byte, a: Byte, b: Byte)
    ensures Encode([Order(op, [a, b])]) == [Cmd(op), Cmd(a), Cmd(b)]
  {
    EncodeSnoc([], Order(op, [a, b]));
    assert [] + [Order(op, [a, b])] == [Order(op, [a, b])];
  }

  lemma SayScroll(op: Byte, args: seq<Byte>)
    ensures Encode([Order(op, args), Order(0x2F, [])]) == [Cmd(op)] + Commands(args) + [Cmd(0x2F)]
  {
    EncodeSnoc([], Order(op, args));
    EncodeSnoc([Order(op, args)], Order(0x2F, []));
    assert [] + [Order(op, args)] == [Order(op, args)];
    assert [Order(op, args)] + [Order(0x2F, [])] == [Order(op, args), Order(0x2F, [])];
  }

  lemma SayScroll5(op: Byte, a: Byte, b: Byte, c: Byte, d: Byte, e: Byte)
    ensures Encode([Order(op, [a, b, c, d, e]), Order(0x2F, [])])
         == [Cmd(op), Cmd(a), Cmd(b), Cmd(c), Cmd(d), Cmd(e), Cmd(0x2F)]
  {
    SayScroll(op, [a, b, c, d, e]);
  }

  lemma SayDiagonal(start: seq<Item>, op: Byte, from: Byte, to: Byte, rows: Byte, area: Byte)
    ensures start + Encode([Order(0xA3, [0x00, area])])
            + [Cmd(op), Cmd(0x00), Cmd(from), Cmd(0x00), Cmd(to), Cmd(rows), Cmd(0x2F)]
         == start + Encode([Order(0xA3, [0x00, area]), Order(op, [0x00, from, 0x00, to, rows]), Order(0x2F, [])])
  {
    var region, rest := [Order(0xA3, [0x00, area])], [Order(op, [0x00, from, 0x00, to, rows]), Order(0x2F, [])];
    SayScroll5(op, 0x00, from, 0x00, to, rows);
    Joined(start, region, rest);
    assert region + rest == [region[0], rest[0], rest[1]];
  }

  lemma SayScroll6(op: Byte, a: Byte, b: Byte, c: Byte, d: Byte, e: Byte, f: Byte)
    ensures Encode([Order(op, [a, b, c, d, e, f]), Order(0x2F, [])])
         == [Cmd(op), Cmd(a), Cmd(b), Cmd(c), Cmd(d), Cmd(e), Cmd(f), Cmd(0x2F)]
  {
    SayScroll(op, [a, b, c, d, e, f]);
  }

  lemma NextPixel(before: seq<Item>, bytes: seq<Byte>, b: Byte)
    ensures before + Encode(Pixels(bytes)) + [Data(b)] == before + Encode(Pixels(bytes + [b]))
  {
    assert Pixels(bytes + [b]) == Pixels(bytes) + [Pixel(b)];
    EncodeSnoc(Pixels(bytes), Pixel(b));
  }

  lemma PixelStep(before: seq<Item>, bytes: seq<Byte>, i: nat)
    requires i < |bytes|
    ensures before + Encode(Pixels(bytes[..i])) + [Data(bytes[i])] == before + Encode(Pixels(bytes[..i + 1]))
  {
    NextPixel(before, bytes[..i], bytes[i]);
    assert bytes[..i] + [bytes[i]] == bytes[..i + 1];
  }

  lemma NoPixels(before: seq<Item>, bytes: seq<Byte>)
    ensures before + Encode(Pixels(bytes[..0])) == before
    ensures bytes[..|bytes|] == bytes
  {
    assert Pixels(bytes[..0]) == [];
  }

  lemma StillNoNul(str: seq<Byte>, i: nat)
    requires i < |str| && str[i] != 0 && 0 !in str[..i] && 0 in str[i..]
    ensures i + 1 < |str| && 0 !in str[..i + 1] && 0 in str[i + 1..]
  {
    assert str[..i + 1] == str[..i] + [str[i]];
    assert str[i..] == [str[i]] + str[i + 1..];
  }

  lemma OneMore(art: Art, before: seq<Item>, sh: Shadow, str: seq<Byte>, i: nat)
    requires ArtOk(art) && i < |str|
    ensures var said, more := SayAll(art, sh, str[..i]), SayAll(art, sh, str[..i + 1]);
      var last := SayChar(art, said.sh, str[i]);
      more.sh == last.sh && before + Encode(said.ts) + Encode(last.ts) == before + Encode(more.ts)
  {
    var said := SayAll(art, sh, str[..i]);
    assert str[..i + 1] == str[..i] + [str[i]];
    SayAllSnoc(art, sh, str[..i], str[i]);
    Joined(before, said.ts, SayChar(art, said.sh, str[i]).ts);
  }

  lemma ByteSucc(x: nat)
    ensures (x % 256 + 1) % 256 == (x + 1) % 256
  {
  }

  /** After a line break where needed, the row's five bytes and a blank are what the character says. */
  lemma GlyphSaid(art: Art, start: seq<Item>, sh: Shadow, c: Byte)
    requires ArtOk(art) && c != NEWLINE
    ensures var b := if Breaks(sh, c) then SayNextLine(sh) else Said(sh, []);
      var row := art.font[(c + 224) % 256];
      start + Encode(b.ts) + Encode(Pixels(row)) + [Data(0)] == start + Encode(SayChar(art, sh, c).ts)
  {
    var b := if Breaks(sh, c) then SayNextLine(sh) else Said(sh, []);
    NextPixel(start + Encode(b.ts), art.font[(c + 224) % 256], 0);
    Joined(start, b.ts, Pixels(Columns(art, c)));
  }

  lemma AddressingBytes(start: seq<Item>, mid: seq<Item>)
    requires mid == start + Encode(INIT_FIRST)
    ensures mid + [Cmd(0x20)] + [Cmd(0x00)] == start + Encode(INIT_FIRST + [Order(0x20, [0x00])])
  {
    Say1(0x20, 0x00);
    Joined(start, INIT_FIRST, [Order(0x20, [0x00])]);
  }

  lemma FirstBytes(start: seq<Item>)
    ensures start + [Cmd(0xAE), Cmd(0xD5), Cmd(0x80)] +
            [Cmd(0xA8), Cmd(0x3F), Cmd(0xD3), Cmd(0x00), Cmd(0x40), Cmd(0x8D), Cmd(0x14)]
         == start + Encode(INIT_FIRST)
  {
    var a, b, c := [Order(0xAE, []), Order(0xD5, [0x80])], [Order(0xA8, [0x3F]), Order(0xD3, [0x00])],
                   [Order(0x40, []), Order(0x8D, [0x14])];
    SayPair(a[0], a[1]);
    SayPair(b[0], b[1]);
    SayPair(c[0], c[1]);
    assert Encode(a) == [Cmd(0xAE), Cmd(0xD5), Cmd(0x80)];
    assert Encode(b) == [Cmd(0xA8), Cmd(0x3F), Cmd(0xD3), Cmd(0x00)];
    assert Encode(c) == [Cmd(0x40), Cmd(0x8D), Cmd(0x14)];
    EncodeConcat(a, b);
    EncodeConcat(a + b, c);
    assert a + b + c == INIT_FIRST;
  }

  lemma PinBytes(start: seq<Item>)
    ensures start + [Cmd(0xA1), Cmd(0xC8), Cmd(0xDA), Cmd(0x12), Cmd(0x81), Cmd(0x80), Cmd(0xD9), Cmd(0xF1)]
         == start + Encode(INIT_PINS)
  {
    var a, b := [Order(0xA1, []), Order(0xC8, [])], [Order(0xDA, [0x12]), Order(0x81, [0x80])];
    SayPair(a[0], a[1]);
    SayPair(b[0], b[1]);
    EncodeConcat(a, b);
    EncodeSnoc(a + b, Order(0xD9, [0xF1]));
    assert a + b + [Order(0xD9, [0xF1])] == INIT_PINS;
  }

  lemma OnBytes(start: seq<Item>)
    ensures start + [Cmd(0xDB), Cmd(0x20), Cmd(0xA4), Cmd(0xA6), Cmd(0x2E), Cmd(0xAF)] == start + Encode(INIT_ON)
  {
    var a, b := [Order(0xDB, [0x20]), Order(0xA4, [])], [Order(0xA6, []), Order(0x2E, [])];
    SayPair(a[0], a[1]);
    SayPair(b[0], b[1]);
    EncodeConcat(a, b);
    EncodeSnoc(a + b, Order(0xAF, []));
    assert a + b + [Order(0xAF, [])] == INIT_ON;
  }

  lemma SayPair(t: Token, u: Token)
    ensures Encode([t, u]) == EncodeOne(t) + EncodeOne(u)
  {
    EncodeSnoc([], t);
    EncodeSnoc([t], u);
    assert [] + [t] == [t] && [t] + [u] == [t, u];
  }

  /** `a`, then `b`. */
  function And(a: Said, b: Said): Said { Said(b.sh, a.ts + b.ts) }

  function Greeting(art: Art, sh: Shadow, text: seq<Byte>): Said
    requires ArtOk(art)
  {
    var init := SayInit(sh, false);
    var home := SayCursor(init.sh, 0, 0);
    var scroll := SayScrollHorizontal(home.sh, true, 0, 2);
    And(And(And(init, home), scroll), SayAll(art, home.sh, UpToNul(text)))
  }

  function Farewell(art: Art, sh: Shadow, text: seq<Byte>): Said
    requires ArtOk(art)
  {
    var last := SayAll(art, sh, UpToNul(text));
    var home := SayCursor(last.sh, 0, 0);
    And(And(And(last, home), SayFill(home.sh, 0x00)), Said(home.sh, [Order(0xAE, [])]))
  }

  lemma AndAssoc(a: Said, b: Said, c: Said)
    ensures And(And(a, b), c) == And(a, And(b, c))
  {
    assert (a.ts + b.ts) + c.ts == a.ts + (b.ts + c.ts);
  }

  lemma DoFour(art: Art, sh: Shadow, a: Call, b: Call, c: Call, d: Call)
    requires ArtOk(art)
    ensures var s0 := Do(art, sh, a);
      var s1 := Do(art, s0.sh, b);
      var s2 := Do(art, s1.sh, c);
      DoAll(art, sh, [a, b, c, d]) == And(And(And(s0, s1), s2), Do(art, s2.sh, d))
  {
    var s0 := Do(art, sh, a);
    var s1 := Do(art, s0.sh, b);
    var s2 := Do(art, s1.sh, c);
    var s3 := Do(art, s2.sh, d);
    assert [a, b, c, d][1..] == [b, c, d] && [b, c, d][1..] == [c, d] && [c, d][1..] == [d] && [d][1..] == [];
    assert s3.ts + [] == s3.ts;
    assert DoAll(art, s2.sh, [d]) == s3;
    assert DoAll(art, s1.sh, [c, d]) == And(s2, s3);
    assert DoAll(art, s0.sh, [b, c, d]) == And(s1, And(s2, s3));
    AndAssoc(s0, s1, And(s2, s3));
    AndAssoc(And(s0, s1), s2, s3);
  }

  /** The probe and remove sequences are the calls they are made of, with any text. */
  lemma GreetingIsCalls(art: Art, sh: Shadow, text: seq<Byte>)
    requires ArtOk(art)
    ensures DoAll(art, sh, ProbeCalls(text)) == Greeting(art, sh, text)
  {
    DoFour(art, sh, DisplayInit(false), SetCursor(0, 0), ScrollHorizontal(true, 0, 2), PrintString(text));
  }

  lemma FarewellIsCalls(art: Art, sh: Shadow, text: seq<Byte>)
    requires ArtOk(art)
    ensures DoAll(art, sh, RemoveCalls(text)) == Farewell(art, sh, text)
  {
    DoFour(art, sh, PrintString(text), SetCursor(0, 0), Fill(0x00), DisplayOff);
  }

  class Oled {
    const art: Art
    const spi: bool
    var lineNum: Byte
    var cursorPos: Byte
    var wire: seq<(Byte, Byte)>
    ghost var sent: seq<Item>  // the stream that `wire` carries

    constructor (art: Art, spi: bool)
      requires ArtOk(art)
      ensures this.art == art && this.spi == spi && At() == Shadow(0, 0) && Valid() && sent == []
    {
      this.art, this.spi := art, spi;
      lineNum, cursorPos, wire, sent := 0, 0, [], [];
    }

    function At(): Shadow
      reads this
    {
      Shadow(lineNum, cursorPos)
    }

    ghost predicate Valid()
      reads this
    {
      ArtOk(art) && sent == Stream(spi, wire)
    }

    /** Since `before` had been sent, exactly `said` has happened. */
    ghost predicate Told(before: seq<Item>, said: Said)
      reads this
    {
      At() == said.sh && sent == before + Encode(said.ts)
    }

    method Write(isCmd: bool, data: Byte)
      requires Valid()
      modifies this`wire, this`sent
      ensures Valid() && sent == old(sent) + [if isCmd then Cmd(data) else Data(data)]
    {
      var first: Byte;
      if spi {
        first := if isCmd then 0 else 1;
      } else {
        first := if isCmd then 0x00 else 0x40;
      }
      wire := wire + [(first, data)];
      sent := sent + [if isCmd then Cmd(data) else Data(data)];
    }

    method SetCursor(line: Byte, cursor: Byte)
      requires Valid()
      modifies this
      ensures Valid() && Told(old(sent), SayCursor(old(At()), line, cursor))
    {
      if line <= MAX_LINE && cursor < MAX_SEG {
        lineNum := line;
        cursorPos := cursor;
        Write(true, 0x21);
        Write(true, cursor);
        Write(true, MAX_SEG - 1);
        Write(true, 0x22);
        Write(true, line);
        Write(true, MAX_LINE);
        var window, pages := Order(0x21, [cursor, MAX_SEG - 1]), Order(0x22, [line, MAX_LINE]);
        Say2(0x21, cursor, MAX_SEG - 1);
        Say2(0x22, line, MAX_LINE);
        EncodeConcat([window], [pages]);
        assert [window] + [pages] == [window, pages];
      }
    }

    method GoToNextLine()
      requires Valid()
      modifies this
      ensures Valid() && Told(old(sent), SayNextLine(old(At())))
    {
      lineNum := (lineNum + 1) % 256;
      lineNum := lineNum % 8;
      SetCursor(lineNum, 0);
    }

    /** The part of PrintChar that sends a row of the font and a blank column. */
    method PrintColumns(row: seq<Byte>)
      requires Valid() && |row| == FONT_SIZE
      modifies this`wire, this`sent, this`cursorPos
      ensures Valid() && cursorPos == (old(cursorPos) + 6) % 256
      ensures sent == old(sent) + Encode(Pixels(row)) + [Data(0)]
    {
      var temp: Byte := 0;
      ghost var before, column := sent, cursorPos;
      NoPixels(before, row);
      while temp < FONT_SIZE
        invariant temp <= FONT_SIZE && Valid()
        invariant cursorPos == (column + temp) % 256
        invariant sent == before + Encode(Pixels(row[..temp]))
      {
        Write(false, row[temp]);
        PixelStep(before, row, temp);
        ByteSucc(column + temp);
        cursorPos := (cursorPos + 1) % 256;
        temp := temp + 1;
      }
      Write(false, 0x00);
      ByteSucc(column + temp);
      cursorPos := (cursorPos + 1) % 256;
    }

    method PrintChar(c: Byte)
      requires Valid()
      modifies this
      ensures Valid() && Told(old(sent), SayChar(art, old(At()), c))
    {
      if cursorPos + FONT_SIZE >= MAX_SEG || c == NEWLINE {
        GoToNextLine();
      }
      ghost var said := if Breaks(old(At()), c) then SayNextLine(old(At())) else Said(old(At()), []);
      assert Told(old(sent), said);
      if c != NEWLINE {
        PrintColumns(art.font[(c + 224) % 256]);
        GlyphSaid(art, old(sent), old(At()), c);
      }
    }

    method PrintString(str: seq<Byte>)
      requires Valid() && 0 in str
      modifies this
      ensures Valid() && Told(old(sent), SayAll(art, old(At()), UpToNul(str)))
    {
      var i := 0;
      while str[i] != 0
        invariant Valid() && 0 <= i < |str| && 0 !in str[..i] && 0 in str[i..]
        invariant Told(old(sent), SayAll(art, old(At()), str[..i]))
        decreases |str| - i
      {
        StillNoNul(str, i);
        PrintChar(str[i]);
        OneMore(art, old(sent), old(At()), str, i);
        i := i + 1;
      }
      UpToFirstNul(str, i);
    }

    method InvertDisplay(invert: bool)
      requires Valid()
      modifies this`wire, this`sent
      ensures Valid() && Told(old(sent), SayInvert(old(At()), invert))
    {
      if invert {
        Write(true, 0xA7);
      } else {
        Write(true, 0xA6);
      }
      Say0(if invert then 0xA7 else 0xA6);
    }

    method SetBrightness(value: Byte)
      requires Valid()
      modifies this`wire, this`sent
      ensures Valid() && Told(old(sent), SayBrightness(old(At()), value))
    {
      Write(true, 0x81);
      Write(true, value);
      Say1(0x81, value);
    }

    method ScrollHorizontal(left: bool, from: Byte, to: Byte)
      requires Valid()
      modifies this`wire, this`sent
      ensures Valid() && Told(old(sent), SayScrollHorizontal(old(At()), left, from, to))
    {
      ghost var start := sent;
      if left {
        Write(true, 0x27);
      } else {
        Write(true, 0x26);
      }
      ghost var op: Byte := if left then 0x27 else 0x26;
      assert sent == start + [Cmd(op)];
      Write(true, 0x00);
      Write(true, from);
      Write(true, 0x00);
      Write(true, to);
      Write(true, 0x00);
      Write(true, 0xFF);
      Write(true, 0x2F);
      Append8(start, Cmd(op), Cmd(0x00), Cmd(from), Cmd(0x00), Cmd(to), Cmd(0x00), Cmd(0xFF), Cmd(0x2F));
      SayScroll6(op, 0x00, from, 0x00, to, 0x00, 0xFF);
    }

    /** The vertical scroll area, which ScrollDiagonal sets first. */
    method ScrollArea(area: Byte)
      requires Valid()
      modifies this`wire, this`sent
      ensures Valid() && sent == old(sent) + Encode([Order(0xA3, [0x00, area])])
    {
      ghost var start := sent;
      Write(true, 0xA3);
      Write(true, 0x00);
      Write(true, area);
      Append3(start, Cmd(0xA3), Cmd(0x00), Cmd(area));
      Say2(0xA3, 0x00, area);
    }

    method ScrollDiagonal(left: bool, from: Byte, to: Byte, area: Byte, rows: Byte)
      requires Valid()
      modifies this`wire, this`sent
      ensures Valid() && Told(old(sent), SayScrollDiagonal(old(At()), left, from, to, area, rows))
    {
      ScrollArea(area);
      ghost var mid := sent;
      if left {
        Write(true, 0x2A);
      } else {
        Write(true, 0x29);
      }
      ghost var op: Byte := if left then 0x2A else 0x29;
      assert sent == mid + [Cmd(op)];
      Write(true, 0x00);
      Write(true, from);
      Write(true, 0x00);
      Write(true, to);
      Write(true, rows);
      Write(true, 0x2F);
      Append7(mid, Cmd(op), Cmd(0x00), Cmd(from), Cmd(0x00), Cmd(to), Cmd(rows), Cmd(0x2F));
      SayDiagonal(old(sent), op, from, to, rows, area);
    }

    method DeactivateScroll()
      requires Valid()
      modifies this`wire, this`sent
      ensures Valid() && Told(old(sent), SayDeactivateScroll(old(At())))
    {
      Write(true, 0x2E);
      Say0(0x2E);
    }

    method Fill(data: Byte)
      requires Valid()
      modifies this`wire, this`sent
      ensures Valid() && Told(old(sent), SayFill(old(At()), data))
    {
      var total := 128 * 8;
      var i: nat := 0;
      ghost var bytes := Repeat(data, total);
      NoPixels(sent, bytes);
      while i < total
        invariant i <= total && Valid()
        invariant sent == old(sent) + Encode(Pixels(bytes[..i]))
      {
        Write(false, data);
        PixelStep(old(sent), bytes, i);
        i := i + 1;
      }
    }

    method ClearDisplay()
      requires Valid()
      modifies this
      ensures Valid() && Told(old(sent), SayScreen(old(At()), Repeat(0, CELLS)))
    {
      SetCursor(0, 0);
      Fill(0x00);
      Joined(old(sent), SayCursor(old(At()), 0, 0).ts, Pixels(Repeat(0, CELLS)));
    }

    method PrintLogo()
      requires Valid()
      modifies this
      ensures Valid() && Told(old(sent), SayScreen(old(At()), art.logo))
    {
      SetCursor(0, 0);
      ghost var before := sent;
      var i: nat := 0;
      NoPixels(before, art.logo);
      while i < 128 * 8
        invariant Valid() && i <= 128 * 8 && At() == Shadow(0, 0)
        invariant sent == before + Encode(Pixels(art.logo[..i]))
      {
        Write(false, art.logo[i]);
        PixelStep(before, art.logo, i);
        i := i + 1;
      }
      Joined(old(sent), SayCursor(old(At()), 0, 0).ts, Pixels(art.logo));
    }

    /** The first ten bytes of DisplayInit: display off, clock, multiplex ratio, offset, start line, charge pump. */
    method InitFirst()
      requires Valid()
      modifies this`wire, this`sent
      ensures Valid() && sent == old(sent) + Encode(INIT_FIRST)
    {
      ghost var start := sent;
      Write(true, 0xAE);
      Write(true, 0xD5);
      Write(true, 0x80);
      Append3(start, Cmd(0xAE), Cmd(0xD5), Cmd(0x80));
      ghost var mid := sent;
      Write(true, 0xA8);
      Write(true, 0x3F);
      Write(true, 0xD3);
      Write(true, 0x00);
      Write(true, 0x40);
      Write(true, 0x8D);
      Write(true, 0x14);
      Append7(mid, Cmd(0xA8), Cmd(0x3F), Cmd(0xD3), Cmd(0x00), Cmd(0x40), Cmd(0x8D), Cmd(0x14));
      FirstBytes(start);
    }

    /** Remap, scan direction, pins, contrast, pre-charge. */
    method InitPins()
      requires Valid()
      modifies this`wire, this`sent
      ensures Valid() && sent == old(sent) + Encode(INIT_PINS)
    {
      ghost var start := sent;
      Write(true, 0xA1);
      Write(true, 0xC8);
      Write(true, 0xDA);
      Write(true, 0x12);
      Write(true, 0x81);
      Write(true, 0x80);
      Write(true, 0xD9);
      Write(true, 0xF1);
      Append8(start, Cmd(0xA1), Cmd(0xC8), Cmd(0xDA), Cmd(0x12), Cmd(0x81), Cmd(0x80), Cmd(0xD9), Cmd(0xF1));
      PinBytes(start);
    }

    /** Vcomh level, RAM content, normal mode, scroll off, display on. */
    method InitOn()
      requires Valid()
      modifies this`wire, this`sent
      ensures Valid() && sent == old(sent) + Encode(INIT_ON)
    {
      ghost var start := sent;
      Write(true, 0xDB);
      Write(true, 0x20);
      Write(true, 0xA4);
      Append3(start, Cmd(0xDB), Cmd(0x20), Cmd(0xA4));
      ghost var mid := sent;
      Write(true, 0xA6);
      Write(true, 0x2E);
      Write(true, 0xAF);
      Append3(mid, Cmd(0xA6), Cmd(0x2E), Cmd(0xAF));
      OnBytes(start);
    }

    method InitCommands()
      requires Valid()
      modifies this`wire, this`sent
      ensures Valid() && sent == old(sent) + Encode(InitTokens())
    {
      ghost var start := sent;
      InitFirst();
      ghost var mid := sent;
      Write(true, 0x20);
      Write(true, 0x00);
      AddressingBytes(start, mid);
      InitPins();
      Joined(start, INIT_FIRST + [Order(0x20, [0x00])], INIT_PINS);
      InitOn();
      Joined(start, INIT_FIRST + [Order(0x20, [0x00])] + INIT_PINS, INIT_ON);
    }

    method DisplayInit()
      requires Valid()
      modifies this
      ensures Valid() && Told(old(sent), SayInit(old(At()), spi))
    {
      InitCommands();
      ghost var clear := if spi then SayScreen(At(), Repeat(0, CELLS)) else SayFill(At(), 0);
      if spi {
        ClearDisplay();
      } else {
        Fill(0x00);
      }
      Joined(old(sent), InitTokens(), clear.ts);
    }

    /** etx_oled_probe of the I2C driver, with the text it prints. */
    method Probe(text: seq<Byte>)
      requires Valid() && !spi && 0 in text
      modifies this
      ensures Valid() && Told(old(sent), DoAll(art, old(At()), ProbeCalls(text)))
    {
      GreetingIsCalls(art, At(), text);
      ghost var before, init := sent, SayInit(At(), false);
      DisplayInit();
      SetCursor(0, 0);
      ghost var home := SayCursor(init.sh, 0, 0);
      Joined(before, init.ts, home.ts);
      ScrollHorizontal(true, 0, 2);
      ghost var scroll := SayScrollHorizontal(home.sh, true, 0, 2);
      Joined(before, And(init, home).ts, scroll.ts);
      PrintString(text);
      Joined(before, And(And(init, home), scroll).ts, SayAll(art, home.sh, UpToNul(text)).ts);
    }

    /** etx_oled_remove of the I2C driver, with the text it prints. */
    method Remove(text: seq<Byte>)
      requires Valid() && !spi && 0 in text
      modifies this
      ensures Valid() && Told(old(sent), DoAll(art, old(At()), RemoveCalls(text)))
    {
      FarewellIsCalls(art, At(), text);
      ghost var before, start := sent, At();
      PrintString(text);
      ghost var last := SayAll(art, start, UpToNul(text));
      SetCursor(0, 0);
      ghost var home := SayCursor(last.sh, 0, 0);
      Joined(before, last.ts, home.ts);
      Fill(0x00);
      Joined(before, And(last, home).ts, SayFill(home.sh, 0x00).ts);
      Write(true, 0xAE);
      Say0(0xAE);
      Joined(before, And(And(last, home), SayFill(home.sh, 0x00)).ts, [Order(0xAE, [])]);
    }
  }
}
