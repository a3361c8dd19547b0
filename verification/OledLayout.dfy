/** Where every character of a text with newlines lands, by counting its newlines and its lines of 21 characters. */
module OledLayout {
  import opened Basics
  import opened Ssd1306
  import opened TextEngine
  import opened DisplayWindow
  import opened OledCursor
  import opened OledScreen

  // ------------------------------------------------------------ the layout

  /** Characters printed since the last newline (byte 10), newlines excluded. */
  function Run(cs: seq<Byte>): nat {
    if cs == [] || cs[|cs| - 1] == 10 then 0 else Run(cs[..|cs| - 1]) + 1
  }

  /** Line breaks so far: one for every newline, and one before every 22nd character in a row. */
  function Rows(cs: seq<Byte>): nat {
    if cs == [] then 0
    else
      var before := cs[..|cs| - 1];
      Rows(before) + if cs[|cs| - 1] == 10 || (Run(before) > 0 && Run(before) % 21 == 0) then 1 else 0
  }

  /** First cell of the last character of `cs`. */
  function Place(cs: seq<Byte>): (x: nat)
    requires Run(cs) > 0
    ensures x + 6 <= CELLS
  {
    Rows(cs) % 8 * 128 + 6 * ((Run(cs) - 1) % 21)
  }

  /** The six columns of a character: five from its row in the font, which starts at the blank (byte 32), and one empty. */
  function Glyph(art: Art, c: Byte): seq<Byte>
    requires ArtOk(art)
  {
    art.font[if 32 <= c then c - 32 else c + 224] + [0]
  }

  predicate Printed(cs: seq<Byte>, i: nat) { i < |cs| && cs[i] != 10 }

  lemma PrintedRun(cs: seq<Byte>, i: nat)
    requires Printed(cs, i)
    ensures Run(cs[..i + 1]) > 0
  {
    assert cs[..i + 1][i] == cs[i];
  }

  /** Where the i-th character of `cs` stands. */
  function PlaceAt(cs: seq<Byte>, i: nat): (x: nat)
    requires Printed(cs, i)
    ensures x + 6 <= CELLS
  {
    PrintedRun(cs, i);
    Place(cs[..i + 1])
  }

  /** No later character was printed over the i-th. */
  predicate Topmost(cs: seq<Byte>, i: nat)
    requires Printed(cs, i)
  {
    forall j :: i < j < |cs| && Printed(cs, j) ==> PlaceAt(cs, j) != PlaceAt(cs, i)
  }

  predicate Covers(cs: seq<Byte>, j: nat, x: nat)
    requires Printed(cs, j)
  {
    PlaceAt(cs, j) <= x < PlaceAt(cs, j) + 6
  }

  predicate Blank(cs: seq<Byte>, x: nat) {
    forall j :: 0 <= j < |cs| && Printed(cs, j) ==> !Covers(cs, j, x)
  }

  /** `ram` shows every character that is not printed over, and every other cell as in `before`. */
  ghost predicate Displays(art: Art, before: seq<Byte>, ram: seq<Byte>, cs: seq<Byte>)
    requires ArtOk(art) && |before| == CELLS && |ram| == CELLS
  {
    && (forall i :: 0 <= i < |cs| && Printed(cs, i) && Topmost(cs, i) ==>
          ram[PlaceAt(cs, i)..PlaceAt(cs, i) + 6] == Glyph(art, cs[i]))
    && (forall x :: 0 <= x < CELLS && Blank(cs, x) ==> ram[x] == before[x])
  }

  // ------------------------------------------------------- one more character

  lemma PrefixKept(cs: seq<Byte>, c: Byte, i: nat)
    requires Printed(cs, i)
    ensures Printed(cs + [c], i) && PlaceAt(cs + [c], i) == PlaceAt(cs, i)
  {
    assert (cs + [c])[..i + 1] == cs[..i + 1];
  }

  lemma LastPlace(cs: seq<Byte>, c: Byte)
    requires c != 10
    ensures Printed(cs + [c], |cs|) && Run(cs + [c]) > 0 && PlaceAt(cs + [c], |cs|) == Place(cs + [c])
  {
    assert (cs + [c])[..|cs| + 1] == cs + [c];
  }

  lemma NewlineHides(cs: seq<Byte>)
    ensures forall i :: 0 <= i < |cs| + 1 ==> (Printed(cs + [10], i) <==> Printed(cs, i))
  {
  }

  /** Two places are the same or do not touch. */
  lemma PlacesApart(a: seq<Byte>, b: seq<Byte>)
    requires Run(a) > 0 && Run(b) > 0 && Place(a) != Place(b)
    ensures Place(a) + 6 <= Place(b) || Place(b) + 6 <= Place(a)
  {
    GridApart(Rows(a) % 8, (Run(a) - 1) % 21, Rows(b) % 8, (Run(b) - 1) % 21);
  }

  lemma TopmostBefore(cs: seq<Byte>, c: Byte, i: nat)
    requires Printed(cs, i) && Printed(cs + [c], i) && Topmost(cs + [c], i)
    ensures Topmost(cs, i)
  {
    PrefixKept(cs, c, i);
    forall j | i < j < |cs| && Printed(cs, j)
      ensures PlaceAt(cs, j) != PlaceAt(cs, i)
    {
      PrefixKept(cs, c, j);
    }
  }

  lemma BlankBefore(cs: seq<Byte>, c: Byte, x: nat)
    requires Blank(cs + [c], x)
    ensures Blank(cs, x)
  {
    forall j | 0 <= j < |cs| && Printed(cs, j)
      ensures !Covers(cs, j, x)
    {
      PrefixKept(cs, c, j);
    }
  }

  lemma OverlayApart(ram: seq<Byte>, at: nat, piece: seq<Byte>, x: nat)
    requires |piece| == 6 && at + 6 <= |ram| && x + 6 <= |ram| && (x + 6 <= at || at + 6 <= x)
    ensures Overlay(ram, at, piece)[x..x + 6] == ram[x..x + 6]
  {
    forall k | x <= k < x + 6
      ensures Overlay(ram, at, piece)[k] == ram[k]
    {
      OverlayElsewhere(ram, at, piece, k);
    }
  }

  lemma OldStays(art: Art, ram: seq<Byte>, cs: seq<Byte>, c: Byte, i: nat)
    requires ArtOk(art) && |ram| == CELLS && c != 10 && Printed(cs, i) && Printed(cs + [c], i) && Topmost(cs + [c], i)
    requires Topmost(cs, i) ==> ram[PlaceAt(cs, i)..PlaceAt(cs, i) + 6] == Glyph(art, cs[i])
    requires Run(cs + [c]) > 0
    ensures Overlay(ram, Place(cs + [c]), Glyph(art, c))[PlaceAt(cs + [c], i)..PlaceAt(cs + [c], i) + 6]
         == Glyph(art, cs[i])
  {
    TopmostBefore(cs, c, i);
    PrefixKept(cs, c, i);
    LastPlace(cs, c);
    PrintedRun(cs, i);
    PlacesApart(cs + [c], cs[..i + 1]);
    OverlayApart(ram, Place(cs + [c]), Glyph(art, c), PlaceAt(cs, i));
  }

  lemma BlankStays(art: Art, before: seq<Byte>, ram: seq<Byte>, cs: seq<Byte>, c: Byte, x: nat)
    requires ArtOk(art) && |before| == CELLS && |ram| == CELLS && Displays(art, before, ram, cs)
    requires c != 10 && Run(cs + [c]) > 0 && x < CELLS && Blank(cs + [c], x)
    ensures Overlay(ram, Place(cs + [c]), Glyph(art, c))[x] == before[x]
  {
    BlankBefore(cs, c, x);
    LastPlace(cs, c);
    assert !Covers(cs + [c], |cs|, x);
    OverlayElsewhere(ram, Place(cs + [c]), Glyph(art, c), x);
  }

  lemma DisplaysMore(art: Art, before: seq<Byte>, ram: seq<Byte>, cs: seq<Byte>, c: Byte)
    requires ArtOk(art) && |before| == CELLS && |ram| == CELLS && Displays(art, before, ram, cs)
    requires c != 10 && Run(cs + [c]) > 0
    ensures Displays(art, before, Overlay(ram, Place(cs + [c]), Glyph(art, c)), cs + [c])
  {
    var all := cs + [c];
    var ram' := Overlay(ram, Place(all), Glyph(art, c));
    forall i | 0 <= i < |all| && Printed(all, i) && Topmost(all, i)
      ensures ram'[PlaceAt(all, i)..PlaceAt(all, i) + 6] == Glyph(art, all[i])
    {
      if i < |cs| {
        if Topmost(cs, i) { assert ram[PlaceAt(cs, i)..PlaceAt(cs, i) + 6] == Glyph(art, cs[i]); }
        OldStays(art, ram, cs, c, i);
      } else {
        LastPlace(cs, c);
      }
    }
    forall x | 0 <= x < CELLS && Blank(all, x)
      ensures ram'[x] == before[x]
    {
      BlankStays(art, before, ram, cs, c, x);
    }
  }

  lemma DisplaysNewline(art: Art, before: seq<Byte>, ram: seq<Byte>, cs: seq<Byte>)
    requires ArtOk(art) && |before| == CELLS && |ram| == CELLS && Displays(art, before, ram, cs)
    ensures Displays(art, before, ram, cs + [10])
  {
    var all := cs + [10];
    forall i | 0 <= i < |all| && Printed(all, i) && Topmost(all, i)
      ensures ram[PlaceAt(all, i)..PlaceAt(all, i) + 6] == Glyph(art, all[i])
    {
      assert Printed(cs, i);
      TopmostBefore(cs, 10, i);
      PrefixKept(cs, 10, i);
    }
    forall x | 0 <= x < CELLS && Blank(all, x)
      ensures ram[x] == before[x]
    {
      BlankBefore(cs, 10, x);
    }
  }

  // --------------------------------------------------------------- the driver

  /** The cursor after `cs` was printed from (0,0). */
  function CursorAfter(cs: seq<Byte>): Shadow {
    Shadow(Rows(cs) % 8, if Run(cs) == 0 then 0 else 6 * ((Run(cs) - 1) % 21) + 6)
  }

  lemma RunSnoc(cs: seq<Byte>, c: Byte)
    ensures Run(cs + [c]) == if c == 10 then 0 else Run(cs) + 1
    ensures Rows(cs + [c]) == Rows(cs) + if c == 10 || (Run(cs) > 0 && Run(cs) % 21 == 0) then 1 else 0
  {
    assert (cs + [c])[..|cs|] == cs;
  }

  /** A full row has 21 characters. */
  lemma FullRow(n: nat)
    requires n > 0
    ensures (n - 1) % 21 == 20 <==> n % 21 == 0
    ensures (n - 1) % 21 != 20 ==> n % 21 == (n - 1) % 21 + 1
  {
    ModSucc(n - 1, 21);
  }

  /** Whatever the cursor, a newline puts cursor and pointer at the start of the next line and leaves the RAM alone. */
  lemma NewlineLands(art: Art, sh: Shadow, p: Panel)
    requires ArtOk(art) && Synced(sh, p)
    ensures var said := SayChar(art, sh, 10);
      && AllWellFormed(said.ts) && said.sh == Shadow((sh.line + 1) % 8, 0) && Synced(said.sh, Obey(p, said.ts))
      && var q := Obey(p, said.ts);
         q.page == (sh.line + 1) % 8 && q.col == 0 && q.ram == p.ram && q.scrolling == p.scrolling
  {
    CursorLands(Shadow(LineAfter(sh.line), sh.cursor), p, LineAfter(sh.line), 0);
  }

  /** Where a printable character goes: the cursor where six columns fit, and else the start of the next line. */
  function Next(sh: Shadow): Shadow {
    if sh.cursor + 6 <= 128 then sh else Shadow((sh.line + 1) % 8, 0)
  }

  lemma NextIsSpot(sh: Shadow, c: Byte)
    requires c != 10 && sh.line <= 7 && sh.cursor <= 128
    ensures Spot(sh, c) == Next(sh) && Next(sh).line < 8 && Next(sh).cursor + 6 <= 128
  {
  }

  lemma GlyphIsColumns(art: Art, c: Byte)
    requires ArtOk(art)
    ensures Columns(art, c) == Glyph(art, c)
  {
  }

  lemma PrintLands(art: Art, sh: Shadow, p: Panel, c: Byte)
    requires ArtOk(art) && Synced(sh, p) && c != 10
    ensures var said, at := SayChar(art, sh, c), Next(sh);
      && at.line < 8 && at.cursor + 6 <= 128
      && AllWellFormed(said.ts) && said.sh == Shadow(at.line, at.cursor + 6) && Synced(said.sh, Obey(p, said.ts))
      && Obey(p, said.ts).scrolling == p.scrolling
      && (!p.scrolling ==> Obey(p, said.ts).ram == Overlay(p.ram, at.line * 128 + at.cursor, Glyph(art, c)))
  {
    NextIsSpot(sh, c);
    GlyphIsColumns(art, c);
    CharLands(art, sh, p, c);
  }

  /** The next character of a text goes where the layout says. */
  lemma NextPlace(cs: seq<Byte>, c: Byte)
    requires c != 10
    ensures var at := Next(CursorAfter(cs));
      && Run(cs + [c]) > 0 && at.cursor + 6 <= 128
      && at.line * 128 + at.cursor == Place(cs + [c]) && CursorAfter(cs + [c]) == Shadow(at.line, at.cursor + 6)
  {
    RunSnoc(cs, c);
    if Run(cs) > 0 { FullRow(Run(cs)); }
    ModSucc(Rows(cs), 8);
  }

  lemma NextRow(cs: seq<Byte>)
    ensures CursorAfter(cs + [10]) == Shadow((CursorAfter(cs).line + 1) % 8, 0)
  {
    RunSnoc(cs, 10);
    ModSucc(Rows(cs), 8);
  }

  lemma {:induction false} LinesLand(art: Art, p: Panel, cs: seq<Byte>)
    requires ArtOk(art) && Synced(Shadow(0, 0), p)
    ensures var said := SayAll(art, Shadow(0, 0), cs);
      && AllWellFormed(said.ts) && said.sh == CursorAfter(cs) && Synced(said.sh, Obey(p, said.ts))
      && Obey(p, said.ts).scrolling == p.scrolling
      && (!p.scrolling ==> Displays(art, p.ram, Obey(p, said.ts).ram, cs))
    decreases |cs|
  {
    if cs != [] {
      var init, c := cs[..|cs| - 1], cs[|cs| - 1];
      assert cs == init + [c];
      LinesLand(art, p, init);
      var said := SayAll(art, Shadow(0, 0), init);
      var q := Obey(p, said.ts);
      SayAllSnoc(art, Shadow(0, 0), init, c);
      OneMoreLands(art, p, q, init, c);
      ObeyConcat(p, said.ts, SayChar(art, said.sh, c).ts);
    }
  }

  lemma OneMoreLands(art: Art, p: Panel, q: Panel, cs: seq<Byte>, c: Byte)
    requires ArtOk(art) && PanelOk(p) && Synced(CursorAfter(cs), q)
    requires !q.scrolling ==> Displays(art, p.ram, q.ram, cs)
    ensures LandsMore(art, p, q, cs, c)
  {
    if c == 10 { NewlineLandsMore(art, p, q, cs); } else { PrintLandsMore(art, p, q, cs, c); }
  }

  ghost predicate LandsMore(art: Art, p: Panel, q: Panel, cs: seq<Byte>, c: Byte)
    requires ArtOk(art) && PanelOk(p) && PanelOk(q)
  {
    var said := SayChar(art, CursorAfter(cs), c);
    && AllWellFormed(said.ts) && said.sh == CursorAfter(cs + [c]) && Synced(said.sh, Obey(q, said.ts))
    && Obey(q, said.ts).scrolling == q.scrolling
    && (!q.scrolling ==> Displays(art, p.ram, Obey(q, said.ts).ram, cs + [c]))
  }

  lemma NewlineLandsMore(art: Art, p: Panel, q: Panel, cs: seq<Byte>)
    requires ArtOk(art) && PanelOk(p) && Synced(CursorAfter(cs), q)
    requires !q.scrolling ==> Displays(art, p.ram, q.ram, cs)
    ensures LandsMore(art, p, q, cs, 10)
  {
    NewlineLands(art, CursorAfter(cs), q);
    NextRow(cs);
    if !q.scrolling { DisplaysNewline(art, p.ram, q.ram, cs); }
  }

  lemma PrintLandsMore(art: Art, p: Panel, q: Panel, cs: seq<Byte>, c: Byte)
    requires ArtOk(art) && PanelOk(p) && Synced(CursorAfter(cs), q) && c != 10
    requires !q.scrolling ==> Displays(art, p.ram, q.ram, cs)
    ensures LandsMore(art, p, q, cs, c)
  {
    NextPlace(cs, c);
    PrintLands(art, CursorAfter(cs), q, c);
    if !q.scrolling { DisplaysMore(art, p.ram, q.ram, cs, c); }
  }

  /**
   SetCursor(0,0) followed by any text, newlines included: on the bytes actually sent, cursor and pointer end where the
   layout says, and, while no scroll is active, every character that is not printed over shows at its place and every
   cell no character was printed on is as before.
   */
  lemma LinesOnScreen(art: Art, sh: Shadow, p: Panel, cs: seq<Byte>)
    requires ArtOk(art) && PanelOk(p) && p.parser.Ready? && p.mode.Horizontal? && 0 !in cs
    ensures var said := DoAll(art, sh, [SetCursor(0, 0), PrintString(cs + [0])]);
      && said.sh == CursorAfter(cs) && Synced(said.sh, Feed(p, Encode(said.ts)))
      && (!p.scrolling ==> Displays(art, p.ram, Feed(p, Encode(said.ts)).ram, cs))
  {
    var home := SayCursor(sh, 0, 0);
    CursorLands(sh, p, 0, 0);
    LinesLand(art, Obey(p, home.ts), cs);
    TextTokens(art, sh, cs);
    ObeyConcat(p, home.ts, SayAll(art, home.sh, cs).ts);
    StreamParses(art, sh, [SetCursor(0, 0), PrintString(cs + [0])], p);
  }
}
