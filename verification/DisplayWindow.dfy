/**
 Runs of data bytes through the controller's address window: where every byte lands and where the pointer ends.
 While a scroll is active the hardware rewrites the RAM on its own, so what runs of bytes leave in it is stated for
 panels that are not scrolling; the pointer is stated for all.
 */
module DisplayWindow {
  import opened Basics
  import opened Ssd1306
  import opened TextEngine

  /** Horizontal addressing with a window that reaches to the last column and page, the pointer inside it. */
  predicate Windowed(p: Panel) {
    PanelOk(p) && p.mode.Horizontal? && p.colEnd == SEGS - 1 && p.pageEnd == PAGES - 1 &&
    p.colStart <= p.col && p.pageStart <= p.page
  }

  predicate SameWindow(p: Panel, q: Panel) {
    q.mode == p.mode && q.colStart == p.colStart && q.colEnd == p.colEnd &&
    q.pageStart == p.pageStart && q.pageEnd == p.pageEnd && q.scrolling == p.scrolling
  }

  function Width(p: Panel): (w: nat)
    requires Windowed(p)
    ensures 0 < w <= SEGS
  {
    SEGS - p.colStart
  }

  /** The number of cells of the window. */
  function Size(p: Panel): nat
    requires Windowed(p)
  {
    MulNat(Width(p), PAGES - p.pageStart);
    Width(p) * (PAGES - p.pageStart)
  }

  /** Cell `x` is column x % 128 of page x / 128. */
  predicate InWindow(p: Panel, x: nat) { x < CELLS && p.pageStart <= x / SEGS && p.colStart <= x % SEGS }

  /** The rank of a cell of the window, counted along the rows. */
  function Rank(p: Panel, x: nat): nat
    requires Windowed(p) && InWindow(p, x)
  {
    MulNat(Width(p), x / SEGS - p.pageStart);
    Width(p) * (x / SEGS - p.pageStart) + (x % SEGS - p.colStart)
  }

  function Pointer(p: Panel): (x: nat)
    requires Windowed(p)
    ensures InWindow(p, x) && x == p.page * SEGS + p.col
  {
    p.page * SEGS + p.col
  }

  /** Ranks number the cells of the window from 0 without repetition. */
  lemma RankIsUnique(p: Panel, x: nat, y: nat)
    requires Windowed(p) && InWindow(p, x) && InWindow(p, y)
    ensures Rank(p, x) < Size(p)
    ensures Rank(p, x) == Rank(p, y) ==> x == y
  {
    var w := Width(p);
    RankOrder(w, x / SEGS - p.pageStart, x % SEGS - p.colStart, y / SEGS - p.pageStart, y % SEGS - p.colStart);
    RankOrder(w, x / SEGS - p.pageStart, x % SEGS - p.colStart, PAGES - p.pageStart, 0);
  }

  function NextRank(k: nat, size: nat): nat { if k + 1 == size then 0 else k + 1 }

  /** Rank arithmetic of one step to the right, row by row, in rows of width `w` and `h` rows. */
  lemma StepRank(w: nat, h: nat, row: nat, i: nat, row': nat, i': nat)
    requires row < h && i < w
    requires if i + 1 < w then row' == row && i' == i + 1 else i' == 0 && row' == if row + 1 < h then row + 1 else 0
    ensures NextRank(w * row + i, w * h) == w * row' + i'
  {
    MulStep(w, row, h);
    if i + 1 == w {
      assert w * (row + 1) == w * row + w;
      if row + 1 < h { MulStep(w, row + 1, h); } else { assert w * row' == 0; }
    }
  }

  /** The panel after `n` columns of one row were written, ending at the row's end if they reach it. */
  function AlongRow(p: Panel, ram: seq<Byte>, n: nat): Panel
    requires Windowed(p) && p.col + n <= SEGS
  {
    if p.col + n < SEGS then p.(ram := ram, col := p.col + n)
    else p.(ram := ram, col := p.colStart, page := if p.page == 7 then p.pageStart else p.page + 1)
  }

  lemma StoreAlong(p: Panel, b: Byte)
    requires Windowed(p)
    ensures Store(p, b) == AlongRow(p, p.ram[Pointer(p) := b], 1)
  {
  }

  lemma RankOfPointer(p: Panel, q: Panel)
    requires Windowed(p) && Windowed(q) && SameWindow(p, q)
    ensures Rank(p, Pointer(q)) == Width(p) * (q.page - p.pageStart) + (q.col - p.colStart)
  {
    ModUnique(Pointer(q), SEGS, q.page, q.col);
  }

  lemma NextCell(p: Panel, ram: seq<Byte>)
    requires Windowed(p) && |ram| == CELLS
    ensures var p' := AlongRow(p, ram, 1);
      && Windowed(p') && SameWindow(p, p')
      && Rank(p, Pointer(p')) == NextRank(Rank(p, Pointer(p)), Size(p))
  {
    var p' := AlongRow(p, ram, 1);
    RankOfPointer(p, p);
    RankOfPointer(p, p');
    StepRank(Width(p), PAGES - p.pageStart, p.page - p.pageStart, p.col - p.colStart,
             p'.page - p.pageStart, p'.col - p.colStart);
  }

  /** One data byte: it lands on the pointer's cell only, and the pointer moves to the next rank, wrapping at the end. */
  lemma StoreStep(p: Panel, b: Byte)
    requires Windowed(p)
    ensures var p' := Store(p, b);
      && Windowed(p') && SameWindow(p, p') && p'.ram == p.ram[Pointer(p) := b]
      && Rank(p, Pointer(p')) == NextRank(Rank(p, Pointer(p)), Size(p))
  {
    StoreAlong(p, b);
    NextCell(p, p.ram[Pointer(p) := b]);
  }

  /** The last of the bytes, sent from rank `k` of a window of `size` cells, that falls on rank `j`. */
  function Landed(bytes: seq<Byte>, k: nat, size: nat, j: nat): Option<Byte>
    requires size > 0
  {
    if bytes == [] then None
    else if (k + |bytes| - 1) % size == j then Some(bytes[|bytes| - 1])
    else Landed(bytes[..|bytes| - 1], k, size, j)
  }

  function After(was: Byte, landed: Option<Byte>): Byte {
    if landed.Some? then landed.value else was
  }

  lemma ModSucc(a: nat, size: nat)
    requires size > 0
    ensures (a + 1) % size == NextRank(a % size, size)
  {
    var q, r := a / size, a % size;
    assert a + 1 == size * q + (r + 1);
    if r + 1 == size {
      assert a + 1 == size * (q + 1) + 0;
      ModUnique(a + 1, size, q + 1, 0);
    } else {
      ModUnique(a + 1, size, q, r + 1);
    }
  }

  lemma PixelsWellFormed(bytes: seq<Byte>)
    ensures AllWellFormed(Pixels(bytes))
  {
  }

  lemma ObeyPixelsSnoc(p: Panel, bytes: seq<Byte>, b: Byte)
    requires PanelOk(p)
    ensures AllWellFormed(Pixels(bytes)) && AllWellFormed(Pixels(bytes + [b]))
    ensures Obey(p, Pixels(bytes + [b])) == Store(Obey(p, Pixels(bytes)), b)
  {
    assert Pixels(bytes + [b]) == Pixels(bytes) + [Pixel(b)];
    ObeyConcat(p, Pixels(bytes), [Pixel(b)]);
    assert [Pixel(b)][1..] == [];
  }

  ghost predicate RamFilled(p: Panel, ram: seq<Byte>, bytes: seq<Byte>)
    requires Windowed(p) && Size(p) > 0 && |ram| == CELLS
  {
    forall x :: 0 <= x < CELLS ==>
      ram[x] == if InWindow(p, x) then After(p.ram[x], Landed(bytes, Rank(p, Pointer(p)), Size(p), Rank(p, x)))
                else p.ram[x]
  }

  /** `q` is `p` after `bytes` went through the window: the pointer moved on, and each cell holds what landed last. */
  ghost predicate Filled(p: Panel, q: Panel, bytes: seq<Byte>)
    requires Windowed(p) && Size(p) > 0
  {
    && Windowed(q) && SameWindow(p, q)
    && Rank(p, Pointer(q)) == (Rank(p, Pointer(p)) + |bytes|) % Size(p)
    && (!p.scrolling ==> RamFilled(p, q.ram, bytes))
  }

  lemma SizePositive(p: Panel)
    requires Windowed(p)
    ensures 0 < Size(p) <= CELLS && Rank(p, Pointer(p)) < Size(p)
  {
    RankIsUnique(p, Pointer(p), Pointer(p));
    MulWithin(Width(p), PAGES - p.pageStart, SEGS);
  }

  lemma LandedSnoc(bytes: seq<Byte>, b: Byte, k: nat, size: nat, j: nat)
    requires size > 0
    ensures Landed(bytes + [b], k, size, j) == if (k + |bytes|) % size == j then Some(b) else Landed(bytes, k, size, j)
  {
    assert (bytes + [b])[..|bytes|] == bytes;
  }

  lemma SameRank(p: Panel, q: Panel, x: nat)
    requires Windowed(p) && Windowed(q) && SameWindow(p, q) && InWindow(p, x)
    ensures InWindow(q, x) && Rank(p, x) == Rank(q, x) && Size(p) == Size(q)
  {
  }

  /** One more byte at rank `r`, as seen by the cell of rank `j`; only that of equal rank is overwritten. */
  lemma CellStep(first: Byte, was: Byte, now: Byte, bytes: seq<Byte>, b: Byte, k: nat, size: nat, j: nat)
    requires size > 0 && was == After(first, Landed(bytes, k, size, j))
    requires now == if j == (k + |bytes|) % size then b else was
    ensures now == After(first, Landed(bytes + [b], k, size, j))
  {
    LandedSnoc(bytes, b, k, size, j);
  }

  /** One more byte, as seen by one cell of the window. */
  lemma CellMore(p: Panel, q: Panel, bytes: seq<Byte>, b: Byte, x: nat)
    requires Windowed(p) && Windowed(q) && SameWindow(p, q) && Size(p) > 0 && InWindow(p, x)
    requires Rank(p, Pointer(q)) == (Rank(p, Pointer(p)) + |bytes|) % Size(p)
    requires q.ram[x] == After(p.ram[x], Landed(bytes, Rank(p, Pointer(p)), Size(p), Rank(p, x)))
    ensures q.ram[Pointer(q) := b][x] ==
            After(p.ram[x], Landed(bytes + [b], Rank(p, Pointer(p)), Size(p), Rank(p, x)))
  {
    RankIsUnique(p, x, Pointer(q));
    CellStep(p.ram[x], q.ram[x], q.ram[Pointer(q) := b][x], bytes, b, Rank(p, Pointer(p)), Size(p), Rank(p, x));
  }

  lemma RamMore(p: Panel, q: Panel, bytes: seq<Byte>, b: Byte)
    requires Windowed(p) && Windowed(q) && SameWindow(p, q) && Size(p) > 0
    requires Rank(p, Pointer(q)) == (Rank(p, Pointer(p)) + |bytes|) % Size(p)
    requires RamFilled(p, q.ram, bytes)
    ensures RamFilled(p, q.ram[Pointer(q) := b], bytes + [b])
  {
    forall x | 0 <= x < CELLS && InWindow(p, x)
      ensures q.ram[Pointer(q) := b][x] ==
              After(p.ram[x], Landed(bytes + [b], Rank(p, Pointer(p)), Size(p), Rank(p, x)))
    {
      CellMore(p, q, bytes, b, x);
    }
  }

  lemma FilledMore(p: Panel, q: Panel, bytes: seq<Byte>, b: Byte)
    requires Windowed(p) && Size(p) > 0 && Filled(p, q, bytes)
    ensures Filled(p, Store(q, b), bytes + [b])
  {
    StoreStep(q, b);
    SameRank(p, q, Pointer(q));
    SameRank(p, q, Pointer(Store(q, b)));
    ModSucc(Rank(p, Pointer(p)) + |bytes|, Size(p));
    if !p.scrolling { RamMore(p, q, bytes, b); }
  }

  /** Any bytes, from any pointer in any window: every cell of the display and the pointer afterwards. */
  lemma {:induction false} PixelsLand(p: Panel, bytes: seq<Byte>)
    requires Windowed(p)
    ensures AllWellFormed(Pixels(bytes)) && Size(p) > 0 && Filled(p, Obey(p, Pixels(bytes)), bytes)
    decreases |bytes|
  {
    PixelsWellFormed(bytes);
    SizePositive(p);
    if bytes == [] {
      ModUnique(Rank(p, Pointer(p)), Size(p), 0, Rank(p, Pointer(p)));
    } else {
      var init, b := bytes[..|bytes| - 1], bytes[|bytes| - 1];
      assert bytes == init + [b];
      PixelsLand(p, init);
      ObeyPixelsSnoc(p, init, b);
      FilledMore(p, Obey(p, Pixels(init)), init, b);
    }
  }

  // ------------------------------------------------------ whole-screen writes

  lemma {:induction false} RepeatLandsAt(b: Byte, n: nat, k: nat, size: nat, j: nat, i: nat)
    requires size > 0 && i < n && (k + i) % size == j
    ensures Landed(Repeat(b, n), k, size, j) == Some(b)
    decreases n
  {
    assert Repeat(b, n)[..n - 1] == Repeat(b, n - 1);
    if (k + n - 1) % size != j { RepeatLandsAt(b, n - 1, k, size, j, i); }
  }

  /** A byte repeated at least once per cell reaches every rank, wherever it starts. */
  lemma RepeatLands(b: Byte, n: nat, k: nat, size: nat, j: nat)
    requires j < size <= n
    ensures Landed(Repeat(b, n), k, size, j) == Some(b)
  {
    var back := (k + n - 1 - j) % size;
    assert k + n - 1 - j == size * ((k + n - 1 - j) / size) + back;
    ModUnique(k + (n - 1 - back), size, (k + n - 1 - j) / size, j);
    RepeatLandsAt(b, n, k, size, j, n - 1 - back);
  }

  lemma {:induction false} LandedInOrder(bytes: seq<Byte>, size: nat, j: nat)
    requires 0 < size && |bytes| <= size
    ensures Landed(bytes, 0, size, j) == if j < |bytes| then Some(bytes[j]) else None
    decreases |bytes|
  {
    if bytes != [] {
      LandedInOrder(bytes[..|bytes| - 1], size, j);
      ModUnique(|bytes| - 1, size, 0, |bytes| - 1);
    }
  }

  /**
   fill: exactly the cells of the window take the byte, and the pointer ends 1024 ranks on, modulo the window.
   */
  lemma FillLands(p: Panel, d: Byte)
    requires Windowed(p)
    ensures 0 < Size(p) <= CELLS && AllWellFormed(Pixels(Repeat(d, CELLS)))
    ensures var q := Obey(p, Pixels(Repeat(d, CELLS)));
      && Windowed(q) && SameWindow(p, q)
      && Rank(p, Pointer(q)) == (Rank(p, Pointer(p)) + CELLS) % Size(p)
      && (!p.scrolling ==> forall x :: 0 <= x < CELLS ==> q.ram[x] == if InWindow(p, x) then d else p.ram[x])
  {
    PixelsLand(p, Repeat(d, CELLS));
    SizePositive(p);
    forall x | 0 <= x < CELLS && InWindow(p, x)
      ensures Landed(Repeat(d, CELLS), Rank(p, Pointer(p)), Size(p), Rank(p, x)) == Some(d)
    {
      RankIsUnique(p, x, x);
      RepeatLands(d, CELLS, Rank(p, Pointer(p)), Size(p), Rank(p, x));
    }
  }

  lemma WrapReturns(k: nat, total: nat, n: nat)
    requires k < n
    ensures (k + total) % n == k <==> total % n == 0
  {
    var q, r := total / n, total % n;
    assert total == n * q + r;
    if k + r < n {
      ModUnique(k + total, n, q, k + r);
    } else {
      assert n * (q + 1) == n * q + n;
      ModUnique(k + total, n, q + 1, k + r - n);
    }
  }

  /** A fill puts the pointer back where it was exactly when the window's size divides 1024. */
  lemma FillReturns(p: Panel, d: Byte)
    requires Windowed(p)
    ensures Size(p) > 0 && AllWellFormed(Pixels(Repeat(d, CELLS)))
    ensures var q := Obey(p, Pixels(Repeat(d, CELLS)));
      Windowed(q) && (Pointer(q) == Pointer(p) <==> CELLS % Size(p) == 0)
  {
    FillLands(p, d);
    SizePositive(p);
    WrapReturns(Rank(p, Pointer(p)), CELLS, Size(p));
    RankIsUnique(p, Pointer(Obey(p, Pixels(Repeat(d, CELLS)))), Pointer(p));
  }

  predicate FillClears(p: Panel, d: Byte)
    requires Windowed(p)
  {
    PixelsWellFormed(Repeat(d, CELLS));
    forall x :: 0 <= x < CELLS ==> Obey(p, Pixels(Repeat(d, CELLS))).ram[x] == d
  }

  /** A fill that is sent without homing the cursor clears every screen exactly when the window is the screen. */
  lemma FillClearsScreen(p: Panel, d: Byte)
    requires Windowed(p) && !p.scrolling
    ensures (forall ram: seq<Byte> :: |ram| == CELLS ==> FillClears(p.(ram := ram), d))
       <==> p.colStart == 0 && p.pageStart == 0
  {
    if p.colStart == 0 && p.pageStart == 0 {
      forall ram: seq<Byte> | |ram| == CELLS
        ensures FillClears(p.(ram := ram), d)
      {
        FillLands(p.(ram := ram), d);
      }
    } else {
      var q := p.(ram := Repeat((d + 1) % 256, CELLS));
      FillLands(q, d);
      assert !InWindow(q, 0);
      assert !FillClears(q, d);
    }
  }

  predicate Homed(p: Panel) {
    PanelOk(p) && p.colStart == 0 && p.pageStart == 0 && p.colEnd == SEGS - 1 && p.pageEnd == PAGES - 1 &&
    p.col == 0 && p.page == 0
  }

  lemma HomedRank(p: Panel, x: nat)
    requires Homed(p) && p.mode.Horizontal? && x < CELLS
    ensures Windowed(p) && InWindow(p, x) && Rank(p, x) == x && Size(p) == CELLS
  {
    assert Rank(p, x) == 128 * (x / 128) + x % 128;
  }

  /** A whole screen of bytes from rank 0 lands in row-major order. */
  lemma ScreenFilled(p: Panel, q: Panel, bytes: seq<Byte>)
    requires Homed(p) && p.mode.Horizontal? && |bytes| == CELLS
    requires Windowed(p) && Size(p) == CELLS && Rank(p, Pointer(p)) == 0
    requires Filled(p, q, bytes) && !p.scrolling
    ensures q.ram == bytes
  {
    forall x | 0 <= x < CELLS
      ensures q.ram[x] == bytes[x]
    {
      HomedRank(p, x);
      LandedInOrder(bytes, CELLS, x);
    }
  }

  lemma HomeAgain(p: Panel, q: Panel)
    requires Homed(p) && p.mode.Horizontal? && Windowed(q) && SameWindow(p, q) && Windowed(p)
    requires Rank(p, Pointer(q)) == 0
    ensures q.col == 0 && q.page == 0
  {
    HomedRank(p, Pointer(q));
  }

  /** From a homed pointer a whole screen of bytes fills the RAM in row-major order and comes back home. */
  lemma ScreenLands(p: Panel, bytes: seq<Byte>)
    requires Homed(p) && p.mode.Horizontal? && |bytes| == CELLS
    ensures AllWellFormed(Pixels(bytes))
    ensures var q := Obey(p, Pixels(bytes)); q == p.(ram := q.ram) && (!p.scrolling ==> q.ram == bytes)
  {
    PixelsLand(p, bytes);
    var q := Obey(p, Pixels(bytes));
    HomedRank(p, 0);
    assert Rank(p, Pointer(q)) == CELLS % CELLS;
    HomeAgain(p, q);
    if !p.scrolling { ScreenFilled(p, q, bytes); }
  }
}
