/**
 The SSD1306 display controller: display RAM of 8 pages by 128 columns, the parser for its multi-byte
 commands and the auto-incrementing RAM pointer.  Command lengths follow section 9 of the Solomon Systech
 SSD1306 datasheet, addressing follows its sections 10.1.3 to 10.1.5.
 */
module Ssd1306 {
  import opened Basics

  const SEGS: nat := 128
  const PAGES: nat := 8
  const CELLS: nat := 1024

  /** What crosses the bus: a byte marked as command or as display data. */
  datatype Item = Cmd(b: Byte) | Data(b: Byte)

  datatype Parser = Ready | Pending(op: Byte, args: seq<Byte>)
  datatype Mode = Horizontal | Vertical | Paged

  datatype Panel = Panel(
    ram: seq<Byte>, mode: Mode,
    colStart: nat, colEnd: nat, pageStart: nat, pageEnd: nat,
    col: nat, page: nat, parser: Parser, scrolling: bool)

  predicate PanelOk(p: Panel) {
    |p.ram| == CELLS &&
    p.colStart < SEGS && p.colEnd < SEGS && p.pageStart < PAGES && p.pageEnd < PAGES &&
    p.col < SEGS && p.page < PAGES &&
    (p.parser.Pending? ==> |p.parser.args| < ArgCount(p.parser.op))
  }

  /** Registers after power-on reset; the RAM holds anything. */
  predicate PowerOn(p: Panel) {
    PanelOk(p) && p.mode.Paged? && p.parser.Ready? && !p.scrolling &&
    p.colStart == 0 && p.colEnd == SEGS - 1 && p.pageStart == 0 && p.pageEnd == PAGES - 1 &&
    p.col == 0 && p.page == 0
  }

  /** How many argument bytes follow an opcode. */
  function ArgCount(op: Byte): nat {
    if op == 0x26 || op == 0x27 then 6
    else if op == 0x29 || op == 0x2A then 5
    else if op == 0x21 || op == 0x22 || op == 0xA3 then 2
    else if op == 0x20 || op == 0x81 || op == 0x8D || op == 0xA8 || op == 0xD3 || op == 0xD5 ||
            op == 0xD9 || op == 0xDA || op == 0xDB then 1
    else 0
  }

  function Execute(p: Panel, op: Byte, args: seq<Byte>): Panel
    requires |args| == ArgCount(op)
  {
    if op == 0x20 then
      var m := args[0] % 4;
      p.(mode := if m == 0 then Horizontal else if m == 1 then Vertical else if m == 2 then Paged else p.mode)
    else if op == 0x21 then
      p.(colStart := args[0] % SEGS, colEnd := args[1] % SEGS, col := args[0] % SEGS)
    else if op == 0x22 then
      p.(pageStart := args[0] % PAGES, pageEnd := args[1] % PAGES, page := args[0] % PAGES)
    else if op == 0x2E then p.(scrolling := false)
    else if op == 0x2F then p.(scrolling := true)
    else if p.mode.Paged? && op < 0x10 then p.(col := (p.col / 16 * 16 + op) % SEGS)
    else if p.mode.Paged? && 0x10 <= op < 0x20 then p.(col := (op % 8) * 16 + p.col % 16)
    else if p.mode.Paged? && 0xB0 <= op < 0xB8 then p.(page := op - 0xB0)
    else p
  }

  /** Where the pointer goes after a RAM access. */
  function Advance(p: Panel): Panel {
    match p.mode
    case Horizontal =>
      if p.col == p.colEnd then
        p.(col := p.colStart, page := if p.page == p.pageEnd then p.pageStart else (p.page + 1) % PAGES)
      else p.(col := (p.col + 1) % SEGS)
    case Vertical =>
      if p.page == p.pageEnd then
        p.(page := p.pageStart, col := if p.col == p.colEnd then p.colStart else (p.col + 1) % SEGS)
      else p.(page := (p.page + 1) % PAGES)
    case Paged => p.(col := if p.col == p.colEnd then p.colStart else (p.col + 1) % SEGS)
  }

  function Store(p: Panel, b: Byte): (p': Panel)
    requires PanelOk(p)
    ensures PanelOk(p') && p'.parser == p.parser
  {
    Advance(p.(ram := p.ram[p.page * SEGS + p.col := b]))
  }

  function Receive(p: Panel, item: Item): (p': Panel)
    requires PanelOk(p)
    ensures PanelOk(p')
  {
    match item
    case Data(b) => Store(p, b)
    case Cmd(b) =>
      match p.parser
      case Ready => if ArgCount(b) == 0 then Execute(p, b, []) else p.(parser := Pending(b, []))
      case Pending(op, args) =>
        if |args| + 1 == ArgCount(op) then Execute(p.(parser := Ready), op, args + [b])
        else p.(parser := Pending(op, args + [b]))
  }

  function Feed(p: Panel, items: seq<Item>): (p': Panel)
    requires PanelOk(p)
    ensures PanelOk(p')
    decreases items
  {
    if items == [] then p else Feed(Receive(p, items[0]), items[1..])
  }

  lemma {:induction false} FeedConcat(p: Panel, a: seq<Item>, b: seq<Item>)
    requires PanelOk(p)
    ensures Feed(p, a + b) == Feed(Feed(p, a), b)
    decreases a
  {
    if a == [] {
      assert a + b == b;
    } else {
      assert (a + b)[1..] == a[1..] + b;
      FeedConcat(Receive(p, a[0]), a[1..], b);
    }
  }

  // ----------------------------------------------------------------- tokens

  /** What a driver means to say: a whole command, or one byte of display data. */
  datatype Token = Order(op: Byte, args: seq<Byte>) | Pixel(b: Byte)

  predicate WellFormed(t: Token) { t.Order? ==> |t.args| == ArgCount(t.op) }

  predicate AllWellFormed(ts: seq<Token>) { forall i :: 0 <= i < |ts| ==> WellFormed(ts[i]) }

  function Commands(bytes: seq<Byte>): seq<Item> {
    seq(|bytes|, i requires 0 <= i < |bytes| => Cmd(bytes[i]))
  }

  function Pixels(bytes: seq<Byte>): seq<Token> {
    seq(|bytes|, i requires 0 <= i < |bytes| => Pixel(bytes[i]))
  }

  function EncodeOne(t: Token): seq<Item> {
    match t
    case Order(op, args) => [Cmd(op)] + Commands(args)
    case Pixel(b) => [Data(b)]
  }

  /** The bytes that say `ts`. */
  function Encode(ts: seq<Token>): seq<Item> {
    if ts == [] then [] else EncodeOne(ts[0]) + Encode(ts[1..])
  }

  lemma {:induction false} EncodeConcat(a: seq<Token>, b: seq<Token>)
    ensures Encode(a + b) == Encode(a) + Encode(b)
    decreases a
  {
    if a == [] {
      assert a + b == b;
    } else {
      assert (a + b)[1..] == a[1..] + b;
      EncodeConcat(a[1..], b);
    }
  }

  /** What the parser makes of a byte stream; None if data arrives in the middle of a command or a command is cut off. */
  function Decode(parser: Parser, items: seq<Item>): Option<seq<Token>>
    decreases items
  {
    if items == [] then (if parser.Ready? then Some([]) else None)
    else match items[0]
      case Data(b) => if parser.Ready? then Prepend(Pixel(b), Decode(Ready, items[1..])) else None
      case Cmd(b) =>
        match parser
        case Ready =>
          if ArgCount(b) == 0 then Prepend(Order(b, []), Decode(Ready, items[1..]))
          else Decode(Pending(b, []), items[1..])
        case Pending(op, args) =>
          if |args| + 1 >= ArgCount(op) then Prepend(Order(op, args + [b]), Decode(Ready, items[1..]))
          else Decode(Pending(op, args + [b]), items[1..])
  }

  function Prepend(t: Token, r: Option<seq<Token>>): Option<seq<Token>> {
    if r.None? then None else Some([t] + r.value)
  }

  /** The panel after obeying whole commands and data bytes. */
  function Obey(p: Panel, ts: seq<Token>): (p': Panel)
    requires PanelOk(p) && AllWellFormed(ts)
    ensures PanelOk(p') && p'.parser == p.parser
    decreases ts
  {
    if ts == [] then p else Obey(ObeyOne(p, ts[0]), ts[1..])
  }

  function ObeyOne(p: Panel, t: Token): (p': Panel)
    requires PanelOk(p) && WellFormed(t)
    ensures PanelOk(p') && p'.parser == p.parser
  {
    match t
    case Order(op, args) => Execute(p, op, args)
    case Pixel(b) => Store(p, b)
  }

  lemma {:induction false} ObeyConcat(p: Panel, a: seq<Token>, b: seq<Token>)
    requires PanelOk(p) && AllWellFormed(a) && AllWellFormed(b)
    ensures AllWellFormed(a + b) && Obey(p, a + b) == Obey(Obey(p, a), b)
    decreases a
  {
    if a == [] {
      assert a + b == b;
    } else {
      assert (a + b)[1..] == a[1..] + b;
      ObeyConcat(ObeyOne(p, a[0]), a[1..], b);
    }
  }

  /** Argument bytes are collected, never executed as opcodes. */
  lemma {:induction false} ArgsCollected(p: Panel, op: Byte, args: seq<Byte>, rest: seq<Byte>)
    requires PanelOk(p) && p.parser == Pending(op, args) && |args| + |rest| == ArgCount(op) && rest != []
    ensures Feed(p, Commands(rest)) == Execute(p.(parser := Ready), op, args + rest)
    decreases rest
  {
    var items := Commands(rest);
    assert items[1..] == Commands(rest[1..]);
    if |rest| > 1 {
      ArgsCollected(p.(parser := Pending(op, args + [rest[0]])), op, args + [rest[0]], rest[1..]);
      assert args + [rest[0]] + rest[1..] == args + rest;
    } else {
      assert args + [rest[0]] == args + rest;
      assert items[1..] == [];
    }
  }

  lemma FeedOne(p: Panel, t: Token)
    requires PanelOk(p) && p.parser.Ready? && WellFormed(t)
    ensures Feed(p, EncodeOne(t)) == ObeyOne(p, t)
  {
    var items := EncodeOne(t);
    if t.Order? {
      assert items[1..] == Commands(t.args);
      if t.args == [] {
        assert items[1..] == [] && t.args == [];
      } else {
        ArgsCollected(p.(parser := Pending(t.op, [])), t.op, [], t.args);
        assert [] + t.args == t.args;
      }
    } else {
      assert items[1..] == [];
    }
  }

  /** Starting from an idle parser, the encoded bytes do what the tokens say and leave the parser idle. */
  lemma {:induction false} FeedEncode(p: Panel, ts: seq<Token>)
    requires PanelOk(p) && p.parser.Ready? && AllWellFormed(ts)
    ensures Feed(p, Encode(ts)) == Obey(p, ts)
    decreases ts
  {
    if ts != [] {
      FeedOne(p, ts[0]);
      FeedConcat(p, EncodeOne(ts[0]), Encode(ts[1..]));
      FeedEncode(ObeyOne(p, ts[0]), ts[1..]);
    }
  }

  lemma {:induction false} ArgsDecoded(op: Byte, args: seq<Byte>, rest: seq<Byte>, more: seq<Item>)
    requires |args| + |rest| == ArgCount(op) && rest != []
    ensures Decode(Pending(op, args), Commands(rest) + more) == Prepend(Order(op, args + rest), Decode(Ready, more))
    decreases rest
  {
    var items := Commands(rest) + more;
    assert items[1..] == Commands(rest[1..]) + more;
    assert args + [rest[0]] + rest[1..] == args + rest;
    if |rest| > 1 {
      ArgsDecoded(op, args + [rest[0]], rest[1..], more);
    } else {
      assert items[1..] == more && args + [rest[0]] == args + rest;
    }
  }

  lemma DecodeOne(t: Token, more: seq<Item>)
    requires WellFormed(t)
    ensures Decode(Ready, EncodeOne(t) + more) == Prepend(t, Decode(Ready, more))
  {
    var items := EncodeOne(t) + more;
    if t.Order? {
      assert items[1..] == Commands(t.args) + more;
      if t.args == [] {
        assert items[1..] == more;
      } else {
        ArgsDecoded(t.op, [], t.args, more);
        assert [] + t.args == t.args;
      }
    } else {
      assert items[1..] == more;
    }
  }

  /** The parser recovers exactly the tokens: no argument is taken for an opcode, no data byte lands inside a command. */
  lemma {:induction false} DecodeEncode(ts: seq<Token>)
    requires AllWellFormed(ts)
    ensures Decode(Ready, Encode(ts)) == Some(ts)
    decreases ts
  {
    if ts != [] {
      DecodeOne(ts[0], Encode(ts[1..]));
      DecodeEncode(ts[1..]);
      assert [ts[0]] + ts[1..] == ts;
    }
  }
}
