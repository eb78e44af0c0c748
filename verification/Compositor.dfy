/** The companion's software renderer: blending premultiplied pixels in src/avatar/avatar_core.cpp,
    and the dark plate put under them in src/avatar/platform/avatar_x11.cpp. However many shapes are
    drawn, no colour byte exceeds its alpha byte, which is what keeps the plate from overflowing. */
module Compositor {



  type Word = x: int | 0 <= x < 0x1_0000_0000

  type Byte = x: int | 0 <= x < 0x100

  /** The channels of a pixel, lowest byte first. */
  datatype Pixel = Pixel(b: Byte, g: Byte, r: Byte, a: Byte)

  function Unpack(px: Word): Pixel {
    Pixel(px % 0x100, px / 0x100 % 0x100, px / 0x1_0000 % 0x100, px / 0x100_0000)
  }

  /** The bytes shifted into place; being bytes they do not overlap. */
  function Pack(p: Pixel): (r: Word) { p.a * 0x100_0000 + p.r * 0x1_0000 + p.g * 0x100 + p.b }

  lemma LowByte(high: nat, low: Byte)
    ensures (0x100 * high + low) / 0x100 == high && (0x100 * high + low) % 0x100 == low
  {
  }

  lemma PackUnpack(p: Pixel)
    ensures Unpack(Pack(p)) == p
  {
    var w := Pack(p);
    LowByte(p.a * 0x1_0000 + p.r * 0x100 + p.g, p.b);
    LowByte(p.a * 0x100 + p.r, p.g);
    LowByte(p.a, p.r);
    assert w == 0x100 * (p.a * 0x1_0000 + p.r * 0x100 + p.g) + p.b;
    assert w / 0x1_0000 == w / 0x100 / 0x100 && w / 0x100_0000 == w / 0x100 / 0x100 / 0x100;
  }

  // ---------------------------------------------------------------- one blend

  datatype Col = Col(r: real, g: real, b: real)

  predicate Unit(x: real) { 0.0 <= x <= 1.0 }

  predicate UnitCol(c: Col) { Unit(c.r) && Unit(c.g) && Unit(c.b) }

  /** `uint32_t(x * 255 + .5)` */
  function Quantize(x: real): int { (x * 255.0 + 0.5).Floor }

  function Times(x: real, a: real): real { x * a }

  /** src-over: the source `s` with coverage `a` over `d`. */
  function Mixed(s: real, d: real, a: real): real { Times(s, a) + Times(d, 1.0 - a) }

  function Level(d: Byte): real { d as real / 255.0 }

  function OverChannel(s: real, d: Byte, a: real): int { Quantize(Mixed(s, Level(d), a)) }

  lemma QuantizeMonotone(x: real, y: real)
    requires 0.0 <= x <= y <= 1.0
    ensures 0 <= Quantize(x) <= Quantize(y) <= 255
  {
    assert (y * 255.0 + 0.5).Floor <= (255.5).Floor == 255;
  }

  lemma ProductSign(x: real, a: real)
    requires 0.0 <= x && 0.0 <= a
    ensures 0.0 <= x * a
  {
  }

  lemma TimesMonotone(x: real, y: real, a: real)
    requires 0.0 <= x <= y && 0.0 <= a
    ensures 0.0 <= Times(x, a) <= Times(y, a)
  {
    ProductSign(x, a);
    ProductSign(y - x, a);
    assert (y - x) * a == y * a - x * a;
  }

  lemma MixedSame(x: real, a: real)
    ensures Mixed(x, x, a) == x
  {
  }

  lemma MixedMonotone(s: real, t: real, d: real, e: real, a: real)
    requires 0.0 <= s <= t && 0.0 <= d <= e && Unit(a)
    ensures 0.0 <= Mixed(s, d, a) <= Mixed(t, e, a)
  {
    hide Times;
    TimesMonotone(s, t, a);
    TimesMonotone(d, e, 1.0 - a);
  }

  lemma LevelMonotone(d: Byte, e: Byte)
    requires d <= e
    ensures 0.0 <= Level(d) <= Level(e) <= 1.0
  {
  }

  /** A brighter source over a brighter byte gives a brighter byte. */
  lemma OverMonotone(s: real, t: real, d: Byte, e: Byte, a: real)
    requires 0.0 <= s <= t <= 1.0 && d <= e && Unit(a)
    ensures 0 <= OverChannel(s, d, a) <= OverChannel(t, e, a) <= 255
  {
    hide Mixed, Quantize, Level;
    LevelMonotone(d, e);
    MixedMonotone(s, t, Level(d), Level(e), a);
    MixedMonotone(t, 1.0, Level(e), 1.0, a);
    MixedSame(1.0, a);
    QuantizeMonotone(Mixed(s, Level(d), a), Mixed(t, Level(e), a));
  }

  /** The alpha channel is that of a source of full brightness. */
  lemma AlphaIsOver(d: Byte, a: real)
    ensures Quantize(a + Times(Level(d), 1.0 - a)) == OverChannel(1.0, d, a)
  {
    assert Times(1.0, a) == a;
    hide Quantize, Level, Times;
  }

  function Over(p: Pixel, c: Col, a: real): Pixel
    requires UnitCol(c) && Unit(a)
  {
    OverMonotone(c.b, 1.0, p.b, p.b, a);
    OverMonotone(c.g, 1.0, p.g, p.g, a);
    OverMonotone(c.r, 1.0, p.r, p.r, a);
    OverMonotone(1.0, 1.0, p.a, p.a, a);
    Pixel(OverChannel(c.b, p.b, a), OverChannel(c.g, p.g, a), OverChannel(c.r, p.r, a), OverChannel(1.0, p.a, a))
  }

  lemma OverFields(p: Pixel, c: Col, a: real)
    requires UnitCol(c) && Unit(a)
    ensures Over(p, c, a).b == OverChannel(c.b, p.b, a) && Over(p, c, a).g == OverChannel(c.g, p.g, a)
    ensures Over(p, c, a).r == OverChannel(c.r, p.r, a) && Over(p, c, a).a == OverChannel(1.0, p.a, a)
  {
    hide OverChannel;
  }

  /** The four sums of `blend`, the one for alpha without a colour, are the four channels. */
  lemma SourceOver(p: Pixel, c: Col, a: real)
    requires UnitCol(c) && Unit(a)
    ensures Quantize(Times(c.b, a) + Times(Level(p.b), 1.0 - a)) == Over(p, c, a).b
    ensures Quantize(Times(c.g, a) + Times(Level(p.g), 1.0 - a)) == Over(p, c, a).g
    ensures Quantize(Times(c.r, a) + Times(Level(p.r), 1.0 - a)) == Over(p, c, a).r
    ensures Quantize(a + Times(Level(p.a), 1.0 - a)) == Over(p, c, a).a
  {
    hide Over, Quantize, Level, Times;
    OverFields(p, c, a);
    AlphaIsOver(p.a, a);
  }

  predicate Premultiplied(p: Pixel) { p.b <= p.a && p.g <= p.a && p.r <= p.a }

  lemma OverKeeps(p: Pixel, c: Col, a: real)
    requires UnitCol(c) && Unit(a) && Premultiplied(p)
    ensures Premultiplied(Over(p, c, a))
  {
    hide OverChannel;
    OverMonotone(c.b, 1.0, p.b, p.a, a);
    OverMonotone(c.g, 1.0, p.g, p.a, a);
    OverMonotone(c.r, 1.0, p.r, p.a, a);
  }

  lemma QuantizeByte(d: Byte)
    ensures Quantize(Level(d)) == d
  {
    assert d as real / 255.0 * 255.0 == d as real;
  }

  /** Each channel ends between the byte that was there and the source's. */
  lemma OverBetween(s: real, d: Byte, a: real)
    requires Unit(s) && Unit(a)
    ensures var r := OverChannel(s, d, a);
            if Quantize(s) <= d then Quantize(s) <= r <= d else d <= r <= Quantize(s)
  {
    hide Mixed, Quantize, Level;
    var x := Level(d);
    LevelMonotone(d, d);
    QuantizeByte(d);
    MixedSame(s, a);
    MixedSame(x, a);
    if s <= x {
      MixedMonotone(s, s, s, x, a);
      MixedMonotone(s, x, x, x, a);
      QuantizeMonotone(s, Mixed(s, x, a));
      QuantizeMonotone(Mixed(s, x, a), x);
    } else {
      MixedMonotone(x, s, x, x, a);
      MixedMonotone(s, s, x, s, a);
      QuantizeMonotone(x, Mixed(s, x, a));
      QuantizeMonotone(Mixed(s, x, a), s);
    }
  }

  /** Blending never makes a pixel more transparent. */
  lemma AlphaGrows(p: Pixel, c: Col, a: real)
    requires UnitCol(c) && Unit(a)
    ensures p.a <= Over(p, c, a).a
  {
    hide OverChannel;
    OverBetween(1.0, p.a, a);
    QuantizeMonotone(Level(p.a), 1.0);
    QuantizeByte(p.a);
  }

  // ---------------------------------------------------------------- many blends

  /** A call of `blend`, wherever it points. */
  datatype Dab = Dab(x: int, y: int, c: Col, a: real)

  predicate Hits(d: Dab, size: nat) { d.a > 0.0 && 0 <= d.x < size && 0 <= d.y < size }

  function Capped(a: real): real { if a < 1.0 then a else 1.0 }

  lemma IndexInside(x: int, y: int, size: nat)
    requires 0 <= x < size && 0 <= y < size
    ensures 0 <= y * size + x < size * size
  {
    assert y * size + x < (y + 1) * size <= size * size;
  }

  function Blended(px: Word, d: Dab): Word
    requires UnitCol(d.c) && d.a > 0.0
  {
    Pack(Over(Unpack(px), d.c, Capped(d.a)))
  }

  function Painted(frame: seq<Word>, size: nat, d: Dab): (r: seq<Word>)
    requires |frame| == size * size && UnitCol(d.c)
    ensures |r| == |frame|
  {
    if !Hits(d, size) then frame
    else
      IndexInside(d.x, d.y, size);
      frame[d.y * size + d.x := Blended(frame[d.y * size + d.x], d)]
  }

  predicate UnitCols(dabs: seq<Dab>) { forall i :: 0 <= i < |dabs| ==> UnitCol(dabs[i].c) }

  function PaintedAll(frame: seq<Word>, size: nat, dabs: seq<Dab>): (r: seq<Word>)
    requires |frame| == size * size && UnitCols(dabs)
    ensures |r| == |frame|
  {
    if dabs == [] then frame
    else Painted(PaintedAll(frame, size, dabs[..|dabs| - 1]), size, dabs[|dabs| - 1])
  }

  predicate AllPremultiplied(frame: seq<Word>) { forall i :: 0 <= i < |frame| ==> Premultiplied(Unpack(frame[i])) }

  lemma PaintedKeeps(frame: seq<Word>, size: nat, d: Dab)
    requires |frame| == size * size && UnitCol(d.c) && AllPremultiplied(frame)
    ensures AllPremultiplied(Painted(frame, size, d))
  {
    hide Over, Premultiplied, Unpack, Pack;
    if Hits(d, size) {
      IndexInside(d.x, d.y, size);
      var px := frame[d.y * size + d.x];
      OverKeeps(Unpack(px), d.c, Capped(d.a));
      PackUnpack(Over(Unpack(px), d.c, Capped(d.a)));
    }
  }

  /** Whatever is drawn, in whatever order: in a frame that starts premultiplied no colour byte ever
      exceeds its alpha byte. */
  lemma {:induction false} PaintedAllKeeps(frame: seq<Word>, size: nat, dabs: seq<Dab>)
    requires |frame| == size * size && UnitCols(dabs) && AllPremultiplied(frame)
    ensures AllPremultiplied(PaintedAll(frame, size, dabs))
  {
    hide AllPremultiplied, Painted;
    if dabs != [] {
      var before := dabs[..|dabs| - 1];
      PaintedAllKeeps(frame, size, before);
      PaintedKeeps(PaintedAll(frame, size, before), size, dabs[|dabs| - 1]);
    }
  }

  /** The blends that hit the pixel at x, y, in order. */
  function Hitting(dabs: seq<Dab>, x: int, y: int): (r: seq<Dab>)
    ensures forall i :: 0 <= i < |r| ==> r[i] in dabs && r[i].a > 0.0
  {
    if dabs == [] then []
    else
      var last := dabs[|dabs| - 1];
      Hitting(dabs[..|dabs| - 1], x, y) + (if last.a > 0.0 && last.x == x && last.y == y then [last] else [])
  }

  function BlendedAll(px: Word, dabs: seq<Dab>): Word
    requires UnitCols(dabs) && forall i :: 0 <= i < |dabs| ==> dabs[i].a > 0.0
  {
    if dabs == [] then px else Blended(BlendedAll(px, dabs[..|dabs| - 1]), dabs[|dabs| - 1])
  }

  lemma RowStart(y: int, v: int, size: nat)
    requires y <= v
    ensures y * size <= v * size
  {
  }

  lemma RowsApart(x: int, y: int, u: int, v: int, size: nat)
    requires 0 <= x < size && 0 <= u < size && y < v
    ensures y * size + x < v * size + u
  {
    RowStart(y + 1, v, size);
    RowStart(y, y + 1, size);
    assert (y + 1) * size == y * size + size;
  }

  lemma IndexInjective(x: int, y: int, u: int, v: int, size: nat)
    requires 0 <= x < size && 0 <= u < size && y * size + x == v * size + u
    ensures x == u && y == v
  {
    if y < v {
      RowsApart(x, y, u, v, size);
    } else if v < y {
      RowsApart(u, v, x, y, size);
    }
  }

  /** One blend at one pixel. */
  lemma PaintedAt(frame: seq<Word>, size: nat, d: Dab, x: int, y: int)
    requires |frame| == size * size && UnitCol(d.c) && 0 <= x < size && 0 <= y < size
    ensures 0 <= y * size + x < size * size
    ensures Painted(frame, size, d)[y * size + x]
            == if d.a > 0.0 && d.x == x && d.y == y then Blended(frame[y * size + x], d) else frame[y * size + x]
  {
    hide Blended, UnitCol;
    IndexInside(x, y, size);
    if Hits(d, size) {
      IndexInside(d.x, d.y, size);
      if d.y * size + d.x == y * size + x { IndexInjective(d.x, d.y, x, y, size); }
    }
  }

  lemma BlendedMore(px: Word, h: seq<Dab>, d: Dab)
    requires UnitCols(h + [d]) && forall i :: 0 <= i < |h + [d]| ==> (h + [d])[i].a > 0.0
    ensures (h + [d])[..|h|] == h && (h + [d])[|h|] == d
    ensures UnitCols(h) && (forall i :: 0 <= i < |h| ==> h[i].a > 0.0)
    ensures BlendedAll(px, h + [d]) == Blended(BlendedAll(px, h), d)
  {
    hide Blended, UnitCol;
    assert (h + [d])[..|h|] == h;
    forall i | 0 <= i < |h| ensures UnitCol(h[i].c) && h[i].a > 0.0 {
      assert (h + [d])[i] == h[i];
    }
  }

  lemma HittingLast(dabs: seq<Dab>, x: int, y: int)
    requires dabs != []
    ensures var before, last := dabs[..|dabs| - 1], dabs[|dabs| - 1];
            Hitting(dabs, x, y)
            == if last.a > 0.0 && last.x == x && last.y == y then Hitting(before, x, y) + [last]
               else Hitting(before, x, y)
  {
  }

  lemma NoneHit(x: int, y: int)
    ensures Hitting([], x, y) == []
  {
  }

  /** A pixel is the result of the blends that hit it; the others do not matter. */
  lemma {:induction false} PixelIsLocal(frame: seq<Word>, size: nat, dabs: seq<Dab>, x: int, y: int)
    requires |frame| == size * size && UnitCols(dabs) && 0 <= x < size && 0 <= y < size
    ensures 0 <= y * size + x < size * size
    ensures PaintedAll(frame, size, dabs)[y * size + x] == BlendedAll(frame[y * size + x], Hitting(dabs, x, y))
  {
    hide Painted, Blended, UnitCol, Hitting;
    IndexInside(x, y, size);
    if dabs != [] {
      var before, last := dabs[..|dabs| - 1], dabs[|dabs| - 1];
      PixelIsLocal(frame, size, before, x, y);
      PaintedAt(PaintedAll(frame, size, before), size, last, x, y);
      HittingLast(dabs, x, y);
      if last.a > 0.0 && last.x == x && last.y == y {
        BlendedMore(frame[y * size + x], Hitting(before, x, y), last);
      }
    } else {
      NoneHit(x, y);
    }
  }

  // ---------------------------------------------------------------- the buffer

  /** `blend`: no write leaves the buffer. */
  method Blend(buf: array<Word>, size: nat, x: int, y: int, c: Col, a: real)
    requires buf.Length == size * size && UnitCol(c)
    modifies buf
    ensures buf[..] == Painted(old(buf[..]), size, Dab(x, y, c, a))
  {
    hide Over, Pack, Unpack, Quantize, Level, Times, UnitCol;
    if a <= 0.0 || x < 0 || y < 0 || x >= size || y >= size { return; }
    IndexInside(x, y, size);
    var i := y * size + x;
    var part := if a < 1.0 then a else 1.0;
    var px := Unpack(buf[i]);
    var db, dg, dr, da := Level(px.b), Level(px.g), Level(px.r), Level(px.a);
    var sb, sg, sr := Times(c.b, part), Times(c.g, part), Times(c.r, part);
    var ob := sb + Times(db, 1.0 - part);
    var og := sg + Times(dg, 1.0 - part);
    var or := sr + Times(dr, 1.0 - part);
    var oa := part + Times(da, 1.0 - part);
    assert Unit(part) && part == Capped(a);
    SourceOver(px, c, part);
    buf[i] := Pack(Pixel(Quantize(ob), Quantize(og), Quantize(or), Quantize(oa)));
  }

  /** A shape: a box of pixels, a colour, and how much of the colour each pixel gets. */
  datatype Shape = Shape(x0: int, y0: int, x1: int, y1: int, c: Col, a: real, coverage: (int, int) -> real)

  function DabAt(s: Shape, x: int, y: int): Dab { Dab(x, y, s.c, s.a * s.coverage(x, y)) }

  /** The first pixels of a row, up to `x`. */
  function Row(s: Shape, y: int, x: int): seq<Dab>
    decreases x - s.x0
  {
    if x <= s.x0 then [] else Row(s, y, x - 1) + [DabAt(s, x - 1, y)]
  }

  /** The first rows of a box, up to `y`. */
  function Rows(s: Shape, y: int): seq<Dab>
    decreases y - s.y0
  {
    if y <= s.y0 then [] else Rows(s, y - 1) + Row(s, y - 1, s.x1 + 1)
  }

  lemma {:induction false} RowCols(s: Shape, y: int, x: int)
    requires UnitCol(s.c)
    ensures UnitCols(Row(s, y, x))
    decreases x - s.x0
  {
    if x > s.x0 { RowCols(s, y, x - 1); }
  }

  lemma {:induction false} RowsCols(s: Shape, y: int)
    requires UnitCol(s.c)
    ensures UnitCols(Rows(s, y))
    decreases y - s.y0
  {
    if y > s.y0 {
      RowsCols(s, y - 1);
      RowCols(s, y - 1, s.x1 + 1);
    }
  }

  function Dabs(shapes: seq<Shape>): seq<Dab> {
    if shapes == [] then [] else Dabs(shapes[..|shapes| - 1]) + Rows(shapes[|shapes| - 1], shapes[|shapes| - 1].y1 + 1)
  }

  lemma {:induction false} DabsCols(shapes: seq<Shape>)
    requires forall i :: 0 <= i < |shapes| ==> UnitCol(shapes[i].c)
    ensures UnitCols(Dabs(shapes))
  {
    if shapes != [] {
      DabsCols(shapes[..|shapes| - 1]);
      RowsCols(shapes[|shapes| - 1], shapes[|shapes| - 1].y1 + 1);
    }
  }

  lemma {:induction false} PaintedAppend(frame: seq<Word>, size: nat, a: seq<Dab>, b: seq<Dab>)
    requires |frame| == size * size && UnitCols(a) && UnitCols(b) && UnitCols(a + b)
    ensures PaintedAll(frame, size, a + b) == PaintedAll(PaintedAll(frame, size, a), size, b)
  {
    hide Painted;
    if b == [] {
      assert a + b == a;
    } else {
      assert (a + b)[..|a + b| - 1] == a + b[..|b| - 1];
      PaintedAppend(frame, size, a, b[..|b| - 1]);
    }
  }

  lemma NothingPainted(frame: seq<Word>, size: nat)
    requires |frame| == size * size
    ensures UnitCols([]) && PaintedAll(frame, size, []) == frame
  {
  }

  lemma PaintedSnoc(frame: seq<Word>, size: nat, dabs: seq<Dab>, d: Dab)
    requires |frame| == size * size && UnitCols(dabs) && UnitCols(dabs + [d]) && UnitCol(d.c)
    ensures PaintedAll(frame, size, dabs + [d]) == Painted(PaintedAll(frame, size, dabs), size, d)
  {
    assert (dabs + [d])[..|dabs|] == dabs;
  }

  method FillRow(buf: array<Word>, size: nat, s: Shape, y: int)
    requires buf.Length == size * size && UnitCol(s.c)
    modifies buf
    ensures UnitCols(Row(s, y, s.x1 + 1))
    ensures buf[..] == PaintedAll(old(buf[..]), size, Row(s, y, s.x1 + 1))
  {
    hide Painted, UnitCol, UnitCols, PaintedAll;
    NothingPainted(buf[..], size);
    ghost var was := buf[..];
    var x := s.x0;
    while x <= s.x1
      invariant s.x0 <= x && (x <= s.x1 + 1 || x == s.x0)
      invariant UnitCols(Row(s, y, x)) && buf[..] == PaintedAll(was, size, Row(s, y, x))
    {
      var d := DabAt(s, x, y);
      Blend(buf, size, d.x, d.y, d.c, d.a);
      assert Row(s, y, x + 1) == Row(s, y, x) + [d];
      RowCols(s, y, x + 1);
      PaintedSnoc(was, size, Row(s, y, x), d);
      x := x + 1;
    }
    assert Row(s, y, x) == Row(s, y, s.x1 + 1);
  }

  /** The loop of `disc`, `ring`, `glow` and `capsule`, and of the plate under a label. */
  method Fill(buf: array<Word>, size: nat, s: Shape)
    requires buf.Length == size * size && UnitCol(s.c)
    modifies buf
    ensures UnitCols(Rows(s, s.y1 + 1))
    ensures buf[..] == PaintedAll(old(buf[..]), size, Rows(s, s.y1 + 1))
  {
    hide Painted, UnitCol, UnitCols, PaintedAll;
    ghost var was := buf[..];
    RowsCols(s, s.y0);
    NothingPainted(was, size);
    var y := s.y0;
    while y <= s.y1
      invariant s.y0 <= y && (y <= s.y1 + 1 || y == s.y0)
      invariant UnitCols(Rows(s, y)) && buf[..] == PaintedAll(was, size, Rows(s, y))
    {
      FillRow(buf, size, s, y);
      RowsCols(s, y + 1);
      RowCols(s, y, s.x1 + 1);
      PaintedAppend(was, size, Rows(s, y), Row(s, y, s.x1 + 1));
      y := y + 1;
    }
    assert Rows(s, y) == Rows(s, s.y1 + 1);
  }

  /** A cleared buffer. */
  function Clear(size: nat): seq<Word> { seq(size * size, i => 0) }

  lemma ClearPremultiplied(size: nat)
    ensures AllPremultiplied(Clear(size))
  {
  }

  /** `avatar_rasterize`: the buffer is cleared, then the shapes are drawn one over the other. */
  method Rasterize(buf: array<Word>, size: nat, shapes: seq<Shape>)
    requires buf.Length == size * size && forall i :: 0 <= i < |shapes| ==> UnitCol(shapes[i].c)
    modifies buf
    ensures UnitCols(Dabs(shapes)) && buf[..] == PaintedAll(Clear(size), size, Dabs(shapes))
    ensures AllPremultiplied(buf[..])
  {
    hide Painted, UnitCol, UnitCols, PaintedAll, Premultiplied, Rows;
    for i := 0 to buf.Length
      invariant forall j :: 0 <= j < i ==> buf[j] == 0
    {
      buf[i] := 0;
    }
    assert buf[..] == Clear(size);
    NothingPainted(Clear(size), size);
    for i := 0 to |shapes|
      invariant UnitCols(Dabs(shapes[..i])) && buf[..] == PaintedAll(Clear(size), size, Dabs(shapes[..i]))
    {
      assert shapes[..i + 1][..i] == shapes[..i];
      Fill(buf, size, shapes[i]);
      DabsCols(shapes[..i + 1]);
      PaintedAppend(Clear(size), size, Dabs(shapes[..i]), Rows(shapes[i], shapes[i].y1 + 1));
    }
    assert shapes[..|shapes|] == shapes;
    ClearPremultiplied(size);
    PaintedAllKeeps(Clear(size), size, Dabs(shapes));
  }

  // ---------------------------------------------------------------- the dark plate

  /** What the plate adds to a channel: its colour `k` by what the pixel lets through, rounded. */
  function PlatePart(k: Byte, a: Byte): int { (k * (255 - a) + 127) / 255 }

  lemma PartAtMost(k: Byte, inv: Byte)
    ensures 0 <= k * inv <= 255 * inv
  {
  }

  lemma RoundedAtMost(m: int, inv: Byte)
    requires 0 <= m <= 255 * inv
    ensures 0 <= (m + 127) / 255 <= inv
  {
  }

  /** The sum stays a byte because the channel does not exceed the alpha byte. */
  lemma PlateFits(c: Byte, k: Byte, a: Byte)
    requires c <= a
    ensures 0 <= PlatePart(k, a) && c + PlatePart(k, a) <= 255
  {
    PartAtMost(k, 255 - a);
    RoundedAtMost(k * (255 - a), 255 - a);
  }

  /** It is the exact composite, rounded to the nearest byte. */
  lemma PlateRounds(k: Byte, a: Byte)
    ensures -127 <= 255 * PlatePart(k, a) - k * (255 - a) <= 127
  {
  }

  function Plated(p: Pixel): Pixel
    requires Premultiplied(p)
  {
    PlateFits(p.b, 0x17, p.a);
    PlateFits(p.g, 0x16, p.a);
    PlateFits(p.r, 0x16, p.a);
    Pixel(p.b + PlatePart(0x17, p.a), p.g + PlatePart(0x16, p.a), p.r + PlatePart(0x16, p.a), 255)
  }

  method Plate(buf: array<Word>)
    requires AllPremultiplied(buf[..])
    modifies buf
    ensures forall i :: 0 <= i < buf.Length ==>
              Premultiplied(Unpack(old(buf[..])[i])) && Unpack(buf[i]) == Plated(Unpack(old(buf[..])[i]))
  {
    hide Unpack, Pack, Premultiplied;
    ghost var was := buf[..];
    for i := 0 to buf.Length
      invariant forall j :: i <= j < buf.Length ==> buf[j] == was[j]
      invariant forall j :: 0 <= j < i ==> Premultiplied(Unpack(was[j])) && Unpack(buf[j]) == Plated(Unpack(was[j]))
    {
      var p := Unpack(buf[i]);
      assert buf[i] == was[i] && Premultiplied(Unpack(was[i]));
      PackUnpack(Plated(p));
      buf[i] := Pack(Plated(p));
    }
  }

  /** One frame of the window: for a visual without alpha the plate goes under whatever was drawn. */
  method Frame(buf: array<Word>, size: nat, shapes: seq<Shape>, argb: bool)
    requires buf.Length == size * size && forall i :: 0 <= i < |shapes| ==> UnitCol(shapes[i].c)
    modifies buf
    ensures UnitCols(Dabs(shapes))
    ensures argb ==> buf[..] == PaintedAll(Clear(size), size, Dabs(shapes))
    ensures !argb ==> forall i :: 0 <= i < size * size ==>
              var p := Unpack(PaintedAll(Clear(size), size, Dabs(shapes))[i]);
              Premultiplied(p) && Unpack(buf[i]) == Plated(p)
  {
    hide *;
    Rasterize(buf, size, shapes);
    if !argb { Plate(buf); }
  }
}
