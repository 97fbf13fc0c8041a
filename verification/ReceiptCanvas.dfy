// The pixel buffer the watermark is written into, and the loops that write and read
// it. Each is proved against the picture functions of ReceiptImages.

module ReceiptCanvas {
  import opened Sums
  import opened Int64
  import opened Radix
  import opened Options
  import opened Watermarks
  import opened WatermarkBits
  import opened ReceiptImages

  // The strip drawn with the first cells of the stream.
  function Striping(p: Picture, bits: seq<bool>): Picture {
    Picture(p.w, p.h + STRIP, (x: int, y: int) => Striped(p, bits, x, y))
  }

  predicate InCell(w: nat, j: nat, x: int, y: int)
    requires w >= CELL
  {
    CellX(w, j) <= x < CellX(w, j) + CELL && CellY(w, j) <= y < CellY(w, j) + CELL
  }

  // One more cell of the stream darkens exactly the points of that cell.
  lemma StripeStep(p: Picture, bits: seq<bool>, i: nat, x: nat, y: nat)
    requires p.w >= CELL && i < |bits| && x < p.w && p.h <= y
    ensures var was := Striped(p, bits[..i], x, y);
            var here := InCell(p.w, i, x, y - p.h);
            && (here ==> was == WHITE)
            && Striped(p, bits[..i + 1], x, y) == if bits[i] && here then DARK else was
  {
    if InCell(p.w, i, x, y - p.h) {
      CellPlace(p.w, i, x, y - p.h);
    } else if x / CELL < p.w / CELL {
      CellOwns(p.w, x, y - p.h);
    }
  }

  // What cell i of the stream, with its corner at (cx, cy), does to one point.
  ghost predicate Shaded(p: Picture, bits: seq<bool>, i: nat, cx: int, cy: int, x: int, y: int)
    requires i < |bits|
  {
    var was := Striped(p, bits[..i], x, y);
    var here := cx <= x < cx + CELL && cy <= y < cy + CELL;
    && (here ==> was == WHITE)
    && Striped(p, bits[..i + 1], x, y) == if bits[i] && here then DARK else was
  }

  lemma AllShaded(p: Picture, bits: seq<bool>, i: nat, cx: int, cy: int)
    requires p.w >= CELL && i < |bits| && cx == CellX(p.w, i) && cy == p.h + CellY(p.w, i)
    ensures forall x, y :: 0 <= x < p.w && 0 <= y < p.h + STRIP ==> Shaded(p, bits, i, cx, cy, x, y)
  {
    forall x, y | 0 <= x < p.w && 0 <= y < p.h + STRIP
      ensures Shaded(p, bits, i, cx, cy, x, y)
    {
      if p.h <= y {
        StripeStep(p, bits, i, x, y);
      }
    }
  }

  lemma SamePoint(w: nat, x: nat, y: nat, x1: nat, y1: nat)
    requires x < w && x1 < w && Point(w, x, y) == Point(w, x1, y1)
    ensures x == x1 && y == y1
  {
    DivisionUnique(y, w, x);
    DivisionUnique(y1, w, x1);
  }

  lemma PointInside(w: nat, h: nat, x: nat, y: nat)
    requires x < w && y < h
    ensures Point(w, x, y) < Point(w, 0, h)
  {
    ProductMonotone(y + 1, h, w);
  }

  lemma NextRow(w: nat, y: nat)
    ensures Point(w, w, y) == Point(w, 0, y + 1)
  {
  }

  lemma NextPoint(p: Picture, cx: int, y: int, row: seq<Pixel>, dx: nat)
    requires row == CellRow(p, cx, y) && dx < CELL
    ensures Sum(row[..dx + 1], LumaOf()) == Sum(row[..dx], LumaOf()) + p.Read(cx + dx, y).Luma()
  {
    SumNext(row, dx, LumaOf());
  }

  lemma BitsStep(bits: seq<bool>, i: nat)
    requires i < |bits|
    ensures bits[..i + 1] == bits[..i] + [bits[i]]
  {
  }

  lemma AreaAtLeast(w: nat, y: nat, h: nat)
    requires y <= h
    ensures Point(w, 0, y) <= Point(w, 0, h)
  {
    ProductMonotone(y, h, w);
  }

  // Reading on in row order appends one low bit.
  lemma LowBitAt(p: Picture, x: nat, y: nat)
    requires x < p.w
    ensures var k := Point(p.w, x, y); LowBits(p, k + 1) == LowBits(p, k) + [p.Read(x, y).r % 2 == 1]
  {
    DivisionUnique(y, p.w, x);
  }

  class Canvas {
    const w: nat
    const h: nat
    const px: array2<Pixel>

    predicate Valid() {
      px.Length0 == h && px.Length1 == w
    }

    ghost predicate Shows(p: Picture)
      requires Valid()
      reads px
    {
      && w == p.w && h == p.h
      && forall x, y :: 0 <= x < w && 0 <= y < h ==> px[y, x] == p.at(x, y)
    }

    constructor (width: nat, height: nat)
      ensures Valid() && fresh(px) && w == width && h == height
      ensures forall x, y :: 0 <= x < w && 0 <= y < h ==> px[y, x] == BLACK
    {
      w, h := width, height;
      px := new Pixel[height, width]((y, x) => BLACK);
    }

    function At(x: int, y: int): Pixel
      requires Valid()
      reads px
    {
      if 0 <= x < w && 0 <= y < h then px[y, x] else BLACK
    }

    // Writing outside of the image does nothing.
    method Set(x: int, y: int, c: Pixel)
      requires Valid()
      modifies px
      ensures forall x1, y1 :: 0 <= x1 < w && 0 <= y1 < h ==> px[y1, x1] == if x1 == x && y1 == y then c else old(px[y1, x1])
    {
      if 0 <= x < w && 0 <= y < h {
        px[y, x] := c;
      }
    }

    method DarkenCell(cx: int, cy: int)
      requires Valid()
      modifies px
      ensures forall x, y :: 0 <= x < w && 0 <= y < h ==>
                px[y, x] == if cx <= x < cx + CELL && cy <= y < cy + CELL then old(px[y, x]).Darkened() else old(px[y, x])
    {
      for y := cy to cy + CELL
        invariant forall x1, y1 :: 0 <= x1 < w && 0 <= y1 < h ==>
                    px[y1, x1] == if cx <= x1 < cx + CELL && cy <= y1 < y then old(px[y1, x1]).Darkened() else old(px[y1, x1])
      {
        for x := cx to cx + CELL
          invariant forall x1, y1 :: 0 <= x1 < w && 0 <= y1 < h ==>
                      px[y1, x1] == if (cx <= x1 < cx + CELL && cy <= y1 < y) || (cx <= x1 < x && y1 == y)
                                    then old(px[y1, x1]).Darkened() else old(px[y1, x1])
        {
          Set(x, y, At(x, y).Darkened());
        }
      }
    }

    // The receipt on top, a white strip below.
    method DrawReceipt(src: Canvas, ghost p: Picture)
      requires Valid() && src.Valid() && src.px != px && src.Shows(p) && w == src.w && h == src.h + STRIP
      modifies px
      ensures Shows(Striping(p, []))
    {
      for y := 0 to h
        invariant forall x1, y1 :: 0 <= x1 < w && 0 <= y1 < y ==> px[y1, x1] == Striped(p, [], x1, y1)
      {
        for x := 0 to w
          invariant forall x1, y1 :: 0 <= x1 < w && 0 <= y1 < y ==> px[y1, x1] == Striped(p, [], x1, y1)
          invariant forall x1 :: 0 <= x1 < x ==> px[y, x1] == Striped(p, [], x1, y)
        {
          px[y, x] := if y < src.h then src.px[y, x] else WHITE;
        }
      }
    }

    method DarkenBit(bits: seq<bool>, i: nat, cx: int, cy: int, ghost p: Picture)
      requires Valid() && i < |bits| && Shows(Striping(p, bits[..i]))
      requires forall x, y :: 0 <= x < w && 0 <= y < h ==> Shaded(p, bits, i, cx, cy, x, y)
      modifies px
      ensures Shows(Striping(p, bits[..i + 1]))
    {
      if bits[i] {
        DarkenCell(cx, cy);
      }
      forall x, y | 0 <= x < w && 0 <= y < h
        ensures px[y, x] == Striped(p, bits[..i + 1], x, y)
      {
        assert Shaded(p, bits, i, cx, cy, x, y);
      }
    }

    // One cell for every bit that is on.
    method DarkenStream(bits: seq<bool>, top: nat, ghost p: Picture)
      requires Valid() && top == p.h && Shows(Striping(p, []))
      requires |bits| <= w / CELL * (STRIP / CELL)
      modifies px
      ensures Shows(Striping(p, bits))
    {
      var perRow := w / CELL;
      assert bits[..0] == [];
      for i := 0 to |bits|
        invariant Shows(Striping(p, bits[..i]))
      {
        var cx, cy := i % perRow * CELL, top + i / perRow * CELL;
        AllShaded(p, bits, i, cx, cy);
        DarkenBit(bits, i, cx, cy, p);
      }
      assert bits[..|bits|] == bits;
    }

    method StampPoint(payload: Octets, x: nat, y: nat, bit: nat, ghost p: Picture, ghost bits: seq<bool>)
      requires Valid() && x < w && y < h && bit == Point(w, x, y) && bit < 8 * |payload|
      requires StampedUpTo(p, bits, payload, bit)
      modifies px
      ensures StampedUpTo(p, bits, payload, bit + 1)
    {
      StampOne(x, y, bit);
      DigitAt(Bits, payload[bit / 8], 8, 7 - bit % 8);
      var on := Bits.Last(Bits.Shift(payload[bit / 8], 7 - bit % 8)) == 1;
      px[y, x] := px[y, x].SetLow(on);
    }

    method SetLSB(payload: Octets, ghost p: Picture, ghost bits: seq<bool>)
      requires Valid() && Shows(Striping(p, bits))
      modifies px
      ensures forall x, y :: 0 <= x < w && 0 <= y < h ==>
                px[y, x] == Stamped(Striped(p, bits, x, y), payload, Point(w, x, y))
    {
      var n := 8 * |payload|;
      var bit := 0;
      var y := 0;
      while y < h && bit < n
        invariant 0 <= y <= h && 0 <= bit <= n
        invariant bit == n <= Point(w, 0, y) || bit == Point(w, 0, y)
        invariant StampedUpTo(p, bits, payload, bit)
      {
        var x := 0;
        while x < w && bit < n
          invariant 0 <= x <= w && 0 <= bit <= n
          invariant bit == n <= Point(w, x, y) || bit == Point(w, x, y)
          invariant StampedUpTo(p, bits, payload, bit)
        {
          StampPoint(payload, x, y, bit, p, bits);
          bit := bit + 1;
          x := x + 1;
        }
        NextRow(w, y);
        y := y + 1;
      }
      AllStamped(p, bits, payload, bit);
    }

    lemma AllStamped(p: Picture, bits: seq<bool>, payload: Octets, bit: nat)
      requires Valid() && StampedUpTo(p, bits, payload, bit) && (bit == 8 * |payload| || bit == Point(w, 0, h))
      ensures forall x, y :: 0 <= x < w && 0 <= y < h ==>
                px[y, x] == Stamped(Striped(p, bits, x, y), payload, Point(w, x, y))
    {
      forall x, y | 0 <= x < w && 0 <= y < h
        ensures px[y, x] == Stamped(Striped(p, bits, x, y), payload, Point(w, x, y))
      {
        PointInside(w, h, x, y);
      }
    }

    // The first points, up to this many, carry their bit.
    ghost predicate StampedUpTo(p: Picture, bits: seq<bool>, payload: Octets, bit: nat)
      requires Valid()
      reads px
    {
      forall x, y :: 0 <= x < w && 0 <= y < h ==>
        px[y, x] == if Point(w, x, y) < bit then Stamped(Striped(p, bits, x, y), payload, Point(w, x, y)) else Striped(p, bits, x, y)
    }

    lemma StampOne(x: nat, y: nat, bit: nat)
      requires Valid() && x < w && y < h && bit == Point(w, x, y)
      ensures forall x1, y1 :: 0 <= x1 < w && 0 <= y1 < h && (x1 != x || y1 != y) ==> (Point(w, x1, y1) < bit + 1 <==> Point(w, x1, y1) < bit)
    {
      forall x1, y1 | 0 <= x1 < w && 0 <= y1 < h && (x1 != x || y1 != y)
        ensures Point(w, x1, y1) != bit
      {
        if Point(w, x1, y1) == bit {
          SamePoint(w, x1, y1, x, y);
        }
      }
    }

    // ---- reading ----

    // img.At(x, y), weighted.
    method LumaAt(x: int, y: int, ghost p: Picture) returns (luma: nat)
      requires Valid() && Shows(p)
      ensures luma == p.Read(x, y).Luma()
    {
      luma := At(x, y).Luma();
    }

    method SumRow(cx: int, y: int, ghost p: Picture) returns (sum: int)
      requires Valid() && Shows(p)
      ensures sum == RowLuma(p, cx, y)
    {
      ghost var row := CellRow(p, cx, y);
      sum := 0;
      for dx := 0 to CELL
        invariant sum == Sum(row[..dx], LumaOf())
      {
        NextPoint(p, cx, y, row, dx);
        var luma := LumaAt(cx + dx, y, p);
        sum := sum + luma;
      }
      assert row[..CELL] == row;
    }

    method AverageLuma(cx: int, cy: int, ghost p: Picture) returns (luma: int)
      requires Valid() && Shows(p)
      ensures luma == CellLuma(p, cx, cy)
    {
      var sum, n := 0, 0;
      ghost var rows := RowLumas(p, cx, cy);
      for dy := 0 to CELL
        invariant n == CELL * dy && sum == Sum(rows[..dy], Itself())
      {
        var row := SumRow(cx, cy + dy, p);
        SumNext(rows, dy, Itself());
        assert rows[dy] == row;
        sum := sum + row;
        n := n + CELL;
      }
      assert rows[..CELL] == rows;
      luma := sum / n / 1000;
    }

    // Cell j of the strip, dark or not.
    method DarkAt(j: nat, ghost p: Picture) returns (dark: bool)
      requires Valid() && Shows(p) && w >= CELL
      ensures dark == ReadsDark(StripOf(p), j)
    {
      var perRow := w / CELL;
      var luma := AverageLuma(j % perRow * CELL, (h - STRIP) + j / perRow * CELL, p);
      dark := luma < THRESHOLD;
    }

    method CountDark(i: nat, ghost p: Picture) returns (darks: nat)
      requires Valid() && Shows(p) && w >= CELL
      ensures darks >= 2 <==> ReadsBit(StripOf(p), i)
    {
      darks := 0;
      ghost var strip := StripOf(p);
      for v := 0 to 3
        invariant darks == (if v > 0 then Vote(ReadsDark(strip, 3 * i)) else 0) + (if v > 1 then Vote(ReadsDark(strip, 3 * i + 1)) else 0)
                           + (if v > 2 then Vote(ReadsDark(strip, 3 * i + 2)) else 0)
      {
        var dark := DarkAt(i * 3 + v, p);
        if dark {
          darks := darks + 1;
        }
      }
    }

    method ExtractBlockLayer(mac: Mac, ghost p: Picture) returns (found: Option<Watermark>)
      requires Valid() && Shows(p)
      ensures found == ExtractBlock(mac, p)
    {
      if h < STRIP || w / CELL * (STRIP / CELL) < STREAM_BITS {
        return None;
      }
      var raw := ReadBlock(p);
      found := Decode(mac, raw);
    }

    // A bit per triple of cells, a byte per eight bits.
    method ReadBlock(ghost p: Picture) returns (raw: Octets)
      requires Valid() && Shows(p) && w >= CELL
      ensures raw == Pack(BlockBits(StripOf(p)))
    {
      ghost var bits := BlockBits(StripOf(p));
      var acc, nbits := 0, 0;
      raw := [];
      assert bits[..0] == [];
      for i := 0 to STREAM_BITS
        invariant Packing(bits[..i], raw, acc, nbits)
      {
        var darks := CountDark(i, p);
        BitsStep(bits, i);
        raw, acc, nbits := PushBit(raw, acc, nbits, darks >= 2, bits[..i]);
      }
      assert bits[..STREAM_BITS] == bits;
    }

    // k bits are read: all of a payload, or one for each of the first points.
    ghost predicate ReadUpTo(p: Picture, points: nat, k: nat, raw: Octets, acc: nat, nbits: nat)
      requires p.w > 0
    {
      && Packing(LowBits(p, k), raw, acc, nbits) && k <= STREAM_BITS
      && (k == points || (k == STREAM_BITS && k <= points))
    }

    method ReadPoint(x: nat, y: nat, raw: Octets, acc: nat, nbits: nat, ghost p: Picture, ghost k: nat)
        returns (raw1: Octets, acc1: nat, nbits1: nat)
      requires Valid() && Shows(p) && x < w && y < h && |raw| < PAYLOAD_LEN
      requires ReadUpTo(p, Point(w, 0, y) + x, k, raw, acc, nbits)
      ensures ReadUpTo(p, Point(w, 0, y) + x + 1, k + 1, raw1, acc1, nbits1)
    {
      LowBitAt(p, x, y);
      raw1, acc1, nbits1 := PushBit(raw, acc, nbits, At(x, y).r % 2 == 1, LowBits(p, k));
    }

    method ReadRow(y: nat, raw: Octets, acc: nat, nbits: nat, ghost p: Picture, ghost k: nat)
        returns (raw1: Octets, acc1: nat, nbits1: nat, ghost k1: nat)
      requires Valid() && Shows(p) && w > 0 && y < h && ReadUpTo(p, Point(w, 0, y), k, raw, acc, nbits)
      ensures ReadUpTo(p, Point(w, 0, y + 1), k1, raw1, acc1, nbits1)
    {
      raw1, acc1, nbits1, k1 := raw, acc, nbits, k;
      ghost var start := Point(w, 0, y);
      NextRow(w, y);
      var x := 0;
      while x < w && |raw1| < PAYLOAD_LEN
        invariant 0 <= x <= w && ReadUpTo(p, start + x, k1, raw1, acc1, nbits1)
      {
        raw1, acc1, nbits1 := ReadPoint(x, y, raw1, acc1, nbits1, p, k1);
        k1, x := k1 + 1, x + 1;
      }
      RowRead(p, start + x, start + w, k1, raw1, acc1, nbits1);
    }

    // A row is over at its end, or early with a whole payload.
    lemma RowRead(p: Picture, points: nat, end: nat, k: nat, raw: Octets, acc: nat, nbits: nat)
      requires p.w > 0 && points <= end && ReadUpTo(p, points, k, raw, acc, nbits) && (points < end ==> |raw| >= PAYLOAD_LEN)
      ensures ReadUpTo(p, end, k, raw, acc, nbits)
    {
    }

    // One bit a point, row by row, until a whole payload is read.
    method ReadLowBits(ghost p: Picture) returns (raw: Octets)
      requires Valid() && Shows(p) && w > 0
      ensures raw == Pack(LowBits(p, if Area(p) < STREAM_BITS then Area(p) else STREAM_BITS))
    {
      var acc, nbits, y := 0, 0, 0;
      raw := [];
      ghost var k := 0;
      assert LowBits(p, 0) == [];
      while y < h && |raw| < PAYLOAD_LEN
        invariant 0 <= y <= h && ReadUpTo(p, Point(w, 0, y), k, raw, acc, nbits)
      {
        raw, acc, nbits, k := ReadRow(y, raw, acc, nbits, p, k);
        y := y + 1;
      }
      AreaAtLeast(w, y, h);
    }

    method ExtractLSBLayer(mac: Mac, ghost p: Picture) returns (found: Option<Watermark>)
      requires Valid() && Shows(p)
      ensures found == ExtractLow(mac, p)
    {
      var raw: Octets := [];
      if w > 0 {
        raw := ReadLowBits(p);
      }
      found := Decode(mac, raw);
    }

    method VerifyReceipt(mac: Mac, ghost p: Picture) returns (found: Option<(Watermark, Layer)>)
      requires Valid() && Shows(p)
      ensures found == Verify(mac, p)
    {
      var block := ExtractBlockLayer(mac, p);
      if block.Some? {
        return Some((block.value, Block));
      }
      var low := ExtractLSBLayer(mac, p);
      found := if low.Some? then Some((low.value, Lsb)) else None;
    }
  }

  // The receipt with its strip, then the block layer, then the low bits.
  method EmbedWatermark(src: Canvas, payload: Octets, ghost p: Picture) returns (out: Canvas)
    requires src.Valid() && src.Shows(p)
    ensures fresh(out) && fresh(out.px) && out.Valid() && out.Shows(Marked(p, payload))
  {
    out := new Canvas(src.w, src.h + STRIP);
    out.DrawReceipt(src, p);
    var capacity := src.w / CELL * (STRIP / CELL);
    var full := PayloadBitsTripled(payload);
    if capacity < |full| {
      full := full[..capacity - capacity % 3];
    }
    out.DarkenStream(full, src.h, p);
    out.SetLSB(payload, p, full);
    assert full == KeptBits(p.w, payload);
  }
}
