// The two layers a watermark is written in, and what an extractor reads back from
// an image: exact low bits in the first pixels, and darkened cells in a white strip
// below the receipt.

module ReceiptImages {
  import opened Sums
  import opened Int64
  import opened Radix
  import opened Options
  import opened Watermarks
  import opened WatermarkBits

  datatype Pixel = Pixel(r: Byte, g: Byte, b: Byte) {
    // Luminance in thousandths.
    function Luma(): nat {
      r * 299 + g * 587 + b * 114
    }

    function SetLow(on: bool): Pixel {
      this.(r := if on then r / 2 * 2 + 1 else r / 2 * 2)
    }

    // Three percent towards gray.
    function Darkened(): Pixel {
      Pixel(r * 248 / 255, g * 248 / 255, b * 248 / 255)
    }
  }

  const WHITE := Pixel(255, 255, 255)
  const DARK := Pixel(248, 248, 248)
  const BLACK := Pixel(0, 0, 0)

  const STRIP := 60
  const CELL := 6
  const STREAM_BITS := 296
  const THRESHOLD := 251

  // A picture by coordinates; reading outside of it yields black.
  datatype Picture = Picture(w: nat, h: nat, at: (int, int) -> Pixel) {
    function Read(x: int, y: int): Pixel {
      if 0 <= x < w && 0 <= y < h then at(x, y) else BLACK
    }
  }

  // ---- writing ----

  // How many cells of the stream fit in the strip, in whole triples.
  function Kept(w: nat, cells: nat): nat {
    var capacity := w / CELL * (STRIP / CELL);
    if capacity < cells then capacity - capacity % 3 else cells
  }

  // Cell of the strip that holds the point (x, y), counted row by row.
  function CellAt(w: nat, x: nat, y: nat): nat {
    y / CELL * (w / CELL) + x / CELL
  }

  predicate InDarkCell(w: nat, bits: seq<bool>, x: nat, y: nat) {
    x / CELL < w / CELL && CellAt(w, x, y) < |bits| && bits[CellAt(w, x, y)]
  }

  function KeptBits(w: nat, payload: Octets): seq<bool> {
    Tripled(payload)[..Kept(w, |Tripled(payload)|)]
  }

  // Receipt and strip before the low bits are written.
  function Striped(p: Picture, bits: seq<bool>, x: int, y: int): Pixel {
    if x < 0 || y < 0 then BLACK
    else if y < p.h then p.Read(x, y)
    else if InDarkCell(p.w, bits, x, y - p.h) then DARK
    else WHITE
  }

  function Point(w: nat, x: nat, y: nat): nat {
    y * w + x
  }

  function Stamped(px: Pixel, payload: Octets, k: nat): Pixel {
    if k < 8 * |payload| then px.SetLow(Bit(payload, k)) else px
  }

  function MarkedPixel(p: Picture, payload: Octets, x: int, y: int): Pixel {
    var px := Striped(p, KeptBits(p.w, payload), x, y);
    if x < 0 || y < 0 then px else Stamped(px, payload, Point(p.w, x, y))
  }

  function Marked(p: Picture, payload: Octets): Picture {
    Picture(p.w, p.h + STRIP, (x: int, y: int) => MarkedPixel(p, payload, x, y))
  }

  // ---- reading ----

  // One row of a cell.
  function CellRow(p: Picture, cx: int, y: int): (row: seq<Pixel>)
    ensures |row| == CELL
  {
    seq(CELL, i requires 0 <= i < CELL => p.Read(cx + i, y))
  }

  function LumaOf(): Pixel -> int { (px: Pixel) => px.Luma() }

  function RowLuma(p: Picture, cx: int, y: int): int {
    Sum(CellRow(p, cx, y), LumaOf())
  }

  function RowLumas(p: Picture, cx: int, cy: int): (rows: seq<int>)
    ensures |rows| == CELL
  {
    seq(CELL, i requires 0 <= i < CELL => RowLuma(p, cx, cy + i))
  }

  function Itself(): int -> int { (v: int) => v }

  // Average luminance of a cell, truncated twice as the extractor does.
  function CellLuma(p: Picture, cx: int, cy: int): int {
    Sum(RowLumas(p, cx, cy), Itself()) / (CELL * CELL) / 1000
  }

  function CellX(w: nat, j: nat): nat
    requires w >= CELL
  {
    j % (w / CELL) * CELL
  }

  function CellY(w: nat, j: nat): nat
    requires w >= CELL
  {
    j / (w / CELL) * CELL
  }

  // Average luminance of cell j of the bottom strip.
  function StripLuma(p: Picture, j: nat): int {
    if p.w < CELL then 0 else CellLuma(p, CellX(p.w, j), p.h - STRIP + CellY(p.w, j))
  }

  // The strip as the sequence of luminances its cells have.
  function StripOf(p: Picture): nat -> int { (j: nat) => StripLuma(p, j) }

  predicate ReadsDark(strip: nat -> int, j: nat) {
    strip(j) < THRESHOLD
  }

  function Vote(on: bool): nat {
    if on then 1 else 0
  }

  predicate Majority(a: bool, b: bool, c: bool) {
    Vote(a) + Vote(b) + Vote(c) >= 2
  }

  predicate ReadsBit(strip: nat -> int, i: nat) {
    Majority(ReadsDark(strip, 3 * i), ReadsDark(strip, 3 * i + 1), ReadsDark(strip, 3 * i + 2))
  }

  function BlockBits(strip: nat -> int): (bits: seq<bool>)
    ensures |bits| == STREAM_BITS
  {
    seq(STREAM_BITS, i requires 0 <= i < STREAM_BITS => ReadsBit(strip, i))
  }

  // The guard asks for one cell a bit, not for the three the stream takes.
  predicate StripReadable(p: Picture) {
    p.h >= STRIP && STREAM_BITS <= p.w / CELL * (STRIP / CELL)
  }

  function ExtractBlock(mac: Mac, p: Picture): Option<Watermark> {
    if !StripReadable(p) then None else Decode(mac, Pack(BlockBits(StripOf(p))))
  }

  predicate LowBit(p: Picture, k: nat)
    requires p.w > 0
  {
    p.Read(k % p.w, k / p.w).r % 2 == 1
  }

  function LowBits(p: Picture, n: nat): (bits: seq<bool>)
    requires p.w > 0
    ensures |bits| == n
  {
    seq(n, k requires 0 <= k < n => LowBit(p, k))
  }

  function Area(p: Picture): nat {
    Point(p.w, 0, p.h)
  }

  function ExtractLow(mac: Mac, p: Picture): Option<Watermark> {
    if p.w == 0 then Decode(mac, [])
    else Decode(mac, Pack(LowBits(p, if Area(p) < STREAM_BITS then Area(p) else STREAM_BITS)))
  }

  datatype Layer = Block | Lsb

  // The block layer survives more, so it is tried first.
  function Verify(mac: Mac, p: Picture): Option<(Watermark, Layer)> {
    match ExtractBlock(mac, p)
    case Some(w) => Some((w, Block))
    case None => match ExtractLow(mac, p) case Some(w) => Some((w, Lsb)) case None => None
  }

  // ---- where cell j lies ----

  lemma CellPlace(w: nat, j: nat, x: nat, y: nat)
    requires w >= CELL && CellX(w, j) <= x < CellX(w, j) + CELL && CellY(w, j) <= y < CellY(w, j) + CELL
    ensures x / CELL < w / CELL && x < w && CellAt(w, x, y) == j
  {
    var c := w / CELL;
    assert x / CELL == j % c && y / CELL == j / c;
    assert j == j / c * c + j % c;
  }

  lemma DivisionUnique(q: nat, c: nat, r: nat)
    requires r < c
    ensures (q * c + r) / c == q && (q * c + r) % c == r
  {
    var v := q * c + r;
    var q1 := v / c;
    assert v == q1 * c + v % c;
    assert (q1 - q) * c == r - v % c;
    SmallMultiple(q1 - q, c);
  }

  // Conversely, the point belongs to no other cell.
  lemma CellOwns(w: nat, x: nat, y: nat)
    requires x / CELL < w / CELL
    ensures var j := CellAt(w, x, y); CellX(w, j) <= x < CellX(w, j) + CELL && CellY(w, j) <= y < CellY(w, j) + CELL
  {
    DivisionUnique(y / CELL, w / CELL, x / CELL);
  }

  lemma CellInStrip(w: nat, j: nat)
    requires w >= CELL
    ensures CellY(w, j) + CELL <= STRIP <==> j < w / CELL * (STRIP / CELL)
    ensures CellY(w, j) >= STRIP <==> j >= w / CELL * (STRIP / CELL)
  {
    var c := w / CELL;
    assert j == j / c * c + j % c;
    if j / c <= 9 {
      assert j / c * c <= 9 * c;
    } else {
      assert j / c * c >= 10 * c;
    }
  }

  // ---- luminance of a cell ----

  predicate Within(p: Picture, cx: int, cy: int, lo: nat, hi: nat) {
    forall x, y :: cx <= x < cx + CELL && cy <= y < cy + CELL ==> lo <= p.Read(x, y).Luma() <= hi
  }

  lemma {:induction false} SumWithin<T>(xs: seq<T>, f: T -> int, lo: int, hi: int)
    requires forall i :: 0 <= i < |xs| ==> lo <= f(xs[i]) <= hi
    ensures |xs| * lo <= Sum(xs, f) <= |xs| * hi
  {
    if xs != [] {
      var n := |xs| - 1;
      SumWithin(xs[..n], f, lo, hi);
      assert (n + 1) * lo == n * lo + lo && (n + 1) * hi == n * hi + hi;
    }
  }

  lemma RowWithin(p: Picture, cx: int, cy: int, lo: nat, hi: nat, y: int)
    requires Within(p, cx, cy, lo, hi) && cy <= y < cy + CELL
    ensures CELL * lo <= RowLuma(p, cx, y) <= CELL * hi
  {
    SumWithin(CellRow(p, cx, y), LumaOf(), lo, hi);
  }

  lemma LumaWithin(p: Picture, cx: int, cy: int, lo: nat, hi: nat)
    requires Within(p, cx, cy, lo, hi)
    ensures lo / 1000 <= CellLuma(p, cx, cy) <= hi / 1000
  {
    var rows := RowLumas(p, cx, cy);
    forall i | 0 <= i < |rows|
      ensures CELL * lo <= Itself()(rows[i]) <= CELL * hi
    {
      RowWithin(p, cx, cy, lo, hi, cy + i);
    }
    SumWithin(rows, Itself(), CELL * lo, CELL * hi);
    var average := Sum(rows, Itself()) / (CELL * CELL);
    assert lo <= average <= hi;
  }

  // ---- what the cells of a marked image look like ----

  predicate CellOn(w: nat, payload: Octets, j: nat) {
    j < |KeptBits(w, payload)| && KeptBits(w, payload)[j]
  }

  lemma KeptBit(w: nat, payload: Octets, i: nat, j: nat)
    requires j < |KeptBits(w, payload)| && 3 * i <= j < 3 * i + 3
    ensures i < 8 * |payload| && CellOn(w, payload, j) == Bit(payload, i)
  {
  }

  lemma CellPixel(p: Picture, payload: Octets, j: nat, x: nat, y: nat)
    requires p.w >= CELL && j < p.w / CELL * (STRIP / CELL)
    requires CellX(p.w, j) <= x < CellX(p.w, j) + CELL && CellY(p.w, j) <= y < CellY(p.w, j) + CELL
    ensures Marked(p, payload).Read(x, p.h + y)
            == Stamped(if CellOn(p.w, payload, j) then DARK else WHITE, payload, Point(p.w, x, p.h + y))
  {
    CellPlace(p.w, j, x, y);
    CellInStrip(p.w, j);
  }

  // Whatever point of the stream it carries, a stamped cell pixel stays this close.
  lemma StampedLuma(px: Pixel, payload: Octets)
    requires px == DARK || px == WHITE
    ensures forall k: nat :: var v := Stamped(px, payload, k).Luma();
              if px == DARK then 248000 <= v <= 248299 else 254701 <= v <= 255000
  {
  }

  lemma CellPointLuma(p: Picture, payload: Octets, j: nat, x: nat, y: nat)
    requires p.w >= CELL && j < p.w / CELL * (STRIP / CELL) && y >= p.h
    requires CellX(p.w, j) <= x < CellX(p.w, j) + CELL && p.h + CellY(p.w, j) <= y < p.h + CellY(p.w, j) + CELL
    ensures var v := Marked(p, payload).Read(x, y).Luma();
            if CellOn(p.w, payload, j) then 248000 <= v <= 248299 else 254701 <= v <= 255000
  {
    var px := if CellOn(p.w, payload, j) then DARK else WHITE;
    CellPixel(p, payload, j, x, y - p.h);
    StampedLuma(px, payload);
  }

  lemma MarkedWithin(p: Picture, payload: Octets, j: nat, cx: nat, cy: nat, lo: nat, hi: nat)
    requires p.w >= CELL && j < p.w / CELL * (STRIP / CELL) && cx == CellX(p.w, j) && cy == p.h + CellY(p.w, j)
    requires if CellOn(p.w, payload, j) then lo == 248000 && hi == 248299 else lo == 254701 && hi == 255000
    ensures Within(Marked(p, payload), cx, cy, lo, hi)
  {
    forall x, y | cx <= x < cx + CELL && cy <= y < cy + CELL
      ensures lo <= Marked(p, payload).Read(x, y).Luma() <= hi
    {
      CellPointLuma(p, payload, j, x, y);
    }
  }

  // Low bits shift a pixel by less than the gap between a dark and a white cell.
  lemma MarkedLuma(p: Picture, payload: Octets, j: nat)
    requires p.w >= CELL && j < p.w / CELL * (STRIP / CELL)
    ensures var v := StripLuma(Marked(p, payload), j); if CellOn(p.w, payload, j) then v == 248 else v >= 254
  {
    var cx, cy := CellX(p.w, j), p.h + CellY(p.w, j);
    if CellOn(p.w, payload, j) {
      MarkedWithin(p, payload, j, cx, cy, 248000, 248299);
      LumaWithin(Marked(p, payload), cx, cy, 248000, 248299);
    } else {
      MarkedWithin(p, payload, j, cx, cy, 254701, 255000);
      LumaWithin(Marked(p, payload), cx, cy, 254701, 255000);
    }
  }

  lemma RowsBelow(y: nat, w: nat)
    requires y >= 1
    ensures y * w >= w
  {
  }

  // Under at least one row of receipt, a wide strip carries no low bits.
  lemma PlainLuma(p: Picture, payload: Octets, j: nat)
    requires p.w >= CELL && p.h >= 1 && p.w >= 8 * |payload| && j < p.w / CELL * (STRIP / CELL)
    ensures StripLuma(Marked(p, payload), j) == if CellOn(p.w, payload, j) then 248 else 255
  {
    var m := Marked(p, payload);
    var cx, cy := CellX(p.w, j), p.h + CellY(p.w, j);
    var v := if CellOn(p.w, payload, j) then 248000 else 255000;
    forall x, y | cx <= x < cx + CELL && cy <= y < cy + CELL
      ensures v <= m.Read(x, y).Luma() <= v
    {
      CellPixel(p, payload, j, x, y - p.h);
      RowsBelow(y, p.w);
    }
    LumaWithin(m, cx, cy, v, v);
  }

  lemma BelowImage(p: Picture, cx: int, cy: int)
    requires cy >= p.h
    ensures CellLuma(p, cx, cy) == 0
  {
    forall x, y | cx <= x < cx + CELL && cy <= y < cy + CELL
      ensures 0 <= p.Read(x, y).Luma() <= 0
    {
    }
    LumaWithin(p, cx, cy, 0, 0);
  }

  // Cells past the strip lie outside the image and read black.
  lemma OutsideLuma(p: Picture, j: nat)
    requires p.w >= CELL && p.h >= STRIP && j >= p.w / CELL * (STRIP / CELL)
    ensures StripLuma(p, j) == 0
  {
    CellInStrip(p.w, j);
    BelowImage(p, CellX(p.w, j), p.h - STRIP + CellY(p.w, j));
  }

  // ---- error correction ----

  // Cell j, which should carry bit i, is misread.
  predicate Misread(strip: nat -> int, payload: Octets, i: nat, j: nat)
    requires i < 8 * |payload|
  {
    ReadsDark(strip, j) != Bit(payload, i)
  }

  // At most one cell of the triple is misread.
  predicate Correctable(strip: nat -> int, payload: Octets, i: nat)
    requires i < 8 * |payload|
  {
    Vote(Misread(strip, payload, i, 3 * i)) + Vote(Misread(strip, payload, i, 3 * i + 1)) + Vote(Misread(strip, payload, i, 3 * i + 2)) <= 1
  }

  // Three-fold repetition recovers the payload exactly when no triple has two
  // misread cells, whatever happened to the strip.
  lemma RecoversIff(strip: nat -> int, payload: Octets)
    requires |payload| == PAYLOAD_LEN
    ensures Pack(BlockBits(strip)) == payload <==> forall i :: 0 <= i < STREAM_BITS ==> Correctable(strip, payload, i)
  {
    forall i | 0 <= i < STREAM_BITS
      ensures BlockBits(strip)[i] == Bit(payload, i) <==> Correctable(strip, payload, i)
    {
    }
    PackIsPayload(BlockBits(strip), payload);
  }

  lemma BlockDecodes(mac: Mac, seen: Picture, w: Watermark)
    requires StripReadable(seen)
    requires forall i :: 0 <= i < STREAM_BITS ==> Correctable(StripOf(seen), Payload(mac, w), i)
    ensures ExtractBlock(mac, seen) == Some(w)
  {
    RecoversIff(StripOf(seen), Payload(mac, w));
    DecodesPayload(mac, w, []);
    assert Payload(mac, w) + [] == Payload(mac, w);
  }

  // ---- main results ----

  // Width at which the strip holds the whole stream.
  lemma WideEnough(w: nat)
    ensures Kept(w, 3 * STREAM_BITS) == 3 * STREAM_BITS <==> w >= 534
  {
  }

  lemma CleanCell(p: Picture, payload: Octets, i: nat, j: nat)
    requires p.w >= 534 && |payload| == PAYLOAD_LEN && i < STREAM_BITS && 3 * i <= j < 3 * i + 3
    ensures !Misread(StripOf(Marked(p, payload)), payload, i, j)
  {
    WideEnough(p.w);
    KeptBit(p.w, payload, i, j);
    MarkedLuma(p, payload, j);
  }

  // Any receipt at least 534 pixels wide: the block layer gives the fields back.
  lemma BlockRoundTrip(mac: Mac, p: Picture, w: Watermark)
    requires p.w >= 534
    ensures ExtractBlock(mac, Marked(p, Payload(mac, w))) == Some(w)
  {
    var payload := Payload(mac, w);
    var m := Marked(p, payload);
    forall i | 0 <= i < STREAM_BITS
      ensures Correctable(StripOf(m), payload, i)
    {
      forall j | 3 * i <= j < 3 * i + 3
        ensures !Misread(StripOf(m), payload, i, j)
      {
        CleanCell(p, payload, i, j);
      }
    }
    BlockDecodes(mac, m, w);
  }

  // Cell j came through a lossy copy: white darkened by at most 4, or dark
  // brightened by at most 2.
  predicate Preserved(sent: nat -> int, seen: nat -> int, j: nat) {
    if ReadsDark(sent, j) then seen(j) <= sent(j) + 2 else seen(j) >= sent(j) - 4
  }

  predicate MostlyPreserved(sent: nat -> int, seen: nat -> int, i: nat) {
    Majority(Preserved(sent, seen, 3 * i), Preserved(sent, seen, 3 * i + 1), Preserved(sent, seen, 3 * i + 2))
  }

  // The strip of a marked image: 248 for a bit that is on, 255 for one that is off.
  predicate Exact(sent: nat -> int, payload: Octets)
    requires |payload| == PAYLOAD_LEN
  {
    forall i: nat, j: nat :: i < STREAM_BITS && 3 * i <= j < 3 * i + 3 ==> sent(j) == if Bit(payload, i) then 248 else 255
  }

  lemma MarkedExact(p: Picture, payload: Octets)
    requires p.w >= 534 && p.h >= 1 && |payload| == PAYLOAD_LEN
    ensures Exact(StripOf(Marked(p, payload)), payload)
  {
    var sent := StripOf(Marked(p, payload));
    WideEnough(p.w);
    forall i: nat, j: nat | i < STREAM_BITS && 3 * i <= j < 3 * i + 3
      ensures sent(j) == if Bit(payload, i) then 248 else 255
    {
      KeptBit(p.w, payload, i, j);
      PlainLuma(p, payload, j);
    }
  }

  lemma PreservedReads(sent: nat -> int, seen: nat -> int, payload: Octets, i: nat)
    requires |payload| == PAYLOAD_LEN && Exact(sent, payload) && i < STREAM_BITS && MostlyPreserved(sent, seen, i)
    ensures Correctable(seen, payload, i)
  {
    forall j: nat | 3 * i <= j < 3 * i + 3
      ensures Preserved(sent, seen, j) ==> !Misread(seen, payload, i, j)
    {
      assert sent(j) == if Bit(payload, i) then 248 else 255;
    }
  }

  // A lossy copy in which two cells of every triple keep within those margins.
  lemma BlockSurvives(mac: Mac, p: Picture, w: Watermark, seen: Picture)
    requires p.w >= 534 && p.h >= 1
    requires seen.w == p.w && seen.h == p.h + STRIP
    requires forall i :: 0 <= i < STREAM_BITS ==> MostlyPreserved(StripOf(Marked(p, Payload(mac, w))), StripOf(seen), i)
    ensures ExtractBlock(mac, seen) == Some(w)
  {
    var payload := Payload(mac, w);
    MarkedExact(p, payload);
    forall i | 0 <= i < STREAM_BITS
      ensures Correctable(StripOf(seen), payload, i)
    {
      PreservedReads(StripOf(Marked(p, payload)), StripOf(seen), payload, i);
    }
    BlockDecodes(mac, seen, w);
  }

  // What the extractor makes of the part of the stream a narrow strip lacks: cells
  // past the strip vote dark, the one or two spare cells in it vote white.
  predicate Phantom(w: nat, i: nat) {
    var capacity := w / CELL * (STRIP / CELL);
    !(3 * i == capacity - capacity % 3 && capacity % 3 == 2)
  }

  lemma NarrowCell(p: Picture, payload: Octets, i: nat, j: nat)
    requires CELL <= p.w && |payload| == PAYLOAD_LEN && i < STREAM_BITS && 3 * i <= j < 3 * i + 3
    ensures ReadsDark(StripOf(Marked(p, payload)), j)
            == if j < Kept(p.w, 3 * STREAM_BITS) then Bit(payload, i) else j >= p.w / CELL * (STRIP / CELL)
  {
    if j < Kept(p.w, 3 * STREAM_BITS) {
      KeptBit(p.w, payload, i, j);
      MarkedLuma(p, payload, j);
    } else if j < p.w / CELL * (STRIP / CELL) {
      MarkedLuma(p, payload, j);
    } else {
      OutsideLuma(Marked(p, payload), j);
    }
  }

  lemma NarrowVote(capacity: nat, kept: nat, i: nat, bit: bool, a: bool, b: bool, c: bool)
    requires kept == capacity - capacity % 3
    requires a == if 3 * i < kept then bit else 3 * i >= capacity
    requires b == if 3 * i + 1 < kept then bit else 3 * i + 1 >= capacity
    requires c == if 3 * i + 2 < kept then bit else 3 * i + 2 >= capacity
    ensures Majority(a, b, c) == if 3 * i < kept then bit else !(3 * i == kept && capacity % 3 == 2)
  {
  }

  lemma NarrowReads(p: Picture, payload: Octets, i: nat)
    requires CELL <= p.w < 534 && |payload| == PAYLOAD_LEN && i < STREAM_BITS
    ensures ReadsBit(StripOf(Marked(p, payload)), i) == if 3 * i < Kept(p.w, 3 * STREAM_BITS) then Bit(payload, i) else Phantom(p.w, i)
  {
    var strip := StripOf(Marked(p, payload));
    var kept := Kept(p.w, 3 * STREAM_BITS);
    NarrowCell(p, payload, i, 3 * i);
    NarrowCell(p, payload, i, 3 * i + 1);
    NarrowCell(p, payload, i, 3 * i + 2);
    WideEnough(p.w);
    NarrowVote(p.w / CELL * (STRIP / CELL), kept, i, Bit(payload, i), ReadsDark(strip, 3 * i), ReadsDark(strip, 3 * i + 1), ReadsDark(strip, 3 * i + 2));
  }

  // A strip the guard lets through but that is too narrow for the stream: the block
  // layer is intact exactly for payloads whose missing bits are the phantom ones.
  lemma NarrowBlockIff(p: Picture, payload: Octets)
    requires CELL <= p.w < 534 && |payload| == PAYLOAD_LEN
    ensures Pack(BlockBits(StripOf(Marked(p, payload)))) == payload
            <==> forall i :: 0 <= i < STREAM_BITS && Kept(p.w, 3 * STREAM_BITS) <= 3 * i ==> Bit(payload, i) == Phantom(p.w, i)
  {
    var strip := StripOf(Marked(p, payload));
    forall i | 0 <= i < STREAM_BITS
      ensures BlockBits(strip)[i] == if 3 * i < Kept(p.w, 3 * STREAM_BITS) then Bit(payload, i) else Phantom(p.w, i)
    {
      NarrowReads(p, payload, i);
    }
    PackIsPayload(BlockBits(strip), payload);
  }

  // The first bit of a 64-bit word is its sign.
  lemma SignBit(v: int64)
    requires v >= 0
    ensures Bits.Digits(PutWord(v)[0], 8)[0] == 0
  {
    DigitAt(Bytes, Unsigned(v), 8, 7);
    TopByte(Unsigned(v));
    DigitAt(Bits, PutWord(v)[0], 8, 7);
    TopBit(PutWord(v)[0]);
  }

  lemma TopByte(u: nat)
    requires u < HALF
    ensures Bytes.Shift(u, 7) < 128
  {
    assert Bytes.Shift(u, 7) == Bytes.Shift(u / 256, 6) == Bytes.Shift(u / 256 / 256, 5);
    var a := u / 256 / 256;
    assert Bytes.Shift(a, 5) == Bytes.Shift(a / 256, 4) == Bytes.Shift(a / 256 / 256, 3);
    var b := a / 256 / 256;
    assert Bytes.Shift(b, 3) == Bytes.Shift(b / 256, 2) == b / 256 / 256 / 256;
  }

  lemma TopBit(b: nat)
    requires b < 128
    ensures Bits.Shift(b, 7) == 0
  {
    assert Bits.Shift(b, 7) == Bits.Shift(b / 2, 6) == Bits.Shift(b / 2 / 2, 5);
    var c := b / 2 / 2;
    assert Bits.Shift(c, 5) == Bits.Shift(c / 2, 4) == Bits.Shift(c / 2 / 2, 3);
    var d := c / 2 / 2;
    assert Bits.Shift(d, 3) == Bits.Shift(d / 2, 2) == d / 2 / 2 / 2;
  }

  lemma IssuedSign(mac: Mac, w: Watermark)
    requires w.issued >= 0
    ensures !Bit(Payload(mac, w), 104)
  {
    assert Payload(mac, w)[13] == PutWord(w.issued)[0];
    SignBit(w.issued);
  }

  lemma TotalSign(mac: Mac, w: Watermark)
    requires w.total >= 0
    ensures !Bit(Payload(mac, w), 168)
  {
    assert Payload(mac, w)[21] == PutWord(w.total)[0];
    SignBit(w.total);
  }

  // The sign bit of the issue time is lost below 192 pixels, that of the total below 306.
  lemma NarrowKept(w: nat)
    requires 180 <= w < 306
    ensures Kept(w, 3 * STREAM_BITS) <= 504 && Phantom(w, 168) && STREAM_BITS <= w / CELL * (STRIP / CELL)
    ensures w < 192 ==> Kept(w, 3 * STREAM_BITS) <= 312 && Phantom(w, 104)
  {
  }

  lemma NarrowMisread(p: Picture, payload: Octets, i: nat)
    requires 180 <= p.w < 306 && |payload| == PAYLOAD_LEN && i < STREAM_BITS
    requires Kept(p.w, 3 * STREAM_BITS) <= 3 * i && Phantom(p.w, i) && !Bit(payload, i)
    ensures Pack(BlockBits(StripOf(Marked(p, payload)))) != payload
  {
    NarrowReads(p, payload, i);
    PackIsPayload(BlockBits(StripOf(Marked(p, payload))), payload);
  }

  // A receipt 180 to 305 pixels wide passes the guard, and its block layer never gives
  // back a total that is not negative; up to 191 pixels, nor an issue time since 1970.
  lemma NarrowReceiptFails(mac: Mac, p: Picture, w: Watermark)
    requires 180 <= p.w < 306 && (w.total >= 0 || (p.w < 192 && w.issued >= 0))
    ensures StripReadable(Marked(p, Payload(mac, w))) && ExtractBlock(mac, Marked(p, Payload(mac, w))) != Some(w)
  {
    var raw := Pack(BlockBits(StripOf(Marked(p, Payload(mac, w)))));
    NarrowKept(p.w);
    if w.total >= 0 {
      TotalSign(mac, w);
      NarrowMisread(p, Payload(mac, w), 168);
    } else {
      IssuedSign(mac, w);
      NarrowMisread(p, Payload(mac, w), 104);
    }
    AcceptsExactlyPayloads(mac, raw, w);
    assert raw[..PAYLOAD_LEN] == raw;
  }

  lemma PointBack(w: nat, h: nat, k: nat)
    requires w > 0 && k < Point(w, 0, h)
    ensures k % w < w && k / w < h && Point(w, k % w, k / w) == k
  {
    assert k == k / w * w + k % w;
    if k / w >= h {
      ProductMonotone(h, k / w, w);
      assert false;
    }
  }

  lemma StampedLow(px: Pixel, payload: Octets, k: nat)
    requires k < 8 * |payload|
    ensures Stamped(px, payload, k).r % 2 == 1 <==> Bit(payload, k)
  {
    assert px.r / 2 * 2 % 2 == 0;
  }

  lemma MarkedInside(p: Picture, payload: Octets, x: nat, y: nat)
    requires x < p.w && y < p.h + STRIP
    ensures Marked(p, payload).Read(x, y) == Stamped(Striped(p, KeptBits(p.w, payload), x, y), payload, Point(p.w, x, y))
  {
  }

  lemma LowBitsExact(p: Picture, payload: Octets, k: nat)
    requires p.w > 0 && k < Area(Marked(p, payload)) && k < 8 * |payload|
    ensures LowBit(Marked(p, payload), k) == Bit(payload, k)
  {
    PointBack(p.w, p.h + STRIP, k);
    MarkedInside(p, payload, k % p.w, k / p.w);
    StampedLow(Striped(p, KeptBits(p.w, payload), k % p.w, k / p.w), payload, k);
  }

  // The low-bit layer gives the fields back exactly when the image has room for it.
  lemma LowRoundTripIff(mac: Mac, p: Picture, w: Watermark)
    ensures ExtractLow(mac, Marked(p, Payload(mac, w))) == Some(w) <==> Area(Marked(p, Payload(mac, w))) >= STREAM_BITS
  {
    var payload := Payload(mac, w);
    var m := Marked(p, payload);
    if Area(m) >= STREAM_BITS && p.w > 0 {
      forall k | 0 <= k < STREAM_BITS
        ensures LowBits(m, STREAM_BITS)[k] == Bit(payload, k)
      {
        LowBitsExact(p, payload, k);
      }
      PackIsPayload(LowBits(m, STREAM_BITS), payload);
      DecodesPayload(mac, w, []);
      assert payload + [] == payload;
    }
  }

  // Verification of an unmodified image: from 534 pixels on the block layer
  // answers; below that the low-bit layer does, unless the block layer reads
  // bytes that carry a valid tag of their own.
  lemma VerifiesOwnReceipts(mac: Mac, p: Picture, w: Watermark)
    requires Area(Marked(p, Payload(mac, w))) >= STREAM_BITS
    ensures var m := Marked(p, Payload(mac, w));
            && (p.w >= 534 ==> Verify(mac, m) == Some((w, Block)))
            && (ExtractBlock(mac, m).None? ==> Verify(mac, m) == Some((w, Lsb)))
  {
    LowRoundTripIff(mac, p, w);
    if p.w >= 534 {
      BlockRoundTrip(mac, p, w);
    }
  }
}
