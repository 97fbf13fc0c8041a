// The bytes that travel inside a receipt image: a marker, three 64-bit fields and
// a tag that only the holder of the shop key can make.

module Watermarks {
  import opened Radix
  import opened Int64
  import opened Options

  type Octets = s: seq<nat> | Bytes.AllDigits(s)

  // The keyed hash of a message, 32 bytes; nothing else is known about it.
  type Digest = d: Octets | |d| == 32 witness seq(32, _ => 0)
  type Mac = Octets -> Digest

  const MAGIC: Octets := [67, 68, 67, 87, 49]
  const BODY_LEN := 29
  const PAYLOAD_LEN := 37

  datatype Watermark = Watermark(order: int64, issued: int64, total: int64)

  // ---- 64-bit words ----

  function Unsigned(v: int64): (u: nat)
    ensures u < WHOLE
  {
    if v < 0 then v + WHOLE else v
  }

  function Signed(u: nat): int64
    requires u < WHOLE
  {
    if u >= HALF then u - WHOLE else u
  }

  lemma WordRange()
    ensures Bytes.Range(8) == WHOLE
  {
  }

  // PutUint64 of the two's complement bits, and back.
  function PutWord(v: int64): (s: Octets)
    ensures |s| == 8
  {
    Bytes.Digits(Unsigned(v), 8)
  }

  function GetWord(s: Octets): int64
    requires |s| == 8
  {
    ValueInRange(Bytes, s);
    WordRange();
    Signed(Bytes.Value(s))
  }

  lemma WordRoundTrip(v: int64)
    ensures GetWord(PutWord(v)) == v
  {
    WordRange();
    ValueOfDigits(Bytes, Unsigned(v), 8);
  }

  lemma WordRead(s: Octets)
    requires |s| == 8
    ensures PutWord(GetWord(s)) == s
  {
    ValueInRange(Bytes, s);
    WordRange();
    DigitsOfValue(Bytes, s);
    assert Unsigned(GetWord(s)) == Bytes.Value(s);
  }

  // ---- payload ----

  function Body(w: Watermark): (s: Octets)
    ensures |s| == BODY_LEN
  {
    MAGIC + PutWord(w.order) + PutWord(w.issued) + PutWord(w.total)
  }

  function Payload(mac: Mac, w: Watermark): (s: Octets)
    ensures |s| == PAYLOAD_LEN
  {
    Body(w) + mac(Body(w))[..8]
  }

  function Decode(mac: Mac, raw: Octets): Option<Watermark> {
    if |raw| < PAYLOAD_LEN || raw[..5] != MAGIC then None
    else if raw[BODY_LEN..PAYLOAD_LEN] != mac(raw[..BODY_LEN])[..8] then None
    else Some(Watermark(GetWord(raw[5..13]), GetWord(raw[13..21]), GetWord(raw[21..29])))
  }

  lemma BodyParts(w: Watermark)
    ensures var b := Body(w);
            b[..5] == MAGIC && b[5..13] == PutWord(w.order) && b[13..21] == PutWord(w.issued) && b[21..29] == PutWord(w.total)
  {
  }

  lemma BodyRead(body: Octets)
    requires |body| == BODY_LEN && body[..5] == MAGIC
    ensures Body(Watermark(GetWord(body[5..13]), GetWord(body[13..21]), GetWord(body[21..29]))) == body
  {
    WordRead(body[5..13]);
    WordRead(body[13..21]);
    WordRead(body[21..29]);
    assert body == body[..5] + body[5..13] + body[13..21] + body[21..29];
  }

  // Every triple survives the trip, whatever follows its payload.
  lemma DecodesPayload(mac: Mac, w: Watermark, rest: Octets)
    ensures Decode(mac, Payload(mac, w) + rest) == Some(w)
  {
    var raw := Payload(mac, w) + rest;
    var b := Body(w);
    BodyParts(w);
    assert raw[..BODY_LEN] == b;
    assert raw[BODY_LEN..PAYLOAD_LEN] == mac(b)[..8];
    assert raw[..5] == b[..5] && raw[5..13] == b[5..13] && raw[13..21] == b[13..21] && raw[21..29] == b[21..29];
    WordRoundTrip(w.order);
    WordRoundTrip(w.issued);
    WordRoundTrip(w.total);
  }

  // A byte string is accepted as w exactly when its first 37 bytes are w's payload.
  lemma AcceptsExactlyPayloads(mac: Mac, raw: Octets, w: Watermark)
    ensures Decode(mac, raw) == Some(w) <==> |raw| >= PAYLOAD_LEN && raw[..PAYLOAD_LEN] == Payload(mac, w)
  {
    if |raw| >= PAYLOAD_LEN && raw[..PAYLOAD_LEN] == Payload(mac, w) {
      DecodesPayload(mac, w, raw[PAYLOAD_LEN..]);
      assert raw == Payload(mac, w) + raw[PAYLOAD_LEN..];
    }
    if Decode(mac, raw) == Some(w) {
      var body := raw[..BODY_LEN];
      assert body[..5] == raw[..5] && body[5..13] == raw[5..13] && body[13..21] == raw[13..21] && body[21..29] == raw[21..29];
      BodyRead(body);
      assert raw[..PAYLOAD_LEN] == body + raw[BODY_LEN..PAYLOAD_LEN];
    }
  }
}
