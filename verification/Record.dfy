/**
  One log record on disk: a length, a checksum and the body, all little-endian. The checksum is any function from
  byte strings to 32-bit numbers.
 */
module Record {
  type Byte = n: nat | n < 256
  type U32 = n: nat | n < 0x1_0000_0000
  type U64 = n: nat | n < 0x1_0000_0000_0000_0000
  type Bytes = seq<Byte>
  type Checksum = Bytes -> U32

  datatype RecordType = CommandRecord | EventRecord | SnapRecord

  datatype WalRecord = WalRecord(seqNo: U64, ts: U64, recType: RecordType, payload: Bytes)

  datatype WalError = Truncated(offset: nat) | Crc(expected: U32, actual: U32) | Serialise(tag: Byte)

  datatype Result<+T> = Ok(value: T) | Err(error: WalError)

  const HEADER: nat := 8
  const FIXED: nat := 17

  function Tag(t: RecordType): Byte {
    match t
    case CommandRecord => 1
    case EventRecord => 2
    case SnapRecord => 3
  }

  function FromTag(b: Byte): Result<RecordType> {
    match b
    case 1 => Ok(CommandRecord)
    case 2 => Ok(EventRecord)
    case 3 => Ok(SnapRecord)
    case _ => Err(Serialise(b))
  }

  // ---------------------------------------------------------------- little-endian numbers

  function Pow256(n: nat): nat {
    if n == 0 then 1 else 256 * Pow256(n - 1)
  }

  /** The n low bytes of x, least significant first. */
  function LE(x: nat, n: nat): (bs: Bytes)
    ensures |bs| == n
  {
    if n == 0 then [] else [x % 256] + LE(x / 256, n - 1)
  }

  function FromLE(bs: Bytes): nat {
    if bs == [] then 0 else bs[0] + 256 * FromLE(bs[1..])
  }

  lemma {:induction false} ReadWritten(x: nat, n: nat)
    requires x < Pow256(n)
    ensures FromLE(LE(x, n)) == x
  {
    if n > 0 {
      ReadWritten(x / 256, n - 1);
      assert LE(x, n)[1..] == LE(x / 256, n - 1);
    }
  }

  lemma {:induction false} WriteRead(bs: Bytes)
    ensures FromLE(bs) < Pow256(|bs|) && LE(FromLE(bs), |bs|) == bs
  {
    if bs != [] {
      WriteRead(bs[1..]);
      var rest := FromLE(bs[1..]);
      assert (bs[0] + 256 * rest) / 256 == rest && (bs[0] + 256 * rest) % 256 == bs[0];
    }
  }

  lemma DivUnique(n: nat, q: nat, r: nat, p: nat, t: nat)
    requires n * q + r == n * p + t && r < n && t < n
    ensures q == p && r == t
  {
    assert n * q - n * p == n * (q - p) && n * p - n * q == n * (p - q);
    if q > p {
      AtLeast(n, q - p);
    } else if q < p {
      AtLeast(n, p - q);
    }
  }

  lemma AtLeast(n: nat, d: nat)
    requires d > 0
    ensures n * d >= n
  {
    assert n * d == n + n * (d - 1);
  }

  lemma DivIs(x: nat, n: nat, q: nat, r: nat)
    requires x == n * q + r && r < n
    ensures x / n == q
  {
    assert x == n * (x / n) + x % n;
    DivUnique(n, q, r, x / n, x % n);
  }

  lemma DivTwice(x: nat, p: nat, q: nat, r: nat)
    requires x / 256 == p * q + r && r < p
    ensures x / (256 * p) == q
  {
    var n, d := 256 * p, x % 256;
    assert x == 256 * (x / 256) + d;
    assert n * q == 256 * (p * q);
    DivIs(x, n, q, 256 * r + d);
  }

  lemma DivDiv(x: nat, p: nat)
    requires p > 0
    ensures x / 256 / p == x / (256 * p)
  {
    assert x / 256 == p * (x / 256 / p) + x / 256 % p;
    DivTwice(x, p, x / 256 / p, x / 256 % p);
  }

  lemma {:induction false} PowPositive(n: nat)
    ensures Pow256(n) > 0
  {
    if n > 0 { PowPositive(n - 1); }
  }

  /** Byte i is digit i to the base 256, the lowest first. */
  lemma {:induction false} Digit(x: nat, n: nat, i: nat)
    requires i < n
    ensures Pow256(i) > 0 && LE(x, n)[i] == x / Pow256(i) % 256
  {
    hide Pow256;
    PowPositive(i);
    if i == 0 {
      assert Pow256(0) == 1 by { PowZero(); }
    } else {
      PowPositive(i - 1);
      Digit(x / 256, n - 1, i - 1);
      DivDiv(x, Pow256(i - 1));
      PowStep(i);
      assert LE(x, n)[i] == LE(x / 256, n - 1)[i - 1];
    }
  }

  lemma PowZero()
    ensures Pow256(0) == 1
  {
  }

  lemma PowStep(n: nat)
    requires n > 0
    ensures Pow256(n) == 256 * Pow256(n - 1)
  {
  }

  lemma Widths()
    ensures Pow256(4) == 0x1_0000_0000 && Pow256(8) == 0x1_0000_0000_0000_0000
  {
    assert Pow256(2) == 0x1_0000;
    assert Pow256(4) == 256 * (256 * Pow256(2));
    assert Pow256(6) == 256 * (256 * Pow256(4));
  }

  // ---------------------------------------------------------------- framing

  function Body(r: WalRecord): (bs: Bytes)
    ensures |bs| == FIXED + |r.payload|
  {
    LE(r.seqNo, 8) + LE(r.ts, 8) + [Tag(r.recType)] + r.payload
  }

  /** The frame of a record. The length field holds the low 32 bits of the body length. */
  function Encoding(r: WalRecord, crc: Checksum): (bs: Bytes)
    ensures |bs| == HEADER + FIXED + |r.payload|
  {
    LE((FIXED + |r.payload|) % 0x1_0000_0000, 4) + LE(crc(Body(r)), 4) + Body(r)
  }

  /** The length of the body can be written in the length field. */
  predicate Framed(r: WalRecord) {
    FIXED + |r.payload| < 0x1_0000_0000
  }

  method Encode(r: WalRecord, crc: Checksum) returns (out: Bytes)
    ensures out == Encoding(r, crc)
  {
    hide LE;
    var bodyLen := 8 + 8 + 1 + |r.payload|;
    var body: Bytes := [];
    body := body + LE(r.seqNo, 8);
    body := body + LE(r.ts, 8);
    body := body + [Tag(r.recType)];
    body := body + r.payload;
    assert body == Body(r);
    var sum := crc(body);
    var payloadLen := bodyLen % 0x1_0000_0000;
    out := [];
    out := out + LE(payloadLen, 4);
    out := out + LE(sum, 4);
    out := out + body;
  }

  /** Read one record off the front of a buffer, with the number of bytes it took. */
  function Decode(buf: Bytes, crc: Checksum): (r: Result<(WalRecord, nat)>)
    ensures r.Ok? ==> HEADER + FIXED <= r.value.1 <= |buf|
  {
    if |buf| < HEADER then Err(Truncated(0))
    else
      var payloadLen := FromLE(buf[..4]);
      var stored := FromLE(buf[4..8]);
      var total := HEADER + payloadLen;
      if |buf| < total then Err(Truncated(8))
      else
        var body := buf[8..total];
        if crc(body) != stored then
          WriteRead(buf[4..8]);
          Widths();
          Err(Crc(stored, crc(body)))
        else if |body| < FIXED then Err(Truncated(8))
        else
          WriteRead(body[..8]);
          WriteRead(body[8..16]);
          Widths();
          match FromTag(body[16])
          case Err(e) => Err(e)
          case Ok(t) => Ok((WalRecord(FromLE(body[..8]), FromLE(body[8..16]), t, body[17..]), total))
  }

  lemma Fields(r: WalRecord)
    ensures var b := Body(r);
      && FromLE(b[..8]) == r.seqNo && FromLE(b[8..16]) == r.ts && FromTag(b[16]) == Ok(r.recType)
         && b[17..] == r.payload
  {
    hide LE, FromLE;
    Widths();
    ReadWritten(r.seqNo, 8);
    ReadWritten(r.ts, 8);
    var b := Body(r);
    assert b[..8] == LE(r.seqNo, 8) && b[8..16] == LE(r.ts, 8) && b[17..] == r.payload;
  }

  lemma Parts(r: WalRecord, crc: Checksum, buf: Bytes)
    requires Encoding(r, crc) <= buf
    ensures |buf| >= HEADER + FIXED + |r.payload|
    ensures FromLE(buf[..4]) == (FIXED + |r.payload|) % 0x1_0000_0000 && FromLE(buf[4..8]) == crc(Body(r))
    ensures buf[8..HEADER + FIXED + |r.payload|] == Body(r)
  {
    hide LE, FromLE, Body;
    Widths();
    var e := Encoding(r, crc);
    var len := (FIXED + |r.payload|) % 0x1_0000_0000;
    ReadWritten(len, 4);
    ReadWritten(crc(Body(r)), 4);
    assert buf[..4] == e[..4] == LE(len, 4);
    assert buf[4..8] == e[4..8] == LE(crc(Body(r)), 4);
    assert buf[8..|e|] == e[8..] == Body(r);
  }

  /** A framed record at the front of a buffer is read back, whatever follows it. */
  lemma DecodeEncoding(r: WalRecord, crc: Checksum, buf: Bytes)
    requires Framed(r) && Encoding(r, crc) <= buf
    ensures Decode(buf, crc) == Ok((r, |Encoding(r, crc)|))
  {
    hide Body, Encoding, FromLE, LE;
    Parts(r, crc, buf);
    Fields(r);
  }

  /** A buffer that reads as a record starts with the encoding of that record: nothing is invented. */
  lemma DecodeSound(buf: Bytes, crc: Checksum)
    requires Decode(buf, crc).Ok?
    ensures var (r, n) := Decode(buf, crc).value;
      Framed(r) && n == |Encoding(r, crc)| && Encoding(r, crc) <= buf
  {
    hide FromLE, LE;
    Widths();
    var (r, n) := Decode(buf, crc).value;
    var body := buf[8..n];
    WriteRead(buf[..4]);
    WriteRead(buf[4..8]);
    WriteRead(body[..8]);
    WriteRead(body[8..16]);
    assert body == body[..8] + body[8..16] + [body[16]] + body[17..];
    assert Body(r) == body;
    assert buf[..n] == buf[..4] + buf[4..8] + body;
  }

  /** Decoding yields a record exactly when its framed encoding stands at the front of the buffer. */
  lemma DecodeExactly(buf: Bytes, crc: Checksum, r: WalRecord, n: nat)
    ensures Decode(buf, crc) == Ok((r, n)) <==> Framed(r) && n == |Encoding(r, crc)| && Encoding(r, crc) <= buf
  {
    hide Decode, Encoding, Framed;
    if Decode(buf, crc) == Ok((r, n)) { DecodeSound(buf, crc); }
    if Framed(r) && Encoding(r, crc) <= buf { DecodeEncoding(r, crc, buf); }
  }

  /** Encode then decode gives the record back exactly when its length field does not wrap. */
  lemma RoundTrip(r: WalRecord, crc: Checksum)
    ensures Decode(Encoding(r, crc), crc) == Ok((r, |Encoding(r, crc)|)) <==> Framed(r)
  {
    DecodeExactly(Encoding(r, crc), crc, r, |Encoding(r, crc)|);
  }

  /** Any proper prefix of a framed record reads as truncated, never as a checksum error or another record. */
  lemma TornIsTruncated(r: WalRecord, crc: Checksum, cut: nat)
    requires Framed(r) && cut < |Encoding(r, crc)|
    ensures Decode(Encoding(r, crc)[..cut], crc) == Err(Truncated(if cut < HEADER then 0 else HEADER))
  {
    hide Body, FromLE, LE;
    var e := Encoding(r, crc);
    if cut >= HEADER {
      Parts(r, crc, e);
      assert e[..cut][..4] == e[..4];
    }
  }

  // ---------------------------------------------------------------- frames that are not records

  /** A frame with any body and any stored checksum. */
  function Frame(body: Bytes, stored: U32): (bs: Bytes)
    requires |body| < 0x1_0000_0000
    ensures |bs| == HEADER + |body|
  {
    LE(|body|, 4) + LE(stored, 4) + body
  }

  /**
    What a whole frame reads as, whatever follows it: a wrong checksum is reported with both checksums, a body without
    room for the fixed fields passes for a torn one, and an unknown type is reported with its tag.
   */
  lemma FrameVerdict(body: Bytes, stored: U32, rest: Bytes, crc: Checksum)
    requires |body| < 0x1_0000_0000
    ensures var d := Decode(Frame(body, stored) + rest, crc);
      if crc(body) != stored then d == Err(Crc(stored, crc(body)))
      else if |body| < 17 then d == Err(Truncated(8))
      else if body[16] == 0 || body[16] > 3 then d == Err(Serialise(body[16]))
      else d.Ok? && d.value.1 == 8 + |body|
  {
    hide LE, FromLE;
    Widths();
    ReadWritten(|body|, 4);
    ReadWritten(stored, 4);
    var buf := Frame(body, stored) + rest;
    assert buf[..4] == LE(|body|, 4) && buf[4..8] == LE(stored, 4) && buf[8..8 + |body|] == body;
  }

  /** Less than a header, or less than the header announces, reads as torn. */
  lemma ShortVerdict(buf: Bytes, crc: Checksum)
    ensures |buf| < 8 ==> Decode(buf, crc) == Err(Truncated(0))
    ensures |buf| >= 8 && |buf| < 8 + FromLE(buf[..4]) ==> Decode(buf, crc) == Err(Truncated(8))
  {
    hide FromLE;
  }

  /** Every other buffer starts with a whole frame. */
  lemma FrameShape(buf: Bytes) returns (body: Bytes, stored: U32, rest: Bytes)
    requires |buf| >= 8 && |buf| >= 8 + FromLE(buf[..4])
    ensures |body| < 0x1_0000_0000 && buf == Frame(body, stored) + rest
  {
    hide LE, FromLE;
    Widths();
    WriteRead(buf[..4]);
    WriteRead(buf[4..8]);
    var n := FromLE(buf[..4]);
    body, stored, rest := buf[8..8 + n], FromLE(buf[4..8]), buf[8 + n..];
    assert buf == buf[..4] + buf[4..8] + buf[8..8 + n] + buf[8 + n..];
  }

  /** The bytes of one record, written out: number 258, time 3, a command with the payload 7. */
  lemma FrameExample(crc: Checksum)
    ensures var body: Bytes := [2, 1, 0, 0, 0, 0, 0, 0, 3, 0, 0, 0, 0, 0, 0, 0, 1, 7];
      Encoding(WalRecord(258, 3, CommandRecord, [7]), crc) == [18, 0, 0, 0] + LE(crc(body), 4) + body
    ensures Body(WalRecord(258, 3, EventRecord, [7]))[16] == 2 && Body(WalRecord(258, 3, SnapRecord, [7]))[16] == 3
  {
    hide LE;
    LittleEight(258);
    LittleEight(3);
    LittleFour(18);
    var body: Bytes := [2, 1, 0, 0, 0, 0, 0, 0, 3, 0, 0, 0, 0, 0, 0, 0, 1, 7];
    assert Body(WalRecord(258, 3, CommandRecord, [7])) == body;
  }

  lemma LittleFour(x: nat)
    requires x < 256
    ensures LE(x, 4) == [x, 0, 0, 0]
  {
    LittleZero();
    assert LE(x, 4) == [x % 256] + LE(x / 256, 3);
  }

  lemma LittleZero()
    ensures LE(0, 2) == [0, 0] && LE(0, 3) == [0, 0, 0] && LE(0, 6) == [0, 0, 0, 0, 0, 0]
  {
    assert LE(0, 1) == [0] + LE(0, 0);
    assert LE(0, 3) == [0] + LE(0, 2);
    assert LE(0, 4) == [0] + LE(0, 3);
    assert LE(0, 5) == [0] + LE(0, 4);
    assert LE(0, 6) == [0] + LE(0, 5);
  }

  lemma LittleEight(x: nat)
    requires x < 65536
    ensures LE(x, 8) == [x % 256, x / 256, 0, 0, 0, 0, 0, 0]
  {
    LittleZero();
    assert LE(x, 8) == [x % 256] + LE(x / 256, 7);
    assert LE(x / 256, 7) == [x / 256 % 256] + LE(x / 256 / 256, 6);
  }
}
