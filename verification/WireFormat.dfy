/**
 The wire format in literal bytes: where every field of a frame stands, what every
 byte of it is, and what a decoder makes of any bytes at all.
 */
module WireFormat {
  import opened Basics
  import opened Codec

  // ---- Numbers on the wire ----

  /** The number that a big-endian field holds. */
  function Number(b: Bytes): nat {
    if b == [] then 0 else Number(b[..|b| - 1]) * 256 + b[|b| - 1]
  }

  function Pow256(k: nat): (p: nat)
    ensures 0 < p
  {
    if k == 0 then 1 else 256 * Pow256(k - 1)
  }

  /** Dividing twice is dividing by the product. */
  lemma DivideTwice(x: nat, p: nat)
    requires 0 < p
    ensures x / 256 / p == x / (256 * p)
  {
    var q, r := x / 256, x % 256;
    var t, u := q / p, q % p;
    assert q == t * p + u;
    assert x == (t * p + u) * 256 + r == t * (256 * p) + (u * 256 + r);
    assert u * 256 + r < 256 * p;
    QuotientIs(x, 256 * p, t);
  }

  /** Byte `i` of an `n`-byte field is the number divided by 256 to the power `n - 1 - i`, modulo 256. */
  lemma {:induction false} FieldBytes(b: Bytes, i: nat)
    requires i < |b|
    ensures b[i] == Number(b) / Pow256(|b| - 1 - i) % 256
  {
    var n := |b| - 1;
    JoinByte(Number(b[..n]), b[n]);
    if i < n {
      FieldBytes(b[..n], i);
      DivideTwice(Number(b), Pow256(n - 1 - i));
    }
  }

  lemma NumberOfTwo(b: Bytes)
    requires |b| == 2
    ensures FromU16(b) == Number(b)
  {
    assert Number(b[..1][..0]) == 0 && Number(b[..1]) == b[0];
  }

  lemma NumberOfFour(b: Bytes)
    requires |b| == 4
    ensures FromU32(b) == Number(b)
  {
    assert b[..3][..2] == b[..2] && b[..2][..1] == b[..1] && b[..1][..0] == [];
    assert Number(b[..1]) == b[0];
    assert Number(b[..2]) == b[0] as int * 256 + b[1];
    assert Number(b[..3]) == b[0] as int * 0x1_0000 + b[1] as int * 256 + b[2];
  }

  lemma NumberOfEight(b: Bytes)
    requires |b| == 8
    ensures FromU64(b) == Number(b)
  {
    NumberOfFour(b[..4]);
    NumberOfFour(b[4..]);
    Concatenated(b[..4], b[4..]);
    assert b == b[..4] + b[4..];
    assert Pow256(4) == 0x1_0000_0000 by {
      assert Pow256(1) == 256 && Pow256(2) == 0x1_0000 && Pow256(3) == 0x100_0000;
    }
  }

  lemma {:induction false} Concatenated(a: Bytes, b: Bytes)
    ensures Number(a + b) == Number(a) * Pow256(|b|) + Number(b)
  {
    if b == [] {
      assert a + b == a;
    } else {
      var n := |b| - 1;
      assert (a + b)[..|a + b| - 1] == a + b[..n];
      Concatenated(a, b[..n]);
      var p := Pow256(n);
      assert (Number(a) * p + Number(b[..n])) * 256 == Number(a) * (256 * p) + Number(b[..n]) * 256;
    }
  }

  // ---- What a decoder makes of any bytes ----

  ghost predicate HasMagic(s: Bytes)
    requires |s| >= 4
  {
    s[0] == 0x48 && s[1] == 0x43 && s[2] == 0x41 && s[3] == 0x43
  }

  lemma MagicBytes(s: Bytes)
    requires |s| >= 8
    ensures FromU32(s[0..4]) == 0x4843_4143 <==> HasMagic(s)
    ensures FromU16(s[6..8]) == 0 <==> s[6] == 0 && s[7] == 0
  {
  }

  /** The numbers in a request header. */
  ghost predicate HeaderReads(s: Bytes, id: nat, keyLength: nat, valueLength: nat, ttl: nat)
    requires |s| >= 32
  {
    id == Number(s[8..16]) && keyLength == Number(s[16..20]) && valueLength == Number(s[20..24]) && ttl == Number(s[24..32])
  }

  /**
   Every possible input of the request decoder.  Fewer than 32 bytes are incomplete.
   Otherwise the first of these that applies decides: wrong magic, version, reserved
   bytes or opcode, a key over 250 or a value over 1048576 bytes, a value or a TTL on
   anything but a SET, a TTL beyond 63 bits; each is an error with the id in bytes 8
   to 15.  A good header waits for its body, and then gives exactly what stands there.
   */
  lemma RequestVerdict(s: Bytes, id: nat, keyLength: nat, valueLength: nat, ttl: nat)
    requires |s| >= 32 && HeaderReads(s, id, keyLength, valueLength, ttl)
    ensures id < 0x1_0000_0000_0000_0000 && ttl < 0x1_0000_0000_0000_0000
    ensures var d := DecodeRequest(s);
            if !HasMagic(s) then d == Error(id, BadMagic)
            else if s[4] != 1 then d == Error(id, BadVersion)
            else if s[6] != 0 || s[7] != 0 then d == Error(id, BadReserved)
            else if s[5] != 1 && s[5] != 2 && s[5] != 3 then d == Error(id, BadOpcode)
            else if keyLength > 250 then d == Error(id, KeyLength)
            else if valueLength > 1048576 then d == Error(id, ValueLength)
            else if s[5] != 2 && valueLength != 0 then d == Error(id, UnexpectedValue)
            else if s[5] != 2 && ttl != 0 then d == Error(id, UnexpectedTtl)
            else if ttl > 9223372036854775807 then d == Error(id, TtlRange)
            else if |s| < 32 + keyLength + valueLength then d == Incomplete
            else
              var opcode := if s[5] == 1 then GetOp else if s[5] == 2 then SetOp else EraseOp;
              d == Complete(Request(opcode, id, s[32..32 + keyLength], s[32 + keyLength..32 + keyLength + valueLength], ttl),
                            32 + keyLength + valueLength)
  {
    MagicBytes(s);
    NumberOfEight(s[8..16]);
    NumberOfFour(s[16..20]);
    NumberOfFour(s[20..24]);
    NumberOfEight(s[24..32]);
    hide FromU16, FromU32, FromU64, Number;
  }

  lemma ShortRequest(s: Bytes)
    ensures |s| < 32 ==> DecodeRequest(s) == Incomplete
  {
  }

  /** The same for responses, whose status byte is 0 to 8. */
  lemma ResponseVerdict(s: Bytes, id: nat, valueLength: nat)
    requires |s| >= 20 && id == Number(s[8..16]) && valueLength == Number(s[16..20])
    ensures id < 0x1_0000_0000_0000_0000
    ensures var d := DecodeResponse(s);
            if !HasMagic(s) then d == Error(id, BadMagic)
            else if s[4] != 1 then d == Error(id, BadVersion)
            else if s[6] != 0 || s[7] != 0 then d == Error(id, BadReserved)
            else if s[5] > 8 then d == Error(id, BadStatus)
            else if valueLength > 1048576 then d == Error(id, ValueLength)
            else if |s| < 20 + valueLength then d == Incomplete
            else
              && d.Complete? && d.length == 20 + valueLength
              && d.frame.requestId == id && d.frame.value == s[20..20 + valueLength]
              && StatusIs(d.frame.status, s[5])
  {
    MagicBytes(s);
    NumberOfEight(s[8..16]);
    NumberOfFour(s[16..20]);
    hide FromU16, FromU32, FromU64, Number;
  }

  lemma ShortResponse(s: Bytes)
    ensures |s| < 20 ==> DecodeResponse(s) == Incomplete
  {
  }

  /** The byte of each status. */
  predicate StatusIs(status: WireStatus, b: int) {
    && (status == Ok <==> b == 0)
    && (status == NotFound <==> b == 1)
    && (status == InvalidKey <==> b == 2)
    && (status == KeyTooLarge <==> b == 3)
    && (status == ValueTooLarge <==> b == 4)
    && (status == ItemTooLarge <==> b == 5)
    && (status == InvalidTtl <==> b == 6)
    && (status == ProtocolError <==> b == 7)
    && (status == InternalError <==> b == 8)
  }

  // ---- What an encoder writes ----

  /** A field of `n` bytes that holds `x`, byte by byte. */
  ghost predicate Holds(field: Bytes, n: nat, x: nat) {
    |field| == n && forall i :: 0 <= i < n ==> field[i] == x / Pow256(n - 1 - i) % 256
  }

  lemma FieldHolds(field: Bytes)
    ensures Holds(field, |field|, Number(field))
  {
    hide Number, Pow256;
    forall i | 0 <= i < |field| ensures field[i] == Number(field) / Pow256(|field| - 1 - i) % 256 {
      FieldBytes(field, i);
    }
  }

  /** Every byte of an encoded request. */
  lemma RequestLayout(r: Request)
    requires Encodable(r)
    ensures EncodeRequest(r).Some?
    ensures var f := EncodeRequest(r).value;
            && |f| == 32 + |r.key| + |r.value|
            && f[0] == 0x48 && f[1] == 0x43 && f[2] == 0x41 && f[3] == 0x43 && f[4] == 1
            && f[5] == (match r.opcode case GetOp => 1 case SetOp => 2 case EraseOp => 3)
            && f[6] == 0 && f[7] == 0
            && Holds(f[8..16], 8, r.requestId)
            && Holds(f[16..20], 4, |r.key|) && Holds(f[20..24], 4, |r.value|)
            && Holds(f[24..32], 8, r.ttl)
            && f[32..32 + |r.key|] == r.key && f[32 + |r.key|..] == r.value
  {
    var f := EncodeRequest(r).value;
    RequestRoundTrip(r, []);
    assert f + [] == f;
    ShortRequest(f);
    hide DecodeRequest, EncodeRequest, Holds, Number;
    RequestVerdict(f, Number(f[8..16]), Number(f[16..20]), Number(f[20..24]), Number(f[24..32]));
    FieldHolds(f[8..16]);
    FieldHolds(f[16..20]);
    FieldHolds(f[20..24]);
    FieldHolds(f[24..32]);
  }

  /** What the encoder refuses. */
  lemma RequestRefused(r: Request)
    ensures EncodeRequest(r).None? <==>
              || |r.key| > 250 || |r.value| > 1048576
              || (r.opcode != SetOp && (r.value != [] || r.ttl != 0))
              || r.ttl > 9223372036854775807
  {
    hide RequestHeader;
  }

  /** Every byte of an encoded response. */
  lemma ResponseLayout(r: Response)
    requires |r.value| <= 1048576
    ensures EncodeResponse(r).Some?
    ensures var f := EncodeResponse(r).value;
            && |f| == 20 + |r.value|
            && f[0] == 0x48 && f[1] == 0x43 && f[2] == 0x41 && f[3] == 0x43 && f[4] == 1
            && StatusIs(r.status, f[5])
            && f[6] == 0 && f[7] == 0
            && Holds(f[8..16], 8, r.requestId) && Holds(f[16..20], 4, |r.value|)
            && f[20..] == r.value
  {
    var f := EncodeResponse(r).value;
    ResponseRoundTrip(r, []);
    assert f + [] == f;
    ShortResponse(f);
    hide DecodeResponse, EncodeResponse, Holds, Number;
    ResponseVerdict(f, Number(f[8..16]), Number(f[16..20]));
    FieldHolds(f[8..16]);
    FieldHolds(f[16..20]);
  }
}
