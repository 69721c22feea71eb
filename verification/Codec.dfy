/**
 The binary wire protocol: fixed big-endian headers, length-delimited bodies,
 and an incremental decoder that never needs more than a prefix of the stream.
 */
module Codec {
  import opened Basics
  import CacheSpec

  const MAGIC: nat := 0x4843_4143
  const VERSION: nat := 1
  const REQUEST_HEADER_SIZE: nat := 32
  const RESPONSE_HEADER_SIZE: nat := 20
  const MAX_REQUEST_FRAME: nat := REQUEST_HEADER_SIZE + CacheSpec.MAX_KEY_LENGTH + CacheSpec.MAX_VALUE_LENGTH
  const MAX_TTL: nat := 0x7FFF_FFFF_FFFF_FFFF

  type u64 = x: int | 0 <= x < 0x1_0000_0000_0000_0000

  datatype Opcode = GetOp | SetOp | EraseOp

  datatype Request = Request(opcode: Opcode, requestId: u64, key: Bytes, value: Bytes, ttl: u64)

  datatype WireStatus =
    | Ok | NotFound | InvalidKey | KeyTooLarge | ValueTooLarge | ItemTooLarge | InvalidTtl
    | ProtocolError | InternalError

  datatype Response = Response(requestId: u64, status: WireStatus, value: Bytes)

  datatype Fault =
    | BadMagic | BadVersion | BadReserved | BadOpcode | BadStatus | KeyLength | ValueLength | FrameLength
    | UnexpectedValue | UnexpectedTtl | TtlRange

  datatype Decoded<T> = Incomplete | Complete(frame: T, length: nat) | Error(requestId: u64, fault: Fault)

  // ---- Big-endian fields ----

  function U16(x: nat): Bytes
    requires x < 0x1_0000
  {
    [x / 256, x % 256]
  }

  function U32(x: nat): Bytes
    requires x < 0x1_0000_0000
  {
    [x / 0x100_0000, x / 0x1_0000 % 256, x / 256 % 256, x % 256]
  }

  function U64(x: nat): Bytes
    requires x < 0x1_0000_0000_0000_0000
  {
    U32(x / 0x1_0000_0000) + U32(x % 0x1_0000_0000)
  }

  function FromU16(b: Bytes): nat
    requires |b| == 2
  {
    b[0] as int * 256 + b[1]
  }

  function FromU32(b: Bytes): (x: nat)
    requires |b| == 4
    ensures x < 0x1_0000_0000
  {
    b[0] as int * 0x100_0000 + b[1] as int * 0x1_0000 + b[2] as int * 256 + b[3]
  }

  function FromU64(b: Bytes): (x: u64)
    requires |b| == 8
  {
    FromU32(b[..4]) * 0x1_0000_0000 + FromU32(b[4..])
  }

  lemma RoundTrip16(x: nat, b: Bytes)
    requires x < 0x1_0000 && |b| == 2
    ensures FromU16(U16(x)) == x
    ensures U16(FromU16(b)) == b
  {
  }

  /** The last byte of a number, and the rest of it. */
  lemma JoinByte(high: nat, low: byte)
    ensures (high * 256 + low) / 256 == high && (high * 256 + low) % 256 == low
  {
  }

  /** Shifting by several bytes is shifting by one byte several times. */
  lemma ShiftTwice(x: nat)
    ensures x / 0x1_0000 == x / 256 / 256 && x / 0x100_0000 == x / 256 / 256 / 256
  {
    var y := x / 256;
    assert y / 256 * 0x1_0000 + y % 256 * 256 + x % 256 == x;
    var z := y / 256;
    assert z / 256 * 0x100_0000 + z % 256 * 0x1_0000 + y % 256 * 256 + x % 256 == x;
  }

  lemma Decode32(x: nat)
    requires x < 0x1_0000_0000
    ensures FromU32(U32(x)) == x
  {
    ShiftTwice(x);
    var y := x / 256;
    var z := y / 256;
    assert x == y * 256 + x % 256 && y == z * 256 + y % 256 && z == z / 256 * 256 + z % 256;
  }

  lemma Encode32(b: Bytes)
    requires |b| == 4
    ensures U32(FromU32(b)) == b
  {
    var x := FromU32(b);
    ShiftTwice(x);
    JoinByte(b[0] as int * 0x1_0000 + b[1] as int * 256 + b[2], b[3]);
    JoinByte(b[0] as int * 256 + b[1], b[2]);
    JoinByte(b[0], b[1]);
  }

  lemma RoundTrip32(x: nat, b: Bytes)
    requires x < 0x1_0000_0000 && |b| == 4
    ensures FromU32(U32(x)) == x
    ensures U32(FromU32(b)) == b
  {
    hide U32, FromU32;
    Decode32(x);
    Encode32(b);
  }

  lemma Join(high: nat, low: nat)
    requires low < 0x1_0000_0000
    ensures (high * 0x1_0000_0000 + low) / 0x1_0000_0000 == high
    ensures (high * 0x1_0000_0000 + low) % 0x1_0000_0000 == low
  {
  }

  lemma RoundTrip64(x: nat, b: Bytes)
    requires x < 0x1_0000_0000_0000_0000 && |b| == 8
    ensures |U64(x)| == 8 && FromU64(U64(x)) == x
    ensures U64(FromU64(b)) == b
  {
    var high, low := x / 0x1_0000_0000, x % 0x1_0000_0000;
    RoundTrip32(high, b[..4]);
    RoundTrip32(low, b[4..]);
    assert |U32(high)| == |U32(low)| == 4;
    hide U32, FromU32;
    assert U64(x)[..4] == U32(high) && U64(x)[4..] == U32(low);
    Join(FromU32(b[..4]), FromU32(b[4..]));
    assert b == b[..4] + b[4..];
  }

  // ---- Encoding ----

  function OpcodeByte(opcode: Opcode): byte {
    match opcode case GetOp => 1 case SetOp => 2 case EraseOp => 3
  }

  function StatusByte(status: WireStatus): byte {
    match status
    case Ok => 0 case NotFound => 1 case InvalidKey => 2 case KeyTooLarge => 3 case ValueTooLarge => 4
    case ItemTooLarge => 5 case InvalidTtl => 6 case ProtocolError => 7 case InternalError => 8
  }

  function StatusOf(b: byte): WireStatus
    requires b <= 8
  {
    match b
    case 0 => Ok case 1 => NotFound case 2 => InvalidKey case 3 => KeyTooLarge case 4 => ValueTooLarge
    case 5 => ItemTooLarge case 6 => InvalidTtl case 7 => ProtocolError case _ => InternalError
  }

  /** What `encode_request` accepts; anything else makes it throw. */
  predicate Encodable(r: Request) {
    && |r.key| <= CacheSpec.MAX_KEY_LENGTH && |r.value| <= CacheSpec.MAX_VALUE_LENGTH
    && (r.opcode.SetOp? || (r.value == [] && r.ttl == 0))
    && r.ttl <= MAX_TTL
  }

  function RequestHeader(opcode: byte, requestId: u64, keyLength: nat, valueLength: nat, ttl: u64): Bytes
    requires keyLength < 0x1_0000_0000 && valueLength < 0x1_0000_0000
  {
    (U32(MAGIC) + [VERSION, opcode] + U16(0)) + U64(requestId) + (U32(keyLength) + U32(valueLength)) + U64(ttl)
  }

  function EncodeRequest(r: Request): Option<Bytes> {
    if Encodable(r)
    then Some(RequestHeader(OpcodeByte(r.opcode), r.requestId, |r.key|, |r.value|, r.ttl) + r.key + r.value)
    else None
  }

  function ResponseHeader(status: byte, requestId: u64, valueLength: nat): Bytes
    requires valueLength < 0x1_0000_0000
  {
    (U32(MAGIC) + [VERSION, status] + U16(0)) + U64(requestId) + U32(valueLength)
  }

  function EncodeResponse(r: Response): Option<Bytes> {
    if |r.value| <= CacheSpec.MAX_VALUE_LENGTH
    then Some(ResponseHeader(StatusByte(r.status), r.requestId, |r.value|) + r.value)
    else None
  }

  // ---- Decoding ----

  function OpcodeOf(b: byte): Opcode
    requires 1 <= b <= 3
  {
    if b == 1 then GetOp else if b == 2 then SetOp else EraseOp
  }

  /** The checks on a complete request header, in the order the decoder makes them. */
  function RequestFault(h: Bytes): Option<Fault>
    requires |h| >= REQUEST_HEADER_SIZE
  {
    var opcode := h[5];
    var keyLength := FromU32(h[16..20]);
    var valueLength := FromU32(h[20..24]);
    var ttl := FromU64(h[24..32]);
    if FromU32(h[0..4]) != MAGIC then Some(BadMagic)
    else if h[4] != VERSION then Some(BadVersion)
    else if FromU16(h[6..8]) != 0 then Some(BadReserved)
    else if opcode < 1 || opcode > 3 then Some(BadOpcode)
    else if keyLength > CacheSpec.MAX_KEY_LENGTH then Some(KeyLength)
    else if valueLength > CacheSpec.MAX_VALUE_LENGTH then Some(ValueLength)
    else if keyLength > MAX_REQUEST_FRAME - REQUEST_HEADER_SIZE
            || valueLength > MAX_REQUEST_FRAME - REQUEST_HEADER_SIZE - keyLength then Some(FrameLength)
    else if opcode != 2 && valueLength != 0 then Some(UnexpectedValue)
    else if opcode != 2 && ttl != 0 then Some(UnexpectedTtl)
    else if ttl > MAX_TTL then Some(TtlRange)
    else None
  }

  function RequestLength(h: Bytes): nat
    requires |h| >= REQUEST_HEADER_SIZE
  {
    REQUEST_HEADER_SIZE + FromU32(h[16..20]) + FromU32(h[20..24])
  }

  function DecodeRequest(s: Bytes): Decoded<Request> {
    if |s| < REQUEST_HEADER_SIZE then Incomplete
    else
      var fault := RequestFault(s);
      if fault.Some? then Error(FromU64(s[8..16]), fault.value)
      else if |s| < RequestLength(s) then Incomplete
      else
        var bodyAt := REQUEST_HEADER_SIZE + FromU32(s[16..20]);
        Complete(Request(OpcodeOf(s[5]), FromU64(s[8..16]), s[REQUEST_HEADER_SIZE..bodyAt],
                         s[bodyAt..RequestLength(s)], FromU64(s[24..32])),
                 RequestLength(s))
  }

  function ResponseFault(h: Bytes): Option<Fault>
    requires |h| >= RESPONSE_HEADER_SIZE
  {
    if FromU32(h[0..4]) != MAGIC then Some(BadMagic)
    else if h[4] != VERSION then Some(BadVersion)
    else if FromU16(h[6..8]) != 0 then Some(BadReserved)
    else if h[5] > 8 then Some(BadStatus)
    else if FromU32(h[16..20]) > CacheSpec.MAX_VALUE_LENGTH then Some(ValueLength)
    else None
  }

  function DecodeResponse(s: Bytes): Decoded<Response> {
    if |s| < RESPONSE_HEADER_SIZE then Incomplete
    else
      var fault := ResponseFault(s);
      var length := RESPONSE_HEADER_SIZE + FromU32(s[16..20]);
      if fault.Some? then Error(FromU64(s[8..16]), fault.value)
      else if |s| < length then Incomplete
      else Complete(Response(FromU64(s[8..16]), StatusOf(s[5]), s[RESPONSE_HEADER_SIZE..length]), length)
  }

  // ---- The laws ----

  /** The fields of an encoded header, read back from any stream that starts with it. */
  lemma RequestHeaderFields(opcode: byte, requestId: u64, keyLength: nat, valueLength: nat, ttl: u64, rest: Bytes)
    requires keyLength < 0x1_0000_0000 && valueLength < 0x1_0000_0000
    ensures var h := RequestHeader(opcode, requestId, keyLength, valueLength, ttl);
            var s := h + rest;
            && |h| == 32
            && FromU32(s[0..4]) == MAGIC && s[4] == VERSION && s[5] == opcode && FromU16(s[6..8]) == 0
            && FromU64(s[8..16]) == requestId
            && FromU32(s[16..20]) == keyLength && FromU32(s[20..24]) == valueLength
            && FromU64(s[24..32]) == ttl
  {
    var s := RequestHeader(opcode, requestId, keyLength, valueLength, ttl) + rest;
    hide U32, U64, FromU32, FromU64;
    Lengths(MAGIC, requestId);
    Lengths(keyLength, ttl);
    Lengths(valueLength, ttl);
    assert s[0..4] == U32(MAGIC);
    assert s[6..8] == U16(0);
    assert s[8..16] == U64(requestId);
    assert s[16..20] == U32(keyLength);
    assert s[20..24] == U32(valueLength);
    assert s[24..32] == U64(ttl);
  }

  lemma Lengths(x: nat, y: nat)
    requires x < 0x1_0000_0000 && y < 0x1_0000_0000_0000_0000
    ensures |U32(x)| == 4 && |U64(y)| == 8
    ensures FromU32(U32(x)) == x && FromU64(U64(y)) == y
  {
    RoundTrip32(x, [0, 0, 0, 0]);
    RoundTrip64(y, [0, 0, 0, 0, 0, 0, 0, 0]);
  }

  /** Decoding an encoded request followed by anything returns the request and leaves exactly the rest. */
  lemma RequestRoundTrip(r: Request, rest: Bytes)
    requires Encodable(r)
    ensures var frame := EncodeRequest(r).value;
            DecodeRequest(frame + rest) == Complete(r, |frame|)
  {
    var h := RequestHeader(OpcodeByte(r.opcode), r.requestId, |r.key|, |r.value|, r.ttl);
    var s := h + r.key + r.value + rest;
    RequestHeaderFields(OpcodeByte(r.opcode), r.requestId, |r.key|, |r.value|, r.ttl, r.key + r.value + rest);
    hide RequestHeader, FromU16, FromU32, FromU64;
    assert s == h + (r.key + r.value + rest);
    assert s[32..32 + |r.key|] == r.key;
    assert s[32 + |r.key|..32 + |r.key| + |r.value|] == r.value;
  }

  /** Any frame the decoder accepts is byte for byte the encoding of what it returns. */
  lemma RequestReencodes(s: Bytes)
    requires DecodeRequest(s).Complete?
    ensures var d := DecodeRequest(s);
            d.length <= |s| && EncodeRequest(d.frame) == Some(s[..d.length])
  {
    var d := DecodeRequest(s);
    var r := d.frame;
    assert Encodable(r) && OpcodeByte(r.opcode) == s[5];
    RequestHeaderIs(s);
    hide RequestHeader, FromU16, FromU32, FromU64;
    assert s[..d.length] == s[..32] + r.key + r.value;
  }

  lemma RequestHeaderIs(s: Bytes)
    requires |s| >= 32 && FromU32(s[0..4]) == MAGIC && s[4] == VERSION && FromU16(s[6..8]) == 0
    ensures RequestHeader(s[5], FromU64(s[8..16]), FromU32(s[16..20]), FromU32(s[20..24]), FromU64(s[24..32])) == s[..32]
  {
    RoundTrip32(0, s[0..4]);
    RoundTrip16(0, s[6..8]);
    RoundTrip64(0, s[8..16]);
    RoundTrip32(0, s[16..20]);
    RoundTrip32(0, s[20..24]);
    RoundTrip64(0, s[24..32]);
    hide U16, U32, U64, FromU16, FromU32, FromU64;
    assert s[..32] == s[0..4] + [s[4], s[5]] + s[6..8] + s[8..16] + s[16..20] + s[20..24] + s[24..32];
  }

  /** Every strict prefix of a request frame is incomplete: the decoder neither guesses nor complains early. */
  lemma RequestPrefixIsIncomplete(r: Request, n: nat)
    requires Encodable(r) && n < |EncodeRequest(r).value|
    ensures DecodeRequest(EncodeRequest(r).value[..n]) == Incomplete
  {
    var frame := EncodeRequest(r).value;
    RequestRoundTrip(r, []);
    assert frame + [] == frame && frame[..n] + frame[n..] == frame;
    if 32 <= n {
      SameHeader(frame[..n], frame[n..]);
    }
  }

  lemma SameHeader(s: Bytes, t: Bytes)
    requires |s| >= 32
    ensures RequestFault(s + t) == RequestFault(s) && RequestLength(s + t) == RequestLength(s)
    ensures (s + t)[8..16] == s[8..16]
  {
    hide FromU16, FromU32, FromU64;
    assert (s + t)[0..4] == s[0..4] && (s + t)[6..8] == s[6..8] && (s + t)[8..16] == s[8..16];
    assert (s + t)[16..20] == s[16..20] && (s + t)[20..24] == s[20..24] && (s + t)[24..32] == s[24..32];
  }

  /** A verdict, once reached, is not changed by bytes that arrive later. */
  lemma RequestVerdictIsStable(s: Bytes, t: Bytes)
    requires DecodeRequest(s) != Incomplete
    ensures DecodeRequest(s + t) == DecodeRequest(s)
  {
    SameHeader(s, t);
    hide FromU16, FromU32, FromU64, RequestFault;
    assert (s + t)[16..20] == s[16..20] && (s + t)[24..32] == s[24..32];
    if DecodeRequest(s).Complete? {
      var bodyAt, n := 32 + FromU32(s[16..20]), RequestLength(s);
      assert (s + t)[32..bodyAt] == s[32..bodyAt] && (s + t)[bodyAt..n] == s[bodyAt..n];
    }
  }

  /** A waiting decoder holds less than one maximum frame, and the overflow check of the frame length never fires. */
  lemma RequestBounds(s: Bytes)
    ensures DecodeRequest(s) == Incomplete ==> |s| < MAX_REQUEST_FRAME
    ensures DecodeRequest(s).Complete? ==>
              && REQUEST_HEADER_SIZE <= DecodeRequest(s).length <= |s|
              && DecodeRequest(s).length <= MAX_REQUEST_FRAME && Encodable(DecodeRequest(s).frame)
    ensures DecodeRequest(s).Error? ==> DecodeRequest(s).fault != FrameLength
  {
    hide FromU16, FromU64;
  }

  // Responses.

  lemma ResponseHeaderFields(status: byte, requestId: u64, valueLength: nat, rest: Bytes)
    requires valueLength < 0x1_0000_0000
    ensures var h := ResponseHeader(status, requestId, valueLength);
            var s := h + rest;
            && |h| == 20
            && FromU32(s[0..4]) == MAGIC && s[4] == VERSION && s[5] == status && FromU16(s[6..8]) == 0
            && FromU64(s[8..16]) == requestId && FromU32(s[16..20]) == valueLength
  {
    var s := ResponseHeader(status, requestId, valueLength) + rest;
    hide U32, U64, FromU32, FromU64;
    Lengths(MAGIC, requestId);
    Lengths(valueLength, requestId);
    assert s[0..4] == U32(MAGIC);
    assert s[6..8] == U16(0);
    assert s[8..16] == U64(requestId);
    assert s[16..20] == U32(valueLength);
  }

  lemma ResponseRoundTrip(r: Response, rest: Bytes)
    requires |r.value| <= CacheSpec.MAX_VALUE_LENGTH
    ensures var frame := EncodeResponse(r).value;
            DecodeResponse(frame + rest) == Complete(r, |frame|)
  {
    var h := ResponseHeader(StatusByte(r.status), r.requestId, |r.value|);
    var s := h + r.value + rest;
    ResponseHeaderFields(StatusByte(r.status), r.requestId, |r.value|, r.value + rest);
    hide ResponseHeader, FromU16, FromU32, FromU64;
    assert s == h + (r.value + rest);
    assert s[20..20 + |r.value|] == r.value;
  }

  lemma ResponseReencodes(s: Bytes)
    requires DecodeResponse(s).Complete?
    ensures var d := DecodeResponse(s);
            d.length <= |s| && EncodeResponse(d.frame) == Some(s[..d.length])
  {
    var d := DecodeResponse(s);
    RoundTrip32(0, s[0..4]);
    RoundTrip16(0, s[6..8]);
    RoundTrip64(0, s[8..16]);
    RoundTrip32(0, s[16..20]);
    hide U16, U32, U64, FromU16, FromU32, FromU64;
    assert StatusByte(d.frame.status) == s[5];
    assert s[..20] == s[0..4] + [s[4], s[5]] + s[6..8] + s[8..16] + s[16..20];
    assert s[..d.length] == s[..20] + d.frame.value;
  }

  lemma ResponseVerdictIsStable(s: Bytes, t: Bytes)
    requires DecodeResponse(s) != Incomplete
    ensures DecodeResponse(s + t) == DecodeResponse(s)
  {
    hide FromU16, FromU32, FromU64;
    assert (s + t)[0..4] == s[0..4] && (s + t)[6..8] == s[6..8] && (s + t)[8..16] == s[8..16];
    assert (s + t)[16..20] == s[16..20];
    if DecodeResponse(s).Complete? {
      var n := 20 + FromU32(s[16..20]);
      assert (s + t)[20..n] == s[20..n];
    }
  }

  lemma ResponsePrefixIsIncomplete(r: Response, n: nat)
    requires |r.value| <= CacheSpec.MAX_VALUE_LENGTH && n < |EncodeResponse(r).value|
    ensures DecodeResponse(EncodeResponse(r).value[..n]) == Incomplete
  {
    var frame := EncodeResponse(r).value;
    ResponseRoundTrip(r, []);
    assert frame + [] == frame && frame[..n] + frame[n..] == frame;
    if DecodeResponse(frame[..n]) != Incomplete {
      ResponseVerdictIsStable(frame[..n], frame[n..]);
    }
  }

  // ---- Cache statuses on the wire ----

  function ToWireStatus(status: CacheSpec.Status): WireStatus {
    match status
    case Ok => Ok
    case NotFound => NotFound
    case InvalidKey => InvalidKey
    case KeyTooLarge => KeyTooLarge
    case ValueTooLarge => ValueTooLarge
    case ItemTooLarge => ItemTooLarge
    case InvalidTtl => InvalidTtl
  }

  // ---- Protocol error texts ----

  function RequestMessage(fault: Fault): string {
    match fault
    case BadMagic => "invalid request magic"
    case BadVersion => "unsupported protocol version"
    case BadReserved => "request reserved field must be zero"
    case BadOpcode => "unknown request opcode"
    case KeyLength => "request key length exceeds maximum"
    case ValueLength => "request value length exceeds maximum"
    case FrameLength => "request frame length overflow"
    case UnexpectedValue => "GET and DELETE cannot carry a value"
    case UnexpectedTtl => "GET and DELETE cannot carry a TTL"
    case TtlRange => "request TTL exceeds supported range"
    case BadStatus => ""
  }

  /** The texts are plain ASCII. */
  function Ascii(text: string): Bytes {
    seq(|text|, i requires 0 <= i < |text| => if text[i] < 128 as char then text[i] as int else 0)
  }
}
