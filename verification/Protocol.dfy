/**
 The wire protocol (crates/ss-core/src/protocol.rs): messages, their bincode 1.x
 payloads, and the frame around them.

 Payloads are as bincode::serialize writes them: fixed-width little-endian
 integers, a 32-bit variant index in declaration order, 64-bit length prefixes,
 and bincode::deserialize's tolerance of trailing bytes.  An f32 is carried by
 its 32-bit pattern, a String by its UTF-8 bytes.
 */
module Protocol {
  import opened Wrappers
  import opened Bytes
  import Utf8

  const FRAME_MAGIC: seq<Byte> := [0x53, 0x53]
  const HEADER_SIZE := 7
  const MAX_PAYLOAD_SIZE := 16 * 1024 * 1024
  const CLIPBOARD_CHUNK_SIZE := 64 * 1024
  const MAX_CLIPBOARD_IMAGE_SIZE := 10 * 1024 * 1024

  type F32 = U32
  type Str = s: seq<Byte> | |s| < 0x8000_0000_0000_0000 && Utf8.Valid(s)
  type Hash = s: seq<Byte> | |s| == 32 witness seq(32, _ => 0)

  datatype Button = Left | Right | Middle

  datatype ClipboardFormat = Text | Image

  datatype Message =
    | MouseMove(x: F32, y: F32)
    | MouseDelta(dx: F32, dy: F32)
    | MouseButton(button: Button, buttonPressed: bool)
    | MouseScroll(scrollX: F32, scrollY: F32)
    | KeyPress(keycode: U32, keyPressed: bool)
    | ClipboardData(dataFormat: ClipboardFormat, data: Blob)
    | ClipboardBegin(beginFormat: ClipboardFormat, totalSize: U32, imageWidth: U32, imageHeight: U32)
    | ClipboardChunk(seqNo: U32, chunk: Blob)
    | ClipboardEnd(hash: Hash)
    | Handshake(version: Byte, name: Str, screenWidth: U32, screenHeight: U32)
    | Heartbeat
    | ScreenConfig(width: U32, height: U32)
    | BoundaryEnter(targetScreen: Byte, enterX: F32, enterY: F32)
    | BoundaryLeave(sourceScreen: Byte)
    | PairRequest(pairVersion: Byte, deviceName: Str)
    | PairSpake(msg: Blob)
    | PairConfirm(confirmNonce: Blob, confirmText: Blob)
    | PairResult(resultNonce: Blob, resultText: Blob)
    | PairError(reason: Str)

  // ------------------------------------------------------------------
  // Fields: writers put a value in front of what follows, readers take it off
  // ------------------------------------------------------------------

  type Bits = seq<Byte>

  function PutU8(v: Byte, rest: Bits): Bits { [v] + rest }

  function GetU8(b: Bits): (r: Option<(Byte, Bits)>)
    ensures r.Some? ==> |b| == 1 + |r.value.1|
  {
    if |b| < 1 then None else Some((b[0], b[1..]))
  }

  function PutU32(v: U32, rest: Bits): Bits { ToLE(v, 4) + rest }

  function GetU32(b: Bits): (r: Option<(U32, Bits)>)
    ensures r.Some? ==> |b| == 4 + |r.value.1|
  {
    if |b| < 4 then None else
      FromLEBound(b[..4]);
      Widths();
      Some((FromLE(b[..4]), b[4..]))
  }

  function PutBool(v: bool, rest: Bits): Bits { PutU8(if v then 1 else 0, rest) }

  function GetBool(b: Bits): (r: Option<(bool, Bits)>)
    ensures r.Some? ==> |b| == 1 + |r.value.1|
  {
    var (v, rest) :- GetU8(b);
    if v == 0 then Some((false, rest)) else if v == 1 then Some((true, rest)) else None
  }

  function PutBlob(v: Blob, rest: Bits): Bits { ToLE(|v|, 8) + (v + rest) }

  function GetBlob(b: Bits): (r: Option<(Blob, Bits)>)
    ensures r.Some? ==> |b| == 8 + |r.value.0| + |r.value.1|
  {
    if |b| < 8 then None else
      var n := FromLE(b[..8]);
      if |b| - 8 < n || n >= 0x8000_0000_0000_0000 then None else Some((b[8..8 + n], b[8 + n..]))
  }

  function GetStr(b: Bits): (r: Option<(Str, Bits)>)
    ensures r.Some? ==> |b| == 8 + |r.value.0| + |r.value.1|
  {
    var (v, rest) :- GetBlob(b);
    if Utf8.Valid(v) then Some((v, rest)) else None
  }

  function PutHash(v: Hash, rest: Bits): Bits { v + rest }

  function GetHash(b: Bits): (r: Option<(Hash, Bits)>)
    ensures r.Some? ==> |b| == 32 + |r.value.1|
  {
    if |b| < 32 then None else Some((b[..32], b[32..]))
  }

  function PutButton(v: Button, rest: Bits): Bits {
    PutU32(match v case Left => 0 case Right => 1 case Middle => 2, rest)
  }

  function GetButton(b: Bits): (r: Option<(Button, Bits)>)
    ensures r.Some? ==> |b| == 4 + |r.value.1|
  {
    var (v, rest) :- GetU32(b);
    if v == 0 then Some((Left, rest)) else if v == 1 then Some((Right, rest))
    else if v == 2 then Some((Middle, rest)) else None
  }

  function PutFormat(v: ClipboardFormat, rest: Bits): Bits {
    PutU32(match v case Text => 0 case Image => 1, rest)
  }

  function GetFormat(b: Bits): (r: Option<(ClipboardFormat, Bits)>)
    ensures r.Some? ==> |b| == 4 + |r.value.1|
  {
    var (v, rest) :- GetU32(b);
    if v == 0 then Some((Text, rest)) else if v == 1 then Some((Image, rest)) else None
  }

  lemma GetPutU32(v: U32, rest: Bits)
    ensures GetU32(PutU32(v, rest)) == Some((v, rest))
  {
    Widths();
    FromToLE(v, 4);
    assert PutU32(v, rest)[..4] == ToLE(v, 4);
  }

  lemma GetPutBool(v: bool, rest: Bits)
    ensures GetBool(PutBool(v, rest)) == Some((v, rest))
  {
  }

  lemma GetPutBlob(v: Blob, rest: Bits)
    ensures GetBlob(PutBlob(v, rest)) == Some((v, rest))
  {
    hide ToLE, FromLE;
    Widths();
    FromToLE(|v|, 8);
    var b := PutBlob(v, rest);
    assert b[..8] == ToLE(|v|, 8);
    assert b[8..8 + |v|] == v && b[8 + |v|..] == rest;
  }

  lemma GetPutStr(v: Str, rest: Bits)
    ensures GetStr(PutBlob(v, rest)) == Some((v, rest))
  {
    GetPutBlob(v, rest);
  }

  lemma GetPutHash(v: Hash, rest: Bits)
    ensures GetHash(PutHash(v, rest)) == Some((v, rest))
  {
  }

  lemma GetPutButton(v: Button, rest: Bits)
    ensures GetButton(PutButton(v, rest)) == Some((v, rest))
  {
    GetPutU32(match v case Left => 0 case Right => 1 case Middle => 2, rest);
  }

  lemma GetPutFormat(v: ClipboardFormat, rest: Bits)
    ensures GetFormat(PutFormat(v, rest)) == Some((v, rest))
  {
    GetPutU32(match v case Text => 0 case Image => 1, rest);
  }

  // ------------------------------------------------------------------
  // Messages
  // ------------------------------------------------------------------

  /** Variant index: position in the declaration, not the frame's type byte. */
  function VariantIndex(m: Message): U32 {
    match m
    case MouseMove(_, _) => 0
    case MouseDelta(_, _) => 1
    case MouseButton(_, _) => 2
    case MouseScroll(_, _) => 3
    case KeyPress(_, _) => 4
    case ClipboardData(_, _) => 5
    case ClipboardBegin(_, _, _, _) => 6
    case ClipboardChunk(_, _) => 7
    case ClipboardEnd(_) => 8
    case Handshake(_, _, _, _) => 9
    case Heartbeat => 10
    case ScreenConfig(_, _) => 11
    case BoundaryEnter(_, _, _) => 12
    case BoundaryLeave(_) => 13
    case PairRequest(_, _) => 14
    case PairSpake(_) => 15
    case PairConfirm(_, _) => 16
    case PairResult(_, _) => 17
    case PairError(_) => 18
  }

  function EncodeFields(m: Message): Bits {
    match m
    case MouseMove(x, y) => PutU32(x, PutU32(y, []))
    case MouseDelta(dx, dy) => PutU32(dx, PutU32(dy, []))
    case MouseButton(b, p) => PutButton(b, PutBool(p, []))
    case MouseScroll(dx, dy) => PutU32(dx, PutU32(dy, []))
    case KeyPress(k, p) => PutU32(k, PutBool(p, []))
    case ClipboardData(f, d) => PutFormat(f, PutBlob(d, []))
    case ClipboardBegin(f, t, w, h) => PutFormat(f, PutU32(t, PutU32(w, PutU32(h, []))))
    case ClipboardChunk(s, d) => PutU32(s, PutBlob(d, []))
    case ClipboardEnd(h) => PutHash(h, [])
    case Handshake(v, n, w, h) => PutU8(v, PutBlob(n, PutU32(w, PutU32(h, []))))
    case Heartbeat => []
    case ScreenConfig(w, h) => PutU32(w, PutU32(h, []))
    case BoundaryEnter(t, x, y) => PutU8(t, PutU32(x, PutU32(y, [])))
    case BoundaryLeave(s) => PutU8(s, [])
    case PairRequest(v, n) => PutU8(v, PutBlob(n, []))
    case PairSpake(b) => PutBlob(b, [])
    case PairConfirm(n, c) => PutBlob(n, PutBlob(c, []))
    case PairResult(n, c) => PutBlob(n, PutBlob(c, []))
    case PairError(r) => PutBlob(r, [])
  }

  /** Message::encode; bincode never refuses one of these values. */
  function Encode(m: Message): Bits {
    PutU32(VariantIndex(m), EncodeFields(m))
  }

  function DecodeInput(tag: U32, b: Bits): Option<Message>
    requires tag < 5
  {
    if tag == 2 then
      var (button, r) :- GetButton(b);
      var (p, r2) :- GetBool(r);
      Some(MouseButton(button, p))
    else
      var (v, r) :- GetU32(b);
      if tag == 4 then
        var (p, r2) :- GetBool(r);
        Some(KeyPress(v, p))
      else
        var (w, r2) :- GetU32(r);
        Some(if tag == 0 then MouseMove(v, w) else if tag == 1 then MouseDelta(v, w) else MouseScroll(v, w))
  }

  function DecodeClipboard(tag: U32, b: Bits): Option<Message>
    requires 5 <= tag < 9
  {
    if tag == 5 then
      var (f, r) :- GetFormat(b);
      var (d, r2) :- GetBlob(r);
      Some(ClipboardData(f, d))
    else if tag == 6 then
      var (f, r) :- GetFormat(b);
      var (t, r2) :- GetU32(r);
      var (w, r3) :- GetU32(r2);
      var (h, r4) :- GetU32(r3);
      Some(ClipboardBegin(f, t, w, h))
    else if tag == 7 then
      var (s, r) :- GetU32(b);
      var (d, r2) :- GetBlob(r);
      Some(ClipboardChunk(s, d))
    else
      var (h, r) :- GetHash(b);
      Some(ClipboardEnd(h))
  }

  function DecodeSession(tag: U32, b: Bits): Option<Message>
    requires 9 <= tag < 14
  {
    if tag == 9 then
      var (v, r) :- GetU8(b);
      var (n, r2) :- GetStr(r);
      var (w, r3) :- GetU32(r2);
      var (h, r4) :- GetU32(r3);
      Some(Handshake(v, n, w, h))
    else if tag == 10 then Some(Heartbeat)
    else if tag == 11 then
      var (w, r) :- GetU32(b);
      var (h, r2) :- GetU32(r);
      Some(ScreenConfig(w, h))
    else if tag == 12 then
      var (t, r) :- GetU8(b);
      var (x, r2) :- GetU32(r);
      var (y, r3) :- GetU32(r2);
      Some(BoundaryEnter(t, x, y))
    else
      var (s, r) :- GetU8(b);
      Some(BoundaryLeave(s))
  }

  function DecodePairing(tag: U32, b: Bits): Option<Message>
    requires 14 <= tag < 19
  {
    if tag == 14 then
      var (v, r) :- GetU8(b);
      var (n, r2) :- GetStr(r);
      Some(PairRequest(v, n))
    else if tag == 15 then
      var (d, r) :- GetBlob(b);
      Some(PairSpake(d))
    else if tag == 18 then
      var (s, r) :- GetStr(b);
      Some(PairError(s))
    else
      var (n, r) :- GetBlob(b);
      var (c, r2) :- GetBlob(r);
      Some(if tag == 16 then PairConfirm(n, c) else PairResult(n, c))
  }

  /** Message::decode; the frame's type byte plays no part in it. */
  function Decode(b: Bits): Option<Message> {
    var (tag, r) :- GetU32(b);
    if tag < 5 then DecodeInput(tag, r)
    else if tag < 9 then DecodeClipboard(tag, r)
    else if tag < 14 then DecodeSession(tag, r)
    else if tag < 19 then DecodePairing(tag, r)
    else None
  }

  lemma InputRoundTrip(m: Message)
    requires VariantIndex(m) < 5
    ensures DecodeInput(VariantIndex(m), EncodeFields(m)) == Some(m)
  {
    hide PutU32, GetU32, PutBool, GetBool, PutButton, GetButton;
    match m {
      case MouseMove(x, y) => GetPutU32(x, PutU32(y, [])); GetPutU32(y, []);
      case MouseDelta(x, y) => GetPutU32(x, PutU32(y, [])); GetPutU32(y, []);
      case MouseScroll(x, y) => GetPutU32(x, PutU32(y, [])); GetPutU32(y, []);
      case MouseButton(b, p) => GetPutButton(b, PutBool(p, [])); GetPutBool(p, []);
      case KeyPress(k, p) => GetPutU32(k, PutBool(p, [])); GetPutBool(p, []);
    }
  }

  lemma ClipboardRoundTrip(m: Message)
    requires 5 <= VariantIndex(m) < 9
    ensures DecodeClipboard(VariantIndex(m), EncodeFields(m)) == Some(m)
  {
    hide PutU32, GetU32, PutBlob, GetBlob, PutHash, GetHash, PutFormat, GetFormat;
    match m {
      case ClipboardData(f, d) => GetPutFormat(f, PutBlob(d, [])); GetPutBlob(d, []);
      case ClipboardBegin(f, t, w, h) =>
        GetPutFormat(f, PutU32(t, PutU32(w, PutU32(h, []))));
        GetPutU32(t, PutU32(w, PutU32(h, [])));
        GetPutU32(w, PutU32(h, []));
        GetPutU32(h, []);
      case ClipboardChunk(s, d) => GetPutU32(s, PutBlob(d, [])); GetPutBlob(d, []);
      case ClipboardEnd(h) => GetPutHash(h, []);
    }
  }

  lemma SessionRoundTrip(m: Message)
    requires 9 <= VariantIndex(m) < 14
    ensures DecodeSession(VariantIndex(m), EncodeFields(m)) == Some(m)
  {
    hide PutU32, GetU32, PutBlob, GetStr;
    match m {
      case Handshake(v, n, w, h) =>
        GetPutStr(n, PutU32(w, PutU32(h, [])));
        GetPutU32(w, PutU32(h, []));
        GetPutU32(h, []);
      case Heartbeat =>
      case ScreenConfig(w, h) => GetPutU32(w, PutU32(h, [])); GetPutU32(h, []);
      case BoundaryEnter(t, x, y) => GetPutU32(x, PutU32(y, [])); GetPutU32(y, []);
      case BoundaryLeave(s) =>
    }
  }

  lemma PairingRoundTrip(m: Message)
    requires 14 <= VariantIndex(m) < 19
    ensures DecodePairing(VariantIndex(m), EncodeFields(m)) == Some(m)
  {
    hide PutBlob, GetBlob, GetStr;
    match m {
      case PairRequest(v, n) => GetPutStr(n, []);
      case PairSpake(b) => GetPutBlob(b, []);
      case PairConfirm(n, c) => GetPutBlob(n, PutBlob(c, [])); GetPutBlob(c, []);
      case PairResult(n, c) => GetPutBlob(n, PutBlob(c, [])); GetPutBlob(c, []);
      case PairError(r) => GetPutStr(r, []);
    }
  }

  /** Every message survives its payload encoding. */
  lemma DecodeEncode(m: Message)
    ensures Decode(Encode(m)) == Some(m)
  {
    hide PutU32, GetU32, EncodeFields, DecodeInput, DecodeClipboard, DecodeSession, DecodePairing;
    GetPutU32(VariantIndex(m), EncodeFields(m));
    if VariantIndex(m) < 5 {
      InputRoundTrip(m);
    } else if VariantIndex(m) < 9 {
      ClipboardRoundTrip(m);
    } else if VariantIndex(m) < 14 {
      SessionRoundTrip(m);
    } else {
      PairingRoundTrip(m);
    }
  }

  lemma InputSize(tag: U32, b: Bits)
    requires tag < 5 && DecodeInput(tag, b).Some?
    ensures |EncodeFields(DecodeInput(tag, b).value)| <= |b|
  {
    hide GetU32, GetBool, GetButton, ToLE;
  }

  lemma ClipboardSize(tag: U32, b: Bits)
    requires 5 <= tag < 9 && DecodeClipboard(tag, b).Some?
    ensures |EncodeFields(DecodeClipboard(tag, b).value)| <= |b|
  {
    hide GetU32, GetBlob, GetHash, GetFormat, ToLE;
  }

  lemma SessionSize(tag: U32, b: Bits)
    requires 9 <= tag < 14 && DecodeSession(tag, b).Some?
    ensures |EncodeFields(DecodeSession(tag, b).value)| <= |b|
  {
    hide GetU8, GetU32, GetStr, ToLE;
  }

  lemma PairingSize(tag: U32, b: Bits)
    requires 14 <= tag < 19 && DecodePairing(tag, b).Some?
    ensures |EncodeFields(DecodePairing(tag, b).value)| <= |b|
  {
    hide GetU8, GetBlob, GetStr, ToLE;
  }

  /** No message is decoded from fewer bytes than it takes to encode. */
  lemma DecodeSize(b: Bits)
    requires Decode(b).Some?
    ensures |Encode(Decode(b).value)| <= |b|
  {
    hide GetU32, EncodeFields, DecodeInput, DecodeClipboard, DecodeSession, DecodePairing, ToLE;
    var (tag, r) := GetU32(b).value;
    if tag < 5 {
      InputSize(tag, r);
    } else if tag < 9 {
      ClipboardSize(tag, r);
    } else if tag < 14 {
      SessionSize(tag, r);
    } else {
      PairingSize(tag, r);
    }
  }

  // ------------------------------------------------------------------
  // Truncated payloads
  // ------------------------------------------------------------------

  lemma ExtendU8(b: Bits, q: Bits)
    requires GetU8(b).Some?
    ensures GetU8(b + q) == Some((GetU8(b).value.0, GetU8(b).value.1 + q))
  {
    assert (b + q)[1..] == b[1..] + q;
  }

  lemma ExtendU32(b: Bits, q: Bits)
    requires GetU32(b).Some?
    ensures GetU32(b + q) == Some((GetU32(b).value.0, GetU32(b).value.1 + q))
  {
    hide FromLE;
    assert (b + q)[..4] == b[..4] && (b + q)[4..] == b[4..] + q;
  }

  lemma ExtendBool(b: Bits, q: Bits)
    requires GetBool(b).Some?
    ensures GetBool(b + q) == Some((GetBool(b).value.0, GetBool(b).value.1 + q))
  {
    ExtendU8(b, q);
  }

  lemma ExtendBlob(b: Bits, q: Bits)
    requires GetBlob(b).Some?
    ensures GetBlob(b + q) == Some((GetBlob(b).value.0, GetBlob(b).value.1 + q))
  {
    hide FromLE;
    var n := FromLE(b[..8]);
    assert (b + q)[..8] == b[..8];
    assert (b + q)[8..8 + n] == b[8..8 + n] && (b + q)[8 + n..] == b[8 + n..] + q;
  }

  lemma ExtendStr(b: Bits, q: Bits)
    requires GetStr(b).Some?
    ensures GetStr(b + q) == Some((GetStr(b).value.0, GetStr(b).value.1 + q))
  {
    hide GetBlob;
    ExtendBlob(b, q);
  }

  lemma ExtendHash(b: Bits, q: Bits)
    requires GetHash(b).Some?
    ensures GetHash(b + q) == Some((GetHash(b).value.0, GetHash(b).value.1 + q))
  {
    assert (b + q)[..32] == b[..32] && (b + q)[32..] == b[32..] + q;
  }

  lemma ExtendButton(b: Bits, q: Bits)
    requires GetButton(b).Some?
    ensures GetButton(b + q) == Some((GetButton(b).value.0, GetButton(b).value.1 + q))
  {
    hide GetU32;
    ExtendU32(b, q);
  }

  lemma ExtendFormat(b: Bits, q: Bits)
    requires GetFormat(b).Some?
    ensures GetFormat(b + q) == Some((GetFormat(b).value.0, GetFormat(b).value.1 + q))
  {
    hide GetU32;
    ExtendU32(b, q);
  }

  lemma ExtendInput(tag: U32, b: Bits, q: Bits)
    requires tag < 5 && DecodeInput(tag, b).Some?
    ensures DecodeInput(tag, b + q) == DecodeInput(tag, b)
  {
    hide GetU32, GetBool, GetButton;
    if tag == 2 {
      ExtendButton(b, q);
      ExtendBool(GetButton(b).value.1, q);
    } else {
      ExtendU32(b, q);
      var r := GetU32(b).value.1;
      if tag == 4 {
        ExtendBool(r, q);
      } else {
        ExtendU32(r, q);
      }
    }
  }

  lemma ExtendClipboard(tag: U32, b: Bits, q: Bits)
    requires 5 <= tag < 9 && DecodeClipboard(tag, b).Some?
    ensures DecodeClipboard(tag, b + q) == DecodeClipboard(tag, b)
  {
    hide GetU32, GetBlob, GetHash, GetFormat;
    if tag == 5 {
      ExtendFormat(b, q);
      ExtendBlob(GetFormat(b).value.1, q);
    } else if tag == 6 {
      ExtendFormat(b, q);
      var r := GetFormat(b).value.1;
      ExtendU32(r, q);
      var r2 := GetU32(r).value.1;
      ExtendU32(r2, q);
      ExtendU32(GetU32(r2).value.1, q);
    } else if tag == 7 {
      ExtendU32(b, q);
      ExtendBlob(GetU32(b).value.1, q);
    } else {
      ExtendHash(b, q);
    }
  }

  lemma ExtendSession(tag: U32, b: Bits, q: Bits)
    requires 9 <= tag < 14 && DecodeSession(tag, b).Some?
    ensures DecodeSession(tag, b + q) == DecodeSession(tag, b)
  {
    hide GetU8, GetU32, GetStr;
    if tag == 9 {
      ExtendU8(b, q);
      var r := GetU8(b).value.1;
      ExtendStr(r, q);
      var r2 := GetStr(r).value.1;
      ExtendU32(r2, q);
      ExtendU32(GetU32(r2).value.1, q);
    } else if tag == 11 {
      ExtendU32(b, q);
      ExtendU32(GetU32(b).value.1, q);
    } else if tag == 12 {
      ExtendU8(b, q);
      var r := GetU8(b).value.1;
      ExtendU32(r, q);
      ExtendU32(GetU32(r).value.1, q);
    } else if tag == 13 {
      ExtendU8(b, q);
    }
  }

  lemma ExtendPairing(tag: U32, b: Bits, q: Bits)
    requires 14 <= tag < 19 && DecodePairing(tag, b).Some?
    ensures DecodePairing(tag, b + q) == DecodePairing(tag, b)
  {
    hide GetU8, GetBlob, GetStr;
    if tag == 14 {
      ExtendU8(b, q);
      ExtendStr(GetU8(b).value.1, q);
    } else if tag == 15 {
      ExtendBlob(b, q);
    } else if tag == 18 {
      ExtendStr(b, q);
    } else {
      ExtendBlob(b, q);
      ExtendBlob(GetBlob(b).value.1, q);
    }
  }

  /** Trailing bytes never change what a payload decodes to. */
  lemma DecodeExtends(b: Bits, q: Bits)
    requires Decode(b).Some?
    ensures Decode(b + q) == Decode(b)
  {
    hide GetU32, DecodeInput, DecodeClipboard, DecodeSession, DecodePairing;
    ExtendU32(b, q);
    var (tag, r) := GetU32(b).value;
    if tag < 5 {
      ExtendInput(tag, r, q);
    } else if tag < 9 {
      ExtendClipboard(tag, r, q);
    } else if tag < 14 {
      ExtendSession(tag, r, q);
    } else {
      ExtendPairing(tag, r, q);
    }
  }

  /** A payload with its end missing decodes to nothing at all. */
  lemma DecodeTruncated(m: Message, n: nat)
    requires n < |Encode(m)|
    ensures Decode(Encode(m)[..n]) == None
  {
    hide Encode, Decode;
    var b, q := Encode(m)[..n], Encode(m)[n..];
    if Decode(b).Some? {
      assert b + q == Encode(m);
      DecodeExtends(b, q);
      DecodeEncode(m);
      DecodeSize(b);
      assert false;
    }
  }

  // ------------------------------------------------------------------
  // Only encodings decode
  // ------------------------------------------------------------------

  lemma PrependPrefix(a: Bits, x: Bits, y: Bits)
    requires x <= y
    ensures a + x <= a + y
  {
    assert (a + y)[..|a + x|] == a + y[..|x|];
  }

  lemma TookU32(b: Bits, x: Bits)
    requires GetU32(b).Some? && x <= GetU32(b).value.1
    ensures PutU32(GetU32(b).value.0, x) <= b
  {
    hide ToLE, FromLE;
    ToFromLE(b[..4]);
    assert b == b[..4] + b[4..];
    PrependPrefix(b[..4], x, b[4..]);
  }

  lemma TookU8(b: Bits, x: Bits)
    requires GetU8(b).Some? && x <= GetU8(b).value.1
    ensures PutU8(GetU8(b).value.0, x) <= b
  {
    assert b == [b[0]] + b[1..];
    PrependPrefix([b[0]], x, b[1..]);
  }

  lemma TookBool(b: Bits, x: Bits)
    requires GetBool(b).Some? && x <= GetBool(b).value.1
    ensures PutBool(GetBool(b).value.0, x) <= b
  {
    TookU8(b, x);
  }

  lemma TookBlob(b: Bits, x: Bits)
    requires GetBlob(b).Some? && x <= GetBlob(b).value.1
    ensures PutBlob(GetBlob(b).value.0, x) <= b
  {
    hide ToLE, FromLE;
    var n := FromLE(b[..8]);
    var v := b[8..8 + n];
    ToFromLE(b[..8]);
    PrependPrefix(v, x, b[8 + n..]);
    assert v + b[8 + n..] == b[8..];
    PrependPrefix(b[..8], v + x, b[8..]);
    assert b == b[..8] + b[8..];
  }

  lemma TookStr(b: Bits, x: Bits)
    requires GetStr(b).Some? && x <= GetStr(b).value.1
    ensures PutBlob(GetStr(b).value.0, x) <= b
  {
    hide GetBlob, PutBlob;
    TookBlob(b, x);
  }

  lemma TookHash(b: Bits, x: Bits)
    requires GetHash(b).Some? && x <= GetHash(b).value.1
    ensures PutHash(GetHash(b).value.0, x) <= b
  {
    assert b == b[..32] + b[32..];
    PrependPrefix(b[..32], x, b[32..]);
  }

  lemma TookButton(b: Bits, x: Bits)
    requires GetButton(b).Some? && x <= GetButton(b).value.1
    ensures PutButton(GetButton(b).value.0, x) <= b
  {
    hide GetU32, PutU32;
    TookU32(b, x);
  }

  lemma TookFormat(b: Bits, x: Bits)
    requires GetFormat(b).Some? && x <= GetFormat(b).value.1
    ensures PutFormat(GetFormat(b).value.0, x) <= b
  {
    hide GetU32, PutU32;
    TookU32(b, x);
  }

  lemma TookInput(tag: U32, b: Bits)
    requires tag < 5 && DecodeInput(tag, b).Some?
    ensures var m := DecodeInput(tag, b).value; EncodeFields(m) <= b && VariantIndex(m) == tag
  {
    hide GetU32, GetBool, GetButton, PutU32, PutBool, PutButton;
    if tag == 2 {
      var r := GetButton(b).value.1;
      TookBool(r, []);
      TookButton(b, PutBool(GetBool(r).value.0, []));
    } else {
      var r := GetU32(b).value.1;
      if tag == 4 {
        TookBool(r, []);
        TookU32(b, PutBool(GetBool(r).value.0, []));
      } else {
        TookU32(r, []);
        TookU32(b, PutU32(GetU32(r).value.0, []));
      }
    }
  }

  lemma TookClipboard(tag: U32, b: Bits)
    requires 5 <= tag < 9 && DecodeClipboard(tag, b).Some?
    ensures var m := DecodeClipboard(tag, b).value; EncodeFields(m) <= b && VariantIndex(m) == tag
  {
    hide GetU32, GetBlob, GetHash, GetFormat, PutU32, PutBlob, PutHash, PutFormat;
    if tag == 5 {
      var r := GetFormat(b).value.1;
      TookBlob(r, []);
      TookFormat(b, PutBlob(GetBlob(r).value.0, []));
    } else if tag == 6 {
      var r := GetFormat(b).value.1;
      var (t, r2) := GetU32(r).value;
      var (w, r3) := GetU32(r2).value;
      var h := GetU32(r3).value.0;
      TookU32(r3, []);
      TookU32(r2, PutU32(h, []));
      TookU32(r, PutU32(w, PutU32(h, [])));
      TookFormat(b, PutU32(t, PutU32(w, PutU32(h, []))));
    } else if tag == 7 {
      var r := GetU32(b).value.1;
      TookBlob(r, []);
      TookU32(b, PutBlob(GetBlob(r).value.0, []));
    } else {
      TookHash(b, []);
    }
  }

  lemma TookSession(tag: U32, b: Bits)
    requires 9 <= tag < 14 && DecodeSession(tag, b).Some?
    ensures var m := DecodeSession(tag, b).value; EncodeFields(m) <= b && VariantIndex(m) == tag
  {
    hide GetU8, GetU32, GetStr, PutU8, PutU32, PutBlob;
    if tag == 9 {
      var r := GetU8(b).value.1;
      var (n, r2) := GetStr(r).value;
      var (w, r3) := GetU32(r2).value;
      var h := GetU32(r3).value.0;
      TookU32(r3, []);
      TookU32(r2, PutU32(h, []));
      TookStr(r, PutU32(w, PutU32(h, [])));
      TookU8(b, PutBlob(n, PutU32(w, PutU32(h, []))));
    } else if tag == 11 {
      var r := GetU32(b).value.1;
      TookU32(r, []);
      TookU32(b, PutU32(GetU32(r).value.0, []));
    } else if tag == 12 {
      var r := GetU8(b).value.1;
      var (x, r2) := GetU32(r).value;
      TookU32(r2, []);
      TookU32(r, PutU32(GetU32(r2).value.0, []));
      TookU8(b, PutU32(x, PutU32(GetU32(r2).value.0, [])));
    } else if tag == 13 {
      TookU8(b, []);
    }
  }

  lemma TookPairing(tag: U32, b: Bits)
    requires 14 <= tag < 19 && DecodePairing(tag, b).Some?
    ensures var m := DecodePairing(tag, b).value; EncodeFields(m) <= b && VariantIndex(m) == tag
  {
    hide GetU8, GetBlob, GetStr, PutU8, PutBlob;
    if tag == 14 {
      var r := GetU8(b).value.1;
      TookStr(r, []);
      TookU8(b, PutBlob(GetStr(r).value.0, []));
    } else if tag == 15 {
      TookBlob(b, []);
    } else if tag == 18 {
      TookStr(b, []);
    } else {
      var r := GetBlob(b).value.1;
      TookBlob(r, []);
      TookBlob(b, PutBlob(GetBlob(r).value.0, []));
    }
  }

  lemma DecodedIsEncoded(b: Bits)
    requires Decode(b).Some?
    ensures Encode(Decode(b).value) <= b
  {
    hide GetU32, PutU32, EncodeFields, DecodeInput, DecodeClipboard, DecodeSession, DecodePairing;
    var (tag, r) := GetU32(b).value;
    if tag < 5 {
      TookInput(tag, r);
    } else if tag < 9 {
      TookClipboard(tag, r);
    } else if tag < 14 {
      TookSession(tag, r);
    } else {
      TookPairing(tag, r);
    }
    TookU32(b, EncodeFields(Decode(b).value));
  }

  /** Bytes decode to a message if and only if they start with its encoding. */
  lemma DecodeIff(b: Bits, m: Message)
    ensures Decode(b) == Some(m) <==> Encode(m) <= b
  {
    hide Encode, Decode;
    if Decode(b) == Some(m) {
      DecodedIsEncoded(b);
    }
    if Encode(m) <= b {
      DecodeEncode(m);
      DecodeExtends(Encode(m), b[|Encode(m)|..]);
      assert Encode(m) + b[|Encode(m)|..] == b;
    }
  }

  // ------------------------------------------------------------------
  // Frames
  // ------------------------------------------------------------------

  /** The type byte written in a message's frame header. */
  function TypeByte(m: Message): Byte {
    match m
    case MouseMove(_, _) => 0x01
    case MouseButton(_, _) => 0x02
    case MouseScroll(_, _) => 0x03
    case KeyPress(_, _) => 0x04
    case ClipboardData(_, _) => 0x05
    case ClipboardBegin(_, _, _, _) => 0x06
    case ClipboardChunk(_, _) => 0x07
    case ClipboardEnd(_) => 0x08
    case Handshake(_, _, _, _) => 0x09
    case Heartbeat => 0x0A
    case ScreenConfig(_, _) => 0x0B
    case BoundaryEnter(_, _, _) => 0x0C
    case BoundaryLeave(_) => 0x0D
    case MouseDelta(_, _) => 0x0E
    case PairRequest(_, _) => 0x0F
    case PairSpake(_) => 0x10
    case PairConfirm(_, _) => 0x11
    case PairResult(_, _) => 0x12
    case PairError(_) => 0x13
  }

  /** MessageType::try_from accepts exactly these. */
  predicate KnownType(b: Byte) {
    0x01 <= b <= 0x13
  }

  /** Type bytes are accepted by try_from, and tell the message kinds apart. */
  lemma TypeBytesDistinct(a: Message, b: Message)
    ensures KnownType(TypeByte(a))
    ensures TypeByte(a) == TypeByte(b) <==> VariantIndex(a) == VariantIndex(b)
  {
  }

  /** A whole frame; the length field holds the payload length modulo 2^32. */
  function Frame(m: Message): Bits {
    FRAME_MAGIC + ([TypeByte(m)] + (ToLE(|Encode(m)| % 0x1_0000_0000, 4) + Encode(m)))
  }

  /** Frame::to_bytes, growing its buffer piece by piece. */
  method ToBytes(m: Message) returns (buf: seq<Byte>)
    ensures buf == Frame(m)
  {
    hide Encode, ToLE, TypeByte;
    var payload := Encode(m);
    var len := |payload| % 0x1_0000_0000;
    buf := [];
    buf := buf + FRAME_MAGIC;
    buf := buf + [TypeByte(m)];
    buf := buf + ToLE(len, 4);
    buf := buf + payload;
    assert buf == FRAME_MAGIC + ([TypeByte(m)] + (ToLE(len, 4) + payload));
  }

  predicate Fits(m: Message) {
    |Encode(m)| <= MAX_PAYLOAD_SIZE
  }

  lemma FrameSize(m: Message)
    ensures |Frame(m)| == HEADER_SIZE + |Encode(m)| && |Encode(m)| >= 4
  {
  }

  // ------------------------------------------------------------------
  // The wire format, field by field
  // ------------------------------------------------------------------

  /** The kinds of field bincode writes. */
  datatype Field =
    | OneByte(b: Byte)
    | Number(n: U32)
    | Flag(on: bool)
    | Counted(bytes: Blob)   // length first, in eight bytes
    | Fixed(raw: seq<Byte>)

  function FieldBytes(f: Field): seq<Byte> {
    match f
    case OneByte(b) => [b]
    case Number(n) => [n % 256, n / 0x100 % 256, n / 0x1_0000 % 256, n / 0x100_0000]
    case Flag(on) => if on then [1] else [0]
    case Counted(bytes) => ToLE(|bytes|, 8) + bytes
    case Fixed(raw) => raw
  }

  function Flatten(fs: seq<Field>): seq<Byte> {
    if fs == [] then [] else FieldBytes(fs[0]) + Flatten(fs[1..])
  }

  function ButtonNumber(b: Button): Field {
    match b case Left => Number(0) case Right => Number(1) case Middle => Number(2)
  }

  function FormatNumber(f: ClipboardFormat): Field {
    match f case Text => Number(0) case Image => Number(1)
  }

  /** A message as the source declares it: the number of its variant, then its fields in order. */
  function Declared(m: Message): seq<Field> {
    match m
    case MouseMove(x, y) => [Number(0), Number(x), Number(y)]
    case MouseDelta(dx, dy) => [Number(1), Number(dx), Number(dy)]
    case MouseButton(b, p) => [Number(2), ButtonNumber(b), Flag(p)]
    case MouseScroll(dx, dy) => [Number(3), Number(dx), Number(dy)]
    case KeyPress(k, p) => [Number(4), Number(k), Flag(p)]
    case ClipboardData(f, data) => [Number(5), FormatNumber(f), Counted(data)]
    case ClipboardBegin(f, t, w, h) => [Number(6), FormatNumber(f), Number(t), Number(w), Number(h)]
    case ClipboardChunk(n, data) => [Number(7), Number(n), Counted(data)]
    case ClipboardEnd(h) => [Number(8), Fixed(h)]
    case Handshake(v, n, w, h) => [Number(9), OneByte(v), Counted(n), Number(w), Number(h)]
    case Heartbeat => [Number(10)]
    case ScreenConfig(w, h) => [Number(11), Number(w), Number(h)]
    case BoundaryEnter(t, x, y) => [Number(12), OneByte(t), Number(x), Number(y)]
    case BoundaryLeave(source) => [Number(13), OneByte(source)]
    case PairRequest(v, n) => [Number(14), OneByte(v), Counted(n)]
    case PairSpake(b) => [Number(15), Counted(b)]
    case PairConfirm(n, c) => [Number(16), Counted(n), Counted(c)]
    case PairResult(n, c) => [Number(17), Counted(n), Counted(c)]
    case PairError(r) => [Number(18), Counted(r)]
  }

  lemma NumberBytes(n: U32)
    ensures FieldBytes(Number(n)) == ToLE(n, 4)
  {
    hide ToLE;
    FourBytes(n);
    assert n / 0x100_0000 % 256 == n / 0x100_0000;
  }

  lemma FlattenCons(f: Field, fs: seq<Field>)
    ensures Flatten([f] + fs) == FieldBytes(f) + Flatten(fs)
  {
    assert ([f] + fs)[1..] == fs;
  }

  lemma PutField(f: Field, fs: seq<Field>)
    ensures f.OneByte? ==> Flatten([f] + fs) == PutU8(f.b, Flatten(fs))
    ensures f.Number? ==> Flatten([f] + fs) == PutU32(f.n, Flatten(fs))
    ensures f.Flag? ==> Flatten([f] + fs) == PutBool(f.on, Flatten(fs))
    ensures f.Counted? ==> Flatten([f] + fs) == PutBlob(f.bytes, Flatten(fs))
    ensures f.Fixed? && |f.raw| == 32 ==> Flatten([f] + fs) == PutHash(f.raw, Flatten(fs))
  {
    hide ToLE;
    FlattenCons(f, fs);
    if f.Number? {
      NumberBytes(f.n);
    } else if f.Counted? {
      assert (ToLE(|f.bytes|, 8) + f.bytes) + Flatten(fs) == ToLE(|f.bytes|, 8) + (f.bytes + Flatten(fs));
    }
  }

  lemma PutChoices(b: Button, c: ClipboardFormat, fs: seq<Field>)
    ensures Flatten([ButtonNumber(b)] + fs) == PutButton(b, Flatten(fs))
    ensures Flatten([FormatNumber(c)] + fs) == PutFormat(c, Flatten(fs))
  {
    hide ToLE, Flatten, PutU32;
    PutField(ButtonNumber(b), fs);
    PutField(FormatNumber(c), fs);
  }

  lemma InputLayout(m: Message)
    requires VariantIndex(m) < 5
    ensures Flatten(Declared(m)) == Encode(m)
  {
    hide Flatten, PutU32, PutBool, PutButton;
    FlattenNone();
    var f := Declared(m);
    assert f == [f[0]] + ([f[1]] + ([f[2]] + []));
    PutField(f[2], []);
    PutField(f[1], [f[2]] + []);
    PutField(f[0], [f[1]] + ([f[2]] + []));
    if m.MouseButton? {
      PutChoices(m.button, ClipboardFormat.Text, [f[2]] + []);
    }
  }

  lemma FlattenNone()
    ensures Flatten([]) == []
  {
  }

  lemma ClipboardLayout(m: Message)
    requires 5 <= VariantIndex(m) < 9
    ensures Flatten(Declared(m)) == Encode(m)
  {
    hide Flatten, PutU32, PutBlob, PutFormat, PutHash;
    FlattenNone();
    var f := Declared(m);
    match m {
      case ClipboardBegin(c, t, w, h) =>
        assert f == [f[0]] + ([f[1]] + ([f[2]] + ([f[3]] + ([f[4]] + []))));
        PutField(f[4], []);
        PutField(f[3], [f[4]] + []);
        PutField(f[2], [f[3]] + ([f[4]] + []));
        PutChoices(Left, c, [f[2]] + ([f[3]] + ([f[4]] + [])));
        PutField(f[0], [f[1]] + ([f[2]] + ([f[3]] + ([f[4]] + []))));
      case ClipboardEnd(_) =>
        assert f == [f[0]] + ([f[1]] + []);
        PutField(f[1], []);
        PutField(f[0], [f[1]] + []);
      case ClipboardData(c, _) =>
        assert f == [f[0]] + ([f[1]] + ([f[2]] + []));
        PutField(f[2], []);
        PutChoices(Left, c, [f[2]] + []);
        PutField(f[0], [f[1]] + ([f[2]] + []));
      case ClipboardChunk(_, _) =>
        assert f == [f[0]] + ([f[1]] + ([f[2]] + []));
        PutField(f[2], []);
        PutField(f[1], [f[2]] + []);
        PutField(f[0], [f[1]] + ([f[2]] + []));
    }
  }

  lemma SessionLayout(m: Message)
    requires 9 <= VariantIndex(m) < 14
    ensures Flatten(Declared(m)) == Encode(m)
  {
    hide Flatten, PutU8, PutU32, PutBlob;
    FlattenNone();
    var f := Declared(m);
    match m {
      case Handshake(v, n, w, h) =>
        assert f == [f[0]] + ([f[1]] + ([f[2]] + ([f[3]] + ([f[4]] + []))));
        PutField(f[4], []);
        PutField(f[3], [f[4]] + []);
        PutField(f[2], [f[3]] + ([f[4]] + []));
        PutField(f[1], [f[2]] + ([f[3]] + ([f[4]] + [])));
        PutField(f[0], [f[1]] + ([f[2]] + ([f[3]] + ([f[4]] + []))));
      case Heartbeat =>
        assert f == [f[0]] + [];
        PutField(f[0], []);
      case ScreenConfig(w, h) =>
        assert f == [f[0]] + ([f[1]] + ([f[2]] + []));
        PutField(f[2], []);
        PutField(f[1], [f[2]] + []);
        PutField(f[0], [f[1]] + ([f[2]] + []));
      case BoundaryEnter(t, x, y) =>
        assert f == [f[0]] + ([f[1]] + ([f[2]] + ([f[3]] + [])));
        PutField(f[3], []);
        PutField(f[2], [f[3]] + []);
        PutField(f[1], [f[2]] + ([f[3]] + []));
        PutField(f[0], [f[1]] + ([f[2]] + ([f[3]] + [])));
      case BoundaryLeave(_) =>
        assert f == [f[0]] + ([f[1]] + []);
        PutField(f[1], []);
        PutField(f[0], [f[1]] + []);
    }
  }

  lemma PairingLayout(m: Message)
    requires 14 <= VariantIndex(m) < 19
    ensures Flatten(Declared(m)) == Encode(m)
  {
    hide Flatten, PutU8, PutU32, PutBlob;
    FlattenNone();
    var f := Declared(m);
    if |f| == 3 {
      assert f == [f[0]] + ([f[1]] + ([f[2]] + []));
      PutField(f[2], []);
      PutField(f[1], [f[2]] + []);
      PutField(f[0], [f[1]] + ([f[2]] + []));
    } else {
      assert f == [f[0]] + ([f[1]] + []);
      PutField(f[1], []);
      PutField(f[0], [f[1]] + []);
    }
  }

  /** A payload is the variant's number and the fields in the order in which they are declared. */
  lemma EncodeIsDeclared(m: Message)
    ensures Encode(m) == Flatten(Declared(m))
  {
    hide Encode, Flatten;
    if VariantIndex(m) < 5 {
      InputLayout(m);
    } else if VariantIndex(m) < 9 {
      ClipboardLayout(m);
    } else if VariantIndex(m) < 14 {
      SessionLayout(m);
    } else {
      PairingLayout(m);
    }
  }

  /**
   The type byte against the variant's number: types count from 1 in the same order,
   except that MouseDelta's comes after all the others that are not for pairing.
   */
  lemma TypeFollowsVariant(m: Message)
    ensures var n := Declared(m)[0].n;
            TypeByte(m) == if m.MouseDelta? then 14 else if n == 0 then 1 else if n < 14 then n else n + 1
  {
  }

  /** Types outside 1 to 19 are refused on reading. */
  lemma KnownTypes(b: Byte)
    ensures KnownType(b) <==> 1 <= b <= 19
  {
  }
}
