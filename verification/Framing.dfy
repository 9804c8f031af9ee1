/**
 Reading and writing frames on a byte stream (crates/ss-network/src/framing.rs),
 and what a reader gets out of a stream that is cut at an arbitrary byte.
 */
module Framing {
  import opened Wrappers
  import opened Bytes
  import opened Protocol

  datatype ReadError = BadMagic | UnknownType | TooLarge | TruncatedPayload | BadPayload

  /** Success(None) is a clean end of stream. */
  type ReadResult = Result<Option<Message>, ReadError>

  /** What one read_frame yields, and what it leaves unread. */
  datatype ReadStep = ReadStep(result: ReadResult, unread: seq<Byte>)

  function PayloadLength(input: seq<Byte>): nat
    requires |input| >= HEADER_SIZE
  {
    FromLE(input[3..7])
  }

  function ReadOne(input: seq<Byte>): ReadStep {
    if |input| < HEADER_SIZE then ReadStep(Success(None), [])
    else
      var body := input[HEADER_SIZE..];
      var length := PayloadLength(input);
      if input[0..2] != FRAME_MAGIC then ReadStep(Failure(BadMagic), body)
      else if !KnownType(input[2]) then ReadStep(Failure(UnknownType), body)
      else if length > MAX_PAYLOAD_SIZE then ReadStep(Failure(TooLarge), body)
      else if |body| < length then ReadStep(Failure(TruncatedPayload), [])
      else
        match Decode(body[..length])
        case Some(m) => ReadStep(Success(Some(m)), body[length..])
        case None => ReadStep(Failure(BadPayload), body[length..])
  }

  /** One direction of a connection: bytes written and not yet read. */
  class ByteStream {
    var unread: seq<Byte>

    constructor (bytes: seq<Byte>)
      ensures unread == bytes
    {
      unread := bytes;
    }

    /** read_exact: all n bytes, or an end-of-stream error that consumes what is left. */
    method ReadExact(n: nat) returns (r: Option<seq<Byte>>)
      modifies this
      ensures |old(unread)| >= n ==> r == Some(old(unread)[..n]) && unread == old(unread)[n..]
      ensures |old(unread)| < n ==> r == None && unread == []
    {
      if |unread| < n {
        unread := [];
        return None;
      }
      r := Some(unread[..n]);
      unread := unread[n..];
    }

    method ReadFrame() returns (r: ReadResult)
      modifies this
      ensures ReadStep(r, unread) == ReadOne(old(unread))
    {
      var header := ReadExact(HEADER_SIZE);
      if header.None? {
        return Success(None);
      }
      var h := header.value;
      assert h[0..2] == old(unread)[0..2] && h[3..7] == old(unread)[3..7];
      if h[0..2] != FRAME_MAGIC {
        return Failure(BadMagic);
      }
      if !KnownType(h[2]) {
        return Failure(UnknownType);
      }
      var length := FromLE(h[3..7]);
      if length > MAX_PAYLOAD_SIZE {
        return Failure(TooLarge);
      }
      var payload := ReadExact(length);
      if payload.None? {
        return Failure(TruncatedPayload);
      }
      match Decode(payload.value) {
        case Some(m) => return Success(Some(m));
        case None => return Failure(BadPayload);
      }
    }

    method WriteFrame(m: Message)
      modifies this
      ensures unread == old(unread) + Frame(m)
    {
      var bytes := ToBytes(m);
      unread := unread + bytes;
    }

    /** The receive loop: messages until the stream ends or a read fails. */
    method ReadMessages() returns (msgs: seq<Message>, end: End)
      modifies this
      ensures Received(msgs, end) == ReadAll(old(unread))
    {
      hide ReadOne, ReadAll;
      msgs := [];
      while true
        invariant ReadAll(old(unread)) == Received(msgs + ReadAll(unread).msgs, ReadAll(unread).end)
        decreases |unread|
      {
        ghost var before := unread;
        var r := ReadFrame();
        match r {
          case Success(Some(m)) =>
            ReadAllMore(before, m, unread);
            assert msgs + ([m] + ReadAll(unread).msgs) == (msgs + [m]) + ReadAll(unread).msgs;
            msgs := msgs + [m];
          case Success(None) =>
            end := CleanEnd;
            ReadAllEnds(before);
            assert msgs + [] == msgs;
            return;
          case Failure(e) =>
            end := Broken(e);
            ReadAllEnds(before);
            assert msgs + [] == msgs;
            return;
        }
      }
    }
  }

  datatype End = CleanEnd | Broken(error: ReadError)

  datatype Received = Received(msgs: seq<Message>, end: End)

  function ReadAll(input: seq<Byte>): Received
    decreases |input|
  {
    match ReadOne(input).result
    case Success(Some(m)) =>
      var more := ReadAll(ReadOne(input).unread);
      Received([m] + more.msgs, more.end)
    case Success(None) => Received([], CleanEnd)
    case Failure(e) => Received([], Broken(e))
  }

  lemma ReadAllMore(input: seq<Byte>, m: Message, rest: seq<Byte>)
    requires ReadOne(input) == ReadStep(Success(Some(m)), rest)
    ensures |rest| < |input|
    ensures ReadAll(input) == Received([m] + ReadAll(rest).msgs, ReadAll(rest).end)
  {
  }

  lemma ReadAllEnds(input: seq<Byte>)
    ensures ReadOne(input).result == Success(None) ==> ReadAll(input) == Received([], CleanEnd)
    ensures ReadOne(input).result.Failure? ==> ReadAll(input) == Received([], Broken(ReadOne(input).result.error))
  {
    hide ReadOne;
  }

  /** The bytes of a list of messages written one after another. */
  function Wire(msgs: seq<Message>): seq<Byte> {
    if msgs == [] then [] else Frame(msgs[0]) + Wire(msgs[1..])
  }

  lemma HeaderFields(t: Byte, len: seq<Byte>, tail: seq<Byte>)
    requires |len| == 4
    ensures var f := FRAME_MAGIC + ([t] + (len + tail));
            f[0..2] == FRAME_MAGIC && f[2] == t && f[3..7] == len && f[HEADER_SIZE..] == tail
  {
    var f := FRAME_MAGIC + ([t] + (len + tail));
    assert f[2..] == [t] + (len + tail);
    assert f[3..] == len + tail;
    assert f[3..7] == f[3..][..4];
  }

  lemma HeaderThenRest(t: Byte, len: seq<Byte>, payload: seq<Byte>, rest: seq<Byte>)
    ensures FRAME_MAGIC + ([t] + (len + payload)) + rest == FRAME_MAGIC + ([t] + (len + (payload + rest)))
  {
    assert (len + payload) + rest == len + (payload + rest);
    assert ([t] + (len + payload)) + rest == [t] + ((len + payload) + rest);
  }

  lemma FrameHeader(m: Message, rest: seq<Byte>)
    requires Fits(m)
    ensures |Frame(m) + rest| >= HEADER_SIZE
    ensures (Frame(m) + rest)[0..2] == FRAME_MAGIC
    ensures (Frame(m) + rest)[2] == TypeByte(m)
    ensures PayloadLength(Frame(m) + rest) == |Encode(m)|
    ensures (Frame(m) + rest)[HEADER_SIZE..] == Encode(m) + rest
  {
    hide Encode, ToLE, FromLE;
    var len := ToLE(|Encode(m)|, 4);
    Widths();
    FromToLE(|Encode(m)|, 4);
    HeaderFields(TypeByte(m), len, Encode(m) + rest);
    HeaderThenRest(TypeByte(m), len, Encode(m), rest);
  }

  /** A frame is read back whatever follows it. */
  lemma ReadWritten(m: Message, rest: seq<Byte>)
    requires Fits(m)
    ensures ReadOne(Frame(m) + rest) == ReadStep(Success(Some(m)), rest)
  {
    hide Encode, Decode, Frame;
    FrameHeader(m, rest);
    DecodeEncode(m);
    FrameSize(m);
    TypeBytesDistinct(m, m);
    assert (Encode(m) + rest)[..|Encode(m)|] == Encode(m);
    assert (Encode(m) + rest)[|Encode(m)|..] == rest;
  }

  lemma AnyFrameHeader(m: Message, rest: seq<Byte>)
    ensures |Frame(m) + rest| >= HEADER_SIZE
    ensures (Frame(m) + rest)[0..2] == FRAME_MAGIC && (Frame(m) + rest)[2] == TypeByte(m)
    ensures PayloadLength(Frame(m) + rest) == |Encode(m)| % 0x1_0000_0000
    ensures (Frame(m) + rest)[HEADER_SIZE..] == Encode(m) + rest
  {
    hide Encode, ToLE, FromLE;
    var n := |Encode(m)| % 0x1_0000_0000;
    Widths();
    FromToLE(n, 4);
    HeaderFields(TypeByte(m), ToLE(n, 4), Encode(m) + rest);
    HeaderThenRest(TypeByte(m), ToLE(n, 4), Encode(m), rest);
  }

  /**
   The reader recovers a written message if and only if its payload is within the
   16 MiB limit: a longer one is refused, or, from 4 GiB on, truncated by the
   32-bit length field and never mistaken for the original.
   */
  lemma ReadableIffFits(m: Message, rest: seq<Byte>)
    ensures ReadOne(Frame(m) + rest).result == Success(Some(m)) <==> Fits(m)
  {
    hide Encode, Decode, Frame;
    if Fits(m) {
      ReadWritten(m, rest);
    } else {
      assert (Frame(m) + rest)[..|Frame(m) + rest|] == Frame(m) + rest;
      ReadFirstFails(m, rest, |Frame(m) + rest|);
    }
  }

  /** What a reader makes of a frame of which `left` bytes are there, when it is not read whole. */
  function ErrorAt(m: Message, left: nat): ReadError {
    var n := |Encode(m)| % 0x1_0000_0000;
    if n > MAX_PAYLOAD_SIZE then TooLarge
    else if left < HEADER_SIZE + n then TruncatedPayload
    else BadPayload
  }

  /** A frame that is cut short, or too long to be read, is a clean end inside the header and an error after it. */
  lemma ReadFirstFails(m: Message, rest: seq<Byte>, cut: nat)
    requires cut <= |Frame(m) + rest| && (Fits(m) ==> cut < |Frame(m)|)
    ensures ReadOne((Frame(m) + rest)[..cut]).result ==
            if cut < HEADER_SIZE then Success(None) else Failure(ErrorAt(m, cut))
  {
    hide Encode, Decode, Frame;
    if cut >= HEADER_SIZE {
      var f, p := Frame(m) + rest, (Frame(m) + rest)[..cut];
      var n := |Encode(m)| % 0x1_0000_0000;
      AnyFrameHeader(m, rest);
      TypeBytesDistinct(m, m);
      FrameSize(m);
      assert p[0..2] == f[0..2] && p[2] == f[2] && p[3..7] == f[3..7];
      assert PayloadLength(p) == n;
      if n <= MAX_PAYLOAD_SIZE && cut >= HEADER_SIZE + n {
        assert p[HEADER_SIZE..] == f[HEADER_SIZE..][..cut - HEADER_SIZE];
        assert p[HEADER_SIZE..][..n] == (Encode(m) + rest)[..n] == Encode(m)[..n];
        DecodeTruncated(m, n);
      }
    }
  }

  lemma EmptyInput()
    ensures ReadAll([]) == Received([], CleanEnd)
  {
  }

  lemma {:induction false} WirePrefixSize(msgs: seq<Message>, k: nat)
    requires 0 < k <= |msgs|
    ensures |Wire(msgs[..k])| == |Frame(msgs[0])| + |Wire(msgs[1..][..k - 1])|
  {
    hide Frame;
    assert msgs[..k][1..] == msgs[1..][..k - 1];
  }

  /** How many messages a reader gets: those wholly before the cut, up to the first that is too long. */
  function Recovered(msgs: seq<Message>, cut: nat): (k: nat)
    ensures k <= |msgs|
  {
    if msgs == [] || !Fits(msgs[0]) || cut < |Frame(msgs[0])| then 0
    else 1 + Recovered(msgs[1..], cut - |Frame(msgs[0])|)
  }

  lemma WireCons(msgs: seq<Message>)
    ensures Wire([]) == []
    ensures msgs != [] ==> Wire(msgs) == Frame(msgs[0]) + Wire(msgs[1..])
    ensures msgs[..0] == []
  {
    hide Frame;
  }

  /** It is the one count k such that k messages fit and are wholly there, and the next is not or does not fit. */
  lemma {:induction false} RecoveredExact(msgs: seq<Message>, cut: nat)
    ensures var k := Recovered(msgs, cut);
            && (forall m :: m in msgs[..k] ==> Fits(m))
            && |Wire(msgs[..k])| <= cut
            && (k < |msgs| ==> !Fits(msgs[k]) || cut < |Wire(msgs[..k + 1])|)
  {
    hide Frame, Wire, Fits;
    var k := Recovered(msgs, cut);
    WireCons(msgs);
    if k == 0 {
      if msgs != [] {
        WirePrefixSize(msgs, 1);
        WireCons(msgs[1..]);
      }
    } else {
      RecoveredExact(msgs[1..], cut - |Frame(msgs[0])|);
      WirePrefixSize(msgs, k);
      if k < |msgs| {
        WirePrefixSize(msgs, k + 1);
      }
      assert msgs[..k] == [msgs[0]] + msgs[1..][..k - 1];
    }
  }

  /**
   Whatever is written, and wherever its bytes are cut: the reader gets exactly the
   messages wholly before the cut, up to the first over the size limit.  It then sees
   a clean end if fewer bytes than a header are left, and an error otherwise.
   */
  lemma {:induction false} PrefixExact(msgs: seq<Message>, cut: nat)
    requires cut <= |Wire(msgs)|
    ensures var k := Recovered(msgs, cut);
            var left := cut - |Wire(msgs[..k])|;
            && 0 <= left && (k == |msgs| ==> left == 0)
            && ReadAll(Wire(msgs)[..cut]) ==
               Received(msgs[..k], if left < HEADER_SIZE then CleanEnd else Broken(ErrorAt(msgs[k], left)))
    decreases |msgs|
  {
    hide Frame, ReadOne, Fits, Wire, ReadAll, ErrorAt;
    WireCons(msgs);
    var k := Recovered(msgs, cut);
    if msgs == [] {
      EmptyInput();
    } else if k == 0 {
      CutFirst(msgs[0], Wire(msgs[1..]), cut);
    } else {
      var first, rest := msgs[0], msgs[1..];
      var size := |Frame(first)|;
      WirePrefixSize(msgs, k);
      assert Wire(msgs)[..cut] == Frame(first) + Wire(rest)[..cut - size];
      ReadFirst(first, Wire(rest)[..cut - size]);
      PrefixExact(rest, cut - size);
      assert [first] + rest[..k - 1] == msgs[..k];
    }
  }

  lemma CutFirst(m: Message, rest: seq<Byte>, cut: nat)
    requires cut <= |Frame(m) + rest| && (Fits(m) ==> cut < |Frame(m)|)
    ensures ReadAll((Frame(m) + rest)[..cut])
         == Received([], if cut < HEADER_SIZE then CleanEnd else Broken(ErrorAt(m, cut)))
  {
    hide Frame, ReadOne, Fits, ErrorAt;
    ReadFirstFails(m, rest, cut);
  }

  lemma ReadFirst(m: Message, rest: seq<Byte>)
    requires Fits(m)
    ensures ReadAll(Frame(m) + rest) == Received([m] + ReadAll(rest).msgs, ReadAll(rest).end)
  {
    hide Frame, ReadOne, Fits;
    ReadWritten(m, rest);
  }

  lemma {:induction false} RecoveredWhole(a: seq<Message>, b: seq<Message>)
    requires forall m :: m in a ==> Fits(m)
    requires b != [] ==> !Fits(b[0])
    ensures Recovered(a + b, |Wire(a + b)|) == |a|
  {
    hide Frame, Fits, Wire;
    WireCons(a + b);
    if a == [] {
      assert a + b == b;
    } else {
      assert (a + b)[1..] == a[1..] + b;
      RecoveredWhole(a[1..], b);
    }
  }

  /** Uncut, everything before the first message over the limit is read back, and nothing after it. */
  lemma ReadUpToUnfit(a: seq<Message>, b: seq<Message>)
    requires forall m :: m in a ==> Fits(m)
    requires b != [] ==> !Fits(b[0])
    ensures ReadAll(Wire(a + b)).msgs == a
    ensures ReadAll(Wire(a + b)).end == CleanEnd <==> b == []
  {
    hide Frame, Fits, Wire, ReadAll, ErrorAt;
    var all := a + b;
    assert Wire(all)[..|Wire(all)|] == Wire(all);
    PrefixExact(all, |Wire(all)|);
    RecoveredWhole(a, b);
    assert all[..|a|] == a;
    if b == [] {
      assert all == a;
    } else {
      WireSplit(a, b);
    }
  }

  lemma {:induction false} WireSplit(a: seq<Message>, b: seq<Message>)
    requires b != []
    ensures |Wire(a + b)| >= |Wire(a)| + HEADER_SIZE
  {
    hide Frame, Wire;
    WireCons(a + b);
    WireCons(a);
    if a == [] {
      assert a + b == b;
      FrameSize(b[0]);
    } else {
      assert (a + b)[1..] == a[1..] + b;
      WireSplit(a[1..], b);
    }
  }

  /** Messages within the limit are all read back. */
  lemma ReadAllWritten(msgs: seq<Message>)
    requires forall m :: m in msgs ==> Fits(m)
    ensures ReadAll(Wire(msgs)) == Received(msgs, CleanEnd)
  {
    hide Fits, Wire, ReadAll;
    assert msgs + [] == msgs;
    ReadUpToUnfit(msgs, []);
  }

  // ------------------------------------------------------------------
  // What a reader accepts of any bytes at all
  // ------------------------------------------------------------------

  /** A frame with type byte t and payload p: two magic bytes, the type, the length, the payload. */
  function FrameOf(t: Byte, p: seq<Byte>): seq<Byte> {
    var n := |p|;
    [0x53, 0x53, t, n % 256, n / 0x100 % 256, n / 0x1_0000 % 256, n / 0x100_0000 % 256] + p
  }

  /** The header's fields, by position. */
  function LengthField(input: seq<Byte>): nat
    requires |input| >= 7
  {
    input[3] as int + 0x100 * input[4] as int + 0x1_0000 * input[5] as int + 0x100_0000 * input[6] as int
  }

  lemma LengthFieldIs(input: seq<Byte>)
    requires |input| >= 7
    ensures PayloadLength(input) == LengthField(input)
  {
    FourBytesValue(input[3..7]);
  }

  /**
   On at least a header's worth of any bytes: each refusal, in the order in which the
   checks are made, and which bytes it leaves unread.
   */
  lemma RefusedIff(input: seq<Byte>)
    requires |input| >= 7
    ensures var r, n := ReadOne(input), LengthField(input);
            var magic := input[0] == 0x53 && input[1] == 0x53;
            var known := 1 <= input[2] <= 19;
            && (r == ReadStep(Failure(BadMagic), input[7..]) <==> !magic)
            && (r == ReadStep(Failure(UnknownType), input[7..]) <==> magic && !known)
            && (r == ReadStep(Failure(TooLarge), input[7..]) <==> magic && known && n > 16 * 1024 * 1024)
            && (r == ReadStep(Failure(TruncatedPayload), []) <==>
                  magic && known && n <= 16 * 1024 * 1024 && |input| < 7 + n)
            && (r.result == Failure(BadPayload) <==>
                  magic && known && n <= 16 * 1024 * 1024 && |input| >= 7 + n && Decode(input[7..7 + n]).None?)
  {
    hide Decode, PayloadLength;
    LengthFieldIs(input);
    KnownTypes(input[2]);
    assert input[0..2] == [0x53, 0x53] <==> input[0] == 0x53 && input[1] == 0x53;
    if |input| >= 7 + LengthField(input) {
      assert input[7..][..LengthField(input)] == input[7..7 + LengthField(input)];
    }
  }

  lemma DigitsOf(n: nat)
    requires n < 0x1_0000_0000
    ensures n % 256 + 0x100 * (n / 0x100 % 256) + 0x1_0000 * (n / 0x1_0000 % 256)
            + 0x100_0000 * (n / 0x100_0000 % 256) == n
  {
  }

  lemma AfterHead(head: seq<Byte>, p: seq<Byte>, rest: seq<Byte>)
    requires |head| == 7
    ensures var f := head + p + rest;
            && f[7..] == p + rest && f[7..7 + |p|] == p && f[7 + |p|..] == rest
            && forall i :: 0 <= i < 7 ==> f[i] == head[i]
  {
    var f := head + p + rest;
    assert f[7..] == p + rest;
    assert f[7..7 + |p|] == f[7..][..|p|] == p;
    assert f[7 + |p|..] == f[7..][|p|..] == rest;
  }

  lemma FrameOfSplits(t: Byte, p: seq<Byte>, rest: seq<Byte>)
    requires |p| < 0x1_0000_0000
    ensures var f := FrameOf(t, p) + rest;
            && |f| == 7 + |p| + |rest| && f[0] == f[1] == 0x53 && f[2] == t && LengthField(f) == |p|
            && f[7..] == p + rest && f[7..7 + |p|] == p && f[7 + |p|..] == rest
  {
    var n := |p|;
    var head: seq<Byte> :=
      [0x53, 0x53, t, n % 256, n / 0x100 % 256, n / 0x1_0000 % 256, n / 0x100_0000 % 256];
    AfterHead(head, p, rest);
    DigitsOf(n);
  }

  lemma PlaceValues(a: Byte, b: Byte, c: Byte, e: Byte)
    ensures var n := a as int + 0x100 * b as int + 0x1_0000 * c as int + 0x100_0000 * e as int;
            n % 256 == a && n / 0x100 % 256 == b && n / 0x1_0000 % 256 == c && n / 0x100_0000 % 256 == e
  {
    var n := a as int + 0x100 * b as int + 0x1_0000 * c as int + 0x100_0000 * e as int;
    assert n / 0x100 == b as int + 0x100 * c as int + 0x1_0000 * e as int;
    assert n / 0x1_0000 == c as int + 0x100 * e as int;
  }

  lemma FrameOfJoins(input: seq<Byte>)
    requires |input| >= 7 && input[0] == input[1] == 0x53 && |input| >= 7 + LengthField(input)
    ensures var n := LengthField(input);
            input == FrameOf(input[2], input[7..7 + n]) + input[7 + n..]
  {
    var n := LengthField(input);
    PlaceValues(input[3], input[4], input[5], input[6]);
    HeadFirst(input, n);
  }

  lemma HeadFirst(input: seq<Byte>, n: nat)
    requires |input| >= 7 + n && input[0] == input[1] == 0x53
    requires input[3] == n % 256 && input[4] == n / 0x100 % 256
    requires input[5] == n / 0x1_0000 % 256 && input[6] == n / 0x100_0000 % 256
    ensures input == FrameOf(input[2], input[7..7 + n]) + input[7 + n..]
  {
    var p := input[7..7 + n];
    var head := [0x53, 0x53, input[2], n % 256, n / 0x100 % 256, n / 0x1_0000 % 256, n / 0x100_0000 % 256];
    assert input[..7] == head;
    assert FrameOf(input[2], p) == head + p;
    assert input == input[..7] + (p + input[7 + n..]);
  }

  /**
   A reader accepts message m and leaves `rest` if and only if the bytes are a frame of
   some known type, with a payload of at most 16 MiB that decodes to m, and then rest.
   The type need not be that of the message.
   */
  lemma AcceptedIff(input: seq<Byte>, m: Message, rest: seq<Byte>)
    ensures ReadOne(input) == ReadStep(Success(Some(m)), rest) <==>
            exists t: Byte, p: seq<Byte> ::
              1 <= t <= 19 && |p| <= 16 * 1024 * 1024 && Decode(p) == Some(m) && input == FrameOf(t, p) + rest
  {
    hide Decode, PayloadLength, FrameOf;
    if ReadOne(input) == ReadStep(Success(Some(m)), rest) {
      var n := LengthField(input);
      RefusedIff(input);
      FrameOfJoins(input);
      LengthFieldIs(input);
      assert input[7..][..n] == input[7..7 + n] && input[7..][n..] == input[7 + n..];
      assert input == FrameOf(input[2], input[7..7 + n]) + rest;
    }
    if t: Byte, p: seq<Byte> :|
      1 <= t <= 19 && |p| <= 16 * 1024 * 1024 && Decode(p) == Some(m) && input == FrameOf(t, p) + rest
    {
      FrameOfSplits(t, p, rest);
      RefusedIff(input);
      LengthFieldIs(input);
      assert input[7..][..|p|] == p && input[7..][|p|..] == rest;
    }
  }

  /** What is written is such a frame, with the message's own type and payload. */
  lemma WrittenIsFrame(m: Message)
    ensures Frame(m) == FrameOf(TypeByte(m), Encode(m))
  {
    hide Encode, TypeByte;
    FourBytes(|Encode(m)| % 0x1_0000_0000);
    FieldsModulo(|Encode(m)|);
    assert Frame(m)[..7] == FrameOf(TypeByte(m), Encode(m))[..7];
    assert Frame(m)[7..] == Encode(m);
  }

  lemma FieldsModulo(n: nat)
    ensures var l := n % 0x1_0000_0000;
            && l % 256 == n % 256 && l / 0x100 % 256 == n / 0x100 % 256
            && l / 0x1_0000 % 256 == n / 0x1_0000 % 256 && l / 0x100_0000 % 256 == n / 0x100_0000 % 256
  {
    var q, l := n / 0x1_0000_0000, n % 0x1_0000_0000;
    Shifted(q, l / 0x100, 0x1_0000, n / 0x100);
    Shifted(q, l / 0x1_0000, 0x100, n / 0x1_0000);
    Shifted(q, l / 0x100_0000, 1, n / 0x100_0000);
  }

  /** Adding a multiple of 256 leaves the last byte alone. */
  lemma Shifted(q: nat, low: nat, places: nat, sum: nat)
    requires sum == q * (256 * places) + low
    ensures sum % 256 == low % 256
  {
    assert q * (256 * places) == 256 * (q * places);
  }
}
