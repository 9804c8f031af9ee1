/**
 What clipboard transfers guarantee end to end: chunks in any order, anything
 interleaved, and the whole path through frames and bytes.
 */
module ClipboardTransfers {
  import opened Wrappers
  import opened Bytes
  import opened Protocol
  import opened ClipboardSync
  import Framing
  import Utf8

  // ------------------------------------------------------------------
  // Splitting
  // ------------------------------------------------------------------

  predicate NumberedFrom(ps: seq<Piece>, from: nat) {
    forall i :: 0 <= i < |ps| ==> ps[i].0 == from + i && 0 < |ps[i].1| <= CLIPBOARD_CHUNK_SIZE
  }

  lemma {:induction false} SplitNumbers(data: Blob, from: nat)
    requires from + |data| < 0x1_0000_0000
    ensures NumberedFrom(Split(data, from), from)
    decreases |data|
  {
    if data != [] {
      var rest := Split(data[ChunkSize(data)..], from + 1);
      SplitNumbers(data[ChunkSize(data)..], from + 1);
      forall i | 0 < i < |Split(data, from)|
        ensures Split(data, from)[i] == rest[i - 1]
      {
      }
    }
  }

  /** The pieces are numbered consecutively, non-empty, at most 64 KiB, and join to the data. */
  lemma {:induction false} SplitJoins(data: Blob, from: nat)
    requires from + |data| < 0x1_0000_0000
    ensures Concat(Split(data, from)) == data
    ensures TotalLength(Split(data, from)) == |data|
    ensures NumberedFrom(Split(data, from), from) && StrictlyAscending(Split(data, from))
    decreases |data|
  {
    SplitNumbers(data, from);
    if data != [] {
      var n := ChunkSize(data);
      SplitJoins(data[n..], from + 1);
      assert Split(data, from)[1..] == Split(data[n..], from + 1);
      assert data[..n] + data[n..] == data;
    }
  }

  // ------------------------------------------------------------------
  // The receiver over a list of messages
  // ------------------------------------------------------------------

  /** The pending assembly after a list of messages, and the contents produced on the way. */
  datatype Log = Log(pending: Option<Assembly>, contents: seq<ClipboardContent>)

  function HandleAll(f: Foreign, msgs: seq<Message>, pending: Option<Assembly>): Log {
    if msgs == [] then Log(pending, []) else
      var before := HandleAll(f, msgs[..|msgs| - 1], pending);
      var last := Handle(f, msgs[|msgs| - 1], before.pending);
      Log(last.pending, before.contents + if last.content.Some? then [last.content.value] else [])
  }

  lemma {:induction false} HandleConcat(f: Foreign, a: seq<Message>, b: seq<Message>, pending: Option<Assembly>)
    ensures var l := HandleAll(f, a, pending);
            var r := HandleAll(f, b, l.pending);
            HandleAll(f, a + b, pending) == Log(r.pending, l.contents + r.contents)
  {
    hide Handle;
    if b == [] {
      assert a + b == a;
    } else {
      assert (a + b)[..|a + b| - 1] == a + b[..|b| - 1];
      HandleConcat(f, a, b[..|b| - 1], pending);
    }
  }

  lemma HandleOne(f: Foreign, m: Message, pending: Option<Assembly>)
    ensures var h := Handle(f, m, pending);
            HandleAll(f, [m], pending) == Log(h.pending, if h.content.Some? then [h.content.value] else [])
  {
    hide Handle;
    assert [m][..0] == [];
  }

  // ------------------------------------------------------------------
  // Order independence
  // ------------------------------------------------------------------

  function TextOf(m: Message): seq<ClipboardContent> {
    if m.ClipboardData? && m.dataFormat.Text? then
      Utf8.LossyIsValid(m.data);
      [TextContent(Utf8.FromUtf8Lossy(m.data))]
    else []
  }

  function PieceOf(m: Message): seq<Piece> {
    if m.ClipboardChunk? then [(m.seqNo, m.chunk)] else []
  }

  /** The chunks among a list of messages. */
  function Pieces(msgs: seq<Message>): seq<Piece> {
    if msgs == [] then [] else Pieces(msgs[..|msgs| - 1]) + PieceOf(msgs[|msgs| - 1])
  }

  /** The texts among a list of messages, as the receiver reads them. */
  function Texts(msgs: seq<Message>): seq<ClipboardContent> {
    if msgs == [] then [] else Texts(msgs[..|msgs| - 1]) + TextOf(msgs[|msgs| - 1])
  }

  /** Neither starts nor ends an image transfer. */
  predicate Inside(m: Message) {
    !m.ClipboardEnd? && !(m.ClipboardBegin? && m.beginFormat.Image?)
  }

  function CollectAll(a: Assembly, ps: seq<Piece>): Assembly {
    if ps == [] then a else Collect(CollectAll(a, ps[..|ps| - 1]), ps[|ps| - 1])
  }

  lemma {:induction false} CollectAllKeeps(a: Assembly, ps: seq<Piece>)
    ensures var b := CollectAll(a, ps);
            b.chunks == a.chunks + ps && b.width == a.width && b.height == a.height && b.totalSize == a.totalSize
  {
    if ps != [] {
      CollectAllKeeps(a, ps[..|ps| - 1]);
      assert ps == ps[..|ps| - 1] + [ps[|ps| - 1]];
    }
  }

  lemma CollectSnoc(a: Assembly, ps: seq<Piece>, p: Piece)
    ensures CollectAll(a, ps + [p]) == Collect(CollectAll(a, ps), p)
  {
    assert (ps + [p])[..|ps|] == ps;
  }

  lemma InsideStep(f: Foreign, m: Message, a: Assembly)
    requires Inside(m)
    ensures var h := Handle(f, m, Some(a));
            && h.pending == Some(if m.ClipboardChunk? then Collect(a, (m.seqNo, m.chunk)) else a)
            && TextOf(m) == if h.content.Some? then [h.content.value] else []
  {
  }

  /** Inside a transfer the receiver collects the chunks and yields the texts, nothing else. */
  lemma {:induction false} BodyCollects(f: Foreign, body: seq<Message>, a: Assembly)
    requires forall m :: m in body ==> Inside(m)
    ensures HandleAll(f, body, Some(a)) == Log(Some(CollectAll(a, Pieces(body))), Texts(body))
  {
    hide Handle, Collect, TextOf;
    if body != [] {
      var front, last := body[..|body| - 1], body[|body| - 1];
      BodyCollects(f, front, a);
      assert last in body;
      InsideStep(f, last, CollectAll(a, Pieces(front)));
      if last.ClipboardChunk? {
        CollectSnoc(a, Pieces(front), (last.seqNo, last.chunk));
      } else {
        assert Pieces(front) + [] == Pieces(front);
      }
    }
  }

  /** The sent pieces in any order, joined and decompressed, are the image. */
  lemma FinishRestores(f: Foreign, w: U32, h: U32, rgba: Blob, arrived: seq<Piece>)
    requires f.Lawful() && Accepted(f, ImageContent(w, h, rgba))
    requires multiset(arrived) == multiset(Split(f.compress(rgba), 0))
    ensures Finish(f, CollectAll(NewAssembly(|f.compress(rgba)|, w, h), arrived), f.hash(rgba))
         == Success(ImageContent(w, h, rgba))
  {
    var z := f.compress(rgba);
    SplitJoins(z, 0);
    SortRestores(arrived, Split(z, 0));
    CollectAllKeeps(NewAssembly(|z|, w, h), arrived);
    assert CollectAll(NewAssembly(|z|, w, h), arrived).chunks == arrived;
  }

  /**
   From any prior state, the chunks of a transfer in any order, with any texts or
   other messages in between, yield the image exactly at ClipboardEnd and only
   the interleaved texts before it.
   */
  lemma ReassemblyAnyOrder(f: Foreign, w: U32, h: U32, rgba: Blob, body: seq<Message>, pending: Option<Assembly>)
    requires f.Lawful() && Accepted(f, ImageContent(w, h, rgba))
    requires forall m :: m in body ==> Inside(m)
    requires multiset(Pieces(body)) == multiset(Split(f.compress(rgba), 0))
    ensures var begin := ClipboardBegin(ClipboardFormat.Image, |f.compress(rgba)|, w, h);
            && HandleAll(f, [begin] + body, pending).contents == Texts(body)
            && HandleAll(f, [begin] + body + [ClipboardEnd(f.hash(rgba))], pending)
               == Log(None, Texts(body) + [ImageContent(w, h, rgba)])
  {
    hide Handle, Finish, CollectAll, Texts, Pieces, Split;
    var z := f.compress(rgba);
    var begin, end := ClipboardBegin(ClipboardFormat.Image, |z|, w, h), ClipboardEnd(f.hash(rgba));
    var a := NewAssembly(|z|, w, h);
    HandleBegin(f, |z|, w, h, pending);
    HandleConcat(f, [begin], body, pending);
    BodyCollects(f, body, a);
    FinishRestores(f, w, h, rgba, Pieces(body));
    HandleEnd(f, CollectAll(a, Pieces(body)), f.hash(rgba), ImageContent(w, h, rgba));
    HandleConcat(f, [begin] + body, [end], pending);
    assert [] + Texts(body) == Texts(body);
  }

  lemma HandleBegin(f: Foreign, total: U32, w: U32, h: U32, pending: Option<Assembly>)
    ensures HandleAll(f, [ClipboardBegin(ClipboardFormat.Image, total, w, h)], pending)
         == Log(Some(NewAssembly(total, w, h)), [])
  {
    HandleOne(f, ClipboardBegin(ClipboardFormat.Image, total, w, h), pending);
  }

  lemma HandleEnd(f: Foreign, a: Assembly, hash: Hash, c: ClipboardContent)
    requires Finish(f, a, hash) == Success(c)
    ensures HandleAll(f, [ClipboardEnd(hash)], Some(a)) == Log(None, [c])
  {
    HandleOne(f, ClipboardEnd(hash), Some(a));
  }

  // ------------------------------------------------------------------
  // Completion counting
  // ------------------------------------------------------------------

  lemma {:induction false} TotalLengthConcat(a: seq<Piece>, b: seq<Piece>)
    ensures TotalLength(a + b) == TotalLength(a) + TotalLength(b)
  {
    if a == [] {
      assert a + b == b;
    } else {
      assert (a + b)[1..] == a[1..] + b;
      TotalLengthConcat(a[1..], b);
    }
  }

  lemma {:induction false} InsertLength(p: Piece, ps: seq<Piece>)
    ensures TotalLength(Insert(p, ps)) == |p.1| + TotalLength(ps)
  {
    assert ([p] + ps)[1..] == ps;
    if ps != [] && p.0 > ps[0].0 {
      InsertLength(p, ps[1..]);
      assert ([ps[0]] + Insert(p, ps[1..]))[1..] == Insert(p, ps[1..]);
    }
  }

  lemma {:induction false} SortLength(ps: seq<Piece>)
    ensures TotalLength(SortBySeq(ps)) == TotalLength(ps)
  {
    if ps != [] {
      SortLength(ps[1..]);
      InsertLength(ps[0], SortBySeq(ps[1..]));
    }
  }

  lemma {:induction false} ReceivedCounts(a: Assembly, ps: seq<Piece>)
    requires a.received + TotalLength(ps) < 0x1_0000_0000
    ensures CollectAll(a, ps).received == a.received + TotalLength(ps)
  {
    if ps != [] {
      var front, last := ps[..|ps| - 1], ps[|ps| - 1];
      assert ps == front + [last];
      TotalLengthConcat(front, [last]);
      assert TotalLength([last]) == |last.1|;
      ReceivedCounts(a, front);
    }
  }

  lemma PartialTotals(arrived: seq<Piece>, sent: seq<Piece>, k: nat)
    requires multiset(arrived) == multiset(sent) && StrictlyAscending(sent)
    requires forall p :: p in sent ==> |p.1| > 0
    requires k <= |arrived|
    ensures TotalLength(arrived[..k]) <= TotalLength(sent)
    ensures TotalLength(arrived[..k]) == TotalLength(sent) <==> k == |arrived|
  {
    SortRestores(arrived, sent);
    SortLength(arrived);
    assert arrived == arrived[..k] + arrived[k..];
    TotalLengthConcat(arrived[..k], arrived[k..]);
    if k < |arrived| {
      assert arrived[k] in multiset(sent);
      assert |arrived[k].1| > 0;
    }
  }

  /**
   Whatever order the chunks of an accepted image arrive in, the k-th arrival
   completes the transfer if and only if it is the last, the byte counter never
   wraps, and it ends at the announced size.
   */
  lemma CompletionExact(f: Foreign, w: U32, h: U32, rgba: Blob, arrived: seq<Piece>, k: nat)
    requires Accepted(f, ImageContent(w, h, rgba))
    requires multiset(arrived) == multiset(Split(f.compress(rgba), 0))
    requires 1 <= k <= |arrived|
    ensures var a := CollectAll(NewAssembly(|f.compress(rgba)|, w, h), arrived[..k]);
            && a.received == TotalLength(arrived[..k])
            && (Complete(a) <==> k == |arrived|)
            && (k == |arrived| ==> a.received == a.totalSize)
  {
    hide Split, CollectAll, TotalLength;
    var z := f.compress(rgba);
    var sent := Split(z, 0);
    var empty := NewAssembly(|z|, w, h);
    SplitJoins(z, 0);
    PartialTotals(arrived, sent, k);
    ReceivedCounts(empty, arrived[..k]);
    CollectAllKeeps(empty, arrived[..k]);
  }

  // ------------------------------------------------------------------
  // Through frames and bytes
  // ------------------------------------------------------------------

  /** A text goes out in one message, whatever its length; an image's messages are kept short by the sender. */
  predicate Sendable(c: ClipboardContent) {
    c.TextContent? ==> 16 + |c.text| <= MAX_PAYLOAD_SIZE
  }

  /** The contents the sender does not refuse. */
  function AcceptedOnly(f: Foreign, cs: seq<ClipboardContent>): seq<ClipboardContent> {
    if cs == [] then [] else (if Accepted(f, cs[0]) then [cs[0]] else []) + AcceptedOnly(f, cs[1..])
  }

  /** The contents before the first text that does not fit a frame. */
  function BeforeOverlong(cs: seq<ClipboardContent>): (r: seq<ClipboardContent>)
    ensures r <= cs
  {
    if cs == [] || !Sendable(cs[0]) then [] else [cs[0]] + BeforeOverlong(cs[1..])
  }

  predicate AllAllocatable(cs: seq<ClipboardContent>) {
    forall c :: c in cs ==> Allocatable(c)
  }

  predicate AllSendable(cs: seq<ClipboardContent>) {
    forall c :: c in cs ==> Sendable(c)
  }

  /** Everything sent for a list of contents. */
  function TransferAll(f: Foreign, cs: seq<ClipboardContent>): seq<Message>
    requires AllAllocatable(cs)
  {
    if cs == [] then [] else
      assert Allocatable(cs[0]);
      (if Accepted(f, cs[0]) then Transfer(f, cs[0]) else []) + TransferAll(f, cs[1..])
  }

  lemma ChunkFits(seqNo: U32, data: Blob)
    requires |data| <= CLIPBOARD_CHUNK_SIZE
    ensures Fits(ClipboardChunk(seqNo, data))
  {
  }

  lemma ChunkMessagesFit(ps: seq<Piece>)
    requires NumberedFrom(ps, 0)
    ensures forall m :: m in ChunkMessages(ps) ==> Fits(m)
  {
    hide Fits;
    forall i | 0 <= i < |ps| ensures Fits(ChunkMessages(ps)[i]) {
      ChunkFits(ps[i].0, ps[i].1);
    }
  }

  /** Every message of an accepted transfer fits a frame if and only if it is not of an over-long text. */
  lemma TransferFits(f: Foreign, c: ClipboardContent)
    requires Allocatable(c) && Accepted(f, c)
    ensures (forall m :: m in Transfer(f, c) ==> Fits(m)) <==> Sendable(c)
  {
    match c {
      case TextContent(t) =>
        var m := ClipboardData(ClipboardFormat.Text, t);
        assert m in Transfer(f, c) && |Encode(m)| == 16 + |t|;
      case ImageContent(w, h, rgba) =>
        var z := f.compress(rgba);
        SplitNumbers(z, 0);
        ChunkMessagesFit(Split(z, 0));
    }
  }

  lemma ChunkMessagesFront(ps: seq<Piece>)
    requires ps != []
    ensures var ms, n := ChunkMessages(ps), |ps| - 1;
            ms[..n] == ChunkMessages(ps[..n]) && ms[n] == ClipboardChunk(ps[n].0, ps[n].1)
  {
  }

  lemma {:induction false} PiecesOfChunks(ps: seq<Piece>)
    ensures Pieces(ChunkMessages(ps)) == ps && Texts(ChunkMessages(ps)) == []
  {
    hide ChunkMessages, Utf8.FromUtf8Lossy;
    if ps != [] {
      var n := |ps| - 1;
      ChunkMessagesFront(ps);
      PiecesOfChunks(ps[..n]);
      assert ps == ps[..n] + [ps[n]];
    }
  }

  /** One transfer, handled from any state, yields its content. */
  lemma HandleTransfer(f: Foreign, c: ClipboardContent, pending: Option<Assembly>)
    requires f.Lawful() && Allocatable(c) && Accepted(f, c)
    ensures HandleAll(f, Transfer(f, c), pending).contents == [c]
  {
    match c {
      case TextContent(t) =>
        Utf8.LossyKeepsValid(t);
        HandleOne(f, ClipboardData(ClipboardFormat.Text, t), pending);
      case ImageContent(w, h, rgba) =>
        var ps := Split(f.compress(rgba), 0);
        PiecesOfChunks(ps);
        ReassemblyAnyOrder(f, w, h, rgba, ChunkMessages(ps), pending);
    }
  }

  /** With nothing over-long, handling what was sent gives the accepted contents. */
  lemma {:induction false} HandleTransfers(f: Foreign, cs: seq<ClipboardContent>, pending: Option<Assembly>)
    requires f.Lawful() && AllAllocatable(cs) && AllSendable(cs)
    ensures HandleAll(f, TransferAll(f, cs), pending).contents == AcceptedOnly(f, cs)
    ensures forall m :: m in TransferAll(f, cs) ==> Fits(m)
  {
    hide Transfer, HandleAll, Accepted, Fits, Sendable, Allocatable;
    if cs == [] {
      HandleNone(f, pending);
    } else {
      var rest := TransferAll(f, cs[1..]);
      assert Allocatable(cs[0]) && Sendable(cs[0]);
      if Accepted(f, cs[0]) {
        TransferFits(f, cs[0]);
        HandleTransfer(f, cs[0], pending);
        var l := HandleAll(f, Transfer(f, cs[0]), pending);
        HandleTransfers(f, cs[1..], l.pending);
        HandleConcat(f, Transfer(f, cs[0]), rest, pending);
      } else {
        HandleTransfers(f, cs[1..], pending);
        assert [] + rest == rest;
      }
    }
  }

  lemma HandleNone(f: Foreign, pending: Option<Assembly>)
    ensures HandleAll(f, [], pending) == Log(pending, [])
  {
  }

  lemma {:induction false} BeforeOverlongSendable(cs: seq<ClipboardContent>)
    ensures AllSendable(BeforeOverlong(cs))
    ensures BeforeOverlong(cs) == cs <==> AllSendable(cs)
    ensures AllAllocatable(cs) ==> AllAllocatable(BeforeOverlong(cs))
  {
    hide Sendable, Allocatable;
    if cs != [] && Sendable(cs[0]) {
      BeforeOverlongSendable(cs[1..]);
      assert cs == [cs[0]] + cs[1..];
    } else if cs != [] {
      assert cs[0] in cs;
    }
  }

  lemma OverlongMessage(f: Foreign, c: ClipboardContent)
    requires Allocatable(c) && !Sendable(c)
    ensures Accepted(f, c) && |Transfer(f, c)| == 1 && !Fits(Transfer(f, c)[0])
  {
    TransferFits(f, c);
  }

  /** What is sent starts with the contents before the first over-long text, and goes on with that text's message. */
  lemma {:induction false} TransferUpTo(f: Foreign, cs: seq<ClipboardContent>) returns (after: seq<Message>)
    requires AllAllocatable(cs)
    ensures AllAllocatable(BeforeOverlong(cs))
    ensures TransferAll(f, cs) == TransferAll(f, BeforeOverlong(cs)) + after
    ensures after == [] <==> AllSendable(cs)
    ensures after != [] ==> !Fits(after[0])
  {
    hide Sendable, Allocatable, Accepted, Transfer, Fits;
    BeforeOverlongSendable(cs);
    if cs == [] {
      after := [];
    } else if Sendable(cs[0]) {
      assert Allocatable(cs[0]);
      after := TransferUpTo(f, cs[1..]);
      BeforeOverlongSendable(cs[1..]);
      var own := if Accepted(f, cs[0]) then Transfer(f, cs[0]) else [];
      assert BeforeOverlong(cs)[1..] == BeforeOverlong(cs[1..]);
      assert own + (TransferAll(f, BeforeOverlong(cs[1..])) + after)
          == (own + TransferAll(f, BeforeOverlong(cs[1..]))) + after;
      assert cs == [cs[0]] + cs[1..];
    } else {
      assert Allocatable(cs[0]) && cs[0] in cs;
      OverlongMessage(f, cs[0]);
      after := TransferAll(f, cs);
      assert after[0] == Transfer(f, cs[0])[0];
      assert [] + after == after;
    }
  }

  lemma {:induction false} AcceptedGrows(f: Foreign, cs: seq<ClipboardContent>)
    ensures AcceptedOnly(f, BeforeOverlong(cs)) == AcceptedOnly(f, cs) <==> AllSendable(cs)
    ensures |AcceptedOnly(f, BeforeOverlong(cs))| <= |AcceptedOnly(f, cs)|
  {
    BeforeOverlongSendable(cs);
    if cs != [] && Sendable(cs[0]) {
      AcceptedGrows(f, cs[1..]);
      BeforeOverlongSendable(cs[1..]);
      assert BeforeOverlong(cs)[1..] == BeforeOverlong(cs[1..]);
      assert cs == [cs[0]] + cs[1..];
      var own := if Accepted(f, cs[0]) then [cs[0]] else [];
      assert AcceptedOnly(f, cs)[|own|..] == AcceptedOnly(f, cs[1..]);
      assert AcceptedOnly(f, BeforeOverlong(cs))[|own|..] == AcceptedOnly(f, BeforeOverlong(cs[1..]));
    } else if cs != [] {
      assert cs[0] in cs && !Sendable(cs[0]);
      assert |AcceptedOnly(f, cs)| >= 1;
    }
  }

  /**
   Preparing any list of contents, framing every message, concatenating the bytes,
   reading the frames back and handling them yields exactly the accepted contents
   before the first text over the limit: that text breaks the stream, and everything
   after it is lost with it.  So all accepted contents arrive, and the stream ends
   cleanly, if and only if there is no such text.
   */
  lemma WireExact(f: Foreign, cs: seq<ClipboardContent>, pending: Option<Assembly>)
    requires f.Lawful() && AllAllocatable(cs)
    ensures var got := Framing.ReadAll(Framing.Wire(TransferAll(f, cs)));
            var contents := HandleAll(f, got.msgs, pending).contents;
            && contents == AcceptedOnly(f, BeforeOverlong(cs))
            && (contents == AcceptedOnly(f, cs) <==> AllSendable(cs))
            && (got.end == Framing.CleanEnd <==> AllSendable(cs))
  {
    hide TransferAll, HandleAll, Framing.ReadAll, Framing.Wire, AcceptedOnly;
    BeforeOverlongSendable(cs);
    var after := TransferUpTo(f, cs);
    HandleTransfers(f, BeforeOverlong(cs), pending);
    Framing.ReadUpToUnfit(TransferAll(f, BeforeOverlong(cs)), after);
    AcceptedGrows(f, cs);
  }

  /** A text of at most 16 MiB less 16 bytes, or an image of at most 10 MiB compressed. */
  predicate Small(f: Foreign, c: ClipboardContent) {
    match c
    case TextContent(t) => |t| <= 16 * 1024 * 1024 - 16
    case ImageContent(_, _, rgba) => |f.compress(rgba)| <= 10 * 1024 * 1024
  }

  lemma SmallIff(f: Foreign, c: ClipboardContent)
    ensures Small(f, c) <==> Sendable(c) && Accepted(f, c)
  {
    AcceptedIff(f, c);
  }

  lemma {:induction false} AllSmall(f: Foreign, cs: seq<ClipboardContent>)
    requires forall c :: c in cs ==> Small(f, c)
    ensures AllAllocatable(cs) && AllSendable(cs) && AcceptedOnly(f, cs) == cs
  {
    hide Small, Accepted, Sendable;
    forall c | c in cs ensures Sendable(c) && Accepted(f, c) && Allocatable(c) {
      SmallIff(f, c);
      SendableAllocatable(c);
    }
    if cs != [] {
      AllSmall(f, cs[1..]);
      assert cs[0] in cs && cs == [cs[0]] + cs[1..];
    }
  }

  lemma SendableAllocatable(c: ClipboardContent)
    requires Sendable(c)
    ensures Allocatable(c)
  {
  }

  /** In figures: any list of small contents comes through whole. */
  lemma SmallContentsArrive(f: Foreign, cs: seq<ClipboardContent>, pending: Option<Assembly>)
    requires f.Lawful() && forall c :: c in cs ==> Small(f, c)
    ensures AllAllocatable(cs)
    ensures HandleAll(f, Framing.ReadAll(Framing.Wire(TransferAll(f, cs))).msgs, pending).contents == cs
  {
    hide Small, TransferAll, HandleAll, Framing.ReadAll, Framing.Wire, AcceptedOnly;
    AllSmall(f, cs);
    WireExact(f, cs, pending);
  }

  lemma {:induction false} SplitCount(data: Blob, from: nat)
    requires from + |data| < 0x1_0000_0000
    ensures |Split(data, from)| == (|data| + 65535) / 65536
    decreases |data|
  {
    if data != [] {
      SplitCount(data[ChunkSize(data)..], from + 1);
    }
  }

  /** An image takes one message per 64 KiB of its compressed form, begun or full, and two more. */
  lemma MessageCount(f: Foreign, w: U32, h: U32, rgba: Blob)
    requires Accepted(f, ImageContent(w, h, rgba))
    ensures |Transfer(f, ImageContent(w, h, rgba))| == (|f.compress(rgba)| + 65535) / 65536 + 2
  {
    SplitCount(f.compress(rgba), 0);
  }

  // ------------------------------------------------------------------
  // Out of turn
  // ------------------------------------------------------------------

  /** Chunks and ends that no begin preceded yield nothing: only the texts come through. */
  lemma {:induction false} NoBeginNoImage(f: Foreign, body: seq<Message>)
    requires forall m :: m in body ==> !(m.ClipboardBegin? && m.beginFormat.Image?)
    ensures HandleAll(f, body, None) == Log(None, Texts(body))
  {
    hide Utf8.FromUtf8Lossy;
    if body != [] {
      var front, last := body[..|body| - 1], body[|body| - 1];
      assert last in body;
      NoBeginNoImage(f, front);
    }
  }

  /** Whatever came before, nothing is pending after an end, so what follows starts afresh. */
  lemma EndClears(f: Foreign, msgs: seq<Message>, hash: Hash, pending: Option<Assembly>)
    ensures HandleAll(f, msgs + [ClipboardEnd(hash)], pending).pending == None
  {
    var all := msgs + [ClipboardEnd(hash)];
    assert all[..|all| - 1] == msgs;
  }

  lemma AddModulo(x: nat, y: nat)
    ensures (x % 0x1_0000_0000 + y % 0x1_0000_0000) % 0x1_0000_0000 == (x + y) % 0x1_0000_0000
  {
  }

  /** The byte counter is the length of what came in, modulo 2^32. */
  lemma {:induction false} ReceivedWraps(a: Assembly, ps: seq<Piece>)
    ensures CollectAll(a, ps).received == (a.received + TotalLength(ps)) % 0x1_0000_0000
  {
    if ps != [] {
      var front, last := ps[..|ps| - 1], ps[|ps| - 1];
      assert ps == front + [last];
      TotalLengthConcat(front, [last]);
      assert TotalLength([last]) == |last.1|;
      ReceivedWraps(a, front);
      ReceivedOne(CollectAll(a, front), last, a.received + TotalLength(front));
    }
  }

  lemma ReceivedOne(a: Assembly, p: Piece, before: nat)
    requires a.received == before % 0x1_0000_0000
    ensures Collect(a, p).received == (before + |p.1|) % 0x1_0000_0000
  {
    AddModulo(before, |p.1|);
  }

  /** An assembly is complete once the chunks in it, from whomever, are as long as announced. */
  lemma CompleteIffReached(total: U32, w: U32, h: U32, arrived: seq<Piece>)
    requires TotalLength(arrived) < 0x1_0000_0000
    ensures Complete(CollectAll(NewAssembly(total, w, h), arrived)) <==> TotalLength(arrived) >= total
  {
    ReceivedCounts(NewAssembly(total, w, h), arrived);
    CollectAllKeeps(NewAssembly(total, w, h), arrived);
  }

  /** In particular, contents without such a text make the whole way. */
  lemma WireRoundTrip(f: Foreign, cs: seq<ClipboardContent>, pending: Option<Assembly>)
    requires f.Lawful() && AllAllocatable(cs) && AllSendable(cs)
    ensures var got := Framing.ReadAll(Framing.Wire(TransferAll(f, cs)));
            got.end == Framing.CleanEnd && HandleAll(f, got.msgs, pending).contents == AcceptedOnly(f, cs)
  {
    hide TransferAll, HandleAll, Framing.ReadAll, Framing.Wire, AcceptedOnly;
    WireExact(f, cs, pending);
  }

  lemma {:induction false} PrefixContents(f: Foreign, msgs: seq<Message>, k: nat, pending: Option<Assembly>)
    requires k <= |msgs|
    ensures HandleAll(f, msgs[..k], pending).contents <= HandleAll(f, msgs, pending).contents
  {
    hide Handle, HandleAll;
    assert msgs == msgs[..k] + msgs[k..];
    HandleConcat(f, msgs[..k], msgs[k..], pending);
  }

  lemma PrefixReaches(a: seq<Message>, b: seq<Message>, k: nat)
    requires k <= |a + b|
    ensures k > |a| ==> b[0] in (a + b)[..k]
  {
    if k > |a| {
      assert (a + b)[..k][|a|] == b[0];
    }
  }

  /** A connection that breaks at any byte yields a prefix of what it would have yielded, never a wrong content. */
  lemma CutConnection(f: Foreign, cs: seq<ClipboardContent>, pending: Option<Assembly>, cut: nat)
    requires f.Lawful() && AllAllocatable(cs)
    requires cut <= |Framing.Wire(TransferAll(f, cs))|
    ensures var sent := TransferAll(f, cs);
            var got := Framing.ReadAll(Framing.Wire(sent)[..cut]);
            && got.msgs == sent[..Framing.Recovered(sent, cut)]
            && HandleAll(f, got.msgs, pending).contents <= AcceptedOnly(f, BeforeOverlong(cs))
  {
    hide TransferAll, HandleAll, Framing.ReadAll, Framing.Wire, Framing.Recovered, AcceptedOnly, Fits;
    BeforeOverlongSendable(cs);
    var sent, good := TransferAll(f, cs), TransferAll(f, BeforeOverlong(cs));
    var after := TransferUpTo(f, cs);
    var k := Framing.Recovered(sent, cut);
    HandleTransfers(f, BeforeOverlong(cs), pending);
    Framing.PrefixExact(sent, cut);
    Framing.RecoveredExact(sent, cut);
    PrefixReaches(good, after, k);
    assert sent[..k] == good[..k];
    PrefixContents(f, good, k, pending);
  }

  /**
   Whatever messages arrive, from however many senders: an image is released only
   by a ClipboardEnd whose hash is that of its pixels.
   */
  lemma {:induction false} ImageIntegrity(f: Foreign, msgs: seq<Message>, pending: Option<Assembly>)
    ensures forall c :: c in HandleAll(f, msgs, pending).contents && c.ImageContent? ==>
      ClipboardEnd(f.hash(c.rgba)) in msgs
  {
    if msgs != [] {
      var front, last := msgs[..|msgs| - 1], msgs[|msgs| - 1];
      ImageIntegrity(f, front, pending);
      var before := HandleAll(f, front, pending);
      ReleasedByEnd(f, last, before.pending);
      forall c | c in HandleAll(f, msgs, pending).contents && c.ImageContent?
        ensures ClipboardEnd(f.hash(c.rgba)) in msgs
      {
        if c in before.contents {
          assert ClipboardEnd(f.hash(c.rgba)) in front;
        }
      }
    }
  }

  lemma ReleasedByEnd(f: Foreign, m: Message, pending: Option<Assembly>)
    ensures var h := Handle(f, m, pending);
            h.content.Some? && h.content.value.ImageContent? ==> m == ClipboardEnd(f.hash(h.content.value.rgba))
  {
  }
}
