/**
 Clipboard transfers (crates/ss-clipboard/src/sync.rs): splitting content into
 messages, collecting the chunks of an image in whatever order they come, and
 the receiver that turns messages back into content.

 zstd and blake3 are parameters; of zstd it is asked only that it decompresses
 what it compressed.
 */
module ClipboardSync {
  import opened Wrappers
  import opened Bytes
  import opened Protocol
  import Utf8

  datatype Foreign = Foreign(
    compress: Blob -> Blob,
    decompress: seq<Byte> -> Option<Blob>,
    hash: seq<Byte> -> Hash)
  {
    ghost predicate Lawful() {
      forall x: Blob :: decompress(compress(x)) == Some(x)
    }
  }

  datatype ClipboardContent =
    | TextContent(text: Utf8.Text)
    | ImageContent(width: U32, height: U32, rgba: Blob)

  datatype TransferError = ImageTooLarge(size: nat)

  /** A String is at most isize::MAX bytes. */
  predicate Allocatable(c: ClipboardContent) {
    c.TextContent? ==> |c.text| < 0x8000_0000_0000_0000
  }

  // ------------------------------------------------------------------
  // Sending
  // ------------------------------------------------------------------

  function ChunkSize(data: seq<Byte>): (n: nat)
    ensures n <= |data| && n <= CLIPBOARD_CHUNK_SIZE && (data != [] ==> n > 0)
  {
    if |data| < CLIPBOARD_CHUNK_SIZE then |data| else CLIPBOARD_CHUNK_SIZE
  }

  /** A chunk's sequence number and bytes. */
  type Piece = (U32, Blob)

  /** The 64 KiB pieces of data, numbered from `from` on. */
  function Split(data: Blob, from: nat): (ps: seq<Piece>)
    requires from + |data| < 0x1_0000_0000
  {
    if data == [] then [] else
      var n := ChunkSize(data);
      [(from, data[..n])] + Split(data[n..], from + 1)
  }

  function ChunkMessages(ps: seq<Piece>): (ms: seq<Message>)
    ensures |ms| == |ps|
  {
    seq(|ps|, i requires 0 <= i < |ps| => ClipboardChunk(ps[i].0, ps[i].1))
  }

  predicate Accepted(f: Foreign, c: ClipboardContent) {
    c.ImageContent? ==> |f.compress(c.rgba)| <= MAX_CLIPBOARD_IMAGE_SIZE
  }

  /** The sender refuses exactly the images that are over 10 MiB when compressed. */
  lemma AcceptedIff(f: Foreign, c: ClipboardContent)
    ensures Accepted(f, c) <==> (c.ImageContent? ==> |f.compress(c.rgba)| <= 10 * 1024 * 1024)
  {
  }

  /** The messages of an accepted transfer. */
  function Transfer(f: Foreign, c: ClipboardContent): seq<Message>
    requires Allocatable(c) && Accepted(f, c)
  {
    match c
    case TextContent(t) => [ClipboardData(ClipboardFormat.Text, t)]
    case ImageContent(w, h, rgba) =>
      var z := f.compress(rgba);
      [ClipboardBegin(ClipboardFormat.Image, |z|, w, h)] + ChunkMessages(Split(z, 0)) + [ClipboardEnd(f.hash(rgba))]
  }

  lemma SplitCons(data: Blob, from: nat)
    requires from + |data| < 0x1_0000_0000 && data != []
    ensures var n := ChunkSize(data);
            ChunkMessages(Split(data, from))
            == [ClipboardChunk(from, data[..n])] + ChunkMessages(Split(data[n..], from + 1))
  {
  }

  lemma SplitNone(from: nat)
    requires from < 0x1_0000_0000
    ensures ChunkMessages(Split([], from)) == []
  {
  }

  method PrepareTransfer(f: Foreign, c: ClipboardContent) returns (r: Result<seq<Message>, TransferError>)
    requires Allocatable(c)
    ensures r.Failure? <==> c.ImageContent? && |f.compress(c.rgba)| > 10 * 1024 * 1024
    ensures r.Success? ==> r.value == Transfer(f, c)
    ensures r.Failure? ==> r.error == ImageTooLarge(|f.compress(c.rgba)|)
  {
    hide Split, ChunkMessages;
    match c {
      case TextContent(t) =>
        return Success([ClipboardData(ClipboardFormat.Text, t)]);
      case ImageContent(w, h, rgba) =>
        var z := f.compress(rgba);
        if |z| > MAX_CLIPBOARD_IMAGE_SIZE {
          return Failure(ImageTooLarge(|z|));
        }
        var messages := [ClipboardBegin(ClipboardFormat.Image, |z|, w, h)];
        var chunks: seq<Message> := [];
        assert chunks + ChunkMessages(Split(z, 0)) == ChunkMessages(Split(z, 0));
        var rest: Blob := z;
        var seqNo := 0;
        while rest != []
          invariant seqNo + |rest| <= |z|
          invariant chunks + ChunkMessages(Split(rest, seqNo)) == ChunkMessages(Split(z, 0))
          decreases |rest|
        {
          var n := ChunkSize(rest);
          SplitCons(rest, seqNo);
          chunks := chunks + [ClipboardChunk(seqNo, rest[..n])];
          rest := rest[n..];
          seqNo := seqNo + 1;
        }
        SplitNone(seqNo);
        assert chunks + [] == ChunkMessages(Split(z, 0));
        messages := messages + chunks + [ClipboardEnd(f.hash(rgba))];
        return Success(messages);
    }
  }

  // ------------------------------------------------------------------
  // Stable sort by sequence number
  // ------------------------------------------------------------------

  function Insert(p: Piece, ps: seq<Piece>): seq<Piece> {
    if ps == [] || p.0 <= ps[0].0 then [p] + ps else [ps[0]] + Insert(p, ps[1..])
  }

  /** sort_by_key on the sequence number. */
  function SortBySeq(ps: seq<Piece>): seq<Piece> {
    if ps == [] then [] else Insert(ps[0], SortBySeq(ps[1..]))
  }

  predicate Ascending(ps: seq<Piece>) {
    forall i, j :: 0 <= i < j < |ps| ==> ps[i].0 <= ps[j].0
  }

  predicate StrictlyAscending(ps: seq<Piece>) {
    forall i, j :: 0 <= i < j < |ps| ==> ps[i].0 < ps[j].0
  }

  /** The pieces numbered k, in order. */
  function WithKey(ps: seq<Piece>, k: U32): seq<Piece> {
    if ps == [] then [] else (if ps[0].0 == k then [ps[0]] else []) + WithKey(ps[1..], k)
  }

  lemma AscendingCons(p: Piece, ps: seq<Piece>)
    requires Ascending(ps) && forall q :: q in ps ==> p.0 <= q.0
    ensures Ascending([p] + ps)
  {
    forall i, j | 0 <= i < j < |ps| + 1 ensures ([p] + ps)[i].0 <= ([p] + ps)[j].0 {
      assert ([p] + ps)[j] == ps[j - 1] && ps[j - 1] in ps;
    }
  }

  lemma {:induction false} InsertKeeps(p: Piece, ps: seq<Piece>)
    requires Ascending(ps)
    ensures Ascending(Insert(p, ps))
    ensures multiset(Insert(p, ps)) == multiset{p} + multiset(ps)
  {
    if ps == [] {
    } else if p.0 <= ps[0].0 {
      AscendingCons(p, ps);
    } else {
      var tail := Insert(p, ps[1..]);
      InsertKeeps(p, ps[1..]);
      assert ps == [ps[0]] + ps[1..];
      forall q | q in tail ensures ps[0].0 <= q.0 {
        assert q in multiset(tail);
        assert q == p || q in ps[1..];
      }
      AscendingCons(ps[0], tail);
    }
  }

  lemma {:induction false} SortSorts(ps: seq<Piece>)
    ensures Ascending(SortBySeq(ps))
    ensures multiset(SortBySeq(ps)) == multiset(ps)
  {
    if ps != [] {
      SortSorts(ps[1..]);
      InsertKeeps(ps[0], SortBySeq(ps[1..]));
      assert ps == [ps[0]] + ps[1..];
    }
  }

  lemma {:induction false} InsertStable(p: Piece, ps: seq<Piece>, k: U32)
    ensures WithKey(Insert(p, ps), k) == WithKey([p] + ps, k)
  {
    assert ([p] + ps)[1..] == ps;
    if ps != [] && p.0 > ps[0].0 {
      InsertStable(p, ps[1..], k);
      assert ([p] + ps[1..])[1..] == ps[1..];
      assert ([ps[0]] + Insert(p, ps[1..]))[1..] == Insert(p, ps[1..]);
    }
  }

  /** The sort is stable: pieces with equal numbers keep their order. */
  lemma {:induction false} SortStable(ps: seq<Piece>, k: U32)
    ensures WithKey(SortBySeq(ps), k) == WithKey(ps, k)
  {
    if ps != [] {
      SortStable(ps[1..], k);
      InsertStable(ps[0], SortBySeq(ps[1..]), k);
      assert ([ps[0]] + SortBySeq(ps[1..]))[1..] == SortBySeq(ps[1..]);
    }
  }

  lemma SameHead(a: seq<Piece>, b: seq<Piece>)
    requires Ascending(a) && StrictlyAscending(b) && multiset(a) == multiset(b) && a != []
    ensures b != [] && a[0] == b[0]
    ensures multiset(a[1..]) == multiset(b[1..])
  {
    assert a[0] in multiset(b);
    var i :| 0 <= i < |b| && b[i] == a[0];
    assert b[0] in multiset(a);
    var j :| 0 <= j < |a| && a[j] == b[0];
    assert a[0].0 <= a[j].0;
    assert i == 0;
    assert a == [a[0]] + a[1..] && b == [b[0]] + b[1..];
    assert multiset(a[1..]) == multiset(a) - multiset{a[0]};
    assert multiset(b[1..]) == multiset(b) - multiset{b[0]};
  }

  lemma {:induction false} SortedUnique(a: seq<Piece>, b: seq<Piece>)
    requires Ascending(a) && StrictlyAscending(b) && multiset(a) == multiset(b)
    ensures a == b
  {
    if a == [] {
      assert |multiset(a)| == |multiset(b)|;
    } else {
      SameHead(a, b);
      SortedUnique(a[1..], b[1..]);
      assert a == [a[0]] + a[1..] && b == [b[0]] + b[1..];
    }
  }

  /** However the pieces are permuted, sorting restores them. */
  lemma SortRestores(arrived: seq<Piece>, sent: seq<Piece>)
    requires multiset(arrived) == multiset(sent) && StrictlyAscending(sent)
    ensures SortBySeq(arrived) == sent
  {
    SortSorts(arrived);
    SortedUnique(SortBySeq(arrived), sent);
  }

  // ------------------------------------------------------------------
  // Collecting
  // ------------------------------------------------------------------

  function Concat(ps: seq<Piece>): seq<Byte> {
    if ps == [] then [] else ps[0].1 + Concat(ps[1..])
  }

  function TotalLength(ps: seq<Piece>): nat {
    if ps == [] then 0 else |ps[0].1| + TotalLength(ps[1..])
  }

  /** The value of a ClipboardReassembler. */
  datatype Assembly = Assembly(totalSize: U32, width: U32, height: U32, chunks: seq<Piece>, received: U32)

  function NewAssembly(totalSize: U32, width: U32, height: U32): Assembly {
    Assembly(totalSize, width, height, [], 0)
  }

  /** The 32-bit byte counter wraps, as an unchecked u32 addition does. */
  function Collect(a: Assembly, p: Piece): Assembly {
    a.(chunks := a.chunks + [p], received := (a.received + |p.1| % 0x1_0000_0000) % 0x1_0000_0000)
  }

  function Complete(a: Assembly): bool {
    a.received >= a.totalSize
  }

  datatype FinishError = NotDecompressible | HashMismatch

  function Finish(f: Foreign, a: Assembly, expected: Hash): Result<ClipboardContent, FinishError> {
    match f.decompress(Concat(SortBySeq(a.chunks)))
    case None => Failure(NotDecompressible)
    case Some(rgba) =>
      if f.hash(rgba) != expected then Failure(HashMismatch) else Success(ImageContent(a.width, a.height, rgba))
  }

  /** What one message does to the pending assembly, and the content it completes. */
  datatype Handled = Handled(pending: Option<Assembly>, content: Option<ClipboardContent>)

  function Handle(f: Foreign, m: Message, pending: Option<Assembly>): Handled {
    match m
    case ClipboardData(format, data) =>
      if format.Text? then
        Utf8.LossyIsValid(data);
        Handled(pending, Some(TextContent(Utf8.FromUtf8Lossy(data))))
      else Handled(pending, None)
    case ClipboardBegin(format, t, w, h) =>
      Handled(if format.Image? then Some(NewAssembly(t, w, h)) else pending, None)
    case ClipboardChunk(s, d) =>
      Handled(if pending.Some? then Some(Collect(pending.value, (s, d))) else None, None)
    case ClipboardEnd(hash) =>
      if pending.None? then Handled(None, None)
      else
        (match Finish(f, pending.value, hash)
         case Success(c) => Handled(None, Some(c))
         case Failure(_) => Handled(None, None))
    case _ => Handled(pending, None)
  }

  class ClipboardReassembler {
    const totalSize: U32
    const width: U32
    const height: U32
    var chunks: seq<Piece>
    var received: U32

    function View(): Assembly
      reads this
    {
      Assembly(totalSize, width, height, chunks, received)
    }

    constructor (totalSize: U32, width: U32, height: U32)
      ensures View() == NewAssembly(totalSize, width, height)
    {
      this.totalSize, this.width, this.height := totalSize, width, height;
      chunks, received := [], 0;
    }

    /** True once all the announced bytes have come in. */
    method AddChunk(seqNo: U32, data: Blob) returns (complete: bool)
      modifies this
      ensures View() == Collect(old(View()), (seqNo, data))
      ensures complete == Complete(View())
    {
      received := (received + |data| % 0x1_0000_0000) % 0x1_0000_0000;
      chunks := chunks + [(seqNo, data)];
      complete := received >= totalSize;
    }

    method Finished(f: Foreign, expected: Hash) returns (r: Result<ClipboardContent, FinishError>)
      ensures r == Finish(f, View(), expected)
    {
      var sorted := SortBySeq(chunks);
      var compressed: seq<Byte> := [];
      var i := 0;
      while i < |sorted|
        invariant i <= |sorted|
        invariant compressed + Concat(sorted[i..]) == Concat(sorted)
      {
        assert sorted[i..][1..] == sorted[i + 1..];
        assert compressed + (sorted[i].1 + Concat(sorted[i + 1..]))
            == (compressed + sorted[i].1) + Concat(sorted[i + 1..]);
        compressed := compressed + sorted[i].1;
        i := i + 1;
      }
      assert compressed == Concat(sorted);
      match f.decompress(compressed) {
        case None => return Failure(NotDecompressible);
        case Some(rgba) =>
          if f.hash(rgba) != expected {
            return Failure(HashMismatch);
          }
          return Success(ImageContent(width, height, rgba));
      }
    }
  }

  /** A task's `Option<ClipboardReassembler>`. */
  class ClipboardReceiver {
    var reassembler: ClipboardReassembler?

    function Pending(): Option<Assembly>
      reads this, reassembler
    {
      if reassembler == null then None else Some(reassembler.View())
    }

    constructor ()
      ensures Pending() == None
    {
      reassembler := null;
    }

    method HandleClipboardMessage(f: Foreign, m: Message) returns (content: Option<ClipboardContent>)
      modifies this, reassembler
      ensures Handled(Pending(), content) == Handle(f, m, old(Pending()))
      ensures reassembler == null || reassembler == old(reassembler) || fresh(reassembler)
    {
      content := None;
      match m {
        case ClipboardData(format, data) =>
          if format.Text? {
            Utf8.LossyIsValid(data);
            content := Some(TextContent(Utf8.FromUtf8Lossy(data)));
          }
        case ClipboardBegin(format, t, w, h) =>
          if format.Image? {
            reassembler := new ClipboardReassembler(t, w, h);
          }
        case ClipboardChunk(s, d) =>
          if reassembler != null {
            var _ := reassembler.AddChunk(s, d);
          }
        case ClipboardEnd(hash) =>
          if reassembler != null {
            var asm := reassembler;
            reassembler := null;
            var r := asm.Finished(f, hash);
            if r.Success? {
              content := Some(r.value);
            }
          }
        case _ =>
      }
    }
  }
}
