/**
 The clipboard monitor (crates/ss-clipboard/src/monitor.rs): what a poll reports,
 and which changes it holds back because they came from the network.  Times are
 milliseconds since an arbitrary start.
 */
module ClipboardMonitor {
  import opened Wrappers
  import opened Bytes
  import opened Protocol
  import opened ClipboardSync

  const CLIPBOARD_SUPPRESSION_MS := 1000

  /** ClipboardContent::hash: an image's dimensions are not part of it. */
  function ContentHash(f: Foreign, c: ClipboardContent): Hash {
    match c
    case TextContent(t) => f.hash(t)
    case ImageContent(_, _, rgba) => f.hash(rgba)
  }

  /** read_clipboard: an empty text reads as nothing. */
  function Readable(clipboard: Option<ClipboardContent>): Option<ClipboardContent> {
    if clipboard == Some(TextContent([])) then None else clipboard
  }

  datatype MonitorState = MonitorState(lastHash: Option<Hash>, lastRemoteWrite: Option<nat>, remoteHash: Option<Hash>)

  const NEW_MONITOR := MonitorState(None, None, None)

  predicate Suppressed(s: MonitorState, h: Hash, now: nat) {
    || s.remoteHash == Some(h)
    || (s.lastRemoteWrite.Some? && now - s.lastRemoteWrite.value < CLIPBOARD_SUPPRESSION_MS)
  }

  /** A poll reports the clipboard unless it is empty, held back, or already reported. */
  predicate Reports(f: Foreign, s: MonitorState, clipboard: Option<ClipboardContent>, now: nat) {
    && Readable(clipboard).Some?
    && var h := ContentHash(f, Readable(clipboard).value);
       !Suppressed(s, h, now) && s.lastHash != Some(h)
  }

  function Polled(f: Foreign, s: MonitorState, clipboard: Option<ClipboardContent>, now: nat): MonitorState {
    if Reports(f, s, clipboard, now) then s.(lastHash := Some(ContentHash(f, Readable(clipboard).value))) else s
  }

  /** A remote write of content with this hash has been signalled. */
  function Signalled(s: MonitorState, h: Hash, now: nat): MonitorState {
    s.(lastRemoteWrite := Some(now), remoteHash := Some(h))
  }

  class Monitor {
    var lastHash: Option<Hash>
    var lastRemoteWrite: Option<nat>
    var remoteHash: Option<Hash>

    function View(): MonitorState
      reads this
    {
      MonitorState(lastHash, lastRemoteWrite, remoteHash)
    }

    constructor ()
      ensures View() == NEW_MONITOR
    {
      lastHash, lastRemoteWrite, remoteHash := None, None, None;
    }

    method Suppress(h: Hash, now: nat)
      modifies this
      ensures View() == Signalled(old(View()), h, now)
    {
      lastRemoteWrite := Some(now);
      remoteHash := Some(h);
    }

    method IsSuppressed(h: Hash, now: nat) returns (r: bool)
      ensures r == Suppressed(View(), h, now)
    {
      if remoteHash.Some? {
        if remoteHash.value == h {
          return true;
        }
      }
      if lastRemoteWrite.Some? {
        if now - lastRemoteWrite.value < CLIPBOARD_SUPPRESSION_MS {
          return true;
        }
      }
      return false;
    }

    method Poll(f: Foreign, clipboard: Option<ClipboardContent>, now: nat) returns (change: Option<ClipboardContent>)
      modifies this
      ensures View() == Polled(f, old(View()), clipboard, now)
      ensures change == if Reports(f, old(View()), clipboard, now) then Readable(clipboard) else None
    {
      var content := Readable(clipboard);
      if content.None? {
        return None;
      }
      var h := ContentHash(f, content.value);
      var held := IsSuppressed(h, now);
      if held {
        return None;
      }
      if lastHash == Some(h) {
        return None;
      }
      lastHash := Some(h);
      return content;
    }
  }

  // ------------------------------------------------------------------
  // What a monitor reports in the long run
  // ------------------------------------------------------------------

  datatype Event = PollEvent(clipboard: Option<ClipboardContent>, at: nat) | SuppressEvent(hash: Hash, at: nat)

  function Act(f: Foreign, s: MonitorState, e: Event): MonitorState {
    match e
    case PollEvent(c, t) => Polled(f, s, c, t)
    case SuppressEvent(h, t) => Signalled(s, h, t)
  }

  function Run(f: Foreign, s: MonitorState, events: seq<Event>): MonitorState {
    if events == [] then s else Act(f, Run(f, s, events[..|events| - 1]), events[|events| - 1])
  }

  /** The hashes of the contents reported in a run, in order. */
  function Reported(f: Foreign, s: MonitorState, events: seq<Event>): seq<Hash> {
    if events == [] then [] else
      var n := |events| - 1;
      Reported(f, s, events[..n]) +
      match events[n]
      case PollEvent(c, t) =>
        if Reports(f, Run(f, s, events[..n]), c, t) then [ContentHash(f, Readable(c).value)] else []
      case SuppressEvent(_, _) => []
  }

  lemma {:induction false} LastReported(f: Foreign, s: MonitorState, events: seq<Event>)
    ensures var hs := Reported(f, s, events);
            Run(f, s, events).lastHash == if hs == [] then s.lastHash else Some(hs[|hs| - 1])
  {
    hide Reports, ContentHash, Readable;
    if events != [] {
      LastReported(f, s, events[..|events| - 1]);
    }
  }

  /** Whatever is copied and written in between, no two reports in a row are of the same content. */
  lemma {:induction false} ReportsAlternate(f: Foreign, s: MonitorState, events: seq<Event>)
    ensures var hs := Reported(f, s, events);
            forall i :: 0 < i < |hs| ==> hs[i] != hs[i - 1]
  {
    hide ContentHash, Readable, Suppressed;
    if events != [] {
      var n := |events| - 1;
      ReportsAlternate(f, s, events[..n]);
      LastReported(f, s, events[..n]);
    }
  }

  /** The latest signal of a run: its hash and its time. */
  function LatestSignal(events: seq<Event>): Option<(Hash, nat)> {
    if events == [] then None else
      match events[|events| - 1]
      case SuppressEvent(h, u) => Some((h, u))
      case PollEvent(_, _) => LatestSignal(events[..|events| - 1])
  }

  lemma {:induction false} SignalRemembered(f: Foreign, events: seq<Event>)
    ensures var s, latest := Run(f, NEW_MONITOR, events), LatestSignal(events);
            && s.remoteHash == (if latest.None? then None else Some(latest.value.0))
            && s.lastRemoteWrite == (if latest.None? then None else Some(latest.value.1))
  {
    hide Reports, ContentHash, Readable;
    if events != [] {
      SignalRemembered(f, events[..|events| - 1]);
    }
  }

  /** The hash of the last report of a run. */
  function LastHashReported(f: Foreign, events: seq<Event>): Option<Hash> {
    var hs := Reported(f, NEW_MONITOR, events);
    if hs == [] then None else Some(hs[|hs| - 1])
  }

  /**
   Exactly when a poll at time t reports content c, after any events: c is not the
   empty text, nothing was signalled within the last 1000 milliseconds, and c is
   neither what was signalled last nor what was reported last.
   */
  lemma ReportsIff(f: Foreign, events: seq<Event>, c: ClipboardContent, t: nat)
    ensures Reports(f, Run(f, NEW_MONITOR, events), Some(c), t) <==>
            && c != TextContent([])
            && (match LatestSignal(events)
                case None => true
                case Some(signal) => t - signal.1 >= 1000 && ContentHash(f, c) != signal.0)
            && LastHashReported(f, events) != Some(ContentHash(f, c))
  {
    hide ContentHash;
    SignalRemembered(f, events);
    LastReported(f, NEW_MONITOR, events);
  }

  /** The bytes of a content that it is known by: an image's dimensions are not among them. */
  function Payload(c: ClipboardContent): seq<Byte> {
    if c.TextContent? then c.text else c.rgba
  }

  /** If blake3 tells two payloads apart, so does the monitor; equal payloads it never tells apart. */
  lemma HashTellsPayload(f: Foreign, c: ClipboardContent, d: ClipboardContent)
    requires f.hash(Payload(c)) == f.hash(Payload(d)) ==> Payload(c) == Payload(d)
    ensures ContentHash(f, c) == ContentHash(f, d) <==> Payload(c) == Payload(d)
  {
  }

  /** An image is known by the hash that ends its transfer. */
  lemma HashEndsTransfer(f: Foreign, w: U32, h: U32, rgba: Blob)
    requires Accepted(f, ImageContent(w, h, rgba))
    ensures var ms := Transfer(f, ImageContent(w, h, rgba));
            ms[|ms| - 1] == ClipboardEnd(ContentHash(f, ImageContent(w, h, rgba)))
  {
  }
}
