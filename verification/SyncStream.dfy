/**
 The sync-event stream end to end: the server side that writes it (accounts.controller.ts,
 `events`) and the browser loop that reads it back (useSyncEvents.ts, `consume`).
 */
module SyncStream {
  import opened Common
  import Strings
  import opened Sse

  datatype SyncEvent = SyncEvent(accountId: string, completed: bool)

  /** `JSON.stringify` and `JSON.parse` on sync events. */
  datatype Codec = Codec(encode: SyncEvent -> string, decode: string -> Option<SyncEvent>) {
    /** JSON text is never empty and never contains a raw line break; parsing undoes printing. */
    ghost predicate Sound() {
      forall e: SyncEvent ::
        var text := encode(e);
        decode(text) == Some(e) && text != "" && '\n' !in text && '\r' !in text
    }
  }

  // ---------------------------------------------------------------- the server

  /** What makes the server write. */
  datatype Occurrence = Heartbeat | Published(event: SyncEvent)

  class EventStream {
    const codec: Codec
    const owned: set<string>
    var written: string

    constructor (codec: Codec, owned: set<string>)
      ensures this.codec == codec && this.owned == owned && written == Written(codec, owned, [])
    {
      this.codec := codec;
      this.owned := owned;
      written := ": connected\n\n";
      new;
      assert ": connected" + "\n\n" == ": connected\n\n";
      assert Framed([": connected"]) == ": connected" + "\n\n" + "";
    }

    method OnEvent(event: SyncEvent)
      modifies this`written
      ensures written == old(written) + Framed(FrameOf(codec, owned, Published(event)))
    {
      if event.accountId !in owned {
        return;
      }
      written := written + "event: sync\ndata: " + codec.encode(event) + "\n\n";
      assert FrameOf(codec, owned, Published(event)) == [SyncFrame(codec.encode(event))];
      assert Framed([SyncFrame(codec.encode(event))]) == SyncFrame(codec.encode(event)) + "\n\n" + "";
      assert SyncFrame(codec.encode(event)) == "event: sync\ndata: " + codec.encode(event);
    }

    method OnHeartbeat()
      modifies this`written
      ensures written == old(written) + Framed(FrameOf(codec, owned, Heartbeat))
    {
      written := written + ": ping\n\n";
      assert FrameOf(codec, owned, Heartbeat) == [": ping"];
      assert Framed([": ping"]) == ": ping" + "\n\n" + "";
      assert ": ping" + "\n\n" == ": ping\n\n";
    }
  }

  function FrameOf(codec: Codec, owned: set<string>, o: Occurrence): seq<string> {
    match o
    case Heartbeat => [": ping"]
    case Published(e) => if e.accountId in owned then [SyncFrame(codec.encode(e))] else []
  }

  function FramesOf(codec: Codec, owned: set<string>, os: seq<Occurrence>): seq<string> {
    if os == [] then [] else FrameOf(codec, owned, os[0]) + FramesOf(codec, owned, os[1..])
  }

  /** Everything a connection has written after these occurrences. */
  function Written(codec: Codec, owned: set<string>, os: seq<Occurrence>): string {
    Framed([": connected"] + FramesOf(codec, owned, os))
  }

  /** The published events a client may see, in order. */
  function Visible(owned: set<string>, os: seq<Occurrence>): seq<SyncEvent> {
    if os == [] then [] else VisibleOf(owned, os[0]) + Visible(owned, os[1..])
  }

  function VisibleOf(owned: set<string>, o: Occurrence): seq<SyncEvent> {
    match o
    case Heartbeat => []
    case Published(e) => if e.accountId in owned then [e] else []
  }

  // ---------------------------------------------------------------- the client

  /** The event a frame delivers, if it carries one. */
  function Handled(codec: Codec, frame: string): seq<SyncEvent> {
    var parsed := Parsed(frame);
    if parsed.None? || parsed.value.data == "" then []
    else
      var event := codec.decode(parsed.value.data);
      if event.None? then [] else [event.value]
  }

  function HandledAll(codec: Codec, frames: seq<string>): seq<SyncEvent> {
    if frames == [] then [] else Handled(codec, frames[0]) + HandledAll(codec, frames[1..])
  }

  lemma {:induction false} HandledAllSplits(codec: Codec, a: seq<string>, b: seq<string>)
    ensures HandledAll(codec, a + b) == HandledAll(codec, a) + HandledAll(codec, b)
    decreases |a|
  {
    if a == [] {
      assert a + b == b;
    } else {
      assert (a + b)[1..] == a[1..] + b;
      HandledAllSplits(codec, a[1..], b);
    }
  }

  function Concat(chunks: seq<string>): string {
    if chunks == [] then "" else chunks[0] + Concat(chunks[1..])
  }

  lemma {:induction false} ConcatSnoc(chunks: seq<string>, last: string)
    ensures Concat(chunks + [last]) == Concat(chunks) + last
    decreases |chunks|
  {
    if chunks == [] {
      assert chunks + [last] == [last];
    } else {
      assert (chunks + [last])[1..] == chunks[1..] + [last];
      ConcatSnoc(chunks[1..], last);
    }
  }

  method HandleFrame(codec: Codec, frame: string) returns (delivered: seq<SyncEvent>)
    ensures delivered == Handled(codec, frame)
    ensures |delivered| <= 1
    ensures forall e :: codec.Sound() && frame == SyncFrame(codec.encode(e)) ==> delivered == [e]
    ensures forall e :: e in delivered ==> codec.decode(Strings.Join(DataOf(Strings.Split(frame, '\n')), '\n')) == Some(e)
    ensures '\n' !in frame && Strings.HasPrefix(frame, ":") ==> delivered == []
  {
    forall e | codec.Sound() && frame == SyncFrame(codec.encode(e)) ensures Handled(codec, frame) == [e] {
      SyncFrameDelivers(codec, e);
    }
    if '\n' !in frame && Strings.HasPrefix(frame, ":") { CommentDelivers(codec, frame); }
    var parsed := ParseFrame(frame);
    if parsed.None? || parsed.value.data == "" {
      return [];
    }
    var event := codec.decode(parsed.value.data);
    if event.None? {
      return [];
    }
    delivered := [event.value];
  }

  lemma HandledAllSnoc(codec: Codec, frames: seq<string>, i: nat)
    requires i < |frames|
    ensures HandledAll(codec, frames[..i+1]) == HandledAll(codec, frames[..i]) + Handled(codec, frames[i])
  {
    assert frames[..i+1] == frames[..i] + [frames[i]];
    HandledAllSplits(codec, frames[..i], [frames[i]]);
    assert HandledAll(codec, [frames[i]]) == Handled(codec, frames[i]) + HandledAll(codec, []);
  }

  method HandleFrames(codec: Codec, frames: seq<string>) returns (events: seq<SyncEvent>)
    ensures events == HandledAll(codec, frames)
  {
    events := [];
    var i := 0;
    while i < |frames|
      invariant 0 <= i <= |frames|
      invariant events == HandledAll(codec, frames[..i])
    {
      HandledAllSnoc(codec, frames, i);
      var delivered := HandleFrame(codec, frames[i]);
      events := events + delivered;
      i := i + 1;
    }
    assert frames[..i] == frames;
  }

  /** One more chunk: the carried buffer and the new bytes continue the split of everything so far. */
  lemma ChunkContinues(codec: Codec, chunks: seq<string>, n: nat)
    requires n < |chunks|
    ensures var (seen, buffer) := Frames(Concat(chunks[..n]));
            var (frames, rest) := Frames(buffer + chunks[n]);
            && Frames(Concat(chunks[..n+1])).1 == rest
            && HandledAll(codec, Frames(Concat(chunks[..n+1])).0) == HandledAll(codec, seen) + HandledAll(codec, frames)
  {
    ConcatSnoc(chunks[..n], chunks[n]);
    assert chunks[..n+1] == chunks[..n] + [chunks[n]];
    ChunkInvariance(Concat(chunks[..n]), chunks[n]);
    var (seen, buffer) := Frames(Concat(chunks[..n]));
    HandledAllSplits(codec, seen, Frames(buffer + chunks[n]).0);
  }

  /** The read loop: however the bytes are cut, it sees what one big chunk would show it. */
  method Consume(codec: Codec, chunks: seq<string>) returns (events: seq<SyncEvent>, buffer: string)
    ensures events == HandledAll(codec, Frames(Concat(chunks)).0)
    ensures buffer == Frames(Concat(chunks)).1
  {
    buffer := "";
    events := [];
    var n := 0;
    while n < |chunks|
      invariant 0 <= n <= |chunks|
      invariant buffer == Frames(Concat(chunks[..n])).1
      invariant events == HandledAll(codec, Frames(Concat(chunks[..n])).0)
    {
      ChunkContinues(codec, chunks, n);
      buffer := buffer + chunks[n];
      var frames, rest := SplitFrames(buffer);
      buffer := rest;
      var delivered := HandleFrames(codec, frames);
      events := events + delivered;
      n := n + 1;
    }
    assert chunks[..n] == chunks;
  }

  // ---------------------------------------------------------------- end to end

  lemma CommentDelivers(codec: Codec, text: string)
    requires '\n' !in text && Strings.HasPrefix(text, ":")
    ensures Handled(codec, text) == [] && NoBoundary(text + "\n")
  {
    Strings.SplitWhole(text, '\n');
    assert Gives(text, "data").None?;
    assert DataOf([text]) == [];
    NewlineFree(text);
  }

  lemma NewlineFree(text: string)
    requires '\n' !in text
    ensures NoBoundary(text + "\n")
  {
    forall i ensures !BoundaryAt(text + "\n", i) {
      if 0 <= i < |text| { assert (text + "\n")[i] == text[i]; }
    }
  }

  lemma SyncFrameDelivers(codec: Codec, e: SyncEvent)
    requires codec.Sound()
    ensures Handled(codec, SyncFrame(codec.encode(e))) == [e]
    ensures NoBoundary(SyncFrame(codec.encode(e)) + "\n")
  {
    var text := codec.encode(e);
    assert codec.decode(text) == Some(e) && text != "" && '\n' !in text && '\r' !in text;
    assert text[|text| - 1..][0] == text[|text| - 1];
    assert !Strings.HasSuffix(text, "\r");
    ParseUndoesWrite(text);
    var f := SyncFrame(text) + "\n";
    assert "event: sync\ndata: "[11] == '\n';
    forall i ensures !BoundaryAt(f, i) {
      if 18 <= i < |f| - 1 { assert f[i] == text[i - 18]; }
      if 18 <= i + 1 < |f| - 1 { assert f[i + 1] == text[i + 1 - 18]; }
    }
  }

  /** One write delivers one visible event, or nothing. */
  lemma OccurrenceDelivers(codec: Codec, owned: set<string>, o: Occurrence)
    requires codec.Sound()
    ensures HandledAll(codec, FrameOf(codec, owned, o)) == VisibleOf(owned, o)
    ensures forall i :: 0 <= i < |FrameOf(codec, owned, o)| ==> NoBoundary(FrameOf(codec, owned, o)[i] + "\n")
  {
    match o
    case Heartbeat => CommentDelivers(codec, ": ping");
    case Published(e) => SyncFrameDelivers(codec, e);
  }

  lemma {:induction false} FramesDeliver(codec: Codec, owned: set<string>, os: seq<Occurrence>)
    requires codec.Sound()
    ensures HandledAll(codec, FramesOf(codec, owned, os)) == Visible(owned, os)
    ensures forall i :: 0 <= i < |FramesOf(codec, owned, os)| ==> NoBoundary(FramesOf(codec, owned, os)[i] + "\n")
    decreases |os|
  {
    if os != [] {
      FramesDeliver(codec, owned, os[1..]);
      OccurrenceDelivers(codec, owned, os[0]);
      HandledAllSplits(codec, FrameOf(codec, owned, os[0]), FramesOf(codec, owned, os[1..]));
    }
  }

  lemma WrittenSplits(codec: Codec, owned: set<string>, os: seq<Occurrence>)
    requires codec.Sound()
    ensures Frames(Written(codec, owned, os)) == ([": connected"] + FramesOf(codec, owned, os), "")
    ensures HandledAll(codec, [": connected"] + FramesOf(codec, owned, os)) == Visible(owned, os)
  {
    FramesDeliver(codec, owned, os);
    CommentDelivers(codec, ": connected");
    HandledAllSplits(codec, [": connected"], FramesOf(codec, owned, os));
    FramedSplits([": connected"] + FramesOf(codec, owned, os));
  }

  /**
   Whatever the server wrote and however the network cut it, the client delivers exactly the
   events of the accounts it owns, in the order they were published, and keeps nothing back.
   A connection that dies early delivers a prefix of them.
   */
  lemma StreamDeliversExactly(codec: Codec, owned: set<string>, os: seq<Occurrence>, chunks: seq<string>, lost: string)
    requires codec.Sound() && Concat(chunks) + lost == Written(codec, owned, os)
    ensures var (frames, rest) := Frames(Concat(chunks));
            && HandledAll(codec, frames) <= Visible(owned, os)
            && (lost == "" ==> HandledAll(codec, frames) == Visible(owned, os) && rest == "")
  {
    var got := Concat(chunks);
    WrittenSplits(codec, owned, os);
    ChunkInvariance(got, lost);
    var more := Frames(Frames(got).1 + lost).0;
    HandledAllSplits(codec, Frames(got).0, more);
    if lost == "" {
      assert got + lost == got;
    }
  }
}
