/**
 Server-sent events: the incremental frame splitter and the frame parser
 (apps/web/src/api/sse.ts). The format is the WHATWG HTML Living Standard, sections 9.2.5
 and 9.2.6.
 */
module Sse {
  import opened Common
  import opened Strings

  // ---------------------------------------------------------------- splitting

  predicate BoundaryAt(s: string, i: int) {
    0 <= i < |s| - 1 && s[i] == '\n' && s[i+1] == '\n'
  }

  /** `s.indexOf('\n\n')` */
  function IndexOfBoundary(s: string): (r: int)
    ensures r == -1 ==> forall i :: !BoundaryAt(s, i)
    ensures r != -1 ==> BoundaryAt(s, r) && forall i :: i < r ==> !BoundaryAt(s, i)
  {
    if |s| < 2 then -1
    else if s[0] == '\n' && s[1] == '\n' then 0
    else
      var r := IndexOfBoundary(s[1..]);
      assert forall i :: i > 0 ==> BoundaryAt(s, i) == BoundaryAt(s[1..], i - 1);
      if r == -1 then -1 else r + 1
  }

  /** The complete frames of a buffer and what is left over. */
  function Frames(buffer: string): (seq<string>, string)
    decreases |buffer|
  {
    var b := IndexOfBoundary(buffer);
    if b == -1 then ([], buffer)
    else
      var (frames, rest) := Frames(buffer[b+2..]);
      ([buffer[..b]] + frames, rest)
  }

  method SplitFrames(buffer: string) returns (frames: seq<string>, rest: string)
    ensures (frames, rest) == Frames(buffer)
  {
    frames := [];
    rest := buffer;
    var boundary := IndexOfBoundary(rest);
    assert frames + Frames(rest).0 == Frames(rest).0;
    while boundary != -1
      invariant boundary == IndexOfBoundary(rest)
      invariant Frames(buffer).0 == frames + Frames(rest).0 && Frames(buffer).1 == Frames(rest).1
      decreases |rest|
    {
      var tail := rest[boundary + 2..];
      assert frames + ([rest[..boundary]] + Frames(tail).0) == (frames + [rest[..boundary]]) + Frames(tail).0;
      frames := frames + [rest[..boundary]];
      rest := rest[boundary + 2..];
      boundary := IndexOfBoundary(rest);
    }
    assert frames + [] == frames;
  }

  /** Frames written out, each followed by the separator. */
  function Framed(frames: seq<string>): string {
    if frames == [] then [] else frames[0] + "\n\n" + Framed(frames[1..])
  }

  ghost predicate NoBoundary(s: string) {
    forall i :: !BoundaryAt(s, i)
  }

  /** What a split promises: nothing lost, and every separator found at the earliest place. */
  ghost predicate IsSplit(frames: seq<string>, rest: string, buffer: string) {
    && buffer == Framed(frames) + rest
    && (forall i :: 0 <= i < |frames| ==> NoBoundary(frames[i] + "\n"))
    && NoBoundary(rest)
  }

  lemma BoundaryOfFramed(f: string, s: string)
    requires NoBoundary(f + "\n")
    ensures IndexOfBoundary(f + "\n\n" + s) == |f|
  {
    var b := f + "\n\n" + s;
    assert BoundaryAt(b, |f|);
    forall i | i < |f| ensures !BoundaryAt(b, i) {
      assert BoundaryAt(b, i) ==> BoundaryAt(f + "\n", i);
    }
    var r := IndexOfBoundary(b);
    assert !(r < |f|) && !(|f| < r);
  }

  /** A frame at the front of the buffer comes off whole. */
  lemma FramesPeels(f: string, s: string)
    requires NoBoundary(f + "\n")
    ensures Frames(f + "\n\n" + s) == ([f] + Frames(s).0, Frames(s).1)
  {
    var b := f + "\n\n" + s;
    BoundaryOfFramed(f, s);
    assert b[..|f|] == f && b[|f| + 2..] == s;
  }

  lemma {:induction false} FramesAreASplit(buffer: string)
    ensures IsSplit(Frames(buffer).0, Frames(buffer).1, buffer)
    decreases |buffer|
  {
    if IndexOfBoundary(buffer) != -1 {
      var f, tail := FrontFrame(buffer);
      FramesAreASplit(tail);
      SplitGrows(f, Frames(tail).0, Frames(tail).1, tail);
    }
  }

  lemma SplitGrows(f: string, frames: seq<string>, rest: string, tail: string)
    requires IsSplit(frames, rest, tail) && NoBoundary(f + "\n")
    ensures IsSplit([f] + frames, rest, f + "\n\n" + tail)
  {
    assert ([f] + frames)[1..] == frames;
    assert f + "\n\n" + tail == Framed([f] + frames) + rest;
  }

  lemma SplitTail(frames: seq<string>, rest: string, buffer: string) returns (tail: string)
    requires IsSplit(frames, rest, buffer) && frames != []
    ensures buffer == frames[0] + "\n\n" + tail && NoBoundary(frames[0] + "\n")
    ensures IsSplit(frames[1..], rest, tail) && [frames[0]] + frames[1..] == frames
  {
    tail := Framed(frames[1..]) + rest;
    assert forall i :: 0 <= i < |frames[1..]| ==> frames[1..][i] == frames[i + 1];
  }

  /** The promise has one solution: it says exactly what `splitFrames` returns. */
  lemma {:induction false} SplitIsUnique(frames: seq<string>, rest: string, buffer: string)
    ensures IsSplit(frames, rest, buffer) <==> Frames(buffer) == (frames, rest)
    decreases |frames|
  {
    FramesAreASplit(buffer);
    if IsSplit(frames, rest, buffer) {
      if frames == [] {
        assert buffer == rest;
      } else {
        var tail := SplitTail(frames, rest, buffer);
        FramesPeels(frames[0], tail);
        SplitIsUnique(frames[1..], rest, tail);
      }
    }
  }

  /** Whole frames come back as they were written. */
  lemma FramedSplits(frames: seq<string>)
    requires forall i :: 0 <= i < |frames| ==> NoBoundary(frames[i] + "\n")
    ensures Frames(Framed(frames)) == (frames, "")
  {
    assert Framed(frames) + "" == Framed(frames);
    SplitIsUnique(frames, "", Framed(frames));
  }

  lemma FirstFrameClosed(a: string)
    requires IndexOfBoundary(a) != -1
    ensures var i := IndexOfBoundary(a); 0 <= i && i + 2 <= |a| && NoBoundary(a[..i] + "\n")
  {
    var i := IndexOfBoundary(a);
    assert BoundaryAt(a, i);
    forall k ensures !BoundaryAt(a[..i] + "\n", k) {
      assert BoundaryAt(a[..i] + "\n", k) ==> BoundaryAt(a, k) && k < i;
    }
  }

  /** The buffer up to its first separator, and what follows it. */
  lemma FrontFrame(a: string) returns (f: string, tail: string)
    requires IndexOfBoundary(a) != -1
    ensures a == f + "\n\n" + tail && NoBoundary(f + "\n")
    ensures Frames(a) == ([f] + Frames(tail).0, Frames(tail).1)
  {
    var i := IndexOfBoundary(a);
    FirstFrameClosed(a);
    f, tail := a[..i], a[i+2..];
    assert a[i] == '\n' && a[i+1] == '\n';
  }

  /** What a buffer yields when it follows the unfinished `rest` of an earlier one. */
  function Continued(frames: seq<string>, rest: string, b: string): (seq<string>, string) {
    (frames + Frames(rest + b).0, Frames(rest + b).1)
  }

  lemma ContinuedPrepends(f: string, frames: seq<string>, rest: string, b: string)
    ensures Continued([f] + frames, rest, b) == ([f] + Continued(frames, rest, b).0, Continued(frames, rest, b).1)
  {
    assert ([f] + frames) + Frames(rest + b).0 == [f] + (frames + Frames(rest + b).0);
  }

  lemma ContinuedFront(f: string, tail: string, b: string)
    requires NoBoundary(f + "\n")
    requires Frames(tail + b) == Continued(Frames(tail).0, Frames(tail).1, b)
    ensures Frames(f + "\n\n" + tail + b) == Continued([f] + Frames(tail).0, Frames(tail).1, b)
  {
    FramesPeels(f, tail + b);
    assert f + "\n\n" + tail + b == f + "\n\n" + (tail + b);
    ContinuedPrepends(f, Frames(tail).0, Frames(tail).1, b);
  }

  lemma ContinuedNothing(a: string, b: string)
    ensures Continued([], a, b) == Frames(a + b)
  {
    assert [] + Frames(a + b).0 == Frames(a + b).0;
  }

  /** Cutting the input anywhere changes nothing: split the front, carry its rest, split on. */
  lemma {:induction false} ChunkInvariance(a: string, b: string)
    ensures Frames(a + b) == Continued(Frames(a).0, Frames(a).1, b)
    decreases |a|
  {
    if IndexOfBoundary(a) == -1 {
      ContinuedNothing(a, b);
    } else {
      var f, tail := FrontFrame(a);
      ChunkInvariance(tail, b);
      ContinuedFront(f, tail, b);
    }
  }

  // ---------------------------------------------------------------- parsing one frame

  datatype SseFrame = SseFrame(event: Option<string>, data: string)

  function StripCr(line: string): string {
    if HasSuffix(line, "\r") then line[..|line| - 1] else line
  }

  /** `line.indexOf(':')` */
  function IndexOfColon(s: string): (r: int)
    ensures -1 <= r < |s|
    ensures r == -1 ==> ':' !in s
    ensures r != -1 ==> s[r] == ':' && ':' !in s[..r]
  {
    if s == [] then -1
    else if s[0] == ':' then 0
    else
      var r := IndexOfColon(s[1..]);
      if r == -1 then -1 else (assert s[..r+1] == [s[0]] + s[1..][..r]; r + 1)
  }

  function FieldOf(line: string): string {
    var colon := IndexOfColon(line);
    if colon == -1 then line else line[..colon]
  }

  function ValueOf(line: string): string {
    var colon := IndexOfColon(line);
    var value := if colon == -1 then "" else line[colon + 1..];
    if HasPrefix(value, " ") then value[1..] else value
  }

  predicate IsComment(line: string) {
    line == "" || HasPrefix(line, ":")
  }

  /** The value a raw line gives to a field, if it names that field. */
  function Gives(rawLine: string, field: string): Option<string> {
    var line := StripCr(rawLine);
    if !IsComment(line) && FieldOf(line) == field then Some(ValueOf(line)) else None
  }

  function DataOf(lines: seq<string>): seq<string> {
    if lines == [] then []
    else
      var d := Gives(lines[0], "data");
      (if d.Some? then [d.value] else []) + DataOf(lines[1..])
  }

  /** The last event name set, starting from `event`. */
  function EventOf(lines: seq<string>, event: Option<string>): Option<string> {
    if lines == [] then event
    else
      var e := Gives(lines[0], "event");
      EventOf(lines[1..], if e.Some? then e else event)
  }

  function Parsed(frame: string): Option<SseFrame> {
    var lines := Split(frame, '\n');
    if DataOf(lines) == [] then None
    else Some(SseFrame(EventOf(lines, None), Join(DataOf(lines), '\n')))
  }

  /** One line's share of the data and the event name. */
  lemma Unfold(lines: seq<string>, i: nat, event: Option<string>, data: seq<string>)
    requires i < |lines|
    ensures var d, e := Gives(lines[i], "data"), Gives(lines[i], "event");
            && data + DataOf(lines[i..]) == (if d.Some? then data + [d.value] else data) + DataOf(lines[i+1..])
            && EventOf(lines[i..], event) == EventOf(lines[i+1..], if e.Some? then e else event)
  {
    assert lines[i..][1..] == lines[i+1..];
  }

  method ParseFrame(frame: string) returns (parsed: Option<SseFrame>)
    ensures parsed == Parsed(frame)
  {
    var event: Option<string> := None;
    var data: seq<string> := [];
    var lines := Split(frame, '\n');
    var i := 0;
    assert lines[0..] == lines && [] + DataOf(lines) == DataOf(lines);
    while i < |lines|
      invariant 0 <= i <= |lines|
      invariant DataOf(lines) == data + DataOf(lines[i..])
      invariant EventOf(lines, None) == EventOf(lines[i..], event)
    {
      var rawLine := lines[i];
      Unfold(lines, i, event, data);
      i := i + 1;
      var line := if HasSuffix(rawLine, "\r") then rawLine[..|rawLine| - 1] else rawLine;
      assert line == StripCr(rawLine);
      if line == "" || HasPrefix(line, ":") {
        continue;
      }
      var colon := IndexOfColon(line);
      var field := if colon == -1 then line else line[..colon];
      var value := if colon == -1 then "" else line[colon + 1..];
      if HasPrefix(value, " ") {
        value := value[1..];
      }
      assert field == FieldOf(line) && value == ValueOf(line);
      if field == "event" {
        event := Some(value);
      } else if field == "data" {
        data := data + [value];
      }
    }
    assert lines[i..] == [] && data + [] == data;
    parsed := if |data| > 0 then Some(SseFrame(event, Join(data, '\n'))) else None;
  }

  /** The bytes the server writes for one sync event, without the separator. */
  function SyncFrame(payload: string): string {
    "event: sync\ndata: " + payload
  }

  function WithCr(lines: seq<string>): seq<string> {
    if lines == [] then [] else [lines[0] + "\r"] + WithCr(lines[1..])
  }

  lemma CrLine(line: string, field: string)
    requires !HasSuffix(line, "\r")
    ensures Gives(line + "\r", field) == Gives(line, field)
  {
    assert (line + "\r")[|line|..] == "\r" && (line + "\r")[..|line|] == line;
  }

  lemma {:induction false} CrLines(lines: seq<string>, event: Option<string>)
    requires forall i :: 0 <= i < |lines| ==> !HasSuffix(lines[i], "\r")
    ensures DataOf(WithCr(lines)) == DataOf(lines) && EventOf(WithCr(lines), event) == EventOf(lines, event)
    decreases |lines|
  {
    if lines != [] {
      CrLine(lines[0], "data");
      CrLine(lines[0], "event");
      assert WithCr(lines)[0] == lines[0] + "\r" && WithCr(lines)[1..] == WithCr(lines[1..]);
      var e := Gives(lines[0], "event");
      CrLines(lines[1..], if e.Some? then e else event);
    }
  }

  lemma {:induction false} CrHasNoNewline(lines: seq<string>)
    requires forall i :: 0 <= i < |lines| ==> '\n' !in lines[i]
    ensures |WithCr(lines)| == |lines| && forall i :: 0 <= i < |lines| ==> '\n' !in WithCr(lines)[i]
    decreases |lines|
  {
    if lines != [] {
      CrHasNoNewline(lines[1..]);
    }
  }

  /** A proxy that turns the line endings of a frame into CRLF does not change what it says. */
  lemma CrlfIsTolerated(lines: seq<string>)
    requires lines != [] && forall i :: 0 <= i < |lines| ==> '\n' !in lines[i] && !HasSuffix(lines[i], "\r")
    ensures Parsed(Join(WithCr(lines), '\n')) == Parsed(Join(lines, '\n'))
  {
    CrLines(lines, None);
    CrHasNoNewline(lines);
    SplitUndoesJoin(lines, '\n');
    SplitUndoesJoin(WithCr(lines), '\n');
  }

  // ---------------------------------------------------------------- any frame a writer composes

  /** The lines of section 9.2.5: a field with its value, a field without one, a comment. */
  datatype Line = Field(name: string, spaced: bool, value: string) | Bare(name: string) | Comment(text: string)

  /** No line breaks; a name is free of colons; the space before a value is there if the value needs it. */
  predicate Clean(l: Line) {
    match l
    case Field(name, spaced, value) =>
      && name != "" && ':' !in name && '\n' !in name && '\n' !in value && !HasSuffix(value, "\r")
      && (HasPrefix(value, " ") ==> spaced)
    case Bare(name) => name != "" && ':' !in name && '\n' !in name && !HasSuffix(name, "\r")
    case Comment(text) => '\n' !in text
  }

  function Text(l: Line): string {
    match l
    case Field(name, spaced, value) => name + ":" + (if spaced then " " else "") + value
    case Bare(name) => name
    case Comment(text) => ":" + text
  }

  function Texts(ls: seq<Line>): seq<string> {
    if ls == [] then [] else [Text(ls[0])] + Texts(ls[1..])
  }

  /** What a line says of a field: its value, empty if it has none. */
  function Says(l: Line, field: string): Option<string> {
    match l
    case Field(name, _, value) => if name == field then Some(value) else None
    case Bare(name) => if name == field then Some("") else None
    case Comment(_) => None
  }

  /** Every value given to `data`, in order. */
  function SaidData(ls: seq<Line>): seq<string> {
    if ls == [] then []
    else (if Says(ls[0], "data").Some? then [Says(ls[0], "data").value] else []) + SaidData(ls[1..])
  }

  /** The last value given to `event`, if any. */
  function SaidEvent(ls: seq<Line>): Option<string> {
    if ls == [] then None
    else if Says(ls[|ls| - 1], "event").Some? then Says(ls[|ls| - 1], "event")
    else SaidEvent(ls[..|ls| - 1])
  }

  lemma ColonAfterName(name: string, rest: string)
    requires ':' !in name
    ensures IndexOfColon(name + ":" + rest) == |name|
  {
    var line := name + ":" + rest;
    assert line[|name|] == ':' && line[..|name|] == name;
    assert forall i :: 0 <= i < |name| ==> line[i] == name[i];
    var r := IndexOfColon(line);
    assert r != -1;
    forall k | 0 <= k < r ensures line[k] != ':' {
      assert line[..r][k] == line[k];
    }
  }

  /** A line that ends in no carriage return is taken apart at its first colon. */
  lemma TakenApart(name: string, rest: string)
    requires name != "" && ':' !in name && !HasSuffix(rest, "\r")
    ensures var line := name + ":" + rest;
            && StripCr(line) == line && !IsComment(line) && FieldOf(line) == name
            && ValueOf(line) == if HasPrefix(rest, " ") then rest[1..] else rest
  {
    var line := name + ":" + rest;
    ColonAfterName(name, rest);
    assert line[0] == name[0] && line[..|name|] == name && line[|name| + 1..] == rest;
    assert line[|line| - 1] == if rest == "" then ':' else rest[|rest| - 1];
    assert rest != "" ==> rest[|rest| - 1..] == [rest[|rest| - 1]];
  }

  lemma GivesField(name: string, spaced: bool, value: string, field: string)
    requires Clean(Field(name, spaced, value))
    ensures Gives(Text(Field(name, spaced, value)), field) == if name == field then Some(value) else None
  {
    var rest := (if spaced then " " else "") + value;
    assert Text(Field(name, spaced, value)) == name + ":" + rest;
    if spaced {
      assert rest[|rest| - 1..] == if value == "" then " " else value[|value| - 1..];
      assert rest[..1] == " " && rest[1..] == value;
    } else {
      assert rest == value;
    }
    TakenApart(name, rest);
  }

  lemma GivesBare(name: string, field: string)
    requires Clean(Bare(name))
    ensures Gives(name, field) == if name == field then Some("") else None
  {
    assert IndexOfColon(name) == -1;
  }

  lemma GivesComment(text: string, field: string)
    ensures Gives(":" + text, field) == None
  {
    var line := StripCr(":" + text);
    if text == "" { assert ":" + text == ":"; }
    assert line != "" && line[0] == ':';
  }

  lemma GivesWhatItSays(l: Line, field: string)
    requires Clean(l)
    ensures Gives(Text(l), field) == Says(l, field)
  {
    match l
    case Field(name, spaced, value) => GivesField(name, spaced, value, field);
    case Bare(name) => GivesBare(name, field);
    case Comment(text) => GivesComment(text, field);
  }

  lemma {:induction false} SaidEventFrom(ls: seq<Line>)
    requires ls != []
    ensures SaidEvent(ls) == if SaidEvent(ls[1..]).Some? then SaidEvent(ls[1..]) else Says(ls[0], "event")
    decreases |ls|
  {
    if |ls| > 1 {
      assert ls[1..][|ls| - 2] == ls[|ls| - 1] && ls[1..][..|ls| - 2] == ls[..|ls| - 1][1..];
      SaidEventFrom(ls[..|ls| - 1]);
    }
  }

  lemma {:induction false} LinesParse(ls: seq<Line>, event: Option<string>)
    requires forall l :: l in ls ==> Clean(l)
    ensures DataOf(Texts(ls)) == SaidData(ls)
    ensures EventOf(Texts(ls), event) == if SaidEvent(ls).Some? then SaidEvent(ls) else event
    ensures |Texts(ls)| == |ls|
    decreases |ls|
  {
    if ls != [] {
      GivesWhatItSays(ls[0], "data");
      GivesWhatItSays(ls[0], "event");
      SaidEventFrom(ls);
      assert Texts(ls)[1..] == Texts(ls[1..]);
      LinesParse(ls[1..], if Says(ls[0], "event").Some? then Says(ls[0], "event") else event);
    }
  }

  lemma TextHasNoBreak(l: Line)
    requires Clean(l)
    ensures '\n' !in Text(l)
  {
  }

  lemma {:induction false} TextsHaveNoBreaks(ls: seq<Line>)
    requires forall l :: l in ls ==> Clean(l)
    ensures |Texts(ls)| == |ls| && forall i :: 0 <= i < |ls| ==> '\n' !in Texts(ls)[i]
    decreases |ls|
  {
    if ls != [] {
      assert Clean(ls[0]);
      TextHasNoBreak(ls[0]);
      TextsHaveNoBreaks(ls[1..]);
    }
  }

  /**
   The parser reads any frame composed of such lines as section 9.2.6 has it: the `data` values
   joined by line breaks, the last `event` value, and no frame at all without `data`.
   */
  lemma ParsesWhatLinesSay(ls: seq<Line>)
    requires ls != [] && forall l :: l in ls ==> Clean(l)
    ensures Parsed(Join(Texts(ls), '\n'))
            == if SaidData(ls) == [] then None else Some(SseFrame(SaidEvent(ls), Join(SaidData(ls), '\n')))
  {
    TextsHaveNoBreaks(ls);
    LinesParse(ls, None);
    SplitUndoesJoin(Texts(ls), '\n');
  }

  // The length of a join, and why a payload with a line break cannot survive.

  function Weight(parts: seq<string>): nat {
    if parts == [] then 0 else |parts[0]| + 1 + Weight(parts[1..])
  }

  lemma {:induction false} JoinLength(parts: seq<string>, c: char)
    requires parts != []
    ensures |Join(parts, c)| == Weight(parts) - 1
    decreases |parts|
  {
    if |parts| == 1 {
    } else {
      JoinLength(parts[1..], c);
    }
  }

  lemma DataIsShorter(rawLine: string)
    ensures Gives(rawLine, "data").Some? ==> |Gives(rawLine, "data").value| < |rawLine|
  {
    var line := StripCr(rawLine);
    if Gives(rawLine, "data").Some? {
      assert |line| >= |FieldOf(line)|;
    }
  }

  lemma {:induction false} DataWeighsLess(lines: seq<string>)
    ensures Weight(DataOf(lines)) <= Weight(lines)
    ensures lines != [] ==> Weight(DataOf(lines)) < Weight(lines)
    decreases |lines|
  {
    if lines != [] {
      DataIsShorter(lines[0]);
      DataWeighsLess(lines[1..]);
      var d := Gives(lines[0], "data");
      if d.Some? {
        assert DataOf(lines)[1..] == DataOf(lines[1..]);
      } else {
        assert DataOf(lines) == DataOf(lines[1..]);
      }
    }
  }

  lemma DataLine(p: string)
    ensures Gives("data: " + p, "data") == Some(StripCr(p)) && Gives("data: " + p, "event").None?
  {
    var raw := "data: " + p;
    if HasSuffix(p, "\r") {
      assert raw[|raw| - 1..] == p[|p| - 1..];
    } else if p != "" {
      assert raw[|raw| - 1..] == p[|p| - 1..];
    } else {
      assert raw[|raw| - 1..] == " ";
    }
    assert StripCr(raw) == "data: " + StripCr(p);
    var line := StripCr(raw);
    assert line[4] == ':' && line[..4] == "data" && line[..1] == "d";
    FirstColon(line, 4);
    assert line[5..] == " " + StripCr(p);
    assert (" " + StripCr(p))[..1] == " " && (" " + StripCr(p))[1..] == StripCr(p);
  }

  lemma FirstColon(s: string, i: nat)
    requires i < |s| && s[i] == ':' && ':' !in s[..i]
    ensures IndexOfColon(s) == i
  {
    var r := IndexOfColon(s);
    forall k | 0 <= k < i ensures s[k] != ':' {
      assert s[..i][k] == s[k];
    }
    forall k | 0 <= k < r ensures s[k] != ':' {
      assert s[..r][k] == s[k];
    }
  }

  lemma EventLine()
    ensures Gives("event: sync", "event") == Some("sync") && Gives("event: sync", "data").None?
  {
    var line := "event: sync";
    assert line[|line| - 1..] == "c" && StripCr(line) == line;
    assert line[..5] == "event" && line[..1] == "e";
    FirstColon(line, 5);
    assert line[6..] == " sync" && " sync"[..1] == " " && " sync"[1..] == "sync";
  }

  lemma {:induction false} SplitAfter(p: string, s: string, c: char)
    requires c !in p
    ensures Split(p + s, c) == [p + Split(s, c)[0]] + Split(s, c)[1..]
    decreases |p|
  {
    if p == [] {
      var parts := Split(s, c);
      assert p + s == s && p + parts[0] == parts[0] && parts == [parts[0]] + parts[1..];
    } else {
      assert (p + s)[1..] == p[1..] + s;
      SplitAfter(p[1..], s, c);
      assert [p[0]] + (p[1..] + Split(s, c)[0]) == p + Split(s, c)[0];
    }
  }

  lemma TwoLines(payload: string)
    ensures SyncFrame(payload) == "event: sync" + ['\n'] + ("data: " + payload)
  {
    assert "event: sync\ndata: " == "event: sync" + ['\n'] + "data: ";
  }

  lemma LinesOfSyncFrame(payload: string)
    ensures var parts := Split(payload, '\n');
            Split(SyncFrame(payload), '\n') == ["event: sync", "data: " + parts[0]] + parts[1..]
  {
    var parts := Split(payload, '\n');
    TwoLines(payload);
    SplitPeels("event: sync", "data: " + payload, '\n');
    SplitAfter("data: ", payload, '\n');
  }

  lemma DataOfSyncFrame(payload: string)
    ensures var parts := Split(payload, '\n');
            var lines := Split(SyncFrame(payload), '\n');
            DataOf(lines) == [StripCr(parts[0])] + DataOf(parts[1..])
            && EventOf(lines, None) == EventOf(parts[1..], Some("sync"))
  {
    var parts := Split(payload, '\n');
    var lines := Split(SyncFrame(payload), '\n');
    LinesOfSyncFrame(payload);
    EventLine();
    DataLine(parts[0]);
    var tail := lines[1..];
    assert tail[1..] == parts[1..];
    assert DataOf(tail) == [StripCr(parts[0])] + DataOf(parts[1..]);
    assert DataOf(lines) == [] + DataOf(tail);
    assert EventOf(tail, Some("sync")) == EventOf(parts[1..], Some("sync"));
    assert EventOf(lines, None) == EventOf(tail, Some("sync"));
  }

  lemma LineBreaksAreLost(payload: string)
    requires '\n' in payload
    ensures |Join(DataOf(Split(SyncFrame(payload), '\n')), '\n')| < |payload|
  {
    var parts := Split(payload, '\n');
    JoinUndoesSplit(payload, '\n');
    DataOfSyncFrame(payload);
    var data := [StripCr(parts[0])] + DataOf(parts[1..]);
    JoinLength(parts, '\n');
    JoinLength(data, '\n');
    DataWeighsLess(parts[1..]);
    assert data[1..] == DataOf(parts[1..]);
  }

  /**
   The parser undoes the writer, exactly for payloads without a line break that do not end in
   a carriage return. JSON text is always such a payload (section 7 of RFC 8259).
   */
  lemma ParseUndoesWrite(payload: string)
    ensures Parsed(SyncFrame(payload)) == Some(SseFrame(Some("sync"), payload))
            <==> '\n' !in payload && !HasSuffix(payload, "\r")
  {
    DataOfSyncFrame(payload);
    if '\n' in payload {
      LineBreaksAreLost(payload);
    } else {
      SplitWhole(payload, '\n');
      assert Join([StripCr(payload)] + [], '\n') == StripCr(payload);
    }
  }
}
