/** Recording messages to a file, one JSON line each, and replaying such a file.
    JSON itself is a library's business: a codec stands for it here. A character
    stands for one byte of the file. */
module Replay {
  import opened Protocol

  const MAX_LINE_SIZE := 0x10_0000

  datatype Codec = Codec(encode: Msg -> Option<string>, decode: string -> Option<Msg>)

  /** A line the scanner hands back as it was written. */
  predicate SafeLine(line: string) {
    && line != [] && '\n' !in line && line[|line| - 1] != '\r'
    && |line| < MAX_LINE_SIZE
  }

  /** What the recorder relies on: an encoded message is a safe line that decodes to
      the message. */
  ghost predicate Faithful(c: Codec) {
    forall m :: c.encode(m).Some? ==>
      SafeLine(c.encode(m).value) && c.decode(c.encode(m).value) == Some(m)
  }

  // ----- Recording -----

  datatype RecordError = MarshalFailed | WriteFailed

  class EventRecorder {
    const codec: Codec
    /** The contents of the file, opened for appending. */
    var file: string

    constructor (codec: Codec, existing: string)
      ensures this.codec == codec && file == existing
    {
      this.codec := codec;
      file := existing;
    }

    /** Appends one line. `taken` is how many of its bytes the system will accept. */
    method Record(msg: Msg, taken: nat) returns (err: Option<RecordError>)
      modifies this
      ensures codec.encode(msg).None? ==> err == Some(MarshalFailed) && file == old(file)
      ensures codec.encode(msg).Some? ==>
        var data := codec.encode(msg).value + ['\n'];
        && (err.None? <==> |data| <= taken)
        && (err.None? ==> file == old(file) + data)
        && (err.Some? ==> err == Some(WriteFailed) && file == old(file) + data[..taken])
    {
      var line := codec.encode(msg);
      if line.None? {
        return Some(MarshalFailed);
      }
      var data := line.value + ['\n'];
      if taken < |data| {
        file := file + data[..taken];
        return Some(WriteFailed);
      }
      file := file + data;
      return None;
    }
  }

  // ----- The line scanner -----

  /** The lines a scanner delivers, and whether it gave up at one that is too long. */
  datatype Scanned = Scanned(lines: seq<string>, tooLong: bool)

  function LineEnd(content: string): (i: nat)
    ensures i <= |content|
    ensures '\n' !in content[..i]
    ensures i < |content| ==> content[i] == '\n'
  {
    if content == [] || content[0] == '\n' then 0
    else
      var i := LineEnd(content[1..]);
      assert content[..i + 1] == [content[0]] + content[1..][..i];
      i + 1
  }

  function DropCR(line: string): string {
    if line != [] && line[|line| - 1] == '\r' then line[..|line| - 1] else line
  }

  function ScanLines(content: string): Scanned
    decreases |content|
  {
    if content == [] then Scanned([], false)
    else
      var i := LineEnd(content);
      if i >= MAX_LINE_SIZE then Scanned([], true)
      else
        var rest := ScanLines(if i < |content| then content[i + 1..] else []);
        rest.(lines := [DropCR(content[..i])] + rest.lines)
  }

  function NonBlank(lines: seq<string>): seq<string> {
    if lines == [] then []
    else
      var line := lines[|lines| - 1];
      NonBlank(lines[..|lines| - 1]) + if line == [] then [] else [line]
  }

  // ----- Replaying -----

  datatype ReplayError =
    | OpenFailed
    | Cancelled
    | ParseFailed(line: nat)
    | HandlerFailed(line: nat)
    | ReadFailed

  /** Everything outside the player: when the context is cancelled, by line, and
      whether the handler accepts a message as its n-th. */
  datatype World = World(cancelled: nat -> bool, accepts: (nat, Msg) -> bool)

  /** What goes wrong at a line, if anything, when all earlier lines went well. */
  function Trouble(c: Codec, w: World, lines: seq<string>, j: nat): Option<ReplayError>
    requires j < |lines|
  {
    if w.cancelled(j + 1) then Some(Cancelled)
    else if lines[j] == [] then None
    else match c.decode(lines[j])
      case None => Some(ParseFailed(j + 1))
      case Some(m) =>
        if w.accepts(|NonBlank(lines[..j])|, m) then None else Some(HandlerFailed(j + 1))
  }

  ghost predicate FineUpTo(c: Codec, w: World, lines: seq<string>, n: nat)
    requires n <= |lines|
  {
    forall j: nat :: j < n ==> Trouble(c, w, lines, j).None?
  }

  /** The messages on these lines, in order. */
  ghost predicate Decodes(c: Codec, lines: seq<string>, ms: seq<Msg>) {
    |lines| == |ms| && forall k :: 0 <= k < |lines| ==> c.decode(lines[k]) == Some(ms[k])
  }

  lemma OneMoreLine(c: Codec, lines: seq<string>, n: nat, ms: seq<Msg>)
    requires n < |lines| && Decodes(c, NonBlank(lines[..n]), ms)
    ensures |NonBlank(lines[..n])| == |ms|
    ensures lines[n] == [] ==> Decodes(c, NonBlank(lines[..n + 1]), ms)
    ensures lines[n] != [] && c.decode(lines[n]).Some? ==>
      Decodes(c, NonBlank(lines[..n + 1]), ms + [c.decode(lines[n]).value])
  {
    assert lines[..n + 1][..n] == lines[..n];
    if lines[n] == [] {
      assert NonBlank(lines[..n + 1]) == NonBlank(lines[..n]);
    }
  }

  /** Why it stopped at line `upTo`, counted from 0, with `count` messages handled:
      the context was cancelled; or the line, which is not blank, does not parse; or the
      handler refused its message. Line numbers in errors count from 1. */
  ghost predicate Explains(c: Codec, w: World, lines: seq<string>, upTo: nat, count: nat, err: Option<ReplayError>)
    requires upTo < |lines|
  {
    var line := lines[upTo];
    match err
    case Some(Cancelled) => w.cancelled(upTo + 1)
    case Some(ParseFailed(n)) =>
      n == upTo + 1 && !w.cancelled(n) && line != [] && c.decode(line) == None
    case Some(HandlerFailed(n)) =>
      n == upTo + 1 && !w.cancelled(n) && line != [] && c.decode(line).Some? && !w.accepts(count, c.decode(line).value)
    case _ => false
  }

  /** All handled messages were accepted, each in its turn, and the context was not yet
      cancelled at any line up to the last of them. */
  ghost predicate WentWell(w: World, upTo: nat, handled: seq<Msg>) {
    && (forall k: nat :: k < |handled| ==> w.accepts(k, handled[k]))
    && (forall n: nat :: 1 <= n <= upTo ==> !w.cancelled(n))
  }

  /** Opens the file and handles its messages in order, stopping at the first trouble.
      `handled` is what the handler accepted, and `count` their number. */
  method Replay(c: Codec, w: World, content: Option<string>)
    returns (count: nat, err: Option<ReplayError>, handled: seq<Msg>, ghost upTo: nat)
    ensures count == |handled|
    ensures content.None? ==> err == Some(OpenFailed) && handled == []
    ensures content.Some? ==>
      var scan := ScanLines(content.value);
      && upTo <= |scan.lines| && FineUpTo(c, w, scan.lines, upTo)
      && Decodes(c, NonBlank(scan.lines[..upTo]), handled)
      && WentWell(w, upTo, handled)
      && (err.None? <==> upTo == |scan.lines| && !scan.tooLong)
      && (upTo < |scan.lines| ==>
            err == Trouble(c, w, scan.lines, upTo) && Explains(c, w, scan.lines, upTo, count, err))
      && (upTo == |scan.lines| && scan.tooLong ==> err == Some(ReadFailed))
  {
    if content.None? {
      return 0, Some(OpenFailed), [], 0;
    }
    var scan := ScanLines(content.value);
    count, err, handled, upTo := ReplayLines(c, w, scan.lines);
    if err.None? && scan.tooLong {
      err := Some(ReadFailed);
    }
  }

  /** The loop over the lines the scanner delivers. */
  method ReplayLines(c: Codec, w: World, lines: seq<string>)
    returns (count: nat, err: Option<ReplayError>, handled: seq<Msg>, ghost upTo: nat)
    ensures count == |handled|
    ensures upTo <= |lines| && FineUpTo(c, w, lines, upTo)
    ensures Decodes(c, NonBlank(lines[..upTo]), handled)
    ensures WentWell(w, upTo, handled)
    ensures upTo == |lines| ==> err == None
    ensures upTo < |lines| ==> err == Trouble(c, w, lines, upTo) && Explains(c, w, lines, upTo, count, err)
  {
    count, handled, upTo, err := 0, [], 0, None;
    var lineNum := 0;
    while lineNum < |lines|
      invariant lineNum <= |lines| && upTo == lineNum && count == |handled| && err == None
      invariant FineUpTo(c, w, lines, lineNum)
      invariant Decodes(c, NonBlank(lines[..lineNum]), handled)
      invariant WentWell(w, lineNum, handled)
    {
      var line := lines[lineNum];
      OneMoreLine(c, lines, lineNum, handled);
      lineNum := lineNum + 1;
      if w.cancelled(lineNum) {
        err := Some(Cancelled);
        return;
      }
      if line == [] {
        upTo := lineNum;
        continue;
      }
      var msg := c.decode(line);
      if msg.None? {
        err := Some(ParseFailed(lineNum));
        return;
      }
      if !w.accepts(count, msg.value) {
        err := Some(HandlerFailed(lineNum));
        return;
      }
      count := count + 1;
      handled := handled + [msg.value];
      upTo := lineNum;
    }
  }

  // ----- Round trip -----

  /** The file that recording these lines leaves. */
  function FileOf(lines: seq<string>): string {
    if lines == [] then [] else lines[0] + ['\n'] + FileOf(lines[1..])
  }

  lemma {:induction false} LineEndOf(line: string, rest: string)
    requires '\n' !in line
    ensures LineEnd(line + ['\n'] + rest) == |line|
  {
    var content := line + ['\n'] + rest;
    if line != [] {
      assert content[0] == line[0] && line[0] in line;
      assert content[1..] == line[1..] + ['\n'] + rest;
      LineEndOf(line[1..], rest);
    }
  }

  lemma {:induction false} ScanOneLine(line: string, rest: string)
    requires '\n' !in line && |line| < MAX_LINE_SIZE
    ensures ScanLines(line + ['\n'] + rest) ==
      Scanned([DropCR(line)] + ScanLines(rest).lines, ScanLines(rest).tooLong)
  {
    var content := line + ['\n'] + rest;
    LineEndOf(line, rest);
    assert content[..|line|] == line && content[|line| + 1..] == rest;
  }

  lemma {:induction false} ScanPastFile(lines: seq<string>, tail: string)
    requires forall k :: 0 <= k < |lines| ==> SafeLine(lines[k])
    ensures ScanLines(FileOf(lines) + tail) == Scanned(lines + ScanLines(tail).lines, ScanLines(tail).tooLong)
  {
    if lines == [] {
      assert FileOf(lines) + tail == tail;
      assert lines + ScanLines(tail).lines == ScanLines(tail).lines;
    } else {
      FileOfCons(lines, tail);
      ScanOneLine(lines[0], FileOf(lines[1..]) + tail);
      ScanPastFile(lines[1..], tail);
      Cons(lines, ScanLines(tail).lines);
    }
  }

  lemma FileOfCons(lines: seq<string>, tail: string)
    requires lines != []
    ensures FileOf(lines) + tail == lines[0] + ['\n'] + (FileOf(lines[1..]) + tail)
  {
  }

  lemma Cons(lines: seq<string>, more: seq<string>)
    requires lines != []
    ensures [lines[0]] + (lines[1..] + more) == lines + more
  {
  }

  /** The scanner undoes the recorder's framing. */
  lemma {:induction false} ScanOfFile(lines: seq<string>)
    requires forall k :: 0 <= k < |lines| ==> SafeLine(lines[k])
    ensures ScanLines(FileOf(lines)) == Scanned(lines, false)
  {
    ScanPastFile(lines, []);
    assert FileOf(lines) + [] == FileOf(lines) && lines + [] == lines;
  }

  lemma {:induction false} ScanLastLine(line: string)
    requires line != [] && '\n' !in line && |line| < MAX_LINE_SIZE
    ensures ScanLines(line) == Scanned([DropCR(line)], false)
  {
    NoLineEnd(line);
    assert line[..|line|] == line;
    assert ScanLines([]).lines == [];
  }

  /** A write that stopped partway costs only its own message: the complete lines
      before it are delivered as they were, and the torn one after them. */
  lemma {:induction false} ScanOfTornFile(lines: seq<string>, torn: string)
    requires forall k :: 0 <= k < |lines| ==> SafeLine(lines[k])
    requires torn != [] && '\n' !in torn && |torn| < MAX_LINE_SIZE
    ensures ScanLines(FileOf(lines) + torn) == Scanned(lines + [DropCR(torn)], false)
  {
    ScanPastFile(lines, torn);
    ScanLastLine(torn);
  }

  /** A line ended by a carriage return and a line feed is delivered without either. */
  lemma {:induction false} ScanOfReturn(line: string, rest: string)
    requires '\n' !in line && |line| < 0xF_FFFF
    ensures ScanLines(line + ['\r', '\n'] + rest) ==
      Scanned([line] + ScanLines(rest).lines, ScanLines(rest).tooLong)
  {
    var ended := line + ['\r'];
    assert line + ['\r', '\n'] + rest == ended + ['\n'] + rest;
    ScanOneLine(ended, rest);
    assert ended[..|ended| - 1] == line;
  }

  /** Where the scanner gives up: at a line of 2^20 characters or more, and at none
      shorter. Lines before it are delivered, nothing after it is. */
  lemma {:induction false} ScanLimit(lines: seq<string>, line: string, rest: string)
    requires forall k :: 0 <= k < |lines| ==> SafeLine(lines[k])
    requires line != [] && '\n' !in line && line[|line| - 1] != '\r'
    ensures var scan := ScanLines(FileOf(lines) + (line + ['\n'] + rest));
      scan == if |line| >= 0x10_0000 then Scanned(lines, true)
              else Scanned(lines + ([line] + ScanLines(rest).lines), ScanLines(rest).tooLong)
  {
    ScanPastFile(lines, line + ['\n'] + rest);
    LineEndOf(line, rest);
    if |line| < 0x10_0000 {
      ScanOneLine(line, rest);
    } else {
      assert lines + [] == lines;
    }
  }

  /** Only blank lines are passed over, and what is between them keeps its order. */
  lemma {:induction false} BlanksPassed(a: seq<string>, line: string, b: seq<string>)
    ensures NonBlank(a + [line] + b) == NonBlank(a) + (if line == "" then [] else [line]) + NonBlank(b)
  {
    if b == [] {
      assert a + [line] + b == a + [line];
      assert (a + [line])[..|a|] == a;
    } else {
      var n := |b| - 1;
      BlanksPassed(a, line, b[..n]);
      assert (a + [line] + b)[..|a| + 1 + n] == a + [line] + b[..n];
    }
  }

  lemma NoLineEnd(line: string)
    requires '\n' !in line
    ensures LineEnd(line) == |line|
  {
    assert forall i :: 0 <= i < |line| ==> line[i] in line;
  }

  lemma {:induction false} NoneBlank(lines: seq<string>)
    requires forall k :: 0 <= k < |lines| ==> lines[k] != []
    ensures NonBlank(lines) == lines
  {
    if lines != [] {
      NoneBlank(lines[..|lines| - 1]);
    }
  }

  lemma {:induction false} FileOfSnoc(lines: seq<string>, line: string)
    ensures FileOf(lines + [line]) == FileOf(lines) + line + ['\n']
  {
    if lines == [] {
      assert [line][1..] == [];
    } else {
      FileOfSnoc(lines[1..], line);
      assert (lines + [line])[1..] == lines[1..] + [line];
    }
  }

  /** The lines of encodable messages. */
  function Encoded(c: Codec, ms: seq<Msg>): (lines: seq<string>)
    requires forall k :: 0 <= k < |ms| ==> c.encode(ms[k]).Some?
    ensures |lines| == |ms|
    ensures forall k :: 0 <= k < |ms| ==> lines[k] == c.encode(ms[k]).value
  {
    if ms == [] then [] else Encoded(c, ms[..|ms| - 1]) + [c.encode(ms[|ms| - 1]).value]
  }

  /** Records messages one after another, with room for all of them. */
  method RecordAll(recorder: EventRecorder, ms: seq<Msg>)
    requires Faithful(recorder.codec) && forall k :: 0 <= k < |ms| ==> recorder.codec.encode(ms[k]).Some?
    modifies recorder
    ensures recorder.file == old(recorder.file) + FileOf(Encoded(recorder.codec, ms))
  {
    ghost var before, lines := recorder.file, Encoded(recorder.codec, ms);
    assert before + FileOf(lines[..0]) == before;
    for i := 0 to |ms|
      invariant recorder.file == before + FileOf(lines[..i])
    {
      var e := recorder.Record(ms[i], MAX_LINE_SIZE);
      FileOfSnoc(lines[..i], lines[i]);
      assert lines[..i + 1] == lines[..i] + [lines[i]];
      assert recorder.file == before + (FileOf(lines[..i]) + lines[i] + ['\n']);
    }
    assert lines[..|ms|] == lines;
  }

  /** Records a sequence of messages into a fresh file and replays it to a handler
      that accepts everything: the handler gets exactly that sequence, in order. */
  method RecordThenReplay(c: Codec, ms: seq<Msg>) returns (handled: seq<Msg>, err: Option<ReplayError>)
    requires Faithful(c) && forall k :: 0 <= k < |ms| ==> c.encode(ms[k]).Some?
    ensures handled == ms && err == None
  {
    var recorder := new EventRecorder(c, []);
    RecordAll(recorder, ms);
    ghost var lines := Encoded(c, ms);
    assert recorder.file == FileOf(lines);
    ScanOfFile(lines);
    NoneBlank(lines);
    var count;
    ghost var upTo;
    var w := World(_ => false, (_, _) => true);
    count, err, handled, upTo := Replay(c, w, Some(recorder.file));
    assert forall j: nat :: j < |lines| ==> Trouble(c, w, lines, j).None?;
    assert lines[..upTo] == lines;
  }
}
