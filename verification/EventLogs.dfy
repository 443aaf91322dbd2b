/** The append-only JSON-lines log: one flushed line per event, and the replay that drops a torn
    tail. Serialization is a parameter: any newline-free dump with a left inverse. */
module EventLogs {
  import opened Wrappers

  datatype Codec<!E> = Codec(dump: E -> string, parse: string -> Option<E>)

  predicate NoNewline(s: string) {
    forall i :: 0 <= i < |s| ==> s[i] != '\n'
  }

  ghost predicate Faithful<E(!new)>(c: Codec<E>) {
    forall e :: NoNewline(c.dump(e)) && c.parse(c.dump(e)) == Some(e)
  }

  function Line<E>(c: Codec<E>, e: E): string {
    c.dump(e) + "\n"
  }

  /** The file after a run of successful appends. */
  function Encode<E>(c: Codec<E>, events: seq<E>): string {
    if events == [] then "" else Line(c, events[0]) + Encode(c, events[1..])
  }

  /** How many whole lines survive when the file is cut at byte `cut`. */
  function CompleteLines<E>(c: Codec<E>, events: seq<E>, cut: nat): (k: nat)
    ensures k <= |events|
  {
    if events == [] || cut < |Line(c, events[0])| then 0
    else 1 + CompleteLines(c, events[1..], cut - |Line(c, events[0])|)
  }

  function NewlineFrom(content: string, position: nat): (k: nat)
    requires position <= |content|
    ensures position <= k <= |content| && (k < |content| ==> content[k] == '\n')
    ensures forall i :: position <= i < k ==> content[i] != '\n'
    decreases |content| - position
  {
    if position == |content| || content[position] == '\n' then position else NewlineFrom(content, position + 1)
  }

  /** What a replay delivers, where the last accepted line ends, and how it stopped. */
  datatype Outcome = Clean | Torn | Corrupt
  datatype Scan<E> = Scan(events: seq<E>, goodOffset: nat, outcome: Outcome)

  /** The rule the scan follows from a line start: every terminated line must parse; an
      unterminated tail is torn. */
  function ScanFrom<E>(c: Codec<E>, content: string, position: nat): (r: Scan<E>)
    requires position <= |content|
    ensures position <= r.goodOffset <= |content|
    decreases |content| - position
  {
    if position == |content| then Scan([], position, Clean)
    else
      var newline := NewlineFrom(content, position);
      if newline == |content| then Scan([], position, Torn)
      else
        match c.parse(content[position..newline])
        case None => Scan([], position, Corrupt)
        case Some(e) =>
          var rest := ScanFrom(c, content, newline + 1);
          rest.(events := [e] + rest.events)
  }

  const APPEND_FAILED := Error("io", "failed to append to event log")

  /** A log file and the stream of appends to it. */
  class EventLog<!E(!new)> {
    const codec: Codec<E>
    var content: string
    /** The outcomes the stream will report for the coming writes; writes past its end succeed. */
    var stream: seq<bool>

    constructor (codec: Codec<E>, content: string, stream: seq<bool>)
      ensures this.codec == codec && this.content == content && this.stream == stream
    {
      this.codec, this.content, this.stream := codec, content, stream;
    }

    /** One whole line, or an error and no line. */
    method Append(e: E) returns (error: Option<Error>)
      modifies this
      ensures error == if old(stream) == [] || old(stream)[0] then None else Some(APPEND_FAILED)
      ensures content == old(content) + if error.None? then Line(codec, e) else ""
      ensures stream == if old(stream) == [] then [] else old(stream)[1..]
    {
      var good := stream == [] || stream[0];
      stream := if stream == [] then [] else stream[1..];
      if !good {
        return Some(APPEND_FAILED);
      }
      content := content + Line(codec, e);
      return None;
    }

    /** Feeds every terminated line to the sink in order, truncates a torn tail, fails on a
        terminated line that does not parse (after delivering the lines before it). */
    method Replay() returns (delivered: seq<E>, result: Result<bool>)
      modifies this`content
      ensures var scan := ScanFrom(codec, old(content), 0);
              && delivered == scan.events
              && (result.Err? <==> scan.outcome == Corrupt)
              && (result.Ok? ==> result.value == (scan.outcome == Torn))
              && content == if scan.outcome == Torn then old(content)[..scan.goodOffset] else old(content)
    {
      delivered := [];
      var position, goodOffset, tailTruncated := 0, 0, false;
      while position < |content|
        invariant content == old(content) && 0 <= goodOffset == position <= |content| && !tailTruncated
        invariant ScanFrom(codec, content, 0)
               == var rest := ScanFrom(codec, content, position); rest.(events := delivered + rest.events)
        decreases |content| - position
      {
        var newline := NewlineFrom(content, position);
        if newline == |content| {
          tailTruncated := true;
          break;
        }
        var event := codec.parse(content[position..newline]);
        if event.None? {
          return delivered, Err(Error("persistence", "corrupt event log"));
        }
        ghost var rest := ScanFrom(codec, content, newline + 1).events;
        assert delivered + ([event.value] + rest) == (delivered + [event.value]) + rest;
        delivered := delivered + [event.value];
        position := newline + 1;
        goodOffset := position;
      }
      if tailTruncated {
        content := content[..goodOffset];
      }
      return delivered, Ok(tailTruncated);
    }
  }

  // ---- recovery ----

  lemma {:induction false} EncodeAppend<E>(c: Codec<E>, events: seq<E>, more: seq<E>)
    ensures Encode(c, events + more) == Encode(c, events) + Encode(c, more)
  {
    if events == [] {
      assert events + more == more;
      assert "" + Encode(c, more) == Encode(c, more);
    } else {
      EncodeAppend(c, events[1..], more);
      assert (events + more)[1..] == events[1..] + more;
      assert (Line(c, events[0]) + Encode(c, events[1..])) + Encode(c, more)
          == Line(c, events[0]) + (Encode(c, events[1..]) + Encode(c, more));
    }
  }

  /** `CompleteLines` is the largest number of whole lines within the cut. */
  lemma {:induction false} CompleteLinesIsMaximal<E>(c: Codec<E>, events: seq<E>, cut: nat, k: nat)
    requires k <= |events|
    ensures k <= CompleteLines(c, events, cut) <==> |Encode(c, events[..k])| <= cut
  {
    if k > 0 {
      assert events[..k][1..] == events[1..][..k - 1];
      if cut >= |Line(c, events[0])| {
        CompleteLinesIsMaximal(c, events[1..], cut - |Line(c, events[0])|, k - 1);
      }
    }
  }

  /** What is left of the file from `position` is a cut of `text`. */
  predicate IsCutOf(content: string, position: nat, text: string) {
    && position <= |content| && |content| - position <= |text|
    && forall j :: position <= j < |content| ==> content[j] == text[j - position]
  }

  lemma {:induction false} FirstLine(content: string, position: nat, first: string, rest: string)
    requires NoNewline(first) && IsCutOf(content, position, first + "\n" + rest)
    ensures |content| - position <= |first| ==> NewlineFrom(content, position) == |content|
    ensures |content| - position > |first| ==>
              && NewlineFrom(content, position) == position + |first|
              && content[position..position + |first|] == first
              && IsCutOf(content, position + |first| + 1, rest)
  {
    var text := first + "\n" + rest;
    assert forall i :: 0 <= i < |first| ==> text[i] == first[i];
    assert text[|first|] == '\n';
    assert forall i :: |first| < i < |text| ==> text[i] == rest[i - |first| - 1];
    if |content| - position > |first| {
      assert content[position + |first|] == '\n';
    }
  }

  /** What a replay of the cut file from a line start has to find. */
  function Recovered<E>(c: Codec<E>, position: nat, events: seq<E>, length: nat): Scan<E>
    requires position <= length
  {
    var kept := events[..CompleteLines(c, events, length - position)];
    var goodOffset := position + |Encode(c, kept)|;
    Scan(kept, goodOffset, if goodOffset < length then Torn else Clean)
  }

  lemma {:induction false} RecoveredStep<E>(c: Codec<E>, position: nat, events: seq<E>, length: nat)
    requires position <= length && events != [] && |Line(c, events[0])| <= length - position
    ensures var rest := Recovered(c, position + |Line(c, events[0])|, events[1..], length);
            Recovered(c, position, events, length) == rest.(events := [events[0]] + rest.events)
  {
    var k := CompleteLines(c, events, length - position);
    var kept := events[..k];
    assert kept[1..] == events[1..][..k - 1];
    assert kept == [events[0]] + events[1..][..k - 1];
    assert |Encode(c, kept)| == |Line(c, events[0])| + |Encode(c, kept[1..])|;
  }

  lemma {:induction false} NoWholeLine<E>(c: Codec<E>, position: nat, events: seq<E>, length: nat)
    requires position <= length && (events == [] || |Line(c, events[0])| > length - position)
    ensures Recovered(c, position, events, length) == Scan([], position, if position < length then Torn else Clean)
  {
  }

  /** Scanning from a line start reads back the whole lines of a cut encoding, and only those. */
  lemma {:induction false} ScanOfCut<E(!new)>(c: Codec<E>, content: string, position: nat, events: seq<E>)
    requires Faithful(c) && IsCutOf(content, position, Encode(c, events))
    ensures ScanFrom(c, content, position) == Recovered(c, position, events, |content|)
    decreases |events|
  {
    hide NewlineFrom, Recovered;
    if events == [] || |Line(c, events[0])| > |content| - position {
      NoWholeLine(c, position, events, |content|);
    }
    if events != [] {
      var first := c.dump(events[0]);
      assert NoNewline(first) && c.parse(first) == Some(events[0]);
      FirstLine(content, position, first, Encode(c, events[1..]));
      if |content| - position > |first| {
        var next := position + |first| + 1;
        ScanOfCut(c, content, next, events[1..]);
        RecoveredStep(c, position, events, |content|);
        assert content[position..NewlineFrom(content, position)] == first;
      }
    }
  }

  /** Crash-prefix recovery: a log of successful appends, cut at any byte, replays exactly the
      events whose lines are whole; the truncated file is the log of those events, and replaying it
      again delivers the same events with no torn tail. */
  lemma {:induction false} CrashPrefixRecovery<E(!new)>(c: Codec<E>, events: seq<E>, cut: nat)
    requires Faithful(c) && cut <= |Encode(c, events)|
    ensures var kept := events[..CompleteLines(c, events, cut)];
            var file := Encode(c, events)[..cut];
            var scan := ScanFrom(c, file, 0);
            && scan.events == kept
            && scan.outcome == (if |Encode(c, kept)| < cut then Torn else Clean)
            && file[..scan.goodOffset] == Encode(c, kept)
            && ScanFrom(c, Encode(c, kept), 0) == Scan(kept, |Encode(c, kept)|, Clean)
  {
    var k := CompleteLines(c, events, cut);
    var kept := events[..k];
    ScanOfCut(c, Encode(c, events)[..cut], 0, events);
    CompleteLinesIsMaximal(c, events, cut, k);
    PrefixOfEncoding(c, events, k);
    ScanOfCut(c, Encode(c, kept), 0, kept);
    assert kept[..k] == kept;
    CompleteLinesIsMaximal(c, kept, |Encode(c, kept)|, k);
  }

  lemma {:induction false} PrefixOfEncoding<E>(c: Codec<E>, events: seq<E>, k: nat)
    requires k <= |events|
    ensures Encode(c, events[..k]) <= Encode(c, events)
  {
    assert events == events[..k] + events[k..];
    EncodeAppend(c, events[..k], events[k..]);
  }

  /** A cut that keeps a synced prefix of the log keeps its events. */
  lemma {:induction false} DurablePrefixSurvives<E(!new)>(c: Codec<E>, synced: seq<E>, events: seq<E>, cut: nat)
    requires synced <= events && |Encode(c, synced)| <= cut
    ensures |synced| <= CompleteLines(c, events, cut)
  {
    assert events[..|synced|] == synced;
    CompleteLinesIsMaximal(c, events, cut, |synced|);
  }

  lemma {:induction false} PrefixHasSameLine(content: string, length: nat, position: nat, newline: nat)
    requires position <= newline < length <= |content| && newline == NewlineFrom(content, position)
    ensures NewlineFrom(content[..length], position) == newline
    ensures content[..length][position..newline] == content[position..newline]
  {
  }

  /** For any file at all: once a replay has accepted it, replaying what it left delivers the same
      events and finds nothing torn. */
  lemma {:induction false} RescanIsClean<E>(c: Codec<E>, content: string, position: nat)
    requires position <= |content| && ScanFrom(c, content, position).outcome != Corrupt
    ensures var scan := ScanFrom(c, content, position);
            ScanFrom(c, content[..scan.goodOffset], position) == Scan(scan.events, scan.goodOffset, Clean)
    decreases |content| - position
  {
    hide NewlineFrom;
    var scan := ScanFrom(c, content, position);
    if position < |content| {
      var newline := NewlineFrom(content, position);
      if newline < |content| {
        RescanIsClean(c, content, newline + 1);
        assert newline < scan.goodOffset;
        PrefixHasSameLine(content, scan.goodOffset, position, newline);
      }
    }
  }

  lemma {:induction false} CleanScansWhole<E>(c: Codec<E>, content: string, position: nat)
    requires position <= |content|
    ensures ScanFrom(c, content, position).outcome == Clean ==> ScanFrom(c, content, position).goodOffset == |content|
    decreases |content| - position
  {
    if position < |content| && NewlineFrom(content, position) < |content| {
      CleanScansWhole(c, content, NewlineFrom(content, position) + 1);
    }
  }

  /** The file a replay leaves scans clean and whole, and holds the events delivered. */
  lemma {:induction false} AcceptedFileIsClean<E>(c: Codec<E>, content: string)
    ensures var scan := ScanFrom(c, content, 0);
            var left := if scan.outcome == Torn then content[..scan.goodOffset] else content;
            scan.outcome != Corrupt ==> ScanFrom(c, left, 0) == Scan(scan.events, |left|, Clean)
  {
    hide ScanFrom;
    var scan := ScanFrom(c, content, 0);
    if scan.outcome != Corrupt {
      RescanIsClean(c, content, 0);
      CleanScansWhole(c, content, 0);
      assert content[..|content|] == content;
    }
  }
}
