/**
 The client's event stream: network chunks are split into complete lines, lines into events.
 Text is modelled by its UTF-8 bytes.
 */
module EventStream {
  import opened Wrappers

  type Byte = x: int | 0 <= x < 256

  type Line = seq<Byte>

  const LF: Byte := 10
  const CR: Byte := 13
  const SPACE: Byte := 32

  // "data:"
  const DATA: Line := [100, 97, 116, 97, 58]

  // --- Lines ---

  // The position of the first newline, or the length.
  function Find(s: seq<Byte>): (n: nat)
    ensures n <= |s|
  {
    if s == [] || s[0] == LF then 0 else 1 + Find(s[1..])
  }

  // The complete lines, each with its newline.
  function Lines(s: seq<Byte>): seq<Line>
    decreases |s|
  {
    var n := Find(s);
    if n < |s| then [s[..n + 1]] + Lines(s[n + 1..]) else []
  }

  // What follows the last newline.
  function Rest(s: seq<Byte>): seq<Byte>
    decreases |s|
  {
    var n := Find(s);
    if n < |s| then Rest(s[n + 1..]) else s
  }

  function Flat(parts: seq<seq<Byte>>): seq<Byte> {
    if parts == [] then [] else parts[0] + Flat(parts[1..])
  }

  lemma {:induction false} FlatAppends(a: seq<seq<Byte>>, b: seq<seq<Byte>>)
    ensures Flat(a + b) == Flat(a) + Flat(b)
  {
    if a == [] {
      assert a + b == b;
    } else {
      assert (a + b)[1..] == a[1..] + b;
      FlatAppends(a[1..], b);
    }
  }

  lemma {:induction false} FindExactly(s: seq<Byte>)
    ensures Find(s) < |s| ==> s[Find(s)] == LF
    ensures forall i :: 0 <= i < Find(s) ==> s[i] != LF
    ensures Find(s) == |s| <==> LF !in s
  {
    if s != [] && s[0] != LF {
      FindExactly(s[1..]);
      assert s == [s[0]] + s[1..];
    }
  }

  lemma {:induction false} FindAppends(a: seq<Byte>, b: seq<Byte>)
    ensures Find(a + b) == if Find(a) < |a| then Find(a) else |a| + Find(b)
  {
    if a == [] {
      assert a + b == b;
    } else if a[0] != LF {
      assert (a + b)[1..] == a[1..] + b;
      FindAppends(a[1..], b);
    }
  }

  lemma Assoc<T>(a: seq<T>, b: seq<T>, c: seq<T>)
    ensures a + b + c == a + (b + c)
  {
  }

  lemma CutAt<T>(s: seq<T>, n: nat)
    requires n <= |s|
    ensures s == s[..n] + s[n..]
  {
  }

  lemma FlatFirst(line: Line, rest: seq<Line>)
    ensures Flat([line] + rest) == line + Flat(rest)
  {
    assert ([line] + rest)[1..] == rest;
  }

  // The stream cut after its first line.
  lemma CutFirst(s: seq<Byte>)
    requires Find(s) < |s|
    ensures var (line, more) := (s[..Find(s) + 1], s[Find(s) + 1..]);
            && s == line + more && Lines(s) == [line] + Lines(more) && Rest(s) == Rest(more)
            && Flat(Lines(s)) == line + Flat(Lines(more))
  {
    CutAt(s, Find(s) + 1);
    FlatFirst(s[..Find(s) + 1], Lines(s[Find(s) + 1..]));
  }

  /** The lines and the rest are the stream, and the rest holds no newline. */
  lemma {:induction false} LinesConserve(s: seq<Byte>)
    ensures Flat(Lines(s)) + Rest(s) == s && LF !in Rest(s)
    decreases |s|
  {
    FindExactly(s);
    if Find(s) < |s| {
      var line, more := s[..Find(s) + 1], s[Find(s) + 1..];
      CutFirst(s);
      LinesConserve(more);
      Assoc(line, Flat(Lines(more)), Rest(more));
    }
  }

  lemma FirstLine(line: seq<Byte>, more: seq<Byte>)
    requires line != [] && Find(line) == |line| - 1
    ensures Lines(line + more) == [line] + Lines(more) && Rest(line + more) == Rest(more)
  {
    FindAppends(line, more);
    assert (line + more)[..|line|] == line && (line + more)[|line|..] == more;
  }

  lemma LineOf(s: seq<Byte>)
    requires Find(s) < |s|
    ensures Find(s[..Find(s) + 1]) == Find(s)
  {
    CutFirst(s);
    FindAppends(s[..Find(s) + 1], s[Find(s) + 1..]);
  }

  /** Cutting a stream anywhere and carrying the rest over gives the same lines and rest. */
  lemma {:induction false} LinesAppend(a: seq<Byte>, b: seq<Byte>)
    ensures Lines(a + b) == Lines(a) + Lines(Rest(a) + b)
    ensures Rest(a + b) == Rest(Rest(a) + b)
    decreases |a|
  {
    if Find(a) < |a| {
      var line, more := a[..Find(a) + 1], a[Find(a) + 1..];
      CutFirst(a);
      LineOf(a);
      LinesAppend(more, b);
      Assoc(line, more, b);
      FirstLine(line, more + b);
      Assoc([line], Lines(more), Lines(Rest(more) + b));
    } else {
      assert [] + Lines(a + b) == Lines(a + b);
    }
  }

  // --- UTF-8, by the table of well-formed byte sequences ---

  predicate Tail(s: seq<Byte>, from: nat, to: nat) {
    to <= |s| && forall i :: from <= i < to ==> 0x80 <= s[i] <= 0xBF
  }

  // The length of a well-formed first character, or zero.
  function CharLength(s: seq<Byte>): (n: nat)
    requires s != []
    ensures n <= |s|
  {
    var b := s[0];
    if b <= 0x7F then 1
    else if 0xC2 <= b <= 0xDF && Tail(s, 1, 2) then 2
    else if 0xE0 <= b <= 0xEF && Tail(s, 1, 3) && (b == 0xE0 ==> s[1] >= 0xA0) && (b == 0xED ==> s[1] <= 0x9F) then 3
    else if 0xF0 <= b <= 0xF4 && Tail(s, 1, 4) && (b == 0xF0 ==> s[1] >= 0x90) && (b == 0xF4 ==> s[1] <= 0x8F) then 4
    else 0
  }

  predicate ValidUtf8(s: seq<Byte>)
    decreases |s|
  {
    s == [] || (CharLength(s) > 0 && ValidUtf8(s[CharLength(s)..]))
  }

  predicate AllValid(lines: seq<Line>) {
    forall i :: 0 <= i < |lines| ==> ValidUtf8(lines[i])
  }

  lemma BadLine(before: seq<Line>, line: Line, after: seq<Line>)
    requires !ValidUtf8(line)
    ensures !AllValid(before + ([line] + after))
  {
    assert (before + ([line] + after))[|before|] == line;
  }

  lemma GoodLine(before: seq<Line>, line: Line, after: seq<Line>)
    requires ValidUtf8(line) && AllValid(before)
    ensures AllValid(before + [line])
    ensures before + ([line] + after) == before + [line] + after
  {
  }

  // --- Events ---

  // The unfinished line, the data lines of the event so far, and what has been printed.
  datatype Reader = Reader(pending: seq<Byte>, data: seq<Line>, printed: seq<Line>)

  const START := Reader([], [], [])

  function Trimmed(line: Line): Line {
    if line != [] && (line[|line| - 1] == LF || line[|line| - 1] == CR) then Trimmed(line[..|line| - 1]) else line
  }

  function Join(data: seq<Line>): Line {
    if data == [] then [] else if |data| == 1 then data[0] else data[0] + [LF] + Join(data[1..])
  }

  function Flush(r: Reader): Reader {
    if r.data == [] then r else r.(data := [], printed := r.printed + [Join(r.data)])
  }

  function StripSpace(line: Line): Line {
    if line != [] && line[0] == SPACE then line[1..] else line
  }

  function TakeLine(r: Reader, raw: Line): Reader {
    var line := Trimmed(raw);
    if line == [] then Flush(r)
    else if DATA <= line then r.(data := r.data + [StripSpace(line[|DATA|..])])
    else r
  }

  function TakeLines(r: Reader, lines: seq<Line>): Reader
    decreases |lines|
  {
    if lines == [] then r else TakeLines(TakeLine(r, lines[0]), lines[1..])
  }

  // The server closed the stream, or the transport failed after the last chunk.
  datatype Ending = Closed | Failed

  // The stream ended and the last event was printed, or reading stopped at a transport failure
  // or a line that was not text.
  datatype Reading = Ended(printed: seq<Line>) | Broken(printed: seq<Line>)

  // One chunk: every complete line must be text before any of them is looked at.
  function TakeChunk(r: Reader, chunk: seq<Byte>): Option<Reader> {
    var text := r.pending + chunk;
    if AllValid(Lines(text)) then Some(TakeLines(r, Lines(text)).(pending := Rest(text))) else None
  }

  function Finish(r: Reader, ending: Ending): Reading {
    if ending.Failed? then Broken(r.printed) else Ended(Flush(r).printed)
  }

  function Read(r: Reader, chunks: seq<seq<Byte>>, ending: Ending): Reading
    decreases |chunks|
  {
    if chunks == [] then Finish(r, ending)
    else
      var next := TakeChunk(r, chunks[0]);
      if next.None? then Broken(r.printed) else Read(next.value, chunks[1..], ending)
  }

  // --- The loops ---

  class Connection {
    var pending: seq<Byte>
    var data: seq<Line>
    var printed: seq<Line>

    constructor ()
      ensures State() == START
    {
      pending, data, printed := [], [], [];
    }

    function State(): Reader
      reads this
    {
      Reader(pending, data, printed)
    }

    // The position of the first newline of the buffer, if there is one.
    method Position() returns (n: Option<nat>)
      ensures n == if Find(pending) < |pending| then Some(Find(pending)) else None
    {
      FindExactly(pending);
      for i := 0 to |pending|
        invariant forall j :: 0 <= j < i ==> pending[j] != LF
      {
        if pending[i] == LF {
          return Some(i);
        }
      }
      return None;
    }

    /**
     Appends the chunk and drains the complete lines. What is returned and what stays are
     together what was there, and nothing that stays is a complete line.
     */
    method SseLines(chunk: seq<Byte>) returns (r: Option<seq<Line>>)
      modifies `pending
      ensures r.Some? <==> AllValid(Lines(old(pending) + chunk))
      ensures r.Some? ==> r.value == Lines(old(pending) + chunk) && pending == Rest(old(pending) + chunk)
      ensures r.Some? ==> Flat(r.value) + pending == old(pending) + chunk && LF !in pending
    {
      pending := pending + chunk;
      ghost var text := pending;
      LinesConserve(text);
      var lines: seq<Line> := [];
      var newline := Position();
      while newline.Some?
        invariant newline == if Find(pending) < |pending| then Some(Find(pending)) else None
        invariant Lines(text) == lines + Lines(pending) && Rest(text) == Rest(pending)
        invariant AllValid(lines)
        decreases |pending|
      {
        var line := pending[..newline.value + 1];
        pending := pending[newline.value + 1..];
        if !ValidUtf8(line) {
          BadLine(lines, line, Lines(pending));
          return None;
        }
        GoodLine(lines, line, Lines(pending));
        lines := lines + [line];
        newline := Position();
      }
      return Some(lines);
    }

    method PrintSseData()
      modifies `data, `printed
      ensures State() == Flush(old(State()))
    {
      if data != [] {
        printed := printed + [Join(data)];
        data := [];
      }
    }

    // One line of text.
    method TakeOne(raw: Line)
      modifies `data, `printed
      ensures State() == TakeLine(old(State()), raw)
    {
      var line := Trimmed(raw);
      if line == [] {
        PrintSseData();
      } else if DATA <= line {
        data := data + [StripSpace(line[|DATA|..])];
      }
    }

    /** Reads a whole response from a fresh connection: the result is that of `Read`. */
    method Events(chunks: seq<seq<Byte>>, ending: Ending) returns (r: Reading)
      requires State() == START
      modifies this
      ensures r == Read(START, chunks, ending)
    {
      for i := 0 to |chunks|
        invariant Read(State(), chunks[i..], ending) == Read(START, chunks, ending)
      {
        ghost var before := State();
        assert chunks[i..][1..] == chunks[i + 1..];
        var lines := SseLines(chunks[i]);
        if lines.None? {
          return Broken(printed);
        }
        ghost var start := State();
        for j := 0 to |lines.value|
          invariant TakeLines(State(), lines.value[j..]) == TakeLines(start, lines.value)
          invariant pending == start.pending
        {
          assert lines.value[j..][1..] == lines.value[j + 1..];
          TakeOne(lines.value[j]);
        }
        assert lines.value[|lines.value|..] == [];
        PendingIsApart(before, start.pending, lines.value);
      }
      assert chunks[|chunks|..] == [];
      if ending.Failed? {
        return Broken(printed);
      }
      PrintSseData();
      return Ended(printed);
    }
  }

  // Taking lines neither looks at nor changes the unfinished line.
  lemma {:induction false} PendingIsApart(r: Reader, pending: seq<Byte>, lines: seq<Line>)
    ensures TakeLines(r.(pending := pending), lines) == TakeLines(r, lines).(pending := pending)
    ensures TakeLines(r, lines).pending == r.pending
    decreases |lines|
  {
    if lines != [] {
      PendingIsApart(TakeLine(r, lines[0]), pending, lines[1..]);
    }
  }

  // --- Chunk independence ---

  // The reader after a stream of complete, valid lines.
  function After(stream: seq<Byte>): Reader {
    TakeLines(START, Lines(stream)).(pending := Rest(stream))
  }

  lemma {:induction false} TakeLinesAppend(r: Reader, a: seq<Line>, b: seq<Line>)
    ensures TakeLines(r, a + b) == TakeLines(TakeLines(r, a), b)
    decreases |a|
  {
    if a == [] {
      assert a + b == b;
    } else {
      assert (a + b)[1..] == a[1..] + b;
      TakeLinesAppend(TakeLine(r, a[0]), a[1..], b);
    }
  }

  lemma AllValidAppends(a: seq<Line>, b: seq<Line>)
    ensures AllValid(a + b) <==> AllValid(a) && AllValid(b)
  {
    forall i | 0 <= i < |a| ensures (a + b)[i] == a[i] {}
    forall i | 0 <= i < |b| ensures (a + b)[|a| + i] == b[i] {}
  }

  // A chunk moves the reader along the stream, or meets the first bad line.
  lemma ChunkAdvances(before: seq<Byte>, chunk: seq<Byte>)
    requires AllValid(Lines(before))
    ensures TakeChunk(After(before), chunk) ==
            if AllValid(Lines(before + chunk)) then Some(After(before + chunk)) else None
  {
    var more := Lines(Rest(before) + chunk);
    LinesAppend(before, chunk);
    AllValidAppends(Lines(before), more);
    TakeLinesAppend(START, Lines(before), more);
    PendingIsApart(TakeLines(START, Lines(before)), Rest(before), more);
  }

  /** With valid lines throughout, any chunks after a prefix end with the events of the whole stream. */
  lemma {:induction false} ReadsValid(before: seq<Byte>, chunks: seq<seq<Byte>>, ending: Ending)
    requires AllValid(Lines(before + Flat(chunks)))
    ensures AllValid(Lines(before))
    ensures Read(After(before), chunks, ending) == Finish(After(before + Flat(chunks)), ending)
    decreases |chunks|
  {
    LinesAppend(before, Flat(chunks));
    AllValidAppends(Lines(before), Lines(Rest(before) + Flat(chunks)));
    if chunks == [] {
      assert before + [] == before;
    } else {
      assert before + Flat(chunks) == before + chunks[0] + Flat(chunks[1..]);
      ReadsValid(before + chunks[0], chunks[1..], ending);
      ChunkAdvances(before, chunks[0]);
    }
  }

  // Reading breaks in chunk k, having printed what came before it.
  predicate BreaksAt(before: seq<Byte>, chunks: seq<seq<Byte>>, k: nat, ending: Ending) {
    && k < |chunks|
    && AllValid(Lines(before + Flat(chunks[..k]))) && !AllValid(Lines(before + Flat(chunks[..k + 1])))
    && (AllValid(Lines(before)) ==> Read(After(before), chunks, ending) == Broken(After(before + Flat(chunks[..k])).printed))
  }

  lemma Shift(before: seq<Byte>, chunks: seq<seq<Byte>>, k: nat)
    requires k < |chunks|
    ensures before + Flat(chunks[..k + 1]) == before + chunks[0] + Flat(chunks[1..][..k])
  {
    assert chunks[..k + 1][0] == chunks[0] && chunks[..k + 1][1..] == chunks[1..][..k];
  }

  lemma BreaksNow(before: seq<Byte>, chunks: seq<seq<Byte>>, ending: Ending)
    requires chunks != [] && AllValid(Lines(before)) && !AllValid(Lines(before + chunks[0]))
    ensures BreaksAt(before, chunks, 0, ending)
  {
    WholeChunk(chunks[0], ending);
    ChunkAdvances(before, chunks[0]);
    assert chunks[..1] == [chunks[0]] && chunks[..0] == [] && before + [] == before;
  }

  lemma BreaksLater(before: seq<Byte>, chunks: seq<seq<Byte>>, k: nat, ending: Ending)
    requires chunks != [] && AllValid(Lines(before + chunks[0]))
    requires BreaksAt(before + chunks[0], chunks[1..], k, ending)
    ensures BreaksAt(before, chunks, k + 1, ending)
  {
    Shift(before, chunks, k);
    Shift(before, chunks, k + 1);
    if AllValid(Lines(before)) {
      ChunkAdvances(before, chunks[0]);
    }
  }

  /** With a bad line, reading breaks in the chunk that completes it, having printed what came before that chunk. */
  lemma {:induction false} ReadsBroken(before: seq<Byte>, chunks: seq<seq<Byte>>, ending: Ending) returns (k: nat)
    requires AllValid(Lines(before)) && !AllValid(Lines(before + Flat(chunks)))
    ensures BreaksAt(before, chunks, k, ending)
    decreases |chunks|
  {
    assert before + [] == before;
    if !AllValid(Lines(before + chunks[0])) {
      k := 0;
      BreaksNow(before, chunks, ending);
    } else {
      assert before + Flat(chunks) == before + chunks[0] + Flat(chunks[1..]);
      var rest := ReadsBroken(before + chunks[0], chunks[1..], ending);
      k := rest + 1;
      BreaksLater(before, chunks, rest, ending);
    }
  }

  // The valid lines before the first bad one.
  function GoodLines(lines: seq<Line>): seq<Line> {
    if lines == [] || !ValidUtf8(lines[0]) then [] else [lines[0]] + GoodLines(lines[1..])
  }

  // The events finished before the first bad line.
  function PrintedBeforeBad(stream: seq<Byte>): seq<Line> {
    TakeLines(START, GoodLines(Lines(stream))).printed
  }

  predicate SplitBlind(stream: seq<Byte>, chunks: seq<seq<Byte>>, ending: Ending) {
    Flat(chunks) == stream ==> Read(START, chunks, ending) == Read(START, [stream], ending)
  }

  lemma StartIsAfterNothing()
    ensures After([]) == START && Lines([]) == []
  {
  }

  lemma WholeChunk(stream: seq<Byte>, ending: Ending)
    ensures Flat([stream]) == stream
    ensures !AllValid(Lines(stream)) ==> Read(START, [stream], ending) == Broken([])
  {
    var whole := [stream];
    assert whole[1..] == [];
    assert [] + stream == stream;
  }

  /** Valid lines: any two ways of cutting the stream print the same events. */
  lemma ValidIsSplitBlind(stream: seq<Byte>, chunks: seq<seq<Byte>>, ending: Ending)
    requires AllValid(Lines(stream))
    ensures SplitBlind(stream, chunks, ending)
    ensures Flat(chunks) == stream ==> (Read(START, chunks, ending).Ended? <==> ending.Closed?)
  {
    StartIsAfterNothing();
    WholeChunk(stream, ending);
    assert [] + stream == stream;
    if Flat(chunks) == stream {
      ReadsValid([], chunks, ending);
      ReadsValid([], [stream], ending);
    }
  }

  lemma {:induction false} PrintedGrows(r: Reader, lines: seq<Line>)
    ensures r.printed <= TakeLines(r, lines).printed
    decreases |lines|
  {
    if lines != [] {
      PrintedGrows(TakeLine(r, lines[0]), lines[1..]);
    }
  }

  lemma {:induction false} GoodLinesPrefix(a: seq<Line>, b: seq<Line>)
    requires AllValid(a)
    ensures GoodLines(a + b) == a + GoodLines(b)
    decreases |a|
  {
    if a == [] {
      assert a + b == b;
    } else {
      assert (a + b)[1..] == a[1..] + b;
      GoodLinesPrefix(a[1..], b);
    }
  }

  // What a valid part of the stream printed is the start of what the good lines print.
  lemma PartPrinted(part: seq<Byte>, more: seq<Byte>)
    requires AllValid(Lines(part))
    ensures After(part).printed <= PrintedBeforeBad(part + more)
  {
    LinesAppend(part, more);
    var rest := GoodLines(Lines(Rest(part) + more));
    GoodLinesPrefix(Lines(part), Lines(Rest(part) + more));
    TakeLinesAppend(START, Lines(part), rest);
    PrintedGrows(TakeLines(START, Lines(part)), rest);
  }

  // The good lines are the complete lines of the stream up to there.
  lemma {:induction false} GoodLinesAreLines(stream: seq<Byte>) returns (cut: nat)
    ensures cut <= |stream| && Lines(stream[..cut]) == GoodLines(Lines(stream))
    decreases |stream|
  {
    var n := Find(stream);
    if n < |stream| && ValidUtf8(stream[..n + 1]) {
      var line, more := stream[..n + 1], stream[n + 1..];
      var rest := GoodLinesAreLines(more);
      cut := n + 1 + rest;
      LineOf(stream);
      assert stream[..cut] == line + more[..rest];
      FirstLine(line, more[..rest]);
      assert Lines(stream)[1..] == Lines(more);
    } else {
      cut := 0;
    }
  }

  lemma {:induction false} GoodLinesValid(lines: seq<Line>)
    ensures AllValid(GoodLines(lines))
    decreases |lines|
  {
    if lines != [] {
      GoodLinesValid(lines[1..]);
    }
  }

  // With a bad line and events before it, cutting right before the bad line shows those events.
  lemma CutShowsMore(stream: seq<Byte>, ending: Ending) returns (chunks: seq<seq<Byte>>)
    requires !AllValid(Lines(stream))
    ensures Flat(chunks) == stream && Read(START, chunks, ending) == Broken(PrintedBeforeBad(stream))
  {
    var cut := GoodLinesAreLines(stream);
    var good, bad := stream[..cut], stream[cut..];
    GoodLinesValid(Lines(stream));
    chunks := [good, bad];
    assert stream == good + bad;
    assert chunks[1..] == [bad];
    WholeChunk(bad, ending);
    StartIsAfterNothing();
    assert [] + good == good;
    ChunkAdvances([], good);
    ChunkAdvances(good, bad);
  }

  /**
   The exact condition: reading is independent of how the stream is cut if and only if every
   complete line is valid text, or no event ends before the first line that is not.
   */
  lemma SplitBlindExactly(stream: seq<Byte>, ending: Ending)
    ensures (forall chunks :: SplitBlind(stream, chunks, ending)) <==>
            AllValid(Lines(stream)) || PrintedBeforeBad(stream) == []
  {
    if AllValid(Lines(stream)) {
      forall chunks ensures SplitBlind(stream, chunks, ending) {
        ValidIsSplitBlind(stream, chunks, ending);
      }
    } else {
      WholeChunk(stream, ending);
      var shown := CutShowsMore(stream, ending);
      assert SplitBlind(stream, shown, ending) ==> PrintedBeforeBad(stream) == [];
      if PrintedBeforeBad(stream) == [] {
        forall chunks ensures SplitBlind(stream, chunks, ending) {
          BrokenPrints(stream, chunks, ending);
        }
      }
    }
  }

  // However it is cut, a stream with a bad line prints a start of the events before that line.
  lemma BrokenPrints(stream: seq<Byte>, chunks: seq<seq<Byte>>, ending: Ending)
    requires !AllValid(Lines(stream))
    ensures Flat(chunks) == stream ==>
              Read(START, chunks, ending).Broken? && Read(START, chunks, ending).printed <= PrintedBeforeBad(stream)
  {
    if Flat(chunks) == stream {
      StartIsAfterNothing();
      assert [] + stream == stream;
      var k := ReadsBroken([], chunks, ending);
      var part, more := Flat(chunks[..k]), Flat(chunks[k..]);
      FlatAppends(chunks[..k], chunks[k..]);
      assert chunks == chunks[..k] + chunks[k..];
      assert [] + part == part;
      PartPrinted(part, more);
    }
  }
}
