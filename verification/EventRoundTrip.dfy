/**
 The event stream from end to end: whatever messages a server writes, in whatever chunks they
 arrive, the client prints the data of each, in order and whole, and nothing else.
 */
module EventRoundTrip {
  import opened Wrappers
  import opened EventStream

  // A message on the wire: lines that carry no data (its id, its event name, a comment), and the
  // lines of its data.
  datatype Message = Message(others: seq<Line>, data: seq<Line>)

  // A piece of text that fits one line.
  predicate OneLine(line: Line) {
    LF !in line && (line != [] ==> line[|line| - 1] != CR) && ValidUtf8(line)
  }

  predicate Sendable(m: Message) {
    && (forall i :: 0 <= i < |m.data| ==> OneLine(m.data[i]))
    && forall i :: 0 <= i < |m.others| ==> OneLine(m.others[i]) && m.others[i] != [] && !([100, 97, 116, 97, 58] <= m.others[i])
  }

  // A line ends with a line feed, with a carriage return before it or without.
  function End(cr: bool): Line {
    if cr then [13, 10] else [10]
  }

  // Data as sent.
  function SentData(line: Line, cr: bool): Line {
    [100, 97, 116, 97, 58, 32] + line + End(cr)
  }

  function SentLines(lines: seq<Line>, data: bool, cr: bool): seq<Line> {
    if lines == [] then []
    else [if data then SentData(lines[0], cr) else lines[0] + End(cr)] + SentLines(lines[1..], data, cr)
  }

  // A message ends with an empty line.
  function Sent(m: Message, cr: bool): seq<Line> {
    SentLines(m.others, false, cr) + (SentLines(m.data, true, cr) + [End(cr)])
  }

  function AllSent(messages: seq<Message>, cr: bool): seq<Line> {
    if messages == [] then [] else Sent(messages[0], cr) + AllSent(messages[1..], cr)
  }

  // The text is these lines, one newline between any two.
  predicate IsText(text: Line, lines: seq<Line>) {
    && |Lines(text + [10])| == |lines|
    && forall i :: 0 <= i < |lines| ==> Lines(text + [10])[i] == lines[i] + [10]
  }

  // One text for each message that has data, in order.
  predicate Tells(printed: seq<Line>, messages: seq<Message>)
    decreases |messages|
  {
    if messages == [] then printed == []
    else if messages[0].data == [] then Tells(printed, messages[1..])
    else printed != [] && IsText(printed[0], messages[0].data) && Tells(printed[1..], messages[1..])
  }

  // --- Lines ---

  // Only the last byte is a newline.
  predicate Complete(line: Line) {
    line != [] && Find(line) == |line| - 1
  }

  lemma {:induction false} LinesOfFlat(lines: seq<Line>)
    requires forall i :: 0 <= i < |lines| ==> Complete(lines[i])
    ensures Lines(Flat(lines)) == lines && Rest(Flat(lines)) == []
  {
    if lines != [] {
      LinesOfFlat(lines[1..]);
      FirstLine(lines[0], Flat(lines[1..]));
      assert lines == [lines[0]] + lines[1..];
    }
  }

  lemma EndsComplete(line: Line)
    requires LF !in line
    ensures Complete(line + [10])
  {
    FindExactly(line);
    FindAppends(line, [10]);
  }

  /** The joined data of an event is text of exactly its lines. */
  lemma {:induction false} JoinExactly(data: seq<Line>)
    requires data != [] && forall i :: 0 <= i < |data| ==> LF !in data[i]
    ensures IsText(Join(data), data)
  {
    EndsComplete(data[0]);
    if |data| == 1 {
      FirstLine(data[0] + [10], []);
      assert data[0] + [10] + [] == data[0] + [10];
      assert Join(data) == data[0];
      assert Lines(Join(data) + [10]) == [data[0] + [10]] + [];
    } else {
      JoinExactly(data[1..]);
      var more := Join(data[1..]) + [10];
      FirstLine(data[0] + [10], more);
      assert Join(data) + [10] == data[0] + [10] + more;
    }
  }

  // --- Valid text ---

  lemma CharLengthAppends(a: seq<Byte>, b: seq<Byte>)
    requires a != [] && CharLength(a) > 0
    ensures CharLength(a + b) == CharLength(a)
  {
    assert forall i :: 0 <= i < |a| ==> (a + b)[i] == a[i];
  }

  lemma {:induction false} ValidAppends(a: seq<Byte>, b: seq<Byte>)
    requires ValidUtf8(a) && ValidUtf8(b)
    ensures ValidUtf8(a + b)
    decreases |a|
  {
    if a == [] {
      assert a + b == b;
    } else {
      var n := CharLength(a);
      CharLengthAppends(a, b);
      assert (a + b)[n..] == a[n..] + b;
      ValidAppends(a[n..], b);
    }
  }

  lemma {:induction false} AsciiValid(s: seq<Byte>)
    requires forall i :: 0 <= i < |s| ==> s[i] <= 0x7F
    ensures ValidUtf8(s)
  {
    if s != [] {
      AsciiValid(s[1..]);
    }
  }

  lemma EndedFits(line: Line, cr: bool)
    requires LF !in line && ValidUtf8(line)
    ensures Complete(line + End(cr)) && ValidUtf8(line + End(cr))
  {
    AsciiValid(End(cr));
    ValidAppends(line, End(cr));
    if cr {
      EndsComplete(line + [13]);
      assert line + [13] + [10] == line + End(cr);
    } else {
      EndsComplete(line);
    }
  }

  lemma SentDataFits(line: Line, cr: bool)
    requires OneLine(line)
    ensures Complete(SentData(line, cr)) && ValidUtf8(SentData(line, cr))
  {
    var prefix: Line := [100, 97, 116, 97, 58, 32];
    AsciiValid(prefix);
    ValidAppends(prefix, line);
    EndedFits(prefix + line, cr);
  }

  predicate AllFit(lines: seq<Line>) {
    forall i :: 0 <= i < |lines| ==> Complete(lines[i]) && ValidUtf8(lines[i])
  }

  lemma FitAppends(a: seq<Line>, b: seq<Line>)
    requires AllFit(a) && AllFit(b)
    ensures AllFit(a + b)
  {
  }

  // Every line sent is a complete line of text.
  lemma {:induction false} SentLinesFit(lines: seq<Line>, data: bool, cr: bool)
    requires forall i :: 0 <= i < |lines| ==> OneLine(lines[i])
    ensures AllFit(SentLines(lines, data, cr))
  {
    if lines != [] {
      SentLinesFit(lines[1..], data, cr);
      if data {
        SentDataFits(lines[0], cr);
      } else {
        EndedFits(lines[0], cr);
      }
    }
  }

  lemma SentFits(m: Message, cr: bool)
    requires Sendable(m)
    ensures AllFit(Sent(m, cr))
  {
    SentLinesFit(m.others, false, cr);
    SentLinesFit(m.data, true, cr);
    EndedFits([], cr);
    assert [] + End(cr) == End(cr);
    FitAppends(SentLines(m.data, true, cr), [End(cr)]);
    FitAppends(SentLines(m.others, false, cr), SentLines(m.data, true, cr) + [End(cr)]);
  }

  lemma {:induction false} AllSentFit(messages: seq<Message>, cr: bool)
    requires forall i :: 0 <= i < |messages| ==> Sendable(messages[i])
    ensures AllFit(AllSent(messages, cr))
  {
    if messages != [] {
      SentFits(messages[0], cr);
      AllSentFit(messages[1..], cr);
      FitAppends(Sent(messages[0], cr), AllSent(messages[1..], cr));
    }
  }

  // --- Taking the lines of one message ---

  lemma TrimsOne(line: Line, last: Byte)
    requires last == CR || last == LF
    ensures Trimmed(line + [last]) == Trimmed(line)
  {
    assert (line + [last])[..|line|] == line;
  }

  lemma TrimsTo(line: Line, cr: bool)
    requires line != [] ==> line[|line| - 1] != CR && line[|line| - 1] != LF
    ensures Trimmed(line + End(cr)) == line
  {
    if cr {
      TrimsOne(line, 13);
      TrimsOne(line + [13], 10);
      assert line + [13] + [10] == line + End(cr);
    } else {
      TrimsOne(line, 10);
    }
  }

  lemma TakesOther(r: Reader, line: Line, cr: bool)
    requires OneLine(line) && line != [] && !([100, 97, 116, 97, 58] <= line)
    ensures TakeLine(r, line + End(cr)) == r
  {
    TrimsTo(line, cr);
  }

  lemma TakesData(r: Reader, line: Line, cr: bool)
    requires OneLine(line)
    ensures TakeLine(r, SentData(line, cr)) == r.(data := r.data + [line])
  {
    var whole := [100, 97, 116, 97, 58, 32] + line;
    TrimsTo(whole, cr);
    assert whole[..5] == [100, 97, 116, 97, 58];
    assert whole[5..] == [32] + line && ([32] + line)[1..] == line;
  }

  lemma TakesFirst(r: Reader, first: Line, rest: seq<Line>)
    ensures TakeLines(r, [first] + rest) == TakeLines(TakeLine(r, first), rest)
  {
    assert ([first] + rest)[1..] == rest;
  }

  lemma TakesDataFirst(r: Reader, line: Line, rest: seq<Line>, cr: bool)
    requires OneLine(line)
    ensures TakeLines(r, [SentData(line, cr)] + rest) == TakeLines(r.(data := r.data + [line]), rest)
  {
    TakesFirst(r, SentData(line, cr), rest);
    TakesData(r, line, cr);
  }

  lemma DataJoins(r: Reader, lines: seq<Line>)
    requires lines != []
    ensures r.(data := r.data + [lines[0]] + lines[1..]) == r.(data := r.data + lines)
  {
    assert r.data + [lines[0]] + lines[1..] == r.data + lines;
  }

  lemma {:induction false} TakesOthers(r: Reader, lines: seq<Line>, cr: bool)
    requires forall i :: 0 <= i < |lines| ==> OneLine(lines[i]) && lines[i] != [] && !([100, 97, 116, 97, 58] <= lines[i])
    ensures TakeLines(r, SentLines(lines, false, cr)) == r
  {
    if lines != [] {
      TakesOther(r, lines[0], cr);
      TakesOthers(r, lines[1..], cr);
      TakesFirst(r, lines[0] + End(cr), SentLines(lines[1..], false, cr));
    }
  }

  lemma {:induction false} TakesAllData(r: Reader, lines: seq<Line>, cr: bool)
    requires forall i :: 0 <= i < |lines| ==> OneLine(lines[i])
    ensures TakeLines(r, SentLines(lines, true, cr)) == r.(data := r.data + lines)
    decreases |lines|
  {
    if lines == [] {
      assert r.data + lines == r.data;
    } else {
      TakesDataFirst(r, lines[0], SentLines(lines[1..], true, cr), cr);
      TakesAllData(r.(data := r.data + [lines[0]]), lines[1..], cr);
      DataJoins(r, lines);
    }
  }

  lemma TakesMessage(r: Reader, m: Message, cr: bool)
    requires Sendable(m) && r.data == []
    ensures TakeLines(r, Sent(m, cr)) == if m.data == [] then r else r.(printed := r.printed + [Join(m.data)])
  {
    TakeLinesAppend(r, SentLines(m.others, false, cr), SentLines(m.data, true, cr) + [End(cr)]);
    TakesOthers(r, m.others, cr);
    TakeLinesAppend(r, SentLines(m.data, true, cr), [End(cr)]);
    TakesAllData(r, m.data, cr);
    assert [] + m.data == m.data;
    TrimsTo([], cr);
    assert [] + End(cr) == End(cr);
    var last: seq<Line> := [End(cr)];
    assert last[1..] == [];
  }

  // --- The whole stream ---

  lemma TellsOneMore(printed: seq<Line>, messages: seq<Message>)
    requires messages != [] && messages[0].data != [] && Sendable(messages[0]) && Tells(printed, messages[1..])
    ensures Tells([Join(messages[0].data)] + printed, messages)
  {
    JoinExactly(messages[0].data);
    var more := [Join(messages[0].data)] + printed;
    assert more[0] == Join(messages[0].data) && more[1..] == printed;
  }

  lemma {:induction false} TakesAll(r: Reader, messages: seq<Message>, cr: bool) returns (more: seq<Line>)
    requires r.data == [] && forall i :: 0 <= i < |messages| ==> Sendable(messages[i])
    ensures TakeLines(r, AllSent(messages, cr)) == r.(printed := r.printed + more) && Tells(more, messages)
    decreases |messages|
  {
    if messages == [] {
      more := [];
      assert r.printed + more == r.printed;
    } else {
      var m, next := messages[0], TakeLines(r, Sent(messages[0], cr));
      TakeLinesAppend(r, Sent(m, cr), AllSent(messages[1..], cr));
      TakesMessage(r, m, cr);
      var rest := TakesAll(next, messages[1..], cr);
      if m.data == [] {
        more := rest;
      } else {
        TellsOneMore(rest, messages);
        more := [Join(m.data)] + rest;
        Assoc(r.printed, [Join(m.data)], rest);
      }
    }
  }

  // A stream that ends with a complete line, read as one chunk.
  lemma ReadAtOnce(stream: seq<Byte>, lines: seq<Line>, printed: seq<Line>)
    requires Lines(stream) == lines && Rest(stream) == [] && AllValid(lines)
    requires TakeLines(START, lines) == START.(printed := printed)
    ensures Read(START, [stream], Closed) == Ended(printed)
  {
    assert [] + stream == stream;
    var whole := [stream];
    assert whole[1..] == [];
    assert TakeChunk(START, stream) == Some(START.(printed := printed));
  }

  /**
   Whatever messages are sent and however the bytes are cut into chunks, a client that reads to
   the end prints the data of each message that has any, whole, once and in order.
   */
  lemma ReadsWhatWasSent(messages: seq<Message>, cr: bool, chunks: seq<seq<Byte>>)
    requires forall i :: 0 <= i < |messages| ==> Sendable(messages[i])
    requires Flat(chunks) == Flat(AllSent(messages, cr))
    ensures Read(START, chunks, Closed).Ended? && Tells(Read(START, chunks, Closed).printed, messages)
  {
    var stream, lines := Flat(AllSent(messages, cr)), AllSent(messages, cr);
    AllSentFit(messages, cr);
    LinesOfFlat(lines);
    ValidIsSplitBlind(stream, chunks, Closed);
    var printed := TakesAll(START, messages, cr);
    assert [] + printed == printed;
    ReadAtOnce(stream, lines, printed);
  }
}
