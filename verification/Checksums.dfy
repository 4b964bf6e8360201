/** The checksum list inside an archive: one "hash, two spaces, name" record a line, written and read back. */
module Checksums {
  import opened Wrappers
  import opened Ordering

  datatype ChecksumError = InvalidRecord | InvalidEntry

  // A file name and its hash.
  datatype Checksum = Checksum(name: string, hash: string)

  predicate IsHash(s: string) {
    |s| == 64 && forall c :: c in s ==> '0' <= c <= '9' || 'a' <= c <= 'f'
  }

  // --- Text ---

  function EndOfLine(s: string): (n: nat)
    ensures n <= |s|
  {
    if s == "" || s[0] == '\n' then 0 else 1 + EndOfLine(s[1..])
  }

  function WithoutReturn(line: string): string {
    if line != "" && line[|line| - 1] == '\r' then line[..|line| - 1] else line
  }

  // The lines of a text: a newline ends a line, with the return before it; what is left is a line as it stands.
  function Lines(s: string): seq<string>
    decreases |s|
  {
    var n := EndOfLine(s);
    if n < |s| then [WithoutReturn(s[..n])] + Lines(s[n + 1..])
    else if s == "" then [] else [s]
  }

  // The position of the first two spaces, or the length.
  function Gap(s: string): (n: nat)
    ensures n <= |s|
    ensures n < |s| ==> n + 1 < |s| && s[n] == ' ' && s[n + 1] == ' '
  {
    if s == "" then 0
    else if |s| > 1 && s[0] == ' ' && s[1] == ' ' then 0
    else 1 + Gap(s[1..])
  }

  // One record: split at the first two spaces, a name that is not empty, a hash that is one.
  function ParseRecord(line: string): Result<Checksum, ChecksumError> {
    var n := Gap(line);
    if n == |line| then Failure(InvalidRecord)
    else if line[n + 2..] == "" || !IsHash(line[..n]) then Failure(InvalidEntry)
    else Success(Checksum(line[n + 2..], line[..n]))
  }

  predicate AllRecords(lines: seq<string>) {
    forall i :: 0 <= i < |lines| ==> ParseRecord(lines[i]).Success?
  }

  function Names(lines: seq<string>): (r: seq<string>)
    requires AllRecords(lines)
    ensures |r| == |lines|
  {
    seq(|lines|, i requires 0 <= i < |lines| => ParseRecord(lines[i]).value.name)
  }

  // Well-formed records, no name twice.
  predicate Accepted(lines: seq<string>) {
    AllRecords(lines) && NoRepeats(Names(lines))
  }

  // The map holds each record's hash under its name, and nothing else.
  predicate Represents(checksums: map<string, string>, lines: seq<string>) {
    && Accepted(lines)
    && (forall name :: name in checksums ==> name in Names(lines))
    && forall i :: 0 <= i < |lines| ==>
         var c := ParseRecord(lines[i]).value;
         c.name in checksums && checksums[c.name] == c.hash
  }

  lemma NamesAppend(lines: seq<string>, line: string)
    requires AllRecords(lines) && ParseRecord(line).Success?
    ensures AllRecords(lines + [line])
    ensures Names(lines + [line]) == Names(lines) + [ParseRecord(line).value.name]
  {
  }

  lemma PrefixAccepted(lines: seq<string>, k: nat)
    requires k <= |lines| && Accepted(lines)
    ensures Accepted(lines[..k])
  {
    assert AllRecords(lines[..k]);
    assert Names(lines[..k]) == Names(lines)[..k];
  }

  lemma OneMore(checksums: map<string, string>, lines: seq<string>, line: string)
    requires Represents(checksums, lines) && ParseRecord(line).Success?
    ensures var c := ParseRecord(line).value;
            if c.name in checksums then !Accepted(lines + [line])
            else Represents(checksums[c.name := c.hash], lines + [line])
  {
    var c := ParseRecord(line).value;
    NamesAppend(lines, line);
    var names := Names(lines + [line]);
    if c.name in checksums {
      var j :| 0 <= j < |lines| && Names(lines)[j] == c.name;
      assert names[j] == names[|lines|];
    } else {
      forall j | 0 <= j < |lines| ensures names[j] != c.name {
        assert ParseRecord(lines[j]).value.name in checksums;
      }
    }
  }

  /** Accepts exactly the lists of well-formed records without a repeated name, and returns each name's hash. */
  method ParseChecksums(source: string) returns (r: Result<map<string, string>, ChecksumError>)
    ensures r.Success? <==> Accepted(Lines(source))
    ensures r.Success? ==> Represents(r.value, Lines(source))
  {
    var lines := Lines(source);
    var checksums: map<string, string> := map[];
    for i := 0 to |lines|
      invariant Represents(checksums, lines[..i])
    {
      assert lines[..i + 1] == lines[..i] + [lines[i]];
      var record := ParseRecord(lines[i]);
      if record.Failure? {
        return Failure(record.error);
      }
      OneMore(checksums, lines[..i], lines[i]);
      if record.value.name in checksums {
        if Accepted(lines) {
          PrefixAccepted(lines, i + 1);
        }
        return Failure(InvalidEntry);
      }
      checksums := checksums[record.value.name := record.value.hash];
    }
    assert lines[..|lines|] == lines;
    return Success(checksums);
  }

  // --- Writing ---

  // A name the format can carry.
  predicate Writable(c: Checksum) {
    IsHash(c.hash) && c.name != "" && '\n' !in c.name && c.name[|c.name| - 1] != '\r'
  }

  function Text(c: Checksum): string {
    c.hash + "  " + c.name
  }

  function WriteChecksums(list: seq<Checksum>): string {
    if list == [] then "" else Text(list[0]) + "\n" + WriteChecksums(list[1..])
  }

  function Texts(list: seq<Checksum>): (r: seq<string>)
    ensures |r| == |list| && forall i :: 0 <= i < |r| ==> r[i] == Text(list[i])
  {
    if list == [] then [] else [Text(list[0])] + Texts(list[1..])
  }

  lemma {:induction false} EndOfLineAt(line: string, more: string)
    requires '\n' !in line
    ensures EndOfLine(line + "\n" + more) == |line|
  {
    var s := line + "\n" + more;
    if line != "" {
      assert s[1..] == line[1..] + "\n" + more;
      assert s[0] == line[0] && line[0] in line;
      forall c | c in line[1..] ensures c in line {}
      EndOfLineAt(line[1..], more);
    }
  }

  lemma {:induction false} LinesOfWritten(list: seq<Checksum>)
    requires forall c :: c in list ==> Writable(c)
    ensures Lines(WriteChecksums(list)) == Texts(list)
  {
    if list != [] {
      var first, more := Text(list[0]), WriteChecksums(list[1..]);
      assert list[0] in list;
      var c := list[0];
      forall x | x in first ensures x != '\n' {
        assert x in c.hash || x in "  " || x in c.name;
      }
      EndOfLineAt(first, more);
      var s := first + "\n" + more;
      assert s[..|first|] == first && s[|first| + 1..] == more;
      assert first[|first| - 1] == c.name[|c.name| - 1];
      forall d | d in list[1..] ensures d in list {}
      LinesOfWritten(list[1..]);
    }
  }

  lemma {:induction false} GapAfter(word: string, more: string)
    requires ' ' !in word
    ensures Gap(word + "  " + more) == |word|
  {
    var s := word + "  " + more;
    if word != "" {
      assert s[0] == word[0] && word[0] in word;
      assert s[1..] == word[1..] + "  " + more;
      forall c | c in word[1..] ensures c in word {}
      GapAfter(word[1..], more);
    }
  }

  lemma RecordRoundTrip(c: Checksum)
    requires Writable(c)
    ensures ParseRecord(Text(c)) == Success(c)
  {
    GapAfter(c.hash, c.name);
    var s := Text(c);
    assert s[..|c.hash|] == c.hash && s[|c.hash| + 2..] == c.name;
  }

  // Sixty-four lower-case hex digits.
  predicate HexDigits(hash: string) {
    |hash| == 64 && forall i :: 0 <= i < |hash| ==> '0' <= hash[i] <= '9' || 'a' <= hash[i] <= 'f'
  }

  lemma HexExactly(hash: string)
    ensures IsHash(hash) <==> HexDigits(hash)
    ensures HexDigits(hash) ==> ' ' !in hash
  {
    forall i | 0 <= i < |hash| ensures hash[i] in hash {}
    if HexDigits(hash) {
      forall c | c in hash ensures '0' <= c <= '9' || 'a' <= c <= 'f' {
        var i :| 0 <= i < |hash| && hash[i] == c;
      }
    }
  }

  lemma CutAround(s: string, n: nat, gap: string)
    requires n + 2 <= |s| && |gap| == 2 && s[n] == gap[0] && s[n + 1] == gap[1]
    ensures s == s[..n] + gap + s[n + 2..]
  {
    var parts := s[..n] + gap + s[n + 2..];
    assert |parts| == |s|;
    assert forall i :: 0 <= i < |s| ==> parts[i] == s[i];
  }

  /** A line is a record exactly if it is 64 lower-case hex digits, two spaces and a name that is not empty. */
  lemma RecordExactly(line: string, hash: string, name: string)
    ensures ParseRecord(line) == Success(Checksum(name, hash)) <==>
            line == hash + "  " + name && name != "" && HexDigits(hash)
  {
    HexExactly(hash);
    if line == hash + "  " + name && HexDigits(hash) {
      GapAfter(hash, name);
      assert line[..|hash|] == hash && line[|hash| + 2..] == name;
    }
    if Gap(line) < |line| {
      CutAround(line, Gap(line), "  ");
    }
  }

  lemma FirstOfLines(line: string, more: string)
    requires '\n' !in line
    ensures Lines(line + "\n" + more) == [WithoutReturn(line)] + Lines(more)
  {
    EndOfLineAt(line, more);
    var s := line + "\n" + more;
    assert s[..|line|] == line && s[|line| + 1..] == more;
  }

  lemma DropsReturn(line: string)
    requires line != "" ==> line[|line| - 1] != '\r'
    ensures WithoutReturn(line) == line && WithoutReturn(line + "\r") == line
  {
    assert (line + "\r")[..|line|] == line;
  }

  /** A line may end in a newline, or in a return and a newline. */
  lemma EndsAlike(line: string, more: string)
    requires '\n' !in line && (line != "" ==> line[|line| - 1] != '\r')
    ensures Lines(line + "\n" + more) == [line] + Lines(more)
    ensures Lines(line + "\r" + "\n" + more) == [line] + Lines(more)
  {
    DropsReturn(line);
    FirstOfLines(line, more);
    FirstOfLines(line + "\r", more);
  }

  /** What is written is read back: every name with its own hash, and nothing else. */
  lemma RoundTrip(list: seq<Checksum>)
    requires forall c :: c in list ==> Writable(c)
    ensures AllRecords(Lines(WriteChecksums(list)))
    ensures |Lines(WriteChecksums(list))| == |list|
    ensures forall i :: 0 <= i < |list| ==> ParseRecord(Lines(WriteChecksums(list))[i]) == Success(list[i])
    ensures (forall i, j :: 0 <= i < j < |list| ==> list[i].name != list[j].name) ==> Accepted(Lines(WriteChecksums(list)))
  {
    LinesOfWritten(list);
    forall i | 0 <= i < |list| ensures ParseRecord(Texts(list)[i]) == Success(list[i]) {
      RecordRoundTrip(list[i]);
    }
  }
}
