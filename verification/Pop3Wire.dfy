/** POP3 multi-line responses (crates/pebble-mail/src/pop3.rs): framing by dot-stuffing
    (section 3 of RFC 1939) and the LIST and UIDL listings (sections 5 and 7). A stream is
    a string of single-byte characters. */
module Pop3Wire {
  import opened Basics
  import opened Sequences
  import opened Text

  const CRLF := "\r\n"
  const TERMINATOR := ".\r\n"
  const U32_MAX := 0xFFFF_FFFF
  const U64_MAX := 0xFFFF_FFFF_FFFF_FFFF

  datatype Error =
    | ConnectionClosed
    | MissingNumber
    | InvalidNumber
    | MissingUid
    | MissingSize
    | InvalidSize

  // ---------------------------------------------------------------- reading

  function StripLf(line: string): string { StripSuffix(line, "\n").UnwrapOr(line) }

  function StripCrlf(line: string): string { StripSuffix(line, CRLF).UnwrapOr(StripLf(line)) }

  function Unstuffed(line: string): string { if StartsWith(line, "..") then line[1..] else line }

  /** A response and what the stream still holds after it. */
  datatype Response = Response(body: string, unread: string)

  function Prepend(line: string, r: Result<Response, Error>): Result<Response, Error> {
    if r.Ok? then Ok(Response(line + CRLF + r.value.body, r.value.unread)) else r
  }

  function ReadMultiline(stream: string): Result<Response, Error>
    decreases |stream|
  {
    if stream == "" then Err(ConnectionClosed)
    else
      var n := LineLength(stream);
      var line := StripCrlf(stream[..n]);
      if line == "." then Ok(Response("", stream[n..]))
      else Prepend(Unstuffed(line), ReadMultiline(stream[n..]))
  }

  /** A buffered connection: the bytes it will still deliver before it closes. */
  class Connection {
    var incoming: string

    constructor (bytes: string)
      ensures incoming == bytes
    {
      incoming := bytes;
    }

    /** Up to and including the next line feed, or to the end. */
    method ReadUntilLf() returns (line: string)
      modifies this
      ensures old(incoming) == line + incoming && |line| == LineLength(old(incoming))
    {
      var n := 0;
      while n < |incoming| && (n == 0 || incoming[n - 1] != '\n')
        invariant n <= |incoming| && forall i :: 0 <= i < n - 1 ==> incoming[i] != '\n'
        invariant incoming == old(incoming)
      {
        n := n + 1;
      }
      LineLengthUnique(incoming, n);
      line, incoming := incoming[..n], incoming[n..];
    }

    method ReadMultilineBytes() returns (output: Result<string, Error>)
      modifies this
      ensures var read := ReadMultiline(old(incoming));
              if read.Ok? then output == Ok(read.value.body) && incoming == read.value.unread
              else output == Err(read.error) && incoming == ""
    {
      var body := "";
      ghost var all := incoming;
      assert Prefixed("", ReadMultiline(all)) == ReadMultiline(all) by { PrefixedNothing(ReadMultiline(all)); }
      while true
        invariant ReadMultiline(all) == Prefixed(body, ReadMultiline(incoming))
        decreases |incoming|
      {
        ghost var before := incoming;
        var line := ReadUntilLf();
        if line == "" {
          return Err(ConnectionClosed);
        }
        ReadStep(body, before, line, incoming);
        var stripped := StripCrlf(line);
        if stripped == "." {
          return Ok(body);
        }
        body := body + Unstuffed(stripped) + CRLF;
      }
    }
  }

  lemma ReadStep(body: string, before: string, line: string, after: string)
    requires before == line + after && line != "" && |line| == LineLength(before)
    ensures if StripCrlf(line) == "." then Prefixed(body, ReadMultiline(before)) == Ok(Response(body, after))
            else Prefixed(body, ReadMultiline(before))
                 == Prefixed(body + Unstuffed(StripCrlf(line)) + CRLF, ReadMultiline(after))
  {
    assert before[..|line|] == line && before[|line|..] == after;
    if StripCrlf(line) == "." {
      assert body + "" == body;
    } else {
      PrefixedTwice(body, Unstuffed(StripCrlf(line)), ReadMultiline(after));
    }
  }

  lemma PrefixedNothing(r: Result<Response, Error>)
    ensures Prefixed("", r) == r
  {
    if r.Ok? { assert "" + r.value.body == r.value.body; }
  }

  function Prefixed(body: string, r: Result<Response, Error>): Result<Response, Error> {
    if r.Ok? then Ok(r.value.(body := body + r.value.body)) else r
  }

  lemma PrefixedTwice(body: string, line: string, r: Result<Response, Error>)
    ensures Prefixed(body, Prepend(line, r)) == Prefixed(body + line + CRLF, r)
  {
    if r.Ok? { assert body + (line + CRLF + r.value.body) == body + line + CRLF + r.value.body; }
  }

  // ---------------------------------------------------------------- sending

  /** A line that starts with a dot is sent with a second one. */
  function Stuffed(line: string): string { if StartsWith(line, ".") then "." + line else line }

  function Sent(lines: seq<string>): string {
    if lines == [] then "" else Stuffed(lines[0]) + CRLF + Sent(lines[1..])
  }

  /** Lines with their line ends. */
  function Terminated(lines: seq<string>): string {
    if lines == [] then "" else lines[0] + CRLF + Terminated(lines[1..])
  }

  lemma StripSentLine(line: string)
    ensures StripCrlf(line + CRLF) == line
  {
    var s := line + CRLF;
    assert s[|s| - 2..] == CRLF && s[..|s| - 2] == line;
  }

  lemma StuffedRoundTrip(line: string)
    ensures Stuffed(line) != "." && Unstuffed(Stuffed(line)) == line
    ensures IsLineFeedFree(line) ==> IsLineFeedFree(Stuffed(line))
  {
    if StartsWith(line, ".") {
      assert line[0] == '.' && ("." + line)[0] == '.' && ("." + line)[1] == '.';
      assert ("." + line)[1..] == line;
    }
  }

  lemma ReadSentLine(line: string, rest: string)
    requires IsLineFeedFree(line) && line != "."
    ensures ReadMultiline(line + CRLF + rest) == Prepend(Unstuffed(line), ReadMultiline(rest))
  {
    var s := line + CRLF + rest;
    assert s == (line + "\r") + "\n" + rest;
    LineLengthIs(line + "\r", rest);
    assert s[..|line| + 2] == line + CRLF && s[|line| + 2..] == rest;
    StripSentLine(line);
  }

  /** Sent lines are read back one by one, whatever follows them. */
  lemma {:induction false} ReadSentLines(lines: seq<string>, rest: string)
    requires forall line :: line in lines ==> IsLineFeedFree(line)
    ensures ReadMultiline(Sent(lines) + rest) == Prefixed(Terminated(lines), ReadMultiline(rest))
  {
    if lines == [] {
      assert Sent(lines) + rest == rest;
      PrefixedNothing(ReadMultiline(rest));
    } else {
      var line, more := lines[0], lines[1..];
      StuffedRoundTrip(line);
      assert Sent(lines) + rest == Stuffed(line) + CRLF + (Sent(more) + rest);
      ReadSentLine(Stuffed(line), Sent(more) + rest);
      ReadSentLines(more, rest);
      PrependPrefixed(line, Terminated(more), ReadMultiline(rest));
    }
  }

  lemma PrependPrefixed(line: string, body: string, r: Result<Response, Error>)
    ensures Prepend(line, Prefixed(body, r)) == Prefixed(line + CRLF + body, r)
  {
    if r.Ok? { assert line + CRLF + (body + r.value.body) == line + CRLF + body + r.value.body; }
  }

  /** Main result: any lines, dot-stuffed and terminated, are read back exactly, and the
      rest of the stream stays unread. */
  lemma FramingRoundTrip(lines: seq<string>, unread: string)
    requires forall line :: line in lines ==> IsLineFeedFree(line)
    ensures ReadMultiline(Sent(lines) + TERMINATOR + unread) == Ok(Response(Terminated(lines), unread))
  {
    Associative(Sent(lines), TERMINATOR, unread);
    ReadSentLines(lines, TERMINATOR + unread);
    ReadTerminator(unread);
    AppendNothing(Terminated(lines));
  }

  lemma ReadTerminator(unread: string)
    ensures ReadMultiline(TERMINATOR + unread) == Ok(Response("", unread))
  {
    var s := TERMINATOR + unread;
    assert s == ".\r" + "\n" + unread;
    LineLengthIs(".\r", unread);
    assert s[..3] == "." + CRLF && s[3..] == unread;
    StripSentLine(".");
  }

  /** A stream that ends inside a line is an error, with one exception: if what arrived of
      the last line is a single dot, the response passes for complete. */
  lemma CutStream(lines: seq<string>, part: string)
    requires (forall line :: line in lines ==> IsLineFeedFree(line)) && IsLineFeedFree(part)
    ensures ReadMultiline(Sent(lines) + part).Ok? <==> part == "."
    ensures part == "." ==> ReadMultiline(Sent(lines) + part) == Ok(Response(Terminated(lines), ""))
  {
    ReadSentLines(lines, part);
    ReadPart(part);
    AppendNothing(Terminated(lines));
  }

  /** What is left of a stream without a line feed. */
  lemma ReadPart(part: string)
    requires IsLineFeedFree(part)
    ensures ReadMultiline(part) == if part == "." then Ok(Response("", "")) else Err(ConnectionClosed)
  {
    LineLengthOfLast(part);
    if part != "" {
      assert part[..|part|] == part && part[|part|..] == "";
      PartKeepsItsEnd(part);
    }
  }

  lemma PartKeepsItsEnd(part: string)
    requires IsLineFeedFree(part) && part != ""
    ensures StripCrlf(part) == part
  {
    LineFeedFreeAt(part, |part| - 1);
  }

  lemma AppendNothing(s: string)
    ensures s + "" == s
  {
  }

  /** So a message whose next line starts with a dot, cut right after its stuffing, is
      accepted without that line. */
  lemma CutAfterStuffing(lines: seq<string>, line: string)
    requires (forall l :: l in lines ==> IsLineFeedFree(l)) && IsLineFeedFree(line) && StartsWith(line, ".")
    ensures Sent(lines) + "." <= Sent(lines + [line]) + TERMINATOR   // what arrived is a prefix of what was sent
    ensures ReadMultiline(Sent(lines) + ".") == Ok(Response(Terminated(lines), ""))
    ensures Terminated(lines) != Terminated(lines + [line])
  {
    SentSnoc(lines, line);
    TerminatedLonger(lines, line);
    CutStream(lines, ".");
    DotFirst(Sent(lines), Stuffed(line) + CRLF, TERMINATOR);
  }

  lemma DotFirst(before: string, line: string, after: string)
    requires StartsWith(line, ".")
    ensures before + "." <= before + line + after
  {
    assert line[0] == '.';
    assert (before + line + after)[..|before| + 1] == before + ".";
  }

  lemma {:induction false} SentSnoc(lines: seq<string>, line: string)
    ensures Sent(lines + [line]) == Sent(lines) + (Stuffed(line) + CRLF)
  {
    if lines == [] {
      assert [line][1..] == [] && lines + [line] == [line];
    } else {
      assert (lines + [line])[1..] == lines[1..] + [line];
      SentSnoc(lines[1..], line);
      Associative(Stuffed(lines[0]) + CRLF, Sent(lines[1..]), Stuffed(line) + CRLF);
    }
  }

  lemma {:induction false} TerminatedLonger(lines: seq<string>, line: string)
    ensures |Terminated(lines + [line])| > |Terminated(lines)|
  {
    if lines == [] {
      assert lines + [line] == [line];
    } else {
      assert (lines + [line])[1..] == lines[1..] + [line];
      TerminatedLonger(lines[1..], line);
    }
  }

  function FirstLine(s: string): string { s[..LineLength(s)] }

  /** Offset `k` starts a line. */
  predicate StartsLine(stream: string, k: nat) {
    k < |stream| && (k == 0 || stream[k - 1] == '\n')
  }

  /** Offset `k` starts a line that is a bare dot. */
  ghost predicate DotLineAt(stream: string, k: nat) {
    StartsLine(stream, k) && StripCrlf(FirstLine(stream[k..])) == "."
  }

  /** The lines after the first are those of what follows it. */
  lemma StartsLineAfter(stream: string, n: nat, k: nat)
    requires n == LineLength(stream)
    ensures StartsLine(stream, k) <==> (k == 0 && stream != "") || (k >= n && StartsLine(stream[n..], k - n))
  {
  }

  lemma DotLineAfter(stream: string, n: nat, k: nat)
    requires n == LineLength(stream)
    ensures DotLineAt(stream, k) <==> (k == 0 && DotLineAt(stream, 0)) || (k >= n && DotLineAt(stream[n..], k - n))
  {
    StartsLineAfter(stream, n, k);
    if stream != "" && n <= k < |stream| { assert stream[n..][k - n..] == stream[k..]; }
  }

  lemma DotLineFirst(stream: string)
    requires stream != ""
    ensures DotLineAt(stream, 0) <==> StripCrlf(FirstLine(stream)) == "."
  {
    assert stream[0..] == stream;
  }

  ghost predicate HasDotLine(stream: string) { exists k :: DotLineAt(stream, k) }

  lemma HasDotLineUnfold(stream: string)
    requires stream != ""
    ensures HasDotLine(stream) <==> StripCrlf(FirstLine(stream)) == "." || HasDotLine(stream[LineLength(stream)..])
  {
    var n := LineLength(stream);
    DotLineFirst(stream);
    if k :| DotLineAt(stream, k) { DotLineAfter(stream, n, k); }
    if k :| DotLineAt(stream[n..], k) { DotLineAfter(stream, n, k + n); }
  }

  /** In general a stream is refused exactly when no line of it is a bare dot. */
  lemma {:induction false} RefusedIffUnterminated(stream: string)
    ensures ReadMultiline(stream).Err? <==> forall k :: !DotLineAt(stream, k)
    ensures ReadMultiline(stream).Err? ==> ReadMultiline(stream).error == ConnectionClosed
    decreases |stream|
  {
    if stream == "" {
    } else {
      RefusedIffUnterminated(stream[LineLength(stream)..]);
      HasDotLineUnfold(stream);
      ReadUnfold(stream);
    }
  }

  lemma ReadUnfold(stream: string)
    requires stream != ""
    ensures var line, rest := StripCrlf(FirstLine(stream)), stream[LineLength(stream)..];
            ReadMultiline(stream)
              == if line == "." then Ok(Response("", rest)) else Prepend(Unstuffed(line), ReadMultiline(rest))
  {
  }

  // ---------------------------------------------------------------- listings

  datatype MessageRef = MessageRef(number: nat, uid: string, size: Option<nat>)

  type UidlEntry = (nat, string)

  function ParseUidlLine(line: string): Result<UidlEntry, Error> {
    var parts := Words(line);
    if parts == [] then Err(MissingNumber)
    else
      match ParseNumber(parts[0], U32_MAX)
      case None => Err(InvalidNumber)
      case Some(number) => if |parts| < 2 then Err(MissingUid) else Ok((number, parts[1]))
  }

  function ParseListLine(line: string): Result<(nat, nat), Error> {
    var parts := Words(line);
    if parts == [] then Err(MissingNumber)
    else
      match ParseNumber(parts[0], U32_MAX)
      case None => Err(InvalidNumber)
      case Some(number) =>
        if |parts| < 2 then Err(MissingSize)
        else
          match ParseNumber(parts[1], U64_MAX)
          case None => Err(InvalidSize)
          case Some(size) => Ok((number, size))
  }

  /** The first bad line decides. */
  function UidlEntries(lines: seq<string>): Result<seq<UidlEntry>, Error> {
    if lines == [] then Ok([])
    else
      var n := |lines| - 1;
      match UidlEntries(lines[..n])
      case Err(e) => Err(e)
      case Ok(entries) =>
        match ParseUidlLine(lines[n])
        case Err(e) => Err(e)
        case Ok(entry) => Ok(entries + [entry])
  }

  /** A later size of the same number replaces an earlier one. */
  function ListSizes(lines: seq<string>): Result<map<nat, nat>, Error> {
    if lines == [] then Ok(map[])
    else
      var n := |lines| - 1;
      match ListSizes(lines[..n])
      case Err(e) => Err(e)
      case Ok(sizes) =>
        match ParseListLine(lines[n])
        case Err(e) => Err(e)
        case Ok(entry) => Ok(sizes[entry.0 := entry.1])
  }

  lemma {:induction false} ErrorsStay(lines: seq<string>, n: nat)
    requires n <= |lines|
    ensures UidlEntries(lines[..n]).Err? ==> UidlEntries(lines) == UidlEntries(lines[..n])
    ensures ListSizes(lines[..n]).Err? ==> ListSizes(lines) == ListSizes(lines[..n])
  {
    if n == |lines| {
      assert lines[..n] == lines;
    } else {
      ErrorsStay(lines[..|lines| - 1], n);
      assert lines[..|lines| - 1][..n] == lines[..n];
    }
  }

  lemma NextUidl(lines: seq<string>, i: nat, entries: seq<UidlEntry>)
    requires i < |lines| && UidlEntries(lines[..i]) == Ok(entries)
    ensures match ParseUidlLine(lines[i])
            case Err(e) => UidlEntries(lines) == Err(e)
            case Ok(entry) => UidlEntries(lines[..i + 1]) == Ok(entries + [entry])
  {
    assert lines[..i + 1][..i] == lines[..i];
    ErrorsStay(lines, i + 1);
  }

  lemma NextSize(lines: seq<string>, i: nat, sizes: map<nat, nat>)
    requires i < |lines| && ListSizes(lines[..i]) == Ok(sizes)
    ensures match ParseListLine(lines[i])
            case Err(e) => ListSizes(lines) == Err(e)
            case Ok(entry) => ListSizes(lines[..i + 1]) == Ok(sizes[entry.0 := entry.1])
  {
    assert lines[..i + 1][..i] == lines[..i];
    ErrorsStay(lines, i + 1);
  }

  method ParseUidlLines(text: string) returns (r: Result<seq<UidlEntry>, Error>)
    ensures r == UidlEntries(Lines(text))
  {
    var lines := Lines(text);
    var entries: seq<UidlEntry> := [];
    for i := 0 to |lines|
      invariant UidlEntries(lines[..i]) == Ok(entries)
    {
      NextUidl(lines, i, entries);
      var entry := ParseUidlLine(lines[i]);
      if entry.Err? {
        return Err(entry.error);
      }
      entries := entries + [entry.value];
    }
    assert lines[..|lines|] == lines;
    r := Ok(entries);
  }

  method ParseListLines(text: string) returns (r: Result<map<nat, nat>, Error>)
    ensures r == ListSizes(Lines(text))
  {
    var lines := Lines(text);
    var sizes: map<nat, nat> := map[];
    for i := 0 to |lines|
      invariant ListSizes(lines[..i]) == Ok(sizes)
    {
      NextSize(lines, i, sizes);
      var entry := ParseListLine(lines[i]);
      if entry.Err? {
        return Err(entry.error);
      }
      sizes := sizes[entry.value.0 := entry.value.1];
    }
    assert lines[..|lines|] == lines;
    r := Ok(sizes);
  }

  function Number(m: MessageRef): int { m.number }

  function Joined(entry: UidlEntry, sizes: map<nat, nat>): MessageRef {
    MessageRef(entry.0, entry.1, if entry.0 in sizes then Some(sizes[entry.0]) else None)
  }

  function JoinedAll(entries: seq<UidlEntry>, sizes: map<nat, nat>): seq<MessageRef> {
    seq(|entries|, i requires 0 <= i < |entries| => Joined(entries[i], sizes))
  }

  /** The message list from the texts of the two replies. */
  function MessageList(uidl: string, list: string): Result<seq<MessageRef>, Error> {
    match UidlEntries(Lines(uidl))
    case Err(e) => Err(e)
    case Ok(entries) =>
      match ListSizes(Lines(list))
      case Err(e) => Err(e)
      case Ok(sizes) => Ok(SortByKey(JoinedAll(entries, sizes), Number))
  }

  // ---------------------------------------------------------------- printing listings

  ghost predicate Listable(m: MessageRef) {
    m.number <= U32_MAX && IsWord(m.uid) && m.size.Some? && m.size.value <= U64_MAX
  }

  function UidlLine(m: MessageRef): string { Decimal(m.number) + " " + m.uid }

  function ListLine(m: MessageRef): string { Decimal(m.number) + " " + Decimal(m.size.UnwrapOr(0)) }

  function UidlLines(mailbox: seq<MessageRef>): seq<string> {
    seq(|mailbox|, i requires 0 <= i < |mailbox| => UidlLine(mailbox[i]))
  }

  function ListLines(mailbox: seq<MessageRef>): seq<string> {
    seq(|mailbox|, i requires 0 <= i < |mailbox| => ListLine(mailbox[i]))
  }

  lemma WordIsLineFeedFree(word: string)
    requires IsWord(word)
    ensures IsLineFeedFree(word)
  {
    forall i | 0 <= i < |word| ensures word[i] != '\n' {
      assert !IsWhitespace(word[i]);
    }
  }

  lemma TwoWords(a: string, b: string)
    requires IsWord(a) && IsWord(b)
    ensures Words(a + " " + b) == [a, b] && IsLineFeedFree(a + " " + b)
  {
    WordsOfMore(a, b);
    WordsOfOne(b);
    WordIsLineFeedFree(a);
    WordIsLineFeedFree(b);
  }

  lemma PrintedLinesParse(m: MessageRef)
    requires Listable(m)
    ensures ParseUidlLine(UidlLine(m)) == Ok((m.number, m.uid)) && IsLineFeedFree(UidlLine(m))
    ensures ParseListLine(ListLine(m)) == Ok((m.number, m.size.value)) && IsLineFeedFree(ListLine(m))
  {
    DecimalRoundTrip(m.number, U32_MAX);
    DecimalRoundTrip(m.size.value, U64_MAX);
    TwoWords(Decimal(m.number), m.uid);
    TwoWords(Decimal(m.number), Decimal(m.size.value));
  }

  lemma {:induction false} LinesOfTerminated(lines: seq<string>)
    requires forall line :: line in lines ==> IsLineFeedFree(line)
    ensures Lines(Terminated(lines)) == lines
  {
    if lines == [] {
    } else {
      LinesOfTerminated(lines[1..]);
      LinesOfMore(lines[0], Terminated(lines[1..]));
      assert Terminated(lines) == lines[0] + "\r\n" + Terminated(lines[1..]);
      assert lines == [lines[0]] + lines[1..];
    }
  }

  function Entries(mailbox: seq<MessageRef>): seq<UidlEntry> {
    seq(|mailbox|, i requires 0 <= i < |mailbox| => (mailbox[i].number, mailbox[i].uid))
  }

  lemma UidlStep(lines: seq<string>, entries: seq<UidlEntry>, m: MessageRef)
    requires Listable(m) && UidlEntries(lines) == Ok(entries)
    ensures UidlEntries(lines + [UidlLine(m)]) == Ok(entries + [(m.number, m.uid)])
  {
    PrintedLinesParse(m);
    assert (lines + [UidlLine(m)])[..|lines|] == lines;
  }

  lemma ListStep(lines: seq<string>, sizes: map<nat, nat>, m: MessageRef)
    requires Listable(m) && ListSizes(lines) == Ok(sizes)
    ensures ListSizes(lines + [ListLine(m)]) == Ok(sizes[m.number := m.size.value])
  {
    PrintedLinesParse(m);
    assert (lines + [ListLine(m)])[..|lines|] == lines;
  }

  lemma PrintedSnoc(mailbox: seq<MessageRef>, m: MessageRef)
    ensures UidlLines(mailbox + [m]) == UidlLines(mailbox) + [UidlLine(m)]
    ensures ListLines(mailbox + [m]) == ListLines(mailbox) + [ListLine(m)]
    ensures Entries(mailbox + [m]) == Entries(mailbox) + [(m.number, m.uid)]
  {
  }

  ghost predicate UidlParses(mailbox: seq<MessageRef>) {
    UidlEntries(UidlLines(mailbox)) == Ok(Entries(mailbox))
  }

  lemma UidlParsesSnoc(mailbox: seq<MessageRef>, m: MessageRef)
    requires UidlParses(mailbox) && Listable(m)
    ensures UidlParses(mailbox + [m])
  {
    PrintedSnoc(mailbox, m);
    UidlStep(UidlLines(mailbox), Entries(mailbox), m);
  }

  ghost predicate AllListable(mailbox: seq<MessageRef>) { forall m :: m in mailbox ==> Listable(m) }

  lemma ListablePrefix(mailbox: seq<MessageRef>)
    requires AllListable(mailbox) && mailbox != []
    ensures var n := |mailbox| - 1;
            AllListable(mailbox[..n]) && Listable(mailbox[n]) && mailbox == mailbox[..n] + [mailbox[n]]
  {
    assert mailbox[|mailbox| - 1] in mailbox;
  }

  lemma NoUidls()
    ensures UidlParses([])
  {
    assert UidlLines([]) == [] && Entries([]) == [];
  }

  lemma {:induction false} UidlRoundTrip(mailbox: seq<MessageRef>)
    requires AllListable(mailbox)
    ensures UidlParses(mailbox)
  {
    if mailbox == [] {
      NoUidls();
    } else {
      ListablePrefix(mailbox);
      UidlRoundTrip(mailbox[..|mailbox| - 1]);
      UidlParsesSnoc(mailbox[..|mailbox| - 1], mailbox[|mailbox| - 1]);
    }
  }

  ghost predicate DistinctNumbers(mailbox: seq<MessageRef>) {
    forall i, j :: 0 <= i < j < |mailbox| ==> mailbox[i].number != mailbox[j].number
  }

  ghost predicate SizeListed(sizes: map<nat, nat>, m: MessageRef) {
    m.number in sizes && Some(sizes[m.number]) == m.size
  }

  ghost predicate AllListed(r: Result<map<nat, nat>, Error>, mailbox: seq<MessageRef>) {
    r.Ok? && forall m :: m in mailbox ==> SizeListed(r.value, m)
  }

  lemma {:induction false} ListRoundTrip(mailbox: seq<MessageRef>)
    requires (forall m :: m in mailbox ==> Listable(m)) && DistinctNumbers(mailbox)
    ensures AllListed(ListSizes(ListLines(mailbox)), mailbox)
  {
    if mailbox == [] {
      assert ListLines(mailbox) == [];
    } else {
      var n := |mailbox| - 1;
      ListRoundTrip(mailbox[..n]);
      var before := ListSizes(ListLines(mailbox[..n])).value;
      ListStep(ListLines(mailbox[..n]), before, mailbox[n]);
      PrintedSnoc(mailbox[..n], mailbox[n]);
      assert mailbox == mailbox[..n] + [mailbox[n]];
      AllListedStep(before, mailbox);
    }
  }

  lemma AllListedStep(before: map<nat, nat>, mailbox: seq<MessageRef>)
    requires mailbox != [] && DistinctNumbers(mailbox) && mailbox[|mailbox| - 1].size.Some?
    requires AllListed(Ok(before), mailbox[..|mailbox| - 1])
    ensures var last := mailbox[|mailbox| - 1];
            AllListed(Ok(before[last.number := last.size.value]), mailbox)
  {
    var n := |mailbox| - 1;
    forall m | m in mailbox ensures SizeListed(before[mailbox[n].number := mailbox[n].size.value], m) {
      var i :| 0 <= i < |mailbox| && mailbox[i] == m;
      if i < n { assert mailbox[..n][i] == m && SizeListed(before, m); }
    }
  }

  lemma PrintedLinesClean(mailbox: seq<MessageRef>)
    requires forall m :: m in mailbox ==> Listable(m)
    ensures forall line :: line in UidlLines(mailbox) || line in ListLines(mailbox) ==> IsLineFeedFree(line)
  {
    forall i | 0 <= i < |mailbox|
      ensures IsLineFeedFree(UidlLines(mailbox)[i]) && IsLineFeedFree(ListLines(mailbox)[i])
    {
      PrintedLinesParse(mailbox[i]);
    }
  }

  /** Main result: a mailbox printed in UIDL and LIST replies, each in any order, is listed
      back with every number, UID and size, sorted by number. */
  lemma ListingRoundTrip(mailbox: seq<MessageRef>, listed: seq<MessageRef>)
    requires multiset(mailbox) == multiset(listed)
    requires (forall m :: m in mailbox ==> Listable(m)) && DistinctNumbers(listed)
    ensures var r := MessageList(Terminated(UidlLines(mailbox)), Terminated(ListLines(listed)));
            r.Ok? && multiset(r.value) == multiset(mailbox) && SortedBy(r.value, Number)
  {
    forall m ensures m in mailbox <==> m in listed { InSameMultiset(mailbox, listed, m); }
    PrintedLinesClean(mailbox);
    PrintedLinesClean(listed);
    LinesOfTerminated(UidlLines(mailbox));
    LinesOfTerminated(ListLines(listed));
    UidlRoundTrip(mailbox);
    ListRoundTrip(listed);
    var sizes := ListSizes(ListLines(listed)).value;
    assert JoinedAll(Entries(mailbox), sizes) == mailbox by {
      forall i | 0 <= i < |mailbox| ensures Joined(Entries(mailbox)[i], sizes) == mailbox[i] {
        assert mailbox[i] in mailbox && mailbox[i] in listed && SizeListed(sizes, mailbox[i]);
      }
    }
    SortByKeySorted(mailbox, Number);
  }

  /** The same over the wire: the replies dot-stuffed and terminated, one after the other. */
  lemma ListingOverTheWire(mailbox: seq<MessageRef>, listed: seq<MessageRef>, after: string)
    requires multiset(mailbox) == multiset(listed)
    requires (forall m :: m in mailbox ==> Listable(m)) && DistinctNumbers(listed)
    ensures var first := ReadMultiline(Sent(UidlLines(mailbox)) + TERMINATOR
                                       + (Sent(ListLines(listed)) + TERMINATOR + after));
            first.Ok? &&
            var second := ReadMultiline(first.value.unread);
            second.Ok? && second.value.unread == after &&
            var r := MessageList(first.value.body, second.value.body);
            r.Ok? && multiset(r.value) == multiset(mailbox) && SortedBy(r.value, Number)
  {
    ListingRoundTrip(mailbox, listed);
    forall m ensures m in mailbox <==> m in listed { InSameMultiset(mailbox, listed, m); }
    PrintedLinesClean(mailbox);
    PrintedLinesClean(listed);
    FramingRoundTrip(UidlLines(mailbox), Sent(ListLines(listed)) + TERMINATOR + after);
    FramingRoundTrip(ListLines(listed), after);
  }
}
