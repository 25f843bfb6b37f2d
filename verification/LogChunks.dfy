/** A result sent through the device log: cut into numbered lines by the suite and put together again
    by the supervisor. */
module LogChunks {
  import opened Options
  import opened Decimals
  import opened Seqs

  const ChunkSize := 2000

  /** The least number that is not a safe integer. */
  const Unsafe: nat := 0x20_0000_0000_0000

  /** What introduces a chunk within a line; its last character occurs only there. */
  type Marker = m: string |
    m != [] && '\n' !in m && forall i :: 0 <= i < |m| - 1 ==> m[i] != m[|m| - 1]
    witness "="

  const ResultMarker: Marker := "BETTER_NATIVE_RESULT_V1_CHUNK="

  // ----- Sending -----

  function Total(json: string): nat {
    var n := (|json| + ChunkSize - 1) / ChunkSize;
    if n < 1 then 1 else n
  }

  /** A slice stops at the end of the string. */
  function Chunk(json: string, index: nat): string {
    json[Min(index * ChunkSize, |json|)..Min((index + 1) * ChunkSize, |json|)]
  }

  function Line(m: Marker, runId: string, index: nat, total: nat, chunk: string): string {
    m + Header(runId, index, total, |chunk|) + chunk
  }

  function Header(runId: string, index: nat, total: nat, length: nat): string {
    runId + ":" + Decimal(index) + "/" + Decimal(total) + ":" + Decimal(length) + ":"
  }

  function ChunkLines(m: Marker, runId: string, json: string): seq<string> {
    seq(Total(json), i requires 0 <= i < Total(json) => Line(m, runId, i, Total(json), Chunk(json, i)))
  }

  // ----- Receiving -----

  predicate IsAlphanumeric(c: char) {
    'A' <= c <= 'Z' || 'a' <= c <= 'z' || IsDigit(c)
  }

  predicate IsIdChar(c: char) {
    IsAlphanumeric(c) || c == '.' || c == '_' || c == '-'
  }

  predicate ValidId(runId: string) {
    runId != [] && IsAlphanumeric(runId[0]) && forall i :: 0 <= i < |runId| ==> IsIdChar(runId[i])
  }

  /** How many characters at the start satisfy `p`. */
  function Span(s: string, p: char -> bool): (n: nat)
    ensures n <= |s| && (forall i :: 0 <= i < n ==> p(s[i])) && (n < |s| ==> !p(s[n]))
  {
    if s == [] || !p(s[0]) then 0 else 1 + Span(s[1..], p)
  }

  datatype Token = Token(text: string, rest: string)

  /** One or more characters of a class that does not contain `stop`, up to `stop`. */
  function Read(s: string, p: char -> bool, stop: char): (r: Option<Token>)
    ensures r.Some? ==> r.value.text != [] && (forall i :: 0 <= i < |r.value.text| ==> p(r.value.text[i]))
    ensures r.Some? ==> s == r.value.text + [stop] + r.value.rest
  {
    var n := Span(s, p);
    if 0 < n < |s| && s[n] == stop then Some(Token(s[..n], s[n + 1..])) else None
  }

  lemma ReadReads(s: string, text: string, p: char -> bool, stop: char, rest: string)
    requires text != [] && (forall i :: 0 <= i < |text| ==> p(text[i])) && !p(stop)
    requires s == text + [stop] + rest
    ensures Read(s, p, stop) == Some(Token(text, rest))
  {
    assert s[|text|] == stop;
    assert forall i :: 0 <= i < |text| ==> s[i] == text[i];
    assert Span(s, p) == |text|;
    assert s[..|text|] == text && s[|text| + 1..] == rest;
  }

  /** What follows the first marker of a line. */
  function AfterMarker(m: Marker, line: string): (r: Option<string>)
    ensures r.Some? ==> |r.value| <= |line| && r.value == line[|line| - |r.value|..]
  {
    if m <= line then Some(line[|m|..])
    else if line == [] then None
    else AfterMarker(m, line[1..])
  }

  datatype Piece = Piece(index: nat, total: nat, text: string)

  /** The piece of the run's result that a line carries: `None` for every line that is skipped
      whatever was received before. */
  function Parse(m: Marker, line: string, runId: string): Option<Piece> {
    var encoded := AfterMarker(m, line);
    if encoded.None? then None else ParseHeader(encoded.value, runId)
  }

  function ParseHeader(encoded: string, runId: string): Option<Piece> {
    var id := Read(encoded, IsIdChar, ':');
    if id.None? || !IsAlphanumeric(id.value.text[0]) || id.value.text != runId then None
    else ParseNumbers(id.value.rest)
  }

  function ParseNumbers(s: string): Option<Piece> {
    var index := Read(s, IsDigit, '/');
    if index.None? then None else
    var total := Read(index.value.rest, IsDigit, ':');
    if total.None? then None else
    var length := Read(total.value.rest, IsDigit, ':');
    if length.None? then None else
    Take(Value(index.value.text), Value(total.value.text), Value(length.value.text), length.value.rest)
  }

  function Take(index: nat, total: nat, length: nat, rest: string): Option<Piece> {
    if index >= Unsafe || total >= Unsafe || length >= Unsafe || total < 1 || index >= total then None
    else if length > |rest| then None
    else Some(Piece(index, total, rest[..length]))
  }

  datatype Received = Received(total: Option<nat>, texts: map<nat, string>)

  function Receive(r: Received, carried: Option<Piece>): Received {
    match carried
    case None => r
    case Some(piece) =>
      if r.total.Some? && r.total.value != piece.total then r
      else Received(Some(piece.total), r.texts[piece.index := piece.text])
  }

  function ReceiveAll(carried: seq<Option<Piece>>): Received {
    if carried == [] then Received(None, map[])
    else Receive(ReceiveAll(carried[..|carried| - 1]), carried[|carried| - 1])
  }

  function ParseAll(m: Marker, lines: seq<string>, runId: string): seq<Option<Piece>> {
    seq(|lines|, i requires 0 <= i < |lines| => Parse(m, lines[i], runId))
  }

  predicate Complete(r: Received) {
    && r.total.Some? && |r.texts| == r.total.value
    && forall i :: 0 <= i < r.total.value ==> i in r.texts
  }

  function Assemble(r: Received): Option<string> {
    if Complete(r) then Some(Concat(r.texts, r.total.value)) else None
  }

  function Concat(texts: map<nat, string>, n: nat): string
    requires forall i :: 0 <= i < n ==> i in texts
  {
    if n == 0 then [] else Concat(texts, n - 1) + texts[n - 1]
  }

  function Split(s: string): seq<string> {
    if s == [] then [[]]
    else
      var rest := Split(s[1..]);
      if s[0] == '\n' then [[]] + rest
      else if rest == [] then [[s[0]]]
      else [[s[0]] + rest[0]] + rest[1..]
  }

  function Decoded(m: Marker, stdout: string, runId: string): Option<string> {
    Assemble(ReceiveAll(ParseAll(m, Split(stdout), runId)))
  }

  /** The supervisor's loop over the lines. */
  method ResultFromLogChunks(m: Marker, stdout: string, runId: string) returns (result: Option<string>)
    ensures result == Decoded(m, stdout, runId)
  {
    var lines := Split(stdout);
    var total: Option<nat>, texts: map<nat, string> := None, map[];
    for k := 0 to |lines|
      invariant Received(total, texts) == ReceiveAll(ParseAll(m, lines, runId)[..k])
    {
      assert ParseAll(m, lines, runId)[..k + 1][..k] == ParseAll(m, lines, runId)[..k];
      var piece := Parse(m, lines[k], runId);
      if piece.None? || (total.Some? && total.value != piece.value.total) {
        continue;
      }
      total := Some(piece.value.total);
      texts := texts[piece.value.index := piece.value.text];
    }
    assert ParseAll(m, lines, runId)[..|lines|] == ParseAll(m, lines, runId);
    if total.None? || |texts| != total.value {
      return None;
    }
    var joined := "";
    for i := 0 to total.value
      invariant forall j :: 0 <= j < i ==> j in texts
      invariant joined == Concat(texts, i)
    {
      if i !in texts {
        return None;
      }
      joined := joined + texts[i];
    }
    result := Some(joined);
  }

  // ----- Chunks -----

  /** The chunks cover the string: the first `n` of them give back its start. */
  lemma {:induction false} ChunksCover(json: string, texts: map<nat, string>, n: nat)
    requires forall i :: 0 <= i < n ==> i in texts && texts[i] == Chunk(json, i)
    ensures Concat(texts, n) == json[..Min(n * ChunkSize, |json|)]
  {
    if n > 0 {
      ChunksCover(json, texts, n - 1);
    }
  }

  /** Every chunk holds at most 2000 characters, none is empty unless the result is, and together they
      reach its end. */
  lemma ChunkSizes(json: string, index: nat)
    requires index < Total(json)
    ensures |Chunk(json, index)| <= 2_000 && (json != [] ==> |Chunk(json, index)| > 0)
    ensures Total(json) * 2_000 >= |json|
  {
  }

  // ----- Lines -----

  predicate OneLine(s: string) {
    '\n' !in s
  }

  lemma NoMarkerAcross(m: Marker, prefix: string, tail: string)
    requires prefix != [] && !(m <= prefix) && m <= tail
    ensures !(m <= prefix + tail)
  {
    var line, last := prefix + tail, |m| - 1;
    if |prefix| > last {
      assert line[..|m|] == prefix[..|m|];
    } else {
      assert line[last] == tail[last - |prefix|] == m[last - |prefix|];
    }
  }

  lemma {:induction false} MarkerIsFound(m: Marker, prefix: string, tail: string)
    requires AfterMarker(m, prefix) == None && m <= tail
    ensures AfterMarker(m, prefix + tail) == Some(tail[|m|..])
  {
    if prefix == [] {
      assert prefix + tail == tail;
    } else {
      NoMarkerAcross(m, prefix, tail);
      MarkerIsFound(m, prefix[1..], tail);
      assert (prefix + tail)[1..] == prefix[1..] + tail;
    }
  }

  lemma NumberIsRead(s: string, n: nat, stop: char, rest: string)
    requires s == Decimal(n) + [stop] + rest && !IsDigit(stop)
    ensures Read(s, IsDigit, stop) == Some(Token(Decimal(n), rest))
    ensures AllDigits(Decimal(n)) && Value(Decimal(n)) == n
  {
    DecimalRoundTrip(n);
    ReadReads(s, Decimal(n), IsDigit, stop, rest);
  }

  lemma NumbersAreParsed(s: string, index: nat, total: nat, length: nat, rest: string)
    requires s == Decimal(index) + "/" + (Decimal(total) + ":" + (Decimal(length) + ":" + rest))
    ensures ParseNumbers(s) == Take(index, total, length, rest)
  {
    var afterTotal := Decimal(length) + ":" + rest;
    var afterIndex := Decimal(total) + ":" + afterTotal;
    NumberIsRead(s, index, '/', afterIndex);
    NumberIsRead(afterIndex, total, ':', afterTotal);
    NumberIsRead(afterTotal, length, ':', rest);
  }

  lemma HeaderIsParsed(runId: string, index: nat, total: nat, length: nat, rest: string)
    requires ValidId(runId)
    ensures ParseHeader(Header(runId, index, total, length) + rest, runId) == Take(index, total, length, rest)
  {
    var numbers := Decimal(index) + "/" + (Decimal(total) + ":" + (Decimal(length) + ":" + rest));
    var encoded := Header(runId, index, total, length) + rest;
    assert encoded == runId + ":" + numbers;
    ReadReads(encoded, runId, IsIdChar, ':', numbers);
    NumbersAreParsed(numbers, index, total, length, rest);
  }

  /** A line of a chunk is read back as it was written, whatever the log puts around it. */
  lemma LineIsParsed(m: Marker, runId: string, index: nat, total: nat, chunk: string, prefix: string, suffix: string)
    requires ValidId(runId) && AfterMarker(m, prefix) == None
    ensures Parse(m, prefix + Line(m, runId, index, total, chunk) + suffix, runId)
         == Take(index, total, |chunk|, chunk + suffix)
  {
    var header := Header(runId, index, total, |chunk|);
    Regroup(prefix, m, header, chunk, suffix);
    MarkerIsFound(m, prefix, m + (header + (chunk + suffix)));
    HeaderIsParsed(runId, index, total, |chunk|, chunk + suffix);
  }

  lemma Regroup(a: string, b: string, c: string, d: string, e: string)
    ensures a + (b + c + d) + e == a + (b + (c + (d + e)))
  {
  }

  /** A run id that is no path segment is never read. */
  lemma InvalidIdIsSkipped(m: Marker, line: string, runId: string)
    requires !ValidId(runId)
    ensures Parse(m, line, runId) == None
  {
  }

  lemma PieceIsPartOfLine(m: Marker, line: string, runId: string)
    requires OneLine(line) && Parse(m, line, runId).Some?
    ensures OneLine(Parse(m, line, runId).value.text)
  {
    var encoded := AfterMarker(m, line).value;
    assert OneLine(encoded);
    var id := Read(encoded, IsIdChar, ':').value;
    assert forall c :: c in id.rest ==> c in encoded;
    var index := Read(id.rest, IsDigit, '/').value;
    assert forall c :: c in index.rest ==> c in id.rest;
    var total := Read(index.rest, IsDigit, ':').value;
    assert forall c :: c in total.rest ==> c in index.rest;
    var length := Read(total.rest, IsDigit, ':').value;
    assert forall c :: c in length.rest ==> c in total.rest;
  }

  // ----- What a line says -----

  predicate IsNumber(s: string) {
    s != [] && AllDigits(s)
  }

  predicate MarkerAt(m: Marker, s: string, i: nat) {
    i <= |s| && m <= s[i..]
  }

  ghost predicate NoMarkerIn(m: Marker, s: string) {
    forall i: nat :: !MarkerAt(m, s, i)
  }

  function Spelled(runId: string, index: string, total: string, length: string, rest: string): string {
    runId + ":" + (index + "/" + (total + ":" + (length + ":" + rest)))
  }

  /** The line reads, from its first marker on: this run id, index, total and length, and then `rest`. */
  ghost predicate Spells(
    m: Marker, line: string, runId: string,
    prefix: string, index: string, total: string, length: string, rest: string)
  {
    && NoMarkerIn(m, prefix) && IsNumber(index) && IsNumber(total) && IsNumber(length)
    && line == prefix + (m + Spelled(runId, index, total, length, rest))
  }

  /** The line carries piece `p` of the run: its numbers are safe and in range, and at least as much text
      follows as it announces. */
  ghost predicate Carries(m: Marker, line: string, runId: string, p: Piece) {
    && ValidId(runId)
    && exists prefix, index, total, length, rest ::
         && Spells(m, line, runId, prefix, index, total, length, rest)
         && Value(index) < Value(total) < Unsafe && Value(length) < Unsafe && Value(length) <= |rest|
         && p == Piece(Value(index), Value(total), rest[..Value(length)])
  }

  lemma {:induction false} NotFoundIsNotIn(m: Marker, s: string)
    ensures AfterMarker(m, s) == None <==> NoMarkerIn(m, s)
  {
    assert s[0..] == s;
    if m <= s {
      assert MarkerAt(m, s, 0);
    } else if s != [] {
      NotFoundIsNotIn(m, s[1..]);
      forall i: nat ensures MarkerAt(m, s, i) <==> i > 0 && MarkerAt(m, s[1..], i - 1) {
        assert 0 < i <= |s| ==> s[1..][i - 1..] == s[i..];
      }
      assert forall i: nat :: MarkerAt(m, s[1..], i) ==> MarkerAt(m, s, i + 1);
    } else {
      forall i: nat ensures !MarkerAt(m, s, i) {
      }
    }
  }

  /** The text before the first marker. */
  lemma {:induction false} FoundAfterPrefix(m: Marker, line: string) returns (prefix: string, tail: string)
    requires AfterMarker(m, line).Some?
    ensures NoMarkerIn(m, prefix) && line == prefix + tail && m <= tail
    ensures AfterMarker(m, line) == Some(tail[|m|..])
  {
    if m <= line {
      prefix, tail := [], line;
      NotFoundIsNotIn(m, []);
    } else {
      var rest;
      rest, tail := FoundAfterPrefix(m, line[1..]);
      prefix := [line[0]] + rest;
      NotFoundIsNotIn(m, rest);
      ConsIsFree(m, line[0], rest, tail);
      NotFoundIsNotIn(m, prefix);
    }
  }

  lemma ConsIsFree(m: Marker, c: char, rest: string, tail: string)
    requires AfterMarker(m, rest) == None && !(m <= [c] + (rest + tail))
    ensures AfterMarker(m, [c] + rest) == None && [c] + (rest + tail) == ([c] + rest) + tail
  {
    var prefix, line := [c] + rest, [c] + (rest + tail);
    assert prefix[1..] == rest;
    assert line == prefix + tail;
    if |m| <= |prefix| {
      assert prefix[..|m|] == line[..|m|];
    }
  }

  lemma SpelledNumbers(s: string, index: string, total: string, length: string, rest: string)
    requires IsNumber(index) && IsNumber(total) && IsNumber(length)
    requires s == index + "/" + (total + ":" + (length + ":" + rest))
    ensures ParseNumbers(s) == Take(Value(index), Value(total), Value(length), rest)
  {
    ReadReads(s, index, IsDigit, '/', total + ":" + (length + ":" + rest));
    ReadReads(total + ":" + (length + ":" + rest), total, IsDigit, ':', length + ":" + rest);
    ReadReads(length + ":" + rest, length, IsDigit, ':', rest);
  }

  lemma SpelledHeader(runId: string, asked: string, index: string, total: string, length: string, rest: string)
    requires ValidId(runId) && IsNumber(index) && IsNumber(total) && IsNumber(length)
    ensures ParseHeader(Spelled(runId, index, total, length, rest), asked)
         == if asked == runId then Take(Value(index), Value(total), Value(length), rest) else None
  {
    var numbers := index + "/" + (total + ":" + (length + ":" + rest));
    ReadReads(runId + ":" + numbers, runId, IsIdChar, ':', numbers);
    SpelledNumbers(numbers, index, total, length, rest);
  }

  /** A line that spells a header with some valid run id is read for that run and for no other. */
  lemma SpelledLine(
    m: Marker, line: string, runId: string, asked: string,
    prefix: string, index: string, total: string, length: string, rest: string)
    requires ValidId(runId) && Spells(m, line, runId, prefix, index, total, length, rest)
    ensures Parse(m, line, asked)
         == if asked == runId then Take(Value(index), Value(total), Value(length), rest) else None
  {
    var header := Spelled(runId, index, total, length, rest);
    NotFoundIsNotIn(m, prefix);
    MarkerIsFound(m, prefix, m + header);
    assert (m + header)[|m|..] == header;
    SpelledHeader(runId, asked, index, total, length, rest);
  }

  lemma ParsedNumbersAreSpelled(s: string) returns (index: string, total: string, length: string, rest: string)
    requires ParseNumbers(s).Some?
    ensures IsNumber(index) && IsNumber(total) && IsNumber(length)
    ensures s == index + "/" + (total + ":" + (length + ":" + rest))
    ensures ParseNumbers(s) == Take(Value(index), Value(total), Value(length), rest)
  {
    var a := Read(s, IsDigit, '/').value;
    var b := Read(a.rest, IsDigit, ':').value;
    var c := Read(b.rest, IsDigit, ':').value;
    index, total, length, rest := a.text, b.text, c.text, c.rest;
  }

  lemma ParsedHeaderIsSpelled(encoded: string, runId: string)
    returns (index: string, total: string, length: string, rest: string)
    requires ParseHeader(encoded, runId).Some?
    ensures ValidId(runId) && IsNumber(index) && IsNumber(total) && IsNumber(length)
    ensures encoded == Spelled(runId, index, total, length, rest)
    ensures ParseHeader(encoded, runId) == Take(Value(index), Value(total), Value(length), rest)
  {
    var id := Read(encoded, IsIdChar, ':').value;
    index, total, length, rest := ParsedNumbersAreSpelled(id.rest);
  }

  lemma EncodedSpells(m: Marker, prefix: string, encoded: string, runId: string)
    returns (index: string, total: string, length: string, rest: string)
    requires NoMarkerIn(m, prefix) && ParseHeader(encoded, runId).Some?
    ensures ValidId(runId) && Spells(m, prefix + (m + encoded), runId, prefix, index, total, length, rest)
    ensures ParseHeader(encoded, runId) == Take(Value(index), Value(total), Value(length), rest)
  {
    index, total, length, rest := ParsedHeaderIsSpelled(encoded, runId);
  }

  lemma MarkedLine(m: Marker, line: string) returns (prefix: string, encoded: string)
    requires AfterMarker(m, line).Some?
    ensures NoMarkerIn(m, prefix) && line == prefix + (m + encoded) && AfterMarker(m, line) == Some(encoded)
  {
    var tail;
    prefix, tail := FoundAfterPrefix(m, line);
    encoded := tail[|m|..];
    assert tail == m + encoded;
  }

  lemma ParsedLineCarries(m: Marker, line: string, runId: string)
    requires Parse(m, line, runId).Some?
    ensures Carries(m, line, runId, Parse(m, line, runId).value)
  {
    var prefix, encoded := MarkedLine(m, line);
    var index, total, length, rest := EncodedSpells(m, prefix, encoded, runId);
  }

  /** The supervisor takes from a line exactly the piece of the requested run that it carries. */
  lemma ParsedExactlyWhenCarried(m: Marker, line: string, runId: string, p: Piece)
    ensures Parse(m, line, runId) == Some(p) <==> Carries(m, line, runId, p)
  {
    if Parse(m, line, runId) == Some(p) {
      ParsedLineCarries(m, line, runId);
    }
    if Carries(m, line, runId, p) {
      var prefix, index, total, length, rest :|
        && Spells(m, line, runId, prefix, index, total, length, rest)
        && Value(index) < Value(total) < Unsafe && Value(length) < Unsafe && Value(length) <= |rest|
        && p == Piece(Value(index), Value(total), rest[..Value(length)]);
      SpelledLine(m, line, runId, runId, prefix, index, total, length, rest);
    }
  }

  // ----- Other runs -----

  lemma HeaderSpells(runId: string, index: nat, total: nat, length: nat, rest: string)
    ensures Header(runId, index, total, length) + rest
         == Spelled(runId, Decimal(index), Decimal(total), Decimal(length), rest)
  {
  }

  lemma LineSpells(
    m: Marker, runId: string, index: nat, total: nat, chunk: string, prefix: string, suffix: string)
    requires AfterMarker(m, prefix) == None
    ensures Spells(m, prefix + Line(m, runId, index, total, chunk) + suffix, runId,
              prefix, Decimal(index), Decimal(total), Decimal(|chunk|), chunk + suffix)
  {
    DecimalRoundTrip(index);
    DecimalRoundTrip(total);
    DecimalRoundTrip(|chunk|);
    NotFoundIsNotIn(m, prefix);
    Regroup(prefix, m, Header(runId, index, total, |chunk|), chunk, suffix);
    HeaderSpells(runId, index, total, |chunk|, chunk + suffix);
  }

  /** A chunk of run `b`, whatever the log puts around it, is no evidence for run `a`. */
  lemma OtherRunIsSkipped(
    m: Marker, a: string, b: string, index: nat, total: nat, chunk: string, prefix: string, suffix: string)
    requires ValidId(b) && a != b && AfterMarker(m, prefix) == None
    ensures Parse(m, prefix + Line(m, b, index, total, chunk) + suffix, a) == None
  {
    LineSpells(m, b, index, total, chunk, prefix, suffix);
    SpelledLine(m, prefix + Line(m, b, index, total, chunk) + suffix, b, a,
      prefix, Decimal(index), Decimal(total), Decimal(|chunk|), chunk + suffix);
  }

  /** A line of another run's chunk. */
  ghost predicate IsForeign(m: Marker, line: string, runId: string) {
    exists b, index, total, chunk, prefix, suffix ::
      && ValidId(b) && b != runId && AfterMarker(m, prefix) == None
      && line == prefix + Line(m, b, index, total, chunk) + suffix
  }

  lemma {:induction false} SkippedLinesDoNotMatter(m: Marker, lines: seq<string>, runId: string, keep: string -> bool)
    requires forall line :: line in lines && !keep(line) ==> Parse(m, line, runId) == None
    ensures ReceiveAll(ParseAll(m, lines, runId)) == ReceiveAll(ParseAll(m, Filter(lines, keep), runId))
  {
    if lines != [] {
      var front, last := lines[..|lines| - 1], lines[|lines| - 1];
      var kept := Filter(front, keep);
      assert lines == front + [last];
      SkippedLinesDoNotMatter(m, front, runId, keep);
      FilterPush(front, last, keep);
      assert ParseAll(m, lines, runId)[..|front|] == ParseAll(m, front, runId);
      if keep(last) {
        assert ParseAll(m, kept + [last], runId)[..|kept|] == ParseAll(m, kept, runId);
      } else {
        assert kept + [] == kept && last in lines;
        assert ParseAll(m, lines, runId)[|front|] == None;
      }
    }
  }

  /** The chunks of other runs, wherever they stand in a log, do not change what is decoded for a run; and
      alone they give nothing. */
  lemma OtherRunsDoNotMatter(m: Marker, lines: seq<string>, runId: string, own: seq<string>)
    requires lines != [] && forall line :: line in lines ==> OneLine(line)
    requires own == Filter(lines, line => !IsForeign(m, line, runId))
    ensures Decoded(m, JoinLines(lines), runId) == if own == [] then None else Decoded(m, JoinLines(own), runId)
  {
    var keep := line => !IsForeign(m, line, runId);
    forall line | line in lines && !keep(line) ensures Parse(m, line, runId) == None {
      var b, index, total, chunk, prefix, suffix :|
        && ValidId(b) && b != runId && AfterMarker(m, prefix) == None
        && line == prefix + Line(m, b, index, total, chunk) + suffix;
      OtherRunIsSkipped(m, runId, b, index, total, chunk, prefix, suffix);
    }
    SkippedLinesDoNotMatter(m, lines, runId, keep);
    FilterIn(lines, keep);
    SplitUndoesJoin(lines);
    if own != [] {
      SplitUndoesJoin(own);
    }
  }

  // ----- Logs -----

  /** The total of the first piece counts. */
  ghost predicate IsTotal(carried: seq<Option<Piece>>, total: nat) {
    exists k :: 0 <= k < |carried| && carried[k].Some? && carried[k].value.total == total
                && forall j :: 0 <= j < k ==> carried[j] == None
  }

  ghost predicate Counts(c: Option<Piece>, index: nat, total: nat) {
    c.Some? && c.value.index == index && c.value.total == total
  }

  /** And of the pieces with that total, the latest for an index. */
  ghost predicate IsText(carried: seq<Option<Piece>>, index: nat, total: nat, text: string) {
    exists k :: 0 <= k < |carried| && Counts(carried[k], index, total) && carried[k].value.text == text
                && forall j :: k < j < |carried| ==> !Counts(carried[j], index, total)
  }

  lemma IsTotalPush(front: seq<Option<Piece>>, last: Option<Piece>, total: nat)
    ensures IsTotal(front + [last], total) <==>
              IsTotal(front, total)
              || ((forall j :: 0 <= j < |front| ==> front[j] == None) && last.Some? && last.value.total == total)
  {
    var all := front + [last];
    assert all[|front|] == last && forall j :: 0 <= j < |front| ==> all[j] == front[j];
    if IsTotal(all, total) {
      var k :| 0 <= k < |all| && all[k].Some? && all[k].value.total == total
               && forall j :: 0 <= j < k ==> all[j] == None;
      if k < |front| {
        assert front[k].Some? && forall j :: 0 <= j < k ==> front[j] == None;
      } else {
        assert forall j :: 0 <= j < |front| ==> front[j] == all[j] == None;
      }
    }
    if IsTotal(front, total) {
      var k :| 0 <= k < |front| && front[k].Some? && front[k].value.total == total
               && forall j :: 0 <= j < k ==> front[j] == None;
      assert all[k] == front[k];
    }
  }

  lemma IsTextPush(front: seq<Option<Piece>>, last: Option<Piece>, index: nat, total: nat, text: string)
    ensures IsText(front + [last], index, total, text) <==>
              if Counts(last, index, total) then last.value.text == text else IsText(front, index, total, text)
  {
    var all := front + [last];
    assert all[|front|] == last && forall j :: 0 <= j < |front| ==> all[j] == front[j];
    if IsText(all, index, total, text) {
      var k :| 0 <= k < |all| && Counts(all[k], index, total) && all[k].value.text == text
               && forall j :: k < j < |all| ==> !Counts(all[j], index, total);
      if k < |front| {
        assert !Counts(all[|front|], index, total) && Counts(front[k], index, total);
        assert forall j :: k < j < |front| ==> !Counts(all[j], index, total) && all[j] == front[j];
      }
    }
    if !Counts(last, index, total) && IsText(front, index, total, text) {
      var k :| 0 <= k < |front| && Counts(front[k], index, total) && front[k].value.text == text
               && forall j :: k < j < |front| ==> !Counts(front[j], index, total);
      assert all[k] == front[k];
    }
  }

  /** What has been received after any pieces at all: pieces that contradict the first one's total do not
      count. */
  lemma {:induction false} ReceivedIs(carried: seq<Option<Piece>>)
    ensures var r := ReceiveAll(carried);
            && (r.total == None <==> forall j :: 0 <= j < |carried| ==> carried[j] == None)
            && (forall t: nat :: r.total == Some(t) <==> IsTotal(carried, t))
            && (r.total == None ==> r.texts == map[])
            && (r.total.Some? ==> forall i: nat, text ::
                  (i in r.texts && r.texts[i] == text) <==> IsText(carried, i, r.total.value, text))
  {
    if carried != [] {
      var front, last := carried[..|carried| - 1], carried[|carried| - 1];
      assert carried == front + [last];
      ReceivedIs(front);
      var before, after := ReceiveAll(front), ReceiveAll(carried);
      forall t: nat ensures after.total == Some(t) <==> IsTotal(carried, t) {
        IsTotalPush(front, last, t);
      }
      if after.total.Some? {
        var t := after.total.value;
        forall i: nat, text ensures (i in after.texts && after.texts[i] == text) <==> IsText(carried, i, t, text) {
          IsTextPush(front, last, i, t, text);
        }
      }
    }
  }


  /** Nothing but chunks of `json`. */
  ghost predicate OnlyChunks(carried: seq<Option<Piece>>, json: string) {
    forall p :: Some(p) in carried ==>
      p.index < Total(json) && p == Piece(p.index, Total(json), Chunk(json, p.index))
  }

  ghost predicate Arrived(carried: seq<Option<Piece>>, index: nat) {
    exists p :: Some(p) in carried && p.index == index
  }

  ghost predicate ChunksOf(r: Received, json: string) {
    && (r.total == None <==> r.texts == map[]) && (r.total.Some? ==> r.total.value == Total(json))
    && (forall i :: i in r.texts ==> i < Total(json) && r.texts[i] == Chunk(json, i))
  }

  lemma {:induction false} ReceivedAreChunks(carried: seq<Option<Piece>>, json: string)
    requires OnlyChunks(carried, json)
    ensures ChunksOf(ReceiveAll(carried), json)
    ensures forall i :: i in ReceiveAll(carried).texts <==> Arrived(carried, i)
  {
    if carried != [] {
      var front, last := carried[..|carried| - 1], carried[|carried| - 1];
      assert forall c :: c in carried <==> c in front || c == last;
      ReceivedAreChunks(front, json);
      forall i: nat ensures Arrived(carried, i) <==> Arrived(front, i) || (last.Some? && last.value.index == i) {
        assert last.Some? ==> Some(last.value) in carried;
      }
    }
  }

  lemma {:induction false} AllBelow(keys: set<nat>, n: nat)
    requires forall i :: i in keys ==> i < n
    ensures |keys| <= n
    ensures |keys| == n <==> forall i :: 0 <= i < n ==> i in keys
  {
    if n == 0 {
      assert keys == {};
    } else {
      AllBelow(keys - {n - 1}, n - 1);
      assert keys == if n - 1 in keys then (keys - {n - 1}) + {n - 1} else keys - {n - 1};
    }
  }

  ghost predicate AllArrived(carried: seq<Option<Piece>>, total: nat) {
    forall i :: 0 <= i < total ==> Arrived(carried, i)
  }

  /** Chunks may arrive in any order, more than once and between other lines: the result is restored
      exactly when every chunk has arrived, and nothing is returned before. */
  lemma RestoredExactlyWhenComplete(carried: seq<Option<Piece>>, json: string)
    requires OnlyChunks(carried, json)
    ensures Assemble(ReceiveAll(carried)) == if AllArrived(carried, Total(json)) then Some(json) else None
  {
    ReceivedAreChunks(carried, json);
    ChunksAssemble(ReceiveAll(carried), json);
  }

  lemma ChunksAssemble(r: Received, json: string)
    requires ChunksOf(r, json)
    ensures Assemble(r) == if forall i :: 0 <= i < Total(json) ==> i in r.texts then Some(json) else None
  {
    AllBelow(r.texts.Keys, Total(json));
    assert |r.texts| == |r.texts.Keys|;
    if forall i :: 0 <= i < Total(json) ==> i in r.texts {
      assert 0 in r.texts;
      ChunksCover(json, r.texts, Total(json));
      ChunkSizes(json, 0);
      assert json[..|json|] == json;
    }
  }

  /** Nothing that is decoded has a line break in it. */
  lemma {:induction false} ReceivedAreOneLine(carried: seq<Option<Piece>>)
    requires forall p :: Some(p) in carried ==> OneLine(p.text)
    ensures forall i :: i in ReceiveAll(carried).texts ==> OneLine(ReceiveAll(carried).texts[i])
  {
    if carried != [] {
      var front, last := carried[..|carried| - 1], carried[|carried| - 1];
      assert forall c :: c in carried <==> c in front || c == last;
      ReceivedAreOneLine(front);
      assert last.Some? ==> Some(last.value) in carried;
    }
  }

  lemma {:induction false} ConcatIsOneLine(texts: map<nat, string>, n: nat)
    requires forall i :: 0 <= i < n ==> i in texts && OneLine(texts[i])
    ensures OneLine(Concat(texts, n))
  {
    if n > 0 {
      ConcatIsOneLine(texts, n - 1);
    }
  }

  // ----- The round trip -----

  function JoinLines(lines: seq<string>): string {
    if lines == [] then []
    else if |lines| == 1 then lines[0]
    else lines[0] + "\n" + JoinLines(lines[1..])
  }

  lemma {:induction false} SplitIsOneLine(s: string)
    ensures |Split(s)| > 0 && forall line :: line in Split(s) ==> OneLine(line)
  {
    if s != [] {
      SplitIsOneLine(s[1..]);
      var rest := Split(s[1..]);
      assert OneLine(rest[0]) && forall line :: line in rest[1..] ==> line in rest;
      assert s[0] != '\n' ==> OneLine([s[0]] + rest[0]);
    }
  }

  lemma {:induction false} SplitFirst(line: string, rest: string)
    requires OneLine(line)
    ensures Split(line) == [line]
    ensures Split(line + "\n" + rest) == [line] + Split(rest)
  {
    var s := line + "\n" + rest;
    if line == [] {
      assert s[1..] == rest;
    } else {
      SplitFirst(line[1..], rest);
      assert s[1..] == line[1..] + "\n" + rest;
      assert [line[0]] + line[1..] == line;
    }
  }

  lemma {:induction false} SplitUndoesJoin(lines: seq<string>)
    requires lines != [] && forall line :: line in lines ==> OneLine(line)
    ensures Split(JoinLines(lines)) == lines
  {
    SplitFirst(lines[0], JoinLines(lines[1..]));
    if |lines| > 1 {
      SplitUndoesJoin(lines[1..]);
    }
  }

  lemma OneLineConcat(a: string, b: string)
    requires OneLine(a) && OneLine(b)
    ensures OneLine(a + b)
  {
  }

  lemma HeaderIsOneLine(runId: string, index: nat, total: nat, length: nat)
    requires ValidId(runId)
    ensures OneLine(Header(runId, index, total, length))
  {
    DecimalRoundTrip(index);
    DecimalRoundTrip(total);
    DecimalRoundTrip(length);
    assert OneLine(runId);
    var a := runId + ":" + Decimal(index);
    assert OneLine(a);
    var b := a + "/" + Decimal(total);
    assert OneLine(b);
  }

  lemma ChunkIsOneLine(m: Marker, runId: string, json: string, index: nat)
    requires ValidId(runId) && OneLine(json) && index < Total(json)
    ensures OneLine(Line(m, runId, index, Total(json), Chunk(json, index)))
  {
    var chunk := Chunk(json, index);
    var header := Header(runId, index, Total(json), |chunk|);
    HeaderIsOneLine(runId, index, Total(json), |chunk|);
    OneLineConcat(m, header);
    OneLineConcat(m + header, chunk);
  }

  lemma PlainLineIsParsed(m: Marker, runId: string, index: nat, total: nat, chunk: string)
    requires ValidId(runId)
    ensures Parse(m, Line(m, runId, index, total, chunk), runId) == Take(index, total, |chunk|, chunk)
  {
    var header := Header(runId, index, total, |chunk|);
    assert Line(m, runId, index, total, chunk) == m + (header + chunk);
    HeaderIsParsed(runId, index, total, |chunk|, chunk);
  }

  lemma ChunkIsTaken(json: string, index: nat, suffix: string)
    requires index < Total(json)
    ensures Take(index, Total(json), |Chunk(json, index)|, Chunk(json, index) + suffix)
         == if Total(json) < Unsafe then Some(Piece(index, Total(json), Chunk(json, index))) else None
  {
    ChunkSizes(json, index);
    assert (Chunk(json, index) + suffix)[..|Chunk(json, index)|] == Chunk(json, index);
  }

  lemma ChunkIsParsed(m: Marker, runId: string, json: string, index: nat)
    requires ValidId(runId) && index < Total(json)
    ensures Parse(m, Line(m, runId, index, Total(json), Chunk(json, index)), runId)
         == if Total(json) < Unsafe then Some(Piece(index, Total(json), Chunk(json, index))) else None
  {
    PlainLineIsParsed(m, runId, index, Total(json), Chunk(json, index));
    ChunkIsTaken(json, index, []);
    assert Chunk(json, index) + [] == Chunk(json, index);
  }

  lemma {:induction false} NothingReceived(carried: seq<Option<Piece>>)
    requires forall i :: 0 <= i < |carried| ==> carried[i] == None
    ensures ReceiveAll(carried) == Received(None, map[])
  {
    if carried != [] {
      NothingReceived(carried[..|carried| - 1]);
    }
  }

  /** Sent through a log and received again, a result is restored if and only if the run id is a path
      segment, the result has no line break and its chunk count is a safe integer. */
  lemma RoundTrip(m: Marker, runId: string, json: string)
    ensures Decoded(m, JoinLines(ChunkLines(m, runId, json)), runId) == Some(json)
       <==> ValidId(runId) && OneLine(json) && Total(json) < Unsafe
  {
    var lines := ChunkLines(m, runId, json);
    var received := Split(JoinLines(lines));
    if !ValidId(runId) {
      forall i | 0 <= i < |received| ensures Parse(m, received[i], runId) == None {
        InvalidIdIsSkipped(m, received[i], runId);
      }
      NothingReceived(ParseAll(m, received, runId));
    } else if !OneLine(json) {
      DecodedIsOneLine(m, JoinLines(lines), runId);
    } else {
      UndisturbedRoundTrip(m, runId, json);
    }
  }

  /** What the lines of `json` carry. */
  function Pieces(json: string): seq<Option<Piece>> {
    seq(Total(json), i requires 0 <= i < Total(json) =>
      if Total(json) < Unsafe then Some(Piece(i, Total(json), Chunk(json, i))) else None)
  }

  lemma LinesCarryPieces(m: Marker, runId: string, json: string)
    requires ValidId(runId)
    ensures ParseAll(m, ChunkLines(m, runId, json), runId) == Pieces(json)
  {
    forall i | 0 <= i < Total(json) ensures Parse(m, ChunkLines(m, runId, json)[i], runId) == Pieces(json)[i] {
      ChunkIsParsed(m, runId, json, i);
    }
  }

  lemma PiecesAssemble(json: string)
    ensures Assemble(ReceiveAll(Pieces(json))) == if Total(json) < Unsafe then Some(json) else None
  {
    var carried := Pieces(json);
    if Total(json) < Unsafe {
      forall i | 0 <= i < Total(json) ensures Arrived(carried, i) {
        assert carried[i] == Some(Piece(i, Total(json), Chunk(json, i)));
      }
      RestoredExactlyWhenComplete(carried, json);
    } else {
      NothingReceived(carried);
    }
  }

  /** The same with the marker that the suite uses. */
  lemma ResultRoundTrip(runId: string, json: string)
    ensures Decoded(ResultMarker, JoinLines(ChunkLines(ResultMarker, runId, json)), runId) == Some(json)
       <==> ValidId(runId) && OneLine(json) && Total(json) < Unsafe
  {
    RoundTrip(ResultMarker, runId, json);
  }

  /** A line break is lost with the rest of its chunk. */
  lemma LineBreakIsNotRestored(runId: string)
    ensures Decoded(ResultMarker, JoinLines(ChunkLines(ResultMarker, runId, "\n")), runId) != Some("\n")
  {
    ResultRoundTrip(runId, "\n");
    assert !OneLine("\n");
  }

  lemma UndisturbedRoundTrip(m: Marker, runId: string, json: string)
    requires ValidId(runId) && OneLine(json)
    ensures Decoded(m, JoinLines(ChunkLines(m, runId, json)), runId)
         == if Total(json) < Unsafe then Some(json) else None
  {
    var lines := ChunkLines(m, runId, json);
    forall line | line in lines ensures OneLine(line) {
      var i :| 0 <= i < Total(json) && lines[i] == line;
      ChunkIsOneLine(m, runId, json, i);
    }
    SplitUndoesJoin(lines);
    LinesCarryPieces(m, runId, json);
    PiecesAssemble(json);
  }

  lemma DecodedIsOneLine(m: Marker, stdout: string, runId: string)
    ensures Decoded(m, stdout, runId).Some? ==> OneLine(Decoded(m, stdout, runId).value)
  {
    var lines := Split(stdout);
    var r := ReceiveAll(ParseAll(m, lines, runId));
    SplitIsOneLine(stdout);
    forall p | Some(p) in ParseAll(m, lines, runId) ensures OneLine(p.text) {
      var k :| 0 <= k < |lines| && Parse(m, lines[k], runId) == Some(p);
      PieceIsPartOfLine(m, lines[k], runId);
    }
    ReceivedAreOneLine(ParseAll(m, lines, runId));
    if Complete(r) {
      ConcatIsOneLine(r.texts, r.total.value);
    }
  }

  /** A line of the log: something else, or a chunk with text before and after it. */
  datatype Logged = Other(text: string) | Sent(index: nat, prefix: string, suffix: string)

  function Text(m: Marker, l: Logged, runId: string, json: string): string {
    match l
    case Other(text) => text
    case Sent(index, prefix, suffix) => prefix + Line(m, runId, index, Total(json), Chunk(json, index)) + suffix
  }

  ghost predicate Plausible(m: Marker, l: Logged, runId: string, json: string) {
    && OneLine(Text(m, l, runId, json))
    && match l
       case Other(text) => forall p :: !Carries(m, text, runId, p)
       case Sent(index, prefix, suffix) => index < Total(json) && AfterMarker(m, prefix) == None
  }

  function Texts(m: Marker, log: seq<Logged>, runId: string, json: string): seq<string> {
    seq(|log|, i requires 0 <= i < |log| => Text(m, log[i], runId, json))
  }

  ghost predicate WasSent(log: seq<Logged>, index: nat) {
    exists l :: l in log && l.Sent? && l.index == index
  }

  /** What a line of the log carries. */
  function Carried(l: Logged, json: string): Option<Piece> {
    if l.Sent? then Some(Piece(l.index, Total(json), Chunk(json, l.index))) else None
  }

  function AllCarried(log: seq<Logged>, json: string): seq<Option<Piece>> {
    seq(|log|, i requires 0 <= i < |log| => Carried(log[i], json))
  }

  lemma SentArrives(log: seq<Logged>, json: string, index: nat)
    ensures Arrived(AllCarried(log, json), index) <==> WasSent(log, index)
  {
    var carried := AllCarried(log, json);
    if Arrived(carried, index) {
      var p :| Some(p) in carried && p.index == index;
      var k :| 0 <= k < |log| && carried[k] == Some(p);
      assert log[k] in log;
    }
    if WasSent(log, index) {
      var l :| l in log && l.Sent? && l.index == index;
      var k :| 0 <= k < |log| && log[k] == l;
      assert carried[k] == Carried(l, json);
    }
  }

  /** The round trip through a real log: chunks in any order and number, between other output, with
      text around them. */
  lemma LogRoundTrip(m: Marker, log: seq<Logged>, runId: string, json: string)
    requires ValidId(runId) && Total(json) < Unsafe && log != []
    requires forall l :: l in log ==> Plausible(m, l, runId, json)
    ensures Decoded(m, JoinLines(Texts(m, log, runId, json)), runId)
         == if forall i: nat :: i < Total(json) ==> WasSent(log, i) then Some(json) else None
  {
    var lines, carried := Texts(m, log, runId, json), AllCarried(log, json);
    forall k | 0 <= k < |log| ensures OneLine(lines[k]) && Parse(m, lines[k], runId) == carried[k] {
      LoggedIsParsed(m, log[k], runId, json);
    }
    SplitUndoesJoin(lines);
    assert ParseAll(m, lines, runId) == carried;
    forall p | Some(p) in carried
      ensures p.index < Total(json) && p == Piece(p.index, Total(json), Chunk(json, p.index))
    {
      var k :| 0 <= k < |log| && Carried(log[k], json) == Some(p);
      assert Plausible(m, log[k], runId, json);
    }
    forall i: nat ensures Arrived(carried, i) <==> WasSent(log, i) {
      SentArrives(log, json, i);
    }
    RestoredExactlyWhenComplete(carried, json);
  }

  lemma LoggedIsParsed(m: Marker, l: Logged, runId: string, json: string)
    requires ValidId(runId) && Total(json) < Unsafe && Plausible(m, l, runId, json)
    ensures Parse(m, Text(m, l, runId, json), runId) == Carried(l, json)
  {
    if l.Sent? {
      var chunk := Chunk(json, l.index);
      LineIsParsed(m, runId, l.index, Total(json), chunk, l.prefix, l.suffix);
      ChunkIsTaken(json, l.index, l.suffix);
    } else if Parse(m, l.text, runId).Some? {
      ParsedLineCarries(m, l.text, runId);
    }
  }
}
