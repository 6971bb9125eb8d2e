// The `Range` and `Content-Range` headers, as the clients print them and the relay parses
// them (sections 14.2 and 14.4 of RFC 9110, in the forms this protocol uses).

module Range {
  import opened Base
  import opened Text

  datatype DownloadPosition = At(position: nat) | Eof

  const RANGE_UNIT := "unsupported range unit"
  const MALFORMED_RANGE := "malformed range"
  const MALFORMED_CONTENT_RANGE := "malformed content range"
  const MULTIPLE_RANGES := "multiple ranges unimplemented"
  const SUFFIX_RANGES := "suffix ranges unimplemented"
  const PARTIAL_RANGES := "partial ranges unimplemented"

  /** Header bytes are text when each is visible ASCII, a space or a tab. */
  predicate IsText(value: string) {
    forall i :: 0 <= i < |value| ==> ' ' <= value[i] <= '~' || value[i] == '\t'
  }

  function DownloadPositionOf(header: Option<string>): Result<DownloadPosition, string> {
    if header.None? then Success(At(0))
    else if !IsText(header.value) then Failure(MALFORMED_RANGE)
    else match StripPrefix(header.value, "bytes=")
      case None => Failure(RANGE_UNIT)
      case Some(specs) =>
        match SplitOnce(specs, '-')
        case None => Failure(MALFORMED_RANGE)
        case Some(parts) => RangePosition(parts.0, parts.1)
  }

  /** The position in `<start>-<end>`. */
  function RangePosition(first: string, last: string): Result<DownloadPosition, string> {
    var start, end := Trim(first), Trim(last);
    if ',' in last then Failure(MULTIPLE_RANGES)
    else if start == "" then (if end == "0" then Success(Eof) else Failure(SUFFIX_RANGES))
    else if end != "" then Failure(PARTIAL_RANGES)
    else match ParseU64(start)
      case None => Failure(MALFORMED_RANGE)
      case Some(position) => Success(At(position))
  }

  function UploadPositionOf(header: Option<string>): Result<nat, string> {
    if header.None? then Success(0)
    else if !IsText(header.value) then Failure(MALFORMED_CONTENT_RANGE)
    else match StripPrefix(header.value, "bytes ")
      case None => Failure(RANGE_UNIT)
      case Some(rest) =>
        match RSplitOnce(Trim(rest), '/')
        case None => Failure(MALFORMED_CONTENT_RANGE)
        case Some(parts) => SpecPosition(parts.0, parts.1)
  }

  /** The position in `<range>/<size>`. The sum wraps as `u64` addition does in a release
      build. */
  function SpecPosition(range: string, size: string): Result<nat, string> {
    if range == "*" then
      (match ParseU64(size)
       case None => Failure(MALFORMED_CONTENT_RANGE)
       case Some(position) => Success(position))
    else match SplitOnce(range, '-')
      case None => Failure(MALFORMED_CONTENT_RANGE)
      case Some(ends) =>
        var start, end, total := ParseU64(ends.0), ParseU64(ends.1), ParseU64(size);
        if start.None? || end.None? || total.None? then Failure(MALFORMED_CONTENT_RANGE)
        else if total.value != (end.value + 1) % U64_LIMIT then Failure(PARTIAL_RANGES)
        else Success(start.value)
  }

  /** The header of a request for everything from `offset` on. */
  function PrintRange(offset: nat): string {
    "bytes=" + (Decimal(offset) + ['-'])
  }

  const EOF_RANGE := "bytes=-0"

  /** `bytes <range>/<size>`. */
  function ContentRange(range: string, size: nat): string {
    "bytes " + (range + ['/'] + Decimal(size))
  }

  /** `<start>-<end>`. */
  function Span(start: nat, end: nat): string {
    Decimal(start) + ['-'] + Decimal(end)
  }

  /** What an uploader sends to say where its content belongs. */
  function PrintContentRange(position: nat, size: nat): string
    requires size >= 1
  {
    if position < size then ContentRange(Span(position, size - 1), size) else ContentRange("*", size)
  }

  lemma DigitsAreText(n: nat)
    ensures IsText(Decimal(n))
    ensures '-' !in Decimal(n) && '/' !in Decimal(n) && ',' !in Decimal(n) && '*' !in Decimal(n)
    ensures Decimal(n) != [] && Trim(Decimal(n)) == Decimal(n)
  {
    DecimalDenotes(n);
    var s := Decimal(n);
    assert forall i :: 0 <= i < |s| ==> IsDigit(s[i]);
    TrimNothing(s);
  }

  lemma TextJoins(a: string, b: string)
    requires IsText(a) && IsText(b)
    ensures IsText(a + b)
  {
  }

  lemma RangeSplits(start: string, end: string)
    requires '-' !in start && IsText(start) && IsText(end)
    ensures DownloadPositionOf(Some("bytes=" + (start + ['-'] + end))) == RangePosition(start, end)
  {
    hide RangePosition;
    var specs := start + ['-'] + end;
    TextJoins(start + ['-'], end);
    TextJoins("bytes=", specs);
    assert ("bytes=" + specs)[6..] == specs;
    SplitOnceFirst(start, '-', end);
  }

  /** The relay reads exactly the offset a downloader printed. */
  lemma RangeRoundTrips(offset: nat)
    requires offset < U64_LIMIT
    ensures DownloadPositionOf(Some(PrintRange(offset))) == Success(At(offset))
  {
    hide DownloadPositionOf;
    DigitsAreText(offset);
    assert Decimal(offset) + ['-'] + [] == Decimal(offset) + ['-'];
    RangeSplits(Decimal(offset), []);
    TrimNothing([]);
    ParseDecimal(offset);
  }

  lemma EofRoundTrips()
    ensures DownloadPositionOf(Some(EOF_RANGE)) == Success(Eof)
  {
    hide DownloadPositionOf;
    assert EOF_RANGE == "bytes=" + ([] + ['-'] + "0");
    RangeSplits([], "0");
    TrimNothing("0");
  }

  lemma SpanReads(start: nat, end: nat, size: nat)
    requires start < U64_LIMIT && end < U64_LIMIT && size < U64_LIMIT
    ensures SpecPosition(Span(start, end), Decimal(size))
         == if size == (end + 1) % U64_LIMIT then Success(start) else Failure(PARTIAL_RANGES)
  {
    DigitsAreText(start);
    SplitOnceFirst(Decimal(start), '-', Decimal(end));
    ParseDecimal(start);
    ParseDecimal(end);
    ParseDecimal(size);
    assert Span(start, end)[|Decimal(start)|] == '-';
  }

  lemma ContentRangeSplits(range: string, size: nat)
    requires range != [] && !IsSpace(range[0]) && IsText(range)
    ensures UploadPositionOf(Some(ContentRange(range, size))) == SpecPosition(range, Decimal(size))
  {
    DigitsAreText(size);
    DecimalDenotes(size);
    var rest := range + ['/'] + Decimal(size);
    var header := ContentRange(range, size);
    TextJoins(range + ['/'], Decimal(size));
    TextJoins("bytes ", rest);
    assert header[6..] == rest && "bytes " <= header;
    assert rest[|rest| - 1] == Decimal(size)[|Decimal(size)| - 1];
    TrimNothing(rest);
    RSplitOnceLast(range, '/', Decimal(size));
  }

  /** What the relay makes of any three numbers in a content range: it checks the last byte
      against the size, modulo `u64` wrap-around, and nothing else. */
  lemma ContentRangeReads(start: nat, end: nat, size: nat)
    requires start < U64_LIMIT && end < U64_LIMIT && size < U64_LIMIT
    ensures UploadPositionOf(Some(ContentRange(Span(start, end), size)))
         == if size == (end + 1) % U64_LIMIT then Success(start) else Failure(PARTIAL_RANGES)
  {
    DigitsAreText(start);
    DigitsAreText(end);
    DecimalDenotes(start);
    TextJoins(Decimal(start) + ['-'], Decimal(end));
    assert Span(start, end)[0] == Decimal(start)[0];
    ContentRangeSplits(Span(start, end), size);
    SpanReads(start, end, size);
  }

  /** The relay reads exactly the position an uploader printed, up to and including the end. */
  lemma ContentRangeRoundTrips(position: nat, size: nat)
    requires 1 <= size < U64_LIMIT && position <= size
    ensures UploadPositionOf(Some(PrintContentRange(position, size))) == Success(position)
  {
    hide UploadPositionOf;
    if position < size {
      ContentRangeReads(position, size - 1, size);
    } else {
      ContentRangeSplits("*", size);
      ParseDecimal(size);
    }
  }

  /** A header in two parts around its first dash. */
  predicate Ranges(header: string, first: string, last: string) {
    header == "bytes=" + (first + ['-'] + last) && IsText(header) && '-' !in first && ',' !in last
  }

  /** Exactly these headers ask for a place in the content, and for this place: one dash after
      `bytes=`, a number that fits in front of it, and nothing but blanks behind. */
  lemma RangeIsRead(header: string, position: nat)
    ensures DownloadPositionOf(Some(header)) == Success(At(position)) <==>
      exists first: string, last: string ::
        Ranges(header, first, last) && Trim(last) == "" && ParseU64(Trim(first)) == Some(position)
  {
    RangeIsSplit(header);
    forall first: string, last: string | Ranges(header, first, last)
      ensures DownloadPositionOf(Some(header)) == RangePosition(first, last)
    {
      RangeIsJoined(header, first, last);
    }
  }

  /** And exactly these say that the downloader has everything. */
  lemma EofIsRead(header: string)
    ensures DownloadPositionOf(Some(header)) == Success(Eof) <==>
      exists first: string, last: string :: Ranges(header, first, last) && Trim(first) == "" && Trim(last) == "0"
  {
    RangeIsSplit(header);
    forall first: string, last: string | Ranges(header, first, last)
      ensures DownloadPositionOf(Some(header)) == RangePosition(first, last)
    {
      RangeIsJoined(header, first, last);
    }
  }

  lemma RangeIsJoined(header: string, first: string, last: string)
    requires Ranges(header, first, last)
    ensures DownloadPositionOf(Some(header)) == RangePosition(first, last)
  {
    hide RangePosition;
    assert header[6..] == first + ['-'] + last;
    SplitOnceFirst(first, '-', last);
  }

  /** What is accepted at all is in two parts. */
  lemma RangeIsSplit(header: string)
    ensures DownloadPositionOf(Some(header)).Success? ==>
      exists first: string, last: string ::
        Ranges(header, first, last) && DownloadPositionOf(Some(header)) == RangePosition(first, last)
  {
    if DownloadPositionOf(Some(header)).Success? {
      var specs := header[6..];
      SplitOnceCuts(specs, '-');
      var parts := SplitOnce(specs, '-').value;
      assert header == "bytes=" + specs;
      assert Ranges(header, parts.0, parts.1);
    }
  }

  /** A content range in two parts around its last slash. */
  predicate Specifies(header: string, range: string, size: string) {
    && IsText(header) && "bytes " <= header
    && Trim(header[6..]) == range + ['/'] + size && '/' !in size
  }

  /** The numbers of a `<start>-<end>` whose end is the last byte of the size. */
  predicate SpansTo(range: string, start: string, end: string, size: string, position: nat) {
    && range == start + ['-'] + end && '-' !in start
    && ParseU64(start) == Some(position) && ParseU64(end).Some?
    && ParseU64(size) == Some((ParseU64(end).value + 1) % U64_LIMIT)
  }

  /** Exactly these content ranges are accepted, for this position: a star and a size, or two
      numbers of which the second is the last byte. Without the header it is the start. */
  lemma ContentRangeIsRead(header: string, position: nat)
    ensures UploadPositionOf(None) == Success(0)
    ensures UploadPositionOf(Some(header)) == Success(position) <==>
      exists range: string, size: string ::
        Specifies(header, range, size) && SpecPosition(range, size) == Success(position)
  {
    hide SpecPosition;
    if IsText(header) && "bytes " <= header {
      RSplitOnceCuts(Trim(header[6..]), '/');
      forall range: string, size: string | Specifies(header, range, size)
        ensures RSplitOnce(Trim(header[6..]), '/') == Some((range, size))
      {
        RSplitOnceLast(range, '/', size);
      }
      if UploadPositionOf(Some(header)) == Success(position) {
        var parts := RSplitOnce(Trim(header[6..]), '/').value;
        assert Specifies(header, parts.0, parts.1);
      }
    }
  }

  lemma SpecIsRead(range: string, size: string, position: nat)
    ensures SpecPosition(range, size) == Success(position) <==>
      || (range == "*" && ParseU64(size) == Some(position))
      || exists start: string, end: string :: SpansTo(range, start, end, size, position)
  {
    hide ParseU64, SplitOnce;
    SplitOnceCuts(range, '-');
    forall start: string, end: string | SpansTo(range, start, end, size, position)
      ensures SplitOnce(range, '-') == Some((start, end))
    {
      SplitOnceFirst(start, '-', end);
      assert range[|start|] == '-';
    }
    if SpecPosition(range, size) == Success(position) && range != "*" {
      var parts := SplitOnce(range, '-').value;
      assert SpansTo(range, parts.0, parts.1, size, position);
    }
  }

  /** Three numbers are read as a position within the size exactly when the last byte matches
      the size and the start, which the relay does not check, is no larger; `bytes 7-4/5` shows
      what becomes of others. */
  lemma AcceptedStartMayExceedSize(start: nat, end: nat, size: nat)
    requires start < U64_LIMIT && end < U64_LIMIT && size < U64_LIMIT
    ensures
      var read := UploadPositionOf(Some(ContentRange(Span(start, end), size)));
      (read.Success? && read.value <= size) <==> (size == (end + 1) % U64_LIMIT && start <= size)
    ensures UploadPositionOf(Some(ContentRange(Span(7, 4), 5))) == Success(7)
  {
    hide UploadPositionOf;
    ContentRangeReads(start, end, size);
    ContentRangeReads(7, 4, 5);
  }
}
