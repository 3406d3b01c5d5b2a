/**
 * The status of a gRPC call: percent-encoded into trailers by the server, written as a text block
 * for gRPC-Web, and read back by the client.
 */
module GrpcStatus {
  import opened Common
  import opened Multimap
  import C = HeadersClass
  import TrailerEncodings

  // ---------------------------------------------------------------- Percent-encoding

  /** The characters that need no encoding (section 2.3 of RFC 3986). */
  predicate Unreserved(b: byte) {
    || 'A' as int <= b <= 'Z' as int || 'a' as int <= b <= 'z' as int || '0' as int <= b <= '9' as int
    || b == '_' as int || b == '.' as int || b == '-' as int || b == '~' as int
  }

  /** Letters, digits, and the hyphen, the full stop, the underscore and the tilde, by their codes. */
  lemma UnreservedCharacters(b: byte)
    ensures Unreserved(b) <==>
      0x41 <= b <= 0x5A || 0x61 <= b <= 0x7A || 0x30 <= b <= 0x39 || b in {0x2D, 0x2E, 0x5F, 0x7E}
  {
  }

  function HexDigit(n: nat): char
    requires n < 16
  {
    "0123456789ABCDEF"[n]
  }

  function HexValue(c: char): Option<nat> {
    if '0' <= c <= '9' then Some(c as int - '0' as int)
    else if 'A' <= c <= 'F' then Some(c as int - 'A' as int + 10)
    else if 'a' <= c <= 'f' then Some(c as int - 'a' as int + 10)
    else None
  }

  function QuoteByte(b: byte): string {
    if Unreserved(b) then [b as char] else ['%', HexDigit(b / 16), HexDigit(b % 16)]
  }

  function Quote(data: bytes): string {
    if data == [] then [] else QuoteByte(data[0]) + Quote(data[1..])
  }

  /** Decodes the escapes of each run of ASCII characters; `run` is what the current one has so far. */
  function UnquoteFrom(s: string, run: bytes, decode: bytes -> string): string {
    if s == [] then decode(run)
    else if s[0] as int >= 128 then decode(run) + [s[0]] + UnquoteFrom(s[1..], [], decode)
    else if s[0] == '%' && |s| >= 3 && HexValue(s[1]).Some? && HexValue(s[2]).Some? then
      UnquoteFrom(s[3..], run + [HexValue(s[1]).value * 16 + HexValue(s[2]).value], decode)
    else UnquoteFrom(s[1..], run + [s[0] as int], decode)
  }

  lemma HexRoundTrip(n: nat)
    requires n < 16
    ensures HexValue(HexDigit(n)) == Some(n)
  {
  }

  lemma UnquoteQuotedByte(b: byte, rest: string, run: bytes, decode: bytes -> string)
    ensures UnquoteFrom(QuoteByte(b) + rest, run, decode) == UnquoteFrom(rest, run + [b], decode)
  {
    var s := QuoteByte(b) + rest;
    if Unreserved(b) {
      assert s[1..] == rest && s[0] != '%';
    } else {
      assert s[3..] == rest;
      HexRoundTrip(b / 16);
      HexRoundTrip(b % 16);
    }
  }

  /** Unquoting undoes quoting, for any bytes. */
  lemma {:induction false} UnquoteQuoted(data: bytes, run: bytes, decode: bytes -> string)
    ensures UnquoteFrom(Quote(data), run, decode) == decode(run + data)
    decreases |data|
  {
    if data == [] {
      assert run + data == run;
    } else {
      UnquoteQuotedByte(data[0], Quote(data[1..]), run, decode);
      UnquoteQuoted(data[1..], run + [data[0]], decode);
      assert run + [data[0]] + data[1..] == run + data;
    }
  }

  /** Escapes are read in either case, and characters that are not ASCII are left between the runs. */
  lemma UnquoteMixed(c: char, decode: bytes -> string)
    requires c as int >= 128
    ensures UnquoteFrom("%c3%A9" + [c], [], decode) == decode([0xC3, 0xA9]) + [c] + decode([])
  {
    var s := "%c3%A9" + [c];
    assert HexValue('c') == Some(12) && HexValue('A') == Some(10);
    assert s[3..] == "%A9" + [c] && s[3..][3..] == [c] && [c][1..] == [];
    assert [] + [0xC3] == [0xC3] && [0xC3] + [0xA9] == [0xC3, 0xA9];
    assert UnquoteFrom([c], [0xC3, 0xA9], decode) == decode([0xC3, 0xA9]) + [c] + UnquoteFrom([], [], decode);
  }

  /** An escape that decoding replaces. */
  predicate EscapeAt(s: string, k: nat) {
    k + 2 < |s| && s[k] == '%' && HexValue(s[k + 1]).Some? && HexValue(s[k + 2]).Some?
  }

  /** ASCII text without an escape is decoded as it is, with any other percent signs in it. */
  lemma {:induction false} UnquotePlain(s: string, run: bytes, decode: bytes -> string)
    requires forall k :: 0 <= k < |s| ==> s[k] < 128 as char && !EscapeAt(s, k)
    ensures UnquoteFrom(s, run, decode) == decode(run + seq(|s|, k requires 0 <= k < |s| => s[k] as int))
    decreases |s|
  {
    var data := seq(|s|, k requires 0 <= k < |s| => s[k] as int);
    if s == [] {
      assert run + data == run;
    } else {
      assert !EscapeAt(s, 0);
      forall k | 0 <= k < |s[1..]|
        ensures s[1..][k] < 128 as char && !EscapeAt(s[1..], k)
      {
        assert s[1..][k] == s[k + 1] && !EscapeAt(s, k + 1);
      }
      UnquotePlain(s[1..], run + [s[0] as int], decode);
      assert run + data == run + [s[0] as int] + seq(|s[1..]|, k requires 0 <= k < |s[1..]| => s[1..][k] as int);
    }
  }

  // ---------------------------------------------------------------- Lines

  /** What `str.strip` removes. */
  predicate IsSpace(c: char) {
    var n := c as int;
    || 9 <= n <= 13 || 28 <= n <= 32 || n == 0x85 || n == 0xA0 || n == 0x1680 || 0x2000 <= n <= 0x200A
    || n == 0x2028 || n == 0x2029 || n == 0x202F || n == 0x205F || n == 0x3000
  }

  /** The white space of Unicode and the four ASCII separators. */
  lemma SpacesAre(c: char)
    ensures IsSpace(c) <==> c as int in {
      9, 10, 11, 12, 13, 28, 29, 30, 31, 32, 0x85, 0xA0, 0x1680, 0x2000, 0x2001, 0x2002, 0x2003, 0x2004,
      0x2005, 0x2006, 0x2007, 0x2008, 0x2009, 0x200A, 0x2028, 0x2029, 0x202F, 0x205F, 0x3000}
  {
  }

  function StripLeft(s: string): string {
    if s != [] && IsSpace(s[0]) then StripLeft(s[1..]) else s
  }

  function StripRight(s: string): string {
    if s != [] && IsSpace(s[|s| - 1]) then StripRight(s[..|s| - 1]) else s
  }

  function Strip(s: string): string {
    StripRight(StripLeft(s))
  }

  predicate Trimmed(s: string) {
    s == [] || (!IsSpace(s[0]) && !IsSpace(s[|s| - 1]))
  }

  lemma {:induction false} StripLeftShortens(s: string)
    ensures |StripLeft(s)| <= |s| && (s != [] && IsSpace(s[0]) ==> |StripLeft(s)| < |s|)
    decreases |s|
  {
    if s != [] && IsSpace(s[0]) {
      StripLeftShortens(s[1..]);
    }
  }

  lemma {:induction false} StripRightShortens(s: string)
    ensures |StripRight(s)| <= |s| && (s != [] && IsSpace(s[|s| - 1]) ==> |StripRight(s)| < |s|)
    decreases |s|
  {
    if s != [] && IsSpace(s[|s| - 1]) {
      StripRightShortens(s[..|s| - 1]);
    }
  }

  lemma StripKeeps(s: string)
    ensures Strip(s) == s <==> Trimmed(s)
  {
    StripLeftShortens(s);
    StripRightShortens(StripLeft(s));
  }

  function FindColon(s: string): (k: nat)
    ensures k <= |s| && (forall j :: 0 <= j < k ==> s[j] != ':') && (k < |s| ==> s[k] == ':')
  {
    if s == [] || s[0] == ':' then 0 else 1 + FindColon(s[1..])
  }

  function FormatLine(item: Item): string {
    item.key + ": " + item.value
  }

  /** The name and the value of a line, or None where unpacking the split fails for want of a colon. */
  function ParseLine(line: string): Option<Item> {
    var k := FindColon(line);
    if k == |line| then None else Some(Item(Strip(line[..k]), Strip(line[k + 1..])))
  }

  predicate CleanItem(item: Item) {
    ':' !in item.key && Trimmed(item.key) && Trimmed(item.value)
  }

  lemma StripSpace(s: string)
    ensures Strip(" " + s) == Strip(s)
  {
    assert (" " + s)[1..] == s;
  }

  lemma FindsColon(line: string, n: nat)
    requires n < |line| && line[n] == ':' && ':' !in line[..n]
    ensures FindColon(line) == n
  {
    assert forall j :: 0 <= j < n ==> line[..n][j] == line[j];
  }

  /** A name without a colon ends at the line's first one, and is trimmed with the value. */
  lemma ParseLineFormatted(item: Item)
    requires ':' !in item.key
    ensures ParseLine(FormatLine(item)) == Some(Item(Strip(item.key), Strip(item.value)))
  {
    var line, n := FormatLine(item), |item.key|;
    assert line[..n] == item.key && line[n + 1..] == " " + item.value;
    FindsColon(line, n);
    StripSpace(item.value);
  }

  lemma StripShortens(s: string)
    ensures |Strip(s)| <= |s|
  {
    StripLeftShortens(s);
    StripRightShortens(StripLeft(s));
  }

  /** A name with a colon in it is cut there. */
  lemma ParseLineCuts(item: Item)
    requires ':' in item.key
    ensures ParseLine(FormatLine(item)).Some? && |ParseLine(FormatLine(item)).value.key| < |item.key|
  {
    var line, n := FormatLine(item), |item.key|;
    var k := FindColon(line);
    var j :| 0 <= j < n && item.key[j] == ':';
    assert line[j] == ':' && k <= j;
    StripShortens(line[..k]);
  }

  /** A line gives back its item exactly when the name has no colon and both parts are trimmed. */
  lemma LineRoundTrip(item: Item)
    ensures ParseLine(FormatLine(item)) == Some(item) <==> CleanItem(item)
  {
    if ':' in item.key {
      ParseLineCuts(item);
    } else {
      ParseLineFormatted(item);
      StripKeeps(item.key);
      StripKeeps(item.value);
    }
  }

  // ---------------------------------------------------------------- The text block

  const CRLF: string := "\r\n"

  function FormatBlock(items: seq<Item>): string {
    if items == [] then [] else FormatLine(items[0]) + CRLF + FormatBlock(items[1..])
  }

  /** Splits at each CRLF; `line` is the current line so far. */
  function SplitFrom(s: string, line: string): seq<string> {
    if s == [] then [line]
    else if |s| > 1 && s[0] == '\r' && s[1] == '\n' then [line] + SplitFrom(s[2..], [])
    else SplitFrom(s[1..], line + [s[0]])
  }

  predicate NoCrlf(s: string) {
    forall k :: 0 <= k < |s| - 1 && s[k] == '\r' ==> s[k + 1] != '\n'
  }

  lemma {:induction false} SplitLine(line: string, rest: string, before: string)
    requires NoCrlf(line)
    ensures SplitFrom(line + CRLF + rest, before) == [before + line] + SplitFrom(rest, [])
    decreases |line|
  {
    var s := line + CRLF + rest;
    if line == [] {
      assert s[2..] == rest;
      assert before + line == before;
    } else {
      assert s[0] == line[0] && s[1] == if |line| > 1 then line[1] else '\r';
      assert s[1..] == line[1..] + CRLF + rest;
      SplitLine(line[1..], rest, before + [line[0]]);
      assert before + [line[0]] + line[1..] == before + line;
    }
  }

  function ConsItem(item: Option<Item>, rest: Option<seq<Item>>): Option<seq<Item>> {
    if item.None? || rest.None? then None else Some([item.value] + rest.value)
  }

  /** The items of the lines that are not empty, or None if one of them has no colon. */
  function ParseLines(lines: seq<string>): Option<seq<Item>> {
    if lines == [] then Some([])
    else if lines[0] == [] then ParseLines(lines[1..])
    else ConsItem(ParseLine(lines[0]), ParseLines(lines[1..]))
  }

  function AfterItems(read: seq<Item>, rest: Option<seq<Item>>): Option<seq<Item>> {
    if rest.None? then None else Some(read + rest.value)
  }

  /** `GRPCWebEnvelopeReader.handle_end_message`, on the text of the block. */
  method ReadBlock(text: string) returns (items: Option<seq<Item>>)
    ensures items == ParseLines(SplitFrom(text, []))
  {
    var lines := SplitFrom(text, []);
    var read: seq<Item> := [];
    ghost var rest := ParseLines(lines);
    assert lines[0..] == lines;
    assert rest.Some? ==> read + rest.value == rest.value;
    for k := 0 to |lines|
      invariant rest == ParseLines(lines[k..])
      invariant ParseLines(lines) == AfterItems(read, rest)
    {
      assert lines[k..][1..] == lines[k + 1..];
      rest := ParseLines(lines[k + 1..]);
      if lines[k] != [] {
        var item := ParseLine(lines[k]);
        if item.None? {
          return None;
        }
        assert rest.Some? ==> read + ([item.value] + rest.value) == (read + [item.value]) + rest.value;
        read := read + [item.value];
      }
    }
    assert rest == Some([]) && read + [] == read;
    return Some(read);
  }

  predicate CleanItems(items: seq<Item>) {
    forall k :: 0 <= k < |items| ==> CleanItem(items[k])
  }

  /** None of the lines of a block is broken by its own text. */
  predicate WholeLines(items: seq<Item>) {
    forall k :: 0 <= k < |items| ==> NoCrlf(FormatLine(items[k]))
  }

  lemma ReadFirstLine(items: seq<Item>)
    requires items != [] && WholeLines(items)
    ensures ParseLines(SplitFrom(FormatBlock(items), []))
         == ConsItem(ParseLine(FormatLine(items[0])), ParseLines(SplitFrom(FormatBlock(items[1..]), [])))
  {
    var line, rest := FormatLine(items[0]), FormatBlock(items[1..]);
    SplitLine(line, rest, []);
    assert [] + line == line;
    var lines := SplitFrom(FormatBlock(items), []);
    assert lines[0] == line && lines[1..] == SplitFrom(rest, []);
  }

  lemma ConsItemIs(item: Option<Item>, rest: Option<seq<Item>>, items: seq<Item>)
    requires items != []
    ensures ConsItem(item, rest) == Some(items) <==> item == Some(items[0]) && rest == Some(items[1..])
  {
    assert items == [items[0]] + items[1..];
    if ConsItem(item, rest) == Some(items) {
      assert items[1..] == rest.value;
    }
  }

  lemma {:induction false} EmptyBlock()
    ensures ParseLines(SplitFrom(FormatBlock([]), [])) == Some([])
  {
    var lines := SplitFrom([], []);
    assert lines == [[]] && lines[1..] == [];
  }

  /** Splitting leaves lines without a CRLF; `line` is the one begun, up to a CR that the rest might complete. */
  lemma {:induction false} SplitLinesAreWhole(s: string, line: string)
    requires NoCrlf(line + s[..if |s| == 0 then 0 else 1])
    ensures forall l :: l in SplitFrom(s, line) ==> NoCrlf(l)
    decreases |s|
  {
    if s == [] {
      assert line + s[..0] == line;
    } else if |s| > 1 && s[0] == '\r' && s[1] == '\n' {
      var begun := line + s[..1];
      assert forall k :: 0 <= k < |line| ==> line[k] == begun[k];
      SplitLinesAreWhole(s[2..], []);
    } else {
      var begun := line + [s[0]];
      assert line + s[..1] == begun;
      if s[1..] != [] {
        assert s[1..][..1] == [s[1]];
        assert begun[|line|] == s[0];
      } else {
        assert begun + s[1..][..0] == begun;
      }
      SplitLinesAreWhole(s[1..], begun);
    }
  }

  lemma {:induction false} StripLeftKeepsNoCrlf(s: string)
    ensures NoCrlf(s) ==> NoCrlf(StripLeft(s))
    decreases |s|
  {
    if s != [] && IsSpace(s[0]) && NoCrlf(s) {
      assert NoCrlf(s[1..]);
      StripLeftKeepsNoCrlf(s[1..]);
    }
  }

  lemma {:induction false} StripRightKeepsNoCrlf(s: string)
    ensures NoCrlf(s) ==> NoCrlf(StripRight(s))
    decreases |s|
  {
    if s != [] && IsSpace(s[|s| - 1]) && NoCrlf(s) {
      assert NoCrlf(s[..|s| - 1]);
      StripRightKeepsNoCrlf(s[..|s| - 1]);
    }
  }

  lemma FormattedIsWhole(item: Item)
    requires NoCrlf(item.key) && NoCrlf(item.value)
    ensures NoCrlf(FormatLine(item))
  {
    var line, n := FormatLine(item), |item.key|;
    forall k | 0 <= k < |line| - 1 && line[k] == '\r'
      ensures line[k + 1] != '\n'
    {
      if k < n - 1 {
        assert line[k] == item.key[k] && line[k + 1] == item.key[k + 1];
      } else if k >= n + 2 {
        assert line[k] == item.value[k - n - 2] && line[k + 1] == item.value[k - n - 1];
      }
    }
  }

  /** An item out of a line without a CRLF would be written to such a line. */
  lemma ParsedIsWhole(line: string)
    requires NoCrlf(line) && ParseLine(line).Some?
    ensures NoCrlf(FormatLine(ParseLine(line).value))
  {
    var k := FindColon(line);
    assert NoCrlf(line[..k]) && NoCrlf(line[k + 1..]);
    StripLeftKeepsNoCrlf(line[..k]);
    StripRightKeepsNoCrlf(StripLeft(line[..k]));
    StripLeftKeepsNoCrlf(line[k + 1..]);
    StripRightKeepsNoCrlf(StripLeft(line[k + 1..]));
    FormattedIsWhole(ParseLine(line).value);
  }

  lemma {:induction false} ParsedAreWhole(lines: seq<string>)
    requires ParseLines(lines).Some? && forall l :: l in lines ==> NoCrlf(l)
    ensures WholeLines(ParseLines(lines).value)
    decreases |lines|
  {
    if lines != [] {
      ParsedAreWhole(lines[1..]);
      if lines[0] != [] {
        ParsedIsWhole(lines[0]);
      }
    }
  }

  lemma {:induction false} WholeBlockRoundTrip(items: seq<Item>)
    requires WholeLines(items)
    ensures ParseLines(SplitFrom(FormatBlock(items), [])) == Some(items) <==> CleanItems(items)
    decreases |items|
  {
    if items == [] {
      EmptyBlock();
    } else {
      ReadFirstLine(items);
      LineRoundTrip(items[0]);
      WholeBlockRoundTrip(items[1..]);
      ConsItemIs(ParseLine(FormatLine(items[0])), ParseLines(SplitFrom(FormatBlock(items[1..]), [])), items);
      assert items == [items[0]] + items[1..];
      assert CleanItems(items) <==> CleanItem(items[0]) && CleanItems(items[1..]);
    }
  }

  /** A block gives back its items exactly when every item is clean and no line is broken by its own text. */
  lemma BlockRoundTrip(items: seq<Item>)
    ensures ParseLines(SplitFrom(FormatBlock(items), [])) == Some(items) <==> CleanItems(items) && WholeLines(items)
  {
    var lines := SplitFrom(FormatBlock(items), []);
    if ParseLines(lines) == Some(items) {
      SplitLinesAreWhole(FormatBlock(items), []);
      ParsedAreWhole(lines);
    }
    if WholeLines(items) {
      WholeBlockRoundTrip(items);
    }
  }

  // ---------------------------------------------------------------- The status

  type Detail = bytes

  /** What the Python libraries do: UTF-8, and the base64 of a `google.rpc.Status` message. */
  datatype Library = Library(
    encode: string -> bytes,
    decode: bytes -> string,
    packStatus: (string, string, seq<Detail>) -> string,
    unpackStatus: string -> (string, string, seq<Detail>))

  /** UTF-8 decodes what it encoded, and unpacking undoes packing, into text without white space. */
  ghost predicate IsLibrary(lib: Library) {
    && lib.encode("") == []
    && (forall s: string :: lib.decode(lib.encode(s)) == s)
    && (forall status: string, message: string, details: seq<Detail> ::
          lib.unpackStatus(lib.packStatus(status, message, details)) == (status, message, details))
    && (forall status: string, message: string, details: seq<Detail> ::
          var text := lib.packStatus(status, message, details);
          text != [] && forall k :: 0 <= k < |text| ==> !IsSpace(text[k]))
  }

  datatype WireError = WireError(code: Code, message: string, details: seq<Detail>)

  function StatusOf(code: Code): string {
    match code
    case Canceled => "1" case Unknown => "2" case InvalidArgument => "3" case DeadlineExceeded => "4"
    case NotFound => "5" case AlreadyExists => "6" case PermissionDenied => "7"
    case ResourceExhausted => "8" case FailedPrecondition => "9" case Aborted => "10"
    case OutOfRange => "11" case Unimplemented => "12" case Internal => "13" case Unavailable => "14"
    case DataLoss => "15" case Unauthenticated => "16"
  }

  const CODES: seq<Code> :=
    [Canceled, Unknown, InvalidArgument, DeadlineExceeded, NotFound, AlreadyExists, PermissionDenied,
     ResourceExhausted, FailedPrecondition, Aborted, OutOfRange, Unimplemented, Internal, Unavailable,
     DataLoss, Unauthenticated]

  function CodeFrom(codes: seq<Code>, status: string): Code {
    if codes == [] then Unknown
    else if StatusOf(codes[0]) == status then codes[0]
    else CodeFrom(codes[1..], status)
  }

  /** The inverse of the table; a status that is not in it is unknown. */
  function CodeOf(status: string): Code {
    CodeFrom(CODES, status)
  }

  lemma StatusIsInjective(a: Code, b: Code)
    requires StatusOf(a) == StatusOf(b)
    ensures a == b
  {
    assert |StatusOf(a)| == |StatusOf(b)| && StatusOf(a)[0] == StatusOf(b)[0];
    assert |StatusOf(a)| == 2 ==> StatusOf(a)[1] == StatusOf(b)[1];
  }

  lemma {:induction false} CodeFromFinds(codes: seq<Code>, code: Code)
    requires code in codes
    ensures CodeFrom(codes, StatusOf(code)) == code
    decreases |codes|
  {
    if StatusOf(codes[0]) == StatusOf(code) {
      StatusIsInjective(codes[0], code);
    } else {
      CodeFromFinds(codes[1..], code);
    }
  }

  lemma CodeRoundTrip(code: Code)
    ensures CodeOf(StatusOf(code)) == code && StatusOf(code) != "0"
  {
    var k :=
      match code
      case Canceled => 0 case Unknown => 1 case InvalidArgument => 2 case DeadlineExceeded => 3
      case NotFound => 4 case AlreadyExists => 5 case PermissionDenied => 6 case ResourceExhausted => 7
      case FailedPrecondition => 8 case Aborted => 9 case OutOfRange => 10 case Unimplemented => 11
      case Internal => 12 case Unavailable => 13 case DataLoss => 14 case Unauthenticated => 15;
    assert CODES[k] == code;
    CodeFromFinds(CODES, code);
    assert StatusOf(code)[0] != '0';
  }

  const STATUS: string := "grpc-status"
  const MESSAGE: string := "grpc-message"
  const DETAILS: string := "grpc-status-details-bin"

  /** `_status_trailers`. */
  function StatusTrailers(lib: Library, user: seq<Group>, error: Option<WireError>): seq<Group> {
    var copied := FromItems(Items(user));
    match error
    case None => SetIn(copied, STATUS, "0")
    case Some(e) =>
      var t1 := SetIn(copied, STATUS, StatusOf(e.code));
      var t2 := if e.message == "" then t1 else SetIn(t1, MESSAGE, Quote(lib.encode(e.message)));
      if e.details == [] then t2
      else SetIn(t2, DETAILS, lib.packStatus(StatusOf(e.code), e.message, e.details))
  }

  lemma StatusNamesAreLower()
    ensures C.Lower(STATUS) == STATUS && C.Lower(MESSAGE) == MESSAGE && C.Lower(DETAILS) == DETAILS
  {
  }

  /** `_status_trailers`: the status is assigned into a copy; the caller's trailers are left as they are. */
  method WriteStatus(lib: Library, user: C.Headers, error: Option<WireError>) returns (trailers: C.Headers)
    requires user.Valid()
    ensures fresh(trailers) && trailers.Valid()
    ensures trailers.Groups() == StatusTrailers(lib, user.Groups(), error)
  {
    StatusNamesAreLower();
    ghost var groups := user.Groups();
    trailers := TrailerEncodings.Copy(user);
    Rebuild(groups);
    match error
    case None => trailers.SetItem(STATUS, "0");
    case Some(e) =>
      trailers.SetItem(STATUS, StatusOf(e.code));
      if e.message != "" {
        trailers.SetItem(MESSAGE, Quote(lib.encode(e.message)));
      }
      if e.details != [] {
        trailers.SetItem(DETAILS, lib.packStatus(StatusOf(e.code), e.message, e.details));
      }
  }

  /** The groups that the status adds. */
  function StatusGroups(lib: Library, error: Option<WireError>): seq<Group> {
    match error
    case None => [Group(STATUS, ["0"])]
    case Some(e) =>
      [Group(STATUS, [StatusOf(e.code)])]
      + (if e.message == "" then [] else [Group(MESSAGE, [Quote(lib.encode(e.message))])])
      + (if e.details == [] then [] else [Group(DETAILS, [lib.packStatus(StatusOf(e.code), e.message, e.details)])])
  }

  function First(g: seq<Group>, key: string): Option<string> {
    var values := ValuesOf(g, key);
    if values == [] then None else Some(values[0])
  }

  /** What the client raises, and the trailers it hands to the response metadata before it does. */
  datatype Completion = Completion(raised: Option<WireError>, metadata: Option<seq<Group>>)

  function MissingStatus(reset: Option<WireError>): WireError {
    if reset.Some? then reset.value else WireError(Internal, "missing grpc-status trailer", [])
  }

  /** `GRPCEnvelopeReader.handle_response_complete`; `reset` is the error of a stream that was reset. */
  function Complete(
      lib: Library, trailers: seq<Group>, headers: seq<Group>, readMessage: bool, reset: Option<WireError>)
    : Completion
  {
    if First(trailers, STATUS).None? && readMessage then Completion(Some(MissingStatus(reset)), None)
    else
      var t := if First(trailers, STATUS).None? then headers else trailers;
      var status := First(t, STATUS);
      if status.None? then Completion(Some(MissingStatus(reset)), Some(t))
      else if status.value == "0" then Completion(None, Some(t))
      else
        var details := First(t, DETAILS);
        var (code, message, ds) :=
          if details.Some? && details.value != "" then lib.unpackStatus(details.value)
          else
            var text := First(t, MESSAGE);
            (status.value, UnquoteFrom(if text.Some? then text.value else "", [], lib.decode), []);
        Completion(Some(WireError(if reset.Some? then reset.value.code else CodeOf(code), message, ds)), Some(t))
  }

  // ---------------------------------------------------------------- The status round trip

  /** The caller's trailers leave the names of the status alone. */
  predicate NamesUnused(user: seq<Group>) {
    !HasKey(user, STATUS) && !HasKey(user, MESSAGE) && !HasKey(user, DETAILS)
  }

  lemma HasKeySnoc(g: seq<Group>, last: Group, key: string)
    ensures HasKey(g + [last], key) <==> HasKey(g, key) || last.key == key
  {
    var whole := g + [last];
    assert whole[|g|] == last;
    assert forall k :: 0 <= k < |g| ==> whole[k] == g[k];
  }

  lemma DistinctNames()
    ensures STATUS != MESSAGE && STATUS != DETAILS && MESSAGE != DETAILS
  {
    assert |STATUS| == 11 && |MESSAGE| == 12 && |DETAILS| == 23;
  }

  /** The status comes after the caller's trailers, which are kept in order. */
  lemma StatusIsAppended(lib: Library, user: seq<Group>, error: Option<WireError>)
    requires IsMultimap(user) && NamesUnused(user)
    ensures StatusTrailers(lib, user, error) == user + StatusGroups(lib, error)
  {
    Rebuild(user);
    DistinctNames();
    if error.None? {
      AddToNew(user, STATUS, "0");
    } else {
      var e := error.value;
      AddToNew(user, STATUS, StatusOf(e.code));
      var t1 := user + [Group(STATUS, [StatusOf(e.code)])];
      HasKeySnoc(user, t1[|user|], MESSAGE);
      HasKeySnoc(user, t1[|user|], DETAILS);
      var text := Quote(lib.encode(e.message));
      AddToNew(t1, MESSAGE, text);
      var t2 := if e.message == "" then t1 else t1 + [Group(MESSAGE, [text])];
      HasKeySnoc(t1, Group(MESSAGE, [text]), DETAILS);
      AddToNew(t2, DETAILS, lib.packStatus(StatusOf(e.code), e.message, e.details));
    }
  }

  lemma {:induction false} ValuesOfAppend(g: seq<Group>, h: seq<Group>, key: string)
    requires !HasKey(g, key)
    ensures ValuesOf(g + h, key) == ValuesOf(h, key)
    decreases |g|
  {
    if g == [] {
      assert g + h == h;
    } else {
      assert (g + h)[1..] == g[1..] + h;
      assert g == [g[0]] + g[1..];
      HasKeyCons(g[0], g[1..]);
      ValuesOfAppend(g[1..], h, key);
    }
  }

  /** Looking a name up in the groups of a status. */
  lemma StatusLookups(lib: Library, user: seq<Group>, e: WireError)
    requires NamesUnused(user)
    ensures var t := user + StatusGroups(lib, Some(e));
      && First(t, STATUS) == Some(StatusOf(e.code))
      && First(t, MESSAGE) == (if e.message == "" then None else Some(Quote(lib.encode(e.message))))
      && First(t, DETAILS) == (if e.details == [] then None
                               else Some(lib.packStatus(StatusOf(e.code), e.message, e.details)))
  {
    DistinctNames();
    var gs := StatusGroups(lib, Some(e));
    ValuesOfAppend(user, gs, STATUS);
    ValuesOfAppend(user, gs, MESSAGE);
    ValuesOfAppend(user, gs, DETAILS);
    var m: seq<Group> := if e.message == "" then [] else [Group(MESSAGE, [Quote(lib.encode(e.message))])];
    var details := lib.packStatus(StatusOf(e.code), e.message, e.details);
    var d: seq<Group> := if e.details == [] then [] else [Group(DETAILS, [details])];
    assert gs == [Group(STATUS, [StatusOf(e.code)])] + (m + d);
    forall key
      ensures ValuesOf(gs, key) == if key == STATUS then [StatusOf(e.code)] else ValuesOf(m + d, key)
    {
      ValuesOfCons(Group(STATUS, [StatusOf(e.code)]), m + d, key);
    }
    ValuesOfSingle(m, MESSAGE, d, DETAILS);
  }

  lemma ValuesOfCons(first: Group, rest: seq<Group>, key: string)
    ensures ValuesOf([first] + rest, key) == if first.key == key then first.values else ValuesOf(rest, key)
  {
    assert ([first] + rest)[1..] == rest;
  }

  lemma ValuesOfSingle(m: seq<Group>, mKey: string, d: seq<Group>, dKey: string)
    requires |m| <= 1 && |d| <= 1 && mKey != dKey
    requires (m != [] ==> m[0].key == mKey) && (d != [] ==> d[0].key == dKey)
    ensures ValuesOf(m + d, mKey) == if m == [] then [] else m[0].values
    ensures ValuesOf(m + d, dKey) == if d == [] then [] else d[0].values
  {
    if m == [] {
      assert m + d == d;
    } else {
      assert m + d == [m[0]] + d;
      ValuesOfCons(m[0], d, mKey);
      ValuesOfCons(m[0], d, dKey);
    }
    if d != [] {
      assert d == [d[0]] + [];
      ValuesOfCons(d[0], [], mKey);
      ValuesOfCons(d[0], [], dKey);
    }
  }

  lemma StatusOfSuccess(lib: Library, user: seq<Group>)
    requires NamesUnused(user)
    ensures First(user + StatusGroups(lib, None), STATUS) == Some("0")
  {
    ValuesOfAppend(user, StatusGroups(lib, None), STATUS);
  }

  /** What decoding the groups of an error gives back. */
  lemma ErrorIsDecoded(lib: Library, e: WireError)
    requires IsLibrary(lib)
    ensures CodeOf(StatusOf(e.code)) == e.code && StatusOf(e.code) != "0"
    ensures UnquoteFrom(Quote(lib.encode(e.message)), [], lib.decode) == e.message
    ensures UnquoteFrom("", [], lib.decode) == ""
    ensures var packed := lib.packStatus(StatusOf(e.code), e.message, e.details);
      packed != "" && lib.unpackStatus(packed) == (StatusOf(e.code), e.message, e.details)
  {
    CodeRoundTrip(e.code);
    UnquoteQuoted(lib.encode(e.message), [], lib.decode);
    assert [] + lib.encode(e.message) == lib.encode(e.message);
    assert lib.decode(lib.encode(e.message)) == e.message;
    assert lib.decode([]) == lib.decode(lib.encode(""));
  }

  /**
   * For every code, message and details the client raises the error that the server reported, and sees the
   * caller's trailers in order. The status is in the trailers, or in the headers of a response without a
   * body; a reset of the stream replaces the code and nothing else. A success raises nothing.
   */
  lemma StatusRoundTrip(
      lib: Library, user: seq<Group>, error: Option<WireError>, trailers: seq<Group>, headers: seq<Group>,
      readMessage: bool, reset: Option<WireError>)
    requires IsLibrary(lib) && IsMultimap(user) && NamesUnused(user)
    requires
      || trailers == StatusTrailers(lib, user, error)
      || (ValuesOf(trailers, "grpc-status") == [] && !readMessage && headers == StatusTrailers(lib, user, error))
    ensures var done := Complete(lib, trailers, headers, readMessage, reset);
      && done.metadata == Some(user + StatusGroups(lib, error))
      && (error.None? ==> done.raised == None)
      && (error.Some? ==> done.raised == Some(
            WireError(if reset.Some? then reset.value.code else error.value.code,
                      error.value.message, error.value.details)))
  {
    StatusIsAppended(lib, user, error);
    if error.None? {
      StatusOfSuccess(lib, user);
    } else {
      StatusLookups(lib, user, error.value);
      ErrorIsDecoded(lib, error.value);
    }
  }

  /**
   * Something is raised for a response without a status: the error of a stream that was reset, or an internal
   * error. Headers count only while no message was read, and are then handed over first.
   */
  lemma MissingStatusRaises(
      lib: Library, trailers: seq<Group>, headers: seq<Group>, readMessage: bool, reset: Option<WireError>)
    requires ValuesOf(trailers, "grpc-status") == []
    requires readMessage || ValuesOf(headers, "grpc-status") == []
    ensures var done := Complete(lib, trailers, headers, readMessage, reset);
      && (reset.Some? ==> done.raised == reset)
      && (reset.None? ==> done.raised == Some(WireError(Internal, "missing grpc-status trailer", [])))
      && done.metadata == if readMessage then None else Some(headers)
  {
  }

  /** After a message, or with a status in the trailers, what is in the headers is irrelevant. */
  lemma HeadersAreIgnored(
      lib: Library, trailers: seq<Group>, headers: seq<Group>, others: seq<Group>, readMessage: bool,
      reset: Option<WireError>)
    requires readMessage || ValuesOf(trailers, "grpc-status") != []
    ensures Complete(lib, trailers, headers, readMessage, reset) == Complete(lib, trailers, others, readMessage, reset)
  {
  }

  /** The numbers of the codes on the wire; any other text is unknown. */
  lemma StatusNumbers(status: string)
    ensures CodeOf("1") == Canceled && CodeOf("2") == Unknown && CodeOf("3") == InvalidArgument
    ensures CodeOf("4") == DeadlineExceeded && CodeOf("5") == NotFound && CodeOf("6") == AlreadyExists
    ensures CodeOf("7") == PermissionDenied && CodeOf("8") == ResourceExhausted && CodeOf("9") == FailedPrecondition
    ensures CodeOf("10") == Aborted && CodeOf("11") == OutOfRange && CodeOf("12") == Unimplemented
    ensures CodeOf("13") == Internal && CodeOf("14") == Unavailable && CodeOf("15") == DataLoss
    ensures CodeOf("16") == Unauthenticated
    ensures (forall code :: StatusOf(code) != status) ==> CodeOf(status) == Unknown
  {
    CodeRoundTrip(Canceled);
    CodeRoundTrip(Unknown);
    CodeRoundTrip(InvalidArgument);
    CodeRoundTrip(DeadlineExceeded);
    CodeRoundTrip(NotFound);
    CodeRoundTrip(AlreadyExists);
    CodeRoundTrip(PermissionDenied);
    CodeRoundTrip(ResourceExhausted);
    CodeRoundTrip(FailedPrecondition);
    CodeRoundTrip(Aborted);
    CodeRoundTrip(OutOfRange);
    CodeRoundTrip(Unimplemented);
    CodeRoundTrip(Internal);
    CodeRoundTrip(Unavailable);
    CodeRoundTrip(DataLoss);
    CodeRoundTrip(Unauthenticated);
    if forall code :: StatusOf(code) != status {
      CodeFromMisses(CODES, status);
    }
  }

  lemma {:induction false} CodeFromMisses(codes: seq<Code>, status: string)
    requires forall code :: StatusOf(code) != status
    ensures CodeFrom(codes, status) == Unknown
    decreases |codes|
  {
    if codes != [] {
      CodeFromMisses(codes[1..], status);
    }
  }

  lemma FirstOfOne(key: string, value: string, other: string)
    requires other != key
    ensures First([Group(key, [value])], key) == Some(value) && First([Group(key, [value])], other) == None
    ensures First([], key) == None
  {
    ValuesOfCons(Group(key, [value]), [], other);
    assert [Group(key, [value])] + [] == [Group(key, [value])];
  }

  /** A response without a body whose only header is the status of a missing resource. */
  lemma NotFoundInHeaders(lib: Library)
    requires lib.decode([]) == ""
    ensures Complete(lib, [], [Group("grpc-status", ["5"])], false, None).raised == Some(WireError(NotFound, "", []))
  {
    DistinctNames();
    FirstOfOne(STATUS, "5", MESSAGE);
    FirstOfOne(STATUS, "5", DETAILS);
    StatusNumbers("5");
    assert |"5"| == 1 && "5"[0] == '5' && "0"[0] == '0';
    assert UnquoteFrom("", [], lib.decode) == "";
    EmptyDetailsAreIgnored(lib, [], [Group(STATUS, ["5"])], false, "5");
  }

  /** Without details, or with empty ones, the code and the message are those of the other two trailers. */
  lemma EmptyDetailsAreIgnored(
      lib: Library, trailers: seq<Group>, headers: seq<Group>, readMessage: bool, status: string)
    requires var t := if First(trailers, STATUS).None? then headers else trailers;
      && First(t, STATUS) == Some(status) && status != "0"
      && (First(t, DETAILS) == None || First(t, DETAILS) == Some(""))
    requires First(trailers, STATUS).None? ==> !readMessage
    ensures var t := if First(trailers, STATUS).None? then headers else trailers;
      var text := match First(t, MESSAGE)
        case Some(message) => message
        case None => "";
      Complete(lib, trailers, headers, readMessage, None).raised ==
        Some(WireError(CodeOf(status), UnquoteFrom(text, [], lib.decode), []))
  {
  }

  lemma QuoteCons(b: byte, rest: bytes)
    ensures Quote([b] + rest) == QuoteByte(b) + Quote(rest)
  {
    assert ([b] + rest)[1..] == rest;
  }

  lemma QuotedExample()
    ensures Quote([0x61, 0x20, 0x2F]) == "a%20%2F"
  {
    QuoteCons(0x2F, []);
    QuoteCons(0x20, [0x2F]);
    QuoteCons(0x61, [0x20, 0x2F]);
    assert [0x2F] + [] == [0x2F] && [0x20] + [0x2F] == [0x20, 0x2F] && [0x61] + [0x20, 0x2F] == [0x61, 0x20, 0x2F];
    assert QuoteByte(0x2F) == "%2F" && QuoteByte(0x20) == "%20" && QuoteByte(0x61) == "a";
  }

  /** What is written for an error with a message, byte for byte; the escapes are in upper case. */
  lemma WrittenExample(lib: Library, message: string)
    requires message != "" && lib.encode(message) == [0x61, 0x20, 0x2F]
    ensures StatusTrailers(lib, [], Some(WireError(NotFound, message, []))) ==
      [Group("grpc-status", ["5"]), Group("grpc-message", ["a%20%2F"])]
  {
    var error := Some(WireError(NotFound, message, []));
    StatusIsAppended(lib, [], error);
    QuotedExample();
  }

  // ---------------------------------------------------------------- The status in a text block

  predicate NoSpaces(s: string) {
    forall k :: 0 <= k < |s| ==> !IsSpace(s[k])
  }

  lemma HexIsNoSpace(c: char)
    requires HexValue(c).Some?
    ensures !IsSpace(c)
  {
  }

  lemma QuoteByteHasNoSpaces(b: byte)
    ensures NoSpaces(QuoteByte(b))
  {
    if Unreserved(b) {
      assert !IsSpace(b as char);
    } else {
      HexRoundTrip(b / 16);
      HexRoundTrip(b % 16);
      HexIsNoSpace(HexDigit(b / 16));
      HexIsNoSpace(HexDigit(b % 16));
    }
  }

  lemma {:induction false} QuoteHasNoSpaces(data: bytes)
    ensures NoSpaces(Quote(data))
    decreases |data|
  {
    if data != [] {
      QuoteHasNoSpaces(data[1..]);
      QuoteByteHasNoSpaces(data[0]);
    }
  }

  predicate ReadsBack(item: Item) {
    CleanItem(item) && NoCrlf(FormatLine(item))
  }

  predicate AllReadBack(items: seq<Item>) {
    forall k :: 0 <= k < |items| ==> ReadsBack(items[k])
  }

  lemma SpacelessReadsBack(item: Item)
    requires ':' !in item.key && NoSpaces(item.key) && NoSpaces(item.value)
    ensures ReadsBack(item)
  {
    var line := FormatLine(item);
    assert IsSpace('\r');
    forall k | 0 <= k < |line|
      ensures line[k] != '\r'
    {
      if k < |item.key| {
        assert line[k] == item.key[k];
      } else if k >= |item.key| + 2 {
        assert line[k] == item.value[k - |item.key| - 2];
      }
    }
  }

  lemma StatusNames()
    ensures ':' !in STATUS && NoSpaces(STATUS)
    ensures ':' !in MESSAGE && NoSpaces(MESSAGE)
    ensures ':' !in DETAILS && NoSpaces(DETAILS)
  {
  }

  lemma StatusTextHasNoSpaces(code: Code)
    ensures NoSpaces(StatusOf(code)) && NoSpaces("0")
  {
  }

  lemma {:induction false} ItemsAppend(g: seq<Group>, h: seq<Group>)
    ensures Items(g + h) == Items(g) + Items(h)
    decreases |g|
  {
    if g == [] {
      assert g + h == h;
    } else {
      assert (g + h)[1..] == g[1..] + h;
      ItemsAppend(g[1..], h);
    }
  }

  /** A group with one value that has no white space in it. */
  predicate PlainGroup(g: Group) {
    ':' !in g.key && NoSpaces(g.key) && |g.values| == 1 && NoSpaces(g.values[0])
  }

  lemma {:induction false} PlainGroupsReadBack(gs: seq<Group>)
    requires forall k :: 0 <= k < |gs| ==> PlainGroup(gs[k])
    ensures AllReadBack(Items(gs))
    decreases |gs|
  {
    if gs != [] {
      assert PlainGroup(gs[0]);
      PlainGroupsReadBack(gs[1..]);
      SpacelessReadsBack(Item(gs[0].key, gs[0].values[0]));
      assert GroupItems(gs[0]) == [Item(gs[0].key, gs[0].values[0])];
    }
  }

  lemma StatusGroupsArePlain(lib: Library, error: Option<WireError>)
    requires IsLibrary(lib)
    ensures forall k :: 0 <= k < |StatusGroups(lib, error)| ==> PlainGroup(StatusGroups(lib, error)[k])
  {
    StatusNames();
    if error.Some? {
      var e := error.value;
      StatusTextHasNoSpaces(e.code);
      QuoteHasNoSpaces(lib.encode(e.message));
      assert NoSpaces(lib.packStatus(StatusOf(e.code), e.message, e.details));
    } else {
      StatusTextHasNoSpaces(Unknown);
    }
  }

  lemma MultimapSnoc(g: seq<Group>, key: string, value: string)
    requires IsMultimap(g) && !HasKey(g, key)
    ensures IsMultimap(g + [Group(key, [value])])
  {
    AddToNew(g, key, value);
    AddToKeeps(g, key, value);
  }

  lemma StatusIsMultimap(lib: Library, user: seq<Group>, error: Option<WireError>)
    requires IsMultimap(user) && NamesUnused(user)
    ensures IsMultimap(user + StatusGroups(lib, error))
  {
    DistinctNames();
    if error.None? {
      MultimapSnoc(user, STATUS, "0");
    } else {
      var e := error.value;
      var status := StatusOf(e.code);
      MultimapSnoc(user, STATUS, status);
      var t1 := user + [Group(STATUS, [status])];
      HasKeySnoc(user, Group(STATUS, [status]), MESSAGE);
      HasKeySnoc(user, Group(STATUS, [status]), DETAILS);
      var text := Quote(lib.encode(e.message));
      var t2 := if e.message == "" then t1 else t1 + [Group(MESSAGE, [text])];
      if e.message != "" {
        MultimapSnoc(t1, MESSAGE, text);
        HasKeySnoc(t1, Group(MESSAGE, [text]), DETAILS);
      }
      var details := lib.packStatus(status, e.message, e.details);
      if e.details != [] {
        MultimapSnoc(t2, DETAILS, details);
      }
      assert user + StatusGroups(lib, error) == if e.details == [] then t2 else t2 + [Group(DETAILS, [details])];
    }
  }

  /**
   * gRPC-Web, end to end: the status is written as a text block, read back line by line, and raised
   * by the client as it was reported, whatever the message holds.
   */
  method WebStatus(lib: Library, user: seq<Group>, error: Option<WireError>, headers: seq<Group>)
    returns (text: string, done: Option<Completion>)
    requires IsLibrary(lib) && IsMultimap(user) && NamesUnused(user)
    requires AllReadBack(Items(user))
    ensures text == FormatBlock(Items(StatusTrailers(lib, user, error)))
    ensures done == Some(Completion(error, Some(user + StatusGroups(lib, error))))
  {
    var trailers := StatusTrailers(lib, user, error);
    var items := Items(trailers);
    text := FormatBlock(items);
    StatusIsAppended(lib, user, error);
    ItemsAppend(user, StatusGroups(lib, error));
    StatusGroupsArePlain(lib, error);
    PlainGroupsReadBack(StatusGroups(lib, error));
    assert AllReadBack(items);
    assert WholeLines(items) && CleanItems(items) by {
      assert forall k :: 0 <= k < |items| ==> ReadsBack(items[k]);
    }
    BlockRoundTrip(items);
    var read := ReadBlock(text);
    StatusIsMultimap(lib, user, error);
    Rebuild(trailers);
    StatusRoundTrip(lib, user, error, trailers, headers, true, None);
    done := if read.None? then None else Some(Complete(lib, FromItems(read.value), headers, true, None));
  }
}
