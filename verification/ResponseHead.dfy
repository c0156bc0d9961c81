/** The response head: UTF-8 text, header lines, and the framing choice (src/protocol/response.rs). */
module ResponseHead {
  import opened Prelude

  const USIZE_MAX: nat := 0xFFFF_FFFF_FFFF_FFFF

  datatype Framing = ContentLength(length: nat) | Chunked | CloseDelimited
  datatype Head = Head(status: nat, connectionClose: bool, framing: Framing)
  datatype HeadResult = HeadOk(head: Head) | NotText | BadStatusLine

  predicate Continuation(b: byte) { 0x80 <= b <= 0xBF }

  /** One UTF-8 scalar value and the number of bytes it occupies; None on an invalid sequence. */
  function DecodeScalar(b: seq<byte>): (r: Option<(char, nat)>)
    requires b != []
    ensures r.Some? ==> 1 <= r.value.1 <= |b|
  {
    var b0 := b[0] as int;
    if b0 < 0x80 then Some((b0 as char, 1))
    else if 0xC2 <= b0 <= 0xDF && 2 <= |b| && Continuation(b[1]) then
      Some((((b0 - 0xC0) * 0x40 + (b[1] as int - 0x80)) as char, 2))
    else if 0xE0 <= b0 <= 0xEF && 3 <= |b| && Continuation(b[1]) && Continuation(b[2]) then
      var v := (b0 - 0xE0) * 0x1000 + (b[1] as int - 0x80) * 0x40 + (b[2] as int - 0x80);
      if v < 0x800 || 0xD800 <= v <= 0xDFFF then None else Some((v as char, 3))
    else if 0xF0 <= b0 <= 0xF4 && 4 <= |b| && Continuation(b[1]) && Continuation(b[2]) && Continuation(b[3]) then
      var v := (b0 - 0xF0) * 0x40000 + (b[1] as int - 0x80) * 0x1000 + (b[2] as int - 0x80) * 0x40 + (b[3] as int - 0x80);
      if v < 0x10000 || 0x10FFFF < v then None else Some((v as char, 4))
    else None
  }

  function DecodeUtf8(b: seq<byte>): (r: Option<string>)
  {
    if b == [] then Some([])
    else match DecodeScalar(b)
      case None => None
      case Some((c, n)) =>
        match DecodeUtf8(b[n..])
        case None => None
        case Some(rest) => Some([c] + rest)
  }

  predicate IsWhitespace(c: char)
  {
    var v := c as int;
    || 0x09 <= v <= 0x0D || v == 0x20 || v == 0x85 || v == 0xA0 || v == 0x1680
    || 0x2000 <= v <= 0x200A || v == 0x2028 || v == 0x2029 || v == 0x202F || v == 0x205F || v == 0x3000
  }

  function TrimStart(s: string): string
  {
    if s != [] && IsWhitespace(s[0]) then TrimStart(s[1..]) else s
  }

  function Trim(s: string): string
  {
    TrimEnd(TrimStart(s))
  }

  function TrimEnd(s: string): string
  {
    if s != [] && IsWhitespace(s[|s| - 1]) then TrimEnd(s[..|s| - 1]) else s
  }

  /** The position of the first `c` in `s`, or |s|. */
  function IndexOf(s: string, c: char): (i: nat)
    ensures i <= |s|
    ensures c !in s[..i]
    ensures i < |s| ==> s[i] == c
  {
    if s == [] || s[0] == c then 0
    else
      var i := 1 + IndexOf(s[1..], c);
      assert s[..i] == [s[0]] + s[1..][..i - 1];
      i
  }

  function Split(s: string, c: char): (parts: seq<string>)
    ensures parts != []
    decreases |s|
  {
    var i := IndexOf(s, c);
    if i == |s| then [s] else [s[..i]] + Split(s[i + 1..], c)
  }

  /** Splitting on CR LF, as `str::split` does. */
  function SplitLines(s: string): (lines: seq<string>)
    ensures lines != []
    decreases |s|
  {
    SplitLinesFrom(s, 0)
  }

  function SplitLinesFrom(s: string, i: nat): (lines: seq<string>)
    requires i <= |s|
    ensures lines != []
    decreases |s|, |s| - i
  {
    if i + 2 > |s| then [s]
    else if s[i] == '\r' && s[i + 1] == '\n' then [s[..i]] + SplitLinesFrom(s[i + 2..], 0)
    else SplitLinesFrom(s, i + 1)
  }

  /** The second whitespace-separated field, if there is one. */
  function SecondField(s: string): (r: Option<string>)
  {
    var rest := TrimStart(SkipField(TrimStart(s)));
    if rest == [] then None else Some(rest[..|rest| - |SkipField(rest)|])
  }

  function SkipField(s: string): (r: string)
    ensures |r| <= |s|
  {
    if s == [] || IsWhitespace(s[0]) then s else SkipField(s[1..])
  }

  function DigitValue(c: char, radix: nat): (r: Option<nat>)
    ensures r.Some? ==> r.value < radix
  {
    var v :=
      if '0' <= c <= '9' then (c as int) - ('0' as int)
      else if 'a' <= c <= 'z' then (c as int) - ('a' as int) + 10
      else if 'A' <= c <= 'Z' then (c as int) - ('A' as int) + 10
      else radix;
    if v < radix then Some(v) else None
  }

  function DigitsValue(s: string, radix: nat): (r: Option<nat>)
  {
    if s == [] then Some(0)
    else match DigitsValue(s[..|s| - 1], radix)
      case None => None
      case Some(high) =>
        match DigitValue(s[|s| - 1], radix)
        case None => None
        case Some(low) => Some(high * radix + low)
  }

  /** Unsigned integer parsing: one optional leading '+', at least one digit, no overflow. */
  function ParseUnsigned(s: string, radix: nat, limit: nat): (r: Option<nat>)
    ensures r.Some? ==> r.value <= limit
  {
    var digits := if 1 < |s| && s[0] == '+' then s[1..] else s;
    if digits == [] then None
    else match DigitsValue(digits, radix)
      case None => None
      case Some(v) => if v <= limit then Some(v) else None
  }

  function LowerChar(c: char): char
  {
    if 'A' <= c <= 'Z' then ((c as int) + 32) as char else c
  }

  predicate EqualIgnoreCase(a: string, b: string)
  {
    |a| == |b| && forall i :: 0 <= i < |a| ==> LowerChar(a[i]) == LowerChar(b[i])
  }

  /** Whether the line is a header of that name; lines with no colon never are. */
  predicate IsHeader(line: string, name: string)
  {
    var i := IndexOf(line, ':');
    i < |line| && EqualIgnoreCase(line[..i], name)
  }

  function HeaderValue(lines: seq<string>, name: string): (r: Option<string>)
  {
    if lines == [] then None
    else if IsHeader(lines[0], name) then Some(Trim(lines[0][IndexOf(lines[0], ':') + 1..]))
    else HeaderValue(lines[1..], name)
  }

  predicate LineHasToken(line: string, name: string, token: string)
  {
    IsHeader(line, name) && ValueHasToken(line[IndexOf(line, ':') + 1..], token)
  }

  predicate ValueHasToken(value: string, token: string)
  {
    var parts := Split(value, ',');
    exists k :: 0 <= k < |parts| && EqualIgnoreCase(Trim(parts[k]), token)
  }

  predicate HeadersHaveToken(lines: seq<string>, name: string, token: string)
  {
    exists i :: 0 <= i < |lines| && LineHasToken(lines[i], name, token)
  }

  function ChooseFraming(lines: seq<string>): (f: Framing)
  {
    if HeadersHaveToken(lines, "transfer-encoding", "chunked") then Chunked
    else match HeaderValue(lines, "content-length")
      case None => CloseDelimited
      case Some(v) =>
        match ParseUnsigned(v, 10, USIZE_MAX)
        case None => CloseDelimited
        case Some(length) => ContentLength(length)
  }

  function ParseResponseHead(header: seq<byte>): (r: HeadResult)
  {
    match DecodeUtf8(header)
    case None => NotText
    case Some(text) =>
      var lines := SplitLines(text);
      ReadLines(lines[0], lines[1..])
  }

  function ReadLines(first: string, fields: seq<string>): HeadResult
  {
    var status := match SecondField(first) case None => None case Some(f) => ParseUnsigned(f, 10, 0xFFFF);
    match status
    case None => BadStatusLine
    case Some(code) =>
      var close :=
        || HeadersHaveToken(fields, "connection", "close")
        || ("HTTP/1.0" <= first && !HeadersHaveToken(fields, "connection", "keep-alive"));
      HeadOk(Head(code, close, ChooseFraming(fields)))
  }
}
