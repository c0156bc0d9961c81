/** Validating replay requests and encoding them for the wire (src/request_file.rs, src/target.rs). */
module Encoder {
  import opened Prelude
  import opened Methods
  import opened Decoder
  import Replay

  type Bytes = seq<byte>

  datatype Header = Header(name: Bytes, value: Bytes)

  datatype Request = Request(verb: Method, path: Bytes, headers: seq<Header>, body: Bytes, bodyPresent: bool)

  /** The bytes of a constant text. */
  function Text(s: string): (b: Bytes)
    requires forall i :: 0 <= i < |s| ==> s[i] < 128 as char
    ensures |b| == |s| && forall i :: 0 <= i < |s| ==> b[i] as int == s[i] as int
  {
    seq(|s|, i requires 0 <= i < |s| => (s[i] as int) as byte)
  }

  // ----- validation -----

  const MAX_URI_BYTES: nat := 8192
  const MAX_HEADERS_BYTES: nat := 65536
  const MAX_REQUEST_BODY_BYTES: nat := 524288

  predicate Alphanumeric(b: byte) { 48 <= b <= 57 || 65 <= b <= 90 || 97 <= b <= 122 }

  predicate HexDigit(b: byte) { 48 <= b <= 57 || 65 <= b <= 70 || 97 <= b <= 102 }

  /** Bytes that stand for themselves in a URI. */
  predicate UriByte(b: byte)
  {
    Alphanumeric(b) || (b as int) as char in "/?-._~!$&'()*+,;=:@"
  }

  /** Every percent sign starts an escape, and every other byte is allowed in a URI. */
  predicate OriginForm(uri: Bytes)
  {
    uri != [] && uri[0] == 47 && forall i :: 0 <= i < |uri| ==> GoodAt(uri, i)
  }

  predicate GoodAt(uri: Bytes, i: nat)
    requires i < |uri|
  {
    if uri[i] == 37 then i + 2 < |uri| && HexDigit(uri[i + 1]) && HexDigit(uri[i + 2]) else UriByte(uri[i])
  }

  method ValidOriginForm(uri: Bytes) returns (valid: bool)
    ensures valid == OriginForm(uri)
  {
    if uri == [] || uri[0] != 47 || 35 in uri {
      if uri != [] && 35 in uri {
        var i :| 0 <= i < |uri| && uri[i] == 35;
        assert !GoodAt(uri, i);
      }
      return false;
    }
    var index := 0;
    while index < |uri|
      invariant index <= |uri|
      invariant forall i :: 0 <= i < index ==> GoodAt(uri, i)
    {
      var b := uri[index];
      assert GoodAt(uri, index) <==>
             if b == 37 then index + 2 < |uri| && HexDigit(uri[index + 1]) && HexDigit(uri[index + 2]) else UriByte(b);
      if b == 37 {
        if index + 2 >= |uri| || !HexDigit(uri[index + 1]) || !HexDigit(uri[index + 2]) { return false; }
        index := index + 3;
        continue;
      }
      if !UriByte(b) { return false; }
      index := index + 1;
    }
    return true;
  }

  predicate NameByte(b: byte)
  {
    Alphanumeric(b) || (b as int) as char in "!#$%&'*+-.^_`|~"
  }

  predicate ValidHeaderName(name: Bytes)
  {
    name != [] && forall i :: 0 <= i < |name| ==> NameByte(name[i])
  }

  predicate ValidHeaderValue(value: Bytes)
  {
    forall i :: 0 <= i < |value| ==> value[i] == 9 || 32 <= value[i] <= 126
  }

  function LowerByte(b: byte): byte { if 65 <= b <= 90 then b + 32 else b }

  predicate SameName(a: Bytes, b: Bytes)
  {
    |a| == |b| && forall i :: 0 <= i < |a| ==> LowerByte(a[i]) == LowerByte(b[i])
  }

  const HOST: Bytes := Text("Host")
  const CONNECTION: Bytes := Text("Connection")
  const CONTENT_LENGTH: Bytes := Text("Content-Length")
  const TRANSFER_ENCODING: Bytes := Text("Transfer-Encoding")
  const RESERVED: seq<Bytes> := [HOST, CONNECTION, CONTENT_LENGTH, TRANSFER_ENCODING, Text("Trailer"), Text("Expect")]

  predicate Reserved(name: Bytes)
  {
    exists k :: 0 <= k < |RESERVED| && SameName(name, RESERVED[k])
  }

  datatype Verdict = Valid | BadUri | BodyTooLarge | UnexpectedBody
                   | BadName(k: nat) | ManagedHeader(k: nat) | BadValue(k: nat) | HeadersTooLarge

  predicate GoodHeader(h: Header)
  {
    ValidHeaderName(h.name) && !Reserved(h.name) && ValidHeaderValue(h.value)
  }

  function HeaderBytes(headers: seq<Header>): nat
  {
    if headers == [] then 0
    else HeaderBytes(headers[..|headers| - 1]) + |headers[|headers| - 1].name| + |headers[|headers| - 1].value| + 4
  }

  predicate AllGood(headers: seq<Header>)
  {
    forall k :: 0 <= k < |headers| ==> GoodHeader(headers[k])
  }

  /** Everything a request must satisfy to be accepted. */
  predicate Acceptable(r: Request)
  {
    && |r.path| <= MAX_URI_BYTES && OriginForm(r.path)
    && |r.body| <= MAX_REQUEST_BODY_BYTES
    && !(r.verb in {Get, Head} && r.bodyPresent)
    && AllGood(r.headers) && HeaderBytes(r.headers) <= MAX_HEADERS_BYTES
  }

  /** The reason given for refusing header `k`. */
  function HeaderVerdict(h: Header, k: nat): Verdict
  {
    if !ValidHeaderName(h.name) then BadName(k)
    else if Reserved(h.name) then ManagedHeader(k)
    else if !ValidHeaderValue(h.value) then BadValue(k)
    else Valid
  }

  predicate UriAccepted(r: Request) { |r.path| <= MAX_URI_BYTES && OriginForm(r.path) }

  predicate BodyAccepted(r: Request) { |r.body| <= MAX_REQUEST_BODY_BYTES && !(r.verb in {Get, Head} && r.bodyPresent) }

  /** The first of several bad headers. */
  predicate FirstBad(headers: seq<Header>, k: nat)
  {
    k < |headers| && !GoodHeader(headers[k]) && forall i :: 0 <= i < k ==> GoodHeader(headers[i])
  }

  /** The checks in the order the program makes them: each verdict is given exactly when its rule is the first broken one. */
  method ValidateRequest(r: Request) returns (v: Verdict)
    ensures v == Valid <==> Acceptable(r)
    ensures v == BadUri <==> !UriAccepted(r)
    ensures v == BodyTooLarge <==> UriAccepted(r) && |r.body| > MAX_REQUEST_BODY_BYTES
    ensures v == UnexpectedBody <==>
            UriAccepted(r) && |r.body| <= MAX_REQUEST_BODY_BYTES && r.verb in {Get, Head} && r.bodyPresent
    ensures forall k: nat :: UriAccepted(r) && BodyAccepted(r) && FirstBad(r.headers, k) ==> v == HeaderVerdict(r.headers[k], k)
    ensures v.BadName? || v.ManagedHeader? || v.BadValue? ==>
              UriAccepted(r) && BodyAccepted(r) && FirstBad(r.headers, v.k)
    ensures v == HeadersTooLarge <==>
            UriAccepted(r) && BodyAccepted(r) && AllGood(r.headers) && HeaderBytes(r.headers) > MAX_HEADERS_BYTES
  {
    var form := ValidOriginForm(r.path);
    if |r.path| > MAX_URI_BYTES || !form { return BadUri; }
    if |r.body| > MAX_REQUEST_BODY_BYTES { return BodyTooLarge; }
    if r.verb in {Get, Head} && r.bodyPresent { return UnexpectedBody; }
    v := ValidateHeaders(r.headers);
  }

  /** The loop over the headers, and the check of their total size after it. */
  method ValidateHeaders(headers: seq<Header>) returns (v: Verdict)
    ensures v == Valid <==> AllGood(headers) && HeaderBytes(headers) <= MAX_HEADERS_BYTES
    ensures v == HeadersTooLarge <==> AllGood(headers) && HeaderBytes(headers) > MAX_HEADERS_BYTES
    ensures forall k: nat :: FirstBad(headers, k) ==> v == HeaderVerdict(headers[k], k)
    ensures v.BadName? || v.ManagedHeader? || v.BadValue? ==> FirstBad(headers, v.k)
    ensures v in {Valid, HeadersTooLarge} || v.BadName? || v.ManagedHeader? || v.BadValue?
  {
    var headerBytes := 0;
    for k := 0 to |headers|
      invariant forall i :: 0 <= i < k ==> GoodHeader(headers[i])
      invariant headerBytes == HeaderBytes(headers[..k])
    {
      var h := headers[k];
      v := HeaderVerdict(h, k);
      if v != Valid { return; }
      assert headers[..k + 1][..k] == headers[..k];
      headerBytes := headerBytes + |h.name| + |h.value| + 4;
    }
    assert headers[..|headers|] == headers;
    return if headerBytes > MAX_HEADERS_BYTES then HeadersTooLarge else Valid;
  }

  // ----- encoding -----

  function Decimal(n: nat): Bytes
  {
    if n < 10 then [(48 + n) as byte] else Decimal(n / 10) + [(48 + n % 10) as byte]
  }

  const COLON: Bytes := [58, 32]

  function FieldLine(h: Header): Bytes { h.name + COLON + h.value }

  function RequestLine(r: Request): Bytes { Text(Name(r.verb)) + [32] + r.path + Text(" HTTP/1.1") }

  /** Every field of the encoded head, in order. */
  function Fields(r: Request, host: Bytes): seq<Header>
  {
    [Header(HOST, host)] + r.headers
    + (if r.verb in {Get, Head} then [] else [Header(CONTENT_LENGTH, Decimal(|r.body|))])
    + [Header(CONNECTION, Text("keep-alive"))]
  }

  /** Each line with its line end. */
  function Join(lines: seq<Bytes>): Bytes
  {
    if lines == [] then [] else lines[0] + CRLF + Join(lines[1..])
  }

  function FieldLines(fields: seq<Header>): (lines: seq<Bytes>)
    ensures |lines| == |fields| && forall k :: 0 <= k < |fields| ==> lines[k] == FieldLine(fields[k])
  {
    seq(|fields|, k requires 0 <= k < |fields| => FieldLine(fields[k]))
  }

  /** The size that is limited is what the fields take up when they are written. */
  lemma {:induction false} HeaderBytesAreWritten(headers: seq<Header>)
    ensures HeaderBytes(headers) == |Join(FieldLines(headers))|
  {
    if headers != [] {
      var k := |headers| - 1;
      HeaderBytesAreWritten(headers[..k]);
      assert FieldLines(headers) == FieldLines(headers[..k]) + [FieldLine(headers[k])];
      JoinConcat(FieldLines(headers[..k]), [FieldLine(headers[k])]);
      OneLineJoined(FieldLine(headers[k]));
    }
  }

  lemma OneLineJoined(line: Bytes)
    ensures |Join([line])| == |line| + 2
  {
    assert [line][1..] == [];
  }

  function Encode(r: Request, host: Bytes): Bytes
  {
    Join([RequestLine(r)] + FieldLines(Fields(r, host))) + CRLF + r.body
  }

  lemma {:induction false} JoinConcat(a: seq<Bytes>, b: seq<Bytes>)
    ensures Join(a + b) == Join(a) + Join(b)
  {
    if a == [] {
      assert a + b == b;
    } else {
      assert (a + b)[1..] == a[1..] + b;
      JoinConcat(a[1..], b);
    }
  }

  lemma JoinOne(a: seq<Bytes>, line: Bytes)
    ensures Join(a + [line]) == Join(a) + line + CRLF
  {
    JoinConcat(a, [line]);
    assert [line][1..] == [];
  }

  lemma JoinField(lines: seq<Bytes>, h: Header)
    ensures Join(lines + [FieldLine(h)]) == Join(lines) + h.name + COLON + h.value + CRLF
  {
    JoinOne(lines, FieldLine(h));
    assert Join(lines) + FieldLine(h) == Join(lines) + h.name + COLON + h.value;
  }

  lemma FieldLinesNext(lines: seq<Bytes>, fields: seq<Header>, k: nat)
    requires k < |fields|
    ensures lines + FieldLines(fields[..k + 1]) == (lines + FieldLines(fields[..k])) + [FieldLine(fields[k])]
  {
    assert FieldLines(fields[..k + 1]) == FieldLines(fields[..k]) + [FieldLine(fields[k])];
  }

  /** The encoder appends piece by piece to one buffer. */
  method ReplayRequest(r: Request, host: Bytes) returns (encoded: Bytes)
    ensures encoded == Encode(r, host)
  {
    ghost var lines: seq<Bytes>;
    encoded, lines := Opening(r, host);
    encoded := AppendHeaders(encoded, r.headers, lines);
    lines := lines + FieldLines(r.headers);
    if r.verb !in {Get, Head} {
      var length := Decimal(|r.body|);
      JoinField(lines, Header(CONTENT_LENGTH, length));
      lines := lines + [FieldLine(Header(CONTENT_LENGTH, length))];
      encoded := encoded + CONTENT_LENGTH + COLON + length + CRLF;
    }
    JoinField(lines, Header(CONNECTION, Text("keep-alive")));
    lines := lines + [FieldLine(Header(CONNECTION, Text("keep-alive")))];
    encoded := encoded + CONNECTION + COLON + Text("keep-alive") + CRLF;
    assert lines == [RequestLine(r)] + FieldLines(Fields(r, host));
    encoded := encoded + CRLF;
    encoded := encoded + r.body;
  }

  /** The request line and the host, formatted in one go. */
  method Opening(r: Request, host: Bytes) returns (encoded: Bytes, ghost lines: seq<Bytes>)
    ensures lines == [RequestLine(r), FieldLine(Header(HOST, host))]
    ensures encoded == Join(lines)
  {
    lines := [RequestLine(r)] + [FieldLine(Header(HOST, host))];
    encoded := RequestLine(r) + CRLF + HOST + COLON + host + CRLF;
    JoinOne([], RequestLine(r));
    assert [] + [RequestLine(r)] == [RequestLine(r)];
    JoinField([RequestLine(r)], Header(HOST, host));
  }

  method AppendHeaders(buffer: Bytes, headers: seq<Header>, ghost lines: seq<Bytes>) returns (encoded: Bytes)
    requires buffer == Join(lines)
    ensures encoded == Join(lines + FieldLines(headers))
  {
    encoded := buffer;
    assert lines + FieldLines(headers[..0]) == lines;
    for k := 0 to |headers|
      invariant encoded == Join(lines + FieldLines(headers[..k]))
    {
      FieldLinesNext(lines, headers, k);
      JoinField(lines + FieldLines(headers[..k]), headers[k]);
      encoded := encoded + headers[k].name;
      encoded := encoded + COLON;
      encoded := encoded + headers[k].value;
      encoded := encoded + CRLF;
    }
    assert headers[..|headers|] == headers;
  }

  // ----- reading an encoded request back -----

  /** Lines up to the first empty one, and whatever follows it. */
  datatype Wire = Wire(lines: seq<Bytes>, rest: Bytes)

  function ReadWire(s: Bytes): Option<Wire>
    decreases |s|
  {
    match FindBytes(s, CRLF)
    case None => None
    case Some(k) =>
      if k == 0 then Some(Wire([], s[2..]))
      else match ReadWire(s[k + 2..])
        case None => None
        case Some(w) => Some(Wire([s[..k]] + w.lines, w.rest))
  }

  /** A line that cannot be confused with a line end or with the empty line. */
  predicate Clean(line: Bytes)
  {
    line != [] && NoBreak(line)
  }

  predicate NoBreak(s: Bytes)
  {
    forall i :: 0 <= i < |s| ==> s[i] != 13 && s[i] != 10
  }

  lemma FirstBreak(line: Bytes, rest: Bytes)
    requires NoBreak(line)
    ensures FindBytes(line + CRLF + rest, CRLF) == Some(|line|)
  {
    var s := line + CRLF + rest;
    FindFromIsFirst(s, CRLF, 0);
    assert s[|line|..|line| + 2] == CRLF;
    assert IsAt(s, CRLF, |line|);
    forall j: nat | j < |line| ensures !IsAt(s, CRLF, j) {
      assert s[j] == line[j];
      if j + 2 <= |s| { assert s[j..j + 2][0] == s[j]; }
    }
  }

  lemma ReadNext(line: Bytes, rest: Bytes)
    requires Clean(line)
    ensures ReadWire(line + CRLF + rest) ==
            match ReadWire(rest) case None => None case Some(w) => Some(Wire([line] + w.lines, w.rest))
  {
    var s := line + CRLF + rest;
    FirstBreak(line, rest);
    assert s[..|line|] == line && s[|line| + 2..] == rest;
  }

  lemma ReadBlank(body: Bytes)
    ensures ReadWire(CRLF + body) == Some(Wire([], body))
  {
    FirstBreak([], body);
    assert [] + CRLF + body == CRLF + body;
  }

  lemma {:induction false} ReadBack(lines: seq<Bytes>, body: Bytes)
    requires forall k :: 0 <= k < |lines| ==> Clean(lines[k])
    ensures ReadWire(Join(lines) + CRLF + body) == Some(Wire(lines, body))
  {
    if lines == [] {
      ReadBlank(body);
      assert Join(lines) + CRLF + body == CRLF + body;
    } else {
      ReadBack(lines[1..], body);
      ReadNext(lines[0], Join(lines[1..]) + CRLF + body);
      JoinSplits(lines, body);
      assert [lines[0]] + lines[1..] == lines;
    }
  }

  lemma JoinSplits(lines: seq<Bytes>, body: Bytes)
    requires lines != []
    ensures Join(lines) + CRLF + body == lines[0] + CRLF + (Join(lines[1..]) + CRLF + body)
  {
  }

  lemma AtReads(s: Bytes, needle: Bytes, j: nat, i: nat)
    requires IsAt(s, needle, j) && i < |needle|
    ensures s[j + i] == needle[i]
  {
    assert s[j..j + |needle|][i] == s[j + i];
  }

  lemma AtShifts(a: Bytes, b: Bytes, needle: Bytes, j: nat)
    requires IsAt(a + b, needle, j) && |a| <= j
    ensures IsAt(b, needle, j - |a|)
  {
    assert (a + b)[j..j + |needle|] == b[j - |a|..j - |a| + |needle|];
  }

  /** The blank line that ends the head is the first one anywhere. */
  lemma {:induction false} HeadEnd(lines: seq<Bytes>, body: Bytes, j: nat)
    requires lines != [] && forall k :: 0 <= k < |lines| ==> Clean(lines[k])
    requires IsAt(Join(lines) + CRLF + body, CRLFCRLF, j)
    ensures |Join(lines)| <= j + 2
  {
    var l := lines[0];
    var rest := Join(lines[1..]) + CRLF + body;
    JoinSplits(lines, body);
    var s := l + CRLF + rest;
    AtReads(s, CRLFCRLF, j, 0);
    AtReads(s, CRLFCRLF, j, 2);
    NoBreakInside(l, CRLF + rest);
    assert s == l + (CRLF + rest);
    if 1 < |lines| {
      assert rest[0] == lines[1][0];
      if |l| + 2 <= j {
        AtShifts(l + CRLF, rest, CRLFCRLF, j);
        HeadEnd(lines[1..], body, j - |l| - 2);
      }
    }
  }

  lemma NoBreakInside(l: Bytes, tail: Bytes)
    requires NoBreak(l)
    ensures forall i :: 0 <= i < |l| ==> (l + tail)[i] != 13
  {
  }

  lemma FirstBlankLine(lines: seq<Bytes>, body: Bytes)
    requires lines != [] && forall k :: 0 <= k < |lines| ==> Clean(lines[k])
    ensures 2 <= |Join(lines)| && FindBytes(Join(lines) + CRLF + body, CRLFCRLF) == Some(|Join(lines)| - 2)
  {
    var s := Join(lines) + CRLF + body;
    var n := |Join(lines)|;
    JoinEnds(lines);
    assert s[n - 2..n + 2] == Join(lines)[n - 2..] + CRLF;
    assert IsAt(s, CRLFCRLF, n - 2);
    FindFromIsFirst(s, CRLFCRLF, 0);
    HeadEnd(lines, body, FindBytes(s, CRLFCRLF).value);
  }

  lemma {:induction false} JoinEnds(lines: seq<Bytes>)
    requires lines != []
    ensures 2 <= |Join(lines)| && Join(lines)[|Join(lines)| - 2..] == CRLF
  {
    if 1 < |lines| { JoinEnds(lines[1..]); }
  }

  // ----- reading lines and fields -----

  /** What a server makes of a request: the three parts of its first line, its fields, and the bytes after the head. */
  datatype Received = Received(verb: Bytes, target: Bytes, version: Bytes, fields: seq<Header>, body: Bytes)

  /** Everything before and after the first `b`. */
  function CutAt(s: Bytes, b: byte): Option<(Bytes, Bytes)>
  {
    if s == [] then None
    else if s[0] == b then Some(([], s[1..]))
    else match CutAt(s[1..], b)
      case None => None
      case Some((left, right)) => Some(([s[0]] + left, right))
  }

  /** A field line: a name, a colon, and a value after one space. */
  function ReadField(line: Bytes): Option<Header>
  {
    match CutAt(line, 58)
    case None => None
    case Some((name, value)) => if value == [] || value[0] != 32 then None else Some(Header(name, value[1..]))
  }

  function ReadFields(lines: seq<Bytes>): Option<seq<Header>>
  {
    if lines == [] then Some([])
    else match (ReadField(lines[0]), ReadFields(lines[1..]))
      case (Some(h), Some(rest)) => Some([h] + rest)
      case _ => None
  }

  function ReadRequest(s: Bytes): Option<Received>
  {
    match ReadWire(s)
    case None => None
    case Some(w) =>
      if w.lines == [] then None
      else match CutAt(w.lines[0], 32)
        case None => None
        case Some((verb, rest)) =>
          match CutAt(rest, 32)
          case None => None
          case Some((target, version)) =>
            match ReadFields(w.lines[1..])
            case None => None
            case Some(fields) => Some(Received(verb, target, version, fields, w.rest))
  }

  function ReadDecimal(s: Bytes): Option<nat>
  {
    if s == [] then None
    else if !(48 <= s[|s| - 1] <= 57) then None
    else
      var low := s[|s| - 1] as int - 48;
      if |s| == 1 then Some(low)
      else match ReadDecimal(s[..|s| - 1]) case None => None case Some(high) => Some(high * 10 + low)
  }

  lemma {:induction false} DecimalReadsBack(n: nat)
    ensures ReadDecimal(Decimal(n)) == Some(n)
    ensures NoBreak(Decimal(n))
  {
    if 10 <= n {
      DecimalReadsBack(n / 10);
      assert Decimal(n)[..|Decimal(n)| - 1] == Decimal(n / 10);
    }
  }

  lemma {:induction false} CutBack(left: Bytes, b: byte, right: Bytes)
    requires b !in left
    ensures CutAt(left + [b] + right, b) == Some((left, right))
  {
    var s := left + [b] + right;
    if left == [] {
      assert s[1..] == right;
    } else {
      assert s[1..] == left[1..] + [b] + right && s[0] == left[0];
      CutBack(left[1..], b, right);
      assert [left[0]] + left[1..] == left;
    }
  }

  /** A field that survives the line format: no colon in its name, no line break anywhere. */
  predicate Encodable(h: Header)
  {
    h.name != [] && 58 !in h.name && NoBreak(h.name) && NoBreak(h.value)
  }

  lemma FieldReadsBack(h: Header)
    requires Encodable(h)
    ensures Clean(FieldLine(h)) && ReadField(FieldLine(h)) == Some(h)
  {
    CutBack(h.name, 58, [32] + h.value);
    assert FieldLine(h) == h.name + [58] + ([32] + h.value);
  }

  lemma {:induction false} FieldsReadBack(fields: seq<Header>)
    requires forall k :: 0 <= k < |fields| ==> Encodable(fields[k])
    ensures ReadFields(FieldLines(fields)) == Some(fields)
  {
    if fields != [] {
      FieldReadsBack(fields[0]);
      FieldsReadBack(fields[1..]);
      assert FieldLines(fields)[1..] == FieldLines(fields[1..]);
      assert [fields[0]] + fields[1..] == fields;
    }
  }

  // ----- accepted requests are encodable -----

  lemma GoodHeaderIsEncodable(h: Header)
    requires GoodHeader(h)
    ensures Encodable(h)
  {
    assert forall i :: 0 <= i < |h.name| ==> NameByte(h.name[i]);
  }

  lemma FieldsAreEncodable(r: Request, host: Bytes)
    requires Acceptable(r) && NoBreak(host)
    ensures forall k :: 0 <= k < |Fields(r, host)| ==> Encodable(Fields(r, host)[k])
  {
    forall k | 0 <= k < |r.headers| ensures Encodable(r.headers[k]) {
      GoodHeaderIsEncodable(r.headers[k]);
    }
    DecimalReadsBack(|r.body|);
    assert Encodable(Header(HOST, host));
    assert Encodable(Header(CONTENT_LENGTH, Decimal(|r.body|)));
    assert Encodable(Header(CONNECTION, Text("keep-alive")));
  }

  lemma PathIsPlain(path: Bytes)
    requires OriginForm(path)
    ensures NoBreak(path) && 32 !in path
  {
    forall i | 0 <= i < |path| ensures path[i] != 13 && path[i] != 10 && path[i] != 32 {
      assert GoodAt(path, i);
    }
  }

  lemma NameIsPlain(m: Method)
    ensures var name := Text(Name(m)); NoBreak(name) && 32 !in name && name != []
  {
    var name := Text(Name(m));
    assert forall i :: 0 <= i < |Name(m)| ==> 'A' <= Name(m)[i] <= 'Z';
  }

  lemma RequestLineSplits(r: Request)
    ensures RequestLine(r) == Text(Name(r.verb)) + [32] + (r.path + [32] + Text("HTTP/1.1"))
  {
    assert Text(" HTTP/1.1") == [32] + Text("HTTP/1.1");
  }

  lemma RequestLineReadsBack(r: Request)
    requires OriginForm(r.path)
    ensures CutAt(RequestLine(r), 32) == Some((Text(Name(r.verb)), r.path + [32] + Text("HTTP/1.1")))
    ensures CutAt(r.path + [32] + Text("HTTP/1.1"), 32) == Some((r.path, Text("HTTP/1.1")))
  {
    NameIsPlain(r.verb);
    PathIsPlain(r.path);
    RequestLineSplits(r);
    CutBack(Text(Name(r.verb)), 32, r.path + [32] + Text("HTTP/1.1"));
    CutBack(r.path, 32, Text("HTTP/1.1"));
  }

  lemma RequestLineIsClean(r: Request)
    requires OriginForm(r.path)
    ensures Clean(RequestLine(r))
  {
    NameIsPlain(r.verb);
    PathIsPlain(r.path);
    assert NoBreak(Text(" HTTP/1.1"));
    NoBreakConcat(Text(Name(r.verb)), [32]);
    NoBreakConcat(Text(Name(r.verb)) + [32], r.path);
    NoBreakConcat(Text(Name(r.verb)) + [32] + r.path, Text(" HTTP/1.1"));
  }

  lemma NoBreakConcat(a: Bytes, b: Bytes)
    requires NoBreak(a) && NoBreak(b)
    ensures NoBreak(a + b)
  {
  }

  lemma LinesAreClean(r: Request, host: Bytes)
    requires Acceptable(r) && NoBreak(host)
    ensures var lines := [RequestLine(r)] + FieldLines(Fields(r, host));
            forall k :: 0 <= k < |lines| ==> Clean(lines[k])
  {
    RequestLineIsClean(r);
    FieldsAreEncodable(r, host);
    forall k | 0 <= k < |Fields(r, host)| ensures Clean(FieldLines(Fields(r, host))[k]) {
      FieldReadsBack(Fields(r, host)[k]);
    }
  }

  // ----- the guarantees -----

  /**
   * For every accepted request and every host without line breaks, the encoded bytes read back as exactly
   * the method, the path, the fields and the body that were meant.
   */
  lemma EncodedReadsBack(r: Request, host: Bytes)
    requires Acceptable(r) && NoBreak(host)
    ensures ReadRequest(Encode(r, host)) ==
            Some(Received(Text(Name(r.verb)), r.path, Text("HTTP/1.1"), Fields(r, host), r.body))
  {
    var fields := Fields(r, host);
    var lines := [RequestLine(r)] + FieldLines(fields);
    LinesAreClean(r, host);
    ReadBack(lines, r.body);
    RequestLineReadsBack(r);
    FieldsAreEncodable(r, host);
    FieldsReadBack(fields);
    assert lines[1..] == FieldLines(fields);
  }

  /**
   * The fields of the encoded head: the host with its value, then the request's own headers in their order, then the
   * length of the body for methods that have one, and last that the connection is kept.
   */
  lemma FieldsInOrder(r: Request, host: Bytes)
    ensures var fields, n := Fields(r, host), |r.headers|;
            && |fields| == n + (if r.verb in {Get, Head} then 2 else 3)
            && fields[0].name == Text("Host") && fields[0].value == host
            && (forall k :: 0 <= k < n ==> fields[k + 1] == r.headers[k])
            && (r.verb !in {Get, Head} ==>
                  fields[n + 1].name == Text("Content-Length") && ReadDecimal(fields[n + 1].value) == Some(|r.body|))
            && fields[|fields| - 1] == Header(Text("Connection"), Text("keep-alive"))
  {
    DecimalReadsBack(|r.body|);
  }

  /** The first blank line of the encoded bytes ends exactly where the body starts. */
  lemma BodyStartsAtFirstBlankLine(r: Request, host: Bytes)
    requires Acceptable(r) && NoBreak(host)
    ensures var encoded := Encode(r, host);
            && FindBytes(encoded, CRLFCRLF) == Some(|encoded| - |r.body| - 4)
            && encoded[|encoded| - |r.body|..] == r.body
  {
    LinesAreClean(r, host);
    FirstBlankLine([RequestLine(r)] + FieldLines(Fields(r, host)), r.body);
  }

  /** Whether a field has that name, whatever its letter case. */
  predicate Named(h: Header, name: Bytes) { SameName(h.name, name) }

  /**
   * For every method but GET and HEAD the length of the body is announced exactly once, by the encoder;
   * for those two it never is, and no field ever announces a transfer coding.
   */
  lemma FramingIsManaged(r: Request, host: Bytes)
    requires Acceptable(r) && NoBreak(host)
    ensures var fields := Fields(r, host);
            var n := |fields| - 2;
            && (forall k :: 0 <= k < |fields| ==> !Named(fields[k], TRANSFER_ENCODING))
            && (forall k :: 0 <= k < |fields| ==> (Named(fields[k], HOST) <==> k == 0))
            && (r.verb in {Get, Head} ==> forall k :: 0 <= k < |fields| ==> !Named(fields[k], CONTENT_LENGTH))
            && (r.verb !in {Get, Head} ==>
                  && (forall k :: 0 <= k < |fields| ==> (Named(fields[k], CONTENT_LENGTH) <==> k == n))
                  && ReadDecimal(fields[n].value) == Some(|r.body|))
  {
    var fields := Fields(r, host);
    DecimalReadsBack(|r.body|);
    forall k | 0 <= k < |r.headers|
      ensures !Named(r.headers[k], TRANSFER_ENCODING) && !Named(r.headers[k], HOST) && !Named(r.headers[k], CONTENT_LENGTH)
    {
      NotReserved(r.headers[k]);
    }
    DistinctNames();
  }

  lemma NotReserved(h: Header)
    requires GoodHeader(h)
    ensures !Named(h, TRANSFER_ENCODING) && !Named(h, HOST) && !Named(h, CONTENT_LENGTH)
  {
    assert RESERVED[0] == HOST && RESERVED[2] == CONTENT_LENGTH && RESERVED[3] == TRANSFER_ENCODING;
  }

  lemma DistinctNames()
    ensures !SameName(HOST, TRANSFER_ENCODING) && !SameName(HOST, CONTENT_LENGTH)
    ensures !SameName(CONTENT_LENGTH, TRANSFER_ENCODING) && !SameName(CONTENT_LENGTH, HOST)
    ensures !SameName(CONNECTION, TRANSFER_ENCODING) && !SameName(CONNECTION, HOST) && !SameName(CONNECTION, CONTENT_LENGTH)
  {
  }

  lemma PathIsInLine(r: Request)
    ensures var start := |Name(r.verb)| + 1;
            && start + |r.path| <= |RequestLine(r)|
            && RequestLine(r)[start..start + |r.path|] == r.path
  {
  }

  lemma PathIsInPlace(r: Request, host: Bytes)
    ensures var start := |Name(r.verb)| + 1;
            && start + |r.path| <= |Encode(r, host)|
            && Encode(r, host)[start..start + |r.path|] == r.path
  {
    var start := |Name(r.verb)| + 1;
    var lines := [RequestLine(r)] + FieldLines(Fields(r, host));
    var tail := Join(lines[1..]) + CRLF + r.body;
    JoinSplits(lines, r.body);
    PathIsInLine(r);
    PrefixSlice(RequestLine(r), CRLF + tail, start, start + |r.path|);
    assert RequestLine(r) + CRLF + tail == RequestLine(r) + (CRLF + tail);
  }

  /** `method_uri_start`, and what `next` reads from it. */
  function Packed(verb: Method): bv32 { Replay.Pack(Index(verb) as bv32, (|Name(verb)| + 1) as bv32) }

  function PackedIndex(packed: bv32): nat { (packed >> 29) as nat }

  function PackedStart(packed: bv32): nat { (packed & 0x1fff_ffff) as nat }

  lemma BackToNat(n: nat)
    requires n < 16
    ensures (n as bv32) as nat == n
  {
  }

  lemma Fits(n: nat)
    requires n < 16
    ensures n as bv32 < 0x2000_0000 && (n < 7 ==> n as bv32 < 7)
  {
  }

  lemma PackedParts(verb: Method)
    ensures PackedIndex(Packed(verb)) == Index(verb)
    ensures PackedStart(Packed(verb)) == |Name(verb)| + 1
  {
    var i, s := Index(verb), |Name(verb)| + 1;
    Fits(i);
    Fits(s);
    Replay.PackRoundTrip(i as bv32, s as bv32);
    BackToNat(i);
    BackToNat(s);
    assert PackedIndex(Packed(verb)) == (i as bv32) as nat;
    assert PackedStart(Packed(verb)) == (s as bv32) as nat;
  }

  /** The packed method and URI range give back the method and the path of the encoded request. */
  lemma PackedRangeReadsBack(r: Request, host: Bytes)
    ensures var packed := Packed(r.verb);
            && PackedIndex(packed) < |ALL| && ALL[PackedIndex(packed)] == r.verb
            && PackedStart(packed) + |r.path| <= |Encode(r, host)|
            && Encode(r, host)[PackedStart(packed)..PackedStart(packed) + |r.path|] == r.path
  {
    PackedParts(r.verb);
    PathIsInPlace(r, host);
  }

  lemma PrefixSlice(a: Bytes, b: Bytes, i: nat, j: nat)
    requires i <= j <= |a|
    ensures (a + b)[i..j] == a[i..j]
  {
  }
}
