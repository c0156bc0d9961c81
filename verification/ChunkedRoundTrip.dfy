/** Encoding a body as chunks and decoding it again, and the bytes a decoder can account for. */
module ChunkedRoundTrip {
  import opened Prelude
  import opened ResponseHead
  import opened Decoder
  import opened DecoderProofs

  // ----- hexadecimal sizes -----

  function HexDigit(d: nat): (b: byte)
    requires d < 16
  {
    (if d < 10 then 48 + d else 87 + d) as byte
  }

  function Hex(n: nat): (h: seq<byte>)
    ensures h != []
  {
    if n < 16 then [HexDigit(n)] else Hex(n / 16) + [HexDigit(n % 16)]
  }

  lemma FourDigits(n: nat)
    ensures |Hex(n)| <= 4 + |Hex(n / 0x1_0000)|
  {
    var n1 := n / 16;
    var n2 := n1 / 16;
    var n3 := n2 / 16;
    assert n3 / 16 == n / 0x1_0000;
    assert |Hex(n)| <= 1 + |Hex(n1)|;
    assert |Hex(n1)| <= 1 + |Hex(n2)|;
    assert |Hex(n2)| <= 1 + |Hex(n3)|;
    assert |Hex(n3)| <= 1 + |Hex(n3 / 16)|;
  }

  lemma SizeLineIsShort(n: nat)
    requires n <= USIZE_MAX
    ensures |Hex(n)| <= 17
  {
    var m1 := n / 0x1_0000;
    var m2 := m1 / 0x1_0000;
    var m3 := m2 / 0x1_0000;
    FourDigits(n);
    FourDigits(m1);
    FourDigits(m2);
    FourDigits(m3);
    assert m3 / 0x1_0000 == 0;
  }

  predicate IsHexByte(b: byte) { 48 <= b <= 57 || 97 <= b <= 102 }

  lemma {:induction false} HexBytes(n: nat)
    ensures forall b :: b in Hex(n) ==> IsHexByte(b)
  {
    if 16 <= n {
      HexBytes(n / 16);
    }
  }

  function AsText(b: seq<byte>): (text: string)
    ensures |text| == |b|
  {
    if b == [] then [] else [if b[0] < 0x80 then (b[0] as int) as char else '?'] + AsText(b[1..])
  }

  lemma {:induction false} AsTextAppend(a: seq<byte>, x: byte)
    ensures AsText(a + [x]) == AsText(a) + AsText([x])
  {
    if a != [] {
      assert (a + [x])[1..] == a[1..] + [x];
      AsTextAppend(a[1..], x);
    } else {
      assert a + [x] == [x];
    }
  }

  lemma {:induction false} DecodeAscii(b: seq<byte>)
    requires forall x :: x in b ==> x < 0x80
    ensures DecodeUtf8(b) == Some(AsText(b))
  {
    if b != [] {
      assert forall x :: x in b[1..] ==> x in b;
      DecodeAscii(b[1..]);
      assert b[0] in b;
      assert DecodeScalar(b) == Some(((b[0] as int) as char, 1));
    }
  }

  lemma HexDigitText(d: nat)
    requires d < 16
    ensures AsText([HexDigit(d)]) == [(HexDigit(d) as int) as char]
    ensures DigitValue((HexDigit(d) as int) as char, 16) == Some(d)
  {
  }

  lemma {:induction false} HexValue(n: nat)
    ensures DigitsValue(AsText(Hex(n)), 16) == Some(n)
  {
    HexDigitText(n % 16);
    if n < 16 {
      var text := AsText(Hex(n));
      assert text[..0] == [];
      assert DigitsValue([], 16) == Some(0);
    } else {
      HexValue(n / 16);
      AsTextAppend(Hex(n / 16), HexDigit(n % 16));
      var text := AsText(Hex(n));
      assert text == AsText(Hex(n / 16)) + [(HexDigit(n % 16) as int) as char];
      assert text[..|text| - 1] == AsText(Hex(n / 16));
      assert text[|text| - 1] == (HexDigit(n % 16) as int) as char;
    }
  }

  predicate PlainChar(c: char) { c != ';' && c != '+' }

  lemma {:induction false} HexText(b: seq<byte>)
    requires forall x :: x in b ==> IsHexByte(x)
    ensures forall c :: c in AsText(b) ==> PlainChar(c)
  {
    if b != [] {
      assert forall x :: x in b[1..] ==> x in b;
      assert b[0] in b;
      HexText(b[1..]);
    }
  }

  /** The size reader reads back every hexadecimal size. */
  lemma ReadsHex(n: nat)
    requires n <= USIZE_MAX
    ensures ParseChunkSize(Hex(n)) == Some(n)
  {
    HexBytes(n);
    DecodeAscii(Hex(n));
    HexText(Hex(n));
    HexValue(n);
    ReadsText(AsText(Hex(n)), n);
  }

  lemma ReadsText(text: string, n: nat)
    requires text != [] && forall c :: c in text ==> PlainChar(c)
    requires DigitsValue(text, 16) == Some(n) && n <= USIZE_MAX
    ensures ParseUnsigned(Split(text, ';')[0], 16, USIZE_MAX) == Some(n)
  {
    assert ';' !in text && '+' !in text;
    assert IndexOf(text, ';') == |text|;
  }

  /** Chunk extensions after a semicolon are ignored. */
  lemma ExtensionIsIgnored(n: nat, extension: seq<byte>)
    requires n <= USIZE_MAX && forall x :: x in extension ==> x < 0x80
    ensures ParseChunkSize(Hex(n) + [59] + extension) == Some(n)
  {
    var line := Hex(n) + [59] + extension;
    HexBytes(n);
    DecodeAscii(line);
    HexText(Hex(n));
    HexValue(n);
    AsTextConcat(Hex(n) + [59], extension);
    AsTextAppend(Hex(n), 59);
    var text := AsText(Hex(n));
    assert ';' !in text && '+' !in text;
    assert AsText([59]) == ";";
    SplitAtSemicolon(text, AsText(extension));
  }

  lemma SplitAtSemicolon(size: string, rest: string)
    requires ';' !in size
    ensures Split(size + ";" + rest, ';')[0] == size
  {
    var s := size + ";" + rest;
    var i := IndexOf(s, ';');
    assert s[|size|] == ';' && s[..|size|] == size;
  }

  lemma {:induction false} AsTextConcat(a: seq<byte>, b: seq<byte>)
    ensures AsText(a + b) == AsText(a) + AsText(b)
  {
    if a == [] {
      assert a + b == b;
    } else {
      assert (a + b)[1..] == a[1..] + b;
      AsTextConcat(a[1..], b);
    }
  }

  // ----- the encoding of section 7.1 of RFC 9112 -----

  /** Chunks, the last chunk, and a trailer section, which is empty or some lines without their last line end. */
  function EncodeChunks(chunks: seq<seq<byte>>, trailer: seq<byte>): seq<byte>
  {
    if chunks == [] then [48] + CRLF + TrailerSection(trailer)
    else Frame(chunks[0]) + EncodeChunks(chunks[1..], trailer)
  }

  function TrailerSection(trailer: seq<byte>): seq<byte>
  {
    if trailer == [] then CRLF else trailer + CRLFCRLF
  }

  /** A trailer that ends at the first blank line. */
  predicate Trailed(trailer: seq<byte>)
  {
    trailer == [] ||
    (|trailer| + 3 <= MAX_HEADER_BYTES && !(CRLF <= trailer + CRLFCRLF) &&
     FindBytes(trailer + CRLFCRLF, CRLFCRLF) == Some(|trailer|))
  }

  function Frame(chunk: seq<byte>): seq<byte>
  {
    Hex(|chunk|) + CRLF + chunk + CRLF
  }

  function TotalLength(chunks: seq<seq<byte>>): nat
  {
    if chunks == [] then 0 else |chunks[0]| + TotalLength(chunks[1..])
  }

  predicate Encodable(chunks: seq<seq<byte>>)
  {
    forall c :: c in chunks ==> 0 < |c| <= USIZE_MAX
  }

  /** A grammar whose size lines read hexadecimal back. */
  ghost predicate SizesAreHex(g: Grammar)
  {
    forall n: nat :: n <= USIZE_MAX ==> g.parseSize(Hex(n)) == Some(n)
  }

  lemma HttpSizesAreHex()
    ensures SizesAreHex(HTTP)
  {
    forall n: nat | n <= USIZE_MAX ensures HTTP.parseSize(Hex(n)) == Some(n) {
      ReadsHex(n);
    }
  }

  lemma FindLineEnd(line: seq<byte>, rest: seq<byte>)
    requires forall x :: x in line ==> IsHexByte(x)
    ensures FindBytes(line + CRLF + rest, CRLF) == Some(|line|)
  {
    var s := line + CRLF + rest;
    FindFromIsFirst(s, CRLF, 0);
    assert s[|line|..|line| + 2] == CRLF;
    assert IsAt(s, CRLF, |line|);
    assert 13 !in line;
    forall j: nat | j < |line| ensures !IsAt(s, CRLF, j) {
      assert s[j..j + 2][0] == s[j] == line[j];
    }
  }

  /** The trailer section is complete at its end and not before. */
  lemma TrailersRead(trailer: seq<byte>, j: nat, total: nat)
    requires Trailed(trailer) && j <= |TrailerSection(trailer)|
    ensures ParseTrailers(TrailerSection(trailer)[..j], total) ==
            if j == |TrailerSection(trailer)| then Complete(total) else Pending
  {
    var s := TrailerSection(trailer);
    FindInPrefix(s[..j], s, CRLFCRLF);
    if trailer == [] {
      FindFromIsFirst(s[..j], CRLFCRLF, 0);
      assert j == 2 ==> s[..j] == CRLF;
    } else {
      assert CRLF <= s[..j] ==> CRLF <= s;
      assert j == |s| ==> s[..j] == s;
    }
  }

  /** The last chunk and the trailer section: no strict prefix is complete. */
  lemma LastChunk(g: Grammar, trailer: seq<byte>, k: nat, total: nat)
    requires SizesAreHex(g) && Trailed(trailer) && k <= |EncodeChunks([], trailer)|
    ensures ParseChunks(g, EncodeChunks([], trailer)[..k], total) ==
            if k == |EncodeChunks([], trailer)| then Complete(total) else Pending
  {
    var section := TrailerSection(trailer);
    var e := EncodeChunks([], trailer);
    var p := e[..k];
    assert Hex(0) == [48] && g.parseSize(Hex(0)) == Some(0);
    FindLineEnd([48], section);
    FindInPrefix(p, e, CRLF);
    if 3 <= k {
      LastSizeLine(e, section, k);
      TrailersRead(trailer, k - 3, total);
      SizeLineParse(g, p, 1, 0, total);
    }
  }

  lemma LastSizeLine(e: seq<byte>, section: seq<byte>, k: nat)
    requires e == [48] + CRLF + section && 3 <= k <= |e|
    ensures FindBytes(e[..k], CRLF) == Some(1) && e[..k][..1] == [48] && e[..k][3..] == section[..k - 3]
  {
    var p := e[..k];
    FindFromIsFirst(p, CRLF, 0);
    assert IsAt(p, CRLF, 1) by { assert p[1..3] == CRLF; }
    assert !IsAt(p, CRLF, 0) by { assert p[0..2][0] == 48; }
  }

  /** The size line of a frame, in a prefix that contains it. */
  lemma FrameLine(n: nat, rest: seq<byte>, k: nat)
    requires n <= USIZE_MAX
    requires k <= |Hex(n) + CRLF + rest|
    ensures var f := FindBytes((Hex(n) + CRLF + rest)[..k], CRLF);
            && |Hex(n)| + 1 <= MAX_HEADER_BYTES
            && (k < |Hex(n)| + 2 ==> f == None)
            && (|Hex(n)| + 2 <= k ==> f == Some(|Hex(n)|) && (Hex(n) + CRLF + rest)[..k][..|Hex(n)|] == Hex(n))
  {
    var h := Hex(n);
    HexBytes(n);
    SizeLineIsShort(n);
    var w := h + CRLF + rest;
    FindLineEnd(h, rest);
    var p := w[..k];
    FindInPrefix(p, w, CRLF);
    if |h| + 2 <= k {
      FindFromIsFirst(p, CRLF, 0);
      assert IsAt(p, CRLF, |h|) by { assert p[|h|..|h| + 2] == CRLF; }
    }
  }

  lemma FrameData<R>(chunk: seq<byte>, rest: seq<byte>, k: nat, total: nat, short: R, bad: R, next: (seq<byte>, nat) -> R)
    requires k <= |chunk| + 2 + |rest|
    ensures AfterData((chunk + CRLF + rest)[..k], |chunk|, total, short, bad, next) ==
            if k < |chunk| + 2 then short else next(rest[..k - |chunk| - 2], total + |chunk|)
  {
    var p := (chunk + CRLF + rest)[..k];
    if |chunk| + 2 <= k {
      assert p[|chunk|..|chunk| + 2] == CRLF;
      assert p[|chunk| + 2..] == rest[..k - |chunk| - 2];
    }
  }

  lemma FrameCut(h: seq<byte>, tail: seq<byte>, k: nat)
    requires |h| + 2 <= k <= |h| + 2 + |tail|
    ensures (h + CRLF + tail)[..k][|h| + 2..] == tail[..k - |h| - 2]
  {
  }

  /** The size line of a frame, read: what remains is its data and the rest. */
  lemma FrameStart(g: Grammar, chunk: seq<byte>, rest: seq<byte>, k: nat, total: nat)
    requires SizesAreHex(g) && 0 < |chunk| <= USIZE_MAX
    requires k <= |Frame(chunk)| + |rest|
    ensures var tail := chunk + CRLF + rest;
            var p := (Hex(|chunk|) + CRLF + tail)[..k];
            ParseChunks(g, p, total) ==
            if k < |Hex(|chunk|)| + 2 then Pending
            else ParseFrom(g, Data(|chunk|), tail[..k - |Hex(|chunk|)| - 2], total)
  {
    var h, tail := Hex(|chunk|), chunk + CRLF + rest;
    FrameLine(|chunk|, tail, k);
    if |h| + 2 <= k {
      FrameCut(h, tail, k);
      SizeLineParse(g, (h + CRLF + tail)[..k], |h|, |chunk|, total);
    } else {
      NoSizeLine(g, (h + CRLF + tail)[..k], total);
    }
  }

  lemma NoSizeLine(g: Grammar, p: seq<byte>, total: nat)
    requires FindBytes(p, CRLF).None? && |p| <= MAX_HEADER_BYTES
    ensures ParseChunks(g, p, total).Pending?
  {
  }

  lemma FrameShape(chunk: seq<byte>, rest: seq<byte>)
    ensures Frame(chunk) + rest == Hex(|chunk|) + CRLF + (chunk + CRLF + rest)
  {
    Regroup(Hex(|chunk|), CRLF, chunk, rest);
  }

  lemma Regroup(h: seq<byte>, l: seq<byte>, c: seq<byte>, r: seq<byte>)
    ensures h + l + c + l + r == h + l + (c + l + r)
  {
  }

  /** A prefix that ends inside the first frame is incomplete; one that contains it goes on with the rest. */
  lemma FramePrefix(g: Grammar, e: seq<byte>, chunk: seq<byte>, rest: seq<byte>, k: nat, total: nat, answer: Outcome<nat>)
    requires SizesAreHex(g) && 0 < |chunk| <= USIZE_MAX
    requires k <= |e| && e == Frame(chunk) + rest
    requires answer ==
             if k < |Frame(chunk)| then Pending else ParseRest(g)(rest[..k - |Frame(chunk)|], total + |chunk|)
    ensures ParseChunks(g, e[..k], total) == answer
  {
    var at := |Hex(|chunk|)| + 2;
    FrameShape(chunk, rest);
    if at <= k { FrameAnswer(g, chunk, rest, k - at, total, answer); }
    FrameWhole(g, chunk, rest, k, total, answer);
  }

  lemma FrameWhole(g: Grammar, chunk: seq<byte>, rest: seq<byte>, k: nat, total: nat, answer: Outcome<nat>)
    requires SizesAreHex(g) && 0 < |chunk| <= USIZE_MAX && k <= |Frame(chunk)| + |rest|
    requires k < |Hex(|chunk|)| + 2 ==> answer == Pending
    requires |Hex(|chunk|)| + 2 <= k ==>
               ParseFrom(g, Data(|chunk|), (chunk + CRLF + rest)[..k - |Hex(|chunk|)| - 2], total) == answer
    ensures ParseChunks(g, (Hex(|chunk|) + CRLF + (chunk + CRLF + rest))[..k], total) == answer
  {
    FrameStart(g, chunk, rest, k, total);
  }

  lemma FrameAnswer(g: Grammar, chunk: seq<byte>, rest: seq<byte>, j: nat, total: nat, answer: Outcome<nat>)
    requires j <= |chunk| + 2 + |rest|
    requires answer == if j < |chunk| + 2 then Pending else ParseRest(g)(rest[..j - |chunk| - 2], total + |chunk|)
    ensures ParseFrom(g, Data(|chunk|), (chunk + CRLF + rest)[..j], total) == answer
  {
    FrameRest(g, chunk, rest, j, total);
  }

  lemma FrameRest(g: Grammar, chunk: seq<byte>, rest: seq<byte>, j: nat, total: nat)
    requires j <= |chunk| + 2 + |rest|
    ensures ParseFrom(g, Data(|chunk|), (chunk + CRLF + rest)[..j], total) ==
            if j < |chunk| + 2 then Pending else ParseRest(g)(rest[..j - |chunk| - 2], total + |chunk|)
  {
    FrameData(chunk, rest, j, total, Pending, Invalid(BadChunkEnd), ParseRest(g));
  }

  function EncodedAnswer(chunks: seq<seq<byte>>, trailer: seq<byte>, k: nat, total: nat): Outcome<nat>
  {
    if k < |EncodeChunks(chunks, trailer)| then Pending else Complete(total + TotalLength(chunks))
  }

  // The induction over the chunks is about any parser that reads one frame after another.

  type Parser = (seq<byte>, nat) -> Outcome<nat>

  /** Given a prefix of a frame and what follows it: pending inside the frame, and then on with the rest. */
  predicate ReadsFrame(parse: Parser, chunk: seq<byte>, rest: seq<byte>, k: nat, total: nat)
    requires k <= |Frame(chunk)| + |rest|
  {
    parse((Frame(chunk) + rest)[..k], total) ==
    if k < |Frame(chunk)| then Pending else parse(rest[..k - |Frame(chunk)|], total + |chunk|)
  }

  predicate ReadsEnd(parse: Parser, trailer: seq<byte>, k: nat, total: nat)
    requires k <= |EncodeChunks([], trailer)|
  {
    parse(EncodeChunks([], trailer)[..k], total) == EncodedAnswer([], trailer, k, total)
  }

  ghost predicate ReadsFrames(parse: Parser, trailer: seq<byte>)
  {
    && (forall k: nat, total: nat :: k <= |EncodeChunks([], trailer)| ==> ReadsEnd(parse, trailer, k, total))
    && (forall chunk, rest, k: nat, total: nat ::
          0 < |chunk| <= USIZE_MAX && k <= |Frame(chunk)| + |rest| ==> ReadsFrame(parse, chunk, rest, k, total))
  }

  lemma {:induction false} FramesPrefix(parse: Parser, chunks: seq<seq<byte>>, trailer: seq<byte>, k: nat, total: nat)
    requires ReadsFrames(parse, trailer) && Encodable(chunks) && k <= |EncodeChunks(chunks, trailer)|
    ensures parse(EncodeChunks(chunks, trailer)[..k], total) == EncodedAnswer(chunks, trailer, k, total)
  {
    if chunks == [] {
      assert ReadsEnd(parse, trailer, k, total);
    } else {
      var n, rest := |Frame(chunks[0])|, EncodeChunks(chunks[1..], trailer);
      EncodableParts(chunks, trailer);
      assert ReadsFrame(parse, chunks[0], rest, k, total);
      if n <= k { FramesPrefix(parse, chunks[1..], trailer, k - n, total + |chunks[0]|); }
    }
  }

  lemma EncodableParts(chunks: seq<seq<byte>>, trailer: seq<byte>)
    requires Encodable(chunks) && chunks != []
    ensures 0 < |chunks[0]| <= USIZE_MAX && Encodable(chunks[1..])
    ensures EncodeChunks(chunks, trailer) == Frame(chunks[0]) + EncodeChunks(chunks[1..], trailer)
  {
    assert chunks[0] in chunks;
    assert forall c :: c in chunks[1..] ==> c in chunks;
  }

  lemma ParserReadsFrames(g: Grammar, trailer: seq<byte>)
    requires SizesAreHex(g) && Trailed(trailer)
    ensures ReadsFrames(ParseRest(g), trailer)
  {
    var parse := ParseRest(g);
    forall k: nat, total: nat | k <= |EncodeChunks([], trailer)| ensures ReadsEnd(parse, trailer, k, total) { LastChunk(g, trailer, k, total); }
    forall chunk, rest, k: nat, total: nat | 0 < |chunk| <= USIZE_MAX && k <= |Frame(chunk)| + |rest|
      ensures ReadsFrame(parse, chunk, rest, k, total)
    {
      var answer := if k < |Frame(chunk)| then Pending else parse(rest[..k - |Frame(chunk)|], total + |chunk|);
      FramePrefix(g, Frame(chunk) + rest, chunk, rest, k, total, answer);
    }
  }

  /** Every strict prefix of an encoded body is incomplete, and the whole decodes to the length of its chunks. */
  lemma {:induction false} EncodedPrefix(g: Grammar, chunks: seq<seq<byte>>, trailer: seq<byte>, k: nat, total: nat)
    requires SizesAreHex(g) && Encodable(chunks) && Trailed(trailer) && k <= |EncodeChunks(chunks, trailer)|
    ensures ParseChunks(g, EncodeChunks(chunks, trailer)[..k], total) == EncodedAnswer(chunks, trailer, k, total)
  {
    ParserReadsFrames(g, trailer);
    FramesPrefix(ParseRest(g), chunks, trailer, k, total);
  }

  lemma {:induction false} EncodedIsClear(g: Grammar, chunks: seq<seq<byte>>, trailer: seq<byte>, k: nat)
    requires SizesAreHex(g) && Encodable(chunks) && Trailed(trailer) && k <= |EncodeChunks(chunks, trailer)|
    ensures ClearChunks(g, EncodeChunks(chunks, trailer)[..k])
  {
    var p := EncodeChunks(chunks, trailer)[..k];
    if !ClearChunks(g, p) {
      var cut := UnclearCut(g, Size, p, 0);
      assert p[..cut] == EncodeChunks(chunks, trailer)[..cut];
      EncodedPrefix(g, chunks, trailer, cut, 0);
    }
  }

  /**
   * Round trip: a response whose head announces chunked framing, followed by encoded chunks, decodes under any
   * segmentation to the sum of the chunk lengths, and stays incomplete on every strict prefix.
   */
  lemma ChunkedRoundTrip(head: seq<byte>, chunks: seq<seq<byte>>, trailer: seq<byte>, k: nat, segments: seq<seq<byte>>)
    requires Encodable(chunks) && Trailed(trailer)
    requires FindBytes(head + CRLFCRLF + EncodeChunks(chunks, trailer), CRLFCRLF) == Some(|head|)
    requires |head| + 3 <= MAX_HEADER_BYTES
    requires ParseResponseHead(head).HeadOk? && ParseResponseHead(head).head.framing.Chunked?
    requires k <= |head + CRLFCRLF + EncodeChunks(chunks, trailer)|
    requires Concat(segments) == (head + CRLFCRLF + EncodeChunks(chunks, trailer))[..k]
    ensures var h := ParseResponseHead(head).head;
            Stream(HTTP, NewDecoder(false), segments, false) ==
            if k == |head + CRLFCRLF + EncodeChunks(chunks, trailer)|
            then Complete(Parsed(h.status, TotalLength(chunks), h.connectionClose)) else Pending
  {
    HttpSizesAreHex();
    assert HTTP.parseHead(head) == ParseResponseHead(head);
    RoundTripFor(HTTP, head, chunks, trailer, k);
    SegmentationIndependence(HTTP, false, segments, false);
  }

  lemma RoundTripFor(g: Grammar, head: seq<byte>, chunks: seq<seq<byte>>, trailer: seq<byte>, k: nat)
    requires SizesAreHex(g) && Encodable(chunks) && Trailed(trailer)
    requires FindBytes(head + CRLFCRLF + EncodeChunks(chunks, trailer), CRLFCRLF) == Some(|head|)
    requires |head| + 3 <= MAX_HEADER_BYTES
    requires g.parseHead(head).HeadOk? && g.parseHead(head).head.framing.Chunked?
    requires k <= |head + CRLFCRLF + EncodeChunks(chunks, trailer)|
    ensures var s := head + CRLFCRLF + EncodeChunks(chunks, trailer);
            var h := g.parseHead(head).head;
            && ClearResponse(g, false, s[..k])
            && ParseResponse(g, false, s[..k], false) ==
               if k == |s| then Complete(Parsed(h.status, TotalLength(chunks), h.connectionClose)) else Pending
  {
    if |head| + 4 <= k {
      RoundTripBody(g, head, chunks, trailer, k);
    } else {
      var s := head + CRLFCRLF + EncodeChunks(chunks, trailer);
      FindInPrefix(s[..k], s, CRLFCRLF);
    }
  }

  lemma RoundTripBody(g: Grammar, head: seq<byte>, chunks: seq<seq<byte>>, trailer: seq<byte>, k: nat)
    requires SizesAreHex(g) && Encodable(chunks) && Trailed(trailer)
    requires FindBytes(head + CRLFCRLF + EncodeChunks(chunks, trailer), CRLFCRLF) == Some(|head|)
    requires |head| + 3 <= MAX_HEADER_BYTES
    requires g.parseHead(head).HeadOk? && g.parseHead(head).head.framing.Chunked?
    requires |head| + 4 <= k <= |head + CRLFCRLF + EncodeChunks(chunks, trailer)|
    ensures var s := head + CRLFCRLF + EncodeChunks(chunks, trailer);
            var h := g.parseHead(head).head;
            && ClearResponse(g, false, s[..k])
            && ParseResponse(g, false, s[..k], false) ==
               if k == |s| then Complete(Parsed(h.status, TotalLength(chunks), h.connectionClose)) else Pending
  {
    var s := head + CRLFCRLF + EncodeChunks(chunks, trailer);
    var j := k - |head| - 4;
    HeadInCut(s, k);
    assert s[..|head|] == head;
    BodyCut(head, EncodeChunks(chunks, trailer), k);
    PrefixAnswers(g, s[..k], |head|, chunks, trailer, j);
    assert j == |EncodeChunks(chunks, trailer)| <==> k == |s|;
  }

  /** A prefix of an encoded body after a head. */
  lemma PrefixAnswers(g: Grammar, p: seq<byte>, end: nat, chunks: seq<seq<byte>>, trailer: seq<byte>, j: nat)
    requires SizesAreHex(g) && Encodable(chunks) && Trailed(trailer) && j <= |EncodeChunks(chunks, trailer)|
    requires FindBytes(p, CRLFCRLF) == Some(end) && end + 3 <= MAX_HEADER_BYTES && EncodeChunks(chunks, trailer)[..j] == p[end + 4..]
    requires g.parseHead(p[..end]).HeadOk? && g.parseHead(p[..end]).head.framing.Chunked?
    ensures ParseResponse(g, false, p, false) == WithHead(g.parseHead(p[..end]).head, EncodedAnswer(chunks, trailer, j, 0))
    ensures ClearResponse(g, false, p)
  {
    EncodedPrefix(g, chunks, trailer, j, 0);
    EncodedIsClear(g, chunks, trailer, j);
    BodyAnswers(g, p, end, EncodeChunks(chunks, trailer)[..j], EncodedAnswer(chunks, trailer, j, 0));
  }

  /** A clear chunked body answers for the whole response. */
  lemma BodyAnswers(g: Grammar, p: seq<byte>, end: nat, body: seq<byte>, answer: Outcome<nat>)
    requires FindBytes(p, CRLFCRLF) == Some(end) && end + 3 <= MAX_HEADER_BYTES && body == p[end + 4..]
    requires g.parseHead(p[..end]).HeadOk? && g.parseHead(p[..end]).head.framing.Chunked?
    requires ParseRest(g)(body, 0) == answer && ClearRest(g)(body, 0)
    ensures ParseResponse(g, false, p, false) == WithHead(g.parseHead(p[..end]).head, answer)
    ensures ClearResponse(g, false, p)
  {
    ParseAfterHead(g, p, end, body);
  }

  lemma ParseAfterHead(g: Grammar, p: seq<byte>, end: nat, body: seq<byte>)
    requires FindBytes(p, CRLFCRLF) == Some(end) && end + 3 <= MAX_HEADER_BYTES && body == p[end + 4..]
    requires g.parseHead(p[..end]).HeadOk? && g.parseHead(p[..end]).head.framing.Chunked?
    ensures ParseResponse(g, false, p, false) == WithHead(g.parseHead(p[..end]).head, ParseChunks(g, body, 0))
    ensures ClearResponse(g, false, p) <==> ClearChunks(g, body)
  {
  }

  lemma BodyCut(head: seq<byte>, body: seq<byte>, k: nat)
    requires |head| + 4 <= k <= |head| + 4 + |body|
    ensures (head + CRLFCRLF + body)[..k][|head| + 4..] == body[..k - |head| - 4]
  {
  }

  // ----- bytes accounted for -----

  /** The bytes a decoder may still count into a body length: those it holds and those it has counted. */
  function Held(d: Response): nat
  {
    if d.head.None? then |d.header|
    else match d.body
      case Waiting => 0
      case Sized(_, total) => total
      case Chunking(c) => |c.buffer| + c.total
      case UntilClose(total) => total
  }

  lemma {:induction false} DrainHeld(g: Grammar, c: Chunks)
    ensures var (d, o) := Drain(g, c);
            && |d.buffer| + d.total <= |c.buffer| + c.total
            && (o.Complete? ==> o.value <= |c.buffer| + c.total)
    decreases |c.buffer|
  {
    match c.phase
    case Size =>
      var f := FindBytes(c.buffer, CRLF);
      if f.Some? && f.value <= MAX_HEADER_BYTES && g.parseSize(c.buffer[..f.value]).Some? {
        var size := g.parseSize(c.buffer[..f.value]).value;
        DrainHeld(g, Chunks(c.buffer[f.value + 2..], if size == 0 then Trailers else Data(size), c.total));
      }
    case Data(n) =>
      var k := Min(|c.buffer|, n);
      if k != 0 {
        DrainHeld(g, Chunks(c.buffer[k..], if k == n then DataEnding else Data(n - k), c.total + k));
      }
    case DataEnding =>
      if 2 <= |c.buffer| && c.buffer[..2] == CRLF {
        DrainHeld(g, Chunks(c.buffer[2..], Size, c.total));
      }
    case Trailers =>
  }

  lemma BodyHeld(g: Grammar, d: Response, data: seq<byte>, eof: bool)
    requires d.head.Some? && !d.body.Waiting?
    ensures var (e, o) := FeedBody(g, d, data, eof);
            && Held(e) <= Held(d) + |data|
            && (o.Complete? ==> o.value.bodyLength <= Held(d) + |data|)
  {
    if d.body.Chunking? { DrainHeld(g, Push(d.body.chunks, data)); }
  }

  /** A decoder never reports, nor keeps towards a report, more body bytes than it was fed. */
  lemma FeedHeld(g: Grammar, d: Response, data: seq<byte>, eof: bool)
    requires Configured(d)
    ensures var (e, o) := Feed(g, d, data, eof);
            && Held(e) <= Held(d) + |data|
            && (o.Complete? ==> o.value.bodyLength <= Held(d) + |data|)
  {
    if d.head.Some? {
      BodyHeld(g, d, data, eof);
    } else {
      var header := d.header + data;
      var f := FindBytes(header, CRLFCRLF);
      if f.Some? && f.value <= MAX_HEADER_BYTES {
        var r := g.parseHead(header[..f.value]);
        if r.HeadOk? {
          BodyHeld(g, Response(header[..f.value], Some(r.head), StartBody(BodyFraming(d.noBody, r.head)), d.noBody),
                   header[f.value + 4..], eof);
        }
      }
    }
  }
}
