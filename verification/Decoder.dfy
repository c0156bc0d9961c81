/** The incremental response decoder (src/protocol/response.rs), as functions on decoder states. */
module Decoder {
  import opened Prelude
  import opened ResponseHead

  const MAX_HEADER_BYTES: nat := 0x1_0000

  const CRLF: seq<byte> := [13, 10]
  const CRLFCRLF: seq<byte> := [13, 10, 13, 10]

  datatype DecodeError =
    | HeadersTooLong | HeadersIncomplete | HeadNotText | BadStatus
    | BodyIncomplete | ControlTooLong | BadChunkSize | BadChunkEnd | ChunkedIncomplete

  datatype Outcome<+T> = Pending | Complete(value: T) | Invalid(error: DecodeError)

  datatype Parsed = Parsed(status: nat, bodyLength: nat, connectionClose: bool)

  datatype Phase = Size | Data(remaining: nat) | DataEnding | Trailers
  datatype Chunks = Chunks(buffer: seq<byte>, phase: Phase, total: nat)
  datatype Body = Waiting | Sized(remaining: nat, total: nat) | Chunking(chunks: Chunks) | UntilClose(total: nat)
  datatype Response = Response(header: seq<byte>, head: Option<Head>, body: Body, noBody: bool)

  /**
   * How heads and chunk-size lines are read. The decoder only cuts bytes out of a stream and hands them to these
   * two readers, so everything proved about its buffering holds for any readers; `HTTP` holds the program's own.
   */
  datatype Grammar = Grammar(parseHead: seq<byte> -> HeadResult, parseSize: seq<byte> -> Option<nat>)

  const HTTP := Grammar(ParseResponseHead, ParseChunkSize)

  // ----- searching -----

  predicate IsAt(s: seq<byte>, needle: seq<byte>, i: nat)
  {
    i + |needle| <= |s| && s[i..i + |needle|] == needle
  }

  function FindFrom(s: seq<byte>, needle: seq<byte>, i: nat): (r: Option<nat>)
    requires i <= |s|
    ensures r.Some? ==> i <= r.value && r.value + |needle| <= |s|
    decreases |s| - i
  {
    if IsAt(s, needle, i) then Some(i) else if i == |s| then None else FindFrom(s, needle, i + 1)
  }

  /** The first position of `needle`, as the windowed search reports it. */
  function FindBytes(s: seq<byte>, needle: seq<byte>): (r: Option<nat>)
    ensures r.Some? ==> r.value + |needle| <= |s|
  {
    FindFrom(s, needle, 0)
  }

  lemma {:induction false} FindFromIsFirst(s: seq<byte>, needle: seq<byte>, i: nat)
    requires i <= |s|
    ensures match FindFrom(s, needle, i)
            case Some(k) => IsAt(s, needle, k) && forall j: nat :: i <= j < k ==> !IsAt(s, needle, j)
            case None => forall j: nat :: i <= j ==> !IsAt(s, needle, j)
    decreases |s| - i
  {
    if !IsAt(s, needle, i) && i < |s| {
      FindFromIsFirst(s, needle, i + 1);
    }
  }

  // ----- chunked bodies -----

  function ParseChunkSize(line: seq<byte>): (r: Option<nat>)
    ensures r.Some? ==> r.value <= USIZE_MAX
  {
    match DecodeUtf8(line)
    case None => None
    case Some(text) => ParseUnsigned(Split(text, ';')[0], 16, USIZE_MAX)
  }

  function TooLong(buffer: seq<byte>): Outcome<nat>
  {
    if |buffer| > MAX_HEADER_BYTES then Invalid(ControlTooLong) else Pending
  }

  /** Runs the chunk phases over the buffered bytes until they run out or the body ends. */
  function Drain(g: Grammar, c: Chunks): (r: (Chunks, Outcome<nat>))
    decreases |c.buffer|
  {
    match c.phase
    case Size =>
      (match FindBytes(c.buffer, CRLF)
       case None => (c, TooLong(c.buffer))
       case Some(end) =>
         if end > MAX_HEADER_BYTES then (c, Invalid(ControlTooLong))
         else match g.parseSize(c.buffer[..end])
           case None => (c, Invalid(BadChunkSize))
           case Some(size) =>
             Drain(g, Chunks(c.buffer[end + 2..], if size == 0 then Trailers else Data(size), c.total)))
    case Data(remaining) =>
      var consumed := Min(|c.buffer|, remaining);
      var next := Chunks(c.buffer[consumed..],
                         if consumed == remaining then DataEnding else Data(remaining - consumed),
                         c.total + consumed);
      if consumed == 0 then (next, Pending) else Drain(g, next)
    case DataEnding =>
      if |c.buffer| < 2 then (c, Pending)
      else if c.buffer[..2] != CRLF then (c, Invalid(BadChunkEnd))
      else Drain(g, Chunks(c.buffer[2..], Size, c.total))
    case Trailers =>
      if CRLF <= c.buffer then (c, Complete(c.total))
      else match FindBytes(c.buffer, CRLFCRLF)
        case None => (c, TooLong(c.buffer))
        case Some(end) => (c, if end > MAX_HEADER_BYTES then Invalid(ControlTooLong) else Complete(c.total))
  }

  function Push(c: Chunks, data: seq<byte>): Chunks
  {
    c.(buffer := c.buffer + data)
  }

  function FeedChunks(g: Grammar, c: Chunks, data: seq<byte>, eof: bool): (r: (Chunks, Outcome<nat>))
  {
    var (next, outcome) := Drain(g, Push(c, data));
    (next, if outcome.Pending? && eof then Invalid(ChunkedIncomplete) else outcome)
  }

  // ----- whole responses -----

  function NewDecoder(noBody: bool): Response
  {
    Response([], None, Waiting, noBody)
  }

  function StartBody(framing: Framing): Body
  {
    match framing
    case ContentLength(length) => Sized(length, 0)
    case Chunked => Chunking(Chunks([], Size, 0))
    case CloseDelimited => UntilClose(0)
  }

  function ConsumeBody(g: Grammar, b: Body, data: seq<byte>, eof: bool): (r: (Body, Outcome<nat>))
    requires !b.Waiting?
  {
    match b
    case Sized(remaining, total) =>
      var consumed := Min(|data|, remaining);
      var next := Sized(remaining - consumed, total + consumed);
      (next, if next.remaining == 0 then Complete(next.total) else if eof then Invalid(BodyIncomplete) else Pending)
    case Chunking(chunks) =>
      var (next, outcome) := FeedChunks(g, chunks, data, eof);
      (Chunking(next), outcome)
    case UntilClose(total) =>
      (UntilClose(total + |data|), if eof then Complete(total + |data|) else Pending)
  }

  /** A decoder has its body configured exactly when it has parsed its head. */
  predicate Configured(d: Response)
  {
    d.head.Some? <==> !d.body.Waiting?
  }

  function WithHead(head: Head, outcome: Outcome<nat>): Outcome<Parsed>
  {
    match outcome
    case Pending => Pending
    case Invalid(e) => Invalid(e)
    case Complete(n) => Complete(Parsed(head.status, n, head.connectionClose))
  }

  function BodyFraming(noBody: bool, head: Head): Framing
  {
    if noBody then ContentLength(0) else head.framing
  }

  function FeedBody(g: Grammar, d: Response, data: seq<byte>, eof: bool): (r: (Response, Outcome<Parsed>))
    requires d.head.Some? && !d.body.Waiting?
    ensures Configured(r.0)
  {
    var (body, outcome) := ConsumeBody(g, d.body, data, eof);
    (d.(body := body), WithHead(d.head.value, outcome))
  }

  function Feed(g: Grammar, d: Response, data: seq<byte>, eof: bool): (r: (Response, Outcome<Parsed>))
    requires Configured(d)
    ensures Configured(r.0)
  {
    if d.head.Some? then FeedBody(g, d, data, eof)
    else
      var header := d.header + data;
      var waiting := d.(header := header);
      match FindBytes(header, CRLFCRLF)
      case None =>
        (waiting, if |header| > MAX_HEADER_BYTES then Invalid(HeadersTooLong)
                  else if eof then Invalid(HeadersIncomplete) else Pending)
      case Some(end) =>
        if end > MAX_HEADER_BYTES then (waiting, Invalid(HeadersTooLong))
        else match g.parseHead(header[..end])
          case NotText => (waiting, Invalid(HeadNotText))
          case BadStatusLine => (waiting, Invalid(BadStatus))
          case HeadOk(head) =>
            FeedBody(g, Response(header[..end], Some(head), StartBody(BodyFraming(d.noBody, head)), d.noBody),
                     header[end + 4..], eof)
  }

  // ----- the one-shot reference: a recursive-descent reading of the whole byte string -----

  function ParseTrailers(s: seq<byte>, total: nat): Outcome<nat>
  {
    if CRLF <= s then Complete(total)
    else match FindBytes(s, CRLFCRLF)
      case None => if |s| > MAX_HEADER_BYTES then Invalid(ControlTooLong) else Pending
      case Some(end) => if end > MAX_HEADER_BYTES then Invalid(ControlTooLong) else Complete(total)
  }

  /** chunked-body of RFC 9112 section 7.1: a size line, that many bytes, CR LF, repeat; size 0 then trailers. */
  function ParseChunks(g: Grammar, s: seq<byte>, total: nat): Outcome<nat>
    decreases |s|
  {
    match FindBytes(s, CRLF)
    case None => if |s| > MAX_HEADER_BYTES then Invalid(ControlTooLong) else Pending
    case Some(end) =>
      if end > MAX_HEADER_BYTES then Invalid(ControlTooLong)
      else match g.parseSize(s[..end])
        case None => Invalid(BadChunkSize)
        case Some(size) =>
          if size == 0 then ParseTrailers(s[end + 2..], total)
          else
            var after := end + 2 + size;
            if |s| < after + 2 then Pending
            else if s[after..after + 2] != CRLF then Invalid(BadChunkEnd)
            else ParseChunks(g, s[after + 2..], total + size)
  }

  function ParseBody(g: Grammar, framing: Framing, s: seq<byte>, eof: bool): Outcome<nat>
  {
    match framing
    case ContentLength(n) => if n <= |s| then Complete(n) else if eof then Invalid(BodyIncomplete) else Pending
    case Chunked =>
      var outcome := ParseChunks(g, s, 0);
      if outcome.Pending? && eof then Invalid(ChunkedIncomplete) else outcome
    case CloseDelimited => if eof then Complete(|s|) else Pending
  }

  function ParseResponse(g: Grammar, noBody: bool, s: seq<byte>, eof: bool): Outcome<Parsed>
  {
    match FindBytes(s, CRLFCRLF)
    case None =>
      if |s| > MAX_HEADER_BYTES then Invalid(HeadersTooLong)
      else if eof then Invalid(HeadersIncomplete) else Pending
    case Some(end) =>
      if end > MAX_HEADER_BYTES then Invalid(HeadersTooLong)
      else match g.parseHead(s[..end])
        case NotText => Invalid(HeadNotText)
        case BadStatusLine => Invalid(BadStatus)
        case HeadOk(head) => WithHead(head, ParseBody(g, BodyFraming(noBody, head), s[end + 4..], eof))
  }

  // ----- streams of reads -----

  /** Feeds the segments in order until the first result, then reports end of input. */
  function Stream(g: Grammar, d: Response, segments: seq<seq<byte>>, eof: bool): Outcome<Parsed>
    requires Configured(d)
    decreases |segments|
  {
    if segments == [] then Feed(g, d, [], eof).1
    else
      var (next, outcome) := Feed(g, d, segments[0], false);
      if outcome.Pending? then Stream(g, next, segments[1..], eof) else outcome
  }

  function Concat(segments: seq<seq<byte>>): seq<byte>
  {
    if segments == [] then [] else segments[0] + Concat(segments[1..])
  }

  // ----- where the buffer-length checks can bite -----

  /**
   * A terminator of `width` bytes found at `end` is clear of the limit when no prefix that still lacks its last
   * byte can be longer than the limit, or when it lies past the limit and is refused anyway.
   */
  predicate ClearOf(end: nat, width: nat)
  {
    end + width - 1 <= MAX_HEADER_BYTES || MAX_HEADER_BYTES < end
  }

  predicate ClearTrailers(s: seq<byte>)
  {
    CRLF <= s || (var f := FindBytes(s, CRLFCRLF); f.Some? ==> ClearOf(f.value, 4))
  }

  /** Every size line and the trailer section of a chunked body end clear of the 64 KiB limit. */
  predicate ClearChunks(g: Grammar, s: seq<byte>)
    decreases |s|
  {
    var f := FindBytes(s, CRLF);
    f.Some? ==>
      && ClearOf(f.value, 2)
      && (f.value <= MAX_HEADER_BYTES ==>
            match g.parseSize(s[..f.value])
            case None => true
            case Some(size) =>
              var after := f.value + 2 + size;
              if size == 0 then ClearTrailers(s[f.value + 2..])
              else if |s| < after + 2 || s[after..after + 2] != CRLF then true
              else ClearChunks(g, s[after + 2..]))
  }

  predicate ClearHead(s: seq<byte>)
  {
    var f := FindBytes(s, CRLFCRLF);
    f.Some? ==> ClearOf(f.value, 4)
  }

  predicate ClearResponse(g: Grammar, noBody: bool, s: seq<byte>)
  {
    && ClearHead(s)
    && var f := FindBytes(s, CRLFCRLF);
       f.Some? && f.value <= MAX_HEADER_BYTES ==>
         var r := g.parseHead(s[..f.value]);
         r.HeadOk? && BodyFraming(noBody, r.head).Chunked? ==> ClearChunks(g, s[f.value + 4..])
  }

  /** The refusal that a badly placed cut provokes on an input that is not clear of the limit. */
  function Refusal(s: seq<byte>): Outcome<Parsed>
  {
    Invalid(if ClearHead(s) then ControlTooLong else HeadersTooLong)
  }

  /** An over-length refusal of `w` that only comes from where the input was cut. */
  predicate Premature(g: Grammar, noBody: bool, w: seq<byte>, outcome: Outcome<Parsed>)
  {
    !ClearResponse(g, noBody, w) && (outcome == Refusal(w) || outcome == Invalid(ControlTooLong))
  }
}
