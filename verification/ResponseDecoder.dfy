/** The decoder objects, updated in place, each proved equal to the functions of module Decoder. */
module ResponseDecoders {
  import opened Prelude
  import opened ResponseHead
  import opened Decoder

  class ChunkedDecoder {
    const grammar: Grammar
    var buffer: seq<byte>
    var phase: Phase
    var total: nat

    function View(): Chunks
      reads this
    {
      Chunks(buffer, phase, total)
    }

    constructor (grammar: Grammar)
      ensures View() == Chunks([], Size, 0) && this.grammar == grammar
    {
      this.grammar := grammar;
      buffer, phase, total := [], Size, 0;
    }

    method Feed(data: seq<byte>, eof: bool) returns (r: Outcome<nat>)
      modifies this
      ensures (View(), r) == FeedChunks(grammar, old(View()), data, eof)
    {
      buffer := buffer + data;
      ghost var start := View();
      while true
        invariant Drain(grammar, View()) == Drain(grammar, start)
        decreases |buffer|
      {
        match phase {
          case Size =>
            var found := FindBytes(buffer, CRLF);
            if found.None? {
              if |buffer| > MAX_HEADER_BYTES { return Invalid(ControlTooLong); }
              break;
            }
            var end := found.value;
            if end > MAX_HEADER_BYTES { return Invalid(ControlTooLong); }
            var size := grammar.parseSize(buffer[..end]);
            if size.None? { return Invalid(BadChunkSize); }
            buffer := buffer[end + 2..];
            phase := if size.value == 0 then Trailers else Data(size.value);
          case Data(remaining) =>
            var consumed := Min(|buffer|, remaining);
            buffer := buffer[consumed..];
            total := total + consumed;
            phase := if consumed == remaining then DataEnding else Data(remaining - consumed);
            if consumed == 0 { break; }
          case DataEnding =>
            if |buffer| < 2 { break; }
            if buffer[..2] != CRLF { return Invalid(BadChunkEnd); }
            buffer := buffer[2..];
            phase := Size;
          case Trailers =>
            if CRLF <= buffer { return Complete(total); }
            var found := FindBytes(buffer, CRLFCRLF);
            if found.Some? {
              if found.value > MAX_HEADER_BYTES { return Invalid(ControlTooLong); }
              return Complete(total);
            }
            if |buffer| > MAX_HEADER_BYTES { return Invalid(ControlTooLong); }
            break;
        }
      }
      return if eof then Invalid(ChunkedIncomplete) else Pending;
    }
  }

  datatype BodyDecoder =
    | NoHead
    | Counted(remaining: nat, total: nat)
    | InChunks(decoder: ChunkedDecoder)
    | ToClose(total: nat)

  class ResponseDecoder {
    const grammar: Grammar
    const noBody: bool
    var header: seq<byte>
    var head: Option<Head>
    var body: BodyDecoder

    ghost function Repr(): set<object>
      reads this
    {
      if body.InChunks? then {body.decoder} else {}
    }

    ghost predicate Valid()
      reads this
    {
      && (head.Some? <==> !body.NoHead?)
      && (body.InChunks? ==> body.decoder.grammar == grammar)
    }

    ghost function View(): Response
      reads this, Repr()
    {
      Response(header, head,
               match body
               case NoHead => Waiting
               case Counted(remaining, total) => Sized(remaining, total)
               case InChunks(decoder) => Chunking(decoder.View())
               case ToClose(total) => UntilClose(total),
               noBody)
    }

    constructor (grammar: Grammar, noBody: bool)
      ensures Valid() && View() == NewDecoder(noBody) && this.grammar == grammar
    {
      this.grammar, this.noBody := grammar, noBody;
      header, head, body := [], None, NoHead;
    }

    method ConsumeBody(data: seq<byte>, eof: bool) returns (r: Outcome<Parsed>)
      requires Valid() && head.Some?
      modifies this, Repr()
      ensures Valid() && Repr() == old(Repr())
      ensures (View(), r) == FeedBody(grammar, old(View()), data, eof)
    {
      var outcome: Outcome<nat>;
      match body {
        case Counted(remaining, total) =>
          var consumed := Min(|data|, remaining);
          body := Counted(remaining - consumed, total + consumed);
          if remaining == consumed {
            outcome := Complete(total + consumed);
          } else {
            outcome := if eof then Invalid(BodyIncomplete) else Pending;
          }
        case InChunks(decoder) =>
          outcome := decoder.Feed(data, eof);
        case ToClose(total) =>
          body := ToClose(total + |data|);
          outcome := if eof then Complete(total + |data|) else Pending;
      }
      r := WithHead(head.value, outcome);
    }

    method Feed(data: seq<byte>, eof: bool) returns (r: Outcome<Parsed>)
      requires Valid()
      modifies this, Repr()
      ensures Valid() && fresh(Repr() - old(Repr()))
      ensures (View(), r) == Decoder.Feed(grammar, old(View()), data, eof)
    {
      if head.Some? {
        r := ConsumeBody(data, eof);
        return;
      }
      header := header + data;
      var found := FindBytes(header, CRLFCRLF);
      if found.None? {
        return if |header| > MAX_HEADER_BYTES then Invalid(HeadersTooLong)
               else if eof then Invalid(HeadersIncomplete) else Pending;
      }
      var end := found.value;
      if end > MAX_HEADER_BYTES { return Invalid(HeadersTooLong); }
      var parsed := grammar.parseHead(header[..end]);
      if parsed.NotText? { return Invalid(HeadNotText); }
      if parsed.BadStatusLine? { return Invalid(BadStatus); }
      var rest := header[end + 4..];
      header := header[..end];
      if noBody {
        body := Counted(0, 0);
      } else {
        match parsed.head.framing {
          case ContentLength(length) => body := Counted(length, 0);
          case Chunked =>
            var decoder := new ChunkedDecoder(grammar);
            body := InChunks(decoder);
          case CloseDelimited => body := ToClose(0);
        }
      }
      head := Some(parsed.head);
      r := ConsumeBody(rest, eof);
    }
  }
}
