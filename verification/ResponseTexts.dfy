/** Whole responses as text and body: what the fields of the head mean for when a response completes (src/protocol/response.rs). */
module ResponseTexts {
  import opened Prelude
  import opened ResponseHead
  import opened HeadProofs
  import opened Decoder
  import opened DecoderProofs
  import opened ChunkedRoundTrip
  import opened FramingProofs

  /** A head in lines, none of them empty. */
  datatype Text = Text(version: string, code: string, more: string, fields: seq<string>) {
    function First(): string { StatusLine(version, code, more) }

    ghost predicate Valid()
    {
      && Word(version) && Word(code) && Line(more) && (more == [] || more[0] == ' ')
      && (forall x :: 0 <= x < |fields| ==> Line(fields[x]) && fields[x] != [])
      && (exists n: nat :: n <= 0xFFFF && Numeral(code, n))
    }

    lemma IsAscii()
      requires Valid()
      ensures Ascii(HeadText(First(), fields))
    {
      HeadIsRead(version, code, more, fields);
    }

    ghost function Head(): seq<byte>
      requires Valid()
    {
      IsAscii();
      Bytes(HeadText(First(), fields))
    }
  }

  /** Inside a head every carriage return is followed by a line feed and a line that does not begin with one. */
  lemma {:induction false} NoBlankLine(first: string, fields: seq<string>, j: nat)
    requires '\r' !in first && (forall x :: 0 <= x < |fields| ==> '\r' !in fields[x] && fields[x] != [])
    requires j < |HeadText(first, fields)| && HeadText(first, fields)[j] == '\r'
    ensures j + 2 < |HeadText(first, fields)| && HeadText(first, fields)[j + 2] != '\r'
    decreases |fields|
  {
    var text := HeadText(first, fields);
    BeginsWith(first, fields);
    assert forall i :: 0 <= i < |first| ==> text[i] == first[i] && first[i] in first;
    if fields != [] {
      var rest := HeadText(fields[0], fields[1..]);
      assert text == first + "\r\n" + rest;
      BeginsWith(fields[0], fields[1..]);
      if j == |first| {
        assert text[j + 2] == rest[0] == fields[0][0] && fields[0][0] in fields[0];
      } else {
        assert text[|first| + 1] == '\n';
        assert text[j] == rest[j - |first| - 2];
        NoBlankLine(fields[0], fields[1..], j - |first| - 2);
        assert text[j + 2] == rest[j - |first|];
      }
    }
  }

  lemma BeginsWith(first: string, fields: seq<string>)
    ensures first <= HeadText(first, fields)
  {
  }

  /** The blank line after the head is the first one. */
  lemma HeadEndsFirst(head: seq<byte>, body: seq<byte>)
    requires forall j: nat :: j < |head| && head[j] == 13 ==> j + 2 < |head| && head[j + 2] != 13
    ensures FindBytes(head + CRLFCRLF + body, CRLFCRLF) == Some(|head|)
  {
    var s := head + CRLFCRLF + body;
    FindFromIsFirst(s, CRLFCRLF, 0);
    assert s[|head|..|head| + 4] == CRLFCRLF;
    assert IsAt(s, CRLFCRLF, |head|);
    forall j: nat | j < |head| ensures !IsAt(s, CRLFCRLF, j) {
      assert s[j] == head[j] && (j + 2 < |head| ==> s[j + 2] == head[j + 2]);
      NotBlank(s, j);
    }
  }

  lemma NotBlank(s: seq<byte>, j: nat)
    requires j + 2 < |s| && (s[j] != 13 || s[j + 2] != 13)
    ensures !IsAt(s, CRLFCRLF, j)
  {
    if j + 4 <= |s| { assert s[j..j + 4][0] == s[j] && s[j..j + 4][2] == s[j + 2]; }
  }

  lemma TextIsHeaded(t: Text, body: seq<byte>)
    requires t.Valid() && |t.Head()| + 3 <= MAX_HEADER_BYTES
    ensures Headed(HTTP, t.Head(), body)
    ensures var h := HTTP.parseHead(t.Head()).head;
            Numeral(t.code, h.status) && h.status <= 0xFFFF && Says(h, t.First(), t.fields)
  {
    var text := HeadText(t.First(), t.fields);
    HeadIsRead(t.version, t.code, t.more, t.fields);
    LineOf(t.version, t.code, t.more);
    forall j: nat | j < |t.Head()| && t.Head()[j] == 13 ensures j + 2 < |t.Head()| && t.Head()[j + 2] != 13 {
      assert text[j] == '\r';
      NoBlankLine(t.First(), t.fields, j);
    }
    HeadEndsFirst(t.Head(), body);
    assert HTTP.parseHead(t.Head()) == ParseResponseHead(t.Head());
  }

  /** Closing as the version and the connection fields say. */
  ghost predicate Closes(t: Text)
  {
    || AnyLists(t.fields, "connection", "close")
    || ("HTTP/1.0" <= t.First() && !AnyLists(t.fields, "connection", "keep-alive"))
  }

  /**
   * A response whose fields announce a length of n completes under every segmentation as soon as n body bytes have
   * arrived, with its status code, and closes exactly when its version and connection fields say so.
   */
  lemma AnnouncedLength(t: Text, n: nat, body: seq<byte>, k: nat, segments: seq<seq<byte>>)
    requires t.Valid() && |t.Head()| + 3 <= MAX_HEADER_BYTES && LengthIs(t.fields, n)
    requires var all := t.Head() + CRLFCRLF + body; k <= |all| && Concat(segments) == all[..k]
    ensures match Stream(HTTP, NewDecoder(false), segments, false)
            case Complete(r) =>
              |t.Head()| + 4 + n <= k && Numeral(t.code, r.status) && r.bodyLength == n && (r.connectionClose <==> Closes(t))
            case Pending => k < |t.Head()| + 4 + n
            case Invalid(_) => false
  {
    TextIsHeaded(t, body);
    LengthDelimited(HTTP, t.Head(), body, n, k, segments);
  }

  /** A response whose fields list the chunked coding decodes, under every segmentation, to the sum of its chunks, with or without trailers. */
  lemma AnnouncedChunks(t: Text, chunks: seq<seq<byte>>, trailer: seq<byte>, k: nat, segments: seq<seq<byte>>)
    requires t.Valid() && |t.Head()| + 3 <= MAX_HEADER_BYTES && AnyLists(t.fields, "transfer-encoding", "chunked")
    requires Encodable(chunks) && Trailed(trailer)
    requires var all := t.Head() + CRLFCRLF + EncodeChunks(chunks, trailer); k <= |all| && Concat(segments) == all[..k]
    ensures match Stream(HTTP, NewDecoder(false), segments, false)
            case Complete(r) =>
              && k == |t.Head()| + 4 + |EncodeChunks(chunks, trailer)|
              && Numeral(t.code, r.status) && r.bodyLength == TotalLength(chunks) && (r.connectionClose <==> Closes(t))
            case Pending => k < |t.Head()| + 4 + |EncodeChunks(chunks, trailer)|
            case Invalid(_) => false
  {
    TextIsHeaded(t, EncodeChunks(chunks, trailer));
    assert HTTP.parseHead(t.Head()) == ParseResponseHead(t.Head());
    ChunkedRoundTrip.ChunkedRoundTrip(t.Head(), chunks, trailer, k, segments);
  }

  /** Without either, the body lasts until the end of input. */
  lemma NothingAnnounced(t: Text, body: seq<byte>, segments: seq<seq<byte>>)
    requires t.Valid() && |t.Head()| + 3 <= MAX_HEADER_BYTES && !AnyLists(t.fields, "transfer-encoding", "chunked")
    requires forall n: nat :: !LengthIs(t.fields, n)
    requires Concat(segments) == t.Head() + CRLFCRLF + body
    ensures Stream(HTTP, NewDecoder(false), segments, false).Pending?
    ensures match Stream(HTTP, NewDecoder(false), segments, true)
            case Complete(r) => Numeral(t.code, r.status) && r.bodyLength == |body| && (r.connectionClose <==> Closes(t))
            case _ => false
  {
    TextIsHeaded(t, body);
    var h := HTTP.parseHead(t.Head()).head;
    assert forall n: nat :: h.framing != ContentLength(n);
    CloseDelimitedBody(HTTP, t.Head(), body, segments);
  }
}
