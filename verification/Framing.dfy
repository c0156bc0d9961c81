/** When each framing of a response completes (src/protocol/response.rs; section 6.3 of RFC 9112). */
module FramingProofs {
  import opened Prelude
  import opened ResponseHead
  import opened Decoder
  import opened DecoderProofs

  /** A head that the decoder accepts, and some bytes after it. */
  ghost predicate Headed(g: Grammar, head: seq<byte>, body: seq<byte>)
  {
    && FindBytes(head + CRLFCRLF + body, CRLFCRLF) == Some(|head|)
    && |head| + 3 <= MAX_HEADER_BYTES && g.parseHead(head).HeadOk?
  }

  lemma HeadOnly(g: Grammar, noBody: bool, head: seq<byte>, body: seq<byte>, eof: bool)
    requires Headed(g, head, body)
    ensures var framing := BodyFraming(noBody, g.parseHead(head).head);
            var s := head + CRLFCRLF + body;
            && ParseResponse(g, noBody, s, eof) == WithHead(g.parseHead(head).head, ParseBody(g, framing, body, eof))
            && (!framing.Chunked? ==> ClearResponse(g, noBody, s))
  {
    var s := head + CRLFCRLF + body;
    assert s[..|head|] == head && s[|head| + 4..] == body;
  }

  lemma CutInsideHead(g: Grammar, noBody: bool, head: seq<byte>, body: seq<byte>, k: nat)
    requires Headed(g, head, body) && k < |head| + 4
    ensures var p := (head + CRLFCRLF + body)[..k];
            ParseResponse(g, noBody, p, false).Pending? && ClearResponse(g, noBody, p)
  {
    FindInPrefix((head + CRLFCRLF + body)[..k], head + CRLFCRLF + body, CRLFCRLF);
  }

  lemma HeadedCut(g: Grammar, head: seq<byte>, body: seq<byte>, k: nat)
    requires Headed(g, head, body) && |head| + 4 <= k <= |head| + 4 + |body|
    ensures (head + CRLFCRLF + body)[..k] == head + CRLFCRLF + body[..k - |head| - 4]
    ensures Headed(g, head, body[..k - |head| - 4])
  {
    var s := head + CRLFCRLF + body;
    assert s[..k] == head + CRLFCRLF + body[..k - |head| - 4];
    HeadInCut(s, k);
  }

  /**
   * A response with a Content-Length of n, under any segmentation: incomplete while fewer than n body bytes have
   * arrived, and complete with exactly n as soon as they have, whatever follows.
   */
  lemma LengthDelimited(g: Grammar, head: seq<byte>, body: seq<byte>, n: nat, k: nat, segments: seq<seq<byte>>)
    requires Headed(g, head, body) && g.parseHead(head).head.framing == ContentLength(n)
    requires k <= |head| + 4 + |body| && Concat(segments) == (head + CRLFCRLF + body)[..k]
    ensures var h := g.parseHead(head).head;
            Stream(g, NewDecoder(false), segments, false) ==
            if |head| + 4 + n <= k then Complete(Parsed(h.status, n, h.connectionClose)) else Pending
  {
    if k < |head| + 4 {
      CutInsideHead(g, false, head, body, k);
    } else {
      HeadedCut(g, head, body, k);
      HeadOnly(g, false, head, body[..k - |head| - 4], false);
    }
    SegmentationIndependence(g, false, segments, false);
  }

  /** A response to HEAD is complete with its head, whatever length or coding the head announces. */
  lemma HeadHasNoBody(g: Grammar, head: seq<byte>, body: seq<byte>, k: nat, segments: seq<seq<byte>>)
    requires Headed(g, head, body)
    requires k <= |head| + 4 + |body| && Concat(segments) == (head + CRLFCRLF + body)[..k]
    ensures var h := g.parseHead(head).head;
            Stream(g, NewDecoder(true), segments, false) ==
            if |head| + 4 <= k then Complete(Parsed(h.status, 0, h.connectionClose)) else Pending
  {
    if k < |head| + 4 {
      CutInsideHead(g, true, head, body, k);
    } else {
      HeadedCut(g, head, body, k);
      HeadOnly(g, true, head, body[..k - |head| - 4], false);
    }
    SegmentationIndependence(g, true, segments, false);
  }

  /** Without a length, everything up to the end of input is the body, and only the end of input completes it. */
  lemma CloseDelimitedBody(g: Grammar, head: seq<byte>, body: seq<byte>, segments: seq<seq<byte>>)
    requires Headed(g, head, body) && g.parseHead(head).head.framing.CloseDelimited?
    requires Concat(segments) == head + CRLFCRLF + body
    ensures var h := g.parseHead(head).head;
            && Stream(g, NewDecoder(false), segments, false).Pending?
            && Stream(g, NewDecoder(false), segments, true) == Complete(Parsed(h.status, |body|, h.connectionClose))
  {
    HeadOnly(g, false, head, body, false);
    HeadOnly(g, false, head, body, true);
    SegmentationIndependence(g, false, segments, false);
    SegmentationIndependence(g, false, segments, true);
  }
}
