/** Segmentation independence of the decoder: every way of cutting a byte stream refines the one-shot parser. */
module DecoderProofs {
  import opened Prelude
  import opened ResponseHead
  import opened Decoder

  // ----- searching a growing buffer -----

  lemma FindInPrefix(s: seq<byte>, w: seq<byte>, needle: seq<byte>)
    requires s <= w
    ensures FindBytes(s, needle).Some? ==> FindBytes(w, needle) == FindBytes(s, needle)
    ensures FindBytes(s, needle).None? && FindBytes(w, needle).Some? ==> |s| < FindBytes(w, needle).value + |needle|
  {
    FindFromIsFirst(s, needle, 0);
    FindFromIsFirst(w, needle, 0);
    forall j: nat | j + |needle| <= |s| ensures IsAt(s, needle, j) == IsAt(w, needle, j) {
      assert w[j..j + |needle|] == s[j..j + |needle|];
    }
  }

  lemma SliceOfTail(s: seq<byte>, k: nat, i: nat, j: nat)
    requires k + i <= k + j <= |s|
    ensures s[k..][i..j] == s[k + i..k + j]
    ensures s[k..][j..] == s[k + j..]
  {
  }

  lemma CutConcat(a: seq<byte>, b: seq<byte>, k: nat)
    requires k <= |a|
    ensures (a + b)[..k] == a[..k]
    ensures (a + b)[k..] == a[k..] + b
  {
  }

  // ----- chunk states against the one-shot chunk parser -----

  predicate Live(phase: Phase)
  {
    phase.Data? ==> 0 < phase.remaining
  }

  /** The answer for `n` data bytes and their CR LF, with the rest of the body left to a continuation. */
  function AfterData<R>(s: seq<byte>, n: nat, total: nat, short: R, bad: R, rest: (seq<byte>, nat) -> R): R
  {
    if |s| < n + 2 then short else if s[n..n + 2] != CRLF then bad else rest(s[n + 2..], total + n)
  }

  function ParseRest(g: Grammar): (seq<byte>, nat) -> Outcome<nat>
  {
    (x, t) => ParseChunks(g, x, t)
  }

  function ClearRest(g: Grammar): (seq<byte>, nat) -> bool
  {
    (x, t) => ClearChunks(g, x)
  }

  /** What the one-shot parser says of `s` when read from the given phase of the chunk grammar. */
  function ParseFrom(g: Grammar, phase: Phase, s: seq<byte>, total: nat): Outcome<nat>
  {
    match phase
    case Size => ParseChunks(g, s, total)
    case Data(n) => AfterData(s, n, total, Pending, Invalid(BadChunkEnd), ParseRest(g))
    case DataEnding => AfterData(s, 0, total, Pending, Invalid(BadChunkEnd), ParseRest(g))
    case Trailers => ParseTrailers(s, total)
  }

  predicate ClearFrom(g: Grammar, phase: Phase, s: seq<byte>)
  {
    match phase
    case Size => ClearChunks(g, s)
    case Data(n) => AfterData(s, n, 0, true, true, ClearRest(g))
    case DataEnding => AfterData(s, 0, 0, true, true, ClearRest(g))
    case Trailers => ClearTrailers(s)
  }

  /** One turn of the drain loop: the next phase, the bytes it removes from the front, and the length it adds. */
  datatype Turning = Stop | Go(next: Phase, drop: nat, gain: nat)

  function Turn(g: Grammar, phase: Phase, s: seq<byte>): (r: Turning)
    requires Live(phase)
    ensures r.Go? ==> Live(r.next) && 0 < r.drop <= |s|
  {
    match phase
    case Size =>
      var f := FindBytes(s, CRLF);
      if f.None? || f.value > MAX_HEADER_BYTES then Stop
      else
        var size := g.parseSize(s[..f.value]);
        if size.None? then Stop
        else Go(if size.value == 0 then Trailers else Data(size.value), f.value + 2, 0)
    case Data(n) =>
      var k := Min(|s|, n);
      if k == 0 then Stop else Go(if k == n then DataEnding else Data(n - k), k, k)
    case DataEnding =>
      if |s| < 2 || s[..2] != CRLF then Stop else Go(Size, 2, 0)
    case Trailers => Stop
  }

  /** The loop is: take turns while one is possible, then answer. */
  lemma DrainTurns(g: Grammar, c: Chunks)
    requires Live(c.phase)
    ensures match Turn(g, c.phase, c.buffer)
            case Go(next, drop, gain) => Drain(g, c) == Drain(g, Chunks(c.buffer[drop..], next, c.total + gain))
            case Stop => Drain(g, c).1.Pending? ==> Drain(g, c).0 == c
  {
  }

  lemma SkipData<R>(s: seq<byte>, n: nat, k: nat, total: nat, short: R, bad: R, rest: (seq<byte>, nat) -> R)
    requires k <= n && k <= |s|
    ensures AfterData(s[k..], n - k, total + k, short, bad, rest) == AfterData(s, n, total, short, bad, rest)
  {
    if n + 2 <= |s| {
      SliceOfTail(s, k, n - k, n - k + 2);
    }
  }

  lemma AfterSizeLine<R>(w: seq<byte>, at: nat, size: nat, total: nat, short: R, bad: R, rest: (seq<byte>, nat) -> R)
    requires at <= |w|
    ensures AfterData(w[at..], size, total, short, bad, rest) ==
            var after := at + size;
            if |w| < after + 2 then short
            else if w[after..after + 2] != CRLF then bad
            else rest(w[after + 2..], total + size)
  {
    if at + size + 2 <= |w| {
      SliceOfTail(w, at, size, size + 2);
    }
  }

  lemma SizeLineParse(g: Grammar, w: seq<byte>, end: nat, size: nat, total: nat)
    requires FindBytes(w, CRLF) == Some(end) && end <= MAX_HEADER_BYTES && g.parseSize(w[..end]) == Some(size)
    ensures ParseChunks(g, w, total) == ParseFrom(g, if size == 0 then Trailers else Data(size), w[end + 2..], total)
  {
    AfterSizeLine(w, end + 2, size, total, Pending, Invalid(BadChunkEnd), ParseRest(g));
  }

  lemma SizeLineClear(g: Grammar, w: seq<byte>, end: nat, size: nat)
    requires FindBytes(w, CRLF) == Some(end) && end <= MAX_HEADER_BYTES && g.parseSize(w[..end]) == Some(size)
    ensures ClearChunks(g, w) <==>
            ClearOf(end, 2) && ClearFrom(g, if size == 0 then Trailers else Data(size), w[end + 2..])
  {
    AfterSizeLine(w, end + 2, size, 0, true, true, ClearRest(g));
  }

  lemma SizeTurn(g: Grammar, s: seq<byte>, w: seq<byte>, total: nat)
    requires s <= w && Turn(g, Size, s).Go?
    ensures var t := Turn(g, Size, s);
            && ParseFrom(g, t.next, w[t.drop..], total) == ParseChunks(g, w, total)
            && (ClearChunks(g, w) <==> ClearOf(FindBytes(s, CRLF).value, 2) && ClearFrom(g, t.next, w[t.drop..]))
  {
    var end := FindBytes(s, CRLF).value;
    FindInPrefix(s, w, CRLF);
    assert w[..end] == s[..end];
    var size := g.parseSize(w[..end]).value;
    SizeLineParse(g, w, end, size, total);
    SizeLineClear(g, w, end, size);
  }

  lemma DataTurn(g: Grammar, n: nat, s: seq<byte>, w: seq<byte>, total: nat)
    requires s <= w && 0 < n && Turn(g, Data(n), s).Go?
    ensures var t := Turn(g, Data(n), s);
            && ParseFrom(g, t.next, w[t.drop..], total + t.gain) == ParseFrom(g, Data(n), w, total)
            && (ClearFrom(g, Data(n), w) <==> ClearFrom(g, t.next, w[t.drop..]))
  {
    var k := Min(|s|, n);
    SkipData(w, n, k, total, Pending, Invalid(BadChunkEnd), ParseRest(g));
    SkipData(w, n, k, 0, true, true, ClearRest(g));
    assert AfterData(w[k..], n - k, 0, true, true, ClearRest(g)) == AfterData(w[k..], n - k, k, true, true, ClearRest(g));
  }

  lemma EndingTurn(g: Grammar, s: seq<byte>, w: seq<byte>, total: nat)
    requires s <= w && Turn(g, DataEnding, s).Go?
    ensures ParseChunks(g, w[2..], total) == ParseFrom(g, DataEnding, w, total)
    ensures ClearFrom(g, DataEnding, w) <==> ClearChunks(g, w[2..])
  {
    assert w[0..2] == s[..2];
  }

  /** A turn keeps what the one-shot parser says of the input, however it goes on. */
  lemma TurnMeaning(g: Grammar, phase: Phase, s: seq<byte>, w: seq<byte>, total: nat)
    requires s <= w && Live(phase) && Turn(g, phase, s).Go?
    ensures var t := Turn(g, phase, s);
            && ParseFrom(g, t.next, w[t.drop..], total + t.gain) == ParseFrom(g, phase, w, total)
            && (ClearFrom(g, phase, w) <==>
                (phase.Size? ==> ClearOf(FindBytes(s, CRLF).value, 2)) && ClearFrom(g, t.next, w[t.drop..]))
  {
    match phase
    case Size => SizeTurn(g, s, w, total);
    case Data(n) => DataTurn(g, n, s, w, total);
    case DataEnding => EndingTurn(g, s, w, total);
    case Trailers =>
  }

  /** What the drain loop goes on with after a turn. */
  function AfterTurn(g: Grammar, c: Chunks): Chunks
    requires Live(c.phase) && Turn(g, c.phase, c.buffer).Go?
  {
    var t := Turn(g, c.phase, c.buffer);
    Chunks(c.buffer[t.drop..], t.next, c.total + t.gain)
  }

  lemma GoMeaning(g: Grammar, c: Chunks)
    requires Live(c.phase) && Turn(g, c.phase, c.buffer).Go?
    ensures var d := AfterTurn(g, c);
            ParseFrom(g, d.phase, d.buffer, d.total) == ParseFrom(g, c.phase, c.buffer, c.total)
  {
    TurnMeaning(g, c.phase, c.buffer, c.buffer, c.total);
  }

  lemma StopMeaning(g: Grammar, c: Chunks)
    requires Live(c.phase) && Turn(g, c.phase, c.buffer).Stop?
    ensures Drain(g, c).1 == ParseFrom(g, c.phase, c.buffer, c.total)
  {
    if c.phase.DataEnding? && 2 <= |c.buffer| {
      assert c.buffer[0..2] == c.buffer[..2];
    }
  }

  /** The drain loop computes exactly what the one-shot chunk parser says. */
  lemma {:induction false} DrainIsParse(g: Grammar, c: Chunks)
    requires Live(c.phase)
    ensures Drain(g, c).1 == ParseFrom(g, c.phase, c.buffer, c.total)
    decreases |c.buffer|
  {
    if Turn(g, c.phase, c.buffer).Go? {
      DrainTurns(g, c);
      GoMeaning(g, c);
      DrainIsParse(g, AfterTurn(g, c));
    } else {
      StopMeaning(g, c);
    }
  }

  /** With `b` to come, `d` stands for everything that `c` stands for. */
  ghost predicate SameMeaning(g: Grammar, d: Chunks, c: Chunks, b: seq<byte>)
  {
    && Live(d.phase)
    && ParseFrom(g, d.phase, d.buffer + b, d.total) == ParseFrom(g, c.phase, c.buffer + b, c.total)
    && (ClearFrom(g, c.phase, c.buffer + b) ==> ClearFrom(g, d.phase, d.buffer + b))
  }

  lemma SameMeaningTransitive(g: Grammar, e: Chunks, d: Chunks, c: Chunks, b: seq<byte>)
    requires SameMeaning(g, e, d, b) && SameMeaning(g, d, c, b)
    ensures SameMeaning(g, e, c, b)
  {
  }

  lemma TurnKeepsMeaning(g: Grammar, c: Chunks, b: seq<byte>)
    requires Live(c.phase) && Turn(g, c.phase, c.buffer).Go?
    ensures SameMeaning(g, AfterTurn(g, c), c, b)
  {
    CutConcat(c.buffer, b, Turn(g, c.phase, c.buffer).drop);
    TurnMeaning(g, c.phase, c.buffer, c.buffer + b, c.total);
  }

  /** The drain loop until it waits for more bytes; after an answer it no longer matters where it stops. */
  ghost function Waiting(g: Grammar, c: Chunks): Chunks
    decreases |c.buffer|
  {
    if Live(c.phase) && Turn(g, c.phase, c.buffer).Go? then Waiting(g, AfterTurn(g, c)) else c
  }

  lemma {:induction false} DrainWaits(g: Grammar, c: Chunks)
    requires Live(c.phase) && Drain(g, c).1.Pending?
    ensures Drain(g, c).0 == Waiting(g, c)
    decreases |c.buffer|
  {
    DrainTurns(g, c);
    if Turn(g, c.phase, c.buffer).Go? { DrainWaits(g, AfterTurn(g, c)); }
  }

  lemma {:induction false} WaitingKeepsMeaning(g: Grammar, c: Chunks, b: seq<byte>)
    requires Live(c.phase)
    ensures SameMeaning(g, Waiting(g, c), c, b)
    decreases |c.buffer|
  {
    if Turn(g, c.phase, c.buffer).Go? {
      TurnKeepsMeaning(g, c, b);
      WaitingKeepsMeaning(g, AfterTurn(g, c), b);
      SameMeaningTransitive(g, Waiting(g, AfterTurn(g, c)), AfterTurn(g, c), c, b);
    }
  }

  /** When the loop waits for more bytes, the state it stops in stands for everything it has read. */
  lemma DrainKeepsMeaning(g: Grammar, c: Chunks, b: seq<byte>)
    requires Live(c.phase) && Drain(g, c).1.Pending?
    ensures SameMeaning(g, Drain(g, c).0, c, b)
  {
    DrainWaits(g, c);
    WaitingKeepsMeaning(g, c, b);
  }

  lemma TrailersPrefix(s: seq<byte>, w: seq<byte>, total: nat)
    requires s <= w && !ParseTrailers(s, total).Pending?
    ensures ParseTrailers(w, total) == ParseTrailers(s, total)
         || (ParseTrailers(s, total) == Invalid(ControlTooLong) && !ClearTrailers(w))
  {
    FindInPrefix(s, w, CRLFCRLF);
  }

  lemma TailOfPrefix(s: seq<byte>, w: seq<byte>, k: nat)
    requires s <= w && k <= |s|
    ensures s[k..] <= w[k..]
  {
  }

  lemma StoppedResultIsFinal(g: Grammar, phase: Phase, s: seq<byte>, w: seq<byte>, total: nat)
    requires s <= w && Live(phase) && Turn(g, phase, s).Stop? && !ParseFrom(g, phase, s, total).Pending?
    ensures ParseFrom(g, phase, w, total) == ParseFrom(g, phase, s, total)
         || (ParseFrom(g, phase, s, total) == Invalid(ControlTooLong) && !ClearFrom(g, phase, w))
  {
    if phase.Size? {
      FindInPrefix(s, w, CRLF);
      var f := FindBytes(s, CRLF);
      if f.Some? { assert w[..f.value] == s[..f.value]; }
    } else if phase.Trailers? {
      TrailersPrefix(s, w, total);
    } else if phase.DataEnding? {
      assert w[0..2] == s[0..2];
    }
  }

  /** A result reached on a prefix is final, except that an over-length refusal may be premature. */
  lemma {:induction false} ChunkResultIsFinal(g: Grammar, phase: Phase, s: seq<byte>, w: seq<byte>, total: nat)
    requires s <= w && Live(phase) && !ParseFrom(g, phase, s, total).Pending?
    ensures ParseFrom(g, phase, w, total) == ParseFrom(g, phase, s, total)
         || (ParseFrom(g, phase, s, total) == Invalid(ControlTooLong) && !ClearFrom(g, phase, w))
    decreases |s|
  {
    var t := Turn(g, phase, s);
    if t.Go? {
      TurnMeaning(g, phase, s, s, total);
      TurnMeaning(g, phase, s, w, total);
      TailOfPrefix(s, w, t.drop);
      ChunkResultIsFinal(g, t.next, s[t.drop..], w[t.drop..], total + t.gain);
    } else {
      StoppedResultIsFinal(g, phase, s, w, total);
    }
  }

  lemma UnclearSizeCut(g: Grammar, s: seq<byte>, total: nat)
    requires FindBytes(s, CRLF).Some? && !ClearOf(FindBytes(s, CRLF).value, 2)
    ensures MAX_HEADER_BYTES < |s|
    ensures ParseChunks(g, s[..MAX_HEADER_BYTES + 1], total) == Invalid(ControlTooLong)
  {
    FindInPrefix(s[..MAX_HEADER_BYTES + 1], s, CRLF);
  }

  lemma UnclearTrailersCut(s: seq<byte>, total: nat)
    requires !ClearTrailers(s)
    ensures MAX_HEADER_BYTES < |s|
    ensures ParseTrailers(s[..MAX_HEADER_BYTES + 1], total) == Invalid(ControlTooLong)
  {
    var k := MAX_HEADER_BYTES + 1;
    FindInPrefix(s[..k], s, CRLFCRLF);
    assert s[..k][..2] == s[..2];
  }

  /** A turn only looks at the bytes it removes. */
  lemma TurnIsLocal(g: Grammar, phase: Phase, s: seq<byte>)
    requires Live(phase) && Turn(g, phase, s).Go?
    ensures Turn(g, phase, s[..Turn(g, phase, s).drop]) == Turn(g, phase, s)
  {
    var head := s[..Turn(g, phase, s).drop];
    if phase.Size? {
      var end := FindBytes(s, CRLF).value;
      FindInPrefix(head, s, CRLF);
      FindFromIsFirst(head, CRLF, 0);
      FindFromIsFirst(s, CRLF, 0);
      assert IsAt(head, CRLF, end) by { assert head[end..end + 2] == s[end..end + 2]; }
      assert head[..end] == s[..end];
    } else if phase.DataEnding? {
      assert head[..2] == s[..2];
    }
  }

  /** If some control element is not clear of the limit, cutting the input inside it makes the decoder refuse. */
  lemma {:induction false} UnclearCut(g: Grammar, phase: Phase, s: seq<byte>, total: nat) returns (k: nat)
    requires Live(phase) && !ClearFrom(g, phase, s)
    ensures k <= |s|
    ensures ParseFrom(g, phase, s[..k], total) == Invalid(ControlTooLong)
    decreases |s|, 1
  {
    if phase.Trailers? {
      UnclearTrailersCut(s, total);
      k := MAX_HEADER_BYTES + 1;
    } else if phase.Size? && !ClearOf(FindBytes(s, CRLF).value, 2) {
      UnclearSizeCut(g, s, total);
      k := MAX_HEADER_BYTES + 1;
    } else {
      UnclearTurns(g, phase, s);
      var t := Turn(g, phase, s);
      TurnMeaning(g, phase, s, s, total);
      forall j: nat | t.drop + j <= |s| ensures CutsAlike(g, phase, s, total, t, j) {
        CutAfterTurn(g, phase, s, total, j);
      }
      k := UnclearAfterTurn(g, phase, s, total, t);
    }
  }

  /** Cutting `j` bytes after a turn and cutting what the turn leaves parse alike. */
  ghost predicate CutsAlike(g: Grammar, phase: Phase, s: seq<byte>, total: nat, t: Turning, j: nat)
    requires t.Go? && t.drop + j <= |s|
  {
    ParseFrom(g, phase, s[..t.drop + j], total) == ParseFrom(g, t.next, s[t.drop..][..j], total + t.gain)
  }

  lemma {:induction false} UnclearAfterTurn(g: Grammar, phase: Phase, s: seq<byte>, total: nat, t: Turning) returns (k: nat)
    requires t.Go? && Live(t.next) && 0 < t.drop <= |s| && !ClearFrom(g, t.next, s[t.drop..])
    requires forall j: nat :: t.drop + j <= |s| ==> CutsAlike(g, phase, s, total, t, j)
    ensures k <= |s|
    ensures ParseFrom(g, phase, s[..k], total) == Invalid(ControlTooLong)
    decreases |s|, 0
  {
    var j := UnclearCut(g, t.next, s[t.drop..], total + t.gain);
    assert CutsAlike(g, phase, s, total, t, j);
    k := t.drop + j;
  }

  lemma CutTwice(s: seq<byte>, a: nat, b: nat)
    requires a + b <= |s|
    ensures s[..a + b][a..] == s[a..][..b] && s[..a] <= s[..a + b]
  {
  }

  /** Cutting after a turn means cutting what the turn leaves. */
  lemma CutAfterTurn(g: Grammar, phase: Phase, s: seq<byte>, total: nat, k: nat)
    requires Live(phase) && Turn(g, phase, s).Go? && Turn(g, phase, s).drop + k <= |s|
    ensures var t := Turn(g, phase, s);
            ParseFrom(g, phase, s[..t.drop + k], total) == ParseFrom(g, t.next, s[t.drop..][..k], total + t.gain)
  {
    var t := Turn(g, phase, s);
    TurnIsLocal(g, phase, s);
    CutTwice(s, t.drop, k);
    TurnMeaning(g, phase, s[..t.drop], s[..t.drop + k], total);
  }

  lemma UnclearTurns(g: Grammar, phase: Phase, s: seq<byte>)
    requires Live(phase) && !ClearFrom(g, phase, s) && !phase.Trailers?
    requires phase.Size? ==> ClearOf(FindBytes(s, CRLF).value, 2)
    ensures Turn(g, phase, s).Go?
  {
    if phase.DataEnding? {
      assert s[0..2] == s[..2];
    }
  }

  // ----- decoder states against the one-shot response parser -----

  /** A chunk state stands for the body bytes `q` when every continuation means the same. */
  ghost predicate ChunksStandFor(g: Grammar, c: Chunks, q: seq<byte>)
  {
    && Live(c.phase)
    && forall b: seq<byte> ::
         && ParseFrom(g, c.phase, c.buffer + b, c.total) == ParseChunks(g, q + b, 0)
         && (ClearChunks(g, q + b) ==> ClearFrom(g, c.phase, c.buffer + b))
  }

  ghost predicate BodyStandsFor(g: Grammar, body: Body, framing: Framing, q: seq<byte>)
  {
    match framing
    case ContentLength(n) => |q| < n && body == Sized(n - |q|, |q|)
    case Chunked => body.Chunking? && ChunksStandFor(g, body.chunks, q)
    case CloseDelimited => body == UntilClose(|q|)
  }

  /** A waiting decoder stands for the bytes `p` it has been fed. */
  ghost predicate StandsFor(g: Grammar, d: Response, noBody: bool, p: seq<byte>)
  {
    && Configured(d) && d.noBody == noBody
    && match d.head
       case None => d.header == p && FindBytes(p, CRLFCRLF).None? && |p| <= MAX_HEADER_BYTES
       case Some(head) =>
         var f := FindBytes(p, CRLFCRLF);
         && f.Some? && f.value <= MAX_HEADER_BYTES
         && g.parseHead(p[..f.value]) == HeadOk(head)
         && BodyStandsFor(g, d.body, BodyFraming(noBody, head), p[f.value + 4..])
  }

  lemma NewStandsForNothing(g: Grammar, noBody: bool)
    ensures StandsFor(g, NewDecoder(noBody), noBody, [])
  {
  }

  lemma ChunkFeed(g: Grammar, c: Chunks, q: seq<byte>, data: seq<byte>)
    requires ChunksStandFor(g, c, q)
    ensures Drain(g, Push(c, data)).1 == ParseChunks(g, q + data, 0)
    ensures Drain(g, Push(c, data)).1.Pending? ==> ChunksStandFor(g, Drain(g, Push(c, data)).0, q + data)
  {
    DrainIsParse(g, Push(c, data));
    if Drain(g, Push(c, data)).1.Pending? {
      DrainKeepsMeaning(g, Push(c, data), []);
      var d := Drain(g, Push(c, data)).0;
      forall b: seq<byte>
        ensures ParseFrom(g, d.phase, d.buffer + b, d.total) == ParseChunks(g, q + data + b, 0)
        ensures ClearChunks(g, q + data + b) ==> ClearFrom(g, d.phase, d.buffer + b)
      {
        ChunkFeedThen(g, c, q, data, b);
      }
    }
  }

  lemma Associative(a: seq<byte>, b: seq<byte>, c: seq<byte>)
    ensures a + b + c == a + (b + c)
  {
  }

  lemma ChunkFeedThen(g: Grammar, c: Chunks, q: seq<byte>, data: seq<byte>, b: seq<byte>)
    requires ChunksStandFor(g, c, q) && Drain(g, Push(c, data)).1.Pending?
    ensures var d := Drain(g, Push(c, data)).0;
            && ParseFrom(g, d.phase, d.buffer + b, d.total) == ParseChunks(g, q + data + b, 0)
            && (ClearChunks(g, q + data + b) ==> ClearFrom(g, d.phase, d.buffer + b))
  {
    DrainKeepsMeaning(g, Push(c, data), b);
    Associative(c.buffer, data, b);
    Associative(q, data, b);
  }

  /** Feeding body bytes to a state that stands for `q` answers as the one-shot body parser does on `q + data`. */
  lemma BodyFeed(g: Grammar, body: Body, framing: Framing, q: seq<byte>, data: seq<byte>, eof: bool)
    requires BodyStandsFor(g, body, framing, q) || (q == [] && body == StartBody(framing))
    ensures !body.Waiting?
    ensures ConsumeBody(g, body, data, eof).1 == ParseBody(g, framing, q + data, eof)
    ensures ConsumeBody(g, body, data, eof).1.Pending? ==> BodyStandsFor(g, ConsumeBody(g, body, data, eof).0, framing, q + data)
  {
    if framing.Chunked? {
      ChunkFeed(g, body.chunks, q, data);
    }
  }

  lemma HeadFound(s: seq<byte>, w: seq<byte>)
    requires s <= w && FindBytes(s, CRLFCRLF).Some?
    ensures FindBytes(w, CRLFCRLF) == FindBytes(s, CRLFCRLF)
    ensures var end := FindBytes(s, CRLFCRLF).value;
            && w[..end] == s[..end]
            && w[end + 4..] == s[end + 4..] + w[|s|..]
  {
    FindInPrefix(s, w, CRLFCRLF);
    var end := FindBytes(s, CRLFCRLF).value;
    assert w == s + w[|s|..];
    CutConcat(s, w[|s|..], end);
    CutConcat(s, w[|s|..], end + 4);
  }

  /** Feeding a decoder whose head is parsed. */
  lemma FeedAfterHead(g: Grammar, d: Response, noBody: bool, p: seq<byte>, data: seq<byte>, eof: bool)
    requires StandsFor(g, d, noBody, p) && d.head.Some?
    ensures Feed(g, d, data, eof).1 == ParseResponse(g, noBody, p + data, eof)
    ensures Feed(g, d, data, eof).1.Pending? ==> StandsFor(g, Feed(g, d, data, eof).0, noBody, p + data)
  {
    HeadFound(p, p + data);
    assert (p + data)[|p|..] == data;
    BodyFeed(g, d.body, BodyFraming(noBody, d.head.value), p[FindBytes(p, CRLFCRLF).value + 4..], data, eof);
  }

  /** Feeding the bytes that complete the head: the rest of the feed goes to the new body. */
  lemma FeedThroughHead(g: Grammar, d: Response, noBody: bool, p: seq<byte>, data: seq<byte>, eof: bool)
    requires StandsFor(g, d, noBody, p) && d.head.None?
    requires var f := FindBytes(p + data, CRLFCRLF);
             f.Some? && f.value <= MAX_HEADER_BYTES && g.parseHead((p + data)[..f.value]).HeadOk?
    ensures Feed(g, d, data, eof).1 == ParseResponse(g, noBody, p + data, eof)
    ensures Feed(g, d, data, eof).1.Pending? ==> StandsFor(g, Feed(g, d, data, eof).0, noBody, p + data)
  {
    var s := p + data;
    var end := FindBytes(s, CRLFCRLF).value;
    var framing := BodyFraming(noBody, g.parseHead(s[..end]).head);
    var rest := s[end + 4..];
    BodyFeed(g, StartBody(framing), framing, [], rest, eof);
    assert [] + rest == rest;
  }

  /** The step of the simulation: what one feed answers, and what the waiting state then stands for. */
  lemma FeedSimulates(g: Grammar, d: Response, noBody: bool, p: seq<byte>, data: seq<byte>, eof: bool)
    requires StandsFor(g, d, noBody, p)
    ensures Feed(g, d, data, eof).1 == ParseResponse(g, noBody, p + data, eof)
    ensures Feed(g, d, data, eof).1.Pending? ==> StandsFor(g, Feed(g, d, data, eof).0, noBody, p + data)
  {
    var f := FindBytes(p + data, CRLFCRLF);
    if d.head.Some? {
      FeedAfterHead(g, d, noBody, p, data, eof);
    } else if f.Some? && f.value <= MAX_HEADER_BYTES && g.parseHead((p + data)[..f.value]).HeadOk? {
      FeedThroughHead(g, d, noBody, p, data, eof);
    }
  }

  /** A single feed of the whole input is the one-shot parser, with no condition at all. */
  lemma OneFeedIsParse(g: Grammar, noBody: bool, s: seq<byte>, eof: bool)
    ensures Feed(g, NewDecoder(noBody), s, eof).1 == ParseResponse(g, noBody, s, eof)
  {
    NewStandsForNothing(g, noBody);
    FeedSimulates(g, NewDecoder(noBody), noBody, [], s, eof);
    assert [] + s == s;
  }

  /** An empty feed that is not end of input neither answers nor forgets anything. */
  lemma EmptyFeedIsNoOp(g: Grammar, d: Response, noBody: bool, p: seq<byte>)
    requires StandsFor(g, d, noBody, p) && ParseResponse(g, noBody, p, false).Pending?
    ensures Feed(g, d, [], false).1.Pending?
    ensures StandsFor(g, Feed(g, d, [], false).0, noBody, p)
    ensures d.head.None? ==> Feed(g, d, [], false).0 == d
  {
    FeedSimulates(g, d, noBody, p, [], false);
    assert p + [] == p;
    assert d.header + [] == d.header;
  }

  /** A result on a prefix is the result on the whole, except for a premature over-length refusal. */
  lemma ResultIsFinal(g: Grammar, noBody: bool, s: seq<byte>, w: seq<byte>, eof: bool)
    requires s <= w && !ParseResponse(g, noBody, s, false).Pending?
    ensures ParseResponse(g, noBody, w, eof) == ParseResponse(g, noBody, s, false)
         || Premature(g, noBody, w, ParseResponse(g, noBody, s, false))
  {
    FindInPrefix(s, w, CRLFCRLF);
    var f := FindBytes(s, CRLFCRLF);
    if f.Some? && f.value <= MAX_HEADER_BYTES {
      HeadFound(s, w);
      var r := g.parseHead(s[..f.value]);
      if r.HeadOk? && BodyFraming(noBody, r.head).Chunked? {
        ChunkResultIsFinal(g, Size, s[f.value + 4..], w[f.value + 4..], 0);
      }
    }
  }

  /** Any segmentation answers as the one-shot parser, or refuses early at an element that is not clear. */
  lemma {:induction false} StreamSimulates(g: Grammar, d: Response, noBody: bool, p: seq<byte>, segments: seq<seq<byte>>, eof: bool)
    requires StandsFor(g, d, noBody, p)
    ensures Stream(g, d, segments, eof) == ParseResponse(g, noBody, p + Concat(segments), eof)
         || Premature(g, noBody, p + Concat(segments), Stream(g, d, segments, eof))
    decreases |segments|
  {
    if segments == [] {
      FeedSimulates(g, d, noBody, p, [], eof);
    } else {
      Associative(p, segments[0], Concat(segments[1..]));
      FeedSimulates(g, d, noBody, p, segments[0], false);
      if Feed(g, d, segments[0], false).1.Pending? {
        StreamSimulates(g, Feed(g, d, segments[0], false).0, noBody, p + segments[0], segments[1..], eof);
      } else {
        ResultIsFinal(g, noBody, p + segments[0], p + segments[0] + Concat(segments[1..]), eof);
      }
    }
  }

  /** Refinement: clear of the limit, every segmentation of the input gives the one-shot answer. */
  lemma SegmentationIndependence(g: Grammar, noBody: bool, segments: seq<seq<byte>>, eof: bool)
    requires ClearResponse(g, noBody, Concat(segments))
    ensures Stream(g, NewDecoder(noBody), segments, eof) == ParseResponse(g, noBody, Concat(segments), eof)
  {
    NewStandsForNothing(g, noBody);
    StreamSimulates(g, NewDecoder(noBody), noBody, [], segments, eof);
    assert [] + Concat(segments) == Concat(segments);
  }

  /** The cut of a whole response at which the decoder refuses. */
  lemma UnclearResponseCut(g: Grammar, noBody: bool, s: seq<byte>) returns (k: nat)
    requires !ClearResponse(g, noBody, s)
    ensures k <= |s|
    ensures ParseResponse(g, noBody, s[..k], false) == Refusal(s)
  {
    var end := FindBytes(s, CRLFCRLF).value;
    if ClearOf(end, 4) {
      var k' := UnclearCut(g, Size, s[end + 4..], 0);
      k := end + 4 + k';
      HeadInCut(s, k);
      CutTwice(s, end + 4, k');
    } else {
      k := MAX_HEADER_BYTES + 1;
      FindInPrefix(s[..k], s, CRLFCRLF);
    }
  }

  lemma HeadInCut(s: seq<byte>, k: nat)
    requires FindBytes(s, CRLFCRLF).Some? && FindBytes(s, CRLFCRLF).value + 4 <= k <= |s|
    ensures FindBytes(s[..k], CRLFCRLF) == FindBytes(s, CRLFCRLF)
    ensures s[..k][..FindBytes(s, CRLFCRLF).value] == s[..FindBytes(s, CRLFCRLF).value]
  {
    var end := FindBytes(s, CRLFCRLF).value;
    FindInPrefix(s[..k], s, CRLFCRLF);
    FindFromIsFirst(s, CRLFCRLF, 0);
    FindFromIsFirst(s[..k], CRLFCRLF, 0);
    assert IsAt(s[..k], CRLFCRLF, end) by { assert s[..k][end..end + 4] == s[end..end + 4]; }
  }

  /** A stream with an element at the limit has a segmentation that the decoder refuses. */
  lemma UnclearStreamRefuses(g: Grammar, noBody: bool, s: seq<byte>, eof: bool) returns (segments: seq<seq<byte>>)
    requires !ClearResponse(g, noBody, s)
    ensures Concat(segments) == s
    ensures Stream(g, NewDecoder(noBody), segments, eof) == Refusal(s)
  {
    var k := UnclearResponseCut(g, noBody, s);
    segments := [s[..k], s[k..]];
    assert s == s[..k] + s[k..];
    assert segments[1..] == [s[k..]] && Concat([s[k..]]) == s[k..] + Concat([]);
    OneFeedIsParse(g, noBody, s[..k], false);
  }

  lemma {:induction false} ChunksBlameChunks(g: Grammar, s: seq<byte>, total: nat)
    ensures ParseChunks(g, s, total) != Invalid(HeadersTooLong)
    decreases |s|
  {
    var f := FindBytes(s, CRLF);
    if f.Some? && f.value <= MAX_HEADER_BYTES && g.parseSize(s[..f.value]).Some? {
      var size := g.parseSize(s[..f.value]).value;
      var after := f.value + 2 + size;
      if size != 0 && after + 2 <= |s| && s[after..after + 2] == CRLF {
        ChunksBlameChunks(g, s[after + 2..], total + size);
      }
    }
  }

  lemma RefusalNeedsClearHead(g: Grammar, noBody: bool, s: seq<byte>, eof: bool)
    requires ParseResponse(g, noBody, s, eof) == Refusal(s)
    ensures ClearHead(s)
  {
    var f := FindBytes(s, CRLFCRLF);
    if f.Some? {
      ChunksBlameChunks(g, s[f.value + 4..], 0);
    }
  }

  ghost predicate SameUnderEveryCut(g: Grammar, noBody: bool, s: seq<byte>, eof: bool)
  {
    forall segments :: Concat(segments) == s ==>
      Stream(g, NewDecoder(noBody), segments, eof) == ParseResponse(g, noBody, s, eof)
  }

  /**
   * Every segmentation agrees with the one-shot parser exactly when the input is clear of the limit, or when the
   * one-shot answer already is the refusal that a bad cut provokes.
   */
  lemma SegmentationExact(g: Grammar, noBody: bool, s: seq<byte>, eof: bool)
    ensures SameUnderEveryCut(g, noBody, s, eof) <==>
            ClearResponse(g, noBody, s) || ParseResponse(g, noBody, s, eof) == Refusal(s)
  {
    forall segments | Concat(segments) == s
      ensures Stream(g, NewDecoder(noBody), segments, eof) == ParseResponse(g, noBody, s, eof)
           || Premature(g, noBody, s, Stream(g, NewDecoder(noBody), segments, eof))
    {
      NewStandsForNothing(g, noBody);
      StreamSimulates(g, NewDecoder(noBody), noBody, [], segments, eof);
      assert [] + s == s;
    }
    if !ClearResponse(g, noBody, s) {
      var segments := UnclearStreamRefuses(g, noBody, s, eof);
      if ParseResponse(g, noBody, s, eof) == Refusal(s) {
        RefusalNeedsClearHead(g, noBody, s, eof);
      }
    }
  }
}
