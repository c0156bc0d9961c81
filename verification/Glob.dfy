/** The replay whitelist and its backtracking glob matcher (src/replay_filter.rs). */
module Globs {
  import opened Prelude
  import opened Methods

  type Bytes = seq<byte>

  const STAR: byte := 42

  // ----- what a pattern means -----

  /** A star stands for any sequence, every other byte for itself. */
  predicate Match(p: Bytes, v: Bytes)
    decreases |p| + |v|
  {
    if p == [] then v == []
    else if p[0] == STAR then Match(p[1..], v) || (v != [] && Match(p, v[1..]))
    else v != [] && v[0] == p[0] && Match(p[1..], v[1..])
  }

  lemma {:induction false} StarIsAny(q: Bytes, v: Bytes)
    ensures Match([STAR] + q, v) <==> exists k :: 0 <= k <= |v| && Match(q, v[k..])
    decreases |v|
  {
    var p := [STAR] + q;
    assert p[1..] == q;
    assert v[0..] == v;
    if v != [] {
      StarIsAny(q, v[1..]);
      if k :| 0 <= k <= |v[1..]| && Match(q, v[1..][k..]) {
        assert v[1..][k..] == v[k + 1..];
      }
      if k :| 0 < k <= |v| && Match(q, v[k..]) {
        assert v[1..][k - 1..] == v[k..];
      }
    }
  }

  lemma PrefixNext(b: Bytes, v: Bytes)
    requires b != [] && v != []
    ensures b <= v <==> b[0] == v[0] && b[1..] <= v[1..]
    ensures |b| <= |v| ==> v[1..][|b[1..]|..] == v[|b|..]
  {
    if b[0] == v[0] && b[1..] <= v[1..] {
      assert b == [b[0]] + b[1..] && v == [v[0]] + v[1..];
    }
  }

  /** A block without stars matches exactly itself. */
  lemma {:induction false} BlockIsLiteral(b: Bytes, q: Bytes, v: Bytes)
    requires STAR !in b
    ensures Match(b + q, v) <==> b <= v && Match(q, v[|b|..])
  {
    if b == [] {
      assert b + q == q && v[0..] == v;
    } else {
      assert (b + q)[0] == b[0] && (b + q)[1..] == b[1..] + q;
      if v != [] {
        BlockIsLiteral(b[1..], q, v[1..]);
        PrefixNext(b, v);
      }
    }
  }

  /** Once a star has been met, the block before it need not be moved any further. */
  lemma FirstFitSuffices(b: Bytes, q: Bytes, v: Bytes)
    requires STAR !in b && q != [] && q[0] == STAR
    ensures Match([STAR] + (b + q), b + v) <==> Match(q, v)
  {
    var w := b + v;
    StarIsAny(b + q, w);
    assert q == [STAR] + q[1..];
    if k :| 0 <= k <= |w| && Match(b + q, w[k..]) {
      BlockIsLiteral(b, q, w[k..]);
      assert |b| <= |w[k..]|;
      assert w[k..][|b|..] == v[k..];
      StarIsAny(q[1..], v[k..]);
      var j :| 0 <= j <= |v[k..]| && Match(q[1..], v[k..][j..]);
      assert v[k..][j..] == v[k + j..];
      StarIsAny(q[1..], v);
    }
    if Match(q, v) {
      BlockIsLiteral(b, q, w);
      assert w[|b|..] == v && w[0..] == w;
    }
  }

  predicate AllStars(p: Bytes)
  {
    p == [] || (p[0] == STAR && AllStars(p[1..]))
  }

  lemma {:induction false} NothingLeft(p: Bytes)
    ensures Match(p, []) <==> AllStars(p)
  {
    if p != [] { NothingLeft(p[1..]); }
  }

  /** At the last byte it does not matter whether a star byte is taken literally. */
  lemma {:induction false} LastStar(p: Bytes)
    ensures Match([STAR] + p, [STAR]) <==> AllStars(p)
  {
    assert ([STAR] + p)[1..] == p;
    assert Match([STAR] + p, [STAR]) <==> Match(p, [STAR]) || Match([STAR] + p, []) by { assert [STAR][1..] == []; }
    NothingLeft([STAR] + p);
    if p != [] && p[0] == STAR {
      LastStar(p[1..]);
      assert p == [STAR] + p[1..];
    }
  }

  // ----- what the matcher computes -----

  /** The matcher's loop from one of its states on. */
  predicate Run(p: Bytes, v: Bytes, i: nat, j: nat, star: Option<nat>, retry: nat)
    requires i <= |p| && retry <= j <= |v| && (star.Some? ==> star.value < |p|)
    decreases |v| - retry, |p| - i
  {
    if j == |v| then AllStars(p[i..])
    else if i < |p| && p[i] == v[j] then Run(p, v, i + 1, j + 1, star, retry)
    else if i < |p| && p[i] == STAR then Run(p, v, i + 1, j, Some(i), j)
    else if star.Some? then Run(p, v, star.value + 1, retry + 1, star, retry + 1)
    else false
  }

  predicate Glob(p: Bytes, v: Bytes)
  {
    Run(p, v, 0, 0, None, 0)
  }

  lemma Unfold(p: Bytes, i: nat)
    requires i < |p|
    ensures p[i..][0] == p[i] && p[i..][1..] == p[i + 1..]
  {
  }

  lemma {:induction false} RunIsSound(p: Bytes, v: Bytes, i: nat, j: nat, star: Option<nat>, retry: nat)
    requires i <= |p| && retry <= j <= |v| && (star.Some? ==> star.value < |p| && p[star.value] == STAR)
    requires Run(p, v, i, j, star, retry)
    ensures Match(p[i..], v[j..]) || (star.Some? && Match(p[star.value..], v[retry..]))
    decreases |v| - retry, |p| - i
  {
    if j == |v| {
      NothingLeft(p[i..]);
    } else {
      Unfold(v, j);
      if i < |p| { Unfold(p, i); }
      if i < |p| && p[i] == v[j] {
        RunIsSound(p, v, i + 1, j + 1, star, retry);
      } else if i < |p| && p[i] == STAR {
        RunIsSound(p, v, i + 1, j, Some(i), j);
      } else {
        Unfold(p, star.value);
        Unfold(v, retry);
        RunIsSound(p, v, star.value + 1, retry + 1, star, retry + 1);
      }
    }
  }

  /** No star byte in the value, except perhaps its last byte. */
  predicate Plain(v: Bytes)
  {
    forall j :: 0 <= j < |v| - 1 ==> v[j] != STAR
  }

  /** Between the latest star and the current position, pattern and value agree and contain no star. */
  predicate Aligned(p: Bytes, v: Bytes, i: nat, j: nat, star: nat, retry: nat)
  {
    && star < i <= |p| && retry <= j <= |v| && p[star] == STAR
    && STAR !in p[star + 1..i] && p[star + 1..i] == v[retry..j]
  }

  lemma Split(p: Bytes, v: Bytes, i: nat, j: nat, star: nat, retry: nat)
    requires Aligned(p, v, i, j, star, retry)
    ensures var b := p[star + 1..i];
            p[star..] == [STAR] + (b + p[i..]) && p[star + 1..] == b + p[i..] && v[retry..] == b + v[j..]
  {
  }

  lemma AlignedNext(p: Bytes, v: Bytes, i: nat, j: nat, star: nat, retry: nat)
    requires Aligned(p, v, i, j, star, retry) && i < |p| && j < |v| && p[i] == v[j] != STAR
    ensures Aligned(p, v, i + 1, j + 1, star, retry)
  {
    assert p[star + 1..i + 1] == p[star + 1..i] + [p[i]] && v[retry..j + 1] == v[retry..j] + [v[j]];
  }

  /** The value is used up. */
  lemma AtEnd(p: Bytes, v: Bytes, i: nat, star: nat, retry: nat)
    requires Aligned(p, v, i, |v|, star, retry)
    ensures Match(p[star..], v[retry..]) <==> AllStars(p[i..])
  {
    var b := p[star + 1..i];
    Split(p, v, i, |v|, star, retry);
    BlockAtEnd(b, p[i..]);
    assert v[|v|..] == [] && b + v[|v|..] == b;
  }

  /** The next star takes over: the block before it stays where it is. */
  lemma NextStar(p: Bytes, v: Bytes, i: nat, j: nat, star: nat, retry: nat)
    requires Aligned(p, v, i, j, star, retry) && i < |p| && p[i] == STAR
    ensures Match(p[star..], v[retry..]) <==> Match(p[i..], v[j..])
  {
    Split(p, v, i, j, star, retry);
    Unfold(p, i);
    FirstFitSuffices(p[star + 1..i], p[i..], v[j..]);
  }

  /** A mismatch after the block: the star takes one more byte. */
  lemma Mismatch(p: Bytes, v: Bytes, i: nat, j: nat, star: nat, retry: nat)
    requires Plain(v) && Aligned(p, v, i, j, star, retry) && j < |v| && (i < |p| ==> p[i] != STAR && p[i] != v[j])
    ensures Match(p[star..], v[retry..]) <==> Match(p[star..], v[retry + 1..])
  {
    var b := p[star + 1..i];
    Split(p, v, i, j, star, retry);
    BlockIsLiteral(b, p[i..], v[retry..]);
    assert v[retry..][|b|..] == v[j..];
    Unfold(v, retry);
    Unfold(p, star);
    if i < |p| { Unfold(p, i); }
    Unfold(v, j);
  }

  /** Restarting only from the latest star loses nothing. */
  lemma {:induction false} RunFromStar(p: Bytes, v: Bytes, i: nat, j: nat, star: nat, retry: nat)
    requires Plain(v) && Aligned(p, v, i, j, star, retry)
    ensures Run(p, v, i, j, Some(star), retry) <==> Match(p[star..], v[retry..])
    decreases |v| - retry, |p| - i
  {
    if j == |v| {
      AtEnd(p, v, i, star, retry);
    } else if i < |p| && p[i] == STAR {
      NextStar(p, v, i, j, star, retry);
      StarAhead(p, v, i, j, Some(star), retry);
      if v[j] != STAR { RunFromStar(p, v, i + 1, j, i, j); }
    } else if i < |p| && p[i] == v[j] {
      AlignedNext(p, v, i, j, star, retry);
      RunFromStar(p, v, i + 1, j + 1, star, retry);
    } else {
      Mismatch(p, v, i, j, star, retry);
      RunFromStar(p, v, star + 1, retry + 1, star, retry + 1);
    }
  }

  /** A star byte in the pattern: a new star, or the very last byte of the value. */
  lemma StarAhead(p: Bytes, v: Bytes, i: nat, j: nat, star: Option<nat>, retry: nat)
    requires i < |p| && p[i] == STAR && retry <= j < |v| && (star.Some? ==> star.value < |p|) && Plain(v)
    ensures v[j] == STAR ==> (Run(p, v, i, j, star, retry) <==> Match(p[i..], v[j..]))
    ensures v[j] != STAR ==> Run(p, v, i, j, star, retry) == Run(p, v, i + 1, j, Some(i), j)
  {
    if v[j] == STAR {
      assert v[j..] == [STAR] && p[i..] == [STAR] + p[i + 1..];
      LastStar(p[i + 1..]);
    }
  }

  lemma BlockAtEnd(b: Bytes, q: Bytes)
    requires STAR !in b
    ensures Match([STAR] + (b + q), b) <==> AllStars(q)
  {
    StarIsAny(b + q, b);
    if k :| 0 <= k <= |b| && Match(b + q, b[k..]) {
      BlockIsLiteral(b, q, b[k..]);
      assert b[k..][|b|..] == [];
      NothingLeft(q);
    }
    if AllStars(q) {
      NothingLeft(q);
      assert b[0..] == b && b[|b|..] == [];
      BlockIsLiteral(b, q, b);
    }
  }

  lemma {:induction false} RunWithoutStar(p: Bytes, v: Bytes, i: nat)
    requires Plain(v) && i <= |p| && i <= |v|
    ensures Run(p, v, i, i, None, 0) <==> Match(p[i..], v[i..])
    decreases |p| - i
  {
    if i == |v| {
      NothingLeft(p[i..]);
    } else {
      Unfold(v, i);
      if i < |p| {
        Unfold(p, i);
        if p[i] == STAR {
          StarAhead(p, v, i, i, None, 0);
          if v[i] != STAR { RunFromStar(p, v, i + 1, i, i, i); }
        } else if p[i] == v[i] {
          RunWithoutStar(p, v, i + 1);
        }
      }
    }
  }

  /** The matcher never claims a match that is none. */
  lemma GlobIsSound(p: Bytes, v: Bytes)
    ensures Glob(p, v) ==> Match(p, v)
  {
    if Glob(p, v) {
      RunIsSound(p, v, 0, 0, None, 0);
      assert p[0..] == p && v[0..] == v;
    }
  }

  // ----- when it is complete -----

  lemma {:induction false} RunOverPrefix(p: Bytes, v: Bytes, i: nat)
    requires i <= |p| <= |v| && p == v[..|p|]
    ensures Run(p, v, i, i, None, 0) <==> |p| == |v|
    decreases |p| - i
  {
    if i < |p| { RunOverPrefix(p, v, i + 1); }
  }

  /** An early star byte in the value is taken literally, and the pattern "everything before it, then a star" is missed. */
  lemma StarInValue(v: Bytes, k: nat)
    requires k < |v| - 1 && v[k] == STAR && forall j :: 0 <= j < k ==> v[j] != STAR
    ensures Match(v[..k + 1], v) && !Glob(v[..k + 1], v)
  {
    var b := v[..k];
    assert v[..k + 1] == b + [STAR];
    BlockIsLiteral(b, [STAR], v);
    StarIsAny([], v[k..]);
    assert v[k..][|v| - k..] == [] && [STAR] + [] == [STAR];
    RunOverPrefix(v[..k + 1], v, 0);
  }

  lemma FirstStar(v: Bytes) returns (k: nat)
    requires !Plain(v)
    ensures k < |v| - 1 && v[k] == STAR && forall j :: 0 <= j < k ==> v[j] != STAR
  {
    k := 0;
    while v[k] != STAR
      invariant k < |v| - 1 && forall j :: 0 <= j < k ==> v[j] != STAR
      decreases |v| - k
    {
      k := k + 1;
    }
  }

  /** The matcher agrees with the meaning of every pattern exactly for values without a star byte before their last byte. */
  lemma GlobIsExact(v: Bytes)
    ensures (forall p :: Glob(p, v) <==> Match(p, v)) <==> Plain(v)
  {
    if Plain(v) {
      forall p ensures Glob(p, v) <==> Match(p, v) {
        RunWithoutStar(p, v, 0);
        assert p[0..] == p && v[0..] == v;
      }
    } else {
      var k := FirstStar(v);
      StarInValue(v, k);
    }
  }

  // ----- the matcher and the filter -----

  /** The loop itself; it terminates on every input. */
  method GlobMatches(pattern: Bytes, value: Bytes) returns (matches: bool)
    ensures matches == Glob(pattern, value)
    ensures matches ==> Match(pattern, value)
    ensures Plain(value) ==> (matches <==> Match(pattern, value))
  {
    GlobIsSound(pattern, value);
    GlobIsExact(value);
    var patternIndex: nat, valueIndex: nat := 0, 0;
    var star: Option<nat>, retryValue: nat := None, 0;
    while valueIndex < |value|
      invariant patternIndex <= |pattern| && retryValue <= valueIndex <= |value|
      invariant star.Some? ==> star.value < |pattern|
      invariant Run(pattern, value, patternIndex, valueIndex, star, retryValue) == Glob(pattern, value)
      decreases |value| - retryValue, |pattern| - patternIndex
    {
      if patternIndex < |pattern| && pattern[patternIndex] == value[valueIndex] {
        patternIndex, valueIndex := patternIndex + 1, valueIndex + 1;
      } else if patternIndex < |pattern| && pattern[patternIndex] == STAR {
        star, patternIndex, retryValue := Some(patternIndex), patternIndex + 1, valueIndex;
      } else if star.Some? {
        retryValue := retryValue + 1;
        valueIndex, patternIndex := retryValue, star.value + 1;
      } else {
        return false;
      }
    }
    while patternIndex < |pattern| && pattern[patternIndex] == STAR
      invariant patternIndex <= |pattern|
      invariant AllStars(pattern[patternIndex..]) == Glob(pattern, value)
    {
      Unfold(pattern, patternIndex);
      patternIndex := patternIndex + 1;
    }
    return patternIndex == |pattern|;
  }

  datatype Request = Request(verb: Method, path: Bytes)

  datatype Whitelist = Whitelist(methods: seq<Method>, uris: seq<Bytes>)

  datatype Applied = Kept(requests: seq<Request>, filtered: nat) | InvalidPattern | ExcludesAll

  const MAX_URI_PATTERNS: nat := 32
  const MAX_PATTERN_BYTES: nat := 256

  predicate ValidPattern(p: Bytes)
  {
    && p != [] && |p| <= MAX_PATTERN_BYTES && p[0] == 47
    && forall i :: 0 <= i < |p| ==> p[i] < 128 && 32 < p[i] && p[i] != 35
  }

  predicate ValidWhitelist(w: Whitelist)
  {
    |w.uris| <= MAX_URI_PATTERNS && forall i :: 0 <= i < |w.uris| ==> ValidPattern(w.uris[i])
  }

  /** What the whitelist is meant to let through. */
  predicate Allowed(r: Request, w: Whitelist)
  {
    && (w.methods == [] || r.verb in w.methods)
    && (w.uris == [] || exists i :: 0 <= i < |w.uris| && Match(w.uris[i], r.path))
  }

  /** What it does let through. */
  predicate Passes(r: Request, w: Whitelist)
  {
    && (w.methods == [] || r.verb in w.methods)
    && (w.uris == [] || exists i :: 0 <= i < |w.uris| && Glob(w.uris[i], r.path))
  }

  /** Only allowed requests pass, and every allowed request passes whose path the matcher is exact on. */
  lemma OnlyAllowedPass(r: Request, w: Whitelist)
    ensures Passes(r, w) ==> Allowed(r, w)
    ensures Plain(r.path) ==> (Passes(r, w) <==> Allowed(r, w))
  {
    forall i | 0 <= i < |w.uris| ensures Glob(w.uris[i], r.path) ==> Match(w.uris[i], r.path) {
      GlobIsSound(w.uris[i], r.path);
    }
    GlobIsExact(r.path);
  }

  function Select(rs: seq<Request>, w: Whitelist): (kept: seq<Request>)
    ensures |kept| <= |rs|
  {
    if rs == [] then []
    else
      var k := |rs| - 1;
      Select(rs[..k], w) + if Passes(rs[k], w) then [rs[k]] else []
  }

  /** The positions of some kept requests: in order, and exactly the passing ones. */
  predicate Positions(rs: seq<Request>, w: Whitelist, at: seq<nat>, kept: seq<Request>)
  {
    && |at| == |kept| && (forall i :: 0 <= i < |at| ==> at[i] < |rs| && kept[i] == rs[at[i]])
    && (forall i, j :: 0 <= i < j < |at| ==> at[i] < at[j])
    && (forall k :: 0 <= k < |rs| ==> (Passes(rs[k], w) <==> k in at))
  }

  lemma PositionsNext(rs: seq<Request>, w: Whitelist, at: seq<nat>, kept: seq<Request>, r: Request)
    requires Positions(rs, w, at, kept)
    ensures Passes(r, w) ==> Positions(rs + [r], w, at + [|rs|], kept + [r])
    ensures !Passes(r, w) ==> Positions(rs + [r], w, at, kept)
  {
    forall k | 0 <= k < |rs| ensures (rs + [r])[k] == rs[k] {}
  }

  /** The selection is the requests at exactly the passing positions, in order. */
  lemma {:induction false} SelectIsSubsequence(rs: seq<Request>, w: Whitelist) returns (at: seq<nat>)
    ensures Positions(rs, w, at, Select(rs, w))
  {
    at := [];
    if rs != [] {
      var k := |rs| - 1;
      var before := SelectIsSubsequence(rs[..k], w);
      PositionsNext(rs[..k], w, before, Select(rs[..k], w), rs[k]);
      assert rs == rs[..k] + [rs[k]];
      at := if Passes(rs[k], w) then before + [k] else before;
    }
  }

  /** The filter keeps the passing requests, in order, and counts the others; it refuses bad patterns and an empty result. */
  method Apply(requests: seq<Request>, w: Whitelist) returns (r: Applied)
    ensures r.InvalidPattern? <==> !ValidWhitelist(w)
    ensures ValidWhitelist(w) ==> (r.ExcludesAll? <==> Select(requests, w) == [])
    ensures r.Kept? ==> r.requests == Select(requests, w) && r.filtered + |r.requests| == |requests|
  {
    if !ValidWhitelist(w) { return InvalidPattern; }
    var kept: seq<Request> := [];
    for k := 0 to |requests|
      invariant kept == Select(requests[..k], w)
    {
      assert requests[..k + 1][..k] == requests[..k];
      var pass := w.methods == [] || requests[k].verb in w.methods;
      if pass && w.uris != [] {
        pass := MatchesAny(w.uris, requests[k].path);
      }
      if pass { kept := kept + [requests[k]]; }
    }
    assert requests[..|requests|] == requests;
    return if kept == [] then ExcludesAll else Kept(kept, |requests| - |kept|);
  }

  method MatchesAny(patterns: seq<Bytes>, path: Bytes) returns (any: bool)
    ensures any <==> exists i :: 0 <= i < |patterns| && Glob(patterns[i], path)
  {
    for k := 0 to |patterns|
      invariant forall i :: 0 <= i < k ==> !Glob(patterns[i], path)
    {
      var m := GlobMatches(patterns[k], path);
      if m { return true; }
    }
    return false;
  }
}
