/** Which entry of the replay is drawn next (src/request_sequence.rs): rounds, shuffles and bounded draws. */
module Replay {
  import opened Prelude
  import opened Arithmetic

  // ----- rounds -----

  predicate Distinct(s: seq<nat>)
  {
    forall i, j :: 0 <= i < j < |s| ==> s[i] != s[j]
  }

  /** A round visits every entry once. */
  predicate Permutation(round: seq<nat>, n: nat)
  {
    |round| == n && (forall x :: x in round ==> x < n) && Distinct(round)
  }

  function Flat(rounds: seq<seq<nat>>): seq<nat>
  {
    if rounds == [] then [] else Flat(rounds[..|rounds| - 1]) + rounds[|rounds| - 1]
  }

  predicate AllPermutations(rounds: seq<seq<nat>>, n: nat)
  {
    forall i :: 0 <= i < |rounds| ==> Permutation(rounds[i], n)
  }

  /** Output made of complete rounds followed by the beginning of one more. */
  predicate InRounds(output: seq<nat>, rounds: seq<seq<nat>>, current: seq<nat>, drawn: nat, n: nat)
  {
    AllPermutations(rounds, n) && Permutation(current, n) && drawn <= n && output == Flat(rounds) + current[..drawn]
  }

  lemma {:induction false} DistinctCounts(s: seq<nat>, x: nat)
    requires Distinct(s)
    ensures multiset(s)[x] == if x in s then 1 else 0
  {
    if s != [] {
      var last := s[|s| - 1];
      var init := s[..|s| - 1];
      DistinctCounts(init, x);
      assert s == init + [last];
    }
  }

  function Below(n: nat): (s: set<nat>)
    ensures forall x: nat :: x in s <==> x < n
    ensures |s| == n
  {
    if n == 0 then {}
    else
      var rest := Below(n - 1);
      assert |rest + {n - 1}| == |rest| + 1;
      rest + {n - 1}
  }

  function Members(s: seq<nat>): (m: set<nat>)
    ensures forall x :: x in m <==> x in s
  {
    if s == [] then {} else
      assert s == s[..|s| - 1] + [s[|s| - 1]];
      Members(s[..|s| - 1]) + {s[|s| - 1]}
  }

  lemma {:induction false} MemberCount(s: seq<nat>)
    requires Distinct(s)
    ensures |Members(s)| == |s|
  {
    if s != [] {
      var last, init := s[|s| - 1], s[..|s| - 1];
      MemberCount(init);
      assert last !in init;
    }
  }

  /** Pigeonhole: distinct numbers below the length of the sequence are all the numbers below it. */
  lemma AllPresent(s: seq<nat>, n: nat, x: nat)
    requires Permutation(s, n) && x < n
    ensures x in s
  {
    MemberCount(s);
    if x !in s {
      assert |Below(n) - {x}| == n - 1;
      SubsetSize(Members(s), Below(n) - {x});
    }
  }

  lemma {:induction false} SubsetSize(a: set<nat>, b: set<nat>)
    requires a <= b
    ensures |a| <= |b|
  {
    if a != {} {
      var x :| x in a;
      SubsetSize(a - {x}, b - {x});
    }
  }

  /** A round contains each entry exactly once. */
  lemma PermutationCounts(round: seq<nat>, n: nat, x: nat)
    requires Permutation(round, n)
    ensures multiset(round)[x] == if x < n then 1 else 0
  {
    DistinctCounts(round, x);
    if x < n { AllPresent(round, n, x); }
  }

  lemma FlatNext(rounds: seq<seq<nat>>, round: seq<nat>)
    ensures Flat(rounds + [round]) == Flat(rounds) + round
  {
    assert (rounds + [round])[..|rounds|] == rounds;
  }

  lemma {:induction false} RoundsCount(rounds: seq<seq<nat>>, n: nat, x: nat)
    requires AllPermutations(rounds, n)
    ensures multiset(Flat(rounds))[x] == if x < n then |rounds| else 0
    ensures |Flat(rounds)| == |rounds| * n
  {
    if rounds != [] {
      var k := |rounds| - 1;
      RoundsCount(rounds[..k], n, x);
      PermutationCounts(rounds[k], n, x);
      FlatNext(rounds[..k], rounds[k]);
      assert rounds == rounds[..k] + [rounds[k]];
      MulNext(k, n);
    }
  }

  /** After exactly `times` rounds' worth of draws, each entry has been drawn exactly `times` times. */
  lemma RoundsAreExact(output: seq<nat>, rounds: seq<seq<nat>>, current: seq<nat>, drawn: nat, n: nat, times: nat, x: nat)
    requires InRounds(output, rounds, current, drawn, n) && |output| == times * n && x < n
    ensures multiset(output)[x] == times
  {
    RoundsCount(rounds, n, x);
    if drawn == n {
      assert current[..drawn] == current;
      PermutationCounts(current, n, x);
      MulNext(|rounds|, n);
      SameQuotient(|rounds| + 1, 0, times, 0, n);
    } else {
      SameQuotient(|rounds|, drawn, times, 0, n);
      assert current[..drawn] == [];
    }
  }

  // ----- sequential order -----

  function Identity(n: nat): (s: seq<nat>)
    ensures Permutation(s, n) && forall i :: 0 <= i < n ==> s[i] == i
  {
    seq(n, i requires 0 <= i => i)
  }

  // ----- Fisher-Yates -----

  function Swap(s: seq<nat>, i: nat, j: nat): (t: seq<nat>)
    requires i < |s| && j < |s|
    ensures |t| == |s|
  {
    s[i := s[j]][j := s[i]]
  }

  lemma SwapKeeps(s: seq<nat>, i: nat, j: nat)
    requires i < |s| && j < |s|
    ensures multiset(Swap(s, i, j)) == multiset(s)
    ensures Distinct(s) ==> Distinct(Swap(s, i, j))
    ensures forall x :: x in Swap(s, i, j) <==> x in s
  {
    assert forall x :: x in Swap(s, i, j) <==> x in multiset(Swap(s, i, j));
    assert forall x :: x in s <==> x in multiset(s);
  }

  /** Choices for shuffling the first `m` positions: one below `m`, then one below `m - 1`, down to one below 2. */
  predicate Choices(c: seq<nat>, m: nat)
    decreases m
  {
    if m <= 1 then c == [] else c != [] && c[0] < m && Choices(c[1..], m - 1)
  }

  /** Swapping each position, from the last down, with the chosen one at or below it. */
  function Shuffled(s: seq<nat>, m: nat, c: seq<nat>): (t: seq<nat>)
    requires m <= |s| && Choices(c, m)
    ensures |t| == |s|
    decreases m
  {
    if m <= 1 then s else Shuffled(Swap(s, m - 1, c[0]), m - 1, c[1..])
  }

  lemma {:induction false} ShuffledKeeps(s: seq<nat>, m: nat, c: seq<nat>)
    requires m <= |s| && Choices(c, m)
    ensures multiset(Shuffled(s, m, c)) == multiset(s)
    ensures Distinct(s) ==> Distinct(Shuffled(s, m, c))
    ensures forall x :: x in Shuffled(s, m, c) <==> x in s
    ensures Shuffled(s, m, c)[m..] == s[m..]
    decreases m
  {
    if 1 < m {
      var t := Swap(s, m - 1, c[0]);
      SwapKeeps(s, m - 1, c[0]);
      ShuffledKeeps(t, m - 1, c[1..]);
      assert Shuffled(s, m, c)[m..] == Shuffled(s, m, c)[m - 1..][1..] == t[m - 1..][1..] == t[m..] == s[m..];
    }
  }

  /** A reshuffle keeps the index list a permutation. */
  lemma ShuffledIsPermutation(s: seq<nat>, n: nat, c: seq<nat>)
    requires Permutation(s, n) && Choices(c, n)
    ensures Permutation(Shuffled(s, n, c), n)
  {
    ShuffledKeeps(s, n, c);
  }

  /** The last position ends up with the element first chosen. */
  lemma LastPlaced(s: seq<nat>, m: nat, c: seq<nat>)
    requires 1 < m <= |s| && Choices(c, m)
    ensures Shuffled(s, m, c)[m - 1] == s[c[0]]
  {
    var t := Swap(s, m - 1, c[0]);
    ShuffledKeeps(t, m - 1, c[1..]);
    assert Shuffled(t, m - 1, c[1..])[m - 1] == Shuffled(t, m - 1, c[1..])[m - 1..][0] == t[m - 1..][0];
  }

  /** Different choices give different orders. */
  lemma {:induction false} ShuffleInjective(s: seq<nat>, m: nat, c: seq<nat>, d: seq<nat>)
    requires m <= |s| && Distinct(s) && Choices(c, m) && Choices(d, m)
    requires Shuffled(s, m, c) == Shuffled(s, m, d)
    ensures c == d
    decreases m
  {
    if 1 < m {
      LastPlaced(s, m, c);
      LastPlaced(s, m, d);
      assert c[0] == d[0];
      SwapKeeps(s, m - 1, c[0]);
      ShuffleInjective(Swap(s, m - 1, c[0]), m - 1, c[1..], d[1..]);
      assert c == [c[0]] + c[1..] && d == [d[0]] + d[1..];
    }
  }

  lemma SameTail(s: seq<nat>, p: seq<nat>, m: nat)
    requires |s| == |p| && m <= |s| && s[m..] == p[m..]
    ensures forall j :: m <= j < |s| ==> s[j] == p[j]
  {
    forall j | m <= j < |s| ensures s[j] == p[j] {
      assert s[j] == s[m..][j - m] && p[j] == p[m..][j - m];
    }
  }

  /** Where the element wanted at position `i` is among the first `m`. */
  lemma Locate(s: seq<nat>, p: seq<nat>, m: nat, i: nat) returns (j: nat)
    requires Distinct(p) && |s| == |p| && i < m <= |s| && s[m..] == p[m..] && multiset(s) == multiset(p)
    ensures j < m && s[j] == p[i]
  {
    assert p[i] in multiset(p);
    SameTail(s, p, m);
    j :| 0 <= j < |s| && s[j] == p[i];
  }

  lemma SwapIntoPlace(s: seq<nat>, p: seq<nat>, m: nat, j: nat)
    requires |s| == |p| && j < m <= |s| && s[m..] == p[m..] && s[j] == p[m - 1]
    ensures Swap(s, m - 1, j)[m - 1..] == p[m - 1..]
  {
    SameTail(s, p, m);
  }

  /** Every order of the entries is reached by some choices. */
  lemma {:induction false} ShuffleSurjective(s: seq<nat>, m: nat, p: seq<nat>) returns (c: seq<nat>)
    requires m <= |s| && Distinct(s) && Distinct(p) && |s| == |p|
    requires multiset(s) == multiset(p) && s[m..] == p[m..]
    ensures Choices(c, m) && Shuffled(s, m, c) == p
    decreases m
  {
    if m <= 1 {
      c := [];
      NothingLeft(s, p, m);
    } else {
      var j := Locate(s, p, m, m - 1);
      var t := Swap(s, m - 1, j);
      SwapTowards(s, p, m, j);
      var rest := ShuffleSurjective(t, m - 1, p);
      c := [j] + rest;
      OneMoreChoice(s, m, j, rest);
    }
  }

  lemma SwapTowards(s: seq<nat>, p: seq<nat>, m: nat, j: nat)
    requires Distinct(s) && |s| == |p| && multiset(s) == multiset(p)
    requires j < m <= |s| && s[m..] == p[m..] && s[j] == p[m - 1]
    ensures var t := Swap(s, m - 1, j);
            Distinct(t) && |t| == |p| && multiset(t) == multiset(p) && t[m - 1..] == p[m - 1..]
  {
    SwapKeeps(s, m - 1, j);
    SwapIntoPlace(s, p, m, j);
  }

  lemma OneMoreChoice(s: seq<nat>, m: nat, j: nat, rest: seq<nat>)
    requires 1 < m <= |s| && j < m && Choices(rest, m - 1)
    ensures Choices([j] + rest, m) && Shuffled(s, m, [j] + rest) == Shuffled(Swap(s, m - 1, j), m - 1, rest)
  {
    assert ([j] + rest)[1..] == rest;
  }

  lemma NothingLeft(s: seq<nat>, p: seq<nat>, m: nat)
    requires m <= 1 && m <= |s| && Distinct(p) && |s| == |p| && multiset(s) == multiset(p) && s[m..] == p[m..]
    ensures s == p
  {
    SameTail(s, p, m);
    if m == 1 {
      var j := Locate(s, p, 1, 0);
    }
  }

  // ----- bounded draws by rejection -----

  const TWO64: nat := 0x1_0000_0000_0000_0000

  /** `bound.wrapping_neg() % bound` on 64-bit words. */
  function Threshold(bound: nat): nat
    requires 0 < bound < TWO64
  {
    (TWO64 - bound) % bound
  }

  /** The position of the first draw the rejection loop accepts, if the stream has one. */
  function FirstAccepted(draws: seq<nat>, bound: nat): (r: Option<nat>)
    requires 0 < bound < TWO64
    ensures r.Some? ==> r.value < |draws| && Threshold(bound) <= draws[r.value]
    ensures r.Some? ==> forall i :: 0 <= i < r.value ==> draws[i] < Threshold(bound)
    ensures r.None? ==> forall i :: 0 <= i < |draws| ==> draws[i] < Threshold(bound)
  {
    if draws == [] then None
    else if Threshold(bound) <= draws[0] then Some(0)
    else match FirstAccepted(draws[1..], bound)
      case None => None
      case Some(k) => assert draws[1..][k] == draws[k + 1]; Some(k + 1)
  }

  lemma ThresholdSplitsEvenly(bound: nat) returns (blocks: nat)
    requires 0 < bound < TWO64
    ensures blocks == TWO64 / bound && Threshold(bound) + blocks * bound == TWO64
    ensures Threshold(bound) == TWO64 % bound && Threshold(bound) < bound
  {
    var q, r := (TWO64 - bound) / bound, (TWO64 - bound) % bound;
    assert TWO64 - bound == q * bound + r;
    blocks := q + 1;
    MulNext(q, bound);
    Quotient(TWO64, bound, blocks, r);
  }

  /** How far above the start of each block of `bound` words, counted from the threshold, a residue lies. */
  function Offset(bound: nat, residue: nat): (e: nat)
    requires 0 < bound < TWO64 && residue < bound
    ensures e < bound
  {
    var t := Threshold(bound);
    if t <= residue then residue - t else residue + bound - t
  }

  /** The word with the given residue in the k-th block above the threshold. */
  function WordInBlock(bound: nat, residue: nat, k: nat): nat
    requires 0 < bound < TWO64 && residue < bound
  {
    Threshold(bound) + k * bound + Offset(bound, residue)
  }

  predicate AcceptedAs(word: nat, bound: nat, residue: nat)
    requires 0 < bound < TWO64
  {
    Threshold(bound) <= word < TWO64 && word % bound == residue
  }

  lemma BlockWordIsAccepted(bound: nat, residue: nat, k: nat)
    requires 0 < bound < TWO64 && residue < bound && k < TWO64 / bound
    ensures AcceptedAs(WordInBlock(bound, residue, k), bound, residue)
  {
    var blocks := ThresholdSplitsEvenly(bound);
    MulNext(k, bound);
    MulMonotone(k + 1, blocks, bound);
    if Threshold(bound) <= residue {
      Quotient(WordInBlock(bound, residue, k), bound, k, residue);
    } else {
      Quotient(WordInBlock(bound, residue, k), bound, k + 1, residue);
    }
  }

  lemma AcceptedWordIsInBlock(bound: nat, residue: nat, word: nat) returns (k: nat)
    requires 0 < bound < TWO64 && residue < bound && AcceptedAs(word, bound, residue)
    ensures k < TWO64 / bound && word == WordInBlock(bound, residue, k)
  {
    var blocks := ThresholdSplitsEvenly(bound);
    var t := Threshold(bound);
    var e: nat;
    k, e := Divide(word - t, bound);
    ResidueAbove(bound, residue, word, k, e);
    if blocks <= k { MulMonotone(blocks, k, bound); }
  }

  lemma ResidueAbove(bound: nat, residue: nat, word: nat, k: nat, e: nat)
    requires 0 < bound < TWO64 && residue < bound && Threshold(bound) < bound
    requires word == Threshold(bound) + k * bound + e && e < bound && word % bound == residue
    ensures e == Offset(bound, residue)
  {
    var t := Threshold(bound);
    MulNext(k, bound);
    if t + e < bound {
      Quotient(word, bound, k, t + e);
    } else {
      Quotient(word, bound, k + 1, t + e - bound);
    }
  }

  lemma BlockWordsDiffer(bound: nat, residue: nat, k: nat, l: nat)
    requires 0 < bound < TWO64 && residue < bound && k < l
    ensures WordInBlock(bound, residue, k) < WordInBlock(bound, residue, l)
  {
    MulNext(k, bound);
    MulMonotone(k + 1, l, bound);
  }

  /** The accepted words with a given residue: one in each block. */
  function AcceptedWords(bound: nat, residue: nat): (s: seq<nat>)
    requires 0 < bound < TWO64 && residue < bound
  {
    seq(TWO64 / bound, k requires 0 <= k => WordInBlock(bound, residue, k))
  }

  /** No modulo bias: for every bound, every residue is the image of exactly TWO64 / bound accepted words. */
  lemma Unbiased(bound: nat, residue: nat)
    requires 0 < bound < TWO64 && residue < bound
    ensures |AcceptedWords(bound, residue)| == TWO64 / bound && Distinct(AcceptedWords(bound, residue))
    ensures forall word: nat :: word in AcceptedWords(bound, residue) <==> AcceptedAs(word, bound, residue)
  {
    var words := AcceptedWords(bound, residue);
    forall i, j | 0 <= i < j < |words| ensures words[i] != words[j] {
      BlockWordsDiffer(bound, residue, i, j);
    }
    forall word: nat ensures word in words <==> AcceptedAs(word, bound, residue) {
      if word in words {
        var k :| 0 <= k < |words| && words[k] == word;
        BlockWordIsAccepted(bound, residue, k);
      }
      if AcceptedAs(word, bound, residue) {
        var k := AcceptedWordIsInBlock(bound, residue, word);
        assert words[k] == word;
      }
    }
  }

  /** The choices of one reshuffle, read from the generator's words, and the words left over. */
  function ReadChoices(words: seq<nat>, m: nat): (r: Option<(seq<nat>, seq<nat>)>)
    requires m < TWO64
    ensures r.Some? ==> Choices(r.value.0, m)
    decreases m
  {
    if m <= 1 then Some(([], words))
    else match FirstAccepted(words, m)
      case None => None
      case Some(k) =>
        match ReadChoices(words[k + 1..], m - 1)
        case None => None
        case Some((rest, left)) => Some(([words[k] % m] + rest, left))
  }

  /** A reshuffle uses words up from the front, at least one for each choice. */
  lemma {:induction false} ChoicesUseWords(words: seq<nat>, m: nat)
    requires m < TWO64 && ReadChoices(words, m).Some?
    ensures var left := ReadChoices(words, m).value.1;
            |left| <= |words| && left == words[|words| - |left|..] && |left| + (if m <= 1 then 0 else m - 1) <= |words|
    decreases m
  {
    if 1 < m { ChoicesUseWords(words[FirstAccepted(words, m).value + 1..], m - 1); }
  }

  /** The order and the words left after shuffling the first `m` positions. */
  function Finish(indices: seq<nat>, words: seq<nat>, m: nat): Option<(seq<nat>, seq<nat>)>
    requires m <= |indices| && m < TWO64
  {
    match ReadChoices(words, m)
    case None => None
    case Some((c, left)) => Some((Shuffled(indices, m, c), left))
  }

  /** One swap of the loop. */
  lemma FinishStep(indices: seq<nat>, words: seq<nat>, m: nat)
    requires 1 < m <= |indices| && m < TWO64
    ensures match FirstAccepted(words, m)
            case None => Finish(indices, words, m) == None
            case Some(k) =>
              Finish(indices, words, m) == Finish(Swap(indices, m - 1, words[k] % m), words[k + 1..], m - 1)
  {
    var f := FirstAccepted(words, m);
    if f.Some? {
      var next := ReadChoices(words[f.value + 1..], m - 1);
      if next.Some? {
        assert ([words[f.value] % m] + next.value.0)[1..] == next.value.0;
      }
    }
  }

  lemma FinishEnd(indices: seq<nat>, words: seq<nat>, m: nat)
    requires m <= 1 && m <= |indices|
    ensures Finish(indices, words, m) == Some((indices, words))
  {
  }

  /** Whatever the words, a finished shuffle of a permutation is a permutation. */
  lemma FinishIsPermutation(indices: seq<nat>, n: nat, words: seq<nat>)
    requires Permutation(indices, n) && n < TWO64 && Finish(indices, words, n).Some?
    ensures Permutation(Finish(indices, words, n).value.0, n)
  {
    ShuffledIsPermutation(indices, n, ReadChoices(words, n).value.0);
  }

  // ----- replay orders -----

  /** The state of a replay order: a cursor, or a shuffled list with the generator's words still to come. */
  datatype Order = Sequential(next: nat) | Shuffling(indices: seq<nat>, offset: nat, words: seq<nat>)

  predicate WellFormed(o: Order, n: nat)
  {
    0 < n < TWO64 && (o.Shuffling? ==> |o.indices| == n && o.offset <= n)
  }

  /** One draw: the entry and the order afterwards. None when the words end in a reshuffle. */
  function NextOf(o: Order, n: nat): (r: Option<(nat, Order)>)
    requires WellFormed(o, n)
    ensures r.Some? ==> WellFormed(r.value.1, n)
  {
    match o
    case Sequential(next) => Some((next % n, Sequential(next + 1)))
    case Shuffling(indices, offset, words) =>
      if offset < n then Some((indices[offset], Shuffling(indices, offset + 1, words)))
      else match Finish(indices, words, n)
        case None => None
        case Some((order, left)) => Some((order[0], Shuffling(order, 1, left)))
  }

  /** The order before the first draw: the first entry, or a first shuffle of the entries. */
  function Begun(shuffle: bool, n: nat, words: seq<nat>): (r: Option<Order>)
    requires 0 < n < TWO64
    ensures r.Some? ==> WellFormed(r.value, n)
  {
    if !shuffle then Some(Sequential(0))
    else match Finish(Identity(n), words, n)
      case None => None
      case Some((order, left)) => Some(Shuffling(order, 0, left))
  }

  /** The first `k` draws, and the order after them. */
  function Draws(o: Order, n: nat, k: nat): (r: Option<(seq<nat>, Order)>)
    requires WellFormed(o, n)
    ensures r.Some? ==> |r.value.0| == k && WellFormed(r.value.1, n)
  {
    if k == 0 then Some(([], o))
    else match Draws(o, n, k - 1)
      case None => None
      case Some((output, o1)) =>
        match NextOf(o1, n)
        case None => None
        case Some((x, o2)) => Some((output + [x], o2))
  }

  /** An order in the middle of a round, after the whole rounds that make up the rest of the output. */
  ghost predicate Follows(o: Order, n: nat, output: seq<nat>, rounds: seq<seq<nat>>)
    requires WellFormed(o, n)
  {
    match o
    case Sequential(next) =>
      |rounds| * n <= next <= |rounds| * n + n && InRounds(output, rounds, Identity(n), next - |rounds| * n, n)
    case Shuffling(indices, offset, _) => InRounds(output, rounds, indices, offset, n)
  }

  lemma RoundCloses(output: seq<nat>, rounds: seq<seq<nat>>, current: seq<nat>, n: nat)
    requires InRounds(output, rounds, current, n, n)
    ensures output == Flat(rounds + [current]) && AllPermutations(rounds + [current], n)
  {
    FlatNext(rounds, current);
    assert current[..n] == current;
  }

  lemma RoundGrows(output: seq<nat>, rounds: seq<seq<nat>>, current: seq<nat>, drawn: nat, n: nat)
    requires InRounds(output, rounds, current, drawn, n) && drawn < n
    ensures InRounds(output + [current[drawn]], rounds, current, drawn + 1, n)
  {
    assert current[..drawn + 1] == current[..drawn] + [current[drawn]];
  }

  lemma CursorKeepsRounds(next: nat, n: nat, output: seq<nat>, rounds: seq<seq<nat>>) returns (rounds': seq<seq<nat>>)
    requires 0 < n < TWO64 && Follows(Sequential(next), n, output, rounds)
    ensures Follows(Sequential(next + 1), n, output + [next % n], rounds')
  {
    rounds' := rounds;
    if next == |rounds| * n + n {
      RoundCloses(output, rounds, Identity(n), n);
      rounds' := rounds + [Identity(n)];
      MulNext(|rounds|, n);
    }
    var drawn := next - |rounds'| * n;
    assert InRounds(output, rounds', Identity(n), drawn, n);
    Quotient(next, n, |rounds'|, drawn);
    RoundGrows(output, rounds', Identity(n), drawn, n);
  }

  lemma ShuffleKeepsRounds(o: Order, n: nat, output: seq<nat>, rounds: seq<seq<nat>>) returns (rounds': seq<seq<nat>>)
    requires WellFormed(o, n) && o.Shuffling? && Follows(o, n, output, rounds) && NextOf(o, n).Some?
    ensures var (x, o') := NextOf(o, n).value; Follows(o', n, output + [x], rounds')
  {
    rounds' := rounds;
    if o.offset < n {
      RoundGrows(output, rounds, o.indices, o.offset, n);
    } else {
      RoundCloses(output, rounds, o.indices, n);
      FinishIsPermutation(o.indices, n, o.words);
      var order := Finish(o.indices, o.words, n).value.0;
      rounds' := rounds + [o.indices];
      assert InRounds(output, rounds', order, 0, n);
      RoundGrows(output, rounds', order, 0, n);
    }
  }

  /** Every order draws in whole rounds, through every reshuffle. */
  lemma {:induction false} DrawsAreRounds(shuffle: bool, n: nat, words: seq<nat>, k: nat) returns (rounds: seq<seq<nat>>)
    requires 0 < n < TWO64 && Begun(shuffle, n, words).Some? && Draws(Begun(shuffle, n, words).value, n, k).Some?
    ensures var (output, o) := Draws(Begun(shuffle, n, words).value, n, k).value; Follows(o, n, output, rounds)
  {
    var start := Begun(shuffle, n, words).value;
    if k == 0 {
      rounds := [];
      if shuffle { FinishIsPermutation(Identity(n), n, words); }
    } else {
      var before := DrawsAreRounds(shuffle, n, words, k - 1);
      var (output, o) := Draws(start, n, k - 1).value;
      if o.Sequential? {
        rounds := CursorKeepsRounds(o.next, n, output, before);
      } else {
        rounds := ShuffleKeepsRounds(o, n, output, before);
      }
    }
  }

  /** After exactly `times` rounds' worth of draws, in either order, each entry has been drawn exactly `times` times. */
  lemma DrawsAreExact(shuffle: bool, n: nat, words: seq<nat>, times: nat, x: nat)
    requires 0 < n < TWO64 && x < n
    requires Begun(shuffle, n, words).Some? && Draws(Begun(shuffle, n, words).value, n, times * n).Some?
    ensures multiset(Draws(Begun(shuffle, n, words).value, n, times * n).value.0)[x] == times
  {
    var rounds := DrawsAreRounds(shuffle, n, words, times * n);
    var (output, o) := Draws(Begun(shuffle, n, words).value, n, times * n).value;
    match o
    case Sequential(next) => RoundsAreExact(output, rounds, Identity(n), next - |rounds| * n, n, times, x);
    case Shuffling(indices, offset, _) => RoundsAreExact(output, rounds, indices, offset, n, times, x);
  }

  /** The words left after some uses are a suffix of the others. */
  predicate Leaves(words: seq<nat>, left: seq<nat>, used: int)
  {
    |left| + used <= |words| && |left| <= |words| && left == words[|words| - |left|..]
  }

  lemma LeavesMore(words: seq<nat>, left: seq<nat>, used: int, less: seq<nat>, more: int)
    requires Leaves(words, left, used) && Leaves(left, less, more)
    ensures Leaves(words, less, used + more)
  {
    assert words[|words| - |left|..][|left| - |less|..] == words[|words| - |less|..];
  }

  /** Every round is the shuffle of the one before it, or of the identity, by choices read from words not used before. */
  lemma RoundIsShuffled(indices: seq<nat>, words: seq<nat>, n: nat)
    requires |indices| == n && 0 < n < TWO64 && ReadChoices(words, n).Some?
    ensures var (c, left) := ReadChoices(words, n).value;
            var order := Shuffled(indices, n, c);
            && NextOf(Shuffling(indices, n, words), n) == Some((order[0], Shuffling(order, 1, left)))
            && (indices == Identity(n) ==> Begun(true, n, words) == Some(Shuffling(order, 0, left)))
            && Leaves(words, left, n - 1)
  {
    ChoicesUseWords(words, n);
  }

  /** How many shuffles the first `k` draws have taken. */
  function Shuffles(k: nat, n: nat): int
    requires 0 < n
  {
    if k == 0 then 1 else (k - 1) / n + 1
  }

  /** No word of the generator is used twice: each shuffle uses up its own, at least one for every choice. */
  lemma {:induction false} WordsAreUsedOnce(n: nat, words: seq<nat>, k: nat)
    requires 0 < n < TWO64 && Begun(true, n, words).Some? && Draws(Begun(true, n, words).value, n, k).Some?
    ensures var o := Draws(Begun(true, n, words).value, n, k).value.1;
            && o.Shuffling? && o.offset == (if k == 0 then 0 else (k - 1) % n + 1)
            && Leaves(words, o.words, Shuffles(k, n) * (n - 1))
  {
    var start := Begun(true, n, words).value;
    if k == 0 {
      RoundIsShuffled(Identity(n), words, n);
    } else {
      WordsAreUsedOnce(n, words, k - 1);
      var before := Draws(start, n, k - 1).value.1;
      DrawUses(before, words, n, k);
    }
  }

  lemma DrawUses(o: Order, words: seq<nat>, n: nat, k: nat)
    requires WellFormed(o, n) && o.Shuffling? && 0 < k && o.offset == (if k == 1 then 0 else (k - 2) % n + 1)
    requires Leaves(words, o.words, Shuffles(k - 1, n) * (n - 1)) && NextOf(o, n).Some?
    ensures var o' := NextOf(o, n).value.1;
            o'.Shuffling? && o'.offset == (k - 1) % n + 1 && Leaves(words, o'.words, Shuffles(k, n) * (n - 1))
  {
    if k == 1 {
      Quotient(0, n, 0, 0);
    } else {
      var q, r := Divide(k - 2, n);
      Quotient(k - 2, n, q, r);
      if r == n - 1 {
        MulNext(q, n);
        Quotient(k - 1, n, q + 1, 0);
        ReshuffleUses(o, words, n, q + 1);
      } else {
        Quotient(k - 1, n, q, r + 1);
      }
    }
  }

  lemma ReshuffleUses(o: Order, words: seq<nat>, n: nat, shuffles: nat)
    requires WellFormed(o, n) && o.Shuffling? && o.offset == n && NextOf(o, n).Some?
    requires Leaves(words, o.words, shuffles * (n - 1))
    ensures var o' := NextOf(o, n).value.1;
            o'.Shuffling? && o'.offset == 1 && Leaves(words, o'.words, (shuffles + 1) * (n - 1))
  {
    RoundIsShuffled(o.indices, o.words, n);
    LeavesMore(words, o.words, shuffles * (n - 1), NextOf(o, n).value.1.words, n - 1);
    MulNext(shuffles, n - 1);
  }

  /** The shared cursor of sequential replay: positions taken one at a time, wrapped to the entries. */
  class SequentialCursor {
    const n: nat
    var next: nat
    /** Everything drawn so far. */
    ghost var output: seq<nat>

    ghost predicate Valid()
      reads this
    {
      0 < n < TWO64 && Draws(Sequential(0), n, |output|) == Some((output, Sequential(next)))
    }

    constructor (n: nat)
      requires 0 < n < TWO64
      ensures Valid() && output == [] && this.n == n
    {
      this.n := n;
      next, output := 0, [];
    }

    method Next() returns (index: nat)
      requires Valid()
      modifies this
      ensures Valid() && output == old(output) + [index] && index == old(next) % n
    {
      index := next % n;
      next := next + 1;
      output := output + [index];
    }
  }

  /** The shuffled order: a list of indices reshuffled at the end of each round, with the generator as an input stream. */
  class ShuffleState {
    const n: nat
    var indices: seq<nat>
    var offset: nat
    var words: seq<nat>
    /** The generator's words from the start, and everything drawn so far. */
    ghost const seed: seq<nat>
    ghost var output: seq<nat>

    /** The order and the output are the ones that the seed gives. */
    ghost predicate Valid()
      reads this
    {
      && 0 < n < TWO64 && Begun(true, n, seed).Some?
      && Draws(Begun(true, n, seed).value, n, |output|) == Some((output, Shuffling(indices, offset, words)))
    }

    constructor (n: nat, words: seq<nat>)
      requires 0 < n < TWO64
      ensures this.n == n && this.words == words && seed == words && indices == Identity(n) && output == []
    {
      this.n, this.words, this.seed := n, words, words;
      indices, offset, output := Identity(n), 0, [];
    }

    /** Rejection sampling. None when the stream ends before a word is accepted. */
    method Bounded(bound: nat) returns (r: Option<nat>)
      requires 0 < bound < TWO64
      modifies this`words
      ensures match FirstAccepted(old(words), bound)
              case Some(k) => r == Some(old(words)[k] % bound) && words == old(words)[k + 1..]
              case None => r == None
    {
      ghost var k := 0;
      while words != []
        invariant k <= |old(words)| && words == old(words)[k..]
        invariant match FirstAccepted(words, bound)
                  case Some(j) => FirstAccepted(old(words), bound) == Some(k + j)
                  case None => FirstAccepted(old(words), bound) == None
        decreases |words|
      {
        var word := words[0];
        words := words[1..];
        k := k + 1;
        if Threshold(bound) <= word { return Some(word % bound); }
      }
      return None;
    }

    /** One swap of the shuffle: the last of the first `m` positions with one of them. */
    method SwapLast(m: nat) returns (ok: bool)
      requires 1 < m <= |indices| < TWO64
      modifies this`indices, this`words
      ensures |indices| == old(|indices|)
      ensures Finish(old(indices), old(words), m) == if ok then Finish(indices, words, m - 1) else None
    {
      FinishStep(indices, words, m);
      var selected := Bounded(m);
      if selected.None? { return false; }
      indices := Swap(indices, m - 1, selected.value);
      return true;
    }

    /** In-place Fisher-Yates from the last position down. */
    method Reshuffle() returns (ok: bool)
      requires |indices| == n < TWO64
      modifies this`indices, this`offset, this`words
      ensures match Finish(old(indices), old(words), n)
              case Some((order, left)) => ok && offset == 0 && indices == order && words == left
              case None => !ok
    {
      ghost var target := Finish(indices, words, n);
      var index: nat := n;
      while 1 < index
        invariant index <= n == |indices|
        invariant Finish(indices, words, index) == target
        decreases index
      {
        var swapped := SwapLast(index);
        if !swapped { return false; }
        index := index - 1;
      }
      FinishEnd(indices, words, index);
      offset := 0;
      return true;
    }

    /** A new sequence is shuffled once before its first round. */
    method Begin() returns (ok: bool)
      requires 0 < n < TWO64 && indices == Identity(n) && words == seed && output == []
      modifies this`indices, this`offset, this`words
      ensures match Finish(Identity(n), seed, n)
              case Some((order, left)) => ok && Valid() && indices == order && offset == 0 && words == left
              case None => !ok
    {
      ok := Reshuffle();
    }

    /** The next entry of the seed's order. None only when the generator's words end. */
    method Next() returns (r: Option<nat>)
      requires Valid()
      modifies this
      ensures match NextOf(Shuffling(old(indices), old(offset), old(words)), n)
              case Some((x, o)) =>
                r == Some(x) && Valid() && output == old(output) + [x] && Shuffling(indices, offset, words) == o
              case None => r == None
    {
      if offset == n {
        var ok := Reshuffle();
        if !ok { return None; }
      }
      var index := indices[offset];
      offset := offset + 1;
      output := output + [index];
      return Some(index);
    }
  }

  /** Equal seeds give equal sequences. */
  lemma EqualSeedsEqualOrders(a: ShuffleState, b: ShuffleState)
    requires a.Valid() && b.Valid() && a.n == b.n && a.seed == b.seed && |a.output| == |b.output|
    ensures a.output == b.output && a.indices == b.indices && a.offset == b.offset && a.words == b.words
  {
  }

  // ----- the packed method and URI range -----

  /** Three bits of method index above twenty-nine bits of URI start. */
  function Pack(methodIndex: bv32, uriStart: bv32): bv32
  {
    (methodIndex << 29) | uriStart
  }

  /** Packing loses nothing: the method and the start of the URI are read back. */
  lemma PackRoundTrip(methodIndex: bv32, uriStart: bv32)
    requires methodIndex < 7 && uriStart < 0x2000_0000
    ensures Pack(methodIndex, uriStart) >> 29 == methodIndex
    ensures Pack(methodIndex, uriStart) & 0x1fff_ffff == uriStart
  {
  }
}
