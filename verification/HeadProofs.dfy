/** What a response head means, on its bytes (src/protocol/response.rs; sections 4 and 5 of RFC 9112). */
module HeadProofs {
  import opened Prelude
  import opened ResponseHead

  // ----- text as bytes -----

  predicate Ascii(s: string)
  {
    forall i :: 0 <= i < |s| ==> s[i] < 128 as char
  }

  function Bytes(s: string): (b: seq<byte>)
    requires Ascii(s)
    ensures |b| == |s|
  {
    seq(|s|, i requires 0 <= i < |s| => (s[i] as int) as byte)
  }

  lemma {:induction false} AsciiIsRead(s: string)
    requires Ascii(s)
    ensures DecodeUtf8(Bytes(s)) == Some(s)
  {
    if s != [] {
      AsciiIsRead(s[1..]);
      assert Bytes(s)[1..] == Bytes(s[1..]);
      assert s == [s[0]] + s[1..];
    }
  }

  // ----- characters -----

  /** Equal, or the same letter in the other case. */
  predicate SameLetter(a: char, b: char)
  {
    || a == b
    || ('A' <= a <= 'Z' && b as int - 'a' as int == a as int - 'A' as int)
    || ('A' <= b <= 'Z' && a as int - 'a' as int == b as int - 'A' as int)
  }

  predicate SameText(a: string, b: string)
  {
    |a| == |b| && forall i :: 0 <= i < |a| ==> SameLetter(a[i], b[i])
  }

  lemma CaseIsIgnored(a: string, b: string)
    ensures EqualIgnoreCase(a, b) <==> SameText(a, b)
  {
    if |a| == |b| {
      forall i | 0 <= i < |a| ensures LowerChar(a[i]) == LowerChar(b[i]) <==> SameLetter(a[i], b[i]) {
        SameLowerCase(a[i], b[i]);
      }
    }
  }

  lemma SameLowerCase(a: char, b: char)
    ensures LowerChar(a) == LowerChar(b) <==> SameLetter(a, b)
  {
  }

  predicate White(s: string)
  {
    forall i :: 0 <= i < |s| ==> IsWhitespace(s[i])
  }

  predicate Solid(s: string)
  {
    s != [] && !IsWhitespace(s[0]) && !IsWhitespace(s[|s| - 1])
  }

  /** Blanks in a head are spaces and tabs, and no visible character is one. */
  lemma Blanks(c: char)
    ensures c == ' ' || c == '\t' ==> IsWhitespace(c)
    ensures '!' <= c <= '~' ==> !IsWhitespace(c)
  {
  }

  // ----- trimming and splitting -----

  lemma {:induction false} TrimStartIs(left: string, rest: string)
    requires White(left) && (rest == [] || !IsWhitespace(rest[0]))
    ensures TrimStart(left + rest) == rest
  {
    if left == [] {
      assert left + rest == rest;
    } else {
      assert (left + rest)[1..] == left[1..] + rest;
      TrimStartIs(left[1..], rest);
    }
  }

  lemma {:induction false} TrimEndIs(rest: string, right: string)
    requires White(right) && (rest == [] || !IsWhitespace(rest[|rest| - 1]))
    ensures TrimEnd(rest + right) == rest
  {
    if right == [] {
      assert rest + right == rest;
    } else {
      var k := |right| - 1;
      assert (rest + right)[..|rest| + k] == rest + right[..k];
      TrimEndIs(rest, right[..k]);
    }
  }

  lemma TrimIs(left: string, item: string, right: string)
    requires White(left) && White(right) && Solid(item)
    ensures Trim(left + item + right) == item
  {
    assert left + item + right == left + (item + right);
    TrimStartIs(left, item + right);
    TrimEndIs(item, right);
  }

  lemma {:induction false} TrimStartShape(s: string) returns (i: nat)
    ensures i <= |s| && TrimStart(s) == s[i..] && White(s[..i])
  {
    if s != [] && IsWhitespace(s[0]) {
      var k := TrimStartShape(s[1..]);
      i := k + 1;
      assert s[1..][k..] == s[i..] && s[..i] == [s[0]] + s[1..][..k];
    } else {
      i := 0;
    }
  }

  lemma {:induction false} TrimEndShape(s: string) returns (j: nat)
    ensures j <= |s| && TrimEnd(s) == s[..j] && White(s[j..])
  {
    if s != [] && IsWhitespace(s[|s| - 1]) {
      var k := |s| - 1;
      j := TrimEndShape(s[..k]);
      assert s[..k][..j] == s[..j] && s[j..] == s[..k][j..] + [s[k]];
    } else {
      j := |s|;
    }
  }

  lemma TrimShape(s: string) returns (i: nat, j: nat)
    ensures i <= j <= |s| && Trim(s) == s[i..j] && White(s[..i]) && White(s[j..])
  {
    i := TrimStartShape(s);
    var k := TrimEndShape(s[i..]);
    j := i + k;
    assert s[i..][..k] == s[i..j] && s[i..][k..] == s[j..];
  }

  /** A part of a list: between commas, or an end of the text. */
  predicate PartAt(s: string, c: char, from: nat, to: nat)
  {
    && from <= to <= |s| && c !in s[from..to]
    && (from == 0 || s[from - 1] == c) && (to == |s| || s[to] == c)
  }

  lemma PartOfPart(s: string, from: nat, to: nat, i: nat, j: nat)
    requires from <= to <= |s| && i <= j <= to - from
    ensures s[from..to][i..j] == s[from + i..from + j]
  {
    var a, b := s[from..to][i..j], s[from + i..from + j];
    forall k | 0 <= k < |a| ensures a[k] == b[k] { assert a[k] == s[from..to][i + k]; }
  }

  /** The parts of a text that some character separates. */
  predicate Pieces(s: string, c: char, parts: seq<string>)
    decreases |parts|
  {
    && parts != [] && parts[0] <= s && c !in parts[0]
    && var n := |parts[0]|;
       if |parts| == 1 then n == |s| else n < |s| && s[n] == c && Pieces(s[n + 1..], c, parts[1..])
  }

  lemma {:induction false} SplitIsPieces(s: string, c: char)
    ensures Pieces(s, c, Split(s, c))
    decreases |s|
  {
    var i := IndexOf(s, c);
    if i < |s| {
      SplitIsPieces(s[i + 1..], c);
      assert Split(s, c)[1..] == Split(s[i + 1..], c);
    }
  }

  lemma PartMoves(s: string, c: char, n: nat, a: nat, b: nat)
    requires n < |s| && s[n] == c && PartAt(s[n + 1..], c, a, b)
    ensures PartAt(s, c, n + 1 + a, n + 1 + b) && s[n + 1..][a..b] == s[n + 1 + a..n + 1 + b]
  {
    assert s[n + 1..] == s[n + 1..|s|];
    PartOfPart(s, n + 1, |s|, a, b);
  }

  lemma {:induction false} PieceIsPart(s: string, c: char, parts: seq<string>, k: nat) returns (from: nat, to: nat)
    requires Pieces(s, c, parts) && k < |parts|
    ensures PartAt(s, c, from, to) && parts[k] == s[from..to]
    decreases |parts|
  {
    var n := |parts[0]|;
    if k == 0 {
      from, to := 0, n;
      assert s[0..n] == parts[0];
    } else {
      var a, b := PieceIsPart(s[n + 1..], c, parts[1..], k - 1);
      PartMoves(s, c, n, a, b);
      from, to := n + 1 + a, n + 1 + b;
    }
  }

  lemma PartBack(s: string, c: char, n: nat, from: nat, to: nat)
    requires n < from && PartAt(s, c, from, to)
    ensures PartAt(s[n + 1..], c, from - n - 1, to - n - 1) && s[n + 1..][from - n - 1..to - n - 1] == s[from..to]
  {
    assert s[n + 1..] == s[n + 1..|s|];
    PartOfPart(s, n + 1, |s|, from - n - 1, to - n - 1);
    if n + 1 < from { assert s[n + 1..][from - n - 2] == s[from - 1]; }
  }

  lemma {:induction false} PartIsPiece(s: string, c: char, parts: seq<string>, from: nat, to: nat) returns (k: nat)
    requires Pieces(s, c, parts) && PartAt(s, c, from, to)
    ensures k < |parts| && parts[k] == s[from..to]
    decreases |parts|
  {
    var n := |parts[0]|;
    if from == 0 {
      k := 0;
      SamePart(s, c, parts[0], to);
    } else {
      BeforeSeparator(s, c, parts[0], from - 1);
      PartBack(s, c, n, from, to);
      k := PartIsPiece(s[n + 1..], c, parts[1..], from - n - 1, to - n - 1);
      k := k + 1;
    }
  }

  /** Two beginnings without the separator, each up to one or the end, are the same. */
  lemma SamePart(s: string, c: char, first: string, to: nat)
    requires first <= s && c !in first && (|first| == |s| || s[|first|] == c)
    requires PartAt(s, c, 0, to)
    ensures first == s[0..to]
  {
    assert s[0..to] == s[..to];
    FirstIndex(s, c, to);
    FirstIndex(s, c, |first|);
  }

  lemma BeforeSeparator(s: string, c: char, first: string, k: nat)
    requires first <= s && c !in first && (|first| == |s| || s[|first|] == c) && k < |s| && s[k] == c
    ensures |first| <= k && |first| < |s|
  {
    FirstIndex(s, c, |first|);
    FirstIsBefore(s, c, k);
  }

  lemma FirstIndex(s: string, c: char, to: nat)
    requires to <= |s| && c !in s[..to] && (to == |s| || s[to] == c)
    ensures IndexOf(s, c) == to
  {
  }

  lemma FirstIsBefore(s: string, c: char, k: nat)
    requires k < |s| && s[k] == c
    ensures IndexOf(s, c) <= k
  {
  }

  // ----- field lines -----

  /** A field line of that name in any case: the name, a colon at `k`, and the value. */
  predicate FieldAt(line: string, name: string, k: nat)
  {
    k < |line| && line[k] == ':' && ':' !in line[..k] && SameText(line[..k], name)
  }

  lemma FieldsAreHeaders(line: string, name: string, k: nat)
    requires FieldAt(line, name, k)
    ensures IsHeader(line, name) && IndexOf(line, ':') == k
  {
    FirstIndex(line, ':', k);
    CaseIsIgnored(line[..k], name);
  }

  lemma HeadersAreFields(line: string, name: string)
    requires IsHeader(line, name)
    ensures FieldAt(line, name, IndexOf(line, ':'))
  {
    CaseIsIgnored(line[..IndexOf(line, ':')], name);
  }

  /** The token in any case, with blanks around it, as one part of a comma-separated list. */
  predicate ListedAt(value: string, token: string, from: nat, i: nat, j: nat, to: nat)
  {
    && from <= i <= j <= to <= |value|
    && (from == 0 || value[from - 1] == ',') && (to == |value| || value[to] == ',')
    && White(value[from..i]) && White(value[j..to]) && SameText(value[i..j], token)
  }

  ghost predicate Lists(value: string, token: string)
  {
    exists from: nat, i: nat, j: nat, to: nat :: ListedAt(value, token, from, i, j, to)
  }

  /** A word without commas or blanks. */
  predicate Token(s: string)
  {
    s != [] && forall i :: 0 <= i < |s| ==> '!' <= s[i] <= '~' && s[i] != ','
  }

  lemma SameToken(item: string, token: string)
    requires Token(token) && SameText(item, token)
    ensures Solid(item) && ',' !in item
  {
    forall i | 0 <= i < |item| ensures !IsWhitespace(item[i]) && item[i] != ',' { assert SameLetter(item[i], token[i]); }
  }

  lemma ListedIsFound(value: string, token: string, from: nat, i: nat, j: nat, to: nat)
    requires Token(token) && ListedAt(value, token, from, i, j, to)
    ensures ValueHasToken(value, token)
  {
    var left, item, right := value[from..i], value[i..j], value[j..to];
    SameToken(item, token);
    assert value[from..to] == left + item + right;
    assert ',' !in left && ',' !in right;
    SplitIsPieces(value, ',');
    var k := PartIsPiece(value, ',', Split(value, ','), from, to);
    TrimIs(left, item, right);
    CaseIsIgnored(item, token);
    assert EqualIgnoreCase(Trim(Split(value, ',')[k]), token);
  }

  lemma FoundIsListed(value: string, token: string, k: nat)
    requires k < |Split(value, ',')| && EqualIgnoreCase(Trim(Split(value, ',')[k]), token)
    ensures Lists(value, token)
  {
    SplitIsPieces(value, ',');
    var from, to := PieceIsPart(value, ',', Split(value, ','), k);
    var i, j := TrimShape(value[from..to]);
    CaseIsIgnored(value[from..to][i..j], token);
    ListedPart(value, token, from, to, i, j);
  }

  lemma ListedPart(value: string, token: string, from: nat, to: nat, i: nat, j: nat)
    requires PartAt(value, ',', from, to) && i <= j <= to - from
    requires var part := value[from..to]; White(part[..i]) && White(part[j..]) && SameText(part[i..j], token)
    ensures Lists(value, token)
  {
    var part := value[from..to];
    PartOfPart(value, from, to, i, j);
    PartOfPart(value, from, to, 0, i);
    PartOfPart(value, from, to, j, to - from);
    assert part[..i] == part[0..i] && part[j..] == part[j..to - from];
    assert ListedAt(value, token, from, from + i, from + j, to);
  }

  /** A field line of that name that lists the token. */
  ghost predicate FieldLists(line: string, name: string, token: string)
  {
    exists k: nat :: FieldAt(line, name, k) && Lists(line[k + 1..], token)
  }

  lemma TokensAreFound(line: string, name: string, token: string)
    requires Token(token)
    ensures LineHasToken(line, name, token) <==> FieldLists(line, name, token)
  {
    NamedAreHeaders(line, name);
    if IsHeader(line, name) {
      HeadersAreFields(line, name);
      var at := IndexOf(line, ':');
      ValueLists(line[at + 1..], token);
      if k: nat :| FieldAt(line, name, k) && Lists(line[k + 1..], token) {
        FieldsAreHeaders(line, name, k);
      }
    } else {
      assert forall k: nat :: !FieldAt(line, name, k);
    }
  }

  lemma ValueLists(value: string, token: string)
    requires Token(token)
    ensures ValueHasToken(value, token) <==> Lists(value, token)
  {
    if from: nat, i: nat, j: nat, to: nat :| ListedAt(value, token, from, i, j, to) {
      ListedIsFound(value, token, from, i, j, to);
    }
    if k :| 0 <= k < |Split(value, ',')| && EqualIgnoreCase(Trim(Split(value, ',')[k]), token) {
      FoundIsListed(value, token, k);
    }
  }

  // ----- numbers -----

  function Digit(d: nat): char
    requires d < 10
  {
    ('0' as int + d) as char
  }

  /** The digits of a number, without leading zeros. */
  function Decimal(n: nat): (s: string)
    ensures s != []
  {
    if n < 10 then [Digit(n)] else Decimal(n / 10) + [Digit(n % 10)]
  }

  function Zeros(z: nat): string
  {
    seq(z, _ => '0')
  }

  predicate Digits(s: string)
  {
    s != [] && forall i :: 0 <= i < |s| ==> '0' <= s[i] <= '9'
  }

  /** The number in digits, perhaps after zeros or a plus sign. */
  ghost predicate Numeral(s: string, n: nat)
  {
    exists z: nat :: s == Zeros(z) + Decimal(n) || s == "+" + (Zeros(z) + Decimal(n))
  }

  lemma {:induction false} DecimalIsDigits(n: nat)
    ensures Digits(Decimal(n)) && DigitsValue(Decimal(n), 10) == Some(n)
  {
    if n < 10 {
      assert Decimal(n)[..0] == [];
    } else {
      DecimalIsDigits(n / 10);
      assert Decimal(n)[..|Decimal(n)| - 1] == Decimal(n / 10);
    }
  }

  lemma {:induction false} ZerosChangeNothing(z: nat, s: string)
    requires s != []
    ensures DigitsValue(Zeros(z) + s, 10) == DigitsValue(s, 10)
    decreases |s| + z
  {
    var k := |s| - 1;
    assert (Zeros(z) + s)[..z + k] == Zeros(z) + s[..k];
    if 0 < k {
      ZerosChangeNothing(z, s[..k]);
    } else if 0 < z {
      assert Zeros(z) + s[..k] == Zeros(z - 1) + "0";
      ZerosChangeNothing(z - 1, "0");
      assert "0"[..0] == [];
    } else {
      assert Zeros(0) + s == s;
    }
  }

  lemma DecimalNext(m: nat, d: nat)
    requires 0 < m && d < 10
    ensures Decimal(m * 10 + d) == Decimal(m) + [Digit(d)]
  {
    assert (m * 10 + d) / 10 == m && (m * 10 + d) % 10 == d;
  }

  lemma LastDigit(front: string, y: nat, m: nat, d: nat) returns (z: nat)
    requires front == Zeros(y) + Decimal(m) && d < 10
    ensures front + [Digit(d)] == Zeros(z) + Decimal(m * 10 + d)
  {
    if m == 0 {
      z := y + 1;
      assert Zeros(y) + ['0'] == Zeros(y + 1);
    } else {
      z := y;
      DecimalNext(m, d);
      assert Zeros(y) + Decimal(m) + [Digit(d)] == Zeros(y) + (Decimal(m) + [Digit(d)]);
    }
  }

  /** Digits are a number after zeros. */
  lemma {:induction false} DigitsAreDecimal(s: string) returns (n: nat, z: nat)
    requires Digits(s)
    ensures DigitsValue(s, 10) == Some(n) && s == Zeros(z) + Decimal(n)
  {
    var k := |s| - 1;
    var d := s[k] as int - '0' as int;
    assert s == s[..k] + [Digit(d)];
    if k == 0 {
      n, z := d, 0;
      OneDigit(s, d);
    } else {
      var m, y := DigitsAreDecimal(s[..k]);
      n := m * 10 + d;
      z := LastDigit(s[..k], y, m, d);
    }
  }

  lemma OneDigit(s: string, d: nat)
    requires d < 10 && s == [Digit(d)]
    ensures DigitsValue(s, 10) == Some(d) && s == Zeros(0) + Decimal(d)
  {
    assert s[..0] == [];
  }

  lemma {:induction false} OnlyDigits(s: string)
    requires s != [] && DigitsValue(s, 10).Some?
    ensures Digits(s)
  {
    var k := |s| - 1;
    if 0 < k { OnlyDigits(s[..k]); }
    forall i | 0 <= i < |s| ensures '0' <= s[i] <= '9' {
      if i < k { assert s[i] == s[..k][i]; } else { assert DigitValue(s[k], 10).Some?; }
    }
  }

  lemma NumeralIsRead(digits: string, z: nat, n: nat)
    requires digits == Zeros(z) + Decimal(n)
    ensures Digits(digits) && DigitsValue(digits, 10) == Some(n)
  {
    DecimalIsDigits(n);
    ZerosChangeNothing(z, Decimal(n));
  }

  /** Exactly the numerals up to the limit are read, as the numbers they stand for. */
  lemma NumbersAreRead(s: string, limit: nat, n: nat)
    ensures ParseUnsigned(s, 10, limit) == Some(n) <==> Numeral(s, n) && n <= limit
  {
    if z: nat :| s == Zeros(z) + Decimal(n) || s == "+" + (Zeros(z) + Decimal(n)) {
      NumeralIsRead(Zeros(z) + Decimal(n), z, n);
      if s != Zeros(z) + Decimal(n) { assert s[1..] == Zeros(z) + Decimal(n); }
    }
    if ParseUnsigned(s, 10, limit) == Some(n) {
      var digits := if 1 < |s| && s[0] == '+' then s[1..] else s;
      OnlyDigits(digits);
      var m, z := DigitsAreDecimal(digits);
      if digits != s { assert s == "+" + digits; }
    }
  }

  lemma NumeralIsSolid(s: string, n: nat)
    requires Numeral(s, n)
    ensures Solid(s) && Word(s)
  {
    var z: nat :| s == Zeros(z) + Decimal(n) || s == "+" + (Zeros(z) + Decimal(n));
    NumeralIsRead(Zeros(z) + Decimal(n), z, n);
    DigitsAreSolid(Zeros(z) + Decimal(n));
  }

  lemma DigitsAreSolid(s: string)
    requires Digits(s)
    ensures Solid(s) && Word(s) && Solid("+" + s) && Word("+" + s)
  {
  }

  // ----- the announced length -----

  ghost predicate Named(line: string, name: string)
  {
    exists k: nat :: FieldAt(line, name, k)
  }

  lemma NamedAreHeaders(line: string, name: string)
    ensures IsHeader(line, name) <==> Named(line, name)
  {
    if k: nat :| FieldAt(line, name, k) { FieldsAreHeaders(line, name, k); }
    if IsHeader(line, name) { HeadersAreFields(line, name); }
  }

  predicate LengthAt(line: string, k: nat, i: nat, j: nat)
  {
    FieldAt(line, "content-length", k) && k < i <= j <= |line| && White(line[k + 1..i]) && White(line[j..])
  }

  /** A content-length line with a number, and blanks around it. */
  ghost predicate Announces(line: string, n: nat)
  {
    exists k: nat, i: nat, j: nat :: LengthAt(line, k, i, j) && Numeral(line[i..j], n)
  }

  /** The first line of that name. */
  ghost predicate FirstNamed(lines: seq<string>, name: string, x: nat)
  {
    x < |lines| && Named(lines[x], name) && forall y :: 0 <= y < x ==> !Named(lines[y], name)
  }

  lemma AnnouncedIsRead(line: string, n: nat)
    requires IsHeader(line, "content-length")
    ensures ParseUnsigned(Trim(line[IndexOf(line, ':') + 1..]), 10, USIZE_MAX) == Some(n) <==> Announces(line, n) && n <= USIZE_MAX
  {
    var value := line[IndexOf(line, ':') + 1..];
    NumbersAreRead(Trim(value), USIZE_MAX, n);
    if k: nat, i: nat, j: nat :| LengthAt(line, k, i, j) && Numeral(line[i..j], n) { LengthIsTrimmed(line, k, i, j, n); }
    if Numeral(Trim(value), n) { TrimmedIsLength(line, n); }
  }

  lemma LengthIsTrimmed(line: string, k: nat, i: nat, j: nat, n: nat)
    requires LengthAt(line, k, i, j) && Numeral(line[i..j], n)
    ensures Trim(line[IndexOf(line, ':') + 1..]) == line[i..j]
  {
    FieldsAreHeaders(line, "content-length", k);
    NumeralIsSolid(line[i..j], n);
    TrimIs(line[k + 1..i], line[i..j], line[j..]);
    assert line[k + 1..] == line[k + 1..i] + line[i..j] + line[j..];
  }

  lemma TrimmedIsLength(line: string, n: nat)
    requires IsHeader(line, "content-length") && Numeral(Trim(line[IndexOf(line, ':') + 1..]), n)
    ensures Announces(line, n)
  {
    var at := IndexOf(line, ':');
    var value := line[at + 1..];
    HeadersAreFields(line, "content-length");
    var i, j := TrimShape(value);
    assert value[i..j] == line[at + 1 + i..at + 1 + j];
    assert value[..i] == line[at + 1..at + 1 + i];
    assert value[j..] == line[at + 1 + j..];
    assert LengthAt(line, at, at + 1 + i, at + 1 + j);
  }

  /** The value that `header_value` finds is that of the first line of the name. */
  lemma {:induction false} FirstValue(lines: seq<string>, name: string) returns (x: nat)
    ensures HeaderValue(lines, name).Some? ==>
              FirstNamed(lines, name, x) && HeaderValue(lines, name) == Some(Trim(lines[x][IndexOf(lines[x], ':') + 1..]))
    ensures HeaderValue(lines, name).None? ==> forall y :: 0 <= y < |lines| ==> !Named(lines[y], name)
  {
    x := 0;
    if lines != [] {
      NamedAreHeaders(lines[0], name);
      if !IsHeader(lines[0], name) {
        x := FirstValue(lines[1..], name);
        x := x + 1;
        assert forall y :: 1 <= y < |lines| ==> lines[y] == lines[1..][y - 1];
      }
    }
  }

  ghost predicate AnyLists(lines: seq<string>, name: string, token: string)
  {
    exists x :: 0 <= x < |lines| && FieldLists(lines[x], name, token)
  }

  lemma AnyTokenIsFound(lines: seq<string>, name: string, token: string)
    requires Token(token)
    ensures HeadersHaveToken(lines, name, token) <==> AnyLists(lines, name, token)
  {
    forall x | 0 <= x < |lines| ensures LineHasToken(lines[x], name, token) <==> FieldLists(lines[x], name, token) {
      TokensAreFound(lines[x], name, token);
    }
  }

  /** A length of n: no line lists the chunked coding, and the first content-length line announces n. */
  ghost predicate LengthIs(lines: seq<string>, n: nat)
  {
    && !AnyLists(lines, "transfer-encoding", "chunked") && n <= USIZE_MAX
    && exists x: nat :: FirstNamed(lines, "content-length", x) && Announces(lines[x], n)
  }

  lemma FramingIs(lines: seq<string>, n: nat)
    ensures ChooseFraming(lines) == Chunked <==> AnyLists(lines, "transfer-encoding", "chunked")
    ensures ChooseFraming(lines) == ContentLength(n) <==> LengthIs(lines, n)
  {
    AnyTokenIsFound(lines, "transfer-encoding", "chunked");
    var x := FirstValue(lines, "content-length");
    if HeaderValue(lines, "content-length").Some? {
      NamedAreHeaders(lines[x], "content-length");
      AnnouncedIsRead(lines[x], n);
      forall y: nat | FirstNamed(lines, "content-length", y) ensures y == x {}
    }
  }

  // ----- the whole head -----

  /** Visible characters. */
  predicate Word(s: string)
  {
    s != [] && forall i :: 0 <= i < |s| ==> '!' <= s[i] <= '~'
  }

  /** A line of a head. */
  predicate Line(s: string)
  {
    Ascii(s) && '\r' !in s
  }

  /** A status line: the version, the code, and perhaps more after a blank. */
  function StatusLine(version: string, code: string, more: string): string
  {
    version + " " + code + more
  }

  function HeadText(first: string, fields: seq<string>): string
    decreases |fields|
  {
    if fields == [] then first else first + "\r\n" + HeadText(fields[0], fields[1..])
  }

  lemma {:induction false} OneLine(s: string, i: nat)
    requires i <= |s| && '\r' !in s
    ensures SplitLinesFrom(s, i) == [s]
    decreases |s| - i
  {
    if i + 2 <= |s| {
      assert s[i] in s;
      OneLine(s, i + 1);
    }
  }

  lemma {:induction false} FirstLine(s: string, rest: string, i: nat)
    requires i <= |s| && '\r' !in s
    ensures SplitLinesFrom(s + "\r\n" + rest, i) == [s] + SplitLinesFrom(rest, 0)
    decreases |s| - i
  {
    var all := s + "\r\n" + rest;
    if i == |s| {
      assert all[..i] == s && all[i + 2..] == rest;
    } else {
      assert all[i] == s[i] && s[i] in s;
      FirstLine(s, rest, i + 1);
    }
  }

  lemma {:induction false} LinesAreSplit(first: string, fields: seq<string>)
    requires Line(first) && forall x :: 0 <= x < |fields| ==> Line(fields[x])
    ensures SplitLines(HeadText(first, fields)) == [first] + fields && Ascii(HeadText(first, fields))
    decreases |fields|
  {
    if fields == [] {
      OneLine(first, 0);
    } else {
      LinesAreSplit(fields[0], fields[1..]);
      FirstLine(first, HeadText(fields[0], fields[1..]), 0);
    }
  }

  lemma {:induction false} SkipWord(word: string, rest: string)
    requires Word(word) && (rest == [] || IsWhitespace(rest[0]))
    ensures SkipField(word + rest) == rest && TrimStart(word + rest) == word + rest
  {
    var s := word + rest;
    assert s[0] == word[0] && s[1..] == word[1..] + rest;
    if |word| == 1 {
      assert s[1..] == rest;
    } else {
      SkipWord(word[1..], rest);
    }
  }

  lemma SecondWord(version: string, code: string, more: string)
    requires Word(version) && Word(code) && (more == [] || more[0] == ' ')
    ensures SecondField(StatusLine(version, code, more)) == Some(code)
  {
    var rest := " " + (code + more);
    assert StatusLine(version, code, more) == version + rest && rest[1..] == code + more;
    SkipWord(version, rest);
    SkipWord(code, more);
    assert (code + more)[..|code|] == code;
  }

  /** What the head says, in terms of its lines. */
  ghost predicate Says(h: Head, first: string, fields: seq<string>)
  {
    && (h.connectionClose <==>
          || AnyLists(fields, "connection", "close")
          || ("HTTP/1.0" <= first && !AnyLists(fields, "connection", "keep-alive")))
    && (h.framing == Chunked <==> AnyLists(fields, "transfer-encoding", "chunked"))
    && (forall n: nat :: h.framing == ContentLength(n) <==> LengthIs(fields, n))
  }

  /**
   * A head of a status line and some field lines is read if and only if the code is a number of at most 65535, and then
   * with that code, with closing as the connection fields and the version say, and with the framing that the
   * transfer-encoding and content-length fields announce: in any case of the letters, and with blanks around the values.
   */
  lemma HeadIsRead(version: string, code: string, more: string, fields: seq<string>)
    requires Word(version) && Word(code) && Line(more) && (more == [] || more[0] == ' ')
    requires forall x :: 0 <= x < |fields| ==> Line(fields[x])
    ensures var first := StatusLine(version, code, more);
            && Ascii(HeadText(first, fields))
            && match ParseResponseHead(Bytes(HeadText(first, fields)))
               case HeadOk(h) => Numeral(code, h.status) && h.status <= 0xFFFF && Says(h, first, fields)
               case BadStatusLine => forall n: nat :: n <= 0xFFFF ==> !Numeral(code, n)
               case NotText => false
  {
    TextIsRead(StatusLine(version, code, more), fields) by { LineOf(version, code, more); }
    SecondWord(version, code, more);
    LinesSay(StatusLine(version, code, more), code, fields);
  }

  lemma TextIsRead(first: string, fields: seq<string>)
    requires Line(first) && forall x :: 0 <= x < |fields| ==> Line(fields[x])
    ensures Ascii(HeadText(first, fields))
    ensures ParseResponseHead(Bytes(HeadText(first, fields))) == ReadLines(first, fields)
  {
    LinesAreSplit(first, fields);
    AsciiIsRead(HeadText(first, fields));
    assert ([first] + fields)[1..] == fields;
  }

  lemma LinesSay(first: string, code: string, fields: seq<string>)
    requires SecondField(first) == Some(code)
    ensures match ReadLines(first, fields)
            case HeadOk(h) => Numeral(code, h.status) && h.status <= 0xFFFF && Says(h, first, fields)
            case BadStatusLine => forall n: nat :: n <= 0xFFFF ==> !Numeral(code, n)
            case NotText => false
  {
    forall n: nat ensures ParseUnsigned(code, 10, 0xFFFF) == Some(n) <==> Numeral(code, n) && n <= 0xFFFF {
      NumbersAreRead(code, 0xFFFF, n);
    }
    FieldsSay(fields);
  }

  lemma LineOf(version: string, code: string, more: string)
    requires Word(version) && Word(code) && Line(more)
    ensures Line(StatusLine(version, code, more))
  {
  }

  lemma FieldsSay(fields: seq<string>)
    ensures HeadersHaveToken(fields, "connection", "close") <==> AnyLists(fields, "connection", "close")
    ensures HeadersHaveToken(fields, "connection", "keep-alive") <==> AnyLists(fields, "connection", "keep-alive")
    ensures ChooseFraming(fields) == Chunked <==> AnyLists(fields, "transfer-encoding", "chunked")
    ensures forall n: nat :: ChooseFraming(fields) == ContentLength(n) <==> LengthIs(fields, n)
  {
    AnyTokenIsFound(fields, "connection", "close");
    AnyTokenIsFound(fields, "connection", "keep-alive");
    FramingIs(fields, 0);
    forall n: nat ensures ChooseFraming(fields) == ContentLength(n) <==> LengthIs(fields, n) { FramingIs(fields, n); }
  }
}
