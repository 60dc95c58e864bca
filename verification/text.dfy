/** The pieces of Rust's `str` API, of integer formatting and of integer parsing that the
    core relies on, over Dafny strings (sequences of Unicode scalar values). */
module Text {
  import opened Wrappers

  /** An octet: signature bytes, decoded base64. */
  type byte = x: int | 0 <= x < 256

  const U64_LIMIT: int := 0x1_0000_0000_0000_0000

  /** Rust's `u64`. */
  type u64 = x: int | 0 <= x < U64_LIMIT

  predicate StartsWith(s: string, prefix: string) {
    |prefix| <= |s| && s[..|prefix|] == prefix
  }

  predicate EndsWith(s: string, suffix: string) {
    |suffix| <= |s| && s[|s| - |suffix|..] == suffix
  }

  /** `str::find(c)` for a character pattern: the index of the first `c`. */
  function IndexOf(s: string, c: char): (r: Option<nat>)
    ensures r.None? <==> c !in s
    ensures r.Some? ==> r.value < |s| && s[r.value] == c && c !in s[..r.value]
  {
    if |s| == 0 then None
    else if s[0] == c then Some(0)
    else
      match IndexOf(s[1..], c)
      case None => assert s == [s[0]] + s[1..]; None
      case Some(i) => assert s[..i + 1] == [s[0]] + s[1..][..i]; Some(i + 1)
  }

  /** `str::split(c)` for a character pattern: the pieces between the occurrences of `c`,
      one more piece than there are occurrences. */
  function Split(s: string, c: char): (parts: seq<string>)
    ensures |parts| == Occurrences(s, c) + 1
    ensures forall i :: 0 <= i < |parts| ==> c !in parts[i]
    decreases |s|
  {
    match IndexOf(s, c)
    case None => OccurrencesAbsent(s, c); [s]
    case Some(i) =>
      OccurrencesSplit(s, c, i);
      [s[..i]] + Split(s[i + 1..], c)
  }

  /** How many times `c` occurs in `s`. */
  function Occurrences(s: string, c: char): nat {
    if |s| == 0 then 0 else (if s[0] == c then 1 else 0) + Occurrences(s[1..], c)
  }

  lemma {:induction false} OccurrencesAbsent(s: string, c: char)
    requires c !in s
    ensures Occurrences(s, c) == 0
  {
    if |s| > 0 {
      assert c !in s[1..] by { assert forall k :: 0 <= k < |s| - 1 ==> s[1..][k] == s[k + 1]; }
      OccurrencesAbsent(s[1..], c);
    }
  }

  lemma {:induction false} OccurrencesSplit(s: string, c: char, i: nat)
    requires i < |s| && s[i] == c && c !in s[..i]
    ensures Occurrences(s, c) == 1 + Occurrences(s[i + 1..], c)
  {
    if i > 0 {
      assert s[0] in s[..i];
      assert s[1..][..i - 1] == s[1..i];
      assert c !in s[1..][..i - 1] by { assert forall k :: 0 <= k < i - 1 ==> s[1..i][k] == s[..i][k + 1]; }
      assert s[1..][i - 1 + 1..] == s[i + 1..];
      OccurrencesSplit(s[1..], c, i - 1);
    }
  }

  /** `[String]::join(sep)`: the parts with `sep` between neighbours. */
  function Join(parts: seq<string>, sep: string): string {
    if |parts| == 0 then ""
    else if |parts| == 1 then parts[0]
    else parts[0] + sep + Join(parts[1..], sep)
  }

  /** Appending one more part appends the separator and the part. */
  lemma {:induction false} JoinSnoc(parts: seq<string>, x: string, sep: string)
    requires |parts| >= 1
    ensures Join(parts + [x], sep) == Join(parts, sep) + sep + x
  {
    if |parts| == 1 {
      assert (parts + [x])[1..] == [x];
    } else {
      assert (parts + [x])[1..] == parts[1..] + [x];
      JoinSnoc(parts[1..], x, sep);
    }
  }

  lemma {:induction false} IndexOfAfter(p: string, t: string, c: char)
    requires c !in p && |t| > 0 && t[0] == c
    ensures IndexOf(p + t, c) == Some(|p|)
  {
    if |p| > 0 {
      assert (p + t)[1..] == p[1..] + t;
      assert c !in p[1..] by { assert forall k :: 0 <= k < |p| - 1 ==> p[1..][k] == p[k + 1]; }
      IndexOfAfter(p[1..], t, c);
    }
  }

  /** Two texts that both read "part, `c`, rest" with no `c` in the first part agree on
      both the part and the rest. */
  lemma SplitAtFirst(a: string, x: string, b: string, y: string, c: char)
    requires c !in a && c !in b
    requires a + [c] + x == b + [c] + y
    ensures a == b && x == y
  {
    assert a + [c] + x == a + ([c] + x);
    assert b + [c] + y == b + ([c] + y);
    IndexOfAfter(a, [c] + x, c);
    IndexOfAfter(b, [c] + y, c);
    var s := a + [c] + x;
    assert a == s[..|a|] && b == s[..|b|];
    assert x == s[|a| + 1..] && y == s[|b| + 1..];
  }

  /** Joining the pieces of a split with `c` gives back the text. */
  lemma {:induction false} JoinSplit(s: string, c: char)
    ensures Join(Split(s, c), [c]) == s
    decreases |s|
  {
    match IndexOf(s, c)
    case None =>
    case Some(i) =>
      var rest := Split(s[i + 1..], c);
      JoinSplit(s[i + 1..], c);
      assert Split(s, c) == [s[..i]] + rest;
      assert ([s[..i]] + rest)[1..] == rest;
      assert s == s[..i] + [c] + s[i + 1..];
  }

  /** Splitting on `c` undoes joining with `c` when no part contains `c`. */
  lemma {:induction false} SplitJoin(parts: seq<string>, c: char)
    requires |parts| >= 1
    requires forall i :: 0 <= i < |parts| ==> c !in parts[i]
    ensures Split(Join(parts, [c]), c) == parts
  {
    if |parts| > 1 {
      var rest := Join(parts[1..], [c]);
      var s := parts[0] + ([c] + rest);
      assert Join(parts, [c]) == s;
      IndexOfAfter(parts[0], [c] + rest, c);
      assert s[..|parts[0]|] == parts[0];
      assert s[|parts[0]| + 1..] == rest;
      SplitJoin(parts[1..], c);
    }
  }

  predicate IsDigit(c: char) {
    '0' <= c <= '9'
  }

  predicate AllDigits(s: string) {
    forall i :: 0 <= i < |s| ==> IsDigit(s[i])
  }

  function DigitChar(d: nat): (c: char)
    requires d < 10
    ensures IsDigit(c)
  {
    ('0' as int + d) as char
  }

  /** `u64`'s `Display`: decimal digits without sign or leading zeros. */
  function Decimal(n: nat): (s: string)
    ensures |s| >= 1 && AllDigits(s)
  {
    if n < 10 then [DigitChar(n)] else Decimal(n / 10) + [DigitChar(n % 10)]
  }

  /** The number a string of decimal digits denotes. */
  function DigitsValue(s: string): nat
    requires AllDigits(s)
  {
    if |s| == 0 then 0 else DigitsValue(s[..|s| - 1]) * 10 + (s[|s| - 1] as int - '0' as int)
  }

  /** `str::parse::<u64>()`: an optional `+`, then at least one decimal digit, and a value
      that fits in 64 bits; anything else is a `ParseIntError`. */
  function ParseU64(s: string): Option<u64> {
    var digits := if |s| > 0 && s[0] == '+' then s[1..] else s;
    if |digits| > 0 && AllDigits(digits) && DigitsValue(digits) < U64_LIMIT
    then Some(DigitsValue(digits))
    else None
  }

  lemma {:induction false} DecimalValue(n: nat)
    ensures DigitsValue(Decimal(n)) == n
  {
    if n >= 10 {
      var s := Decimal(n);
      assert s[..|s| - 1] == Decimal(n / 10);
      DecimalValue(n / 10);
    }
  }

  /** Parsing a formatted `u64` gives it back. */
  lemma ParseU64Decimal(n: u64)
    ensures ParseU64(Decimal(n)) == Some(n)
  {
    DecimalValue(n);
  }

  function LowerAscii(c: char): char {
    if 'A' <= c <= 'Z' then (c as int + 32) as char else c
  }

  /** `str::to_lowercase` restricted to ASCII, which is all an HTTP method holds. */
  function ToLowerAscii(s: string): (r: string)
    ensures |r| == |s| && forall i :: 0 <= i < |s| ==> r[i] == LowerAscii(s[i])
  {
    seq(|s|, i requires 0 <= i < |s| => LowerAscii(s[i]))
  }

  predicate OccursAt(s: string, pat: string, i: nat) {
    i + |pat| <= |s| && s[i..i + |pat|] == pat
  }

  /** The first index at or after `from` where `pat` occurs. */
  function FindFrom(s: string, pat: string, from: nat): (r: Option<nat>)
    requires from <= |s|
    ensures r.Some? ==> from <= r.value && OccursAt(s, pat, r.value)
    ensures r.Some? ==> forall j :: from <= j < r.value ==> !OccursAt(s, pat, j)
    ensures r.None? ==> forall j :: from <= j <= |s| ==> !OccursAt(s, pat, j)
    decreases |s| - from
  {
    if OccursAt(s, pat, from) then Some(from)
    else if from == |s| then None
    else FindFrom(s, pat, from + 1)
  }

  /** The first piece of `s.split(pat)`: what precedes the first occurrence of `pat`, or all
      of `s` when `pat` does not occur. */
  function BeforeFirst(s: string, pat: string): (r: string)
    ensures StartsWith(s, r)
  {
    match FindFrom(s, pat, 0)
    case Some(i) => s[..i]
    case None => s
  }

  /** Number of bytes of `c` in UTF-8. */
  function Utf8Width(c: char): nat {
    var v := c as int;
    if v < 0x80 then 1 else if v < 0x800 then 2 else if v < 0x1_0000 then 3 else 4
  }

  /** Number of bytes of `s` in UTF-8 (Rust's `str::len`). */
  function Utf8Length(s: string): nat {
    if |s| == 0 then 0 else Utf8Width(s[0]) + Utf8Length(s[1..])
  }

  /** The character index at which byte offset `n` of `s` falls, when `n` is a character
      boundary no further than the end: what `str::get(n..)` needs to succeed. */
  function CharIndexAtByte(s: string, n: nat): (r: Option<nat>)
    ensures r.Some? ==> r.value <= |s| && Utf8Length(s[..r.value]) == n
  {
    if n == 0 then Some(0)
    else if |s| == 0 || Utf8Width(s[0]) > n then None
    else
      match CharIndexAtByte(s[1..], n - Utf8Width(s[0]))
      case None => None
      case Some(k) =>
        assert s[..k + 1][1..] == s[1..][..k];
        Some(k + 1)
  }

  predicate IsAscii(s: string) {
    forall i :: 0 <= i < |s| ==> s[i] as int < 0x80
  }

  /** After an ASCII prefix the byte offset of a character equals its index. */
  lemma {:induction false} CharIndexAfterAscii(p: string, t: string)
    requires IsAscii(p)
    ensures CharIndexAtByte(p + t, |p|) == Some(|p|)
  {
    if |p| > 0 {
      assert (p + t)[0] == p[0];
      assert (p + t)[1..] == p[1..] + t;
      CharIndexAfterAscii(p[1..], t);
    }
  }

  /** Fewer bytes than `n`: no boundary at `n`. */
  lemma {:induction false} CharIndexBeyondEnd(s: string, n: nat)
    requires Utf8Length(s) < n
    ensures CharIndexAtByte(s, n) == None
  {
    if |s| > 0 && Utf8Width(s[0]) <= n {
      CharIndexBeyondEnd(s[1..], n - Utf8Width(s[0]));
    }
  }

  /** Every character of `s` satisfies `p`. */
  predicate AllChars(s: string, p: char -> bool) {
    forall i :: 0 <= i < |s| ==> p(s[i])
  }

  lemma AllCharsConcat(a: string, b: string, p: char -> bool)
    ensures AllChars(a + b, p) <==> AllChars(a, p) && AllChars(b, p)
  {
    if AllChars(a, p) && AllChars(b, p) {
      forall i | 0 <= i < |a + b| ensures p((a + b)[i]) {
        if i >= |a| { assert (a + b)[i] == b[i - |a|]; }
      }
    }
    if AllChars(a + b, p) {
      forall i | 0 <= i < |a| ensures p(a[i]) { assert (a + b)[i] == a[i]; }
      forall i | 0 <= i < |b| ensures p(b[i]) { assert (a + b)[|a| + i] == b[i]; }
    }
  }

  lemma {:induction false} AllCharsJoin(parts: seq<string>, sep: string, p: char -> bool)
    requires forall i :: 0 <= i < |parts| ==> AllChars(parts[i], p)
    requires AllChars(sep, p)
    ensures AllChars(Join(parts, sep), p)
  {
    if |parts| > 1 {
      AllCharsJoin(parts[1..], sep, p);
      AllCharsConcat(parts[0], sep, p);
      AllCharsConcat(parts[0] + sep, Join(parts[1..], sep), p);
    }
  }

  lemma AllCharsWeaken(s: string, p: char -> bool, q: char -> bool)
    requires AllChars(s, p)
    requires forall c :: p(c) ==> q(c)
    ensures AllChars(s, q)
  {
    forall i | 0 <= i < |s| ensures q(s[i]) { assert p(s[i]); }
  }
}
