/**
 String facts behind `BTreeMap`/`BTreeSet` iteration order and behind the text tests of the gateway.
 Rust orders strings by their UTF-8 bytes, which is the order of their code points.
 */
module Text {
  import opened Wrappers

  // ---------- order ----------

  predicate Less(a: string, b: string)
    decreases |a|
  {
    b != [] && (a == [] || a[0] < b[0] || (a[0] == b[0] && Less(a[1..], b[1..])))
  }

  lemma {:induction false} LessTotal(a: string, b: string)
    ensures Less(a, b) || a == b || Less(b, a)
    decreases |a|
  {
    if a != [] && b != [] && a[0] == b[0] {
      LessTotal(a[1..], b[1..]);
      assert a == [a[0]] + a[1..] && b == [b[0]] + b[1..];
    }
  }

  lemma {:induction false} LessTransitive(a: string, b: string, c: string)
    requires Less(a, b) && Less(b, c)
    ensures Less(a, c)
    decreases |a|
  {
    if a != [] && a[0] == b[0] && b[0] == c[0] {
      LessTransitive(a[1..], b[1..], c[1..]);
    }
  }

  lemma {:induction false} LessAsymmetric(a: string, b: string)
    ensures !(Less(a, b) && Less(b, a))
    decreases |a|
  {
    if a != [] && b != [] {
      LessAsymmetric(a[1..], b[1..]);
    }
  }

  /** `b` goes on after `a`, or is greater at the first place where they differ. */
  ghost predicate SmallerAt(a: string, b: string, i: nat) {
    i <= |a| && i < |b| && a[..i] == b[..i] && (i == |a| || a[i] < b[i])
  }

  /** The order is lexicographic. */
  lemma {:induction false} LessIsLexicographic(a: string, b: string)
    ensures Less(a, b) <==> exists i: nat :: SmallerAt(a, b, i)
    decreases |a|
  {
    if a != [] && b != [] && a[0] == b[0] {
      LessIsLexicographic(a[1..], b[1..]);
      if i: nat :| SmallerAt(a[1..], b[1..], i) {
        assert a[..i + 1] == [a[0]] + a[1..][..i] && b[..i + 1] == [b[0]] + b[1..][..i];
        assert SmallerAt(a, b, i + 1);
      }
      if i: nat :| SmallerAt(a, b, i) {
        assert i > 0 && a[1..][..i - 1] == a[..i][1..] && b[1..][..i - 1] == b[..i][1..];
        assert SmallerAt(a[1..], b[1..], i - 1);
      }
    } else {
      if Less(a, b) { assert SmallerAt(a, b, 0); }
      assert forall i: nat | i > 0 && a != [] && b != [] :: !SmallerAt(a, b, i) by {
        forall i: nat | i > 0 && a != [] && b != [] ensures !SmallerAt(a, b, i) {
          assert i <= |a| && i <= |b| ==> a[..i][0] == a[0] && b[..i][0] == b[0];
        }
      }
    }
  }

  // ---------- sorted name lists ----------

  function Elements(s: seq<string>): set<string> {
    set x | x in s
  }

  predicate StrictlySorted(s: seq<string>) {
    forall i, j | 0 <= i < j < |s| :: Less(s[i], s[j])
  }

  predicate IsMin(s: set<string>, m: string) {
    m in s && forall y | y in s :: m == y || Less(m, y)
  }

  lemma {:induction false} MinExists(s: set<string>)
    requires s != {}
    ensures exists m :: IsMin(s, m)
  {
    var x :| x in s;
    if s == {x} {
      assert IsMin(s, x);
    } else {
      var rest := s - {x};
      assert s == rest + {x};
      MinExists(rest);
      var m :| IsMin(rest, m);
      LessTotal(m, x);
      if Less(x, m) {
        forall y | y in s ensures x == y || Less(x, y) {
          if y != x && y != m { LessTransitive(x, m, y); }
        }
        assert IsMin(s, x);
      } else {
        assert IsMin(s, m);
      }
    }
  }

  lemma {:induction false} MinUnique(s: set<string>, m: string, n: string)
    requires IsMin(s, m) && IsMin(s, n)
    ensures m == n
  {
    LessAsymmetric(m, n);
  }

  function Min(s: set<string>): (m: string)
    requires s != {}
    ensures IsMin(s, m)
  {
    MinExists(s);
    assert forall m, n | IsMin(s, m) && IsMin(s, n) :: m == n by {
      forall m, n | IsMin(s, m) && IsMin(s, n) ensures m == n { MinUnique(s, m, n); }
    }
    var m :| m in s && IsMin(s, m);
    m
  }

  /** The iteration order of a `BTreeSet`, and of the keys of a `BTreeMap`. */
  function Sorted(s: set<string>): (r: seq<string>)
    ensures StrictlySorted(r)
    ensures Elements(r) == s
    ensures forall i | 0 <= i < |r| :: r[i] in s
    ensures r == [] <==> s == {}
    decreases |s|
  {
    if s == {} then [] else
      var m := Min(s);
      var rest := Sorted(s - {m});
      assert forall i | 0 <= i < |rest| :: rest[i] in Elements(rest);
      assert s == {m} + (s - {m});
      [m] + rest
  }

  lemma {:induction false} SortedHead(s: seq<string>)
    requires s != [] && StrictlySorted(s)
    ensures s[0] in Elements(s) && Min(Elements(s)) == s[0]
  {
    var e := Elements(s);
    forall y | y in e ensures s[0] == y || Less(s[0], y) {
      var i :| 0 <= i < |s| && s[i] == y;
    }
    assert s[0] in e && IsMin(e, s[0]);
    MinUnique(e, s[0], Min(e));
  }

  lemma {:induction false} SortedTail(s: seq<string>)
    requires s != [] && StrictlySorted(s)
    ensures Elements(s[1..]) == Elements(s) - {s[0]}
  {
    assert s == [s[0]] + s[1..];
    forall i | 0 < i < |s| ensures s[i] != s[0] { LessAsymmetric(s[0], s[i]); }
  }

  lemma {:induction false} SortedUnfold(e: set<string>)
    requires e != {}
    ensures Sorted(e) == [Min(e)] + Sorted(e - {Min(e)})
  {
  }

  /** A strictly increasing list is determined by its members. */
  lemma {:induction false} SortedCanonical(s: seq<string>)
    requires StrictlySorted(s)
    ensures s == Sorted(Elements(s))
    decreases |s|
  {
    if s == [] {
      assert Elements(s) == {};
    } else {
      SortedHead(s);
      SortedTail(s);
      SortedUnfold(Elements(s));
      SortedCanonical(s[1..]);
      assert s == [s[0]] + s[1..];
    }
  }

  /** `sorted_unique`: collect into a `BTreeSet` and read it back. */
  function SortedUnique(names: seq<string>): (r: seq<string>)
    ensures StrictlySorted(r) && Elements(r) == Elements(names)
  {
    Sorted(Elements(names))
  }

  // ---------- text tests ----------

  predicate StartsWith(s: string, prefix: string) {
    prefix <= s
  }

  predicate EndsWith(s: string, suffix: string) {
    |suffix| <= |s| && s[|s| - |suffix|..] == suffix
  }

  predicate Contains(s: string, part: string) {
    exists i | 0 <= i <= |s| :: StartsWith(s[i..], part)
  }

  function LowerAscii(c: char): char {
    if 'A' <= c <= 'Z' then (c as int + 32) as char else c
  }

  predicate EqIgnoreAsciiCase(a: string, b: string) {
    |a| == |b| && forall i | 0 <= i < |a| :: LowerAscii(a[i]) == LowerAscii(b[i])
  }

  /** `lower` is the small letter of `upper`. */
  ghost predicate CasePair(upper: char, lower: char) {
    'A' <= upper <= 'Z' && lower as int - 'a' as int == upper as int - 'A' as int
  }

  ghost predicate SameLetter(x: char, y: char) {
    x == y || CasePair(x, y) || CasePair(y, x)
  }

  /** Equal, but for ASCII letters that may differ in case. */
  ghost predicate SameIgnoringCase(a: string, b: string) {
    |a| == |b| && forall i | 0 <= i < |a| :: SameLetter(a[i], b[i])
  }

  lemma {:induction false} EqIgnoreAsciiCaseExact(a: string, b: string)
    ensures EqIgnoreAsciiCase(a, b) <==> SameIgnoringCase(a, b)
  {
    forall x, y ensures LowerAscii(x) == LowerAscii(y) <==> SameLetter(x, y) {}
  }

  /** `s` is `prefix` and something after it. */
  ghost predicate HasPrefix(s: string, prefix: string) {
    exists rest :: s == prefix + rest
  }

  /** `s` is something and `suffix` after it. */
  ghost predicate HasSuffix(s: string, suffix: string) {
    exists front :: s == front + suffix
  }

  /** `s` is something, `part` and something. */
  ghost predicate HasPart(s: string, part: string) {
    exists front, rest :: s == front + part + rest
  }

  lemma {:induction false} StartsWithExact(s: string, prefix: string)
    ensures StartsWith(s, prefix) <==> HasPrefix(s, prefix)
  {
    if StartsWith(s, prefix) { assert s == prefix + s[|prefix|..]; }
  }

  lemma {:induction false} EndsWithExact(s: string, suffix: string)
    ensures EndsWith(s, suffix) <==> HasSuffix(s, suffix)
  {
    if EndsWith(s, suffix) { assert s == s[..|s| - |suffix|] + suffix; }
  }

  lemma {:induction false} ContainsExact(s: string, part: string)
    ensures Contains(s, part) <==> HasPart(s, part)
  {
    if Contains(s, part) {
      var i :| 0 <= i <= |s| && StartsWith(s[i..], part);
      assert s == s[..i] + part + s[i + |part|..];
    }
    if front, rest :| s == front + part + rest {
      assert s[|front|..] == part + rest;
    }
  }

  // ---------- lists put together from blocks ----------

  function Total<T>(blocks: seq<seq<T>>): nat {
    if blocks == [] then 0 else Total(blocks[..|blocks| - 1]) + |blocks[|blocks| - 1]|
  }

  /** Block `m` stands in `whole` right after the blocks before it. */
  ghost predicate BlockAt<T>(whole: seq<T>, blocks: seq<seq<T>>, m: nat) {
    && m < |blocks| && Total(blocks[..m]) + |blocks[m]| <= |whole|
    && whole[Total(blocks[..m])..Total(blocks[..m]) + |blocks[m]|] == blocks[m]
  }

  /** `whole` is the blocks one after the other. */
  ghost predicate Joined<T>(whole: seq<T>, blocks: seq<seq<T>>) {
    |whole| == Total(blocks) && forall m | 0 <= m < |blocks| :: BlockAt(whole, blocks, m)
  }

  lemma {:induction false} Regroup<T>(a: seq<T>, b: seq<T>, c: seq<T>)
    ensures a + (b + c) == a + b + c
  {
  }

  lemma {:induction false} JoinedNext<T>(whole: seq<T>, blocks: seq<seq<T>>, b: seq<T>)
    requires Joined(whole, blocks)
    ensures Joined(whole + b, blocks + [b])
  {
    var all := blocks + [b];
    assert all[..|blocks|] == blocks;
    forall m | 0 <= m < |all| ensures BlockAt(whole + b, all, m) {
      if m < |blocks| {
        assert BlockAt(whole, blocks, m) && all[..m] == blocks[..m] && all[m] == blocks[m];
        var from, to := Total(blocks[..m]), Total(blocks[..m]) + |blocks[m]|;
        assert (whole + b)[from..to] == whole[from..to];
      }
    }
  }

  // ---------- splitting ----------

  predicate Free(c: char, s: string) {
    c !in s
  }

  /** The index of the first `c`, or the length when there is none. */
  function FirstIndex(s: string, c: char): (i: nat)
    ensures i <= |s| && Free(c, s[..i])
    ensures i < |s| ==> s[i] == c
    ensures i == |s| <==> Free(c, s)
  {
    if s == [] || s[0] == c then 0 else
      var i := FirstIndex(s[1..], c) + 1;
      assert s[..i] == [s[0]] + s[1..][..i - 1];
      i
  }

  lemma {:induction false} FirstIndexIs(s: string, c: char, n: nat)
    requires n < |s| && s[n] == c && Free(c, s[..n])
    ensures FirstIndex(s, c) == n
  {
    if n > 0 {
      assert s[0] in s[..n] && s[1..][..n - 1] == s[..n][1..];
      FirstIndexIs(s[1..], c, n - 1);
    }
  }

  function JoinWith(parts: seq<string>, sep: string): string {
    if parts == [] then "" else if |parts| == 1 then parts[0] else parts[0] + sep + JoinWith(parts[1..], sep)
  }

  /** Rust's `split(c)`: at least one piece, none containing `c`, which joined by `c` give the text back. */
  function Split(s: string, c: char): (pieces: seq<string>)
    ensures pieces != []
    ensures forall p | p in pieces :: Free(c, p)
    ensures JoinWith(pieces, [c]) == s
    decreases |s|
  {
    var i := FirstIndex(s, c);
    if i == |s| then [s] else
      var rest := Split(s[i + 1..], c);
      assert ([s[..i]] + rest)[1..] == rest && s == s[..i] + [c] + s[i + 1..];
      [s[..i]] + rest
  }

  /** The first piece is cut off at the first `c`. */
  lemma {:induction false} SplitCons(a: string, c: char, rest: string)
    requires Free(c, a)
    ensures Split(a, c) == [a]
    ensures Split(a + [c] + rest, c) == [a] + Split(rest, c)
  {
    var s := a + [c] + rest;
    assert s[..|a|] == a && s[|a|] == c && s[|a| + 1..] == rest;
    FirstIndexIs(s, c, |a|);
  }

  /** The first piece ends at the first `c` or with the text. */
  lemma {:induction false} SplitHead(s: string, c: char, piece: string)
    ensures Split(s, c)[0] == piece <==> Free(c, piece) && (s == piece || StartsWith(s, piece + [c]))
  {
    var i := FirstIndex(s, c);
    if Split(s, c)[0] == piece && i < |s| { assert piece + [c] == s[..i + 1]; }
    if Free(c, piece) && s == piece { SplitCons(piece, c, ""); }
    if Free(c, piece) && StartsWith(s, piece + [c]) {
      var rest := s[|piece| + 1..];
      assert s == piece + [c] + rest;
      SplitCons(piece, c, rest);
    }
  }

  /** The text after the last `c` (`rsplit_once(c).1`), if there is one. */
  function AfterLast(s: string, c: char): (r: Option<string>)
    ensures r.None? <==> Free(c, s)
    ensures r.Some? ==> Free(c, r.value) && EndsWith(s, [c] + r.value)
  {
    if s == [] then None else
      match AfterLast(s[1..], c)
      case Some(t) =>
        assert s[|s| - |t| - 1..] == s[1..][|s| - 1 - |t| - 1..];
        Some(t)
      case None =>
        if s[0] == c then assert s == [c] + s[1..]; Some(s[1..]) else None
  }

  lemma {:induction false} AfterLastIs(front: string, c: char, text: string)
    requires Free(c, text)
    ensures AfterLast(front + [c] + text, c) == Some(text)
  {
    var s := front + [c] + text;
    if front == [] {
      assert s[1..] == text;
    } else {
      AfterLastIs(front[1..], c, text);
      assert s[1..] == front[1..] + [c] + text;
    }
  }

  // ---------- u16 parsing ----------

  type u16 = x: int | 0 <= x < 0x1_0000

  function Digits(s: string): Option<nat> {
    if s == [] then Some(0) else
      var last := s[|s| - 1];
      match Digits(s[..|s| - 1])
      case None => None
      case Some(n) => if '0' <= last <= '9' then Some(n * 10 + (last as int - '0' as int)) else None
  }

  /** `str::parse::<u16>`: an optional plus sign, at least one digit, no overflow. */
  function ParseU16(s: string): Option<u16> {
    var body := if |s| > 1 && s[0] == '+' then s[1..] else s;
    match Digits(body)
    case None => None
    case Some(n) => if body == [] || n >= 0x1_0000 then None else Some(n)
  }

  function Numeral(d: nat): char
    requires d < 10
  {
    ('0' as int + d) as char
  }

  /** `n` written in decimal, without leading zeros. */
  function Decimal(n: nat): string {
    if n < 10 then [Numeral(n)] else Decimal(n / 10) + [Numeral(n % 10)]
  }

  function Zeros(n: nat): string {
    if n == 0 then "" else Zeros(n - 1) + "0"
  }

  lemma {:induction false} DigitsNext(s: string, d: nat)
    requires d < 10
    ensures Digits(s + [Numeral(d)]) == match Digits(s) case None => None case Some(n) => Some(n * 10 + d)
  {
    assert (s + [Numeral(d)])[..|s|] == s;
  }

  lemma {:induction false} DigitsOfZeros(z: nat)
    ensures Digits(Zeros(z)) == Some(0)
  {
    if z > 0 {
      DigitsOfZeros(z - 1);
      DigitsNext(Zeros(z - 1), 0);
    }
  }

  lemma {:induction false} DigitsOfNumeral(z: nat, n: nat)
    ensures Digits(Zeros(z) + Decimal(n)) == Some(n)
    decreases n
  {
    if n < 10 {
      DigitsOfZeros(z);
      DigitsNext(Zeros(z), n);
    } else {
      DigitsOfNumeral(z, n / 10);
      DigitsNext(Zeros(z) + Decimal(n / 10), n % 10);
      assert Zeros(z) + Decimal(n) == Zeros(z) + Decimal(n / 10) + [Numeral(n % 10)];
    }
  }

  lemma {:induction false} DigitChar(c: char) returns (d: nat)
    requires '0' <= c <= '9'
    ensures d < 10 && c == Numeral(d) && d == c as int - '0' as int
  {
    d := c as int - '0' as int;
  }

  lemma {:induction false} DecimalNext(m: nat, d: nat)
    requires d < 10
    ensures Decimal(m * 10 + d) == if m == 0 then Decimal(d) else Decimal(m) + [Numeral(d)]
  {
    assert (m * 10 + d) / 10 == m && (m * 10 + d) % 10 == d;
  }

  lemma {:induction false} NumeralGrows(front: string, z: nat, m: nat, d: nat) returns (z': nat)
    requires d < 10 && front == Zeros(z) + Decimal(m)
    ensures front + [Numeral(d)] == Zeros(z') + Decimal(m * 10 + d)
  {
    DecimalNext(m, d);
    z' := z;
    if m == 0 {
      z' := z + 1;
      assert front == Zeros(z');
    }
  }

  /** Whatever reads as digits is zeros and then the decimal numeral of its value. */
  lemma {:induction false} DigitsAreNumeral(s: string) returns (z: nat)
    requires s != [] && Digits(s).Some?
    ensures s == Zeros(z) + Decimal(Digits(s).value)
  {
    var k := |s| - 1;
    var d := DigitChar(s[k]);
    assert s == s[..k] + [s[k]];
    if k == 0 {
      z := 0;
    } else {
      z := DigitsAreNumeral(s[..k]);
      z := NumeralGrows(s[..k], z, Digits(s[..k]).value, d);
    }
  }

  /** `s` is the decimal numeral of `p`, with `z` leading zeros and perhaps a plus sign. */
  ghost predicate IsNumeral(s: string, p: nat, z: nat) {
    s == Zeros(z) + Decimal(p) || s == "+" + (Zeros(z) + Decimal(p))
  }

  lemma {:induction false} NumeralHead(z: nat, p: nat)
    ensures Zeros(z) + Decimal(p) != [] && (Zeros(z) + Decimal(p))[0] != '+'
  {
    DigitsOfNumeral(z, p);
    HeadIsDigit(Zeros(z) + Decimal(p));
  }

  lemma {:induction false} HeadIsDigit(s: string)
    requires s != [] && Digits(s).Some?
    ensures '0' <= s[0] <= '9'
  {
    if |s| > 1 { HeadIsDigit(s[..|s| - 1]); }
  }

  /** A text parses as a port if and only if it is a decimal numeral of one. */
  lemma {:induction false} ParseU16Exact(s: string, p: u16)
    ensures ParseU16(s) == Some(p) <==> exists z: nat :: IsNumeral(s, p, z)
  {
    if ParseU16(s) == Some(p) {
      var body := if |s| > 1 && s[0] == '+' then s[1..] else s;
      var z := DigitsAreNumeral(body);
      assert IsNumeral(s, p, z) by { if body != s { assert s == "+" + body; } }
    }
    if z: nat :| IsNumeral(s, p, z) {
      DigitsOfNumeral(z, p);
      NumeralHead(z, p);
      var body := Zeros(z) + Decimal(p);
      if s != body { assert s[1..] == body && s[0] == '+'; }
    }
  }
}
