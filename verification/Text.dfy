/** Decimal numerals and delimiter-separated text, as JavaScript prints and splits them. */
module Text {

  /* ---------- decimal numerals ---------- */

  predicate IsDigit(c: char) {
    '0' <= c <= '9'
  }

  predicate AllDigits(s: string) {
    forall i :: 0 <= i < |s| ==> IsDigit(s[i])
  }

  function DigitChar(d: nat): (c: char)
    requires d < 10
    ensures IsDigit(c) && DigitValue(c) == d
  {
    '0' + d as char
  }

  function DigitValue(c: char): nat
    requires IsDigit(c)
  {
    (c - '0') as nat
  }

  /** `n.toString()` for a non-negative integer. */
  function Decimal(n: nat): (s: string)
    ensures |s| >= 1 && AllDigits(s)
  {
    if n < 10 then [DigitChar(n)] else Decimal(n / 10) + [DigitChar(n % 10)]
  }

  /** `n.toString()` for an integer below 10^21 in magnitude, where JavaScript prints no exponent. */
  function Numeral(n: int): (s: string)
    ensures |s| >= 1
  {
    if n < 0 then "-" + Decimal(-n) else Decimal(n)
  }

  /** `parseInt(s, 10)` of a string of digits. */
  function NatOf(s: string): nat
    requires AllDigits(s)
  {
    if s == [] then 0 else NatOf(s[..|s| - 1]) * 10 + DigitValue(s[|s| - 1])
  }

  predicate IsNumeral(s: string) {
    s != [] && (AllDigits(s) || (s[0] == '-' && |s| > 1 && AllDigits(s[1..])))
  }

  function IntOf(s: string): int
    requires IsNumeral(s)
  {
    if AllDigits(s) then NatOf(s) else 0 - NatOf(s[1..])
  }

  lemma {:induction false} NatOfDecimal(n: nat)
    ensures NatOf(Decimal(n)) == n
  {
    if n >= 10 {
      NatOfDecimal(n / 10);
      assert Decimal(n)[..|Decimal(n)| - 1] == Decimal(n / 10);
    } else {
      assert Decimal(n)[..0] == [];
    }
  }

  lemma IntOfNumeral(n: int)
    ensures IsNumeral(Numeral(n)) && IntOf(Numeral(n)) == n
  {
    if n < 0 {
      NatOfDecimal(-n);
      assert Numeral(n)[1..] == Decimal(-n);
      assert !IsDigit(Numeral(n)[0]);
    } else {
      NatOfDecimal(n);
    }
  }

  function Pow10(k: nat): (p: nat)
    ensures p >= 1
  {
    if k == 0 then 1 else 10 * Pow10(k - 1)
  }

  lemma {:induction false} DecimalLength(n: nat, len: nat)
    requires len >= 1 && n < Pow10(len) && (len > 1 ==> Pow10(len - 1) <= n)
    ensures |Decimal(n)| == len
  {
    if len > 1 {
      assert Pow10(len - 1) == 10 * Pow10(len - 2);
      DecimalLength(n / 10, len - 1);
    } else {
      assert Pow10(1) == 10 * Pow10(0) == 10;
    }
  }

  lemma MulAtLeast(d: int, k: int)
    requires d > 0 && k >= 1
    ensures d * k >= d
  {
  }

  lemma QuotientUnique(n: int, d: int, q: int, r: int)
    requires 0 <= r < d && n == d * q + r
    ensures n / d == q && n % d == r
  {
    var q', r' := n / d, n % d;
    assert n == d * q' + r' && 0 <= r' < d;
    var k := q - q';
    assert d * k == r' - r by {
      assert d * (q' + k) == d * q' + d * k;
    }
    if k >= 1 {
      MulAtLeast(d, k);
    } else if k <= -1 {
      MulAtLeast(d, -k);
    }
  }

  lemma QuotientOfTens(n: nat, p: nat)
    requires p > 0
    ensures n / (10 * p) == n / 10 / p
    ensures n % (10 * p) == 10 * (n / 10 % p) + n % 10
  {
    var m := n / 10;
    var q, r := m / p, m % p;
    assert m == p * q + r;
    assert 10 * (p * q) == (10 * p) * q;
    QuotientUnique(n, 10 * p, q, 10 * r + n % 10);
  }

  lemma LastDigitJoins(n: nat, k: nat)
    ensures n % Pow10(k + 1) == 10 * (n / 10 % Pow10(k)) + n % 10
  {
    QuotientOfTens(n, Pow10(k));
  }

  lemma NatOfSnoc(s: string, d: nat)
    requires AllDigits(s) && d < 10
    ensures AllDigits(s + [DigitChar(d)]) && NatOf(s + [DigitChar(d)]) == NatOf(s) * 10 + d
  {
    var t := s + [DigitChar(d)];
    assert t[..|t| - 1] == s && t[|t| - 1] == DigitChar(d);
  }

  lemma NatOfLastSlice(n: nat, a: nat)
    requires n >= 10 && a < |Decimal(n)|
    ensures NatOf(Decimal(n)[a..]) == NatOf(Decimal(n / 10)[a..]) * 10 + n % 10
  {
    hide NatOf, DigitChar;
    assert Decimal(n)[a..] == Decimal(n / 10)[a..] + [DigitChar(n % 10)];
    NatOfSnoc(Decimal(n / 10)[a..], n % 10);
  }

  lemma SliceAtEnd(n: nat, a: nat)
    requires n >= 10 && a < |Decimal(n)|
    requires NatOf(Decimal(n / 10)[a..|Decimal(n)| - 1]) == n / 10 / Pow10(0) % Pow10(|Decimal(n)| - 1 - a)
    ensures NatOf(Decimal(n)[a..|Decimal(n)|]) == n / Pow10(0) % Pow10(|Decimal(n)| - a)
  {
    hide NatOf;
    var len := |Decimal(n)|;
    NatOfLastSlice(n, a);
    LastDigitJoins(n, len - 1 - a);
    assert Decimal(n)[a..] == Decimal(n)[a..len];
    assert Decimal(n / 10)[a..] == Decimal(n / 10)[a..len - 1];
    OverOne(n);
    OverOne(n / 10);
  }

  lemma OverOne(n: nat)
    ensures n / Pow10(0) == n
  {
    assert Pow10(0) == 1;
  }

  lemma SliceInside(n: nat, a: nat, b: nat)
    requires n >= 10 && a <= b < |Decimal(n)|
    requires NatOf(Decimal(n / 10)[a..b]) == n / 10 / Pow10(|Decimal(n)| - 1 - b) % Pow10(b - a)
    ensures NatOf(Decimal(n)[a..b]) == n / Pow10(|Decimal(n)| - b) % Pow10(b - a)
  {
    assert Decimal(n)[a..b] == Decimal(n / 10)[a..b];
    QuotientOfTens(n, Pow10(|Decimal(n)| - 1 - b));
  }

  lemma EmptySlice(n: nat, a: nat)
    requires a <= |Decimal(n)|
    ensures NatOf(Decimal(n)[a..a]) == n / Pow10(|Decimal(n)| - a) % Pow10(a - a)
  {
    assert Decimal(n)[a..a] == [] && Pow10(0) == 1;
  }

  lemma SliceOfDigit(n: nat)
    requires n < 10
    ensures NatOf(Decimal(n)[0..1]) == n / Pow10(0) % Pow10(1)
  {
    assert Decimal(n)[0..1] == Decimal(n) && Decimal(n)[..0] == [];
    assert Pow10(0) == 1 && Pow10(1) == 10 * Pow10(0);
  }

  /** Cutting characters out of a numeral is dividing and taking a remainder. */
  lemma {:induction false} DecimalSlice(n: nat, a: nat, b: nat)
    requires a <= b <= |Decimal(n)|
    ensures NatOf(Decimal(n)[a..b]) == n / Pow10(|Decimal(n)| - b) % Pow10(b - a)
    decreases n
  {
    hide NatOf, Pow10;
    if a == b {
      EmptySlice(n, a);
    } else if n < 10 {
      SliceOfDigit(n);
    } else if b < |Decimal(n)| {
      DecimalSlice(n / 10, a, b);
      SliceInside(n, a, b);
    } else {
      DecimalSlice(n / 10, a, b - 1);
      SliceAtEnd(n, a);
    }
  }

  /** Reading one character is the special case of a slice of length one. */
  lemma DecimalDigit(n: nat, i: nat)
    requires i < |Decimal(n)|
    ensures DigitValue(Decimal(n)[i]) == n / Pow10(|Decimal(n)| - 1 - i) % 10
  {
    DecimalSlice(n, i, i + 1);
    var c := Decimal(n)[i..i + 1];
    assert c[..0] == [] && c[0] == Decimal(n)[i];
    assert Pow10(1) == 10 * Pow10(0) == 10;
  }

  lemma DecimalInjective(m: nat, n: nat)
    requires Decimal(m) == Decimal(n)
    ensures m == n
  {
    NatOfDecimal(m);
    NatOfDecimal(n);
  }

  /* ---------- text in fields ---------- */

  /** Does `sep` stand at position `i` of `s`? */
  predicate At(s: string, sep: string, i: nat) {
    i + |sep| <= |s| && s[i..i + |sep|] == sep
  }

  /** The leftmost position at or after `from` where `sep` stands, or |s|. */
  function IndexFrom(s: string, sep: string, from: nat): (i: nat)
    requires from <= |s|
    ensures from <= i <= |s|
    ensures forall j :: from <= j < i ==> !At(s, sep, j)
    ensures i < |s| && sep != [] ==> At(s, sep, i)
    decreases |s| - from
  {
    if from == |s| || At(s, sep, from) then from else IndexFrom(s, sep, from + 1)
  }

  /** `s.split(sep)` for a non-empty separator: cut at the leftmost occurrence, go on after it. */
  function Split(s: string, sep: string): (parts: seq<string>)
    requires sep != []
    ensures parts != []
    decreases |s|
  {
    var i := IndexFrom(s, sep, 0);
    if i == |s| then [s] else [s[..i]] + Split(s[i + |sep|..], sep)
  }

  /** `parts.join(sep)` */
  function Join(parts: seq<string>, sep: string): string {
    if parts == [] then []
    else if |parts| == 1 then parts[0]
    else parts[0] + sep + Join(parts[1..], sep)
  }

  lemma JoinCons(part: string, rest: seq<string>, sep: string)
    requires rest != []
    ensures Join([part] + rest, sep) == part + sep + Join(rest, sep)
  {
    assert ([part] + rest)[1..] == rest;
  }

  lemma {:induction false} JoinSplit(s: string, sep: string)
    requires sep != []
    ensures Join(Split(s, sep), sep) == s
    decreases |s|
  {
    var i := IndexFrom(s, sep, 0);
    if i < |s| {
      var rest := s[i + |sep|..];
      JoinSplit(rest, sep);
      JoinCons(s[..i], Split(rest, sep), sep);
      CutAt(s, sep, i);
    }
  }

  lemma CutAt(s: string, sep: string, i: nat)
    requires At(s, sep, i)
    ensures s == s[..i] + sep + s[i + |sep|..]
  {
  }

  lemma SplitInjective(s: string, t: string, sep: string)
    requires sep != [] && Split(s, sep) == Split(t, sep)
    ensures s == t
  {
    JoinSplit(s, sep);
    JoinSplit(t, sep);
  }

  lemma IndexUnique(s: string, sep: string, from: nat, i: nat)
    requires sep != [] && from <= i <= |s|
    requires i < |s| ==> At(s, sep, i)
    requires forall j :: from <= j < i ==> !At(s, sep, j)
    ensures IndexFrom(s, sep, from) == i
  {
    var k := IndexFrom(s, sep, from);
    assert k < |s| ==> At(s, sep, k);
  }

  /** If the separator behind `a` is the first one, `a` is the first field. */
  lemma SplitAtFirst(a: string, rest: string, sep: string)
    requires sep != [] && forall j :: 0 <= j < |a| ==> !At(a + sep + rest, sep, j)
    ensures Split(a + sep + rest, sep) == [a] + Split(rest, sep)
  {
    var s := a + sep + rest;
    assert At(s, sep, |a|);
    IndexUnique(s, sep, 0, |a|);
    assert s[..|a|] == a && s[|a| + |sep|..] == rest;
  }

  /** Otherwise the first field is a proper beginning of `a`. */
  lemma SplitBeforeFirst(a: string, rest: string, sep: string, j: nat)
    requires sep != [] && j < |a| && At(a + sep + rest, sep, j)
    ensures |Split(a + sep + rest, sep)[0]| < |a|
  {
    var s := a + sep + rest;
    assert IndexFrom(s, sep, 0) <= j;
  }

  /* ---------- fields between double colons ---------- */

  /** No separator begins within the text, not even with its last character. */
  predicate NoSeparator(a: string) {
    forall j :: 0 <= j < |a| ==> !At(a + ":", "::", j)
  }

  lemma SeparatorWithin(a: string, rest: string, j: nat)
    requires j < |a|
    ensures At(a + "::" + rest, "::", j) <==> At(a + ":", "::", j)
  {
    var s, t := a + "::" + rest, a + ":";
    assert s[j] == t[j] && s[j + 1] == t[j + 1];
    assert s[j..j + 2] == [s[j], s[j + 1]] && t[j..j + 2] == [t[j], t[j + 1]];
  }

  lemma FirstField(a: string, rest: string)
    requires NoSeparator(a)
    ensures Split(a + "::" + rest, "::") == [a] + Split(rest, "::")
  {
    forall j | 0 <= j < |a| ensures !At(a + "::" + rest, "::", j) {
      SeparatorWithin(a, rest, j);
    }
    SplitAtFirst(a, rest, "::");
  }
}
