/** Two- and three-letter symbols: base-52 numerals over the English alphabet. */
module Symbols {
  import opened Options

  const BASE := 52
  const KEY_LIMIT := 140608   // 52^3
  const VAL_LIMIT := 2704     // 52^2

  predicate IsLetter(c: char) {
    'a' <= c <= 'z' || 'A' <= c <= 'Z'
  }

  function LetterIndex(c: char): (i: nat)
    requires IsLetter(c)
    ensures i < BASE
  {
    if 'a' <= c <= 'z' then (c - 'a') as nat else 26 + (c - 'A') as nat
  }

  /** The letter at index `i` of the alphabet, small letters first. */
  function Letter(i: nat): (c: char)
    requires i < BASE
    ensures IsLetter(c) && LetterIndex(c) == i
  {
    if i < 26 then 'a' + i as char else 'A' + (i - 26) as char
  }

  /** A storage key's symbol; the source throws outside the range. Note the order of the digits. */
  function GetSymKey(number: int): Option<string> {
    if number < 0 || number >= KEY_LIMIT then None else
      var q1, r1 := number / BASE, number % BASE;
      var q2, r2 := q1 / BASE, q1 % BASE;
      Some([Letter(q2), Letter(r1), Letter(r2)])
  }

  /** A stored value's symbol. */
  function GetSymVal(number: int): Option<string> {
    if number < 0 || number >= VAL_LIMIT then None else
      Some([Letter(number / BASE), Letter(number % BASE)])
  }

  predicate AllLetters(s: string) {
    forall i :: 0 <= i < |s| ==> IsLetter(s[i])
  }

  predicate IsSymKey(s: string) {
    |s| == 3 && AllLetters(s)
  }

  predicate IsSymVal(s: string) {
    |s| == 2 && AllLetters(s)
  }

  /** The number a key symbol stands for. */
  function SymKeyIndex(s: string): nat
    requires IsSymKey(s)
  {
    (LetterIndex(s[0]) * BASE + LetterIndex(s[2])) * BASE + LetterIndex(s[1])
  }

  function SymValIndex(s: string): nat
    requires IsSymVal(s)
  {
    LetterIndex(s[0]) * BASE + LetterIndex(s[1])
  }

  lemma DivMod(m: nat)
    ensures m == (m / BASE) * BASE + m % BASE
  {
  }

  lemma SymKeyRoundTrip(number: int)
    requires GetSymKey(number).Some?
    ensures IsSymKey(GetSymKey(number).value) && SymKeyIndex(GetSymKey(number).value) == number
  {
    var q1 := number / BASE;
    DivMod(number);
    DivMod(q1);
  }

  lemma SymValRoundTrip(number: int)
    requires GetSymVal(number).Some?
    ensures IsSymVal(GetSymVal(number).value) && SymValIndex(GetSymVal(number).value) == number
  {
    DivMod(number);
  }

  /** Different numbers, different symbols. */
  lemma SymKeyInjective(m: int, n: int)
    requires GetSymKey(m).Some? && GetSymKey(m) == GetSymKey(n)
    ensures m == n
  {
    SymKeyRoundTrip(m);
    SymKeyRoundTrip(n);
  }

  lemma SymValInjective(m: int, n: int)
    requires GetSymVal(m).Some? && GetSymVal(m) == GetSymVal(n)
    ensures m == n
  {
    SymValRoundTrip(m);
    SymValRoundTrip(n);
  }

  /** The `n`th letter: a to z, then A to Z. */
  predicate IsNth(c: char, n: int) {
    c as int == if n < 26 then 'a' as int + n else 'A' as int + n - 26
  }

  /** How symbols are spelled: a key's first letter counts the 2704s, its last the 52s, and the one between them the
      rest; a value's first letter counts the 52s. Both run out where no letter is left. */
  lemma SymbolsAreSpelled(number: int)
    ensures GetSymKey(number).Some? <==> 0 <= number < 52 * 52 * 52
    ensures GetSymVal(number).Some? <==> 0 <= number < 52 * 52
    ensures GetSymKey(number).Some? ==> var s := GetSymKey(number).value;
      |s| == 3 && IsNth(s[0], number / 2704) && IsNth(s[1], number % 52) && IsNth(s[2], number / 52 % 52)
    ensures GetSymVal(number).Some? ==> var s := GetSymVal(number).value;
      |s| == 2 && IsNth(s[0], number / 52) && IsNth(s[1], number % 52)
  {
    if GetSymKey(number).Some? {
      DivMod(number);
      DivMod(number / BASE);
      assert number / 2704 == number / BASE / BASE;
    }
  }
}
