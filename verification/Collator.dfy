/** The 15-digit activity ledger: what its increments mean, how its digits are read back as text,
    and which entries the digit tests let through. */
module Collator {
  import opened Text

  const SEED := 999_000_000_000_000
  const TRIGGER_SEED := 888_000_001_000_001

  /* ---------- increments ---------- */

  datatype LedgerStep = Enter | AuthorizeReentry | EarlyCompletion | Reenter | Continuation | Completion

  function Delta(step: LedgerStep): int {
    match step
    case Enter => -100_000_000_000_000
    case AuthorizeReentry => -10_000_000_000_000
    case EarlyCompletion => 1_000_001 - 11_000_000_000_000
    case Reenter => 1_000_000
    case Continuation => 1
    case Completion => 1 - 1_000_000_000_000
  }

  /** What the ledger counts. */
  datatype Counts = Counts(entries: nat, exits: nat, completions: nat, reentries: nat, finishes: nat) {
    function Plus(step: LedgerStep): Counts {
      match step
      case Enter => this.(entries := entries + 1)
      case AuthorizeReentry => this.(exits := exits + 1)
      case EarlyCompletion =>
        Counts(entries, exits + 1, completions + 1, reentries + 1, finishes + 1)
      case Reenter => this.(reentries := reentries + 1)
      case Continuation => this.(finishes := finishes + 1)
      case Completion => this.(completions := completions + 1, finishes := finishes + 1)
    }
  }

  const ZERO := Counts(0, 0, 0, 0, 0)

  function Encode(c: Counts): int {
    SEED - 100_000_000_000_000 * c.entries - 10_000_000_000_000 * c.exits - 1_000_000_000_000 * c.completions
    + 1_000_000 * c.reentries + c.finishes
  }

  /** The fields after the first stay within their own digits. */
  predicate FieldsFit(c: Counts) {
    c.exits <= 9 && c.completions <= 9 && c.reentries <= 999_999 && c.finishes <= 999_999
  }

  function Tally(steps: seq<LedgerStep>): Counts {
    if steps == [] then ZERO else Tally(steps[..|steps| - 1]).Plus(steps[|steps| - 1])
  }

  /** The stored number after atomic additions to a freshly seeded ledger, in whatever order they arrive. */
  function Stored(steps: seq<LedgerStep>): int {
    if steps == [] then SEED else Stored(steps[..|steps| - 1]) + Delta(steps[|steps| - 1])
  }

  lemma {:induction false} StoredEncodesTally(steps: seq<LedgerStep>)
    ensures Stored(steps) == Encode(Tally(steps))
  {
    if steps != [] {
      StoredEncodesTally(steps[..|steps| - 1]);
    }
  }

  /* ---------- reading digits as text ---------- */

  /** A JavaScript number where the code can meet null or NaN. */
  datatype Number = Null | NaN | Num(n: int)

  /** JavaScript's `a < k`: null counts as zero, NaN compares false. */
  predicate Less(a: Number, k: int) {
    match a
    case Null => 0 < k
    case NaN => false
    case Num(n) => n < k
  }

  function GetDigitAtIndex(num: int, index: int): Number {
    var s := Numeral(num);
    if index < 0 || index >= |s| then Null
    else if IsDigit(s[index]) then Num(DigitValue(s[index]))
    else NaN
  }

  function GetDimensionalIndex(num: int): Number {
    var s := Numeral(num);
    if |s| < 9 then Null else Num(NatOf(s[3..9]) - 1)
  }

  predicate IsDuplicate(num: int, index: int) {
    Less(GetDigitAtIndex(num, index), 8)
  }

  predicate IsInactive(num: int) {
    Less(GetDigitAtIndex(num, 2), 9)
  }

  datatype Leg = One | Two
  datatype Stage = EnterStage | ExitStage | ConfirmStage
  datatype Fault = Missing | Duplicate | Inactive | Invalid | Forbidden
  datatype Verdict = Pass | Fail(fault: Fault)

  predicate IsPrimed(amount: int, leg: Leg) {
    match leg
    case One => amount != -100_000_000_000_000
    case Two => Less(GetDigitAtIndex(amount, 0), 9) && Less(GetDigitAtIndex(amount, 1), 9)
  }

  function VerifyInteger(amount: int, leg: Leg, stage: Stage): Verdict {
    match (leg, stage)
    case (One, EnterStage) =>
      if !IsPrimed(amount, One) then Fail(Missing)
      else if IsDuplicate(amount, 0) then Fail(Duplicate)
      else if amount != 899_000_000_000_000 then Fail(Invalid)
      else Pass
    case (One, ExitStage) =>
      if amount == -10_000_000_000_000 then Fail(Missing)
      else if IsDuplicate(amount, 1) then Fail(Duplicate)
      else Pass
    case (Two, EnterStage) =>
      if !IsPrimed(amount, Two) then Fail(Forbidden)
      else if IsInactive(amount) then Fail(Inactive)
      else Pass
    case _ => Pass
  }

  /* ---------- the digits are an exact encoding ---------- */

  ghost predicate ReadsBack(v: int, c: Counts) {
    && |Numeral(v)| == 15
    && GetDigitAtIndex(v, 0) == Num(9 - c.entries)
    && GetDigitAtIndex(v, 1) == Num(9 - c.exits)
    && GetDigitAtIndex(v, 2) == Num(9 - c.completions)
    && GetDimensionalIndex(v) == Num(c.reentries - 1)
    && AllDigits(Numeral(v)[9..15]) && NatOf(Numeral(v)[9..15]) == c.finishes
  }

  lemma Powers()
    ensures Pow10(0) == 1 && Pow10(1) == 10 && Pow10(5) == 100_000 && Pow10(6) == 1_000_000
    ensures Pow10(11) == 100_000_000_000 && Pow10(12) == 1_000_000_000_000
    ensures Pow10(13) == 10_000_000_000_000 && Pow10(14) == 100_000_000_000_000
    ensures Pow10(15) == 1_000_000_000_000_000
  {
    assert Pow10(3) == 1000;
    assert Pow10(9) == 1_000_000_000;
  }

  lemma DigitOf(v: nat, p: nat, below: nat, above: nat, d: nat)
    requires v == p * (10 * above + d) + below && below < p && d < 10
    ensures v / p % 10 == d
  {
    QuotientUnique(v, p, 10 * above + d, below);
  }

  /** The character at `index` of a numeral of `len` digits is the one before the power `p`. */
  lemma DigitAt(v: nat, len: nat, index: nat, p: nat, below: nat, above: nat, d: nat)
    requires |Decimal(v)| == len && index < len && p == Pow10(len - 1 - index)
    requires v == p * (10 * above + d) + below && below < p && d < 10
    ensures GetDigitAtIndex(v, index) == Num(d)
  {
    DigitOf(v, p, below, above, d);
    DecimalDigit(v, index);
  }

  lemma DigitsAgree(c: Counts)
    requires FieldsFit(c) && c.entries <= 8
    ensures ReadsBack(Encode(c), c)
  {
    hide Decimal, Numeral, NatOf, Pow10, AllDigits, GetDigitAtIndex, GetDimensionalIndex;
    var v: nat := Encode(c);
    var low := 1_000_000 * c.reentries + c.finishes;
    Powers();
    DecimalLength(v, 15);
    DigitAt(v, 15, 0, 100_000_000_000_000,
            (99 - 10 * c.exits - c.completions) * 1_000_000_000_000 + low, 0, 9 - c.entries);
    DigitAt(v, 15, 1, 10_000_000_000_000, (9 - c.completions) * 1_000_000_000_000 + low, 9 - c.entries, 9 - c.exits);
    DigitAt(v, 15, 2, 1_000_000_000_000, low, 99 - 10 * c.entries - c.exits, 9 - c.completions);
    LowFields(v, c.reentries, c.finishes, 999 - 100 * c.entries - 10 * c.exits - c.completions);
  }

  lemma LowFieldsOf(v: nat, r: nat, f: nat, top: nat)
    requires r < 1_000_000 && f < 1_000_000
    requires v == top * 1_000_000_000_000 + r * 1_000_000 + f
    ensures v / 1_000_000 % 1_000_000 == r && v % 1_000_000 == f
  {
    assert v / 1_000_000 == top * 1_000_000 + r;
  }

  lemma LowFields(v: nat, r: nat, f: nat, top: nat)
    requires |Decimal(v)| == 15 && r < 1_000_000 && f < 1_000_000
    requires v == top * 1_000_000_000_000 + r * 1_000_000 + f
    ensures |Numeral(v)| == 15 && GetDimensionalIndex(v) == Num(r - 1)
    ensures AllDigits(Numeral(v)[9..15]) && NatOf(Numeral(v)[9..15]) == f
  {
    hide Decimal, NatOf, Pow10;
    LowFieldsOf(v, r, f, top);
    Powers();
    DecimalSlice(v, 3, 9);
    DecimalSlice(v, 9, 15);
  }

  lemma NegativeReadsNoDigit(v: int)
    requires v < 0
    ensures GetDigitAtIndex(v, 0) == NaN
    ensures !IsPrimed(v, Two)
  {
  }

  /** The digits, taken as characters of the printed number, give back every count exactly as long as
      at most eight leg-1 entries were attempted; a ninth shortens the number and shifts them all. */
  lemma LedgerIsExactEncoding(c: Counts)
    requires FieldsFit(c)
    ensures ReadsBack(Encode(c), c) <==> c.entries <= 8
  {
    if c.entries <= 8 {
      DigitsAgree(c);
    } else if c.entries == 9 {
      Powers();
      ShortNumeral(Encode(c), 14);
    } else {
      NegativeReadsNoDigit(Encode(c));
    }
  }

  lemma {:induction false} ShortNumeral(n: nat, len: nat)
    requires len >= 1 && n < Pow10(len)
    ensures |Decimal(n)| <= len
  {
    if n >= 10 {
      assert Pow10(1) == 10 * Pow10(0) == 10;
      ShortNumeral(n / 10, len - 1);
    }
  }

  /* ---------- the two gates ---------- */

  /** Leg 1 is let in exactly when nothing had happened to the ledger since it was seeded,
      however often entry was attempted. */
  lemma LegOneGate(before: Counts)
    requires FieldsFit(before)
    ensures VerifyInteger(Encode(before.Plus(Enter)), One, EnterStage) == Pass <==> before == ZERO
  {
    var v := Encode(before.Plus(Enter));
    if before == ZERO {
      DigitsAgree(before.Plus(Enter));
    } else {
      assert v != 899_000_000_000_000;
    }
  }

  /** Why leg 1 is turned away: a second attempt reads as a duplicate, a first attempt on a
      ledger that something else has touched reads as invalid. */
  lemma LegOneFaults(before: Counts)
    requires FieldsFit(before) && before.entries <= 7 && before != ZERO
    ensures VerifyInteger(Encode(before.Plus(Enter)), One, EnterStage)
         == Fail(if before.entries >= 1 then Duplicate else Invalid)
  {
    DigitsAgree(before.Plus(Enter));
  }

  /** The test that the end of leg 1 has at hand, though `authorizeReentry` leaves it out: the first exit passes it, a
      second one reads as a duplicate. */
  lemma LegOneExitGate(before: Counts)
    requires FieldsFit(before) && before.entries <= 8 && before.exits <= 8
    ensures VerifyInteger(Encode(before.Plus(AuthorizeReentry)), One, ExitStage)
         == if before.exits >= 1 then Fail(Duplicate) else Pass
  {
    DigitsAgree(before.Plus(AuthorizeReentry));
  }

  lemma ReenteredUnseeded()
    ensures Numeral(1_000_000) == "1000000"
  {
  }

  /** A ledger that nobody seeded: leg 1 finds it missing, leg 2 inactive, and the end of leg 1 missing again. */
  lemma UnseededLedger(stand: int)
    ensures VerifyInteger(stand + Delta(Enter), One, EnterStage) == Fail(Missing) <==> stand == 0
    ensures VerifyInteger(stand + Delta(AuthorizeReentry), One, ExitStage) == Fail(Missing) <==> stand == 0
    ensures VerifyInteger(0 + Delta(Reenter), Two, EnterStage) == Fail(Inactive)
  {
    hide Numeral;
    ReenteredUnseeded();
    assert Numeral(1_000_000)[2] == '0';
  }

  /** Leg 2 is let in exactly when leg 1 has entered and exited and the activity is not closed. */
  lemma LegTwoGate(before: Counts)
    requires FieldsFit(before) && before.entries <= 8 && before.reentries < 999_999
    ensures VerifyInteger(Encode(before.Plus(Reenter)), Two, EnterStage)
         == if before.entries == 0 || before.exits == 0 then Fail(Forbidden)
            else if before.completions >= 1 then Fail(Inactive)
            else Pass
  {
    DigitsAgree(before.Plus(Reenter));
  }

  /** A ninth leg-1 attempt shifts the digits: what was the completion digit is now a digit of the re-entry
      count. Leg 2 is then refused, but for one family of ledgers: closed, with 900000 re-entries or more. */
  lemma ShiftedLedgerGate(before: Counts)
    requires FieldsFit(before) && before.entries >= 9 && before.exits <= 8 && before.reentries < 999_999
    ensures VerifyInteger(Encode(before.Plus(Reenter)), Two, EnterStage) == Pass <==> Reopens(before)
  {
    var c := before.Plus(Reenter);
    if c.entries == 9 {
      var v: nat := Encode(c);
      Powers();
      DecimalLength(v, 14);
      ShiftedDigits(v, c);
    } else {
      NegativeReadsNoDigit(Encode(c));
    }
  }

  /** A closed ledger that leg 2 may enter again: exactly nine leg-1 attempts, and the next re-entry count begins
      with a nine. */
  predicate Reopens(before: Counts) {
    before.entries == 9 && before.exits >= 1 && before.completions >= 1 && before.reentries + 1 >= 900_000
  }

  lemma ShiftedDigits(v: nat, c: Counts)
    requires FieldsFit(c) && c.entries == 9 && c.exits <= 8 && v == Encode(c) && |Decimal(v)| == 14
    ensures GetDigitAtIndex(v, 0) == Num(9 - c.exits)
    ensures GetDigitAtIndex(v, 1) == Num(9 - c.completions)
    ensures GetDigitAtIndex(v, 2) == Num(c.reentries / 100_000)
  {
    hide Decimal, Pow10, GetDigitAtIndex;
    var high, low := c.reentries / 100_000, c.reentries % 100_000 * 1_000_000 + c.finishes;
    Powers();
    DigitAt(v, 14, 0, 10_000_000_000_000,
            (9 - c.completions) * 1_000_000_000_000 + high * 100_000_000_000 + low, 0, 9 - c.exits);
    DigitAt(v, 14, 1, 1_000_000_000_000, high * 100_000_000_000 + low, 9 - c.exits, 9 - c.completions);
    DigitAt(v, 14, 2, 100_000_000_000, low, 99 - 10 * c.exits - c.completions, high);
  }

  /** Such ledgers exist: one closed activity with nine leg-1 attempts and 900000 re-entries. */
  lemma ShiftedLedgerCanReopen()
    ensures VerifyInteger(Encode(Counts(9, 1, 1, 899_999, 1).Plus(Reenter)), Two, EnterStage) == Pass
  {
    ShiftedLedgerGate(Counts(9, 1, 1, 899_999, 1));
  }

  /** Both gates together, over any number of duplicate leg-1 deliveries. */
  predicate LegTwoOpen(c: Counts) {
    1 <= c.entries <= 8 && c.exits >= 1 && c.completions == 0
  }

  lemma LegTwoOpensExactly(before: Counts)
    requires FieldsFit(before) && before.exits <= 8 && before.reentries < 999_999
    ensures VerifyInteger(Encode(before.Plus(Reenter)), Two, EnterStage) == Pass <==>
        LegTwoOpen(before) || Reopens(before)
  {
    if before.entries <= 8 {
      LegTwoGate(before);
    } else {
      ShiftedLedgerGate(before);
    }
  }

  /* ---------- over whole histories ---------- */

  lemma {:induction false} TallyGrows(steps: seq<LedgerStep>, more: seq<LedgerStep>)
    ensures Tally(steps).entries <= Tally(steps + more).entries
    ensures Tally(steps).completions <= Tally(steps + more).completions
    ensures Tally(steps).reentries <= Tally(steps + more).reentries
    decreases |more|
  {
    if more == [] {
      assert steps + more == steps;
    } else {
      TallyGrows(steps, more[..|more| - 1]);
      assert (steps + more)[..|steps + more| - 1] == steps + more[..|more| - 1];
    }
  }

  /** Leg 1 passes at most once per seeding: any later attempt of the same history is refused. */
  lemma LegOnePassesOnce(steps: seq<LedgerStep>, more: seq<LedgerStep>)
    requires FieldsFit(Tally(steps + [Enter] + more))
    ensures VerifyInteger(Stored(steps + [Enter] + more + [Enter]), One, EnterStage) != Pass
  {
    var all := steps + [Enter] + more;
    TallyGrows(steps + [Enter], more);
    assert (steps + [Enter])[..|steps|] == steps;
    assert Tally(steps + [Enter]).entries >= 1;
    StoredEncodesTally(all + [Enter]);
    assert (all + [Enter])[..|all|] == all;
    LegOneGate(Tally(all));
  }

  /** Once a closing step is in the history, leg 1 is never let in again, and leg 2 exactly on the ledgers that
      reopen. */
  lemma ClosedStaysClosed(steps: seq<LedgerStep>, closing: LedgerStep, more: seq<LedgerStep>)
    requires closing.Completion? || closing.EarlyCompletion?
    requires var c := Tally(steps + [closing] + more);
             FieldsFit(c) && c.exits <= 8 && c.reentries < 999_999
    ensures VerifyInteger(Stored(steps + [closing] + more + [Enter]), One, EnterStage) != Pass
    ensures VerifyInteger(Stored(steps + [closing] + more + [Reenter]), Two, EnterStage) == Pass
       <==> Reopens(Tally(steps + [closing] + more))
  {
    var all := steps + [closing] + more;
    TallyGrows(steps + [closing], more);
    assert (steps + [closing])[..|steps|] == steps;
    assert Tally(all).completions >= 1;
    StoredEncodesTally(all + [Enter]);
    StoredEncodesTally(all + [Reenter]);
    assert (all + [Enter])[..|all|] == all && (all + [Reenter])[..|all|] == all;
    LegOneGate(Tally(all));
    LegTwoOpensExactly(Tally(all));
  }

  /** Ending an activity in its first leg leaves the ledger as leg-1 exit, re-entry and completion would. */
  lemma EarlyCompletionIsThreeSteps(steps: seq<LedgerStep>)
    ensures Stored(steps + [EarlyCompletion]) == Stored(steps + [AuthorizeReentry, Reenter, Completion])
    ensures Tally(steps + [EarlyCompletion]) == Tally(steps + [AuthorizeReentry, Reenter, Completion])
  {
    var a := steps + [AuthorizeReentry];
    var b := steps + [AuthorizeReentry, Reenter];
    var c := steps + [AuthorizeReentry, Reenter, Completion];
    assert a[..|a| - 1] == steps && b[..|b| - 1] == a && c[..|c| - 1] == b;
    assert (steps + [EarlyCompletion])[..|steps|] == steps;
    assert Tally(b) == Tally(steps).Plus(AuthorizeReentry).Plus(Reenter);
    assert Stored(b) == Stored(steps) + Delta(AuthorizeReentry) + Delta(Reenter);
  }

  /* ---------- dimensional addresses ---------- */

  /** Two re-entries of one history are told different dimensional indexes. */
  lemma ReentriesGetDifferentIndexes(steps: seq<LedgerStep>, more: seq<LedgerStep>)
    requires var c := Tally(steps + [Reenter] + more + [Reenter]);
             FieldsFit(c) && c.entries <= 8
    requires var c := Tally(steps + [Reenter]); FieldsFit(c) && c.entries <= 8
    ensures var first, second := GetDimensionalIndex(Stored(steps + [Reenter])),
                                 GetDimensionalIndex(Stored(steps + [Reenter] + more + [Reenter]));
            first.Num? && second.Num? && 0 <= first.n < second.n
  {
    var once, middle := steps + [Reenter], steps + [Reenter] + more;
    TallyGrows(once, more);
    assert once[..|steps|] == steps;
    assert (middle + [Reenter])[..|middle|] == middle;
    StoredEncodesTally(once);
    StoredEncodesTally(middle + [Reenter]);
    DigitsAgree(Tally(once));
    DigitsAgree(Tally(middle + [Reenter]));
  }

  /** A dimensional address: each generation appends `,index` to its parent's address. */
  function Address(path: seq<nat>): string {
    if path == [] then "" else Address(path[..|path| - 1]) + "," + Decimal(path[|path| - 1])
  }

  lemma LastCommaSplits(a: string, d: string, b: string, e: string)
    requires AllDigits(d) && AllDigits(e) && a + "," + d == b + "," + e
    ensures a == b && d == e
  {
    var s := a + "," + d;
    assert forall i :: |a| < i < |s| ==> s[i] == d[i - |a| - 1] && IsDigit(s[i]);
    assert forall i :: |b| < i < |s| ==> s[i] == e[i - |b| - 1] && IsDigit(s[i]);
    assert s[|a|] == ',' && s[|b|] == ',';
    assert |a| == |b|;
    assert a == s[..|a|] == b && d == s[|a| + 1..] == e;
  }

  /** Addresses are unambiguous: equal text means the same index at every generation. */
  lemma {:induction false} AddressInjective(p: seq<nat>, q: seq<nat>)
    requires Address(p) == Address(q)
    ensures p == q
  {
    assert p == [] <==> q == [];
    if p != [] {
      var i, j := |p| - 1, |q| - 1;
      assert Address(p) == Address(p[..i]) + "," + Decimal(p[i]);
      assert Address(q) == Address(q[..j]) + "," + Decimal(q[j]);
      hide Address, Decimal;
      LastCommaSplits(Address(p[..i]), Decimal(p[i]), Address(q[..j]), Decimal(q[j]));
      AddressInjective(p[..i], q[..j]);
      DecimalInjective(p[i], q[j]);
      assert p == p[..i] + [p[i]] && q == q[..j] + [q[j]];
    }
  }

  /** The addresses given to the children of two re-entries of one activity never clash. */
  lemma ChildAddressesDiffer(steps: seq<LedgerStep>, more: seq<LedgerStep>, dad: seq<nat>)
    requires var c := Tally(steps + [Reenter] + more + [Reenter]);
             FieldsFit(c) && c.entries <= 8
    requires var c := Tally(steps + [Reenter]); FieldsFit(c) && c.entries <= 8
    ensures var first, second := GetDimensionalIndex(Stored(steps + [Reenter])),
                                 GetDimensionalIndex(Stored(steps + [Reenter] + more + [Reenter]));
            && first.Num? && second.Num? && first.n >= 0 && second.n >= 0
            && Address(dad) + "," + Numeral(first.n) != Address(dad) + "," + Numeral(second.n)
  {
    ReentriesGetDifferentIndexes(steps, more);
    var first := GetDimensionalIndex(Stored(steps + [Reenter])).n;
    var second := GetDimensionalIndex(Stored(steps + [Reenter] + more + [Reenter])).n;
    assert (dad + [first])[..|dad|] == dad && (dad + [second])[..|dad|] == dad;
    assert (dad + [first])[|dad|] != (dad + [second])[|dad|];
    if Address(dad + [first]) == Address(dad + [second]) {
      AddressInjective(dad + [first], dad + [second]);
    }
  }
}
