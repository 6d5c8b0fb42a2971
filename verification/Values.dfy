/** How a value becomes the text of one hash field, and back: type tags, and symbols for common values. */
module Values {
  import opened Options
  import opened Symbols
  import opened Text

  /** A JavaScript value as far as the serializer tells values apart. An object is given by its JSON text. */
  datatype Value =
    | Undefined
    | Null
    | Bool(b: bool)
    | Num(n: int)
    | NotInteger(text: string)   // what Number(text) gives for a text that is no integer numeral
    | Obj(json: string)
    | Str(s: string)

  /** Symbol to value. */
  type Table = map<string, string>

  /* ---------- typed values as tagged text ---------- */

  function ToString(v: Value): Option<string> {
    match v
    case Undefined => None
    case Null => Some("/n")
    case Bool(b) => Some(if b then "/t" else "/f")
    case Num(n) => Some("/d" + Numeral(n))
    case NotInteger(text) => Some("/d" + text)
    case Obj(json) => Some("/s" + json)
    case Str(s) => Some(s)
  }

  predicate HasTag(s: string, tag: char) {
    |s| >= 2 && s[0] == '/' && s[1] == tag
  }

  predicate IsTagged(s: string) {
    |s| >= 2 && s[0] == '/' && s[1] in {'t', 'f', 'd', 'n', 's'}
  }

  function Number(text: string): Value {
    if IsNumeral(text) then Num(IntOf(text)) else NotInteger(text)
  }

  function FromString(s: string): Value {
    if HasTag(s, 't') then Bool(true)
    else if HasTag(s, 'f') then Bool(false)
    else if HasTag(s, 'd') then Number(s[2..])
    else if HasTag(s, 'n') then Null
    else if HasTag(s, 's') then Obj(s[2..])
    else Str(s)
  }

  /** Number texts are written back as they were read. */
  predicate WellFormed(v: Value) {
    v.NotInteger? ==> !IsNumeral(v.text)
  }

  /** The values that survive: everything but the empty string and strings that look tagged. */
  predicate Storable(v: Value) {
    v.Str? ==> v.s != "" && !IsTagged(v.s)
  }

  lemma TagRoundTrip(v: Value)
    requires WellFormed(v) && !v.Undefined?
    ensures FromString(ToString(v).value) == v <==> (v.Str? ==> !IsTagged(v.s))
  {
    if v.Num? {
      IntOfNumeral(v.n);
      assert ToString(v).value[2..] == Numeral(v.n);
    } else if v.NotInteger? {
      assert ToString(v).value[2..] == v.text;
    } else if v.Obj? {
      assert ToString(v).value[2..] == v.json;
    }
  }

  /* ---------- symbols for common values ---------- */

  /** Two letters behind at least `least` colons, and nothing else. */
  predicate IsColonPair(s: string, least: nat) {
    |s| >= 2 + least && IsLetter(s[|s| - 2]) && IsLetter(s[|s| - 1])
    && forall i :: 0 <= i < |s| - 2 ==> s[i] == ':'
  }

  /** A reverse table names, for each value, one of its symbols. */
  ghost predicate Reverses(reverse: Table, table: Table) {
    && (forall v {:trigger v in reverse} :: v in reverse ==> reverse[v] in table && table[reverse[v]] == v)
    && (forall symbol {:trigger symbol in table} :: symbol in table ==> table[symbol] in reverse)
  }

  /** Every symbol is two letters. */
  ghost predicate SymbolsOnly(table: Table) {
    forall symbol {:trigger symbol in table} :: symbol in table ==> IsSymVal(symbol)
  }

  function Abbreviate(text: string, reverse: Table): string {
    if IsColonPair(text, 0) then ":" + text
    else if text in reverse then reverse[text]
    else text
  }

  /** A field's text back to its value. */
  function Restore(text: string, table: Table): Value {
    if IsColonPair(text, 1) then Str(text[1..])
    else if |text| == 2 && text in table then FromString(table[text])
    else FromString(text)
  }

  /** What `stringify` stores for a value; None when the field is left out. */
  function Field(v: Value, reverse: Table): Option<string> {
    match ToString(v)
    case None => None
    case Some(text) => if text == "" then None else Some(Abbreviate(text, reverse))
  }

  /** What `parse` makes of a field; an absent one reads as undefined. */
  function Read(field: Option<string>, table: Table): Value {
    match field
    case None => Undefined
    case Some(text) => Restore(text, table)
  }

  lemma RestoreAbbreviated(text: string, table: Table, reverse: Table)
    requires Reverses(reverse, table) && SymbolsOnly(table)
    ensures IsColonPair(text, 0) ==> Restore(Abbreviate(text, reverse), table) == Str(text)
    ensures !IsColonPair(text, 0) ==> Restore(Abbreviate(text, reverse), table) == FromString(text)
  {
    var field := Abbreviate(text, reverse);
    if IsColonPair(text, 0) {
      assert field[1..] == text;
      assert IsColonPair(field, 1) by {
        forall i | 0 <= i < |field| - 2 ensures field[i] == ':' {
          assert i > 0 ==> field[i] == text[i - 1];
        }
      }
    } else if text in reverse {
      assert IsSymVal(field);
    } else if |text| == 2 && text in table {
      assert IsSymVal(text);
      assert IsColonPair(text, 0);
    }
  }

  /** Writing a value and reading it back gives the value, exactly for the storable ones. */
  lemma FieldRoundTrip(v: Value, table: Table, reverse: Table)
    requires Reverses(reverse, table) && SymbolsOnly(table) && WellFormed(v)
    ensures Read(Field(v, reverse), table) == v <==> Storable(v)
  {
    if !v.Undefined? && ToString(v).value != "" {
      var text := ToString(v).value;
      RestoreAbbreviated(text, table, reverse);
      TagRoundTrip(v);
      if IsColonPair(text, 0) {
        assert IsLetter(text[|text| - 2]) && text[0] != '/';
        assert v.Str?;
      }
    }
  }

  /* ---------- the table of common values ---------- */

  /** The symbols in use are exactly the first |table| ones. */
  ghost predicate Numbered(table: Table) {
    && |table| <= VAL_LIMIT
    && (forall i {:trigger GetSymVal(i)} :: 0 <= i < |table| ==> GetSymVal(i).value in table)
    && (forall symbol {:trigger symbol in table} :: symbol in table ==>
        IsSymVal(symbol) && SymValIndex(symbol) < |table|)
  }

  predicate SameValue(table: Table, a: string, b: string) {
    a in table && b in table && table[a] == table[b]
  }

  /** No value has two symbols. */
  ghost predicate Injective(table: Table) {
    forall a, b {:trigger SameValue(table, a, b)} :: SameValue(table, a, b) ==> a == b
  }

  ghost predicate HasValue(table: Table, v: string) {
    exists a :: a in table && table[a] == v
  }

  /** `known` is the set of the table's values. */
  ghost predicate Knows(known: set<string>, table: Table) {
    && (forall a {:trigger a in table} :: a in table ==> table[a] in known)
    && (forall v {:trigger v in known} :: v in known ==> HasValue(table, v))
  }

  /** Numbers the values that have no symbol yet, from `start` on, while there are symbols left. */
  function FilterSymVals(proposed: seq<string>, start: nat, max: int, known: set<string>, added: Table): Table {
    if |proposed| == 0 then added
    else if proposed[0] in known then FilterSymVals(proposed[1..], start, max, known, added)
    else if start > max then added
    else match GetSymVal(start)
      case None => added
      case Some(symbol) =>
        FilterSymVals(proposed[1..], start + 1, max, known + {proposed[0]}, added[symbol := proposed[0]])
  }

  /** The same count over the whole table. */
  ghost function Extended(proposed: seq<string>, table: Table, known: set<string>): Table {
    if |proposed| == 0 then table
    else if proposed[0] in known then Extended(proposed[1..], table, known)
    else if |table| >= VAL_LIMIT then table
    else Extended(proposed[1..], table[GetSymVal(|table|).value := proposed[0]], known + {proposed[0]})
  }

  predicate SumAt(table: Table, existing: Table, added: Table, a: string) {
    && (a in table <==> a in existing || a in added)
    && (a in added ==> table[a] == added[a])
    && (a in existing && a !in added ==> table[a] == existing[a])
  }

  lemma {:induction false} FilterExtendsAt(proposed: seq<string>, existing: Table, added: Table, table: Table,
      known: set<string>, a: string)
    requires Numbered(table) && SumAt(table, existing, added, a)
    ensures SumAt(Extended(proposed, table, known), existing,
        FilterSymVals(proposed, |table|, VAL_LIMIT - 1, known, added), a)
    decreases |proposed|
  {
    hide GetSymVal, Numbered;
    if |proposed| == 0 {
    } else if proposed[0] in known {
      FilterExtendsAt(proposed[1..], existing, added, table, known, a);
    } else {
      var next := GetSymVal(|table|);
      SymbolsLeft(table);
      if next.Some? {
        var value := proposed[0];
        PutNumbered(table, value);
        FilterExtendsAt(proposed[1..], existing, added[next.value := value], table[next.value := value],
            known + {value}, a);
        FilterUnfolds(proposed, |table|, known, added, next.value);
      }
    }
  }

  lemma SumsEverywhere(table: Table, existing: Table, added: Table)
    requires forall a {:trigger SumAt(table, existing, added, a)} :: SumAt(table, existing, added, a)
    ensures existing + added == table
  {
    var sum := existing + added;
    forall a ensures (a in sum <==> a in table) && (a in sum ==> sum[a] == table[a]) {
      assert SumAt(table, existing, added, a);
    }
  }

  lemma FilterExtends(proposed: seq<string>, existing: Table, known: set<string>)
    requires Numbered(existing)
    ensures existing + FilterSymVals(proposed, |existing|, VAL_LIMIT - 1, known, map[]) == Extended(proposed, existing,
        known)
  {
    hide Numbered, FilterSymVals, Extended;
    var added := FilterSymVals(proposed, |existing|, VAL_LIMIT - 1, known, map[]);
    var table := Extended(proposed, existing, known);
    forall a ensures SumAt(table, existing, added, a) {
      FilterExtendsAt(proposed, existing, map[], existing, known, a);
    }
    SumsEverywhere(table, existing, added);
  }

  lemma SymbolsLeft(table: Table)
    requires Numbered(table)
    ensures GetSymVal(|table|).Some? <==> |table| < VAL_LIMIT
  {
  }

  lemma FilterUnfolds(proposed: seq<string>, start: nat, known: set<string>, added: Table, symbol: string)
    requires |proposed| > 0 && proposed[0] !in known && GetSymVal(start) == Some(symbol)
    ensures FilterSymVals(proposed, start, VAL_LIMIT - 1, known, added)
         == FilterSymVals(proposed[1..], start + 1, VAL_LIMIT - 1, known + {proposed[0]}, added[symbol := proposed[0]])
  {
  }

  lemma PutNumbered(table: Table, value: string)
    requires Numbered(table) && |table| < VAL_LIMIT
    ensures var symbol := GetSymVal(|table|).value;
      symbol !in table && |table[symbol := value]| == |table| + 1 && Numbered(table[symbol := value])
  {
    var n := |table|;
    var symbol := GetSymVal(n).value;
    SymValRoundTrip(n);
    hide GetSymVal, SymValIndex;
    assert symbol !in table;
    var table' := table[symbol := value];
    assert table'.Keys == table.Keys + {symbol};
    forall i | 0 <= i < n + 1 ensures GetSymVal(i).value in table' {
      assert i < n ==> GetSymVal(i).value in table;
    }
  }

  lemma PutInjective(table: Table, symbol: string, value: string, known: set<string>)
    requires Injective(table) && Knows(known, table) && symbol !in table && value !in known
    ensures Injective(table[symbol := value]) && Knows(known + {value}, table[symbol := value])
  {
    var table' := table[symbol := value];
    forall a, b | SameValue(table', a, b) ensures a == b {
      assert a == symbol || table[a] in known;
      assert b == symbol || table[b] in known;
      assert a == symbol || b == symbol || SameValue(table, a, b);
    }
    forall v | v in known + {value} ensures HasValue(table', v) {
      if v == value {
        assert table'[symbol] == v;
      } else {
        assert HasValue(table, v);
        var a :| a in table && table[a] == v;
        assert table'[a] == v;
      }
    }
  }

  /** The table keeps what it had, and fills up: it ends full or with a symbol for every value proposed. */
  ghost predicate Grown(table: Table, proposed: seq<string>, table': Table) {
    && (forall a {:trigger a in table} :: a in table ==> a in table' && table'[a] == table[a])
    && (|table'| == VAL_LIMIT || forall v {:trigger v in proposed} :: v in proposed ==> HasValue(table', v))
  }

  lemma {:induction false} ExtendedKeeps(proposed: seq<string>, table: Table, known: set<string>)
    requires Numbered(table) && Injective(table) && Knows(known, table)
    ensures var table' := Extended(proposed, table, known);
      Numbered(table') && Injective(table') && Grown(table, proposed, table')
    decreases |proposed|
  {
    hide Injective;
    if |proposed| == 0 {
    } else if proposed[0] in known {
      ExtendedKeeps(proposed[1..], table, known);
      assert HasValue(table, proposed[0]);
      GrownFirst(proposed, table, table, Extended(proposed[1..], table, known));
    } else if |table| < VAL_LIMIT {
      var symbol := GetSymVal(|table|).value;
      var next := table[symbol := proposed[0]];
      PutNumbered(table, proposed[0]);
      PutInjective(table, symbol, proposed[0], known);
      ExtendedKeeps(proposed[1..], next, known + {proposed[0]});
      assert next[symbol] == proposed[0];
      GrownFirst(proposed, table, next, Extended(proposed[1..], next, known + {proposed[0]}));
    }
  }

  lemma GrownFirst(proposed: seq<string>, table: Table, next: Table, table': Table)
    requires |proposed| > 0 && HasValue(next, proposed[0]) && Grown(next, proposed[1..], table')
    requires forall a {:trigger a in table} :: a in table ==> a in next && next[a] == table[a]
    ensures Grown(table, proposed, table')
  {
    var a :| a in next && next[a] == proposed[0];
    assert table'[a] == proposed[0];
    forall v | v in proposed ensures v == proposed[0] || v in proposed[1..] {
      assert proposed == [proposed[0]] + proposed[1..];
    }
  }

  /** The tables that deployments build, each from the one before and the values its schemas propose. */
  ghost function Built(deployments: seq<seq<string>>): Table {
    if |deployments| == 0 then map[] else
      var before := Built(deployments[..|deployments| - 1]);
      before + FilterSymVals(deployments[|deployments| - 1], |before|, VAL_LIMIT - 1, before.Values, map[])
  }

  lemma DeploymentKeepsTable(before: Table, proposed: seq<string>)
    requires Numbered(before) && Injective(before)
    ensures var after := before + FilterSymVals(proposed, |before|, VAL_LIMIT - 1, before.Values, map[]);
      Numbered(after) && Injective(after) && Grown(before, proposed, after)
  {
    hide Numbered, Injective, Grown;
    KnowsItsValues(before);
    FilterExtends(proposed, before, before.Values);
    ExtendedKeeps(proposed, before, before.Values);
  }

  /** Every such table uses exactly the first symbols, each for another value, and never drops or moves one. */
  lemma {:induction false} BuiltTablesAreSound(deployments: seq<seq<string>>)
    ensures Numbered(Built(deployments)) && Injective(Built(deployments))
    ensures |deployments| > 0 ==>
      Grown(Built(deployments[..|deployments| - 1]), deployments[|deployments| - 1], Built(deployments))
  {
    if |deployments| > 0 {
      hide Numbered, Injective, Grown;
      BuiltTablesAreSound(deployments[..|deployments| - 1]);
      DeploymentKeepsTable(Built(deployments[..|deployments| - 1]), deployments[|deployments| - 1]);
    } else {
      assert Built(deployments) == map[];
    }
  }

  lemma KnowsItsValues(table: Table)
    ensures Knows(table.Values, table)
  {
    forall v | v in table.Values ensures HasValue(table, v) {
    }
  }
}
