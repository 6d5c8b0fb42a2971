/** The store's operations on one job's hash. Beside the hash stands the plain map its callers believe in. */
module StateStore {
  import opened Options
  import Symbols
  import Text
  import Values
  import opened Compression
  import opened Serializer
  import opened JobState

  type Plain = map<string, Values.Value>

  ghost function PlainOf(cells: map<string, Cell>): Plain {
    map p | p in cells :: cells[p].value
  }

  /** What a plain map would take from a write: every field with a value, but the status path. */
  function Effect(state: Document): Plain {
    map p | p in state && p != "metadata/js" && !state[p].Undefined? :: state[p]
  }

  predicate StatusOk(hash: Doc) {
    ":" in hash ==> Text.IsNumeral(hash[":"])
  }

  function Status(hash: Doc): int
    requires StatusOk(hash)
  {
    if ":" in hash then Text.IntOf(hash[":"]) else 0
  }

  predicate HasText(hash: Doc, f: string) {
    f in hash && hash[f] != ""
  }

  class JobStateStore {
    const tables: Tables
    const symVals: Values.Table
    const names: set<string>     // the symbol sets this job's activities use
    const serializer: SerializerService
    var hash: Doc
    ghost var cells: map<string, Cell>

    ghost predicate Valid()
      reads this, serializer
    {
      && AppSound(tables) && Coherent(tables, names) && Values.SymbolsOnly(symVals)
      && serializer.Valid() && StatusOk(hash)
      && Represents(tables, names, symVals, hash, cells)
    }

    constructor (tables: Tables, symVals: Values.Table, names: set<string>)
      requires AppSound(tables) && Coherent(tables, names) && Values.SymbolsOnly(symVals)
      ensures Valid() && hash == map[] && cells == map[] && fresh(serializer)
      ensures this.tables == tables && this.symVals == symVals && this.names == names
    {
      this.tables, this.symVals, this.names := tables, symVals, names;
      serializer := new SerializerService();
      hash, cells := map[], map[];
    }

    method GetSymbolKeys(ids: seq<string>) returns (symKeys: map<string, SymbolMap>)
      ensures symKeys == SymKeys(tables, ids)
    {
      symKeys := map[];
      var i := 0;
      while i < |ids|
        invariant 0 <= i <= |ids|
        invariant symKeys == SymKeys(tables, ids[..i])
      {
        symKeys := symKeys[ids[i] := if ids[i] in tables then tables[ids[i]] else map[]];
        assert ids[..i + 1] == ids[..i] + [ids[i]];
        i := i + 1;
      }
      assert ids[..i] == ids;
    }

    /** Writes part of the state. The plain map takes exactly the fields written. */
    method SetState(state: Document, status: Option<int>, symbolNames: seq<string>)
      requires Valid() && forall id :: id in symbolNames ==> id in names
      requires forall p {:trigger p in state} :: p in state && p != "metadata/js" ==>
        Covered(tables, symbolNames, p) && Writable(tables, state[p])
      modifies this, serializer
      ensures Valid() && PlainOf(cells) == old(PlainOf(cells)) + Effect(state)
      ensures Status(hash) == if status.Some? then status.value else old(Status(hash))
      ensures ":" in hash <==> status.Some? || ":" in old(hash)
      ensures forall p {:trigger p in cells} :: p in cells ==>
        cells[p].writer == symbolNames || (p in old(cells) && cells[p] == old(cells)[p])
      ensures forall p {:trigger p in state} :: p in state && p != "metadata/js" && state[p] != Values.Undefined ==>
        p in PlainOf(cells) && PlainOf(cells)[p] == state[p]
      ensures forall p {:trigger p in PlainOf(cells)} :: p in PlainOf(cells) <==>
        p in old(PlainOf(cells)) || (p in state && p != "metadata/js" && state[p] != Values.Undefined)
    {
      hide Represents, AppSound, Coherent, Ready, IsRenamed, SymKeys, Writable, Covered, Stringified, PlainOf;
      var body := state - {"metadata/js"};
      var symKeys := GetSymbolKeys(symbolNames);
      serializer.ResetSymbols(symKeys, symVals);
      ghost var reverse := serializer.symValReverseMaps;
      ghost var flat;
      var hashData;
      hashData, flat := serializer.Package(body, symbolNames);
      FlatIsWritten(tables, names, symVals, reverse, body, flat, symbolNames);
      ghost var data := hashData;
      if status.Some? {
        hashData := hashData[":" := Text.Numeral(status.value)];
        Text.IntOfNumeral(status.value);
      } else {
        hashData := hashData - {":"};
      }
      ghost var before := hash;
      hash := hash + hashData;
      WriteRepresents(tables, names, symVals, before, cells, body, flat, data, symbolNames, hash);
      EffectIs(state, body, flat, cells, symbolNames);
      cells := cells + Written(body, flat, symbolNames);
    }

    /** The fields a reader fetches: the status first, then one for each path it consumes. */
    method FieldsOf(consumes: map<string, seq<string>>, symbolNames: seq<string>, symKeys: map<string, SymbolMap>)
      returns (fields: seq<string>)
      requires symKeys == SymKeys(tables, symbolNames) && forall n :: n in symbolNames <==> n in consumes
      ensures forall f {:trigger f in fields} {:trigger Fetched(tables, consumes, f)} :: f in fields <==>
          Fetched(tables, consumes, f)
    {
      fields := [":"];
      var i := 0;
      while i < |symbolNames|
        invariant 0 <= i <= |symbolNames| && ":" in fields
        invariant forall f {:trigger f in fields} :: f in fields ==> Fetched(tables, consumes, f)
        invariant forall a, p {:trigger FieldName(tables, symbolNames[a], p)} ::
          0 <= a < i && p in consumes[symbolNames[a]] ==> FieldName(tables, symbolNames[a], p) in fields
      {
        var name := symbolNames[i];
        var symbolSet, symbolPaths := symKeys[name], consumes[name];
        ghost var before := fields;
        var j := 0;
        while j < |symbolPaths|
          invariant 0 <= j <= |symbolPaths| && forall f :: f in before ==> f in fields
          invariant forall f {:trigger f in fields} :: f in fields ==> Fetched(tables, consumes, f)
          invariant forall b {:trigger symbolPaths[b]} :: 0 <= b < j ==>
              FieldName(tables, name, symbolPaths[b]) in fields
        {
          var path := symbolPaths[j];
          var field := if path in symbolSet then symbolSet[path] else path;
          assert field == FieldName(tables, name, path);
          assert Names(tables, name, path) || !Names(tables, name, path);
          assert Fetched(tables, consumes, field);
          fields := fields + [field];
          j := j + 1;
        }
        i := i + 1;
      }
      forall f | Fetched(tables, consumes, f) ensures f in fields {
        if f != ":" {
          var n, p :| n in consumes && p in consumes[n] && f == FieldName(tables, n, p);
          var a :| 0 <= a < |symbolNames| && symbolNames[a] == n;
          assert FieldName(tables, symbolNames[a], p) in fields;
        }
      }
    }

    /** The fields that exist, and whether any of them has a text. */
    method HMGet(fields: seq<string>) returns (jobData: Doc, atLeast1: bool)
      ensures forall f {:trigger f in jobData} :: f in jobData <==> f in fields && f in hash
      ensures forall f {:trigger f in jobData} :: f in jobData ==> jobData[f] == hash[f]
      ensures atLeast1 <==> exists f {:trigger HasText(hash, f)} :: f in fields && HasText(hash, f)
    {
      jobData, atLeast1 := map[], false;
      var i := 0;
      while i < |fields|
        invariant 0 <= i <= |fields|
        invariant forall f {:trigger f in jobData} :: f in jobData <==> f in fields[..i] && f in hash
        invariant forall f {:trigger f in jobData} :: f in jobData ==> jobData[f] == hash[f]
        invariant atLeast1 <==> exists f {:trigger HasText(hash, f)} :: f in fields[..i] && HasText(hash, f)
      {
        var field := fields[i];
        assert fields[..i + 1] == fields[..i] + [field];
        if field in hash {
          if hash[field] != "" {
            assert HasText(hash, field);
            atLeast1 := true;
          }
          jobData := jobData[field := hash[field]];
        }
        i := i + 1;
      }
      assert fields[..i] == fields;
    }

    /** Reads part of the state. Each path consumed from a set that names it reads as the plain map has it. */
    method GetState(consumes: map<string, seq<string>>, symbolNames: seq<string>)
      returns (result: Option<(Document, int)>)
      requires Valid() && (forall n :: n in symbolNames <==> n in consumes)
      requires RequestOk(tables, names, symbolNames, consumes) && AllReadable(tables, symbolNames, consumes, cells)
      modifies serializer
      ensures Valid() && (result.None? ==> ":" !in hash)
      ensures result.Some? ==> result.value.1 == Status(hash)
      ensures result.Some? ==> forall n, p {:trigger Consumed(tables, consumes, n, p)} ::
        Consumed(tables, consumes, n, p) && p != "metadata/js" ==>
            Value(result.value.0, p) == ReadPlain(PlainOf(cells), p)
      ensures result.Some? && ":" in hash ==> Value(result.value.0, "metadata/js") == Values.Num(Status(hash))
    {
      hide Represents, AppSound, Coherent, Ready, IsShortened, SymKeys, RequestOk, AllReadable, Fetched;
      var symKeys := GetSymbolKeys(symbolNames);
      var fields := FieldsOf(consumes, symbolNames, symKeys);
      assert Fetched(tables, consumes, ":") by {
        FetchesStatus(tables, consumes);
      }
      var jobData, atLeast1 := HMGet(fields);
      if !atLeast1 {
        assert !HasText(hash, ":");
        return None;
      }
      serializer.ResetSymbols(symKeys, symVals);
      ghost var texts := FetchedTexts(tables, consumes, cells, hash);
      ghost var names' := FetchedNames(tables, consumes, cells, hash);
      StatusTextIsNoSymbol(tables, hash);
      FetchIsShortened(tables, names, symVals, hash, cells, symbolNames, consumes, jobData);
      var state := serializer.Unpackage(jobData, symbolNames, texts, names');
      ReadsPlain(tables, names, symVals, hash, cells, consumes, state);
      ghost var parsed := state;
      var status := 0;
      if ":" in state && state[":"].Str? {
        status := Text.IntOf(state[":"].s);
        state := state["metadata/js" := Values.Num(status)];
        state := state - {":"};
      }
      ReadsBesideStatus(tables, consumes, PlainOf(cells), parsed, status, state);
      result := Some((state, status));
    }

    /** Creates the job, unless it exists. */
    method SetStateNX() returns (created: bool)
      requires Valid()
      modifies this`hash
      ensures Valid() && created == (":" !in old(hash))
      ensures hash == if created then old(hash)[":" := "1"] else old(hash)
    {
      created := ":" !in hash;
      if created {
        ghost var before := hash;
        hash := hash[":" := "1"];
        OtherFieldsStay(tables, names, symVals, before, cells, hash);
      }
    }

    /** HINCRBYFLOAT on the status. */
    method SetStatus(amount: int) returns (status: int)
      requires Valid()
      modifies this`hash
      ensures Valid() && status == Status(hash) == old(Status(hash)) + amount && hash.Keys == old(hash.Keys) + {":"}
    {
      ghost var before := hash;
      var was := if ":" in hash then Text.IntOf(hash[":"]) else 0;
      status := was + amount;
      hash := hash[":" := Text.Numeral(status)];
      Text.IntOfNumeral(status);
      OtherFieldsStay(tables, names, symVals, before, cells, hash);
    }

    /** HINCRBYFLOAT on an activity's ledger: the very field under which the ledger's path is written and read. */
    method Collate(activityId: string, amount: int) returns (value: int)
      requires Valid() && activityId in names && Names(tables, activityId, LedgerPath(activityId))
      requires NumeralsApart(tables, symVals) && IsLedger(PlainOf(cells), LedgerPath(activityId))
      modifies this, serializer
      ensures Valid() && value == old(Ledger(PlainOf(cells), LedgerPath(activityId))) + amount
      ensures PlainOf(cells) == old(PlainOf(cells))[LedgerPath(activityId) := Values.Str(Text.Numeral(value))]
      ensures Status(hash) == old(Status(hash))
    {
      hide Represents, AppSound, Coherent, Ready, IsRenamed, SymKeys, NumeralsApart, Stringified, PlainOf, Text.Numeral;
      var collationKey := LedgerPath(activityId);
      var symKeys := GetSymbolKeys([activityId]);
      serializer.ResetSymbols(symKeys, symVals);
      ghost var reverse := serializer.symValReverseMaps;
      var payload: Document := map[collationKey := Values.Str(Text.Numeral(amount))];
      ghost var flat;
      var hashData;
      hashData, flat := serializer.Package(payload, [activityId]);
      LedgerTarget(tables, names, symVals, reverse, activityId, amount, flat, hashData);
      var targetId :| targetId in hashData;
      LedgerField(tables, names, symVals, hash, cells, activityId);
      var was := if targetId in hash then Text.IntOf(hash[targetId]) else 0;
      value := was + amount;
      ghost var before := hash;
      hash := hash[targetId := Text.Numeral(value)];
      Text.IntOfNumeral(value);
      LedgerWritten(tables, names, symVals, before, cells, activityId, Text.Numeral(value));
      PlainPut(cells, collationKey, Cell(Values.Str(Text.Numeral(value)), Text.Numeral(value), []));
      cells := cells[collationKey := Cell(Values.Str(Text.Numeral(value)), Text.Numeral(value), [])];
    }
  }

  lemma PlainPut(cells: map<string, Cell>, p: string, cell: Cell)
    ensures PlainOf(cells[p := cell]) == PlainOf(cells)[p := cell.value]
  {
  }

  function LedgerPath(activityId: string): string {
    activityId + "/output/metadata/as"
  }

  /** The path holds a numeral, or nothing yet. */
  predicate IsLedger(plain: Plain, p: string) {
    p in plain ==> plain[p].Str? && Text.IsNumeral(plain[p].s)
  }

  function Ledger(plain: Plain, p: string): int
    requires IsLedger(plain, p)
  {
    if p in plain then Text.IntOf(plain[p].s) else 0
  }

  /** Neither a path nor a common value is spelled like a number. */
  ghost predicate NumeralsApart(tables: Tables, symVals: Values.Table) {
    && (forall n, p {:trigger Names(tables, n, p)} :: Names(tables, n, p) ==> !Text.IsNumeral(p))
    && (forall a {:trigger a in symVals} :: a in symVals ==> !Text.IsNumeral(symVals[a]))
  }

  /** Only the status changed. */
  lemma OtherFieldsStay(tables: Tables, names: set<string>, symVals: Values.Table, hash: Doc, cells: map<string, Cell>,
      hash': Doc)
    requires AppSound(tables) && Represents(tables, names, symVals, hash, cells)
    requires hash'.Keys <= hash.Keys + {":"} && forall f {:trigger f in hash} :: f in hash && f != ":" ==>
        f in hash' && hash'[f] == hash[f]
    ensures Represents(tables, names, symVals, hash', cells)
  {
    forall p | p in cells ensures HasCell(tables, names, symVals, hash', p, cells[p]) {
      CellStays(tables, names, symVals, hash, cells, hash', p, ":");
    }
    forall f | f in hash' ensures Owned(tables, names, cells, f) {
      assert f in hash ==> Owned(tables, names, cells, f);
    }
  }

  lemma CellStays(tables: Tables, names: set<string>, symVals: Values.Table, hash: Doc, cells: map<string, Cell>,
      hash': Doc,
                  p: string, changed: string)
    requires AppSound(tables) && Represents(tables, names, symVals, hash, cells) && p in cells
    requires forall f {:trigger f in hash} :: f in hash && f != changed ==> f in hash' && hash'[f] == hash[f]
    requires forall n {:trigger Names(tables, n, p)} :: n in names && Names(tables, n, p) ==> tables[n][p] != changed
    ensures HasCell(tables, names, symVals, hash', p, cells[p])
  {
    assert HasCell(tables, names, symVals, hash, p, cells[p]);
    var n :| CellOk(tables, names, symVals, hash, p, n, cells[p]);
    assert CellOk(tables, names, symVals, hash, p, n, cells[p]);
    assert Names(tables, n, p);
    assert CellOk(tables, names, symVals, hash', p, n, cells[p]);
  }

  /** The one field that a packaged ledger amount goes to. */
  lemma LedgerTarget(tables: Tables, names: set<string>, symVals: Values.Table, reverse: Values.Table,
                     activityId: string, amount: int, flat: Doc, data: Doc)
    requires AppSound(tables) && Coherent(tables, names) && activityId in names
        && Names(tables, activityId, LedgerPath(activityId))
    requires Values.Reverses(reverse, symVals) && Values.SymbolsOnly(symVals)
    requires Stringified(map[LedgerPath(activityId) := Values.Str(Text.Numeral(amount))], flat, reverse)
    requires Ready(flat, Maps(tables, [activityId])) ==> IsRenamed(flat, data, Maps(tables, [activityId]))
    ensures data.Keys == {tables[activityId][LedgerPath(activityId)]}
    ensures tables[activityId][LedgerPath(activityId)] != ":"
  {
    hide Ready, Maps;
    var p, v := LedgerPath(activityId), Values.Str(Text.Numeral(amount));
    Text.IntOfNumeral(amount);
    NumeralIsNoSymbol(tables, v.s);
    assert v.s[0] != '/' && Writable(tables, v);
    assert activityId in [activityId] && Covered(tables, [activityId], p);
    FlatIsWritten(tables, names, symVals, reverse, map[p := v], flat, [activityId]);
    FieldOfPath(tables, names, [activityId], activityId, p);
    assert p in map[p := v] && flat.Keys == {p};
    FieldIsMoved(flat, data, Maps(tables, [activityId]), p);
    forall f | f in data ensures f == tables[activityId][p] {
      assert HasSource(flat, Maps(tables, [activityId]), f);
    }
  }

  /** The text restored to a numeral is that numeral. */
  lemma NumeralText(tables: Tables, symVals: Values.Table, text: string)
    requires NumeralsApart(tables, symVals) && Values.Restore(text, symVals).Str?
        && Text.IsNumeral(Values.Restore(text, symVals).s)
    ensures Values.Restore(text, symVals).s == text
  {
    if |text| >= 3 {
      NoNumeralEndsInLetter(text[1..]);
      assert text[1..][|text| - 2] == text[|text| - 1];
    }
  }

  lemma NoNumeralEndsInLetter(s: string)
    requires |s| > 0
    ensures Text.IsNumeral(s) ==> !Symbols.IsLetter(s[|s| - 1])
  {
  }

  /** The ledger's field holds exactly what the plain map says. */
  lemma LedgerField(tables: Tables, names: set<string>, symVals: Values.Table, hash: Doc, cells: map<string, Cell>,
      activityId: string)
    requires AppSound(tables) && Coherent(tables, names) && Represents(tables, names, symVals, hash, cells)
    requires activityId in names && Names(tables, activityId, LedgerPath(activityId))
    requires NumeralsApart(tables, symVals) && IsLedger(PlainOf(cells), LedgerPath(activityId))
    ensures var p, f := LedgerPath(activityId), tables[activityId][LedgerPath(activityId)];
      if f in hash then Text.IsNumeral(hash[f]) && Text.IntOf(hash[f]) == Ledger(PlainOf(cells), p)
      else Ledger(PlainOf(cells), p) == 0
  {
    var p, f := LedgerPath(activityId), tables[activityId][LedgerPath(activityId)];
    if p in cells {
      assert HasCell(tables, names, symVals, hash, p, cells[p]);
      var n :| CellOk(tables, names, symVals, hash, p, n, cells[p]);
      assert CellOk(tables, names, symVals, hash, p, n, cells[p]);
      assert Names(tables, n, p) && n == activityId;
      NumeralText(tables, symVals, cells[p].text);
      NumeralIsNotShortened(tables, symVals, cells[p], hash[f]);
    } else {
      FieldIsWritten(tables, names, symVals, hash, cells, activityId, p);
    }
  }

  lemma FieldIsWritten(tables: Tables, names: set<string>, symVals: Values.Table, hash: Doc, cells: map<string, Cell>,
      n: string, p: string)
    requires AppSound(tables) && Represents(tables, names, symVals, hash, cells) && Names(tables, n, p)
    ensures tables[n][p] in hash ==> p in cells
  {
    var f := tables[n][p];
    assert Symbols.IsSymKey(f);
    if f in hash {
      assert Owned(tables, names, cells, f);
      var m, q :| m in names && q in cells && FieldOf(tables, m, q, f);
      assert Names(tables, m, q);
    }
  }

  lemma NumeralIsNotShortened(tables: Tables, symVals: Values.Table, cell: Cell, stored: string)
    requires NumeralsApart(tables, symVals) && Text.IsNumeral(cell.text)
        && Shortened(cell.text, stored, Maps(tables, cell.writer))
    ensures stored == cell.text
  {
    hide Maps;
    var maps := Maps(tables, cell.writer);
    forall j | 0 <= j < |maps| ensures cell.text !in maps[j] {
      var n := MapsAre(tables, cell.writer, j);
      assert cell.text in maps[j] ==> Names(tables, n, cell.text);
    }
  }

  lemma LedgerWritten(tables: Tables, names: set<string>, symVals: Values.Table, hash: Doc, cells: map<string, Cell>,
                      activityId: string, text: string)
    requires AppSound(tables) && Coherent(tables, names) && Represents(tables, names, symVals, hash, cells)
    requires activityId in names && Names(tables, activityId, LedgerPath(activityId))
    requires Text.IsNumeral(text) && Values.SymbolsOnly(symVals)
    ensures var p := LedgerPath(activityId);
      Represents(tables, names, symVals, hash[tables[activityId][p] := text],
          cells[p := Cell(Values.Str(text), text, [])])
  {
    hide Represents;
    var p := LedgerPath(activityId);
    var f, cell := tables[activityId][p], Cell(Values.Str(text), text, []);
    var hash', cells' := hash[f := text], cells[p := cell];
    NumeralIsNoSymbol(tables, text);
    NumeralRestores(text, symVals);
    SameIsShortened(text, Maps(tables, []));
    forall q | q in cells' ensures HasCell(tables, names, symVals, hash', q, cells'[q]) {
      if q == p {
        assert CellOk(tables, names, symVals, hash', p, activityId, cell);
      } else {
        CellStays(tables, names, symVals, hash, cells, hash', q, f);
      }
    }
    forall g | g in hash' ensures Owned(tables, names, cells', g) {
      if g == f {
        assert FieldOf(tables, activityId, p, f);
      } else {
        OwnedField(tables, names, symVals, hash, cells, g);
        OwnedStays(tables, names, cells, cells', g);
      }
    }
    RepresentsIntro(tables, names, symVals, hash', cells');
  }

  lemma OwnedField(tables: Tables, names: set<string>, symVals: Values.Table, hash: Doc, cells: map<string, Cell>,
      f: string)
    requires Represents(tables, names, symVals, hash, cells) && f in hash
    ensures Owned(tables, names, cells, f)
  {
  }


  function ReadPlain(plain: Plain, p: string): Values.Value {
    if p in plain then plain[p] else Values.Undefined
  }

  lemma FetchesStatus(tables: Tables, consumes: map<string, seq<string>>)
    ensures Fetched(tables, consumes, ":")
  {
  }

  lemma NumeralIsNoSymbol(tables: Tables, text: string)
    requires AppSound(tables) && Text.IsNumeral(text)
    ensures NoSymbol(tables, text)
  {
    assert !Symbols.IsLetter(text[0]);
    TaggedIsNoSymbol(tables, text);
  }

  lemma StatusTextIsNoSymbol(tables: Tables, hash: Doc)
    requires AppSound(tables) && StatusOk(hash)
    ensures ":" in hash ==> NoSymbol(tables, hash[":"])
  {
    if ":" in hash {
      NumeralIsNoSymbol(tables, hash[":"]);
    }
  }

  /** A numeral is stored and read as it is. */
  lemma NumeralRestores(text: string, symVals: Values.Table)
    requires Text.IsNumeral(text) && Values.SymbolsOnly(symVals)
    ensures Values.Restore(text, symVals) == Values.Str(text)
  {
    assert !Symbols.IsLetter(text[|text| - 1]) && text[0] != '/';
    forall symbol | symbol in symVals ensures symbol != text {
      assert Symbols.IsSymVal(symbol);
    }
  }

  lemma CellRestores(tables: Tables, names: set<string>, symVals: Values.Table, hash: Doc, cells: map<string, Cell>,
      p: string)
    requires Represents(tables, names, symVals, hash, cells) && p in cells
    ensures Values.Restore(cells[p].text, symVals) == cells[p].value
  {
    assert HasCell(tables, names, symVals, hash, p, cells[p]);
    var n :| CellOk(tables, names, symVals, hash, p, n, cells[p]);
    assert CellOk(tables, names, symVals, hash, p, n, cells[p]);
  }

  lemma ReadsOne(tables: Tables, names: set<string>, symVals: Values.Table, hash: Doc, cells: map<string, Cell>,
                 consumes: map<string, seq<string>>, state: Document, n: string, p: string)
    requires AppSound(tables) && Represents(tables, names, symVals, hash, cells) && Consumed(tables, consumes, n, p)
    requires Parsed(FetchedTexts(tables, consumes, cells, hash), state, symVals)
    ensures p != ":" && Value(state, p) == ReadPlain(PlainOf(cells), p)
  {
    hide Represents;
    assert Names(tables, n, p);
    assert IsConsumed(tables, consumes, p);
    assert p in state <==> p in cells;
    if p in cells {
      CellRestores(tables, names, symVals, hash, cells, p);
    }
  }

  lemma StatusReads(tables: Tables, symVals: Values.Table, hash: Doc, cells: map<string, Cell>,
                    consumes: map<string, seq<string>>, state: Document)
    requires AppSound(tables) && StatusOk(hash) && Values.SymbolsOnly(symVals)
    requires Parsed(FetchedTexts(tables, consumes, cells, hash), state, symVals)
    ensures ":" in state <==> ":" in hash
    ensures ":" in state ==> state[":"] == Values.Str(hash[":"])
  {
    forall n ensures !Consumed(tables, consumes, n, ":") {
      assert !Names(tables, n, ":");
    }
    if ":" in hash {
      NumeralRestores(hash[":"], symVals);
    }
  }

  /** Moving the status to its path touches no other path. */
  lemma ReadsBesideStatus(tables: Tables, consumes: map<string, seq<string>>, plain: Plain, parsed: Document,
      status: int, state: Document)
    requires forall n, p {:trigger Consumed(tables, consumes, n, p)} :: Consumed(tables, consumes, n, p) ==>
      p != ":" && Value(parsed, p) == ReadPlain(plain, p)
    requires state == parsed || state == parsed["metadata/js" := Values.Num(status)] - {":"}
    ensures forall n, p {:trigger Consumed(tables, consumes, n, p)} ::
      Consumed(tables, consumes, n, p) && p != "metadata/js" ==> Value(state, p) == ReadPlain(plain, p)
  {
  }

  /** What was parsed, path by path. */
  lemma ReadsPlain(tables: Tables, names: set<string>, symVals: Values.Table, hash: Doc, cells: map<string, Cell>,
                   consumes: map<string, seq<string>>, state: Document)
    requires AppSound(tables) && Represents(tables, names, symVals, hash, cells)
    requires StatusOk(hash) && Values.SymbolsOnly(symVals)
    requires Parsed(FetchedTexts(tables, consumes, cells, hash), state, symVals)
    ensures ":" in state <==> ":" in hash
    ensures ":" in state ==> state[":"] == Values.Str(hash[":"])
    ensures forall n, p {:trigger Consumed(tables, consumes, n, p)} :: Consumed(tables, consumes, n, p) ==>
      p != ":" && Value(state, p) == ReadPlain(PlainOf(cells), p)
  {
    hide AppSound, Represents, Parsed, FetchedTexts;
    StatusReads(tables, symVals, hash, cells, consumes, state);
    forall n, p | Consumed(tables, consumes, n, p) ensures p != ":" && Value(state, p) == ReadPlain(PlainOf(cells), p) {
      ReadsOne(tables, names, symVals, hash, cells, consumes, state, n, p);
    }
  }

  /** Every field that stringifies is in order for the hash; the others have no value. */
  lemma FlatIsWritten(tables: Tables, names: set<string>, symVals: Values.Table, reverse: Values.Table,
                      body: Document, flat: Doc, writer: seq<string>)
    requires AppSound(tables) && Values.Reverses(reverse, symVals) && Values.SymbolsOnly(symVals)
    requires Stringified(body, flat, reverse)
    requires forall p {:trigger p in body} :: p in body ==> Covered(tables, writer, p) && Writable(tables, body[p])
    ensures Ready(flat, Maps(tables, writer))
    ensures forall p {:trigger p in flat} :: p in flat ==>
      Covered(tables, writer, p) && Values.Restore(flat[p], symVals) == body[p] && NoSymbol(tables, flat[p])
    ensures forall p {:trigger p in body} :: p in body ==> (p in flat <==> !body[p].Undefined?)
  {
    hide AppSound, Writable, NoSymbol, Clean, Sound, Maps;
    MapsAreSound(tables, writer);
    forall p | p in body ensures (p in flat <==> !body[p].Undefined?)
      ensures p in flat ==>
        Values.Restore(flat[p], symVals) == body[p] && NoSymbol(tables, flat[p]) && NoSymbol(tables, p)
    {
      assert StringifiedAt(body, flat, reverse, p);
      FlatField(tables, symVals, reverse, writer, p, body[p]);
    }
    forall p | p in flat ensures Clean(p, Maps(tables, writer)) && Clean(flat[p], Maps(tables, writer)) {
      assert p in body;
      NoSymbolIsClean(tables, writer, p);
      NoSymbolIsClean(tables, writer, flat[p]);
    }
  }

  lemma FlatField(tables: Tables, symVals: Values.Table, reverse: Values.Table, writer: seq<string>, p: string,
      v: Values.Value)
    requires AppSound(tables) && Values.Reverses(reverse, symVals) && Values.SymbolsOnly(symVals)
    requires Covered(tables, writer, p) && Writable(tables, v)
    ensures NoSymbol(tables, p)
    ensures var field := Values.Field(v, reverse);
      && (field.Some? <==> !v.Undefined?)
      && (field.Some? ==> Values.Restore(field.value, symVals) == v && NoSymbol(tables, field.value))
  {
    var n :| n in writer && Names(tables, n, p);
    PathIsNoSymbol(tables, n, p);
    hide AppSound, NoSymbol;
    Values.FieldRoundTrip(v, symVals, reverse);
    if Values.Field(v, reverse).Some? {
      FieldIsNoSymbol(tables, v, symVals, reverse);
    }
  }

  lemma EffectIs(state: Document, body: Document, flat: Doc, cells: map<string, Cell>, writer: seq<string>)
    requires body == state - {"metadata/js"} && flat.Keys <= body.Keys
    requires forall p {:trigger p in body} :: p in body ==> (p in flat <==> !body[p].Undefined?)
    ensures PlainOf(cells + Written(body, flat, writer)) == PlainOf(cells) + Effect(state)
  {
    forall p | p in Effect(state) ensures p in body {
    }
    assert Effect(state).Keys == flat.Keys;
  }

  /* ---------- any sequence of writes, then a read ---------- */

  datatype Write = Write(state: Document, status: Option<int>, symbolNames: seq<string>)

  /** A plain map after the writes. */
  function Folded(writes: seq<Write>): Plain {
    if |writes| == 0 then map[] else Folded(writes[..|writes| - 1]) + Effect(writes[|writes| - 1].state)
  }

  predicate Sets(w: Write, p: string) {
    p in w.state && !w.state[p].Undefined?
  }

  /** The value is the one of the last write that sets the path; undefined if none does. */
  ghost predicate IsLastSet(writes: seq<Write>, p: string, v: Values.Value) {
    if v.Undefined? then
      forall i {:trigger writes[i]} :: 0 <= i < |writes| ==> !Sets(writes[i], p)
    else
      exists i {:trigger writes[i]} :: 0 <= i < |writes| && Sets(writes[i], p) && writes[i].state[p] == v
        && forall j {:trigger writes[j]} :: i < j < |writes| ==> !Sets(writes[j], p)
  }

  lemma {:induction false} LastSetIsRead(writes: seq<Write>, p: string)
    requires p != "metadata/js"
    ensures IsLastSet(writes, p, ReadPlain(Folded(writes), p))
    decreases |writes|
  {
    if |writes| > 0 {
      var n := |writes| - 1;
      LastSetIsRead(writes[..n], p);
      var before := ReadPlain(Folded(writes[..n]), p);
      if !Sets(writes[n], p) && !before.Undefined? {
        var i :| 0 <= i < n && Sets(writes[..n][i], p) && writes[..n][i].state[p] == before
          && forall j {:trigger writes[..n][j]} :: i < j < n ==> !Sets(writes[..n][j], p);
        assert writes[i] == writes[..n][i];
        forall j | i < j < |writes| ensures !Sets(writes[j], p) {
          assert j < n ==> writes[j] == writes[..n][j];
        }
      } else if !Sets(writes[n], p) {
        forall j | 0 <= j < |writes| ensures !Sets(writes[j], p) {
          assert j < n ==> writes[j] == writes[..n][j];
        }
      }
    }
  }

  /** Every field written belongs to a set the writer names, and its value survives storage. */
  ghost predicate WriteOk(tables: Tables, names: set<string>, w: Write) {
    && (forall id :: id in w.symbolNames ==> id in names)
    && forall p {:trigger p in w.state} :: p in w.state && p != "metadata/js" ==>
         Covered(tables, w.symbolNames, p) && Writable(tables, w.state[p])
  }

  /** However a job's state is written piece by piece, a reader who names the writers' symbol sets sees the plain
      map. */
  method ReadAfterWrites(tables: Tables, symVals: Values.Table, names: set<string>, writes: seq<Write>,
                         consumes: map<string, seq<string>>, symbolNames: seq<string>)
    returns (result: Option<(Document, int)>)
    requires AppSound(tables) && Coherent(tables, names) && Values.SymbolsOnly(symVals)
    requires forall i :: 0 <= i < |writes| ==> WriteOk(tables, names, writes[i])
    requires forall i, id :: 0 <= i < |writes| && id in writes[i].symbolNames ==> id in symbolNames
    requires (forall n :: n in symbolNames <==> n in consumes) && RequestOk(tables, names, symbolNames, consumes)
    ensures result.Some?
    ensures forall n, p {:trigger Consumed(tables, consumes, n, p)} ::
      Consumed(tables, consumes, n, p) && p != "metadata/js" ==>
          IsLastSet(writes, p, Value(result.value.0, p))
  {
    hide AppSound, Coherent, RequestOk, Effect, IsLastSet;
    var store := new JobStateStore(tables, symVals, names);
    var created := store.SetStateNX();
    var i := 0;
    while i < |writes|
      invariant 0 <= i <= |writes| && store.Valid() && fresh(store) && fresh(store.serializer) && ":" in store.hash
      invariant store.tables == tables && store.symVals == symVals && store.names == names
      invariant PlainOf(store.cells) == Folded(writes[..i])
      invariant forall p, id {:trigger id in store.cells[p].writer} ::
        p in store.cells && id in store.cells[p].writer ==> id in symbolNames
    {
      assert WriteOk(tables, names, writes[i]);
      store.SetState(writes[i].state, writes[i].status, writes[i].symbolNames);
      assert writes[..i + 1][..i] == writes[..i];
      i := i + 1;
    }
    assert writes[..i] == writes;
    result := store.GetState(consumes, symbolNames);
    forall p | p != "metadata/js" ensures IsLastSet(writes, p, ReadPlain(Folded(writes), p)) {
      LastSetIsRead(writes, p);
    }
  }
}
