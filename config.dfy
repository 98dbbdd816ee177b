/** The schema-driven reconciliation of the worker's configuration file
    (worker/worker.py, `validate`, and the schema built in
    `setup_parameters`). The configuration is a table of sections, each a
    table of option names to option texts. */
module ConfigValidation {
  import opened Wrappers
  import opened Text
  import opened OptionTypes

  type Table = map<seq<char>, map<seq<char>, seq<char>>>

  /** How an option's text is checked: a type, that is a conversion that
      succeeds or raises, or a list of allowed choices. */
  datatype Check =
    | Converts(accepts: seq<char> -> bool)
    | Choices(values: seq<seq<char>>)

  /** One schema row: (section, option, default, type, preprocessor). */
  datatype Entry = Entry(
    section: seq<char>,
    option: seq<char>,
    default: seq<char>,
    check: Check,
    preprocess: Option<seq<char> -> seq<char>>)

  type Schema = seq<Entry>

  predicate Passes(c: Check, v: seq<char>)
  {
    match c
    case Converts(accepts) => accepts(v)
    case Choices(values) => v in values
  }

  function Preprocessed(e: Entry, v: seq<char>): seq<char>
  {
    match e.preprocess
    case None => v
    case Some(f) => f(v)
  }

  /** The value of an option as the table holds it, if it does. */
  function Lookup(t: Table, section: seq<char>, option: seq<char>): Option<seq<char>>
  {
    if section in t && option in t[section] then Some(t[section][option]) else None
  }

  /** The value one schema row leaves for its option: the default when the
      option is missing or its (preprocessed) text fails the check, the
      preprocessed text otherwise. */
  function Reconciled(e: Entry, present: Option<seq<char>>): (r: seq<char>)
    ensures present.None? ==> r == e.default
    ensures r == e.default || (present.Some? && r == Preprocessed(e, present.value) && Passes(e.check, r))
    ensures present.Some? && Passes(e.check, Preprocessed(e, present.value)) ==> r == Preprocessed(e, present.value)
  {
    match present
    case None => e.default
    case Some(o) =>
      var p := Preprocessed(e, o);
      if Passes(e.check, p) then p else e.default
  }

  /** The first loop of `validate` applied to one row. */
  function ApplyEntry(t: Table, e: Entry): (r: Table)
    ensures r.Keys == t.Keys + {e.section}
    ensures Lookup(r, e.section, e.option) == Some(Reconciled(e, Lookup(t, e.section, e.option)))
    ensures forall s, o :: s != e.section || o != e.option ==> Lookup(r, s, o) == Lookup(t, s, o)
  {
    var sec := if e.section in t then t[e.section] else map[];
    t[e.section := sec[e.option := Reconciled(e, Lookup(t, e.section, e.option))]]
  }

  /** The first loop of `validate` applied to the rows of `schema` in order. */
  function ApplyAll(t: Table, schema: Schema): Table
  {
    if schema == [] then t
    else ApplyEntry(ApplyAll(t, schema[..|schema| - 1]), schema[|schema| - 1])
  }

  function SchemaSections(schema: Schema): set<seq<char>>
  {
    set i | 0 <= i < |schema| :: schema[i].section
  }

  function SchemaKeys(schema: Schema): set<(seq<char>, seq<char>)>
  {
    set i | 0 <= i < |schema| :: (schema[i].section, schema[i].option)
  }

  /** The cleanup loop of `validate`: sections and options the schema does
      not name are removed. */
  function Cleanup(t: Table, schema: Schema): (r: Table)
    ensures forall s :: s in r <==> s in t && s in SchemaSections(schema)
    ensures forall s, o :: Lookup(r, s, o) == if (s, o) in SchemaKeys(schema) then Lookup(t, s, o) else None
  {
    map s | s in t && s in SchemaSections(schema) ::
      map o | o in t[s] && (s, o) in SchemaKeys(schema) :: t[s][o]
  }

  /** The table `validate` leaves behind. */
  function Validated(t: Table, schema: Schema): Table
  {
    Cleanup(ApplyAll(t, schema), schema)
  }

  /** No two rows of the schema name the same option of the same section. */
  predicate UniqueKeys(schema: Schema)
  {
    forall i, j :: 0 <= i < j < |schema| ==>
      (schema[i].section, schema[i].option) != (schema[j].section, schema[j].option)
  }

  /** The first loop only ever adds sections and options. */
  lemma {:induction false} ApplyAllGrows(t: Table, schema: Schema, s: seq<char>, o: seq<char>)
    requires Lookup(t, s, o).Some? || (s, o) in SchemaKeys(schema)
    ensures Lookup(ApplyAll(t, schema), s, o).Some?
  {
    if schema != [] {
      var init := schema[..|schema| - 1];
      var e := schema[|schema| - 1];
      if (s, o) in SchemaKeys(init) || Lookup(t, s, o).Some? {
        ApplyAllGrows(t, init, s, o);
      } else {
        assert (s, o) == (e.section, e.option);
      }
    }
  }

  /** An option no row of the schema names keeps its value in the first loop. */
  lemma {:induction false} ApplyAllElsewhere(t: Table, schema: Schema, s: seq<char>, o: seq<char>)
    requires (s, o) !in SchemaKeys(schema)
    ensures Lookup(ApplyAll(t, schema), s, o) == Lookup(t, s, o)
  {
    if schema != [] {
      var init := schema[..|schema| - 1];
      assert (s, o) !in SchemaKeys(init);
      assert (s, o) != (schema[|schema| - 1].section, schema[|schema| - 1].option);
      ApplyAllElsewhere(t, init, s, o);
    }
  }

  /** With unique keys, the option of row `i` ends the first loop with the
      value that row alone gives it. */
  lemma {:induction false} ApplyAllAt(t: Table, schema: Schema, i: nat)
    requires UniqueKeys(schema) && i < |schema|
    ensures Lookup(ApplyAll(t, schema), schema[i].section, schema[i].option)
         == Some(Reconciled(schema[i], Lookup(t, schema[i].section, schema[i].option)))
  {
    var init := schema[..|schema| - 1];
    var e := schema[i];
    assert UniqueKeys(init);
    if i == |schema| - 1 {
      assert (e.section, e.option) !in SchemaKeys(init);
      ApplyAllElsewhere(t, init, e.section, e.option);
    } else {
      assert init[i] == e;
      ApplyAllAt(t, init, i);
      assert (e.section, e.option) != (schema[|schema| - 1].section, schema[|schema| - 1].option);
    }
  }

  /** After `validate` every option the schema names is present. */
  lemma ValidatedComplete(t: Table, schema: Schema, i: nat)
    requires i < |schema|
    ensures Lookup(Validated(t, schema), schema[i].section, schema[i].option).Some?
  {
    var e := schema[i];
    assert (e.section, e.option) in SchemaKeys(schema);
    ApplyAllGrows(t, schema, e.section, e.option);
    assert e.section in SchemaSections(schema);
  }

  /** After `validate` every section and option left is one the schema names. */
  lemma ValidatedOnlySchema(t: Table, schema: Schema, s: seq<char>, o: seq<char>)
    ensures s in Validated(t, schema) ==> s in SchemaSections(schema)
    ensures Lookup(Validated(t, schema), s, o).Some? ==> (s, o) in SchemaKeys(schema)
  {
  }

  /** After `validate` (with no option named twice in the schema) each
      option holds what its row makes of the value it had: its text when
      that passes the row's check, the default when it fails or is absent. */
  lemma ValidatedValue(t: Table, schema: Schema, i: nat)
    requires UniqueKeys(schema) && i < |schema|
    ensures Lookup(Validated(t, schema), schema[i].section, schema[i].option)
         == Some(Reconciled(schema[i], Lookup(t, schema[i].section, schema[i].option)))
    ensures var e, before := schema[i], Lookup(t, schema[i].section, schema[i].option);
      var after := Lookup(Validated(t, schema), e.section, e.option).value;
      && (before.None? ==> after == e.default)
      && (before.Some? && Passes(e.check, Preprocessed(e, before.value)) ==> after == Preprocessed(e, before.value))
      && (before.Some? && !Passes(e.check, Preprocessed(e, before.value)) ==> after == e.default)
  {
    var e := schema[i];
    ApplyAllAt(t, schema, i);
    assert (e.section, e.option) in SchemaKeys(schema);
    assert e.section in SchemaSections(schema);
  }

  /** A table `validate` would not change: exactly the schema's options,
      each holding a value that passes its row's check unchanged by the
      preprocessor. */
  predicate Conforms(t: Table, schema: Schema)
  {
    && (forall s :: s in t ==> s in SchemaSections(schema))
    && (forall s, o :: s in t && o in t[s] ==> (s, o) in SchemaKeys(schema))
    && (forall i :: 0 <= i < |schema| ==>
          var v := Lookup(t, schema[i].section, schema[i].option);
          v.Some? && Preprocessed(schema[i], v.value) == v.value && Passes(schema[i].check, v.value))
  }

  /** Every row's default passes its check and is a fixed point of its
      preprocessor. */
  predicate DefaultsConform(schema: Schema)
  {
    forall i :: 0 <= i < |schema| ==>
      Preprocessed(schema[i], schema[i].default) == schema[i].default
      && Passes(schema[i].check, schema[i].default)
  }

  /** With sound defaults and preprocessors that are fixed on the values
      they produce, `validate` yields a conforming table. */
  lemma ValidatedConforms(t: Table, schema: Schema)
    requires UniqueKeys(schema) && DefaultsConform(schema)
    requires forall i, v :: 0 <= i < |schema| ==>
      Preprocessed(schema[i], Preprocessed(schema[i], v)) == Preprocessed(schema[i], v)
    ensures Conforms(Validated(t, schema), schema)
  {
    forall i | 0 <= i < |schema|
      ensures var v := Lookup(Validated(t, schema), schema[i].section, schema[i].option);
        v.Some? && Preprocessed(schema[i], v.value) == v.value && Passes(schema[i].check, v.value)
    {
      ValidatedValue(t, schema, i);
    }
  }

  /** On a conforming table, `validate` gives every option the value it had. */
  lemma ConformingLookup(t: Table, schema: Schema, s: seq<char>, o: seq<char>)
    requires UniqueKeys(schema) && Conforms(t, schema)
    ensures Lookup(Validated(t, schema), s, o) == Lookup(t, s, o)
  {
    if (s, o) in SchemaKeys(schema) {
      var i :| 0 <= i < |schema| && (s, o) == (schema[i].section, schema[i].option);
      ValidatedValue(t, schema, i);
    } else {
      ValidatedOnlySchema(t, schema, s, o);
    }
  }

  /** On a conforming table, `validate` keeps exactly the sections it had. */
  lemma ConformingSection(t: Table, schema: Schema, s: seq<char>)
    requires UniqueKeys(schema) && Conforms(t, schema)
    ensures s in Validated(t, schema) <==> s in t
  {
    if s in t || s in Validated(t, schema) {
      assert s in SchemaSections(schema);
      var i :| 0 <= i < |schema| && s == schema[i].section;
      ValidatedComplete(t, schema, i);
    }
  }

  /** `validate` leaves a conforming table exactly as it is. */
  lemma ValidatedKeepsConforming(t: Table, schema: Schema)
    requires UniqueKeys(schema) && Conforms(t, schema)
    ensures Validated(t, schema) == t
  {
    var r := Validated(t, schema);
    forall s ensures s in r <==> s in t {
      ConformingSection(t, schema, s);
    }
    forall s, o ensures Lookup(r, s, o) == Lookup(t, s, o) {
      ConformingLookup(t, schema, s, o);
    }
    SameTable(r, t);
  }

  /** Two tables with the same sections and the same lookups are equal. */
  lemma SameTable(r: Table, t: Table)
    requires forall s :: s in r <==> s in t
    requires forall s, o :: Lookup(r, s, o) == Lookup(t, s, o)
    ensures r == t
  {
    forall s | s in t ensures r[s] == t[s] {
      forall o ensures o in r[s] <==> o in t[s] {
        assert Lookup(r, s, o) == Lookup(t, s, o);
      }
      forall o | o in t[s] ensures r[s][o] == t[s][o] {
        assert Lookup(r, s, o) == Lookup(t, s, o);
      }
      assert r[s].Keys == t[s].Keys;
    }
    assert r.Keys == t.Keys;
  }

  /** `validate` is idempotent under the same conditions. */
  lemma ValidatedIdempotent(t: Table, schema: Schema)
    requires UniqueKeys(schema) && DefaultsConform(schema)
    requires forall i, v :: 0 <= i < |schema| ==>
      Preprocessed(schema[i], Preprocessed(schema[i], v)) == Preprocessed(schema[i], v)
    ensures Validated(Validated(t, schema), schema) == Validated(t, schema)
  {
    ValidatedConforms(t, schema);
    ValidatedKeepsConforming(Validated(t, schema), schema);
  }

  /** The configuration file's parsed contents, which `validate` updates in
      place section by section and option by option. */
  class Config {
    var table: Table

    constructor (t: Table)
      ensures table == t
    {
      table := t;
    }

    /** `validate(config, schema)`: first add missing sections and options
        with their defaults and replace values that fail their row's check,
        then remove every section and option the schema does not name. */
    method Validate(schema: Schema)
      modifies this
      ensures table == Validated(old(table), schema)
    {
      for i := 0 to |schema|
        invariant table == ApplyAll(old(table), schema[..i])
      {
        assert schema[..i + 1][..i] == schema[..i];
        ApplyRow(schema[i]);
      }
      assert schema[..|schema|] == schema;
      RemoveUnknown(schema);
    }

    /** One pass of the first loop of `validate`. */
    method ApplyRow(e: Entry)
      modifies this
      ensures table == ApplyEntry(old(table), e)
    {
      if e.section !in table {
        table := table[e.section := map[]];
      }
      if e.option !in table[e.section] {
        table := table[e.section := table[e.section][e.option := e.default]];
      } else {
        var o := table[e.section][e.option];
        if e.preprocess.Some? {
          var o1 := e.preprocess.value(o);
          if o1 != o {
            table := table[e.section := table[e.section][e.option := o1]];
            o := o1;
          }
        }
        assert o == Preprocessed(e, old(table)[e.section][e.option]);
        match e.check {
          case Converts(accepts) =>
            if !accepts(o) {
              table := table[e.section := table[e.section][e.option := e.default]];
            }
          case Choices(values) =>
            if o !in values {
              table := table[e.section := table[e.section][e.option := e.default]];
            }
        }
        assert e.section in old(table);
        assert table[e.section] == old(table)[e.section][e.option := Reconciled(e, Lookup(old(table), e.section, e.option))];
      }
      assert table == old(table)[e.section := table[e.section]];
    }

    /** The cleanup loop of `validate`. */
    method RemoveUnknown(schema: Schema)
      modifies this
      ensures table == Cleanup(old(table), schema)
    {
      var sections := SchemaSections(schema);
      var keys := SchemaKeys(schema);
      var sectionsLeft := table.Keys;
      while sectionsLeft != {}
        invariant sectionsLeft <= old(table).Keys
        invariant forall s :: s in table <==> s in old(table) && (s in sectionsLeft || s in sections)
        invariant forall s :: s in table && s in sectionsLeft ==> table[s] == old(table)[s]
        invariant forall s :: s in table && s !in sectionsLeft ==> table[s] == Cleanup(old(table), schema)[s]
        decreases sectionsLeft
      {
        var s :| s in sectionsLeft;
        if s !in sections {
          table := table - {s};
        } else {
          RemoveUnknownOptions(s, keys);
        }
        sectionsLeft := sectionsLeft - {s};
      }
      assert table.Keys == Cleanup(old(table), schema).Keys;
    }

    /** The inner cleanup loop over the options of one section. */
    method RemoveUnknownOptions(s: seq<char>, keys: set<(seq<char>, seq<char>)>)
      requires s in table
      modifies this
      ensures s in table
      ensures table == old(table)[s := map o | o in old(table)[s] && (s, o) in keys :: old(table)[s][o]]
    {
      var optionsLeft := table[s].Keys;
      while optionsLeft != {}
        invariant optionsLeft <= old(table)[s].Keys
        invariant s in table && table == old(table)[s := table[s]]
        invariant forall o :: o in table[s] <==> o in old(table)[s] && (o in optionsLeft || (s, o) in keys)
        invariant forall o :: o in table[s] ==> table[s][o] == old(table)[s][o]
        decreases optionsLeft
      {
        var o :| o in optionsLeft;
        if (s, o) !in keys {
          table := table[s := table[s] - {o}];
        }
        optionsLeft := optionsLeft - {o};
      }
      assert table[s] == map o | o in old(table)[s] && (s, o) in keys :: old(table)[s][o];
    }
  }

  /** The compiler the schema proposes: g++ when it is available, the
      first detected compiler otherwise. */
  function DefaultCompiler(names: seq<seq<char>>): (c: seq<char>)
    requires |names| > 0
    ensures c in names
    ensures "g++" in names <==> c == "g++"
    ensures "g++" !in names ==> c == names[0]
  {
    if "g++" !in names then names[0] else "g++"
  }

  const AnyText: Check := Converts(x => true)
  const IntText: Check := Converts(IsIntText)

  const ConcurrencyDefault: seq<char> := "max(1,min(3,MAX-1))"
  const MemoryDefault: seq<char> := "MAX/2"

  function ConcurrencyEntry(maxCpu: int, evaluate: seq<char> -> Option<int>): Entry
  {
    Entry("parameters", "concurrency", ConcurrencyDefault,
          Converts(x => Concurrency(x, evaluate(x), maxCpu).Ok?), None)
  }

  function MemoryEntry(maxMemory: int, evaluate: seq<char> -> Option<int>): Entry
  {
    Entry("parameters", "max_memory", MemoryDefault,
          Converts(x => Memory(x, evaluate(x), maxMemory).Ok?), None)
  }

  const PrefixEntry: Entry := Entry("parameters", "uuid_prefix", HardwarePrefix, Converts(x => AlphaNumeric(x).Ok?), None)
  const FleetEntry: Entry := Entry("parameters", "fleet", "False", Converts(x => ParseBool(x).Ok?), None)

  /** The schema `setup_parameters` validates the configuration file with.
      `maxCpu` is the number of cores, `maxMemory` the memory in MiB, and
      `evalConcurrency`/`evalMemory` the expression evaluator's results
      with MAX bound to them; `hwSeed` is the random seed proposed for a
      new file. */
  function WorkerSchema(maxCpu: int, maxMemory: int, evalConcurrency: seq<char> -> Option<int>,
                        evalMemory: seq<char> -> Option<int>, compilers: seq<seq<char>>, hwSeed: nat): (schema: Schema)
    requires |compilers| > 0
    ensures |schema| == 13
    ensures forall i :: 0 <= i < |schema| ==> schema[i].preprocess.None?
  {
    [ Entry("login", "username", "", AnyText, None),
      Entry("login", "password", "", AnyText, None),
      Entry("parameters", "protocol", "https", Choices(["http", "https"]), None),
      Entry("parameters", "host", "tests.stockfishchess.org", AnyText, None),
      Entry("parameters", "port", "443", IntText, None),
      ConcurrencyEntry(maxCpu, evalConcurrency),
      MemoryEntry(maxMemory, evalMemory),
      PrefixEntry,
      Entry("parameters", "min_threads", "1", IntText, None),
      FleetEntry,
      Entry("parameters", "global_cache", "", AnyText, None),
      Entry("parameters", "compiler", DefaultCompiler(compilers), Choices(compilers), None),
      Entry("private", "hw_seed", Decimal(hwSeed), IntText, None) ]
  }

  /** The worker's schema names every option once. */
  lemma WorkerSchemaUnique(maxCpu: int, maxMemory: int, evalConcurrency: seq<char> -> Option<int>,
                           evalMemory: seq<char> -> Option<int>, compilers: seq<seq<char>>, hwSeed: nat)
    requires |compilers| > 0
    ensures UniqueKeys(WorkerSchema(maxCpu, maxMemory, evalConcurrency, evalMemory, compilers, hwSeed))
  {
  }

  /** The default concurrency expression passes `_concurrency` on any
      machine with at least one core. */
  lemma ConcurrencyDefaultPasses(maxCpu: int, evaluate: seq<char> -> Option<int>)
    requires maxCpu >= 1
    requires evaluate(ConcurrencyDefault) == Some(if maxCpu - 1 < 1 then 1 else if maxCpu - 1 < 3 then maxCpu - 1 else 3)
    ensures Passes(ConcurrencyEntry(maxCpu, evaluate).check, ConcurrencyDefault)
  {
    ContainsAt(ConcurrencyDefault, "MAX", 12);
  }

  /** The `int` defaults of the schema are `int` texts. */
  lemma IntDefaultsPass(hwSeed: nat)
    ensures IsIntText("443") && IsIntText("1") && IsIntText(Decimal(hwSeed))
    ensures Passes(IntText, "443") && Passes(IntText, "1") && Passes(IntText, Decimal(hwSeed))
  {
    IntTextOfDigits("443");
    IntTextOfDigits("1");
    IntTextOfDigits(Decimal(hwSeed));
  }

  /** Every default of the worker's schema passes its own check, given a
      machine with at least one core and an evaluator that computes the two
      default expressions. */
  lemma WorkerDefaultsConform(maxCpu: int, maxMemory: int, evalConcurrency: seq<char> -> Option<int>,
                              evalMemory: seq<char> -> Option<int>, compilers: seq<seq<char>>, hwSeed: nat)
    requires |compilers| > 0 && maxCpu >= 1
    requires evalConcurrency(ConcurrencyDefault) == Some(if maxCpu - 1 < 1 then 1 else if maxCpu - 1 < 3 then maxCpu - 1 else 3)
    requires evalMemory(MemoryDefault).Some?
    ensures DefaultsConform(WorkerSchema(maxCpu, maxMemory, evalConcurrency, evalMemory, compilers, hwSeed))
  {
    var schema := WorkerSchema(maxCpu, maxMemory, evalConcurrency, evalMemory, compilers, hwSeed);
    forall i | 0 <= i < |schema|
      ensures Passes(schema[i].check, schema[i].default)
    {
      if i == 4 || i == 8 || i == 12 {
        WorkerIntDefaultPasses(maxCpu, maxMemory, evalConcurrency, evalMemory, compilers, hwSeed, i);
      } else {
        WorkerDefaultPasses(maxCpu, maxMemory, evalConcurrency, evalMemory, compilers, hwSeed, i);
      }
    }
  }

  /** The defaults "_hw" and "False" pass `_alpha_numeric` and `_bool`. */
  lemma PrefixAndFleetDefaultsPass()
    ensures Passes(PrefixEntry.check, PrefixEntry.default)
    ensures Passes(FleetEntry.check, FleetEntry.default)
  {
    HardwarePrefixAccepted();
    ParseBoolText(false);
  }

  /** The `int` rows of the worker's schema (port, min_threads, hw_seed):
      their defaults pass. */
  lemma WorkerIntDefaultPasses(maxCpu: int, maxMemory: int, evalConcurrency: seq<char> -> Option<int>,
                               evalMemory: seq<char> -> Option<int>, compilers: seq<seq<char>>, hwSeed: nat, i: int)
    requires |compilers| > 0
    requires i == 4 || i == 8 || i == 12
    ensures var schema := WorkerSchema(maxCpu, maxMemory, evalConcurrency, evalMemory, compilers, hwSeed);
      Passes(schema[i].check, schema[i].default)
  {
    var schema := WorkerSchema(maxCpu, maxMemory, evalConcurrency, evalMemory, compilers, hwSeed);
    WorkerSchemaIntRows(maxCpu, maxMemory, evalConcurrency, evalMemory, compilers, hwSeed);
    IntDefaultsPass(hwSeed);
  }

  /** The `int` rows of the worker's schema and their defaults. */
  lemma WorkerSchemaIntRows(maxCpu: int, maxMemory: int, evalConcurrency: seq<char> -> Option<int>,
                            evalMemory: seq<char> -> Option<int>, compilers: seq<seq<char>>, hwSeed: nat)
    requires |compilers| > 0
    ensures var schema := WorkerSchema(maxCpu, maxMemory, evalConcurrency, evalMemory, compilers, hwSeed);
      && schema[4].check == IntText && schema[4].default == "443"
      && schema[8].check == IntText && schema[8].default == "1"
      && schema[12].check == IntText && schema[12].default == Decimal(hwSeed)
  {
  }

  /** The other rows of the worker's schema: their defaults pass. */
  lemma WorkerDefaultPasses(maxCpu: int, maxMemory: int, evalConcurrency: seq<char> -> Option<int>,
                            evalMemory: seq<char> -> Option<int>, compilers: seq<seq<char>>, hwSeed: nat, i: int)
    requires |compilers| > 0 && maxCpu >= 1
    requires evalConcurrency(ConcurrencyDefault) == Some(if maxCpu - 1 < 1 then 1 else if maxCpu - 1 < 3 then maxCpu - 1 else 3)
    requires evalMemory(MemoryDefault).Some?
    requires 0 <= i < 13 && i != 4 && i != 8 && i != 12
    ensures var schema := WorkerSchema(maxCpu, maxMemory, evalConcurrency, evalMemory, compilers, hwSeed);
      Passes(schema[i].check, schema[i].default)
  {
    WorkerSchemaOtherRows(maxCpu, maxMemory, evalConcurrency, evalMemory, compilers, hwSeed);
    if i == 5 {
      ConcurrencyDefaultPasses(maxCpu, evalConcurrency);
    } else if i == 7 || i == 9 {
      PrefixAndFleetDefaultsPass();
    } else if i == 11 {
      assert DefaultCompiler(compilers) in compilers;
    }
  }

  /** The rows of the worker's schema other than the `int` ones. */
  lemma WorkerSchemaOtherRows(maxCpu: int, maxMemory: int, evalConcurrency: seq<char> -> Option<int>,
                              evalMemory: seq<char> -> Option<int>, compilers: seq<seq<char>>, hwSeed: nat)
    requires |compilers| > 0
    ensures var schema := WorkerSchema(maxCpu, maxMemory, evalConcurrency, evalMemory, compilers, hwSeed);
      && schema[0].check == AnyText && schema[1].check == AnyText
      && schema[2] == Entry("parameters", "protocol", "https", Choices(["http", "https"]), None)
      && schema[3].check == AnyText
      && schema[5] == ConcurrencyEntry(maxCpu, evalConcurrency)
      && schema[6] == MemoryEntry(maxMemory, evalMemory)
      && schema[7] == PrefixEntry
      && schema[9] == FleetEntry
      && schema[10].check == AnyText
      && schema[11] == Entry("parameters", "compiler", DefaultCompiler(compilers), Choices(compilers), None)
  {
  }

  /** Validating the worker's configuration a second time changes nothing:
      a file the worker has already reconciled is kept as it is. */
  lemma WorkerValidateIdempotent(t: Table, maxCpu: int, maxMemory: int, evalConcurrency: seq<char> -> Option<int>,
                                 evalMemory: seq<char> -> Option<int>, compilers: seq<seq<char>>, hwSeed: nat)
    requires |compilers| > 0 && maxCpu >= 1
    requires evalConcurrency(ConcurrencyDefault) == Some(if maxCpu - 1 < 1 then 1 else if maxCpu - 1 < 3 then maxCpu - 1 else 3)
    requires evalMemory(MemoryDefault).Some?
    ensures var schema := WorkerSchema(maxCpu, maxMemory, evalConcurrency, evalMemory, compilers, hwSeed);
      Validated(Validated(t, schema), schema) == Validated(t, schema)
  {
    var schema := WorkerSchema(maxCpu, maxMemory, evalConcurrency, evalMemory, compilers, hwSeed);
    WorkerSchemaUnique(maxCpu, maxMemory, evalConcurrency, evalMemory, compilers, hwSeed);
    WorkerDefaultsConform(maxCpu, maxMemory, evalConcurrency, evalMemory, compilers, hwSeed);
    ValidatedIdempotent(t, schema);
  }
}
