/**
  The benchmark configuration (`VSBenchmark.__init__`) and the test-case
  generator (`generate_test_cases`) of vsbenchmark/core.py.

  The colour family of a format (`get_color_family`) and whether a function
  can bind a parameter set (`validate_function_params`, which binds the
  function's signature against a blank clip) are foreign calls; they are
  the two fields of `Env`.
 */
module Generator {
  import opened Wrappers
  import opened ParamGrid
  import opened Seqs

  /** A VapourSynth preset format, by its integer id. */
  type Format = int

  /** A VapourSynth colour family, by its integer id. */
  type Family = int

  /** An opaque handle to a function under test. */
  type Callable = nat

  datatype Resolution = Resolution(width: int, height: int)

  /** A key of a per-function override table: an exact format or a colour family. */
  datatype OverrideKey = ByFormat(format: Format) | ByFamily(family: Family)

  /** `tests`: function name ↦ (format or family ↦ parameter table). */
  type Overrides = map<string, map<OverrideKey, Table>>

  /** One entry of the `functions` dict. */
  datatype Function = Function(name: string, callable: Callable)

  /** One generated test case: `test_name`, `function`, `params`, `format`. */
  datatype TestCase = TestCase(name: string, callable: Callable, params: Table, format: Format)

  datatype Config = Config(
    functions: seq<Function>,
    formats: seq<Format>,
    resolutions: seq<Resolution>,
    length: int,
    passes: int,
    paramGrid: Table,
    tests: Overrides,
    listParams: seq<string>)

  /** The foreign calls the generator makes. */
  datatype Env = Env(
    family: Format -> Family,
    accepts: (Callable, Table, Format) -> bool)

  /** `VSBenchmark.__init__`: zero passes mean three, a missing or empty grid
      is the empty table, missing overrides are none, and missing list
      parameters default to `planes`. */
  function NewConfig(
    functions: seq<Function>, formats: seq<Format>, resolutions: seq<Resolution>, length: int,
    passes: int, paramGrid: Option<Table>, tests: Option<Overrides>, listParams: Option<seq<string>>): (c: Config)
    ensures c.functions == functions && c.formats == formats && c.resolutions == resolutions && c.length == length
    ensures c.passes != 0
    ensures passes == 0 ==> c.passes == 3
    ensures passes != 0 ==> c.passes == passes
    ensures c.paramGrid == paramGrid.GetOr([])
    ensures c.tests == tests.GetOr(map[])
    ensures c.listParams == listParams.GetOr(["planes"])
  {
    Config(
      functions, formats, resolutions, length,
      if passes != 0 then passes else 3,
      if paramGrid.Some? && |paramGrid.value| > 0 then paramGrid.value else [],
      if tests.Some? then tests.value else map[],
      if listParams.Some? then listParams.value else ["planes"])
  }

  /** `name` has a non-empty override under `key` (an empty dict is falsy). */
  predicate HasOverride(tests: Overrides, name: string, key: OverrideKey)
  {
    name in tests && key in tests[name] && |tests[name][key]| > 0
  }

  /** `dict.get(key, None)`, where `None` and an empty table are equally falsy. */
  function GetOrEmpty(m: map<OverrideKey, Table>, key: OverrideKey): Table
  {
    if key in m then m[key] else []
  }

  /** The parameter table that applies to one function and format: the
      exact-format override if it is non-empty, else the colour-family
      override if it is non-empty, else the default grid. */
  function Applicable(cfg: Config, name: string, fmt: Format, family: Family): (r: Table)
    ensures HasOverride(cfg.tests, name, ByFormat(fmt)) ==> r == cfg.tests[name][ByFormat(fmt)]
    ensures (!HasOverride(cfg.tests, name, ByFormat(fmt)) && HasOverride(cfg.tests, name, ByFamily(family)))
              ==> r == cfg.tests[name][ByFamily(family)]
    ensures (!HasOverride(cfg.tests, name, ByFormat(fmt)) && !HasOverride(cfg.tests, name, ByFamily(family)))
              ==> r == cfg.paramGrid
    ensures name !in cfg.tests ==> r == cfg.paramGrid
  {
    var applicable: Table :=
      if name in cfg.tests then
        var specific := GetOrEmpty(cfg.tests[name], ByFormat(fmt));
        var fromFormat := if |specific| > 0 then specific else [];
        if |fromFormat| == 0 then
          var fromFamily := GetOrEmpty(cfg.tests[name], ByFamily(family));
          if |fromFamily| > 0 then fromFamily else []
        else fromFormat
      else [];
    if |applicable| > 0 then applicable else cfg.paramGrid
  }

  /** `dict(zip(keys, values))` for distinct keys. */
  function Zip(keys: seq<string>, values: seq<Value>): (t: Table)
    requires |keys| == |values|
  {
    seq(|keys|, i requires 0 <= i < |keys| => (keys[i], values[i]))
  }

  /** The candidate parameter sets of one applicable table: normalise, set the
      list parameters aside, take the product of the other entries' domains,
      and put the list parameters back into every combination. */
  function Candidates(applicable: Table, listParams: seq<string>): seq<Table>
  {
    var normalized := Normalize(applicable, listParams);
    var extracted := Entries(normalized, listParams, true);
    var other := Entries(normalized, listParams, false);
    if |other| > 0 then
      var combos := Product(Domains(other));
      seq(|combos|, n requires 0 <= n < |combos| =>
        assert combos[n] in combos;
        Zip(Keys(other), combos[n]) + extracted)
    else [extracted]
  }

  /** Entry by entry, `chosen` takes a value from the domain of `table`'s entry:
      an item of a list, or the value itself otherwise. */
  predicate Chosen(table: Table, chosen: Table)
  {
    && |chosen| == |table|
    && forall i :: 0 <= i < |table| ==> chosen[i].0 == table[i].0 && chosen[i].1 in Domain(table[i].1)
  }

  /** The number of values a table entry enumerates: a list's length, 1 for anything else. */
  function DomainSize(v: Value): nat
  {
    if v.List? then |v.items| else 1
  }

  /** The product of the domain sizes of a table's entries (1 for no entries). */
  function CandidateCount(t: Table): nat
  {
    if |t| == 0 then 1 else DomainSize(t[0].1) * CandidateCount(t[1..])
  }

  /** The names of a concatenation are the names of its parts. */
  lemma KeySetConcat(a: Table, b: Table)
    ensures KeySet(a + b) == KeySet(a) + KeySet(b)
  {
    var ab := a + b;
    forall k | k in KeySet(ab) ensures k in KeySet(a) + KeySet(b) {
      var i :| 0 <= i < |ab| && ab[i].0 == k;
      if i >= |a| {
        assert b[i - |a|].0 == k;
      }
    }
    forall k | k in KeySet(a) + KeySet(b) ensures k in KeySet(ab) {
      if k in KeySet(a) {
        var i :| 0 <= i < |a| && a[i].0 == k;
        assert ab[i].0 == k;
      } else {
        var i :| 0 <= i < |b| && b[i].0 == k;
        assert ab[|a| + i].0 == k;
      }
    }
  }

  /** A combination of the normalised other entries, zipped with their names,
      chooses a domain value for each original entry. */
  lemma ZippedChoice(original: Table, other: Table, listParams: seq<string>, combo: seq<Value>)
    requires forall i :: 0 <= i < |original| ==> original[i].0 !in listParams
    requires other == Normalize(original, listParams)
    requires IsCombination(Domains(other), combo)
    ensures Chosen(original, Zip(Keys(other), combo))
  {
    NormalizedDomains(original, listParams);
  }

  /** A choice has the names of the table it chooses from. */
  lemma ChosenKeys(table: Table, chosen: Table)
    requires Chosen(table, chosen)
    ensures KeySet(chosen) == KeySet(table)
  {
    forall k | k in KeySet(table) ensures k in KeySet(chosen) {
      var i :| 0 <= i < |table| && table[i].0 == k;
      assert chosen[i].0 == k;
    }
  }

  /** A table made of non-list entries followed by list entries splits back into those parts. */
  lemma SplitAgain(z: Table, extracted: Table, listParams: seq<string>)
    requires forall i :: 0 <= i < |z| ==> z[i].0 !in listParams
    requires forall i :: 0 <= i < |extracted| ==> extracted[i].0 in listParams
    ensures Entries(z + extracted, listParams, true) == extracted
    ensures Entries(z + extracted, listParams, false) == z
  {
    EntriesOneSide(extracted, listParams, true);
    EntriesOneSide(z, listParams, false);
    EntriesConcat(z, extracted, listParams, true);
    EntriesConcat(z, extracted, listParams, false);
  }

  /** The candidate at position `n` is a choice for the normalised other
      entries, zipped with their names, followed by the list-parameter entries. */
  lemma CandidateParts(applicable: Table, listParams: seq<string>, n: nat) returns (z: Table)
    requires n < |Candidates(applicable, listParams)|
    ensures Candidates(applicable, listParams)[n] == z + Entries(Normalize(applicable, listParams), listParams, true)
    ensures Chosen(Entries(applicable, listParams, false), z)
  {
    var lp := listParams;
    var normalized := Normalize(applicable, lp);
    var extracted := Entries(normalized, lp, true);
    var other := Entries(normalized, lp, false);
    var original := Entries(applicable, lp, false);
    if |other| > 0 {
      var combos := Product(Domains(other));
      assert IsCombination(Domains(other), combos[n]) by {
        assert combos[n] in combos;
      }
      z := Zip(Keys(other), combos[n]);
      assert Candidates(applicable, lp)[n] == z + extracted;
      NormalizeSplit(applicable, lp);
      ZippedChoice(original, other, lp, combos[n]);
    } else {
      z := [];
      assert Candidates(applicable, lp)[n] == extracted;
      assert z + extracted == extracted;
      NormalizeSplit(applicable, lp);
    }
  }

  /** Every candidate holds exactly the names of the applicable table; its
      list parameters are the table's own entries, untouched and in order;
      and every other name carries one value of its domain, never the list. */
  lemma CandidatesShape(applicable: Table, listParams: seq<string>, p: Table)
    requires p in Candidates(applicable, listParams)
    ensures Entries(p, listParams, true) == Entries(applicable, listParams, true)
    ensures Chosen(Entries(applicable, listParams, false), Entries(p, listParams, false))
    ensures KeySet(p) == KeySet(applicable)
  {
    var lp := listParams;
    var extracted := Entries(Normalize(applicable, lp), lp, true);
    var n :| 0 <= n < |Candidates(applicable, lp)| && Candidates(applicable, lp)[n] == p;
    var z := CandidateParts(applicable, lp, n);
    ChosenKeys(Entries(applicable, lp, false), z);
    NormalizeSplit(applicable, lp);
    SplitAgain(z, extracted, lp);
    KeySetConcat(z, extracted);
    SplitKeepsKeys(applicable, lp);
  }

  /** A table with unique names yields candidates with unique names: each
      candidate is again a well-formed Python dict. */
  lemma CandidatesUnique(applicable: Table, listParams: seq<string>, p: Table)
    requires UniqueKeys(applicable)
    requires p in Candidates(applicable, listParams)
    ensures UniqueKeys(p)
  {
    var lp := listParams;
    var extracted := Entries(Normalize(applicable, lp), lp, true);
    var original := Entries(applicable, lp, false);
    var n :| 0 <= n < |Candidates(applicable, lp)| && Candidates(applicable, lp)[n] == p;
    var z := CandidateParts(applicable, lp, n);
    NormalizeSplit(applicable, lp);
    EntriesUnique(applicable, lp, true);
    EntriesUnique(applicable, lp, false);
    assert UniqueKeys(z) by {
      forall i, j | 0 <= i < j < |z| ensures z[i].0 != z[j].0 {
        assert z[i].0 == original[i].0 && z[j].0 == original[j].0;
      }
    }
    ChosenKeys(original, z);
    SplitKeepsKeys(applicable, lp);
    UniqueConcat(z, extracted);
  }

  /** Normalised non-list entries enumerate exactly the domains of the original entries. */
  lemma {:induction false} NormalizedDomains(t: Table, listParams: seq<string>)
    requires forall i :: 0 <= i < |t| ==> t[i].0 !in listParams
    ensures Domains(Normalize(t, listParams)) == Domains(t)
    ensures Size(Domains(t)) == CandidateCount(t)
  {
    var n := Normalize(t, listParams);
    assert forall i :: 0 <= i < |t| ==> Domain(n[i].1) == Domain(t[i].1);
    if |t| > 0 {
      NormalizedDomains(t[1..], listParams);
      assert Domains(t)[1..] == Domains(t[1..]);
    }
  }

  /** The number of candidates is the product of the domain sizes of the
      entries that are not list parameters (a dict or scalar counts 1);
      with no such entry there is exactly one candidate. */
  lemma CandidatesCount(applicable: Table, listParams: seq<string>)
    ensures |Candidates(applicable, listParams)| == CandidateCount(Entries(applicable, listParams, false))
    ensures |Entries(applicable, listParams, false)| == 0 ==> |Candidates(applicable, listParams)| == 1
  {
    var original := Entries(applicable, listParams, false);
    NormalizeSplit(applicable, listParams);
    assert forall i :: 0 <= i < |original| ==> original[i] in original;
    NormalizedDomains(original, listParams);
  }

  /** The positions in the table's domains of the values a choice picks. */
  lemma ChoiceIndex(table: Table, z: Table) returns (idx: seq<nat>)
    requires Chosen(table, z)
    ensures ValidIndex(Domains(table), idx)
    ensures z == Zip(Keys(table), Pick(Domains(table), idx))
  {
    var ds := Domains(table);
    assert forall j :: 0 <= j < |table| ==> z[j].1 in ds[j];
    idx := seq(|table|, j requires 0 <= j < |table| => IndexIn(ds[j], z[j].1));
    assert ValidIndex(ds, idx);
    var zipped := Zip(Keys(table), Pick(ds, idx));
    forall j | 0 <= j < |z| ensures zipped[j] == z[j] {
    }
  }

  /** `CandidatesOrder` stated for the normalised non-list entries. */
  lemma CandidatesOrderNormalized(applicable: Table, listParams: seq<string>, idx: seq<nat>)
    requires ValidIndex(Domains(Entries(Normalize(applicable, listParams), listParams, false)), idx)
    ensures var other := Entries(Normalize(applicable, listParams), listParams, false);
            && MixedRadixRank(Domains(other), idx) < |Candidates(applicable, listParams)|
            && Candidates(applicable, listParams)[MixedRadixRank(Domains(other), idx)]
               == Zip(Keys(other), Pick(Domains(other), idx)) + Entries(Normalize(applicable, listParams), listParams, true)
  {
    var other := Entries(Normalize(applicable, listParams), listParams, false);
    ProductOrder(Domains(other), idx);
  }

  /** The candidates come in `itertools.product` order: the choice of
      positions `idx` in the domains of the non-list entries stands at the
      mixed-radix rank of `idx`, so the last entry varies fastest, and the
      list-parameter entries follow it. */
  lemma CandidatesOrder(applicable: Table, listParams: seq<string>, idx: seq<nat>)
    requires ValidIndex(Domains(Entries(applicable, listParams, false)), idx)
    ensures MixedRadixRank(Domains(Entries(applicable, listParams, false)), idx) < |Candidates(applicable, listParams)|
    ensures Candidates(applicable, listParams)[MixedRadixRank(Domains(Entries(applicable, listParams, false)), idx)]
            == Zip(Keys(Entries(applicable, listParams, false)), Pick(Domains(Entries(applicable, listParams, false)), idx))
               + Entries(applicable, listParams, true)
  {
    var lp := listParams;
    var original := Entries(applicable, lp, false);
    var other := Entries(Normalize(applicable, lp), lp, false);
    assert Domains(other) == Domains(original) && Keys(other) == Keys(original) by {
      NormalizeSplit(applicable, lp);
      NormalizedDomains(original, lp);
      NormalizeIdempotent(original, lp);
    }
    assert Entries(Normalize(applicable, lp), lp, true) == Entries(applicable, lp, true) by {
      NormalizeSplit(applicable, lp);
    }
    CandidatesOrderNormalized(applicable, lp, idx);
  }

  /** Every choice of one domain value per non-list entry, followed by the
      list-parameter entries, is a candidate: nothing of the product is lost. */
  lemma CandidatesComplete(applicable: Table, listParams: seq<string>, z: Table)
    requires Chosen(Entries(applicable, listParams, false), z)
    ensures z + Entries(applicable, listParams, true) in Candidates(applicable, listParams)
  {
    var idx := ChoiceIndex(Entries(applicable, listParams, false), z);
    CandidatesOrder(applicable, listParams, idx);
  }

  /** The test cases one function yields for one format: each candidate that
      the function accepts, in candidate order; rejected ones are skipped. */
  function Accepted(f: Function, fmt: Format, ps: seq<Table>, accepts: (Callable, Table, Format) -> bool): (r: seq<TestCase>)
    ensures forall tc :: tc in r ==>
              tc == TestCase(f.name, f.callable, tc.params, fmt) && tc.params in ps && accepts(f.callable, tc.params, fmt)
    ensures forall p :: p in ps && accepts(f.callable, p, fmt) ==> TestCase(f.name, f.callable, p, fmt) in r
    ensures (forall p :: p in ps ==> accepts(f.callable, p, fmt)) ==> |r| == |ps|
    ensures |r| <= |ps|
  {
    if |ps| == 0 then []
    else
      (if accepts(f.callable, ps[0], fmt) then [TestCase(f.name, f.callable, ps[0], fmt)] else [])
      + Accepted(f, fmt, ps[1..], accepts)
  }

  /** Filtering keeps candidate order: the cases of `xs` come before those of `ys`. */
  lemma {:induction false} AcceptedSplit(f: Function, fmt: Format, xs: seq<Table>, ys: seq<Table>,
                                         accepts: (Callable, Table, Format) -> bool)
    ensures Accepted(f, fmt, xs + ys, accepts) == Accepted(f, fmt, xs, accepts) + Accepted(f, fmt, ys, accepts)
  {
    if |xs| == 0 {
      assert xs + ys == ys;
    } else {
      var head: seq<TestCase> := if accepts(f.callable, xs[0], fmt) then [TestCase(f.name, f.callable, xs[0], fmt)] else [];
      var middle, last := Accepted(f, fmt, xs[1..], accepts), Accepted(f, fmt, ys, accepts);
      calc {
        Accepted(f, fmt, xs + ys, accepts);
        == { assert (xs + ys)[0] == xs[0]; assert (xs + ys)[1..] == xs[1..] + ys; }
        head + Accepted(f, fmt, xs[1..] + ys, accepts);
        == { AcceptedSplit(f, fmt, xs[1..], ys, accepts); }
        head + (middle + last);
        ==
        (head + middle) + last;
      }
    }
  }

  /** When the function accepts every candidate, the i-th case carries the i-th candidate. */
  lemma {:induction false} AcceptedAll(f: Function, fmt: Format, ps: seq<Table>, accepts: (Callable, Table, Format) -> bool)
    requires forall p :: p in ps ==> accepts(f.callable, p, fmt)
    ensures Accepted(f, fmt, ps, accepts) == seq(|ps|, i requires 0 <= i < |ps| => TestCase(f.name, f.callable, ps[i], fmt))
  {
    if |ps| > 0 {
      assert ps[0] in ps;
      assert forall p :: p in ps[1..] ==> p in ps;
      AcceptedAll(f, fmt, ps[1..], accepts);
    }
  }

  /** The test cases of one (function, format) pair. */
  function PairCases(cfg: Config, env: Env, f: Function, fmt: Format): seq<TestCase>
  {
    var applicable := Applicable(cfg, f.name, fmt, env.family(fmt));
    Accepted(f, fmt, Candidates(applicable, cfg.listParams), env.accepts)
  }

  /** What a generated test case satisfies: its function and format come
      from the configuration, its parameters are a candidate of the table
      that applies to them, and the function accepts them. */
  predicate WellFormedCase(cfg: Config, env: Env, tc: TestCase)
  {
    && tc.format in cfg.formats
    && Function(tc.name, tc.callable) in cfg.functions
    && tc.params in Candidates(Applicable(cfg, tc.name, tc.format, env.family(tc.format)), cfg.listParams)
    && env.accepts(tc.callable, tc.params, tc.format)
  }

  /** The test cases of one (function, format) pair, as a function of the format. */
  function PairCasesOf(cfg: Config, env: Env, f: Function): Format -> seq<TestCase>
  {
    fmt => PairCases(cfg, env, f, fmt)
  }

  /** The test cases of one function over `formats`, in format order. */
  function FunctionCases(cfg: Config, env: Env, f: Function, formats: seq<Format>): seq<TestCase>
  {
    FlatMap(formats, PairCasesOf(cfg, env, f))
  }

  /** Every case of one function belongs to that function, has one of the
      given formats, and carries a candidate the function accepts. */
  lemma FunctionCasesMember(cfg: Config, env: Env, f: Function, formats: seq<Format>)
    ensures forall tc :: tc in FunctionCases(cfg, env, f, formats) ==>
              tc.name == f.name && tc.callable == f.callable && tc.format in formats
    ensures forall tc :: tc in FunctionCases(cfg, env, f, formats) ==>
              tc.params in Candidates(Applicable(cfg, tc.name, tc.format, env.family(tc.format)), cfg.listParams)
              && env.accepts(tc.callable, tc.params, tc.format)
  {
    forall tc | tc in FunctionCases(cfg, env, f, formats)
      ensures tc.name == f.name && tc.callable == f.callable && tc.format in formats
      ensures tc.params in Candidates(Applicable(cfg, tc.name, tc.format, env.family(tc.format)), cfg.listParams)
      ensures env.accepts(tc.callable, tc.params, tc.format)
    {
      FlatMapMember(formats, PairCasesOf(cfg, env, f), tc);
      var fmt :| fmt in formats && tc in PairCasesOf(cfg, env, f)(fmt);
      assert tc in PairCases(cfg, env, f, fmt);
    }
  }

  /** The test cases of one function, as a function of the function. */
  function FunctionCasesOf(cfg: Config, env: Env): Function -> seq<TestCase>
  {
    f => FunctionCases(cfg, env, f, cfg.formats)
  }

  /** The test cases of `functions`, in function order. */
  function CasesFrom(cfg: Config, env: Env, functions: seq<Function>): seq<TestCase>
  {
    FlatMap(functions, FunctionCasesOf(cfg, env))
  }

  /** Every case of `functions` belongs to one of them, has a configured
      format, and carries a candidate its function accepts. */
  lemma CasesFromMember(cfg: Config, env: Env, functions: seq<Function>)
    ensures forall tc :: tc in CasesFrom(cfg, env, functions) ==>
              Function(tc.name, tc.callable) in functions && tc.format in cfg.formats
    ensures forall tc :: tc in CasesFrom(cfg, env, functions) ==>
              tc.params in Candidates(Applicable(cfg, tc.name, tc.format, env.family(tc.format)), cfg.listParams)
              && env.accepts(tc.callable, tc.params, tc.format)
  {
    forall tc | tc in CasesFrom(cfg, env, functions)
      ensures Function(tc.name, tc.callable) in functions && tc.format in cfg.formats
      ensures tc.params in Candidates(Applicable(cfg, tc.name, tc.format, env.family(tc.format)), cfg.listParams)
      ensures env.accepts(tc.callable, tc.params, tc.format)
    {
      FlatMapMember(functions, FunctionCasesOf(cfg, env), tc);
      var f :| f in functions && tc in FunctionCasesOf(cfg, env)(f);
      FunctionCasesMember(cfg, env, f, cfg.formats);
      assert Function(tc.name, tc.callable) == f;
    }
  }

  /** `generate_test_cases`: functions in order, then formats in order, then
      candidates in product order; every emitted case is well formed, and in
      particular accepted by its own function for its own format. */
  function GenerateTestCases(cfg: Config, env: Env): (r: seq<TestCase>)
    ensures forall tc :: tc in r ==> env.accepts(tc.callable, tc.params, tc.format)
    ensures forall tc :: tc in r ==> WellFormedCase(cfg, env, tc)
  {
    CasesFromMember(cfg, env, cfg.functions);
    CasesFrom(cfg, env, cfg.functions)
  }

  /** The cases of a function precede those of every later function. */
  lemma CasesFromSplit(cfg: Config, env: Env, fs: seq<Function>, gs: seq<Function>)
    ensures CasesFrom(cfg, env, fs + gs) == CasesFrom(cfg, env, fs) + CasesFrom(cfg, env, gs)
  {
    FlatMapSplit(fs, gs, FunctionCasesOf(cfg, env));
  }

  /** For one function, the cases of a format precede those of every later format. */
  lemma FunctionCasesSplit(cfg: Config, env: Env, f: Function, xs: seq<Format>, ys: seq<Format>)
    ensures FunctionCases(cfg, env, f, xs + ys) == FunctionCases(cfg, env, f, xs) + FunctionCases(cfg, env, f, ys)
  {
    FlatMapSplit(xs, ys, PairCasesOf(cfg, env, f));
  }

  /** A case of a pair whose format is among `formats` is among the function's cases. */
  lemma InFunctionCases(cfg: Config, env: Env, f: Function, formats: seq<Format>, fmt: Format, tc: TestCase)
    requires fmt in formats && tc in PairCases(cfg, env, f, fmt)
    ensures tc in FunctionCases(cfg, env, f, formats)
  {
    FlatMapMember(formats, PairCasesOf(cfg, env, f), tc);
    assert tc in PairCasesOf(cfg, env, f)(fmt);
  }

  /** A case of a function among `functions` is among their cases. */
  lemma InCasesFrom(cfg: Config, env: Env, functions: seq<Function>, f: Function, tc: TestCase)
    requires f in functions && tc in FunctionCases(cfg, env, f, cfg.formats)
    ensures tc in CasesFrom(cfg, env, functions)
  {
    FlatMapMember(functions, FunctionCasesOf(cfg, env), tc);
    assert tc in FunctionCasesOf(cfg, env)(f);
  }

  /** No accepted candidate is lost: every candidate of a configured function
      and format that the function accepts is emitted. */
  lemma GenerateComplete(cfg: Config, env: Env, f: Function, fmt: Format, p: Table)
    requires f in cfg.functions && fmt in cfg.formats
    requires p in Candidates(Applicable(cfg, f.name, fmt, env.family(fmt)), cfg.listParams)
    requires env.accepts(f.callable, p, fmt)
    ensures TestCase(f.name, f.callable, p, fmt) in GenerateTestCases(cfg, env)
  {
    var tc := TestCase(f.name, f.callable, p, fmt);
    assert tc in PairCases(cfg, env, f, fmt);
    InFunctionCases(cfg, env, f, cfg.formats, fmt, tc);
    InCasesFrom(cfg, env, cfg.functions, f, tc);
  }

  /** The parameters of every generated case hold exactly the names of the
      table that applies to its function and format, carry the list
      parameters verbatim, and take one domain value for every other name. */
  lemma GeneratedParams(cfg: Config, env: Env, tc: TestCase)
    requires tc in GenerateTestCases(cfg, env)
    ensures var applicable := Applicable(cfg, tc.name, tc.format, env.family(tc.format));
      && KeySet(tc.params) == KeySet(applicable)
      && Entries(tc.params, cfg.listParams, true) == Entries(applicable, cfg.listParams, true)
      && Chosen(Entries(applicable, cfg.listParams, false), Entries(tc.params, cfg.listParams, false))
  {
    CandidatesShape(Applicable(cfg, tc.name, tc.format, env.family(tc.format)), cfg.listParams, tc.params);
  }

  /** When the function accepts every candidate, a (function, format) pair
      yields the product of its non-list domain sizes in test cases. */
  /** Every choice of domain values for a pair's non-list entries that the
      function accepts, with the list parameters after it, becomes a case of that pair. */
  lemma PairCasesComplete(cfg: Config, env: Env, f: Function, fmt: Format, z: Table)
    requires Chosen(Entries(Applicable(cfg, f.name, fmt, env.family(fmt)), cfg.listParams, false), z)
    requires env.accepts(f.callable, z + Entries(Applicable(cfg, f.name, fmt, env.family(fmt)), cfg.listParams, true), fmt)
    ensures TestCase(f.name, f.callable, z + Entries(Applicable(cfg, f.name, fmt, env.family(fmt)), cfg.listParams, true), fmt)
            in PairCases(cfg, env, f, fmt)
  {
    CandidatesComplete(Applicable(cfg, f.name, fmt, env.family(fmt)), cfg.listParams, z);
  }

  /** When the function accepts everything, a pair's cases follow
      `itertools.product` order over the non-list entries' domains. */
  lemma PairCasesOrder(cfg: Config, env: Env, f: Function, fmt: Format, idx: seq<nat>)
    requires forall p :: env.accepts(f.callable, p, fmt)
    requires ValidIndex(Domains(Entries(Applicable(cfg, f.name, fmt, env.family(fmt)), cfg.listParams, false)), idx)
    ensures var applicable := Applicable(cfg, f.name, fmt, env.family(fmt));
            var original := Entries(applicable, cfg.listParams, false);
            var rank := MixedRadixRank(Domains(original), idx);
            && rank < |PairCases(cfg, env, f, fmt)|
            && PairCases(cfg, env, f, fmt)[rank]
               == TestCase(f.name, f.callable, Zip(Keys(original), Pick(Domains(original), idx)) + Entries(applicable, cfg.listParams, true), fmt)
  {
    var applicable := Applicable(cfg, f.name, fmt, env.family(fmt));
    CandidatesOrder(applicable, cfg.listParams, idx);
    AcceptedAll(f, fmt, Candidates(applicable, cfg.listParams), env.accepts);
  }

  lemma PairCasesCount(cfg: Config, env: Env, f: Function, fmt: Format)
    requires forall p :: env.accepts(f.callable, p, fmt)
    ensures |PairCases(cfg, env, f, fmt)|
            == CandidateCount(Entries(Applicable(cfg, f.name, fmt, env.family(fmt)), cfg.listParams, false))
  {
    CandidatesCount(Applicable(cfg, f.name, fmt, env.family(fmt)), cfg.listParams);
  }
}
