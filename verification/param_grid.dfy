/**
  Parameter values and parameter tables as the benchmark configuration
  holds them (vsbenchmark/core.py), the normalisation `_normalize_params`
  applies, and the Cartesian product `itertools.product` takes.

  A table is a Python dict: its keys are unique and its insertion order is
  kept, and the product's order depends on that order, so a table is an
  ordered sequence of entries rather than a `map`.
 */
module ParamGrid {

  /** A parameter value: a list (an enumeration domain), a dict (one atomic
      value), or any other Python value, identified by its `repr`. */
  datatype Value =
    | Scalar(repr: string)
    | List(items: seq<Value>)
    | Dict(entries: seq<(string, Value)>)

  /** An ordered parameter table: name ↦ value, in insertion order. */
  type Table = seq<(string, Value)>

  /** The names of a table, in order. */
  function Keys(t: Table): seq<string>
  {
    seq(|t|, i requires 0 <= i < |t| => t[i].0)
  }

  /** The set of names of a table. */
  function KeySet(t: Table): set<string>
  {
    set i | 0 <= i < |t| :: t[i].0
  }

  /** A well-formed table (a Python dict) never repeats a name. */
  predicate UniqueKeys(t: Table)
  {
    forall i, j :: 0 <= i < j < |t| ==> t[i].0 != t[j].0
  }

  /** What `_normalize_params` does to one entry: a dict stays as it is, a
      value that is not a list and whose name is not a list parameter becomes
      a one-element list, anything else stays as it is. */
  function NormalizeValue(k: string, v: Value, listParams: seq<string>): Value
  {
    if v.Dict? then v
    else if !v.List? && k !in listParams then List([v])
    else v
  }

  /** `_normalize_params`: the same names in the same order, each value normalised. */
  function Normalize(t: Table, listParams: seq<string>): (r: Table)
    ensures |r| == |t|
    ensures forall i :: 0 <= i < |t| ==> r[i].0 == t[i].0
    ensures forall i :: 0 <= i < |t| && t[i].1.Dict? ==> r[i].1 == t[i].1
    ensures forall i :: 0 <= i < |t| && t[i].1.Scalar? && t[i].0 !in listParams ==> r[i].1 == List([t[i].1])
    ensures forall i :: 0 <= i < |t| && t[i].1.Scalar? && t[i].0 in listParams ==> r[i].1 == t[i].1
    ensures forall i :: 0 <= i < |t| && t[i].1.List? ==> r[i].1 == t[i].1
  {
    if |t| == 0 then []
    else [(t[0].0, NormalizeValue(t[0].0, t[0].1, listParams))] + Normalize(t[1..], listParams)
  }

  /** Normalisation keeps the key set and leaves every entry outside the list
      parameters as a list or a dict; normalising twice changes nothing. */
  lemma {:induction false} NormalizeIdempotent(t: Table, listParams: seq<string>)
    ensures KeySet(Normalize(t, listParams)) == KeySet(t)
    ensures Keys(Normalize(t, listParams)) == Keys(t)
    ensures forall i :: 0 <= i < |t| && t[i].0 !in listParams ==>
              Normalize(t, listParams)[i].1.List? || Normalize(t, listParams)[i].1.Dict?
    ensures Normalize(Normalize(t, listParams), listParams) == Normalize(t, listParams)
  {
    var n := Normalize(t, listParams);
    assert Keys(n) == Keys(t);
    forall k | k in KeySet(t) ensures k in KeySet(n) {
      var i :| 0 <= i < |t| && t[i].0 == k;
      assert n[i].0 == k;
    }
    var nn := Normalize(n, listParams);
    forall i | 0 <= i < |n| ensures nn[i] == n[i] {
      assert nn[i].0 == n[i].0;
    }
  }

  /** The entries whose name is (`listed`) or is not (`!listed`) a list
      parameter, in order: `extracted_list_params` and `other_params`. */
  function Entries(t: Table, listParams: seq<string>, listed: bool): (r: Table)
    ensures forall i :: 0 <= i < |r| ==> (r[i].0 in listParams <==> listed)
    ensures |r| <= |t|
  {
    if |t| == 0 then []
    else (if (t[0].0 in listParams) == listed then [t[0]] else []) + Entries(t[1..], listParams, listed)
  }

  /** An entry is selected exactly when it is in the table and on the
      requested side of the list-parameter split. */
  lemma {:induction false} EntriesMember(t: Table, listParams: seq<string>, listed: bool)
    ensures forall e :: e in Entries(t, listParams, listed) <==> e in t && (e.0 in listParams <==> listed)
  {
    if |t| > 0 {
      EntriesMember(t[1..], listParams, listed);
      assert t == [t[0]] + t[1..];
    }
  }

  /** Selecting entries distributes over concatenation. */
  lemma {:induction false} EntriesConcat(a: Table, b: Table, listParams: seq<string>, listed: bool)
    ensures Entries(a + b, listParams, listed) == Entries(a, listParams, listed) + Entries(b, listParams, listed)
  {
    if |a| == 0 {
      assert a + b == b;
    } else {
      var head: Table := if (a[0].0 in listParams) == listed then [a[0]] else [];
      var middle, last := Entries(a[1..], listParams, listed), Entries(b, listParams, listed);
      calc {
        Entries(a + b, listParams, listed);
        == { assert (a + b)[0] == a[0]; assert (a + b)[1..] == a[1..] + b; }
        head + Entries(a[1..] + b, listParams, listed);
        == { EntriesConcat(a[1..], b, listParams, listed); }
        head + (middle + last);
        ==
        (head + middle) + last;
      }
    }
  }

  /** A table all of whose names fall on one side keeps everything on that side and nothing on the other. */
  lemma {:induction false} EntriesOneSide(t: Table, listParams: seq<string>, listed: bool)
    requires forall i :: 0 <= i < |t| ==> (t[i].0 in listParams <==> listed)
    ensures Entries(t, listParams, listed) == t
    ensures Entries(t, listParams, !listed) == []
  {
    if |t| > 0 {
      EntriesOneSide(t[1..], listParams, listed);
    }
  }

  /** The names on one side of the split are the table's names on that side. */
  lemma EntriesKeys(t: Table, listParams: seq<string>, listed: bool)
    ensures forall k :: k in KeySet(Entries(t, listParams, listed)) <==> k in KeySet(t) && (k in listParams <==> listed)
  {
    var r := Entries(t, listParams, listed);
    EntriesMember(t, listParams, listed);
    forall k | k in KeySet(t) && (k in listParams <==> listed) ensures k in KeySet(r) {
      var i :| 0 <= i < |t| && t[i].0 == k;
      assert t[i] in t;
      var j :| 0 <= j < |r| && r[j] == t[i];
    }
    forall k | k in KeySet(r) ensures k in KeySet(t) {
      var j :| 0 <= j < |r| && r[j].0 == k;
      assert r[j] in r;
      var i :| 0 <= i < |t| && t[i] == r[j];
    }
  }

  /** Splitting a table into list and other entries loses and invents no name. */
  lemma SplitKeepsKeys(t: Table, listParams: seq<string>)
    ensures |Entries(t, listParams, true)| + |Entries(t, listParams, false)| == |t|
    ensures KeySet(Entries(t, listParams, true)) + KeySet(Entries(t, listParams, false)) == KeySet(t)
    ensures KeySet(Entries(t, listParams, true)) !! KeySet(Entries(t, listParams, false))
  {
    SplitLength(t, listParams);
    EntriesKeys(t, listParams, true);
    EntriesKeys(t, listParams, false);
  }

  /** Two tables with unique names and no name in common make one with unique names. */
  lemma UniqueConcat(a: Table, b: Table)
    requires UniqueKeys(a) && UniqueKeys(b) && KeySet(a) !! KeySet(b)
    ensures UniqueKeys(a + b)
  {
    var ab := a + b;
    forall i, j | 0 <= i < j < |ab| ensures ab[i].0 != ab[j].0 {
      if i < |a| && j >= |a| {
        assert ab[i].0 == a[i].0 && a[i].0 in KeySet(a);
        assert ab[j].0 == b[j - |a|].0 && b[j - |a|].0 in KeySet(b);
      } else if i >= |a| {
        assert ab[i] == b[i - |a|] && ab[j] == b[j - |a|];
      }
    }
  }

  /** Either side of the split of a table with unique names has unique names. */
  lemma {:induction false} EntriesUnique(t: Table, listParams: seq<string>, listed: bool)
    requires UniqueKeys(t)
    ensures UniqueKeys(Entries(t, listParams, listed))
  {
    if |t| > 0 {
      var tail := t[1..];
      assert UniqueKeys(tail) by {
        forall i, j | 0 <= i < j < |tail| ensures tail[i].0 != tail[j].0 {
          assert tail[i] == t[i + 1] && tail[j] == t[j + 1];
        }
      }
      EntriesUnique(tail, listParams, listed);
      EntriesKeys(tail, listParams, listed);
      var h: Table := if (t[0].0 in listParams) == listed then [t[0]] else [];
      forall i | 0 <= i < |tail| ensures tail[i].0 != t[0].0 {
        assert tail[i] == t[i + 1];
      }
      assert t[0].0 !in KeySet(tail);
      assert KeySet(h) <= {t[0].0};
      UniqueConcat(h, Entries(tail, listParams, listed));
    }
  }

  /** Every entry goes to exactly one side of the split. */
  lemma {:induction false} SplitLength(t: Table, listParams: seq<string>)
    ensures |Entries(t, listParams, true)| + |Entries(t, listParams, false)| == |t|
  {
    if |t| > 0 {
      SplitLength(t[1..], listParams);
    }
  }

  /** Normalising leaves the list-parameter entries exactly as they were, and
      normalising commutes with picking out the other entries. */
  lemma {:induction false} NormalizeSplit(t: Table, listParams: seq<string>)
    ensures Entries(Normalize(t, listParams), listParams, true) == Entries(t, listParams, true)
    ensures Entries(Normalize(t, listParams), listParams, false) == Normalize(Entries(t, listParams, false), listParams)
  {
    if |t| > 0 {
      NormalizeSplit(t[1..], listParams);
      var n := Normalize(t, listParams);
      var k := t[0].0;
      assert n[1..] == Normalize(t[1..], listParams);
      assert Entries(n, listParams, true) == (if k in listParams then [n[0]] else []) + Entries(n[1..], listParams, true);
      assert Entries(n, listParams, false) == (if k !in listParams then [n[0]] else []) + Entries(n[1..], listParams, false);
      if k in listParams {
        assert n[0] == t[0];
      } else {
        var o := Entries(t, listParams, false);
        assert o == [t[0]] + Entries(t[1..], listParams, false);
        assert o[1..] == Entries(t[1..], listParams, false);
        assert Normalize(o, listParams) == [n[0]] + Normalize(o[1..], listParams);
      }
    }
  }

  /** The enumeration domain of an entry that is not a list parameter: the
      items of a list, or the value alone (`if not isinstance(v, list): [v]`). */
  function Domain(v: Value): seq<Value>
  {
    if v.List? then v.items else [v]
  }

  /** The domains of a table's entries, in order. */
  function Domains(t: Table): seq<seq<Value>>
  {
    seq(|t|, i requires 0 <= i < |t| => Domain(t[i].1))
  }

  /** The number of combinations of a sequence of domains. */
  function Size(ds: seq<seq<Value>>): nat
  {
    if |ds| == 0 then 1 else |ds[0]| * Size(ds[1..])
  }

  /** `c` picks one value from each domain, in order. */
  predicate IsCombination(ds: seq<seq<Value>>, c: seq<Value>)
  {
    |c| == |ds| && forall j :: 0 <= j < |ds| ==> c[j] in ds[j]
  }

  /** `x` put in front of every tail, in order. */
  function Prefix(x: Value, tails: seq<seq<Value>>): seq<seq<Value>>
  {
    seq(|tails|, i requires 0 <= i < |tails| => [x] + tails[i])
  }

  /** Every value of `d`, in order, put in front of every tail, in order. */
  function PrefixEach(d: seq<Value>, tails: seq<seq<Value>>): (r: seq<seq<Value>>)
    ensures |r| == |d| * |tails|
  {
    if |d| == 0 then []
    else
      assert |d| * |tails| == |tails| + (|d| - 1) * |tails|;
      Prefix(d[0], tails) + PrefixEach(d[1..], tails)
  }

  /** Each entry of `PrefixEach(d, tails)` is a value of `d` before a tail. */
  lemma {:induction false} PrefixEachMember(d: seq<Value>, tails: seq<seq<Value>>, c: seq<Value>)
    requires c in PrefixEach(d, tails)
    ensures |c| > 0 && c[0] in d && c[1..] in tails
  {
    var first := Prefix(d[0], tails);
    var rest := PrefixEach(d[1..], tails);
    assert PrefixEach(d, tails) == first + rest;
    if c in first {
      var i :| 0 <= i < |first| && first[i] == c;
      assert c[1..] == tails[i];
    } else {
      PrefixEachMember(d[1..], tails, c);
      assert c[0] in d[1..];
    }
  }

  /** `itertools.product(*ds)`: every combination, the first domain varying
      slowest and the last fastest; no domains give the one empty combination. */
  function Product(ds: seq<seq<Value>>): (r: seq<seq<Value>>)
    ensures |r| == Size(ds)
    ensures forall c :: c in r ==> IsCombination(ds, c)
  {
    if |ds| == 0 then [[]]
    else
      var r := PrefixEach(ds[0], Product(ds[1..]));
      assert forall c :: c in r ==> IsCombination(ds, c) by {
        forall c | c in r ensures IsCombination(ds, c) {
          PrefixEachMember(ds[0], Product(ds[1..]), c);
          assert IsCombination(ds[1..], c[1..]);
          forall j | 0 <= j < |ds| ensures c[j] in ds[j] {
            if j > 0 {
              assert c[j] == c[1..][j - 1];
            }
          }
        }
      }
      r
  }

  /** A choice of one position in each domain. */
  predicate ValidIndex(ds: seq<seq<Value>>, idx: seq<nat>)
  {
    |idx| == |ds| && forall j :: 0 <= j < |ds| ==> idx[j] < |ds[j]|
  }

  /** The combination a choice of positions selects. */
  function Pick(ds: seq<seq<Value>>, idx: seq<nat>): (c: seq<Value>)
    requires ValidIndex(ds, idx)
    ensures IsCombination(ds, c)
  {
    seq(|ds|, j requires 0 <= j < |ds| => ds[j][idx[j]])
  }

  /** The mixed-radix number whose digits are `idx`, most significant first. */
  function MixedRadixRank(ds: seq<seq<Value>>, idx: seq<nat>): nat
    requires ValidIndex(ds, idx)
  {
    if |ds| == 0 then 0 else idx[0] * Size(ds[1..]) + MixedRadixRank(ds[1..], idx[1..])
  }

  /** Position `k * |tails| + m` of `PrefixEach(d, tails)` holds `d[k]` before `tails[m]`. */
  lemma {:induction false} PrefixEachAt(d: seq<Value>, tails: seq<seq<Value>>, k: nat, m: nat)
    requires k < |d| && m < |tails|
    ensures k * |tails| + m < |PrefixEach(d, tails)|
    ensures PrefixEach(d, tails)[k * |tails| + m] == [d[k]] + tails[m]
  {
    var t := |tails|;
    var first := Prefix(d[0], tails);
    var rest := PrefixEach(d[1..], tails);
    var all := PrefixEach(d, tails);
    assert all == first + rest;
    assert |all| == t + |rest|;
    if k > 0 {
      var j := (k - 1) * t + m;
      PrefixEachAt(d[1..], tails, k - 1, m);
      assert j < |rest|;
      MulStep(k, t);
      assert k * t + m == t + j;
      assert all[t + j] == rest[j];
    }
  }

  lemma MulStep(k: nat, t: nat)
    requires k > 0
    ensures k * t == t + (k - 1) * t
  {
  }

  /** The order of `itertools.product`: the combination picking positions
      `idx` stands at the mixed-radix rank of `idx`, so the last domain varies
      fastest and the first slowest. */
  lemma {:induction false} ProductOrder(ds: seq<seq<Value>>, idx: seq<nat>)
    requires ValidIndex(ds, idx)
    ensures MixedRadixRank(ds, idx) < Size(ds)
    ensures Product(ds)[MixedRadixRank(ds, idx)] == Pick(ds, idx)
  {
    if |ds| > 0 {
      var tails := Product(ds[1..]);
      assert ValidIndex(ds[1..], idx[1..]);
      ProductOrder(ds[1..], idx[1..]);
      PrefixEachAt(ds[0], tails, idx[0], MixedRadixRank(ds[1..], idx[1..]));
      assert Pick(ds, idx) == [ds[0][idx[0]]] + Pick(ds[1..], idx[1..]);
    }
  }

  /** Every combination of the domains occurs in their product. */
  lemma ProductComplete(ds: seq<seq<Value>>, c: seq<Value>)
    requires IsCombination(ds, c)
    ensures c in Product(ds)
  {
    var idx := seq(|ds|, j requires 0 <= j < |ds| => IndexIn(ds[j], c[j]));
    assert ValidIndex(ds, idx);
    ProductOrder(ds, idx);
    assert Pick(ds, idx) == c;
  }

  /** A position of `x` in `d`. */
  function IndexIn(d: seq<Value>, x: Value): (i: nat)
    requires x in d
    ensures i < |d| && d[i] == x
  {
    if d[0] == x then 0 else 1 + IndexIn(d[1..], x)
  }
}
