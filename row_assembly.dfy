/**
 * Turning fetched rows into dictionaries (backend/api/views.py):
 * `[dict(zip(columns, row)) for row in rows]`. A Python dict is modelled as its
 * key/value pairs in insertion order, with distinct keys.
 */
module RowAssembly {
  import opened Wrappers

  type Dict<V> = seq<(string, V)>

  function PairKeys<V>(d: seq<(string, V)>): seq<string> {
    seq(|d|, i requires 0 <= i < |d| => d[i].0)
  }

  predicate UniqueKeys<V>(d: seq<(string, V)>) {
    forall i, j :: 0 <= i < j < |d| ==> d[i].0 != d[j].0
  }

  /** `zip(columns, row)`: pairs up to the shorter of the two. */
  function Zip<V>(columns: seq<string>, row: seq<V>): (ps: seq<(string, V)>)
    ensures |ps| == if |columns| <= |row| then |columns| else |row|
    ensures forall j :: 0 <= j < |ps| ==> ps[j] == (columns[j], row[j])
  {
    if |columns| == 0 || |row| == 0 then []
    else [(columns[0], row[0])] + Zip(columns[1..], row[1..])
  }

  /** `d.get(k)`. */
  function Lookup<V>(d: Dict<V>, k: string): (r: Option<V>)
    ensures r.None? <==> k !in PairKeys(d)
  {
    if |d| == 0 then None
    else if d[0].0 == k then assert PairKeys(d)[0] == k; Some(d[0].1)
    else
      assert PairKeys(d) == [d[0].0] + PairKeys(d[1..]);
      Lookup(d[1..], k)
  }

  lemma PairKeysCons<V>(x: (string, V), d: Dict<V>)
    ensures PairKeys([x] + d) == [x.0] + PairKeys(d)
  {
  }

  /** `d[k] = v`: a key already present keeps its place and takes the new value;
      a new key goes last. */
  function SetItem<V>(d: Dict<V>, k: string, v: V): (e: Dict<V>)
    ensures PairKeys(e) == if k in PairKeys(d) then PairKeys(d) else PairKeys(d) + [k]
  {
    if |d| == 0 then [(k, v)]
    else
      PairKeysCons(d[0], d[1..]);
      assert d == [d[0]] + d[1..];
      if d[0].0 == k then
        PairKeysCons((k, v), d[1..]);
        [(k, v)] + d[1..]
      else
        var rest := SetItem(d[1..], k, v);
        PairKeysCons(d[0], rest);
        [d[0]] + rest
  }

  /** After `d[k] = v`, `k` maps to `v` and every other key to what it mapped to before. */
  lemma {:induction false} SetItemLookup<V>(d: Dict<V>, k: string, v: V, k': string)
    ensures Lookup(SetItem(d, k, v), k') == if k' == k then Some(v) else Lookup(d, k')
  {
    if |d| > 0 && d[0].0 != k {
      SetItemLookup(d[1..], k, v, k');
      assert SetItem(d, k, v)[1..] == SetItem(d[1..], k, v);
    }
  }

  /** Keys are unique exactly when the key sequence has no repeats. */
  lemma UniqueKeysIff<V>(d: Dict<V>)
    ensures UniqueKeys(d) <==> forall i, j :: 0 <= i < j < |d| ==> PairKeys(d)[i] != PairKeys(d)[j]
  {
    assert forall i :: 0 <= i < |d| ==> PairKeys(d)[i] == d[i].0;
  }

  lemma SetItemUnique<V>(d: Dict<V>, k: string, v: V)
    requires UniqueKeys(d)
    ensures UniqueKeys(SetItem(d, k, v))
  {
    var e := SetItem(d, k, v);
    UniqueKeysIff(d);
    UniqueKeysIff(e);
    if k !in PairKeys(d) {
      forall i | 0 <= i < |d| ensures PairKeys(e)[i] != k {
        assert PairKeys(e)[i] == PairKeys(d)[i];
      }
    }
  }

  /** `dict(pairs)`: the pairs are set into an empty dict from first to last. */
  function DictOf<V>(pairs: seq<(string, V)>): (d: Dict<V>)
    ensures UniqueKeys(d)
  {
    if |pairs| == 0 then []
    else
      var last := pairs[|pairs| - 1];
      var init := DictOf(pairs[..|pairs| - 1]);
      SetItemUnique(init, last.0, last.1);
      SetItem(init, last.0, last.1)
  }

  /** The value of the last pair with key `k`: the reference meaning of `dict(pairs)[k]`. */
  function LastValue<V>(pairs: seq<(string, V)>, k: string): Option<V> {
    if |pairs| == 0 then None
    else if pairs[|pairs| - 1].0 == k then Some(pairs[|pairs| - 1].1)
    else LastValue(pairs[..|pairs| - 1], k)
  }

  /** The keys in order of first appearance. */
  function FirstAppearances(ks: seq<string>): seq<string> {
    if |ks| == 0 then []
    else
      var init := FirstAppearances(ks[..|ks| - 1]);
      if ks[|ks| - 1] in ks[..|ks| - 1] then init else init + [ks[|ks| - 1]]
  }

  /** Looking a key up in `dict(pairs)` finds the value of the last pair with that key. */
  lemma {:induction false} DictOfLookup<V>(pairs: seq<(string, V)>, k: string)
    ensures Lookup(DictOf(pairs), k) == LastValue(pairs, k)
  {
    if |pairs| > 0 {
      var last := pairs[|pairs| - 1];
      DictOfLookup(pairs[..|pairs| - 1], k);
      SetItemLookup(DictOf(pairs[..|pairs| - 1]), last.0, last.1, k);
    }
  }

  /** `dict(pairs)` holds each key once, in the order the keys first appear. */
  lemma {:induction false} DictOfKeys<V>(pairs: seq<(string, V)>)
    ensures PairKeys(DictOf(pairs)) == FirstAppearances(PairKeys(pairs))
  {
    if |pairs| > 0 {
      var init := pairs[..|pairs| - 1];
      DictOfKeys(init);
      assert PairKeys(pairs)[..|pairs| - 1] == PairKeys(init);
      FirstAppearancesMembers(PairKeys(init));
    }
  }

  lemma {:induction false} FirstAppearancesMembers(ks: seq<string>)
    ensures forall k :: k in FirstAppearances(ks) <==> k in ks
  {
    if |ks| > 0 {
      FirstAppearancesMembers(ks[..|ks| - 1]);
      assert ks == ks[..|ks| - 1] + [ks[|ks| - 1]];
    }
  }

  /** The last pair with key `k` decides `LastValue`; with no such pair it is None. */
  lemma {:induction false} LastValueAt<V>(pairs: seq<(string, V)>, j: int)
    requires 0 <= j < |pairs|
    requires forall j' :: j < j' < |pairs| ==> pairs[j'].0 != pairs[j].0
    ensures LastValue(pairs, pairs[j].0) == Some(pairs[j].1)
  {
    if j < |pairs| - 1 {
      LastValueAt(pairs[..|pairs| - 1], j);
    }
  }

  /** `[dict(zip(columns, row)) for row in rows]`. */
  function RowsToDicts<V>(columns: seq<string>, rows: seq<seq<V>>): (ds: seq<Dict<V>>)
    ensures |ds| == |rows|
    ensures forall i :: 0 <= i < |rows| ==> ds[i] == DictOf(Zip(columns, rows[i]))
  {
    seq(|rows|, i requires 0 <= i < |rows| => DictOf(Zip(columns, rows[i])))
  }

  /** In the dict of one row, the column at `j` maps to `row[j]` unless a later column
      of the zipped prefix has the same name (then the later value wins), and a name
      outside the zipped prefix is absent. */
  lemma RowDict<V>(columns: seq<string>, row: seq<V>, j: int)
    requires 0 <= j < |columns| && j < |row|
    requires forall j' :: j < j' < |columns| && j' < |row| ==> columns[j'] != columns[j]
    ensures Lookup(DictOf(Zip(columns, row)), columns[j]) == Some(row[j])
  {
    var ps := Zip(columns, row);
    DictOfLookup(ps, columns[j]);
    LastValueAt(ps, j);
  }

  lemma RowDictMissing<V>(columns: seq<string>, row: seq<V>, k: string)
    requires forall j :: 0 <= j < |columns| && j < |row| ==> columns[j] != k
    ensures Lookup(DictOf(Zip(columns, row)), k) == None
  {
    var ps := Zip(columns, row);
    DictOfKeys(ps);
    FirstAppearancesMembers(PairKeys(ps));
  }

  /** A sequence without repeats is its own list of first appearances. */
  lemma {:induction false} FirstAppearancesOfDistinct(ks: seq<string>)
    requires forall a, b :: 0 <= a < b < |ks| ==> ks[a] != ks[b]
    ensures FirstAppearances(ks) == ks
  {
    if |ks| > 0 {
      var init := ks[..|ks| - 1];
      FirstAppearancesOfDistinct(init);
      assert ks[|ks| - 1] !in init by {
        forall a | 0 <= a < |init| ensures init[a] != ks[|ks| - 1] {
          assert init[a] == ks[a];
        }
      }
      assert ks == init + [ks[|ks| - 1]];
    }
  }

  /** With distinct column names, the dict of row `i` maps the column at `j` to
      `rows[i][j]`. */
  lemma DistinctColumns<V>(columns: seq<string>, rows: seq<seq<V>>, i: int, j: int)
    requires forall a, b :: 0 <= a < b < |columns| ==> columns[a] != columns[b]
    requires 0 <= i < |rows| && 0 <= j < |columns| && j < |rows[i]|
    ensures Lookup(RowsToDicts(columns, rows)[i], columns[j]) == Some(rows[i][j])
  {
    RowDict(columns, rows[i], j);
  }

  /** With distinct column names, the dict of row `i` has the zipped columns as its keys,
      in column order. */
  lemma DistinctColumnKeys<V>(columns: seq<string>, rows: seq<seq<V>>, i: int)
    requires forall a, b :: 0 <= a < b < |columns| ==> columns[a] != columns[b]
    requires 0 <= i < |rows|
    ensures var n := if |columns| <= |rows[i]| then |columns| else |rows[i]|;
      PairKeys(RowsToDicts(columns, rows)[i]) == columns[..n]
  {
    var ps := Zip(columns, rows[i]);
    DictOfKeys(ps);
    assert PairKeys(ps) == columns[..|ps|];
    FirstAppearancesOfDistinct(columns[..|ps|]);
  }
}
