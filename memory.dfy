/** The `memory_data` dictionary: variable name to initial value, in insertion order.
    It is a sequence of entries; a Python dict never holds a key twice, and every
    operation below keeps that (Distinct). */
module Memory {

  datatype Entry = Entry(name: string, value: nat)

  type Table = seq<Entry>

  function Names(m: Table): (r: seq<string>)
    ensures |r| == |m| && forall i :: 0 <= i < |m| ==> r[i] == m[i].name
  {
    if m == [] then [] else [m[0].name] + Names(m[1..])
  }

  predicate Has(m: Table, k: string)
  {
    k in Names(m)
  }

  predicate Distinct(m: Table)
  {
    forall i, j :: 0 <= i < j < |m| ==> m[i].name != m[j].name
  }

  /** `d[k] = v`: replaces the value of a present key in place, appends a new one. */
  function Assigned(m: Table, k: string, v: nat): (r: Table)
    ensures !Has(m, k) ==> r == m + [Entry(k, v)]
    ensures Has(m, k) ==> Names(r) == Names(m)
  {
    if m == [] then [Entry(k, v)]
    else if m[0].name == k then [Entry(k, v)] + m[1..]
    else [m[0]] + Assigned(m[1..], k, v)
  }

  /** `d.setdefault(k, v)`: a present key keeps its value, a new one is appended. */
  function Defaulted(m: Table, k: string, v: nat): (r: Table)
    ensures m <= r
    ensures Has(m, k) ==> r == m
    ensures !Has(m, k) ==> r == m + [Entry(k, v)]
  {
    if Has(m, k) then m else Assigned(m, k, v)
  }

  /** `{**a, **b}`: a copy of a, then every entry of b stored into it in b's order. */
  function Merged(a: Table, b: Table): Table
  {
    if b == [] then a
    else
      var last := b[|b| - 1];
      Assigned(Merged(a, b[..|b| - 1]), last.name, last.value)
  }

  lemma DefaultedKeepsDistinct(m: Table, k: string, v: nat)
    requires Distinct(m)
    ensures Distinct(Defaulted(m, k, v))
  {
    if !Has(m, k) {
      var r := Defaulted(m, k, v);
      forall i | 0 <= i < |m| ensures r[i].name != k {
        assert Names(m)[i] == m[i].name;
      }
    }
  }

  /** Storing the value a distinct table already holds changes nothing. */
  lemma {:induction false} AssignedExisting(m: Table, i: nat)
    requires Distinct(m) && i < |m|
    ensures Assigned(m, m[i].name, m[i].value) == m
    decreases |m|
  {
    if i > 0 {
      AssignedExisting(m[1..], i - 1);
      assert m == [m[0]] + m[1..];
    }
  }

  /** Merging a table into an extension of it yields the extension: entries and
      their first values are kept, new keys follow in their order. */
  lemma MergedExtension(a: Table, b: Table)
    requires a <= b && Distinct(b)
    ensures Merged(a, b) == b
  {
    MergedBeyond(a, b, |b|);
    assert b[..|b|] == b;
  }

  /** Storing a distinct table's own first j entries into it changes nothing. */
  lemma {:induction false} MergedWithin(a: Table, j: nat)
    requires Distinct(a) && j <= |a|
    ensures Merged(a, a[..j]) == a
    decreases j
  {
    if j == 0 {
      assert a[..j] == [];
    } else {
      var x := a[j - 1];
      assert a[..j][..j - 1] == a[..j - 1];
      MergedWithin(a, j - 1);
      assert Merged(a, a[..j]) == Assigned(a, x.name, x.value);
      AssignedExisting(a, j - 1);
    }
  }

  /** Past the prefix a, merging appends b's entries one by one. */
  lemma {:induction false} MergedBeyond(a: Table, b: Table, j: nat)
    requires a <= b && Distinct(b) && |a| <= j <= |b|
    ensures Merged(a, b[..j]) == b[..j]
    decreases j
  {
    if j == |a| {
      assert b[..j] == a;
      DistinctPrefix(a, b);
      MergedWithin(a, |a|);
      assert a[..|a|] == a;
    } else {
      var x := b[j - 1];
      var pre := b[..j - 1];
      assert b[..j][..j - 1] == pre;
      MergedBeyond(a, b, j - 1);
      assert Merged(a, b[..j]) == Assigned(pre, x.name, x.value);
      AbsentBefore(b, j - 1);
      TakeOneMore(b, j);
    }
  }

  lemma TakeOneMore(b: Table, j: nat)
    requires 0 < j <= |b|
    ensures b[..j] == b[..j - 1] + [b[j - 1]]
  {
  }

  lemma DistinctPrefix(a: Table, b: Table)
    requires a <= b && Distinct(b)
    ensures Distinct(a)
  {
    forall p, q | 0 <= p < q < |a| ensures a[p].name != a[q].name {
      assert a[p] == b[p] && a[q] == b[q];
    }
  }

  lemma AbsentBefore(b: Table, j: nat)
    requires Distinct(b) && j < |b|
    ensures !Has(b[..j], b[j].name)
  {
    var pre := b[..j];
    forall i | 0 <= i < |pre| ensures Names(pre)[i] != b[j].name {
      assert pre[i] == b[i];
    }
  }

  /** A name present in a table is present in every extension of it. */
  lemma HasExtension(m: Table, m': Table, k: string)
    requires m <= m' && Has(m, k)
    ensures Has(m', k)
  {
    var i :| 0 <= i < |m| && Names(m)[i] == k;
    assert m'[i] == m[i];
    assert Names(m')[i] == k;
  }

  lemma HasDefaulted(m: Table, k: string, v: nat)
    ensures Has(Defaulted(m, k, v), k)
  {
    var r := Defaulted(m, k, v);
    if !Has(m, k) {
      assert Names(r)[|r| - 1] == k;
    }
  }
}
