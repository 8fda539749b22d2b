/** The task table as the dashboard sees it: the sheet's header row, in
    order, and one row per task mapping each header to its text. A pandas
    `DataFrame` built from `get_all_values()` holds only strings, so a cell is
    always a string; a key a row lacks reads as the empty string. */
module Tables {

  type Row = map<string, string>

  datatype Table = Table(columns: seq<string>, rows: seq<Row>)

  /** `df.empty`: no columns or no rows. */
  predicate IsEmpty(t: Table) {
    |t.columns| == 0 || |t.rows| == 0
  }

  function Cell(r: Row, c: string): string {
    if c in r then r[c] else ""
  }

  /** `df[c]` as a list of cells, one per row, in row order. */
  function Column(t: Table, c: string): (cells: seq<string>)
    ensures |cells| == |t.rows|
    ensures forall i :: 0 <= i < |t.rows| ==> cells[i] == Cell(t.rows[i], c)
  {
    seq(|t.rows|, i requires 0 <= i < |t.rows| => Cell(t.rows[i], c))
  }

  /** `df[c] = df[c].map(f)` on a copy: column `c` of every row is
      rewritten with `f`; every other cell, the header row and the number of
      rows stay as they were. */
  function MapColumn(t: Table, c: string, f: string -> string): (u: Table)
    ensures u.columns == t.columns && |u.rows| == |t.rows|
    ensures forall i :: 0 <= i < |t.rows| ==> Cell(u.rows[i], c) == f(Cell(t.rows[i], c))
    ensures forall i, d :: 0 <= i < |t.rows| && d != c ==> Cell(u.rows[i], d) == Cell(t.rows[i], d)
  {
    Table(t.columns,
      seq(|t.rows|, i requires 0 <= i < |t.rows| => t.rows[i][c := f(Cell(t.rows[i], c))]))
  }

  /** `df[c] = values` for a column `c` already in the table: row `i` gets
      `values[i]` in column `c` and keeps every other cell. */
  function SetColumn(t: Table, c: string, values: seq<string>): (u: Table)
    requires |values| == |t.rows|
    ensures u.columns == t.columns && |u.rows| == |t.rows|
    ensures forall i :: 0 <= i < |t.rows| ==> Cell(u.rows[i], c) == values[i]
    ensures forall i, d :: 0 <= i < |t.rows| && d != c ==> Cell(u.rows[i], d) == Cell(t.rows[i], d)
  {
    Table(t.columns, seq(|t.rows|, i requires 0 <= i < |t.rows| => t.rows[i][c := values[i]]))
  }

  /** `len(s[mask])`: how many elements satisfy `p`. */
  function Count<T>(s: seq<T>, p: T -> bool): (n: nat)
    ensures n <= |s|
  {
    if s == [] then 0 else Count(s[..|s| - 1], p) + (if p(s[|s| - 1]) then 1 else 0)
  }

  /** Whatever satisfies `p` satisfies `q`, so `p` counts no more than `q`. */
  lemma {:induction false} CountMonotone<T>(s: seq<T>, p: T -> bool, q: T -> bool)
    requires forall i :: 0 <= i < |s| && p(s[i]) ==> q(s[i])
    ensures Count(s, p) <= Count(s, q)
  {
    if s != [] {
      CountMonotone(s[..|s| - 1], p, q);
    }
  }

  /** Whatever satisfies `r` satisfies `p` or `q`, so `r` counts no more than
      `p` and `q` together. */
  lemma {:induction false} CountUnion<T>(s: seq<T>, p: T -> bool, q: T -> bool, r: T -> bool)
    requires forall i :: 0 <= i < |s| && r(s[i]) ==> p(s[i]) || q(s[i])
    ensures Count(s, r) <= Count(s, p) + Count(s, q)
  {
    if s != [] {
      CountUnion(s[..|s| - 1], p, q, r);
    }
  }

  /** Every element satisfying `p` means every element is counted. */
  lemma {:induction false} CountAll<T>(s: seq<T>, p: T -> bool)
    requires forall i :: 0 <= i < |s| ==> p(s[i])
    ensures Count(s, p) == |s|
  {
    if s != [] {
      CountAll(s[..|s| - 1], p);
    }
  }

  /** Counting two halves separately adds up. */
  lemma {:induction false} CountAppend<T>(a: seq<T>, b: seq<T>, p: T -> bool)
    ensures Count(a + b, p) == Count(a, p) + Count(b, p)
    decreases |b|
  {
    if b != [] {
      assert (a + b)[..|a + b| - 1] == a + b[..|b| - 1];
      CountAppend(a, b[..|b| - 1], p);
    } else {
      assert a + b == a;
    }
  }

  /** Extending the counted prefix by one element. */
  lemma CountStep<T>(s: seq<T>, p: T -> bool, i: nat)
    requires i < |s|
    ensures Count(s[..i + 1], p) == Count(s[..i], p) + (if p(s[i]) then 1 else 0)
  {
    assert s[..i + 1][..i] == s[..i];
  }

  /** Two predicates no element satisfies together count no more than the
      elements. */
  lemma {:induction false} CountDisjoint<T>(s: seq<T>, p: T -> bool, q: T -> bool)
    requires forall i :: 0 <= i < |s| ==> !(p(s[i]) && q(s[i]))
    ensures Count(s, p) + Count(s, q) <= |s|
  {
    if s != [] {
      CountDisjoint(s[..|s| - 1], p, q);
    }
  }

  /** `Series.value_counts()`: each distinct value mapped to the number of
      times it occurs. */
  function ValueCounts(cells: seq<string>): (m: map<string, nat>)
    ensures forall k :: k in m <==> k in cells
    ensures forall k :: k in m ==> m[k] == multiset(cells)[k] >= 1
  {
    map k | k in multiset(cells) :: multiset(cells)[k]
  }

  /** Sum of the counts in a count map. */
  ghost function SumValues(m: map<string, nat>): nat
    decreases |m|
  {
    if m == map[] then 0
    else
      var k :| k in m;
      m[k] + SumValues(m - {k})
  }

  /** The sum does not depend on which key is taken first. */
  lemma {:induction false} SumValuesRemove(m: map<string, nat>, k: string)
    requires k in m
    ensures SumValues(m) == m[k] + SumValues(m - {k})
    decreases |m|
  {
    var j :| j in m && SumValues(m) == m[j] + SumValues(m - {j});
    if j != k {
      var mj := m - {j};
      var mk := m - {k};
      assert |mj| < |m| by { assert mj.Keys < m.Keys; }
      SumValuesRemove(mj, k);
      assert |mk| < |m| by { assert mk.Keys < m.Keys; }
      SumValuesRemove(mk, j);
      assert mj - {k} == mk - {j};
    }
  }

  /** The counts of `value_counts()` add up to the number of cells counted. */
  lemma ValueCountsTotal(cells: seq<string>)
    ensures SumValues(ValueCounts(cells)) == |cells|
  {
    MultisetCountsTotal(multiset(cells));
  }

  lemma {:induction false} MultisetCountsTotal(ms: multiset<string>)
    ensures SumValues(map k | k in ms :: ms[k]) == |ms|
    decreases |ms|
  {
    var m := map k | k in ms :: ms[k];
    if ms != multiset{} {
      var k :| k in ms;
      var rest := ms[k := 0];
      assert |ms| == ms[k] + |rest| by {
        var ks := multiset{}[k := ms[k]];
        assert ms == rest + ks;
      }
      SumValuesRemove(m, k);
      assert m - {k} == map j | j in rest :: rest[j];
      MultisetCountsTotal(rest);
    } else {
      assert m == map[];
    }
  }
}
