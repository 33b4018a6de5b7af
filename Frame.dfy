/** The slice of a one-row pandas DataFrame that the prediction handler uses:
    an ordered sequence of named columns, membership of a name among the
    columns, the value stored under a name, and selection of a list of
    columns with `df[names]`. */
module Frame {
  import opened Wrappers

  /** One column of a one-row table: its name and its single cell.
      Indicator cells are the integers 0 and 1; the year is the entered year. */
  datatype Column = Column(name: string, value: int)

  /** A one-row table: its columns, left to right. */
  type Table = seq<Column>

  /** The column labels of a table, in order (`df.columns`). */
  function Names(t: Table): (r: seq<string>)
    ensures |r| == |t|
    ensures forall i :: 0 <= i < |t| ==> r[i] == t[i].name
  {
    seq(|t|, i requires 0 <= i < |t| => t[i].name)
  }

  /** No label occurs twice. */
  predicate Distinct(names: seq<string>)
  {
    forall i, j :: 0 <= i < j < |names| ==> names[i] != names[j]
  }

  /** The position of the first column called `n` (the label lookup behind `df[n]`). */
  function FirstIndex(t: Table, n: string): (k: nat)
    requires n in Names(t)
    ensures k < |t| && t[k].name == n
    ensures forall j :: 0 <= j < k ==> t[j].name != n
    decreases |t|
  {
    if t[0].name == n then 0
    else
      assert n in Names(t[1..]) by {
        var i :| 0 <= i < |t| && Names(t)[i] == n;
        assert Names(t[1..])[i - 1] == n;
      }
      1 + FirstIndex(t[1..], n)
  }

  /** The cell stored under label `n`: the cell of a column so labelled
      (the first one, as FirstIndex finds it). */
  function ValueOf(t: Table, n: string): (v: int)
    requires n in Names(t)
    ensures Column(n, v) in t
  {
    t[FirstIndex(t, n)].value
  }

  /** In a table without repeated labels, the cell under each column's own
      label is that column's cell. */
  lemma ValueOfDistinct(t: Table, i: nat)
    requires Distinct(Names(t)) && i < |t|
    ensures t[i].name in Names(t) && ValueOf(t, t[i].name) == t[i].value
  {
  }

  /** Appending columns after a table leaves the lookup of its own labels
      unchanged, and a label it lacks is found among the appended columns. */
  lemma ValueOfExtended(t: Table, u: Table, n: string)
    requires |t| <= |u| && u[..|t|] == t && n in Names(u)
    ensures n in Names(t) ==> ValueOf(u, n) == ValueOf(t, n)
    ensures n !in Names(t) ==> FirstIndex(u, n) >= |t|
  {
    var k' := FirstIndex(u, n);
    if k' < |t| {
      assert u[k'] == t[k'] && Names(t)[k'] == n;
      var k := FirstIndex(t, n);
      assert u[k] == t[k];
    }
  }

  /** `df[names]`: the table made of the listed columns, in the listed order,
      or None (pandas raises a missing-key error) when a listed label is not
      a column of `t`. */
  function Select(t: Table, names: seq<string>): (r: Option<Table>)
    ensures r.Some? <==> forall n :: n in names ==> n in Names(t)
    ensures r.Some? ==> Names(r.value) == names
    ensures r.Some? ==> forall i :: 0 <= i < |names| ==> r.value[i].value == ValueOf(t, names[i])
  {
    if forall n :: n in names ==> n in Names(t) then
      Some(seq(|names|, i requires 0 <= i < |names| => Column(names[i], ValueOf(t, names[i]))))
    else
      None
  }
}
