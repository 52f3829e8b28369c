/**
 * The column tables of the tree widgets and the index window that the
 * array-reading thread emits.
 *
 * Every tree widget class holds a table built from its list of column names:
 * each index maps to its name and each name maps back to its index, both in
 * one dictionary.  `colnum` looks a name up, with -1 for an unknown name, and
 * `column_names` lists the names in index order.
 */
module TreeWidget {

  /** A key, or a value, of a column table: a column index or a column name. */
  datatype ColumnKey = Index(i: int) | Label(name: string)

  type ColumnTable = map<ColumnKey, ColumnKey>

  predicate Distinct(names: seq<string>) {
    forall i, j :: 0 <= i < j < |names| ==> names[i] != names[j]
  }

  /** `dict(enumerate(names))`: index i maps to the i-th name. */
  function Enumerated(names: seq<string>): (cols: ColumnTable)
    ensures forall k :: k in cols <==> k.Index? && 0 <= k.i < |names|
    ensures forall i :: 0 <= i < |names| ==> cols[Index(i)] == Label(names[i])
  {
    if names == [] then map[]
    else Enumerated(names[..|names| - 1])[Index(|names| - 1) := Label(names[|names| - 1])]
  }

  /** The enumeration has one entry per name. */
  lemma {:induction false} EnumeratedSize(names: seq<string>)
    ensures |Enumerated(names)| == |names|
  {
    if names != [] {
      var init := names[..|names| - 1];
      EnumeratedSize(init);
      assert Index(|names| - 1) !in Enumerated(init);
    }
  }

  /**
   * `dict(zip(names, range(len(names))))`: each name maps to an index, the
   * later one when a name occurs twice.
   */
  function Zipped(names: seq<string>): (cols: ColumnTable)
    ensures forall k :: k in cols <==> k.Label? && k.name in names
  {
    if names == [] then map[]
    else Zipped(names[..|names| - 1])[Label(names[|names| - 1]) := Index(|names| - 1)]
  }

  /** Dropping the last of duplicate-free names leaves duplicate-free names without it. */
  lemma DistinctInit(names: seq<string>)
    requires Distinct(names) && names != []
    ensures Distinct(names[..|names| - 1]) && names[|names| - 1] !in names[..|names| - 1]
  {
    var init, last := names[..|names| - 1], names[|names| - 1];
    forall j | 0 <= j < |init| ensures init[j] != last {
      assert names[j] == init[j];
    }
  }

  /** With duplicate-free names every name maps back to its own position. */
  lemma {:induction false} ZippedDistinct(names: seq<string>)
    requires Distinct(names)
    ensures forall i :: 0 <= i < |names| ==> Zipped(names)[Label(names[i])] == Index(i)
  {
    if names != [] {
      var init, last := names[..|names| - 1], names[|names| - 1];
      DistinctInit(names);
      ZippedDistinct(init);
      forall i | 0 <= i < |names| - 1 ensures Zipped(names)[Label(names[i])] == Index(i) {
        assert names[i] == init[i] && names[i] != last;
      }
    }
  }

  /** With duplicate-free names the zipped table has one entry per name. */
  lemma {:induction false} ZippedSize(names: seq<string>)
    requires Distinct(names)
    ensures |Zipped(names)| == |names|
  {
    if names != [] {
      var init, last := names[..|names| - 1], names[|names| - 1];
      DistinctInit(names);
      ZippedSize(init);
      assert Label(last) !in Zipped(init);
    }
  }

  /** The table a tree widget class builds from its column names. */
  function DefaultColumns(names: seq<string>): ColumnTable {
    Enumerated(names) + Zipped(names)
  }

  /** `colnum`: the value stored under a name, or -1 when the name is not a column. */
  function Colnum(cols: ColumnTable, name: string): (r: ColumnKey)
    ensures Label(name) in cols ==> r in cols.Values
    ensures Label(name) !in cols ==> r == Index(-1)
  {
    if Label(name) in cols then cols[Label(name)] else Index(-1)
  }

  /** The integer keys of a table. */
  function IntKeys(cols: ColumnTable): (r: set<int>)
    ensures forall x :: x in r <==> Index(x) in cols
  {
    var r := set k | k in cols && k.Index? :: k.i;
    assert forall x :: Index(x) in cols ==> x in r by {
      forall x | Index(x) in cols ensures x in r {
        var k := Index(x);
        assert k in cols && k.Index?;
      }
    }
    r
  }

  lemma {:induction false} MinExists(s: set<int>)
    requires s != {}
    ensures exists m :: m in s && forall x :: x in s ==> m <= x
    decreases |s|
  {
    var none: set<int> := {};
    assert (forall x :: x in s <==> x in none) ==> s == none;
    var y :| y in s;
    var rest := s - {y};
    if rest == {} {
      forall x | x in s ensures y <= x {
        assert x !in rest;
      }
    } else {
      MinExists(rest);
      var m :| m in rest && forall x :: x in rest ==> m <= x;
      var least := if y < m then y else m;
      forall x | x in s ensures least <= x {
        if x != y {
          assert x in rest;
        }
      }
      assert least in s;
    }
  }

  /** Python's `sorted` on a set of integers. */
  function Sorted(s: set<int>): (r: seq<int>)
    ensures forall i, j :: 0 <= i < j < |r| ==> r[i] < r[j]
    ensures forall x :: x in s <==> x in r
    decreases s
  {
    if s == {} then []
    else
      MinExists(s);
      var m :| m in s && forall x :: x in s ==> m <= x;
      [m] + Sorted(s - {m})
  }

  /** `column_names`: the values stored under the integer keys, in ascending key order. */
  function ColumnNames(cols: ColumnTable): (r: seq<ColumnKey>)
    ensures |r| == |Sorted(IntKeys(cols))|
    ensures forall j :: 0 <= j < |r| ==>
      Index(Sorted(IntKeys(cols))[j]) in cols && r[j] == cols[Index(Sorted(IntKeys(cols))[j])]
  {
    var ks := Sorted(IntKeys(cols));
    seq(|ks|, j requires 0 <= j < |ks| =>
      assert ks[j] in IntKeys(cols);
      cols[Index(ks[j])])
  }

  /** The integers from lo up to, not including, hi. */
  function Span(lo: int, hi: int): (r: set<int>)
    ensures forall x :: x in r <==> lo <= x < hi
    decreases hi - lo
  {
    if lo >= hi then {} else {lo} + Span(lo + 1, hi)
  }

  /** The least element of a set comes first in its sorted order. */
  lemma SortedHead(s: set<int>, m: int)
    requires m in s && forall x :: x in s ==> m <= x
    ensures Sorted(s) == [m] + Sorted(s - {m})
  {
  }

  lemma {:induction false} SortedSpan(lo: int, hi: int)
    requires lo <= hi
    ensures |Sorted(Span(lo, hi))| == hi - lo
    ensures forall j :: 0 <= j < hi - lo ==> Sorted(Span(lo, hi))[j] == lo + j
    decreases hi - lo
  {
    if lo < hi {
      var s := Span(lo, hi);
      assert s - {lo} == Span(lo + 1, hi);
      SortedHead(s, lo);
      SortedSpan(lo + 1, hi);
      var t := Sorted(Span(lo + 1, hi));
      assert Sorted(s) == [lo] + t;
      forall j | 0 <= j < hi - lo ensures Sorted(s)[j] == lo + j {
        if j > 0 {
          assert Sorted(s)[j] == t[j - 1];
        }
      }
    } else {
      assert Span(lo, hi) == {};
    }
  }

  /** The integer keys of a class's table are exactly its column positions. */
  lemma IntKeysOfDefault(names: seq<string>)
    ensures IntKeys(DefaultColumns(names)) == Span(0, |names|)
  {
    forall x ensures x in IntKeys(DefaultColumns(names)) <==> x in Span(0, |names|) {
      IntKeyOfDefault(names, x);
    }
  }

  lemma IntKeyOfDefault(names: seq<string>, x: int)
    ensures x in IntKeys(DefaultColumns(names)) <==> 0 <= x < |names|
  {
    assert Index(x) in DefaultColumns(names) <==> Index(x) in Enumerated(names);
  }

  /** `column_names` of a class's table gives back its column names, in order. */
  lemma ColumnNamesOfDefault(names: seq<string>)
    ensures |ColumnNames(DefaultColumns(names))| == |names|
    ensures forall i :: 0 <= i < |names| ==> ColumnNames(DefaultColumns(names))[i] == Label(names[i])
  {
    var cols := DefaultColumns(names);
    var ks := Sorted(IntKeys(cols));
    SortedIntKeysOfDefault(names);
    SortedSpan(0, |names|);
    forall i | 0 <= i < |names| ensures ColumnNames(cols)[i] == Label(names[i]) {
      assert ks[i] == i;
      assert ColumnNames(cols)[i] == cols[Index(i)];
      assert Index(i) !in Zipped(names);
    }
  }

  lemma SortedIntKeysOfDefault(names: seq<string>)
    ensures Sorted(IntKeys(DefaultColumns(names))) == Sorted(Span(0, |names|))
  {
    IntKeysOfDefault(names);
  }

  /**
   * `colnum` finds each column of a class with duplicate-free names at its
   * position, so `colnum(column_names[i]) == i`, and answers -1 for any other name.
   */
  lemma ColnumOfDefault(names: seq<string>, name: string)
    requires Distinct(names)
    ensures forall i :: 0 <= i < |names| ==> Colnum(DefaultColumns(names), names[i]) == Index(i)
    ensures var cols := DefaultColumns(names);
      forall i :: 0 <= i < |ColumnNames(cols)| && ColumnNames(cols)[i].Label? ==>
        Colnum(cols, ColumnNames(cols)[i].name) == Index(i)
    ensures name !in names ==> Colnum(DefaultColumns(names), name) == Index(-1)
  {
    var cols := DefaultColumns(names);
    ColumnNamesOfDefault(names);
    ZippedDistinct(names);
    forall i | 0 <= i < |names| ensures Colnum(cols, names[i]) == Index(i) {
      assert Label(names[i]) !in Enumerated(names);
      assert cols[Label(names[i])] == Zipped(names)[Label(names[i])];
    }
    forall i | 0 <= i < |ColumnNames(cols)| && ColumnNames(cols)[i].Label?
      ensures Colnum(cols, ColumnNames(cols)[i].name) == Index(i)
    {
      assert ColumnNames(cols)[i].name == names[i];
    }
    if name !in names {
      assert Label(name) !in Enumerated(names) && Label(name) !in Zipped(names);
    }
  }

  /**
   * `setup_header` sets the column count to half the size of the table, which
   * is the number of columns when the names are duplicate-free.
   */
  lemma ColumnCount(names: seq<string>)
    requires Distinct(names)
    ensures |DefaultColumns(names)| / 2 == |names|
  {
    var e, z := Enumerated(names), Zipped(names);
    EnumeratedSize(names);
    ZippedSize(names);
    assert e.Keys * z.Keys == {} by {
      forall k | k in e.Keys ensures k !in z.Keys { }
    }
    assert DefaultColumns(names).Keys == e.Keys + z.Keys;
    assert |e.Keys + z.Keys| == |e.Keys| + |z.Keys|;
  }

  const TREE_COLUMNS: seq<string> := ["name"]
  const OBJECT_COLUMNS: seq<string> := ["name", "", "color", "hidden"]
  const PROPERTY_COLUMNS: seq<string> := ["name", "type", "datatype", "value"]
  const SAMPLE_COLUMNS: seq<string> := ["index", "size", "value"]
  const ARRAY_COLUMNS: seq<string> := ["index", "value"]

  /** Every tree class names each of its columns once, so its tables are exact. */
  lemma ClassColumnsDistinct()
    ensures Distinct(TREE_COLUMNS) && Distinct(OBJECT_COLUMNS) && Distinct(PROPERTY_COLUMNS)
    ensures Distinct(SAMPLE_COLUMNS) && Distinct(ARRAY_COLUMNS)
  {
  }

  // ---------------------------------------------------------------------------
  // The array-reading thread

  /**
   * What the thread is given: a string or number, a sliceable sequence, or a
   * value that cannot be sliced (slicing it raises TypeError).  The texts are
   * the value's `str`.
   */
  datatype Payload<T> = Scalar(text: string) | Items(values: seq<T>) | Unsliceable(text: string)

  /** The second argument of an emitted signal: a text or an element of the array. */
  datatype Cell<T> = Text(text: string) | Value(value: T)

  /** Where Python's slice `a[first:]` starts in a sequence of length n. */
  function SliceStart(first: int, n: nat): (s: nat)
    ensures s <= n
  {
    if first >= 0 then (if first <= n then first else n)
    else if n + first >= 0 then n + first else 0
  }

  /** The signals of the enumeration of `rest`, numbered from `index`, that stops after a number reaching `last`. */
  function EmitFrom<T>(rest: seq<T>, index: int, last: int): (r: seq<(int, Cell<T>)>)
    ensures |r| <= |rest|
    ensures rest != [] ==> r != [] && r[0] == (index, Value(rest[0]))
    decreases |rest|
  {
    if rest == [] then []
    else [(index, Value(rest[0]))] + (if index >= last then [] else EmitFrom(rest[1..], index + 1, last))
  }

  /** Everything one run of the thread emits. */
  function Emissions<T>(payload: Payload<T>, first: int, last: int): (r: seq<(int, Cell<T>)>)
    ensures r == [] <==> payload.Items? && SliceStart(first, |payload.values|) == |payload.values|
    ensures !payload.Items? ==> r == [(0, Text(payload.text))]
  {
    match payload
    case Scalar(text) => [(0, Text(text))]
    case Unsliceable(text) => [(0, Text(text))]
    case Items(values) => EmitFrom(values[SliceStart(first, |values|)..], first, last)
  }

  function Min(a: int, b: int): int { if a <= b then a else b }
  function Max(a: int, b: int): int { if a <= b then b else a }

  lemma {:induction false} EmitFromWindow<T>(rest: seq<T>, index: int, last: int)
    ensures |EmitFrom(rest, index, last)| == Min(|rest|, Max(last - index, 0) + 1)
    ensures forall k :: 0 <= k < |EmitFrom(rest, index, last)| ==>
      EmitFrom(rest, index, last)[k] == (index + k, Value(rest[k]))
    ensures forall k :: 0 <= k < |EmitFrom(rest, index, last)| - 1 ==> EmitFrom(rest, index, last)[k].0 < last
    decreases |rest|
  {
    if rest != [] && index < last {
      EmitFromWindow(rest[1..], index + 1, last);
      var out := EmitFrom(rest, index, last);
      assert out == [(index, Value(rest[0]))] + EmitFrom(rest[1..], index + 1, last);
      forall k | 0 < k < |out| ensures out[k] == (index + k, Value(rest[k])) {
        assert out[k] == EmitFrom(rest[1..], index + 1, last)[k - 1];
      }
    }
  }

  /**
   * A run over a sequence emits consecutive ascending numbers from `first`,
   * each with the element at the matching place of the slice; every number but
   * the last stays below `last`, and the run ends at the end of the slice or
   * right after a number reaching `last`.  A string, number, or unsliceable
   * value emits its text once, numbered 0.
   */
  lemma EmissionsWindow<T>(payload: Payload<T>, first: int, last: int)
    ensures !payload.Items? ==> Emissions(payload, first, last) == [(0, Text(payload.text))]
    ensures payload.Items? ==>
      var out, start := Emissions(payload, first, last), SliceStart(first, |payload.values|);
      && |out| == Min(|payload.values| - start, Max(last - first, 0) + 1)
      && (forall k :: 0 <= k < |out| ==> out[k] == (first + k, Value(payload.values[start + k])))
      && (forall k :: 0 <= k < |out| - 1 ==> out[k].0 < last)
      && (|out| == |payload.values| - start || out[|out| - 1].0 >= last)
  {
    if payload.Items? {
      EmitFromWindow(payload.values[SliceStart(first, |payload.values|)..], first, last);
    }
  }

  /** The enumeration loop of `run` over the slice `rest`, numbering from `first`. */
  method EmitWindow<T>(rest: seq<T>, first: int, last: int) returns (out: seq<(int, Cell<T>)>)
    ensures out == EmitFrom(rest, first, last)
  {
    EmitFromWindow(rest, first, last);
    out := [];
    var k := 0;
    while k < |rest|
      invariant 0 <= k <= |rest| && |out| == k
      invariant forall j :: 0 <= j < k ==> out[j] == (first + j, Value(rest[j]))
      invariant k == 0 || first + k - 1 < last
    {
      var index := k + first;
      out := out + [(index, Value(rest[k]))];
      if index >= last {
        return;
      }
      k := k + 1;
    }
  }

  /** `ArrayThread`: the payload and window of one background read, and the signals it has sent. */
  class ArrayThread<T> {
    var payload: Payload<T>
    var first: int
    var last: int
    /** The `(index, value)` pairs emitted so far, oldest first. */
    var emitted: seq<(int, Cell<T>)>

    constructor (payload: Payload<T>, first: int := 0, last: int := 10)
      ensures this.payload == payload && this.first == first && this.last == last && emitted == []
    {
      this.payload := payload;
      this.first := first;
      this.last := last;
      emitted := [];
    }

    /** `run`: emit the window of the payload. */
    method Run()
      modifies this`emitted
      ensures emitted == old(emitted) + Emissions(payload, first, last)
    {
      var out: seq<(int, Cell<T>)>;
      match payload {
        case Scalar(text) =>
          out := [(0, Text(text))];
        case Unsliceable(text) =>
          out := [(0, Text(text))];
        case Items(values) =>
          out := EmitWindow(values[SliceStart(first, |values|)..], first, last);
      }
      emitted := emitted + out;
    }
  }
}
