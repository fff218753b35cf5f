/**
 * The table the analysis works on: the parts of a pandas DataFrame that the
 * insight rules consult. A table has a row count and a sequence of named
 * columns; each column has a kind (numeric or other, as the CSV loader
 * inferred it) and one cell per row, `None` standing for a missing value
 * (NaN / None in pandas). Cell values are abstract ordered values: the rules
 * only compare them for equality and order.
 */
module Dataset {
  import opened Wrappers

  datatype Kind = Numeric | Other

  datatype Column = Column(name: string, kind: Kind, cells: seq<Option<int>>)

  datatype Table = Table(rows: nat, columns: seq<Column>)

  /** Every column has one cell per row, and column names are distinct
      (the CSV loader renames a repeated header, so no two columns share a name). */
  predicate Valid(t: Table) {
    && (forall k :: 0 <= k < |t.columns| ==> |t.columns[k].cells| == t.rows)
    && (forall j, k :: 0 <= j < k < |t.columns| ==> t.columns[j].name != t.columns[k].name)
  }

  // ---------------------------------------------------------------------------
  // Distinct values and missing counts (Series.nunique, Series.isnull().sum())
  // ---------------------------------------------------------------------------

  /** `Series.nunique()`: the number of distinct non-missing values, each
      counted at its first occurrence. It is 0 exactly when every cell is
      missing. */
  function Nunique(cells: seq<Option<int>>): (r: nat)
    ensures r <= |cells|
    ensures r == 0 <==> forall i :: 0 <= i < |cells| ==> cells[i].None?
  {
    if cells == [] then 0
    else
      var init, last := cells[..|cells| - 1], cells[|cells| - 1];
      Nunique(init) + (if last.Some? && last !in init then 1 else 0)
  }

  /** The distinct non-missing values of a column, as a set. */
  function Present(cells: seq<Option<int>>): set<int> {
    if cells == [] then {}
    else
      var last := cells[|cells| - 1];
      Present(cells[..|cells| - 1]) + (if last.Some? then {last.value} else {})
  }

  /** A value is among the distinct values exactly when some cell holds it. */
  lemma {:induction false} PresentMember(cells: seq<Option<int>>, v: int)
    ensures v in Present(cells) <==> Some(v) in cells
  {
    if cells != [] {
      var init := cells[..|cells| - 1];
      PresentMember(init, v);
      assert cells == init + [cells[|cells| - 1]];
    }
  }

  /** The count is the size of the set of distinct non-missing values. */
  lemma {:induction false} NuniqueIsDistinctCount(cells: seq<Option<int>>)
    ensures Nunique(cells) == |Present(cells)|
  {
    if cells != [] {
      var init, last := cells[..|cells| - 1], cells[|cells| - 1];
      NuniqueIsDistinctCount(init);
      if last.Some? {
        PresentMember(init, last.value);
        assert Present(cells) == Present(init) + {last.value};
      } else {
        assert Present(cells) == Present(init);
      }
    }
  }

  /** `Series.isnull().sum()`. */
  function CountMissing(cells: seq<Option<int>>): (r: nat)
    ensures r <= |cells|
    ensures r == 0 <==> forall i :: 0 <= i < |cells| ==> cells[i].Some?
  {
    if cells == [] then 0
    else CountMissing(cells[..|cells| - 1]) + (if cells[|cells| - 1].None? then 1 else 0)
  }

  /** No two cells hold the same thing (two missing cells count as equal). */
  predicate Injective(cells: seq<Option<int>>) {
    forall i, j :: 0 <= i < j < |cells| ==> cells[i] != cells[j]
  }

  /** Each missing cell lowers the number of distinct values a column can have. */
  lemma {:induction false} NuniqueBound(cells: seq<Option<int>>)
    ensures Nunique(cells) + CountMissing(cells) <= |cells|
  {
    if cells != [] {
      NuniqueBound(cells[..|cells| - 1]);
    }
  }

  /** A column with as many distinct values as cells has no missing cell and
      no repeated value. */
  lemma {:induction false} FullNuniqueInjective(cells: seq<Option<int>>)
    requires Nunique(cells) == |cells|
    ensures CountMissing(cells) == 0 && Injective(cells)
  {
    if cells != [] {
      var init, last := cells[..|cells| - 1], cells[|cells| - 1];
      NuniqueBound(init);
      assert last.Some? && last !in init;
      FullNuniqueInjective(init);
      forall i, j | 0 <= i < j < |cells| ensures cells[i] != cells[j] {
        assert cells[i] == init[i];
        if j < |cells| - 1 {
          assert cells[j] == init[j];
        } else {
          assert init[i] in init;
        }
      }
    }
  }

  /** A complete column without repeated values has as many distinct values as cells. */
  lemma {:induction false} InjectiveFullNunique(cells: seq<Option<int>>)
    requires CountMissing(cells) == 0 && Injective(cells)
    ensures Nunique(cells) == |cells|
  {
    if cells != [] {
      var init, last := cells[..|cells| - 1], cells[|cells| - 1];
      assert forall i :: 0 <= i < |init| ==> init[i] == cells[i];
      assert Injective(init);
      InjectiveFullNunique(init);
      assert last !in init by {
        forall i | 0 <= i < |init| ensures init[i] != last {
          assert init[i] == cells[i];
        }
      }
      assert last.Some?;
    }
  }

  // ---------------------------------------------------------------------------
  // Identifier-like and sequential columns
  // ---------------------------------------------------------------------------

  /** `df[col].nunique() == len(df)`. A column needs at least as many cells
      as rows to qualify; with 0 rows, exactly the columns whose cells are all
      missing qualify. */
  predicate IsIdentifier(c: Column, rows: nat)
    ensures IsIdentifier(c, rows) ==> rows <= |c.cells|
    ensures rows == 0 ==> (IsIdentifier(c, rows) <==> forall i :: 0 <= i < |c.cells| ==> c.cells[i].None?)
  {
    Nunique(c.cells) == rows
  }

  /** In a table with rows, a column with a missing cell is never identifier-like:
      `nunique` ignores missing values. */
  lemma MissingNeverIdentifier(c: Column, rows: nat)
    requires |c.cells| == rows && CountMissing(c.cells) > 0
    ensures rows > 0 && !IsIdentifier(c, rows)
  {
    NuniqueBound(c.cells);
  }

  /** Identifier-like means: every row has a value and no two rows share one. */
  lemma IdentifierIffInjective(c: Column, rows: nat)
    requires |c.cells| == rows
    ensures IsIdentifier(c, rows) <==> CountMissing(c.cells) == 0 && Injective(c.cells)
  {
    if IsIdentifier(c, rows) {
      FullNuniqueInjective(c.cells);
    }
    if CountMissing(c.cells) == 0 && Injective(c.cells) {
      InjectiveFullNunique(c.cells);
    }
  }

  /** `Series.is_monotonic_increasing`: every cell present and each cell at least
      the one before it. An empty column qualifies; a missing cell or a single
      decrease disqualifies. */
  predicate IsMonotonicIncreasing(cells: seq<Option<int>>)
    ensures IsMonotonicIncreasing(cells) ==> CountMissing(cells) == 0
    ensures |cells| == 0 ==> IsMonotonicIncreasing(cells)
  {
    && (forall i :: 0 <= i < |cells| ==> cells[i].Some?)
    && (forall i :: 0 < i < |cells| ==> cells[i - 1].value <= cells[i].value)
  }

  /** Sorted in the pairwise sense. */
  predicate Sorted(cells: seq<Option<int>>)
    requires forall i :: 0 <= i < |cells| ==> cells[i].Some?
  {
    forall i, j :: 0 <= i <= j < |cells| ==> cells[i].value <= cells[j].value
  }

  /** Checking neighbours is checking every pair: a column is monotonic increasing
      exactly when it is complete and no earlier value exceeds a later one. */
  lemma {:induction false} MonotonicIffSorted(cells: seq<Option<int>>)
    ensures IsMonotonicIncreasing(cells) <==>
              (forall i :: 0 <= i < |cells| ==> cells[i].Some?) && Sorted(cells)
  {
    if IsMonotonicIncreasing(cells) {
      forall i, j | 0 <= i <= j < |cells| ensures cells[i].value <= cells[j].value {
        NeighboursBound(cells, i, j);
      }
    }
  }

  lemma {:induction false} NeighboursBound(cells: seq<Option<int>>, i: nat, j: nat)
    requires IsMonotonicIncreasing(cells) && i <= j < |cells|
    ensures cells[i].value <= cells[j].value
    decreases j - i
  {
    if i < j {
      NeighboursBound(cells, i, j - 1);
    }
  }

  // ---------------------------------------------------------------------------
  // Missing values over the table (df.isnull().sum())
  // ---------------------------------------------------------------------------

  /** `df.isnull().sum().sum()`: no column has more missing values than the
      whole table. */
  function TotalMissing(columns: seq<Column>): (r: nat)
    ensures forall k :: 0 <= k < |columns| ==> CountMissing(columns[k].cells) <= r
  {
    if columns == [] then 0
    else
      var init := columns[..|columns| - 1];
      assert forall k :: 0 <= k < |init| ==> init[k] == columns[k];
      TotalMissing(init) + CountMissing(columns[|columns| - 1].cells)
  }

  /** The table has a missing value exactly when some column has one. */
  lemma {:induction false} TotalMissingPositive(columns: seq<Column>)
    ensures TotalMissing(columns) > 0 <==> exists k :: 0 <= k < |columns| && CountMissing(columns[k].cells) > 0
  {
    if columns != [] {
      var init := columns[..|columns| - 1];
      TotalMissingPositive(init);
      if exists k :: 0 <= k < |init| && CountMissing(init[k].cells) > 0 {
        var k :| 0 <= k < |init| && CountMissing(init[k].cells) > 0;
        assert columns[k] == init[k];
      }
      if exists k :: 0 <= k < |columns| && CountMissing(columns[k].cells) > 0 {
        var k :| 0 <= k < |columns| && CountMissing(columns[k].cells) > 0;
        if k < |init| {
          assert columns[k] == init[k];
        }
      }
    }
  }

  /** A column with the largest missing count: the head of
      `isnull().sum().sort_values(ascending=False)`. Among equal counts this
      picks the first column; only maximality is claimed. */
  function MostMissing(columns: seq<Column>): (k: nat)
    requires |columns| > 0
    ensures k < |columns|
    ensures forall j :: 0 <= j < |columns| ==> CountMissing(columns[j].cells) <= CountMissing(columns[k].cells)
  {
    if |columns| == 1 then 0
    else
      var best := MostMissing(columns[..|columns| - 1]);
      assert forall j :: 0 <= j < |columns| - 1 ==> columns[..|columns| - 1][j] == columns[j];
      if CountMissing(columns[best].cells) < CountMissing(columns[|columns| - 1].cells)
      then |columns| - 1
      else best
  }

  /** When the table has missing values, the worst column has some. */
  lemma MostMissingHasMissing(columns: seq<Column>)
    requires TotalMissing(columns) > 0
    ensures |columns| > 0 && CountMissing(columns[MostMissing(columns)].cells) > 0
  {
    TotalMissingPositive(columns);
  }

  // ---------------------------------------------------------------------------
  // Column selections: list comprehensions over column positions
  // ---------------------------------------------------------------------------

  /** The positions 0, 1, ..., n - 1 in order. */
  function Range(n: nat): (r: seq<nat>)
    ensures |r| == n && forall i :: 0 <= i < n ==> r[i] == i
    ensures forall k: nat :: k in r <==> k < n
  {
    if n == 0 then [] else Range(n - 1) + [n - 1]
  }

  predicate Increasing(s: seq<nat>) {
    forall i, j :: 0 <= i < j < |s| ==> s[i] < s[j]
  }

  /** The column tests the comprehensions over columns apply. */
  datatype Test =
    | Identifier                         // df[c].nunique() == len(df)
    | NumericKind                        // selected by select_dtypes(include="number")
    | Monotonic                          // df[c].is_monotonic_increasing
    | NotNamed(excluded: seq<string>)    // c not in excluded

  predicate Holds(t: Table, test: Test, k: nat) {
    && k < |t.columns|
    && match test
       case Identifier => IsIdentifier(t.columns[k], t.rows)
       case NumericKind => t.columns[k].kind == Numeric
       case Monotonic => IsMonotonicIncreasing(t.columns[k].cells)
       case NotNamed(excluded) => t.columns[k].name !in excluded
  }

  /** `[c for c in s[:i] if test(c)]`, columns as positions: the comprehension
      after its first i steps. */
  function SelectPrefix(t: Table, s: seq<nat>, test: Test, i: nat): (r: seq<nat>)
    requires i <= |s|
    ensures |r| <= i
    ensures forall j :: 0 <= j < |r| ==> r[j] < |t.columns|
  {
    if i == 0 then [] else SelectPrefix(t, s, test, i - 1) + (if Holds(t, test, s[i - 1]) then [s[i - 1]] else [])
  }

  /** What the first i steps keep: the elements of s[..i] that pass the test. */
  lemma {:induction false} SelectPrefixMembers(t: Table, s: seq<nat>, test: Test, i: nat)
    requires i <= |s|
    ensures forall x :: x in SelectPrefix(t, s, test, i) <==> x in s[..i] && Holds(t, test, x)
  {
    if i > 0 {
      SelectPrefixMembers(t, s, test, i - 1);
      assert s[..i] == s[..i - 1] + [s[i - 1]];
    }
  }

  /** `[c for c in s if test(c)]`. */
  function Select(t: Table, s: seq<nat>, test: Test): (r: seq<nat>)
    ensures |r| <= |s|
    ensures forall k :: k in r <==> k in s && Holds(t, test, k)
    ensures forall i :: 0 <= i < |r| ==> r[i] < |t.columns|
  {
    SelectPrefixMembers(t, s, test, |s|);
    assert s[..|s|] == s;
    SelectPrefix(t, s, test, |s|)
  }

  lemma IncreasingAppend(f: seq<nat>, x: nat)
    requires Increasing(f) && forall j :: 0 <= j < |f| ==> f[j] < x
    ensures Increasing(f + [x])
    ensures forall j :: 0 <= j < |f + [x]| ==> (f + [x])[j] <= x
  {
  }

  /** The comprehension keeps the original order: what the first i steps kept
      increases and stays below the next element of s. */
  lemma {:induction false} SelectPrefixIncreasing(t: Table, s: seq<nat>, test: Test, i: nat)
    requires Increasing(s) && i <= |s|
    ensures Increasing(SelectPrefix(t, s, test, i))
    ensures i < |s| ==> forall j :: 0 <= j < |SelectPrefix(t, s, test, i)| ==> SelectPrefix(t, s, test, i)[j] < s[i]
  {
    if i > 0 {
      SelectPrefixIncreasing(t, s, test, i - 1);
      var f := SelectPrefix(t, s, test, i - 1);
      if Holds(t, test, s[i - 1]) {
        IncreasingAppend(f, s[i - 1]);
      }
      if i < |s| {
        assert s[i - 1] < s[i];
      }
    }
  }

  /** The columns at positions ks in the table, by name. */
  function Names(t: Table, ks: seq<nat>): (r: seq<string>)
    requires forall i :: 0 <= i < |ks| ==> ks[i] < |t.columns|
    ensures |r| == |ks| && forall i :: 0 <= i < |ks| ==> r[i] == t.columns[ks[i]].name
  {
    seq(|ks|, i requires 0 <= i < |ks| => t.columns[ks[i]].name)
  }

  /** `[c for c in df.columns if df[c].nunique() == len(df)]`, as positions. */
  function IdColumns(t: Table): (r: seq<nat>)
    ensures Increasing(r)
    ensures forall k: nat {:trigger k in r} :: k in r <==> k < |t.columns| && IsIdentifier(t.columns[k], t.rows)
  {
    SelectPrefixIncreasing(t, Range(|t.columns|), Identifier, |t.columns|);
    Select(t, Range(|t.columns|), Identifier)
  }

  /** `df.select_dtypes(include="number").columns`, as positions. */
  function NumericColumns(t: Table): (r: seq<nat>)
    ensures Increasing(r)
    ensures forall k: nat {:trigger k in r} :: k in r <==> k < |t.columns| && t.columns[k].kind == Numeric
  {
    SelectPrefixIncreasing(t, Range(|t.columns|), NumericKind, |t.columns|);
    Select(t, Range(|t.columns|), NumericKind)
  }
}
