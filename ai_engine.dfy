/**
 * `generate_ai_insights`: the ordered list of observations shown on the
 * insight cards and in the executive report. Four groups, in this order:
 * one sentence per identifier-like column, one per sequential numeric
 * column, at most one naming the column with the most missing values, at
 * most one naming the most strongly correlated pair of numeric columns;
 * when all four are empty, a single "structurally clean" sentence.
 *
 * The source returns strings; the model returns structured insights (the
 * kind of observation and the column names it mentions), and `Sentence`
 * renders each one as the source's f-string. `SentenceDetermines` shows the
 * rendering keeps the kind and the columns apart, so what is proved about
 * the insights holds of the sentences.
 *
 * `Insights` states the result as a function of the table; the method
 * `GenerateInsights` builds the list the way the source does, appending
 * inside loops, and is proved to produce it.
 */
module AiEngine {
  import opened Wrappers
  import opened Text
  import opened Dataset
  import Correlation

  datatype FlagKind = IdentifierLike | Sequential | MostMissingValues

  /** One observation: its category and the column names it mentions. */
  datatype Insight =
    | ColumnFlag(kind: FlagKind, column: string)
    | StrongRelationship(first: string, second: string)
    | StructurallyClean

  // The fixed text after the quoted column name of each column flag.
  const IdentifierTail := " has unique values and may behave like an identifier."
  const SequentialTail := " appears sequential and may introduce modeling leakage."
  const MissingTail := " contains the highest missing values."

  const RelationshipLead := "Strong relationship detected between "
  const CleanSentence := "Dataset appears structurally clean with no major anomalies detected."

  function Tail(kind: FlagKind): string {
    match kind
    case IdentifierLike => IdentifierTail
    case Sequential => SequentialTail
    case MostMissingValues => MissingTail
  }

  /** The sentence an insight is displayed as; it quotes every column it names. */
  function Sentence(i: Insight): (r: string)
    ensures i.ColumnFlag? ==> Contains(r, "'" + i.column + "'")
    ensures i.StrongRelationship? ==> Contains(r, "'" + i.first + "'") && Contains(r, "'" + i.second + "'")
  {
    match i
    case ColumnFlag(kind, c) =>
      QuotedPrefix(c, Tail(kind));
      "'" + c + "'" + Tail(kind)
    case StrongRelationship(a, b) =>
      var s := RelationshipLead + ("'" + a + "'") + " and " + ("'" + b + "'") + ".";
      ContainsMiddle(RelationshipLead, "'" + a + "'", " and " + ("'" + b + "'") + ".");
      assert s == RelationshipLead + ("'" + a + "'") + (" and " + ("'" + b + "'") + ".");
      ContainsMiddle(RelationshipLead + ("'" + a + "'") + " and ", "'" + b + "'", ".");
      s
    case StructurallyClean =>
      CleanSentence
  }

  lemma QuotedPrefix(c: string, rest: string)
    ensures Contains("'" + c + "'" + rest, "'" + c + "'")
  {
    ContainsMiddle("", "'" + c + "'", rest);
    assert "" + ("'" + c + "'") + rest == "'" + c + "'" + rest;
  }

  /** The next-to-last character of a sentence, which differs between the
      kinds of insight. */
  function Mark(i: Insight): char {
    match i
    case ColumnFlag(IdentifierLike, _) => 'r'
    case ColumnFlag(Sequential, _) => 'e'
    case ColumnFlag(MostMissingValues, _) => 's'
    case StrongRelationship(_, _) => '\''
    case StructurallyClean => 'd'
  }

  lemma TailMarks()
    ensures |IdentifierTail| >= 2 && IdentifierTail[|IdentifierTail| - 2] == 'r'
    ensures |SequentialTail| >= 2 && SequentialTail[|SequentialTail| - 2] == 'e'
    ensures |MissingTail| >= 2 && MissingTail[|MissingTail| - 2] == 's'
    ensures |CleanSentence| >= 2 && CleanSentence[|CleanSentence| - 2] == 'd'
  {
  }

  lemma NextToLast(a: string, b: string)
    requires |b| >= 2
    ensures (a + b)[|a + b| - 2] == b[|b| - 2]
  {
  }

  lemma SentenceMark(i: Insight)
    ensures |Sentence(i)| >= 2 && Sentence(i)[|Sentence(i)| - 2] == Mark(i)
  {
    match i
    case ColumnFlag(kind, c) => ColumnFlagMark(kind, c);
    case StrongRelationship(a, b) => RelationshipMark(a, b);
    case StructurallyClean => TailMarks();
  }

  lemma ColumnFlagMark(kind: FlagKind, c: string)
    ensures var s := "'" + c + "'" + Tail(kind); |s| >= 2 && s[|s| - 2] == Mark(ColumnFlag(kind, c))
  {
    TailMarks();
    NextToLast("'" + c + "'", Tail(kind));
  }

  lemma RelationshipMark(a: string, b: string)
    ensures var s := RelationshipLead + ("'" + a + "'") + " and " + ("'" + b + "'") + ".";
            |s| >= 2 && s[|s| - 2] == '\''
  {
  }

  /** Rendering keeps insights apart: two insights with the same sentence are
      the same insight, unless both name a pair (a column name holding quotes
      can make two pairs read alike). */
  lemma SentenceDetermines(x: Insight, y: Insight)
    requires !(x.StrongRelationship? && y.StrongRelationship?)
    requires Sentence(x) == Sentence(y)
    ensures x == y
  {
    SentenceMark(x);
    SentenceMark(y);
    MarkDetermines(x, y);
    if x.ColumnFlag? {
      QuotedDetermines(x.column, y.column, Tail(x.kind));
    }
  }

  lemma MarkDetermines(x: Insight, y: Insight)
    requires !(x.StrongRelationship? && y.StrongRelationship?) && Mark(x) == Mark(y)
    ensures x.ColumnFlag? <==> y.ColumnFlag?
    ensures x.ColumnFlag? ==> x.kind == y.kind
    ensures x == StructurallyClean <==> y == StructurallyClean
  {
  }

  lemma QuotedDetermines(c: string, d: string, tail: string)
    requires "'" + c + "'" + tail == "'" + d + "'" + tail
    ensures c == d
  {
    assert |c| == |d|;
    assert ("'" + c + "'" + tail)[1..|c| + 1] == c;
    assert ("'" + d + "'" + tail)[1..|d| + 1] == d;
  }

  // ---------------------------------------------------------------------------
  // The list as a function of the table
  // ---------------------------------------------------------------------------

  /** One flag of the given kind per column position in ks, in the order of ks. */
  function Flags(t: Table, ks: seq<nat>, kind: FlagKind): (r: seq<Insight>)
    requires forall i :: 0 <= i < |ks| ==> ks[i] < |t.columns|
    ensures |r| == |ks|
  {
    if ks == [] then []
    else Flags(t, ks[..|ks| - 1], kind) + [ColumnFlag(kind, t.columns[ks[|ks| - 1]].name)]
  }

  /** The i-th flag names the column at the i-th position. */
  lemma {:induction false} FlagsAt(t: Table, ks: seq<nat>, kind: FlagKind)
    requires forall i :: 0 <= i < |ks| ==> ks[i] < |t.columns|
    ensures forall i :: 0 <= i < |ks| ==> Flags(t, ks, kind)[i] == ColumnFlag(kind, t.columns[ks[i]].name)
  {
    if ks != [] {
      FlagsAt(t, ks[..|ks| - 1], kind);
    }
  }

  /** One more step of a comprehension over s adds at most one flag. */
  lemma SelectFlagsStep(t: Table, s: seq<nat>, test: Test, i: nat, kind: FlagKind)
    requires i < |s|
    ensures Flags(t, SelectPrefix(t, s, test, i + 1), kind) ==
              Flags(t, SelectPrefix(t, s, test, i), kind)
              + (if Holds(t, test, s[i]) then [ColumnFlag(kind, t.columns[s[i]].name)] else [])
  {
    var ks := SelectPrefix(t, s, test, i);
    if Holds(t, test, s[i]) {
      var next := ks + [s[i]];
      assert SelectPrefix(t, s, test, i + 1) == next;
      assert next[..|next| - 1] == ks && next[|next| - 1] == s[i];
      assert Flags(t, next, kind) == Flags(t, ks, kind) + [ColumnFlag(kind, t.columns[s[i]].name)];
    } else {
      assert SelectPrefix(t, s, test, i + 1) == ks;
    }
  }

  /** `[c for c in numeric_cols if df[c].is_monotonic_increasing]`, as positions. */
  function SequentialColumns(t: Table): (r: seq<nat>)
    ensures Increasing(r)
    ensures forall k: nat {:trigger k in r} :: k in r <==>
              k < |t.columns| && t.columns[k].kind == Numeric && IsMonotonicIncreasing(t.columns[k].cells)
  {
    SelectPrefixIncreasing(t, NumericColumns(t), Monotonic, |NumericColumns(t)|);
    Select(t, NumericColumns(t), Monotonic)
  }

  function MissingInsights(t: Table): seq<Insight> {
    if TotalMissing(t.columns) > 0 then
      MostMissingHasMissing(t.columns);
      [ColumnFlag(MostMissingValues, t.columns[MostMissing(t.columns)].name)]
    else []
  }

  function CorrelationInsights(t: Table, pearson: (nat, nat) -> Option<real>): seq<Insight> {
    var numeric := NumericColumns(t);
    if |numeric| > 1 then
      match Correlation.StrongestOf(pearson, numeric)
      case Some(p) => [StrongRelationship(t.columns[numeric[p.0]].name, t.columns[numeric[p.1]].name)]
      case None => []
    else []
  }

  /** The four groups one after the other, or the fallback sentence alone
      when all four are empty. */
  function Layout(ids: seq<Insight>, seqs: seq<Insight>, miss: seq<Insight>, corr: seq<Insight>): seq<Insight> {
    var found := ids + seqs + miss + corr;
    if found == [] then [StructurallyClean] else found
  }

  /** `generate_ai_insights(df)`: never empty, and at most one sentence per
      column, one per numeric column, and two more. */
  function Insights(t: Table, pearson: (nat, nat) -> Option<real>): (r: seq<Insight>)
    ensures 0 < |r| <= |t.columns| + |NumericColumns(t)| + 2
  {
    assert |IdColumns(t)| <= |Range(|t.columns|)|;
    assert |SequentialColumns(t)| <= |NumericColumns(t)|;
    MissingGroup(t);
    CorrelationGroup(t, pearson);
    Layout(Flags(t, IdColumns(t), IdentifierLike), Flags(t, SequentialColumns(t), Sequential),
           MissingInsights(t), CorrelationInsights(t, pearson))
  }

  // ---------------------------------------------------------------------------
  // The list as the source builds it
  // ---------------------------------------------------------------------------

  /** The flags the source's loop over s has appended after its first i
      steps: one per element that passes the test. */
  function LoopFlags(t: Table, s: seq<nat>, test: Test, kind: FlagKind, i: nat): seq<Insight>
    requires i <= |s|
  {
    if i == 0 then []
    else
      LoopFlags(t, s, test, kind, i - 1)
        + (if Holds(t, test, s[i - 1]) then [ColumnFlag(kind, t.columns[s[i - 1]].name)] else [])
  }

  /** Appending inside the loop yields the flags of the selected columns. */
  lemma {:induction false} LoopFlagsSelect(t: Table, s: seq<nat>, test: Test, kind: FlagKind, i: nat)
    requires i <= |s|
    ensures LoopFlags(t, s, test, kind, i) == Flags(t, SelectPrefix(t, s, test, i), kind)
  {
    if i > 0 {
      LoopFlagsSelect(t, s, test, kind, i - 1);
      SelectFlagsStep(t, s, test, i - 1, kind);
    }
  }

  /** The identifier loop: one flag per column whose distinct non-missing
      values are as many as the rows, in column order. */
  method IdentifierFlags(t: Table) returns (insights: seq<Insight>)
    ensures insights == Flags(t, IdColumns(t), IdentifierLike)
  {
    insights := [];
    ghost var all := Range(|t.columns|);
    for k := 0 to |t.columns|
      invariant insights == LoopFlags(t, all, Identifier, IdentifierLike, k)
    {
      assert all[k] == k;
      if IsIdentifier(t.columns[k], t.rows) {
        insights := insights + [ColumnFlag(IdentifierLike, t.columns[k].name)];
      }
    }
    LoopFlagsSelect(t, all, Identifier, IdentifierLike, |t.columns|);
  }

  /** The sequential loop: one flag per numeric column whose values never
      decrease, in the order of the numeric columns. */
  method SequentialFlags(t: Table, numeric: seq<nat>) returns (insights: seq<Insight>)
    requires numeric == NumericColumns(t)
    ensures insights == Flags(t, SequentialColumns(t), Sequential)
  {
    insights := [];
    for i := 0 to |numeric|
      invariant insights == LoopFlags(t, numeric, Monotonic, Sequential, i)
    {
      var k := numeric[i];
      assert k in numeric;
      if IsMonotonicIncreasing(t.columns[k].cells) {
        insights := insights + [ColumnFlag(Sequential, t.columns[k].name)];
      }
    }
    LoopFlagsSelect(t, numeric, Monotonic, Sequential, |numeric|);
  }

  /** The missing-values block: name the head of the missing counts sorted
      in descending order, when the table has any missing value. */
  method MissingFlag(t: Table) returns (insights: seq<Insight>)
    ensures insights == MissingInsights(t)
  {
    insights := [];
    if TotalMissing(t.columns) > 0 {
      MostMissingHasMissing(t.columns);
      var worst := MostMissing(t.columns);
      insights := [ColumnFlag(MostMissingValues, t.columns[worst].name)];
    }
  }

  /** The correlation block: with more than one numeric column, name the
      strongest pair of the prepared correlation matrix. */
  method CorrelationFlag(t: Table, pearson: (nat, nat) -> Option<real>, numeric: seq<nat>)
    returns (insights: seq<Insight>)
    requires numeric == NumericColumns(t)
    ensures insights == CorrelationInsights(t, pearson)
  {
    insights := [];
    if |numeric| > 1 {
      var pair := Correlation.StrongestPair(pearson, numeric);
      insights := [StrongRelationship(t.columns[numeric[pair.value.0]].name, t.columns[numeric[pair.value.1]].name)];
    }
  }

  /** `generate_ai_insights(df)`, building the list step by step. */
  method GenerateInsights(t: Table, pearson: (nat, nat) -> Option<real>) returns (insights: seq<Insight>)
    ensures insights == Insights(t, pearson)
  {
    var numeric := NumericColumns(t);
    var identifiers := IdentifierFlags(t);
    var sequential := SequentialFlags(t, numeric);
    var missing := MissingFlag(t);
    var correlation := CorrelationFlag(t, pearson, numeric);
    insights := identifiers + sequential + missing + correlation;
    if insights == [] {
      insights := [StructurallyClean];
    }
  }

  // ---------------------------------------------------------------------------
  // What the list says: the layout of the four groups
  // ---------------------------------------------------------------------------

  /** The group a sentence belongs to, in the order the groups are listed. */
  function Rank(i: Insight): nat {
    match i
    case ColumnFlag(IdentifierLike, _) => 0
    case ColumnFlag(Sequential, _) => 1
    case ColumnFlag(MostMissingValues, _) => 2
    case StrongRelationship(_, _) => 3
    case StructurallyClean => 4
  }

  predicate IsMissingFlag(i: Insight) {
    i.ColumnFlag? && i.kind == MostMissingValues
  }

  lemma RankKinds(x: Insight)
    ensures IsMissingFlag(x) <==> Rank(x) == 2
    ensures x.StrongRelationship? <==> Rank(x) == 3
  {
  }

  predicate AllRank(s: seq<Insight>, k: nat) {
    forall i :: 0 <= i < |s| ==> Rank(s[i]) == k
  }

  lemma RankExcludes(s: seq<Insight>, k: nat, x: Insight)
    requires AllRank(s, k) && Rank(x) != k
    ensures x !in s
  {
  }

  /** Four groups of ranks 0 to 3, the last two of at most one sentence each. */
  predicate WellGrouped(ids: seq<Insight>, seqs: seq<Insight>, miss: seq<Insight>, corr: seq<Insight>) {
    && AllRank(ids, 0) && AllRank(seqs, 1) && AllRank(miss, 2) && AllRank(corr, 3)
    && |miss| <= 1 && |corr| <= 1
  }

  lemma ConcatAt<T>(a: seq<T>, b: seq<T>, c: seq<T>, d: seq<T>, i: nat)
    requires i < |a + b + c + d|
    ensures (a + b + c + d)[i] ==
              if i < |a| then a[i]
              else if i < |a| + |b| then b[i - |a|]
              else if i < |a| + |b| + |c| then c[i - |a| - |b|]
              else d[i - |a| - |b| - |c|]
  {
  }

  /** The entry at position i of the layout, located by its kind: a flag of
      the first two groups sits at its own place in its group, a sentence of
      the last two groups is that group's only one, and the fallback appears
      only when every group is empty. */
  lemma LayoutAt(a: seq<Insight>, b: seq<Insight>, m: seq<Insight>, c: seq<Insight>, i: nat)
    requires WellGrouped(a, b, m, c) && i < |Layout(a, b, m, c)|
    ensures var r := Layout(a, b, m, c);
            && (Rank(r[i]) == 0 ==> i < |a| && r[i] == a[i])
            && (Rank(r[i]) == 1 ==> |a| <= i < |a| + |b| && r[i] == b[i - |a|])
            && (Rank(r[i]) == 2 ==> m != [] && r[i] == m[0])
            && (Rank(r[i]) == 3 ==> c != [] && r[i] == c[0])
            && (Rank(r[i]) == 4 ==> a + b + m + c == [] && r == [StructurallyClean])
  {
    if a + b + m + c != [] {
      ConcatAt(a, b, m, c, i);
    }
  }

  /** The layout is never empty; each sentence of a group is in it, and
      nothing else is apart from the fallback, which appears exactly when
      every group is empty. */
  lemma LayoutMembers(a: seq<Insight>, b: seq<Insight>, m: seq<Insight>, c: seq<Insight>)
    requires WellGrouped(a, b, m, c)
    ensures var r := Layout(a, b, m, c);
            && |r| > 0
            && (m != [] ==> |a| + |b| < |r| && r[|a| + |b|] == m[0])
            && (c != [] ==> |a| + |b| + |m| < |r| && r[|a| + |b| + |m|] == c[0])
            && (forall x :: x != StructurallyClean ==> (x in r <==> x in a || x in b || x in m || x in c))
            && (StructurallyClean in r <==> a == [] && b == [] && m == [] && c == [])
  {
    var r := Layout(a, b, m, c);
    if a + b + m + c != [] {
      forall i | 0 <= i < |r| ensures r[i] != StructurallyClean {
        ConcatAt(a, b, m, c, i);
      }
    }
  }

  /** A flag of the first two groups is in the layout exactly when it is in
      its own group. */
  lemma LayoutFlagMember(a: seq<Insight>, b: seq<Insight>, m: seq<Insight>, c: seq<Insight>, x: Insight)
    requires WellGrouped(a, b, m, c) && Rank(x) <= 1
    ensures Rank(x) == 0 ==> (x in Layout(a, b, m, c) <==> x in a)
    ensures Rank(x) == 1 ==> (x in Layout(a, b, m, c) <==> x in b)
  {
    LayoutMembers(a, b, m, c);
    RankExcludes(m, 2, x);
    RankExcludes(c, 3, x);
    if Rank(x) == 0 {
      RankExcludes(b, 1, x);
    } else {
      RankExcludes(a, 0, x);
    }
  }

  /** Ranks never decrease along the layout and the last two groups add at
      most one sentence each. */
  lemma LayoutOrder(a: seq<Insight>, b: seq<Insight>, m: seq<Insight>, c: seq<Insight>)
    requires WellGrouped(a, b, m, c)
    ensures var r := Layout(a, b, m, c);
            forall i, j :: 0 <= i < j < |r| ==> Rank(r[i]) <= Rank(r[j])
    ensures var r := Layout(a, b, m, c);
            forall i, j :: 0 <= i < j < |r| ==>
              !(IsMissingFlag(r[i]) && IsMissingFlag(r[j])) && !(r[i].StrongRelationship? && r[j].StrongRelationship?)
  {
    var r := Layout(a, b, m, c);
    if a + b + m + c != [] {
      forall i | 0 <= i < |r|
        ensures Rank(r[i]) == if i < |a| then 0 else if i < |a| + |b| then 1 else if i < |a| + |b| + |m| then 2 else 3
      {
        ConcatAt(a, b, m, c, i);
      }
      forall i, j | 0 <= i < j < |r|
        ensures !(IsMissingFlag(r[i]) && IsMissingFlag(r[j])) && !(r[i].StrongRelationship? && r[j].StrongRelationship?)
      {
        RankKinds(r[i]);
        RankKinds(r[j]);
      }
    }
  }

  // ---------------------------------------------------------------------------
  // What the list says: the groups of generate_ai_insights
  // ---------------------------------------------------------------------------

  lemma FlagsRank(t: Table, ks: seq<nat>, kind: FlagKind)
    requires forall i :: 0 <= i < |ks| ==> ks[i] < |t.columns|
    ensures AllRank(Flags(t, ks, kind), if kind == IdentifierLike then 0 else if kind == Sequential then 1 else 2)
  {
    FlagsAt(t, ks, kind);
  }

  /** The missing-values group: one sentence exactly when some value is
      missing, naming a column with a largest, non-zero, missing count. */
  lemma MissingGroup(t: Table)
    ensures |MissingInsights(t)| <= 1 && AllRank(MissingInsights(t), 2)
    ensures MissingInsights(t) != [] <==> TotalMissing(t.columns) > 0
    ensures MissingInsights(t) != [] ==>
              var c := MostMissing(t.columns);
              && MissingInsights(t)[0] == ColumnFlag(MostMissingValues, t.columns[c].name)
              && CountMissing(t.columns[c].cells) > 0
              && forall j :: 0 <= j < |t.columns| ==> CountMissing(t.columns[j].cells) <= CountMissing(t.columns[c].cells)
  {
    if TotalMissing(t.columns) > 0 {
      MostMissingHasMissing(t.columns);
    }
  }

  /** The correlation group: one sentence exactly when there are at least two
      numeric columns. */
  lemma CorrelationGroup(t: Table, pearson: (nat, nat) -> Option<real>)
    ensures |CorrelationInsights(t, pearson)| <= 1 && AllRank(CorrelationInsights(t, pearson), 3)
    ensures CorrelationInsights(t, pearson) != [] <==> |NumericColumns(t)| > 1
  {
  }

  /** The correlation sentence names the columns of a largest entry of the
      prepared correlation matrix of the numeric columns. */
  lemma CorrelationNames(t: Table, pearson: (nat, nat) -> Option<real>)
    requires CorrelationInsights(t, pearson) != []
    ensures var numeric := NumericColumns(t);
            var p := Correlation.StrongestOf(pearson, numeric);
            && p.Some?
            && Correlation.IsStrongest(Correlation.Prepared(pearson, numeric), |numeric|, p.value)
            && CorrelationInsights(t, pearson)[0] ==
                 StrongRelationship(t.columns[numeric[p.value.0]].name, t.columns[numeric[p.value.1]].name)
  {
  }

  /** The four groups of the list are well grouped. */
  lemma Parts(t: Table, pearson: (nat, nat) -> Option<real>)
    ensures WellGrouped(Flags(t, IdColumns(t), IdentifierLike), Flags(t, SequentialColumns(t), Sequential),
                        MissingInsights(t), CorrelationInsights(t, pearson))
  {
    FlagsRank(t, IdColumns(t), IdentifierLike);
    FlagsRank(t, SequentialColumns(t), Sequential);
    MissingGroup(t);
    CorrelationGroup(t, pearson);
  }

  /** Sentences come in the group order identifiers, sequential, missing,
      correlation; there is at most one missing-values sentence and at most
      one correlation sentence. */
  lemma GroupOrder(t: Table, pearson: (nat, nat) -> Option<real>)
    ensures var r := Insights(t, pearson);
            forall i, j :: 0 <= i < j < |r| ==> Rank(r[i]) <= Rank(r[j])
    ensures var r := Insights(t, pearson);
            forall i, j :: 0 <= i < j < |r| ==>
              !(IsMissingFlag(r[i]) && IsMissingFlag(r[j])) && !(r[i].StrongRelationship? && r[j].StrongRelationship?)
  {
    Parts(t, pearson);
    LayoutOrder(Flags(t, IdColumns(t), IdentifierLike), Flags(t, SequentialColumns(t), Sequential),
                MissingInsights(t), CorrelationInsights(t, pearson));
  }

  // ---------------------------------------------------------------------------
  // Which columns are named
  // ---------------------------------------------------------------------------

  /** Distinct names identify columns. */
  lemma NameInjective(t: Table, a: nat, b: nat)
    requires Valid(t) && a < |t.columns| && b < |t.columns|
    requires t.columns[a].name == t.columns[b].name
    ensures a == b
  {
  }

  /** A list of flags names a column exactly when the column is among ks. */
  lemma FlagsMember(t: Table, ks: seq<nat>, kind: FlagKind, c: nat)
    requires Valid(t) && c < |t.columns|
    requires forall i :: 0 <= i < |ks| ==> ks[i] < |t.columns|
    ensures ColumnFlag(kind, t.columns[c].name) in Flags(t, ks, kind) <==> c in ks
  {
    FlagsAt(t, ks, kind);
    var f := Flags(t, ks, kind);
    if ColumnFlag(kind, t.columns[c].name) in f {
      var i :| 0 <= i < |f| && f[i] == ColumnFlag(kind, t.columns[c].name);
      NameInjective(t, ks[i], c);
      assert ks[i] in ks;
    }
    if c in ks {
      var i :| 0 <= i < |ks| && ks[i] == c;
      assert f[i] == ColumnFlag(kind, t.columns[c].name);
    }
  }

  /** A column is reported as identifier-like exactly when its number of
      distinct non-missing values equals the number of rows. */
  lemma IdentifierSentence(t: Table, pearson: (nat, nat) -> Option<real>, c: nat)
    requires Valid(t) && c < |t.columns|
    ensures ColumnFlag(IdentifierLike, t.columns[c].name) in Insights(t, pearson)
            <==> IsIdentifier(t.columns[c], t.rows)
  {
    var x := ColumnFlag(IdentifierLike, t.columns[c].name);
    var ids, seqs := Flags(t, IdColumns(t), IdentifierLike), Flags(t, SequentialColumns(t), Sequential);
    var miss, corr := MissingInsights(t), CorrelationInsights(t, pearson);
    Parts(t, pearson);
    LayoutFlagMember(ids, seqs, miss, corr, x);
    FlagsMember(t, IdColumns(t), IdentifierLike, c);
  }

  /** A column with a missing value is never reported as identifier-like. */
  lemma MissingColumnNotIdentifier(t: Table, pearson: (nat, nat) -> Option<real>, c: nat)
    requires Valid(t) && c < |t.columns| && CountMissing(t.columns[c].cells) > 0
    ensures ColumnFlag(IdentifierLike, t.columns[c].name) !in Insights(t, pearson)
  {
    IdentifierSentence(t, pearson, c);
    MissingNeverIdentifier(t.columns[c], t.rows);
  }

  /** A column is reported as sequential exactly when it is numeric and its
      values are all present and never decrease. */
  lemma SequentialSentence(t: Table, pearson: (nat, nat) -> Option<real>, c: nat)
    requires Valid(t) && c < |t.columns|
    ensures ColumnFlag(Sequential, t.columns[c].name) in Insights(t, pearson)
            <==> t.columns[c].kind == Numeric && IsMonotonicIncreasing(t.columns[c].cells)
  {
    var x := ColumnFlag(Sequential, t.columns[c].name);
    var ids, seqs := Flags(t, IdColumns(t), IdentifierLike), Flags(t, SequentialColumns(t), Sequential);
    var miss, corr := MissingInsights(t), CorrelationInsights(t, pearson);
    Parts(t, pearson);
    LayoutFlagMember(ids, seqs, miss, corr, x);
    FlagsMember(t, SequentialColumns(t), Sequential, c);
  }

  /** Within the identifier group and within the sequential group, columns
      are named in table order. */
  lemma FlagOrder(t: Table, pearson: (nat, nat) -> Option<real>, kind: FlagKind, i: nat, j: nat, a: nat, b: nat)
    requires Valid(t) && kind != MostMissingValues && a < |t.columns| && b < |t.columns|
    requires var r := Insights(t, pearson);
             && i < j < |r|
             && r[i] == ColumnFlag(kind, t.columns[a].name)
             && r[j] == ColumnFlag(kind, t.columns[b].name)
    ensures a < b
  {
    var ids, seqs := Flags(t, IdColumns(t), IdentifierLike), Flags(t, SequentialColumns(t), Sequential);
    var miss, corr := MissingInsights(t), CorrelationInsights(t, pearson);
    Parts(t, pearson);
    LayoutAt(ids, seqs, miss, corr, i);
    LayoutAt(ids, seqs, miss, corr, j);
    if kind == IdentifierLike {
      var ks := IdColumns(t);
      FlagsAt(t, ks, IdentifierLike);
      NameInjective(t, ks[i], a);
      NameInjective(t, ks[j], b);
    } else {
      assert kind == Sequential;
      var ks := SequentialColumns(t);
      FlagsAt(t, ks, Sequential);
      NameInjective(t, ks[i - |ids|], a);
      NameInjective(t, ks[j - |ids|], b);
    }
  }

  /** A missing-values sentence appears exactly when the table has a missing
      value, and never twice. */
  lemma MissingSentence(t: Table, pearson: (nat, nat) -> Option<real>)
    ensures var r := Insights(t, pearson);
            (exists i :: 0 <= i < |r| && IsMissingFlag(r[i])) <==> TotalMissing(t.columns) > 0
    ensures var r := Insights(t, pearson);
            forall i, j :: 0 <= i < j < |r| ==> !(IsMissingFlag(r[i]) && IsMissingFlag(r[j]))
  {
    GroupOrder(t, pearson);
    var r := Insights(t, pearson);
    var ids, seqs := Flags(t, IdColumns(t), IdentifierLike), Flags(t, SequentialColumns(t), Sequential);
    var miss, corr := MissingInsights(t), CorrelationInsights(t, pearson);
    Parts(t, pearson);
    MissingGroup(t);
    LayoutMembers(ids, seqs, miss, corr);
    if miss != [] {
      assert IsMissingFlag(r[|ids| + |seqs|]);
    } else {
      forall i | 0 <= i < |r| ensures !IsMissingFlag(r[i]) {
        RankKinds(r[i]);
        LayoutAt(ids, seqs, miss, corr, i);
      }
    }
  }

  /** The missing-values sentence names a column with a largest, non-zero,
      missing count. */
  lemma MissingSentenceNames(t: Table, pearson: (nat, nat) -> Option<real>, i: nat)
    requires i < |Insights(t, pearson)| && IsMissingFlag(Insights(t, pearson)[i])
    ensures exists c :: 0 <= c < |t.columns| && Insights(t, pearson)[i].column == t.columns[c].name
              && CountMissing(t.columns[c].cells) > 0
              && forall k :: 0 <= k < |t.columns| ==> CountMissing(t.columns[k].cells) <= CountMissing(t.columns[c].cells)
  {
    var r := Insights(t, pearson);
    var ids, seqs := Flags(t, IdColumns(t), IdentifierLike), Flags(t, SequentialColumns(t), Sequential);
    var miss, corr := MissingInsights(t), CorrelationInsights(t, pearson);
    Parts(t, pearson);
    MissingGroup(t);
    RankKinds(r[i]);
    LayoutAt(ids, seqs, miss, corr, i);
    var c := MostMissing(t.columns);
    assert r[i].column == t.columns[c].name;
  }

  /** A correlation sentence appears exactly when there are at least two
      numeric columns. */
  lemma CorrelationSentence(t: Table, pearson: (nat, nat) -> Option<real>)
    ensures var r := Insights(t, pearson);
            (exists i :: 0 <= i < |r| && r[i].StrongRelationship?) <==> |NumericColumns(t)| > 1
  {
    var r := Insights(t, pearson);
    var ids, seqs := Flags(t, IdColumns(t), IdentifierLike), Flags(t, SequentialColumns(t), Sequential);
    var miss, corr := MissingInsights(t), CorrelationInsights(t, pearson);
    Parts(t, pearson);
    CorrelationGroup(t, pearson);
    LayoutMembers(ids, seqs, miss, corr);
    if corr != [] {
      assert r[|ids| + |seqs| + |miss|].StrongRelationship?;
    } else {
      forall i | 0 <= i < |r| ensures !r[i].StrongRelationship? {
        RankKinds(r[i]);
        LayoutAt(ids, seqs, miss, corr, i);
      }
    }
  }

  /** The correlation sentence names the two columns of a largest entry of
      the prepared correlation matrix of the numeric columns. */
  lemma CorrelationSentenceNames(t: Table, pearson: (nat, nat) -> Option<real>, i: nat)
    requires i < |Insights(t, pearson)| && Insights(t, pearson)[i].StrongRelationship?
    ensures var numeric := NumericColumns(t);
            exists q: Correlation.Pair ::
              && q.0 < |numeric| && q.1 < |numeric|
              && Correlation.IsStrongest(Correlation.Prepared(pearson, numeric), |numeric|, q)
              && Insights(t, pearson)[i] == StrongRelationship(t.columns[numeric[q.0]].name, t.columns[numeric[q.1]].name)
  {
    var r := Insights(t, pearson);
    var ids, seqs := Flags(t, IdColumns(t), IdentifierLike), Flags(t, SequentialColumns(t), Sequential);
    var miss, corr := MissingInsights(t), CorrelationInsights(t, pearson);
    Parts(t, pearson);
    RankKinds(r[i]);
    LayoutAt(ids, seqs, miss, corr, i);
    CorrelationNames(t, pearson);
  }

  /** No column is selected exactly when no column passes the test. */
  lemma NoIdColumns(t: Table)
    ensures IdColumns(t) == [] <==> forall k :: 0 <= k < |t.columns| ==> !IsIdentifier(t.columns[k], t.rows)
  {
    var ids := IdColumns(t);
    if ids != [] {
      assert ids[0] in ids;
    } else {
      forall k | 0 <= k < |t.columns| ensures !IsIdentifier(t.columns[k], t.rows) {
        assert k !in ids;
      }
    }
  }

  lemma NoSequentialColumns(t: Table)
    ensures SequentialColumns(t) == [] <==>
              forall k :: 0 <= k < |t.columns| && t.columns[k].kind == Numeric ==> !IsMonotonicIncreasing(t.columns[k].cells)
  {
    var seqs := SequentialColumns(t);
    if seqs != [] {
      assert seqs[0] in seqs;
    } else {
      forall k | 0 <= k < |t.columns| && t.columns[k].kind == Numeric ensures !IsMonotonicIncreasing(t.columns[k].cells) {
        assert k !in seqs;
      }
    }
  }

  /** The list is never empty; it holds the "structurally clean" sentence
      exactly when no rule fires, and then nothing else. */
  lemma Fallback(t: Table, pearson: (nat, nat) -> Option<real>)
    ensures |Insights(t, pearson)| > 0
    ensures StructurallyClean in Insights(t, pearson) <==>
              && (forall k :: 0 <= k < |t.columns| ==> !IsIdentifier(t.columns[k], t.rows))
              && (forall k :: 0 <= k < |t.columns| && t.columns[k].kind == Numeric ==>
                    !IsMonotonicIncreasing(t.columns[k].cells))
              && TotalMissing(t.columns) == 0
              && |NumericColumns(t)| < 2
    ensures StructurallyClean in Insights(t, pearson) ==> Insights(t, pearson) == [StructurallyClean]
  {
    var ids, seqs := Flags(t, IdColumns(t), IdentifierLike), Flags(t, SequentialColumns(t), Sequential);
    var miss, corr := MissingInsights(t), CorrelationInsights(t, pearson);
    Parts(t, pearson);
    LayoutMembers(ids, seqs, miss, corr);
    MissingGroup(t);
    CorrelationGroup(t, pearson);
    NoIdColumns(t);
    NoSequentialColumns(t);
  }

  /** With no rows every column counts as identifier-like (zero distinct
      values equal zero rows) and every numeric column as sequential (an
      empty column never decreases). */
  lemma NoRowsFlagsEveryColumn(t: Table, pearson: (nat, nat) -> Option<real>)
    requires Valid(t) && t.rows == 0
    ensures forall c :: 0 <= c < |t.columns| ==> ColumnFlag(IdentifierLike, t.columns[c].name) in Insights(t, pearson)
    ensures forall c :: 0 <= c < |t.columns| && t.columns[c].kind == Numeric ==>
              ColumnFlag(Sequential, t.columns[c].name) in Insights(t, pearson)
  {
    forall c | 0 <= c < |t.columns|
      ensures ColumnFlag(IdentifierLike, t.columns[c].name) in Insights(t, pearson)
      ensures t.columns[c].kind == Numeric ==> ColumnFlag(Sequential, t.columns[c].name) in Insights(t, pearson)
    {
      assert t.columns[c].cells == [];
      IdentifierSentence(t, pearson, c);
      SequentialSentence(t, pearson, c);
    }
  }
}
