/**
 * The decision logic of the dashboard pages: the data assistant, which
 * lower-cases a question and answers the first topic it mentions; the
 * `useful_numeric` columns (numeric and not identifier-like) that the
 * assistant, the story page and the executive report correlate; the
 * "strongest pattern" text; the report's data-quality phrase; and the
 * append-only chat history kept in the session.
 */
module App {
  import opened Wrappers
  import opened Text
  import opened Dataset
  import Correlation

  // ---------------------------------------------------------------------------
  // Routing a question
  // ---------------------------------------------------------------------------

  /** The branches of the assistant's if/elif chain. */
  datatype Branch =
    | SummaryBranch
    | MissingBranch
    | CorrelationBranch
    | IdentifierBranch
    | AverageBranch
    | HelpBranch

  /** The branch taken for a question: the lower-cased question is searched for
      each keyword in turn and the first that occurs wins. A branch other than
      the fallback is taken only when one of its keywords occurs. */
  function Route(question: string): (r: Branch)
    ensures r != HelpBranch ==> Mentions(Lower(question), r)
  {
    KeywordList();
    var q := Lower(question);
    if Contains(q, "summary") then SummaryBranch
    else if Contains(q, "missing") then MissingBranch
    else if Contains(q, "correlation") then CorrelationBranch
    else if Contains(q, "id") then IdentifierBranch
    else if Contains(q, "average") || Contains(q, "mean") then AverageBranch
    else HelpBranch
  }

  /** The keywords that select each branch; the fallback has none. */
  function Keywords(b: Branch): seq<string> {
    match b
    case SummaryBranch => ["summary"]
    case MissingBranch => ["missing"]
    case CorrelationBranch => ["correlation"]
    case IdentifierBranch => ["id"]
    case AverageBranch => ["average", "mean"]
    case HelpBranch => []
  }

  lemma KeywordList()
    ensures Keywords(SummaryBranch)[0] == "summary" && Keywords(MissingBranch)[0] == "missing"
    ensures Keywords(CorrelationBranch)[0] == "correlation" && Keywords(IdentifierBranch)[0] == "id"
    ensures Keywords(AverageBranch)[0] == "average" && Keywords(AverageBranch)[1] == "mean"
  {
  }

  /** The position of each branch in the chain. */
  function Priority(b: Branch): nat {
    match b
    case SummaryBranch => 0
    case MissingBranch => 1
    case CorrelationBranch => 2
    case IdentifierBranch => 3
    case AverageBranch => 4
    case HelpBranch => 5
  }

  /** The (lower-cased) question contains one of the branch's keywords. */
  predicate Mentions(q: string, b: Branch) {
    exists i :: 0 <= i < |Keywords(b)| && Contains(q, Keywords(b)[i])
  }

  /** First match wins: a question is routed to b exactly when b is the
      fallback or one of b's keywords occurs, and no keyword of an earlier
      branch occurs. Exactly one branch meets this. */
  lemma RouteFirstMatch(question: string, b: Branch)
    ensures Route(question) == b <==>
              (b == HelpBranch || Mentions(Lower(question), b))
              && forall c: Branch :: Priority(c) < Priority(b) ==> !Mentions(Lower(question), c)
  {
    var q := Lower(question);
    KeywordList();
    assert Mentions(q, SummaryBranch) <==> Contains(q, "summary");
    assert Mentions(q, MissingBranch) <==> Contains(q, "missing");
    assert Mentions(q, CorrelationBranch) <==> Contains(q, "correlation");
    assert Mentions(q, IdentifierBranch) <==> Contains(q, "id");
    assert Mentions(q, AverageBranch) <==> Contains(q, "average") || Contains(q, "mean");
    assert !Mentions(q, HelpBranch);
  }

  /** Routing ignores case: a question and its lower-cased form go to the same branch. */
  lemma RouteIgnoresCase(question: string)
    ensures Route(Lower(question)) == Route(question)
  {
    LowerIdempotent(question);
  }

  // The examples below take the question as a parameter fixed by `requires`, so
  // that the verifier unfolds `Lower` and `Contains` only as far as the proof asks.

  /** A question about missing data goes to the missing branch, whatever its case. */
  lemma RouteMissingExample(question: string)
    requires question == "Missing data?"
    ensures Route(question) == MissingBranch
  {
    LowerMissingData(question);
    var q := Lower(question);
    assert !Contains(q, "summary") by {
      NoLetterY();
      MissingCharNotContains(q, "summary", 'y');
    }
    assert Contains(q, "missing") by {
      ContainsMiddle("", "missing", " data?");
    }
    RouteToMissing(question);
  }

  lemma LowerMissingData(question: string)
    requires question == "Missing data?"
    ensures Lower(question) == "" + "missing" + " data?"
  {
  }

  lemma NoLetterY()
    ensures 'y' !in "" + "missing" + " data?"
  {
    assert "" + "missing" + " data?" == "missing data?";
  }

  lemma RouteToMissing(question: string)
    requires !Contains(Lower(question), "summary") && Contains(Lower(question), "missing")
    ensures Route(question) == MissingBranch
  {
  }

  /** An earlier branch wins even when its keyword comes later in the question. */
  lemma RouteSummaryExample(question: string)
    requires question == "missing summary"
    ensures Route(question) == SummaryBranch
  {
    LowerKeeps(question);
    assert question == "missing " + "summary" + "";
    ContainsMiddle("missing ", "summary", "");
  }

  /** "id" is matched as a substring, in any case, so "VALID" asks for identifiers. */
  lemma RouteIdExample(question: string)
    requires question == "VALID"
    ensures Route(question) == IdentifierBranch
  {
    var q := Lower(question);
    assert q == "valid";
    MissingCharNotContains(q, "summary", 'y');
    MissingCharNotContains(q, "missing", 'g');
    MissingCharNotContains(q, "correlation", 'c');
    assert q == "val" + "id" + "";
    ContainsMiddle("val", "id", "");
  }

  // ---------------------------------------------------------------------------
  // Columns worth correlating
  // ---------------------------------------------------------------------------

  /** `[c for c in numeric_cols if c not in id_cols]`, as positions; the test
      is by name, as in the source. */
  function UsefulNumeric(t: Table): (r: seq<nat>)
    ensures Increasing(r)
    ensures forall k :: k in r ==> k in NumericColumns(t)
  {
    var excluded := NotNamed(Names(t, IdColumns(t)));
    SelectPrefixIncreasing(t, NumericColumns(t), excluded, |NumericColumns(t)|);
    Select(t, NumericColumns(t), excluded)
  }

  /** With distinct column names, the useful columns are exactly the numeric
      columns that are not identifier-like, in table order. */
  lemma UsefulNumericExact(t: Table)
    requires Valid(t)
    ensures Increasing(UsefulNumeric(t))
    ensures forall k: nat :: k in UsefulNumeric(t) <==>
              k < |t.columns| && t.columns[k].kind == Numeric && !IsIdentifier(t.columns[k], t.rows)
  {
    var ids := IdColumns(t);
    var names := Names(t, ids);
    forall k: nat | k < |t.columns|
      ensures t.columns[k].name in names <==> IsIdentifier(t.columns[k], t.rows)
    {
      if t.columns[k].name in names {
        var i :| 0 <= i < |names| && names[i] == t.columns[k].name;
        assert ids[i] in ids;
        assert ids[i] == k;
      }
      if IsIdentifier(t.columns[k], t.rows) {
        assert k in ids;
        var i :| 0 <= i < |ids| && ids[i] == k;
        assert names[i] == t.columns[k].name;
      }
    }
  }

  // ---------------------------------------------------------------------------
  // The strongest pattern among the useful columns
  // ---------------------------------------------------------------------------

  const NotEnoughNumericData := "Not enough numeric data"
  const Arrow := " \U{2194} "

  /** a and b name the two useful columns of a largest entry of the useful
      columns' correlation matrix, once its diagonal is zeroed. */
  ghost predicate NamesStrongestPair(t: Table, pearson: (nat, nat) -> Option<real>, a: string, b: string) {
    var useful := UsefulNumeric(t);
    exists p: Correlation.Pair ::
      && p.0 < |useful| && p.1 < |useful|
      && Correlation.IsStrongest(Correlation.Prepared(pearson, useful), |useful|, p)
      && a == t.columns[useful[p.0]].name && b == t.columns[useful[p.1]].name
  }

  /** The names of the most strongly correlated pair of useful columns, once
      the diagonal is zeroed; nothing when there are fewer than two. */
  function StrongestUseful(t: Table, pearson: (nat, nat) -> Option<real>): (r: Option<(string, string)>)
    ensures r.Some? <==> |UsefulNumeric(t)| > 1
    ensures r.Some? ==> NamesStrongestPair(t, pearson, r.value.0, r.value.1)
  {
    var useful := UsefulNumeric(t);
    if |useful| > 1 then
      Correlation.StrongestExists(pearson, useful);
      var p := Correlation.StrongestOf(pearson, useful).value;
      Some((t.columns[useful[p.0]].name, t.columns[useful[p.1]].name))
    else None
  }

  /** `corr_text`: "a ↔ b" for the strongest pair of useful columns, or the
      placeholder when fewer than two remain. */
  function CorrText(t: Table, pearson: (nat, nat) -> Option<real>): (r: string)
    ensures |UsefulNumeric(t)| <= 1 ==> r == NotEnoughNumericData
    ensures |UsefulNumeric(t)| > 1 ==>
              exists a, b :: NamesStrongestPair(t, pearson, a, b) && r == a + Arrow + b
  {
    var pair := StrongestUseful(t, pearson);
    if pair.Some? then pair.value.0 + Arrow + pair.value.1 else NotEnoughNumericData
  }

  /** The placeholder appears exactly when fewer than two useful columns remain. */
  lemma CorrTextPlaceholder(t: Table, pearson: (nat, nat) -> Option<real>)
    ensures CorrText(t, pearson) == NotEnoughNumericData <==> |UsefulNumeric(t)| <= 1
  {
    if StrongestUseful(t, pearson).Some? {
      var (a, b) := StrongestUseful(t, pearson).value;
      assert (a + Arrow + b)[|a| + 1] == '\U{2194}';
      PlaceholderHasNoArrow();
    }
  }

  lemma PlaceholderHasNoArrow()
    ensures '\U{2194}' !in NotEnoughNumericData
  {
    assert NotEnoughNumericData == "Not enough" + " numeric" + " data";
  }

  /** While two different useful columns have a non-zero coefficient, the
      strongest pattern names two different columns. */
  lemma StrongestUsefulDistinct(t: Table, pearson: (nat, nat) -> Option<real>, i: nat, j: nat)
    requires Valid(t)
    requires i < |UsefulNumeric(t)| && j < |UsefulNumeric(t)| && i != j
    requires var useful := UsefulNumeric(t);
             pearson(useful[i], useful[j]).Some? && pearson(useful[i], useful[j]).value != 0.0
    ensures StrongestUseful(t, pearson).Some?
    ensures StrongestUseful(t, pearson).value.0 != StrongestUseful(t, pearson).value.1
  {
    var useful := UsefulNumeric(t);
    Correlation.StrongestOffDiagonal(pearson, useful, i, j);
    var p := Correlation.StrongestOf(pearson, useful).value;
    var a, b := useful[p.0], useful[p.1];
    assert a != b by {
      if p.0 < p.1 {
        assert useful[p.0] < useful[p.1];
      } else {
        assert useful[p.1] < useful[p.0];
      }
    }
    assert a < |t.columns| && b < |t.columns| by {
      assert a in NumericColumns(t) && b in NumericColumns(t);
    }
    if a < b {
      assert t.columns[a].name != t.columns[b].name;
    } else {
      assert t.columns[b].name != t.columns[a].name;
    }
  }

  /** `corr_text` as app.py computes it (lines 180-186 and 340-346): start
      from the placeholder and, with at least two useful columns, build the
      absolute matrix, zero its diagonal in place and name the largest entry. */
  method StrongestPatternText(t: Table, pearson: (nat, nat) -> Option<real>) returns (text: string)
    ensures text == CorrText(t, pearson)
  {
    var useful := UsefulNumeric(t);
    text := NotEnoughNumericData;
    if |useful| > 1 {
      var pair := Correlation.StrongestPair(pearson, useful);
      text := t.columns[useful[pair.value.0]].name + Arrow + t.columns[useful[pair.value.1]].name;
    }
  }

  // ---------------------------------------------------------------------------
  // The assistant's answer
  // ---------------------------------------------------------------------------

  /** What the assistant shows, with the data it shows. */
  datatype Response =
    | Summary(rows: nat, columns: nat, missing: nat)
    | NoMissingValues
    | MissingPerColumn(counts: seq<(string, nat)>)
    | StrongestCorrelation(first: string, second: string)
    | NotEnoughNumericColumns
    | PossibleIdentifiers(names: seq<string>)
    | NoIdentifiers
    | Averages(names: seq<string>)
    | NoUsefulNumeric
    | Help

  /** Every column with its missing count, in table order. */
  function MissingCounts(columns: seq<Column>): (r: seq<(string, nat)>)
    ensures |r| == |columns|
    ensures forall k :: 0 <= k < |columns| ==> r[k] == (columns[k].name, CountMissing(columns[k].cells))
  {
    seq(|columns|, k requires 0 <= k < |columns| => (columns[k].name, CountMissing(columns[k].cells)))
  }

  /** The reply to one question. */
  function Answer(t: Table, pearson: (nat, nat) -> Option<real>, question: string): (r: Response)
    ensures Route(question) == MissingBranch ==>
              (r == NoMissingValues <==> TotalMissing(t.columns) == 0)
    ensures Route(question) == CorrelationBranch ==>
              (r == NotEnoughNumericColumns <==> |UsefulNumeric(t)| <= 1)
    ensures Route(question) == IdentifierBranch ==>
              (r == NoIdentifiers <==> IdColumns(t) == [])
    ensures Route(question) == AverageBranch ==>
              (r == NoUsefulNumeric <==> UsefulNumeric(t) == [])
    ensures r.Help? <==> Route(question) == HelpBranch
  {
    match Route(question)
    case SummaryBranch => Summary(t.rows, |t.columns|, TotalMissing(t.columns))
    case MissingBranch =>
      if TotalMissing(t.columns) == 0 then NoMissingValues else MissingPerColumn(MissingCounts(t.columns))
    case CorrelationBranch =>
      (match StrongestUseful(t, pearson)
       case Some((a, b)) => StrongestCorrelation(a, b)
       case None => NotEnoughNumericColumns)
    case IdentifierBranch =>
      if IdColumns(t) != [] then PossibleIdentifiers(Names(t, IdColumns(t))) else NoIdentifiers
    case AverageBranch =>
      var useful := UsefulNumeric(t);
      if useful != [] then Averages(Names(t, useful)) else NoUsefulNumeric
    case HelpBranch => Help
  }

  /** A correlation answer names a largest off-diagonal pair of useful columns. */
  lemma AnswerCorrelation(t: Table, pearson: (nat, nat) -> Option<real>, question: string)
    requires Route(question) == CorrelationBranch && |UsefulNumeric(t)| > 1
    ensures var r := Answer(t, pearson, question);
            r.StrongestCorrelation? && NamesStrongestPair(t, pearson, r.first, r.second)
  {
  }

  // ---------------------------------------------------------------------------
  // The chat history
  // ---------------------------------------------------------------------------

  type Entry = (string, string)

  /** `if user_input:` — a question was entered and is not empty. */
  predicate Submitted(input: Option<string>) {
    input.Some? && input.value != []
  }

  /** The history after one run of the page: created empty when absent, then
      extended by the user's question, if any. */
  function Appended(history: Option<seq<Entry>>, input: Option<string>): (r: seq<Entry>)
    ensures var before := if history.Some? then history.value else [];
            && |r| == |before| + (if Submitted(input) then 1 else 0)
            && r[..|before|] == before
            && (Submitted(input) ==> r[|before|] == ("user", input.value))
  {
    var before := if history.Some? then history.value else [];
    if Submitted(input) then before + [("user", input.value)] else before
  }

  /** Every entry is a user entry: no answer is ever recorded. */
  predicate UserOnly(h: seq<Entry>) {
    forall i :: 0 <= i < |h| ==> h[i].0 == "user"
  }

  /** The history over several runs, starting from a fresh session. */
  function Replay(inputs: seq<Option<string>>): seq<Entry> {
    if inputs == [] then []
    else Appended(Some(Replay(inputs[..|inputs| - 1])), inputs[|inputs| - 1])
  }

  /** The user's questions, in the order asked. */
  function Asked(inputs: seq<Option<string>>): seq<string> {
    if inputs == [] then []
    else
      var last := inputs[|inputs| - 1];
      Asked(inputs[..|inputs| - 1]) + (if Submitted(last) then [last.value] else [])
  }

  /** After any runs, the history holds one user entry per submitted question,
      in order, and nothing else. */
  lemma {:induction false} ReplayRecordsQuestions(inputs: seq<Option<string>>)
    ensures |Replay(inputs)| == |Asked(inputs)|
    ensures forall i :: 0 <= i < |Replay(inputs)| ==> Replay(inputs)[i] == ("user", Asked(inputs)[i])
    ensures UserOnly(Replay(inputs))
  {
    if inputs != [] {
      var init := inputs[..|inputs| - 1];
      ReplayRecordsQuestions(init);
      var h := Replay(init);
      var last := inputs[|inputs| - 1];
      if Submitted(last) {
        assert Replay(inputs) == h + [("user", last.value)];
        assert Asked(inputs) == Asked(init) + [last.value];
      } else {
        assert Replay(inputs) == h;
        assert Asked(inputs) == Asked(init);
      }
    }
  }

  /** The assistant page's session state. */
  class Session {
    var chatHistory: Option<seq<Entry>>

    /** A new browser session has no history yet. */
    constructor()
      ensures chatHistory == None
    {
      chatHistory := None;
    }

    /** One run of the assistant page with what the chat input returned:
        the history is created if absent, the question appended, and the
        answer shown but not recorded. */
    method Ask(t: Table, pearson: (nat, nat) -> Option<real>, input: Option<string>) returns (reply: Option<Response>)
      modifies this
      ensures chatHistory == Some(Appended(old(chatHistory), input))
      ensures old(chatHistory).Some? && UserOnly(old(chatHistory).value) ==> UserOnly(chatHistory.value)
      ensures reply.Some? <==> Submitted(input)
      ensures Submitted(input) ==> reply.value == Answer(t, pearson, input.value)
    {
      if chatHistory.None? {
        chatHistory := Some([]);
      }
      reply := None;
      if input.Some? && input.value != [] {
        chatHistory := Some(chatHistory.value + [("user", input.value)]);
        reply := Some(Answer(t, pearson, input.value));
      }
    }
  }

  // ---------------------------------------------------------------------------
  // The executive report's story sentence
  // ---------------------------------------------------------------------------

  /** The data-quality phrase: "clean" exactly when nothing is missing. */
  function QualityPhrase(missing: nat): (r: string)
    ensures r == "clean" <==> missing == 0
    ensures r == "requires review" <==> missing > 0
  {
    if missing == 0 then "clean" else "requires review"
  }

  /** The report's three sentences around their four values. */
  function Report(rows: nat, cols: nat, corr: string, quality: string): string {
    "This dataset contains " + Grouped(rows) + " rows and " + Decimal(cols) + " columns. "
    + "Strongest relationship observed between " + corr + ". "
    + "Data quality appears " + quality + "."
  }

  /** The story sentence of the executive report: it names the strongest
      pattern. */
  function ReportStory(t: Table, pearson: (nat, nat) -> Option<real>): (r: string)
    ensures Contains(r, CorrText(t, pearson))
  {
    var head := "This dataset contains " + Grouped(t.rows) + " rows and " + Decimal(|t.columns|) + " columns. "
      + "Strongest relationship observed between ";
    var corr, quality := CorrText(t, pearson), QualityPhrase(TotalMissing(t.columns));
    var tail := ". " + "Data quality appears " + quality + ".";
    ContainsMiddle(head, corr, tail);
    assert head + corr + tail == Report(t.rows, |t.columns|, corr, quality);
    Report(t.rows, |t.columns|, corr, quality)
  }

  /** The report reads "clean" exactly when no value is missing. */
  lemma ReportStoryFacts(t: Table, pearson: (nat, nat) -> Option<real>)
    ensures (ReportStory(t, pearson) == Report(t.rows, |t.columns|, CorrText(t, pearson), "clean"))
              <==> TotalMissing(t.columns) == 0
  {
    var head := "This dataset contains " + Grouped(t.rows) + " rows and " + Decimal(|t.columns|) + " columns. "
      + "Strongest relationship observed between ";
    var corr := CorrText(t, pearson);
    assert |Report(t.rows, |t.columns|, corr, "clean")| == |head| + |corr| + 29;
    assert |Report(t.rows, |t.columns|, corr, "requires review")| == |head| + |corr| + 39;
  }
}
