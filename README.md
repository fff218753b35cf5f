# Data-insight rules of the analytics dashboard, in Dafny

This project models the decision logic of a CSV analytics dashboard: the rules that turn a table into insight sentences (`generate_ai_insights`), the fixed data story (`generate_story`), and three parts of the app pages:

- the data assistant's keyword routing and append-only chat history;
- the selection of `useful_numeric` columns (numeric and not identifier-like);
- the "strongest relationship" text and the report's data-quality phrase.

The model proves properties of each.

A table (`Dataset.Table`) is a row count plus a sequence of named columns. Each column has a kind (numeric or other) and one `Option<int>` cell per row; `None` stands for a missing value. Pearson correlation is not computed. It is a parameter `pearson(k, l): Option<real>` over table column positions, with `None` standing for NaN.

Modules, one per concern:

- `Text`: Python's `str.lower()`, the `in` substring test, `{n}` and `{n:,}` formatting, and `str.strip()`.
- `Dataset`: `nunique`, missing counts, the identifier-like and monotonic tests, and list comprehensions over columns.
- `Correlation`: the absolute matrix, diagonal zeroing in place on an `array2`, `unstack().idxmax()`, and the as-written zeroing of modules/ai_engine.py.
- `AiEngine`: `generate_ai_insights`. It is specified as a function and implemented as the source does it: methods append inside loops.
- `Storytelling`: `generate_story`.
- `App`: routing, `useful_numeric`, `corr_text`, the assistant's reply, a `Session` class with the chat history, and the report sentence.

Two behaviours of the code a reader may not expect:

- **A table with 0 rows.** Every column counts as identifier-like, because 0 distinct values equal 0 rows (modules/ai_engine.py:7). Every numeric column counts as sequential, because an empty series is monotonic (modules/ai_engine.py:12). `AiEngine.NoRowsFlagsEveryColumn` states this.
- **Columns in the insight correlation.** The insight engine correlates all numeric columns, identifiers included (modules/ai_engine.py:22-23). The app pages exclude identifiers (`App.UsefulNumeric`).

The insight list is modelled as structured insights (`AiEngine.Insight`: a kind and the columns it names), not as the strings the source returns. `AiEngine.Sentence` renders each one as the source's f-string, and `AiEngine.SentenceDetermines` shows that rendering loses nothing the rules decide. So the facts proved about the list carry over to the returned strings.

## Model

| member | source | states |
|---|---|---|
| Text.Lower | app.py:271 | lower-casing keeps the length and maps every character by its ASCII lower-case form |
| Text.LowerIdempotent | app.py:271 | lower-casing twice is lower-casing once |
| Text.Contains | app.py:279-316 | the substring test holds for the empty string in any string, and only for strings no longer than the text |
| Text.Decimal | modules/storytelling.py:8 | `{n}` is a non-empty run of digits that starts with 0 only for 0 itself |
| Text.Grouped | app.py:357 | `{n:,}` starts and ends with a digit, and starts with 0 only for 0 itself |
| Text.DecimalRoundTrip | modules/storytelling.py:8 | the decimal rendering of a count reads back as the same count |
| Text.GroupedDigits | app.py:357 | `{n:,}` with its commas removed is the plain decimal rendering of n |
| Text.StripStart | modules/storytelling.py:14 | the result is a suffix, everything removed is whitespace, and it does not start with whitespace |
| Text.StripEnd | modules/storytelling.py:14 | the result is a prefix, everything removed is whitespace, and it does not end with whitespace |
| Text.Strip | modules/storytelling.py:14 | the stripped text is empty or starts and ends with a non-space character |
| Text.StripSurrounded | modules/storytelling.py:14 | stripping whitespace around a text that starts and ends with a non-space gives back exactly that text |
| Dataset.NuniqueIsDistinctCount | modules/ai_engine.py:7 | the count of distinct non-missing values equals the size of the set of values present |
| Dataset.PresentMember | modules/ai_engine.py:7 | a value is among the distinct values exactly when some cell holds it |
| Dataset.Nunique | modules/ai_engine.py:7 | `nunique` is at most the number of cells, and 0 exactly when every cell is missing |
| Dataset.CountMissing | modules/ai_engine.py:16 | a column's missing count is at most its length, and 0 exactly when every cell is present |
| Dataset.NuniqueBound | modules/ai_engine.py:7 | distinct values plus missing cells never exceed the number of cells |
| Dataset.FullNuniqueInjective | modules/ai_engine.py:7 | as many distinct values as cells implies no missing cell and no repeated value |
| Dataset.InjectiveFullNunique | modules/ai_engine.py:7 | a complete column without repeats has as many distinct values as cells |
| Dataset.IsIdentifier | modules/ai_engine.py:7 | an identifier-like column has at least as many cells as the table has rows; with 0 rows, exactly the all-missing columns qualify |
| Dataset.IdentifierIffInjective | modules/ai_engine.py:7 | a column is identifier-like iff every cell is present and no two cells are equal |
| Dataset.MissingNeverIdentifier | modules/ai_engine.py:7 | a column with a missing cell is never identifier-like (and the table then has rows) |
| Dataset.IsMonotonicIncreasing | modules/ai_engine.py:12 | a monotonic increasing column has no missing cell, and an empty column is monotonic increasing |
| Dataset.MonotonicIffSorted | modules/ai_engine.py:12 | the neighbour test of `is_monotonic_increasing` is equivalent to every cell present and pairwise sorted |
| Dataset.TotalMissing | modules/ai_engine.py:16-17 | no column has more missing values than the whole table |
| Dataset.TotalMissingPositive | modules/ai_engine.py:16-17 | the table's missing total is positive iff some column has a missing cell |
| Dataset.MostMissing | modules/ai_engine.py:16-18 | the chosen column's missing count is at least every column's missing count |
| Dataset.MostMissingHasMissing | modules/ai_engine.py:17-18 | when the total is positive, the chosen column has a missing value |
| Dataset.Select | app.py:176-177 | a comprehension keeps exactly the elements that pass its test, and no more of them than the input has |
| Dataset.SelectPrefixIncreasing | app.py:176-177 | a comprehension over increasing positions yields increasing positions: column order is kept |
| Dataset.IdColumns | app.py:176 | `id_cols` holds exactly the identifier-like columns, in column order |
| Dataset.NumericColumns | modules/ai_engine.py:2 | `numeric_cols` holds exactly the numeric columns, in column order |
| Correlation.AbsValue | modules/ai_engine.py:23 | the absolute value is defined iff the coefficient is, is never negative and is plus or minus the coefficient |
| Correlation.AbsCorrelation | modules/ai_engine.py:23 | `corr().abs()` is the square matrix of absolute coefficients of the chosen columns |
| Correlation.DiagonalZeroed | app.py:183-184 | the diagonal becomes 0 and every other entry is kept |
| Correlation.Unstack | modules/ai_engine.py:25 | each entry of `unstack()` carries labels inside the matrix and the matrix value at (row, column) |
| Correlation.UnstackListsEntry | modules/ai_engine.py:25 | `unstack()` lists every entry of the matrix under its (column, row) labels |
| Correlation.Best | modules/ai_engine.py:25 | `idxmax` skips NaN and finds nothing iff all are NaN; otherwise its entry is at least every defined entry |
| Correlation.Strongest | modules/ai_engine.py:25 | the reported pair holds a largest defined entry, and none is reported iff every entry is NaN |
| Correlation.StrongestOf | modules/ai_engine.py:22-25 | with at least one column a pair is always reported, inside the matrix |
| Correlation.StrongestExists | app.py:182-185 | once the diagonal is zero a pair is reported even if every coefficient is NaN, and its value is not negative |
| Correlation.StrongestDominates | app.py:182-185 | no defined coefficient of two distinct columns exceeds the reported one in absolute value |
| Correlation.StrongestOffDiagonal | app.py:183-185 | while two distinct columns have a non-zero coefficient, the reported pair is two different columns |
| Correlation.AbsCorrelationArray | app.py:182 | the fresh 2-D array holds the absolute correlation matrix |
| Correlation.ZeroDiagonal | app.py:183-184 | the loop writes 0 on the diagonal in place and leaves every other entry unchanged |
| Correlation.StrongestPair | app.py:182-185 | build, zero in place, pick: the result is a largest entry of the prepared matrix, present iff there are columns |
| Correlation.ZeroRowsAsWritten | modules/ai_engine.py:24 | the as-written assignment sets every entry to 0 |
| Correlation.AsWrittenAdmitsSelfPair | modules/ai_engine.py:24 | after the as-written zeroing every self-pair is a largest entry; after diagonal zeroing no self-pair is, while two columns correlate |
| AiEngine.Sentence | modules/ai_engine.py:8-29 | every sentence quotes each column it names |
| AiEngine.SentenceDetermines | modules/ai_engine.py:8-29 | two insights that render as the same sentence are the same insight, unless both name a pair |
| AiEngine.SequentialColumns | modules/ai_engine.py:11-12 | exactly the numeric columns whose values never decrease, in column order |
| AiEngine.IdentifierFlags | modules/ai_engine.py:6-8 | the loop appends one identifier sentence per identifier-like column, in column order |
| AiEngine.SequentialFlags | modules/ai_engine.py:11-13 | the loop appends one sequential sentence per monotonic numeric column, in numeric-column order |
| AiEngine.MissingFlag | modules/ai_engine.py:16-19 | one sentence naming a column with the most missing values, only when some value is missing |
| AiEngine.CorrelationFlag | modules/ai_engine.py:22-26 | one sentence naming the strongest pair, only when there are at least two numeric columns |
| AiEngine.GenerateInsights | modules/ai_engine.py:1-31 | the list built step by step equals the function `Insights` |
| AiEngine.LoopFlagsSelect | modules/ai_engine.py:6-13 | appending inside a loop yields the sentences of the columns a comprehension would select |
| AiEngine.LayoutOrder | modules/ai_engine.py:5-29 | groups never go backwards along the list, and the missing and correlation groups add at most one sentence each |
| AiEngine.GroupOrder | modules/ai_engine.py:5-26 | sentences come in the order identifiers, sequential, missing, correlation; at most one missing and one correlation sentence |
| AiEngine.IdentifierSentence | modules/ai_engine.py:6-8 | a column gets an identifier sentence iff its distinct non-missing count equals the row count |
| AiEngine.MissingColumnNotIdentifier | modules/ai_engine.py:7 | a column with a missing value never gets an identifier sentence |
| AiEngine.SequentialSentence | modules/ai_engine.py:11-13 | a column gets a sequential sentence iff it is numeric and its values never decrease |
| AiEngine.FlagOrder | modules/ai_engine.py:6-13 | within the identifier group and within the sequential group, sentences follow column order |
| AiEngine.MissingSentence | modules/ai_engine.py:16-19 | a missing-values sentence appears iff some value is missing, and then exactly once |
| AiEngine.MissingSentenceNames | modules/ai_engine.py:18-19 | that sentence names a column whose missing count is maximal and non-zero |
| AiEngine.CorrelationSentence | modules/ai_engine.py:22-26 | a correlation sentence appears iff there are at least two numeric columns, identifiers included |
| AiEngine.CorrelationSentenceNames | modules/ai_engine.py:23-26 | that sentence names the two columns of a largest entry of the matrix with zeroed diagonal |
| AiEngine.Fallback | modules/ai_engine.py:28-29 | the list is never empty, and the clean sentence appears iff no other sentence was produced, then alone |
| AiEngine.Insights | modules/ai_engine.py:1-31 | the list is never empty and has at most #columns + #numeric columns + 2 sentences |
| AiEngine.NoRowsFlagsEveryColumn | modules/ai_engine.py:7-12 | with 0 rows every column gets an identifier sentence and every numeric column a sequential one |
| Storytelling.Tone | modules/storytelling.py:3-5 | the tone is "clean and well-structured" iff nothing is missing, "usable but requires preprocessing" otherwise |
| Storytelling.GenerateStory | modules/storytelling.py:1-14 | the stripped story is exactly the template paragraph, without its surrounding newline and indentation |
| Storytelling.StoryMentionsShape | modules/storytelling.py:2-8 | the story contains "{rows} rows and {cols} features" with both counts in decimal |
| Storytelling.StoryTone | modules/storytelling.py:3-9 | the story carries the tone, and it is the clean-tone paragraph iff nothing is missing |
| Storytelling.StoryTrimmed | modules/storytelling.py:14 | the story is non-empty and has no whitespace at either end |
| Storytelling.StoryDependsOnShapeAndMissing | modules/storytelling.py:2-14 | equal row counts, equal column counts and the same "any missing?" answer give identical stories |
| App.Route | app.py:271-324 | a branch other than the fallback is taken only when the lower-cased question contains one of its keywords |
| App.RouteFirstMatch | app.py:279-324 | a question goes to a branch iff that branch's keyword occurs (or it is the fallback) and no earlier branch's keyword does |
| App.RouteIgnoresCase | app.py:271 | a question and its lower-cased form are routed alike |
| App.RouteMissingExample | app.py:287 | "Missing data?" goes to the missing branch |
| App.RouteSummaryExample | app.py:279-287 | "missing summary" goes to the summary branch: the earlier branch wins |
| App.RouteIdExample | app.py:309 | "VALID" goes to the identifier branch: "id" is matched as a substring, in any case |
| App.UsefulNumeric | app.py:177 | `useful_numeric` is in column order and draws only on numeric columns |
| App.UsefulNumericExact | app.py:176-177 | with distinct names, `useful_numeric` is exactly the numeric columns that are not identifier-like |
| App.StrongestUseful | app.py:180-185 | a pair is reported iff there are at least two useful columns, and it is a largest entry of their zero-diagonal matrix |
| App.CorrTextPlaceholder | app.py:180-181 | `corr_text` is "Not enough numeric data" iff fewer than two useful columns remain |
| App.CorrText | app.py:180-186 | with at most one useful column `corr_text` is "Not enough numeric data"; otherwise it is "a ↔ b" for a largest off-diagonal pair a, b of useful columns |
| App.StrongestUsefulDistinct | app.py:182-186 | while two useful columns correlate, the strongest pattern names two different columns |
| App.StrongestPatternText | app.py:340-346 | the step-by-step computation yields `corr_text` |
| App.Answer | app.py:279-324 | missing reply is the success message iff nothing is missing; the correlation reply is the warning iff fewer than two useful columns; likewise for identifiers and averages |
| App.MissingCounts | app.py:292 | the missing-counts reply lists every column with its own missing count |
| App.AnswerCorrelation | app.py:295-303 | the correlation reply names a largest off-diagonal pair of useful columns |
| App.Appended | app.py:259-270 | the history keeps its old entries and grows by one ("user", text) entry exactly when a non-empty question is submitted |
| App.ReplayRecordsQuestions | app.py:259-270 | after any number of runs the history holds one user entry per submitted question, in order, and no replies |
| App.Session.Ask | app.py:259-276 | one run creates the history if absent, appends the question, and returns the reply without recording it |
| App.QualityPhrase | app.py:359 | the phrase is "clean" iff nothing is missing, "requires review" otherwise |
| App.ReportStory | app.py:357-359 | the report sentence contains `corr_text` |
| App.ReportStoryFacts | app.py:357-359 | the report reads "clean" iff nothing is missing |

## Left out

- Streamlit rendering: page layout, CSS, navigation, widgets, charts and tables. `App.Answer` returns which reply is shown, with its data, not its Markdown wording.
- CSV loading and dtype inference. Column kinds are inputs, and column names are assumed distinct, as the CSV loader makes them.
- Pearson correlation, means and `describe()` are floating-point numerics. Correlation is an input function; the averages reply names the columns it averages, not the means or their order.
- modules/ml_lab.py and the PDF export are not part of this model. They are a foreign library, random splitting and file I/O.
- Dataset.MostMissing: tie-breaking of pandas `sort_values` is not modelled. The model picks the first largest column and only maximality is claimed.
- Correlation.Strongest: tie-breaking of `sort_values().idxmax()` is not modelled. The model picks the first largest entry in `unstack()` order and only maximality is claimed.
- App.MissingCounts: the missing reply lists counts in column order; the descending sort for display is not modelled.
- Text.Lower: only ASCII letters are lower-cased, and Text.IsSpace covers only ASCII whitespace; Python's Unicode case and whitespace tables are not modelled.
- Cell values are modelled as integers. The rules only compare them for equality and order.

## Findings

| source | as written | input that shows it | evidently intended | confidence | as-written member | corrected member |
|---|---|---|---|---|---|---|
| modules/ai_engine.py:24 | `corr.values[[range(n)]*2] = 0` indexes the first axis with one integer array on numpy 1.23 and later, so every row, the whole matrix, becomes 0. Numpy before 1.23 read the list as a tuple of index arrays and zeroed only the diagonal | two numeric columns with coefficient 0.9: every entry ties at 0, so a column paired with itself can be reported | set only the diagonal to 0, as app.py:183-184 does, so that the reported pair is a most correlated pair of distinct columns | not executed | Correlation.ZeroRowsAsWritten, Correlation.AsWrittenAdmitsSelfPair | Correlation.ZeroDiagonal, Correlation.StrongestOffDiagonal |
