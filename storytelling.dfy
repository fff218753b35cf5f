/**
 * `generate_story`: the short narrative shown in the executive report. It
 * fills a fixed paragraph with the table's row and column counts and one of
 * two tone phrases, chosen by whether any value is missing, and strips the
 * whitespace around the paragraph.
 */
module Storytelling {
  import opened Text
  import opened Dataset

  const CleanTone := "clean and well-structured"
  const PreprocessingTone := "usable but requires preprocessing"

  /** The tone phrase: clean exactly when nothing is missing, and always one of
      the two phrases. */
  function Tone(missing: nat): (r: string)
    ensures r == CleanTone <==> missing == 0
    ensures r == PreprocessingTone <==> missing > 0
  {
    if missing == 0 then CleanTone else PreprocessingTone
  }

  // The fixed pieces of the template, in order.
  const Indent := "\n    "
  const Opening := "This dataset contains "
  const RowsAnd := " rows and "
  const Features := " features"
  const QualityLead := ". \n    Overall data quality appears "
  const Closing := ". The structure suggests suitability \n    for exploratory analysis and predictive modeling. Identified structural \n    patterns should be reviewed before production deployment."

  /** The paragraph between the whitespace that opens and closes the
      triple-quoted template. */
  function Paragraph(rows: nat, cols: nat, tone: string): string {
    Opening + Decimal(rows) + RowsAnd + Decimal(cols) + Features + QualityLead + tone + Closing
  }

  /** The template with its surrounding newline and indentation, before stripping. */
  function Template(rows: nat, cols: nat, tone: string): string {
    Indent + Paragraph(rows, cols, tone) + Indent
  }

  /** `generate_story(df)`: stripping removes exactly the template's outer
      whitespace and nothing of the paragraph. */
  function GenerateStory(t: Table): (r: string)
    ensures r == Paragraph(t.rows, |t.columns|, Tone(TotalMissing(t.columns)))
  {
    var p := Paragraph(t.rows, |t.columns|, Tone(TotalMissing(t.columns)));
    EndsWith(Opening + Decimal(t.rows) + RowsAnd + Decimal(|t.columns|) + Features + QualityLead
             + Tone(TotalMissing(t.columns)), Closing);
    StripSurrounded(Indent, p, Indent);
    Strip(Template(t.rows, |t.columns|, Tone(TotalMissing(t.columns))))
  }

  lemma EndsWith(a: string, b: string)
    requires b != []
    ensures (a + b)[|a + b| - 1] == b[|b| - 1]
  {
  }

  /** Regrouping the eight pieces of the paragraph. */
  lemma Regroup(a: string, b: string, c: string, d: string, e: string, f: string, g: string, h: string)
    ensures a + b + c + d + e + f + g + h == a + (b + c + d + e) + (f + g + h)
    ensures a + b + c + d + e + f + g + h == (a + b + c + d + e + f) + g + h
  {
  }

  // ---------------------------------------------------------------------------
  // What the story says
  // ---------------------------------------------------------------------------

  /** The story reports the row count and the column count in decimal:
      "{rows} rows and {cols} features". */
  lemma StoryMentionsShape(t: Table)
    ensures Contains(GenerateStory(t), Decimal(t.rows) + RowsAnd + Decimal(|t.columns|) + Features)
  {
    var rows, cols, tone := Decimal(t.rows), Decimal(|t.columns|), Tone(TotalMissing(t.columns));
    Regroup(Opening, rows, RowsAnd, cols, Features, QualityLead, tone, Closing);
    ContainsMiddle(Opening, rows + RowsAnd + cols + Features, QualityLead + tone + Closing);
  }

  /** The story carries the tone phrase, and it is the clean-tone paragraph
      exactly when no value is missing (the other one exactly when some is). */
  lemma StoryTone(t: Table)
    ensures Contains(GenerateStory(t), Tone(TotalMissing(t.columns)))
    ensures GenerateStory(t) == Paragraph(t.rows, |t.columns|, CleanTone) <==> TotalMissing(t.columns) == 0
    ensures GenerateStory(t) == Paragraph(t.rows, |t.columns|, PreprocessingTone) <==> TotalMissing(t.columns) > 0
  {
    var rows, cols, tone := Decimal(t.rows), Decimal(|t.columns|), Tone(TotalMissing(t.columns));
    var head := Opening + rows + RowsAnd + cols + Features + QualityLead;
    Regroup(Opening, rows, RowsAnd, cols, Features, QualityLead, tone, Closing);
    ContainsMiddle(head, tone, Closing);
    // The two tones differ in length, so the two paragraphs do too.
    ParagraphLength(t.rows, |t.columns|, CleanTone);
    ParagraphLength(t.rows, |t.columns|, PreprocessingTone);
  }

  lemma ParagraphLength(rows: nat, cols: nat, tone: string)
    ensures |Paragraph(rows, cols, tone)| ==
              |Opening + Decimal(rows) + RowsAnd + Decimal(cols) + Features + QualityLead| + |tone| + |Closing|
  {
  }

  /** The story has no whitespace at either end. */
  lemma StoryTrimmed(t: Table)
    ensures var s := GenerateStory(t); |s| > 0 && !IsSpace(s[0]) && !IsSpace(s[|s| - 1])
  {
  }

  /** The story depends on the table only through its shape and whether any
      value is missing. */
  lemma StoryDependsOnShapeAndMissing(t: Table, u: Table)
    requires t.rows == u.rows && |t.columns| == |u.columns|
    requires (TotalMissing(t.columns) == 0) == (TotalMissing(u.columns) == 0)
    ensures GenerateStory(t) == GenerateStory(u)
  {
  }
}
