/**
 * The prompt builder of services/scoringPrompt.js. The prompt is one template
 * literal: fixed instructions, the transcript inserted verbatim between two
 * triple-quote delimiter lines, and a fixed tail. The transcript is neither
 * escaped nor altered.
 */
module ScoringPrompt {
  import opened Wrappers
  import Validator

  /** The template's instruction lines, one per source line, from the line
      after the opening backtick up to the opening delimiter. */
  const TemplateLines: seq<string> := [
      "  You are an expert evaluator of conversation quality.",
      "  ",
      "  Goal:",
      "  Score the conversation on three dimensions:",
      "  - empathy",
      "  - clarity",
      "  - product_knowledge",
      "  ",
      "  Scoring rules:",
      "  - Scores are integers from 0 to 10.",
      "  - 0 = terrible, 10 = excellent.",
      "  - Consider only the content in the transcript. ",
      "  - Be strict but fair.",
      "  ",
      "  Definitions:",
      "  - empathy: understanding and responding to the other person's feelings, concerns, and context.",
      "  - clarity: clear language, structured answers, no confusion or rambling.",
      "  - product_knowledge: understanding of the product or domain being discussed, correct facts.",
      "  ",
      "  VERY IMPORTANT FORMAT INSTRUCTIONS:",
      "  - You must output ONLY valid JSON.",
      "  - Do NOT include any explanations, notes, apologies, or reasoning.",
      "  - Do NOT include chain-of-thought, internal reasoning, or step-by-step analysis.",
      "  - The JSON must match this shape exactly:",
      "  ",
      "  {",
      Indent + Indent + "\"overallScore\"" + ": 0,",
      Indent + Indent + "\"scores\"" + ": {",
      Indent + Indent + Indent + "\"empathy\"" + ": 0,",
      Indent + Indent + Indent + "\"clarity\"" + ": 0,",
      Indent + Indent + Indent + "\"productKnowledge\"" + ": 0",
      "    },",
      Indent + Indent + "\"feedback\"" + ": {",
      Indent + Indent + Indent + "\"summary\"" + ": \"short single-paragraph summary\",",
      Indent + Indent + Indent + "\"strengths\"" + ": [\"bullet point 1\", \"bullet point 2\"],",
      Indent + Indent + Indent + "\"areasForImprovement\"" + ": [\"bullet point 1\", \"bullet point 2\"]",
      "    }",
      "  }",
      "  ",
      "  Transcript to evaluate:",
      "  \"\"\" "
  ]

  /** The template literal's two-space step of indentation. */
  const Indent: string := "  "

  /** Each line followed by a line feed. */
  function Lines(ls: seq<string>): string
  {
    if ls == [] then "" else ls[0] + "\n" + Lines(ls[1..])
  }

  /** Everything before the transcript: the line feed after the backtick, the
      instruction lines, and the indentation in front of the placeholder. */
  const Prefix: string := "\n" + Lines(TemplateLines) + "  "

  /** Everything after the transcript: the closing delimiter line and the
      indentation before the closing backtick. */
  const Suffix: string := "\n  \"\"\"\n  "

  /** `buildScoringPrompt`. */
  function BuildScoringPrompt(roleplayText: string): (p: string)
    ensures |p| == |Prefix| + |roleplayText| + |Suffix|
    ensures p[..|Prefix|] == Prefix
    ensures p[|Prefix|..|Prefix| + |roleplayText|] == roleplayText
    ensures p[|Prefix| + |roleplayText|..] == Suffix
  {
    Prefix + roleplayText + Suffix
  }

  /** Recovers the transcript from a prompt, if it has the template's shape. */
  function ExtractTranscript(p: string): (t: Option<string>)
    ensures t.Some? ==> |t.value| == |p| - |Prefix| - |Suffix|
  {
    if |p| >= |Prefix| + |Suffix| && p[..|Prefix|] == Prefix && p[|p| - |Suffix|..] == Suffix
    then Some(p[|Prefix|..|p| - |Suffix|])
    else None
  }

  predicate OccursAt(s: string, t: string, i: int) {
    0 <= i <= |s| - |t| && s[i..i + |t|] == t
  }

  /** `t` is a contiguous piece of `s`. */
  ghost predicate Contains(s: string, t: string) {
    exists i :: OccursAt(s, t, i)
  }

  // ---------------------------------------------------------------------------
  // Properties

  /** Splitting a string at two cut points and gluing the pieces back. */
  lemma Reassemble(p: string, i: nat, j: nat)
    requires i <= j <= |p|
    ensures p == p[..i] + p[i..j] + p[j..]
  {
  }

  /** The transcript can be read back out of the prompt. */
  lemma ExtractBuild(t: string)
    ensures ExtractTranscript(BuildScoringPrompt(t)) == Some(t)
  {
    var p := BuildScoringPrompt(t);
    assert p[|p| - |Suffix|..] == Suffix;
  }

  /** Every prompt-shaped string is the prompt of the transcript it carries. */
  lemma BuildExtract(p: string)
    requires ExtractTranscript(p).Some?
    ensures BuildScoringPrompt(ExtractTranscript(p).value) == p
  {
    Reassemble(p, |Prefix|, |p| - |Suffix|);
  }

  /** Different transcripts give different prompts. */
  lemma BuildInjective(a: string, b: string)
    requires BuildScoringPrompt(a) == BuildScoringPrompt(b)
    ensures a == b
  {
    ExtractBuild(a);
    ExtractBuild(b);
  }

  /** The transcript appears in the prompt verbatim, as one contiguous piece. */
  lemma PromptContainsTranscript(t: string)
    ensures Contains(BuildScoringPrompt(t), t)
  {
    assert OccursAt(BuildScoringPrompt(t), t, |Prefix|);
  }

  lemma ContainsTrans(a: string, b: string, c: string)
    requires Contains(a, b) && Contains(b, c)
    ensures Contains(a, c)
  {
    var i :| OccursAt(a, b, i);
    var j :| OccursAt(b, c, j);
    forall m | 0 <= m < |b| ensures a[i + m] == b[m] {
      assert a[i..i + |b|][m] == b[m];
    }
    assert a[i + j..i + j + |c|] == b[j..j + |c|];
    assert OccursAt(a, c, i + j);
  }

  lemma ContainsMiddle(u: string, t: string, v: string)
    ensures Contains(u + t + v, t)
  {
    assert OccursAt(u + t + v, t, |u|);
  }

  lemma {:induction false} LinesContain(ls: seq<string>, k: nat)
    requires k < |ls|
    ensures Contains(Lines(ls), ls[k])
  {
    var rest := Lines(ls[1..]);
    assert Lines(ls) == ls[0] + "\n" + rest;
    if k == 0 {
      assert OccursAt(Lines(ls), ls[0], 0);
    } else {
      LinesContain(ls[1..], k - 1);
      ContainsMiddle(ls[0] + "\n", rest, "");
      assert ls[0] + "\n" + rest + "" == ls[0] + "\n" + rest;
      ContainsTrans(Lines(ls), rest, ls[k]);
    }
  }

  function Quoted(key: string): string {
    "\"" + key + "\""
  }

  lemma KeyOnLine(line: nat, before: string, key: string, after: string)
    requires line < |TemplateLines|
    requires TemplateLines[line] == before + Quoted(key) + after
    ensures Contains(Prefix, Quoted(key))
  {
    ContainsMiddle(before, Quoted(key), after);
    LinesContain(TemplateLines, line);
    ContainsMiddle("\n", Lines(TemplateLines), "  ");
    ContainsTrans(Prefix, Lines(TemplateLines), TemplateLines[line]);
    ContainsTrans(Prefix, TemplateLines[line], Quoted(key));
  }

  /** The top-level keys of the example object. */
  lemma TopKeysNamed()
    ensures Contains(Prefix, Quoted(Validator.KeyOverall))
    ensures Contains(Prefix, Quoted(Validator.KeyScores))
    ensures Contains(Prefix, Quoted(Validator.KeyFeedback))
  {
    KeyOnLine(26, Indent + Indent, Validator.KeyOverall, ": 0,");
    KeyOnLine(27, Indent + Indent, Validator.KeyScores, ": {");
    KeyOnLine(32, Indent + Indent, Validator.KeyFeedback, ": {");
  }

  /** The keys inside `scores`. */
  lemma ScoreKeysNamed()
    ensures Contains(Prefix, Quoted(Validator.KeyEmpathy))
    ensures Contains(Prefix, Quoted(Validator.KeyClarity))
    ensures Contains(Prefix, Quoted(Validator.KeyProduct))
  {
    KeyOnLine(28, Indent + Indent + Indent, Validator.KeyEmpathy, ": 0,");
    KeyOnLine(29, Indent + Indent + Indent, Validator.KeyClarity, ": 0,");
    KeyOnLine(30, Indent + Indent + Indent, Validator.KeyProduct, ": 0");
  }

  /** The keys inside `feedback`. */
  lemma FeedbackKeysNamed()
    ensures Contains(Prefix, Quoted(Validator.KeySummary))
    ensures Contains(Prefix, Quoted(Validator.KeyStrengths))
    ensures Contains(Prefix, Quoted(Validator.KeyAreas))
  {
    KeyOnLine(33, Indent + Indent + Indent, Validator.KeySummary, ": \"short single-paragraph summary\",");
    KeyOnLine(34, Indent + Indent + Indent, Validator.KeyStrengths, ": [\"bullet point 1\", \"bullet point 2\"],");
    KeyOnLine(35, Indent + Indent + Indent, Validator.KeyAreas, ": [\"bullet point 1\", \"bullet point 2\"]");
  }

  /** The fixed text names each JSON key the validator checks: each of them
      appears, quoted, in the prompt's example object. */
  lemma PromptNamesSchemaKeys()
    ensures forall k :: k in Validator.SchemaKeys ==> Contains(Prefix, Quoted(k))
  {
    TopKeysNamed();
    ScoreKeysNamed();
    FeedbackKeysNamed();
  }
}
