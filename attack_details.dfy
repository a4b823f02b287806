/** The analysis panel: the classifier that lays the analysis text out as headings, log
    lines and paragraphs, and the panel's four state variables driven by the selection and
    by the completions of the two remote requests, which arrive as explicit events. */
module AttackDetails {
  import opened Types
  import opened Text

  // ---------------------------------------------------------------------------------
  // The line classifier

  const KNOWN_HEADINGS: seq<string> := [
    "Threat Description:",
    "Potential Impact:",
    "Indicators of Compromise (IoCs):",
    "Recommended Mitigation Steps:",
    "Simulated Log Entry:"
  ]

  predicate EndsWithColon(h: string) {
    |h| > 0 && h[|h| - 1] == ':'
  }

  /** Five distinct headings, each ending in a colon and without whitespace at either
      end, so a line holding exactly one of them trims to it. */
  lemma KnownHeadingsTable()
    ensures |KNOWN_HEADINGS| == 5
    ensures forall i, j :: 0 <= i < j < |KNOWN_HEADINGS| ==> KNOWN_HEADINGS[i] != KNOWN_HEADINGS[j]
    ensures forall i :: 0 <= i < |KNOWN_HEADINGS| ==>
      Trim(KNOWN_HEADINGS[i]) == KNOWN_HEADINGS[i] && EndsWithColon(KNOWN_HEADINGS[i])
  {
    forall i, j | 0 <= i < j < |KNOWN_HEADINGS| ensures KNOWN_HEADINGS[i] != KNOWN_HEADINGS[j] {
      assert |KNOWN_HEADINGS[i]| != |KNOWN_HEADINGS[j]|;
    }
    forall i | 0 <= i < |KNOWN_HEADINGS|
      ensures Trim(KNOWN_HEADINGS[i]) == KNOWN_HEADINGS[i] && EndsWithColon(KNOWN_HEADINGS[i])
    {
      HeadingShape(i);
      TrimmedHeading(KNOWN_HEADINGS[i]);
    }
  }

  /** Each heading starts with a capital letter and ends with a colon. */
  lemma HeadingShape(i: nat)
    requires i < |KNOWN_HEADINGS|
    ensures var h := KNOWN_HEADINGS[i]; |h| > 0 && 'A' <= h[0] <= 'Z' && h[|h| - 1] == ':'
  {
  }

  /** A text that starts with a capital letter and ends with a colon is its own trim. */
  lemma TrimmedHeading(h: string)
    requires |h| > 0 && 'A' <= h[0] <= 'Z' && h[|h| - 1] == ':'
    ensures Trim(h) == h
  {
    TrimPadded("", h, "");
    assert "" + h + "" == h;
  }

  /** How one analysis line is shown: a heading (its trimmed text), a log entry or a
      paragraph (both with the line as it was). */
  datatype Line = Heading(text: string) | Log(text: string) | Paragraph(text: string)

  /** One position of the timestamp regular expression. */
  datatype CharClass = Lit(c: char) | Digit | AnyChar

  /** `\[\d{4}-\d{2}-\d{2}T\d{2}:\d{2}:\d{2}.\d{3}Z\]`, one entry per character matched. */
  const TIMESTAMP: seq<CharClass> := [
    Lit('['), Digit, Digit, Digit, Digit, Lit('-'), Digit, Digit, Lit('-'), Digit, Digit,
    Lit('T'), Digit, Digit, Lit(':'), Digit, Digit, Lit(':'), Digit, Digit,
    AnyChar, Digit, Digit, Digit, Lit('Z'), Lit(']')
  ]

  /** The pattern is twenty-six characters long, and its only wildcard is the `.` at
      position 20, between the seconds and the milliseconds. */
  lemma TimestampPatternTable()
    ensures |TIMESTAMP| == 26
    ensures forall k :: 0 <= k < |TIMESTAMP| ==> (TIMESTAMP[k] == AnyChar <==> k == 20)
  {
  }

  /** The characters a regular expression's `.` does not match. */
  predicate IsLineTerminator(x: char) {
    x == '\n' || x == '\r' || x == '\U{2028}' || x == '\U{2029}'
  }

  /** `\d` without the Unicode flag is the ASCII digits. Without that flag `.` matches
      one UTF-16 code unit that is not a line terminator, so a character outside the
      Basic Multilingual Plane, two code units long, is not matched by it. Every other
      position of the pattern is ASCII, so this is exact for the whole pattern. */
  predicate ClassMatches(k: CharClass, x: char) {
    match k
    case Lit(c) => x == c
    case Digit => '0' <= x <= '9'
    case AnyChar => !IsLineTerminator(x) && (x as int) < 0x1_0000
  }

  /** The timestamp pattern matches a prefix of `t`. */
  predicate MatchesPrefix(t: string) {
    |TIMESTAMP| <= |t| && forall k :: 0 <= k < |TIMESTAMP| ==> ClassMatches(TIMESTAMP[k], t[k])
  }

  /** The timestamp pattern matches `s` starting at position i. */
  predicate MatchesAt(s: string, i: nat) {
    i <= |s| && MatchesPrefix(s[i..])
  }

  /** `regex.test(s)`: some position of `s` starts a match. */
  predicate HasTimestamp(s: string)
    decreases |s|
  {
    MatchesAt(s, 0) || (|s| > 0 && HasTimestamp(s[1..]))
  }

  /** The search finds a match exactly when there is one. */
  lemma {:induction false} HasTimestampIff(s: string)
    ensures HasTimestamp(s) <==> exists i: nat :: i <= |s| && MatchesAt(s, i)
    decreases |s|
  {
    if |s| > 0 {
      HasTimestampIff(s[1..]);
      forall i: nat | i + 1 <= |s| ensures MatchesAt(s[1..], i) <==> MatchesAt(s, i + 1) {
        assert s[1..][i..] == s[i + 1..];
      }
      if !MatchesAt(s, 0) && exists i: nat :: i <= |s| && MatchesAt(s, i) {
        var i: nat :| i <= |s| && MatchesAt(s, i);
        assert i > 0 && MatchesAt(s[1..], i - 1);
      }
    }
  }

  /** A timestamp anywhere in a line is found. */
  lemma {:induction false} TimestampAnywhere(a: string, ts: string, b: string)
    requires MatchesAt(ts, 0)
    ensures HasTimestamp(a + ts + b)
  {
    if |a| > 0 {
      assert (a + ts + b)[1..] == a[1..] + ts + b;
      TimestampAnywhere(a[1..], ts, b);
    } else {
      var s := a + ts + b;
      assert s[0..] == ts + b;
      assert forall k :: 0 <= k < |ts| ==> (ts + b)[k] == ts[k];
    }
  }

  /** The log-entry heuristic. */
  predicate IsLogLine(line: string) {
    Contains(line, "ip=") || Contains(line, "status=") || HasTimestamp(line)
  }

  /** The classification of one non-blank line: the heading test on the trimmed text comes
      first, then the log heuristic on the untrimmed line, else a paragraph. */
  function ClassifyLine(line: string): (r: Line)
    ensures r.Heading? <==> Trim(line) in KNOWN_HEADINGS
    ensures r.Log? <==> Trim(line) !in KNOWN_HEADINGS && IsLogLine(line)
    ensures r.Heading? ==> r.text == Trim(line)
    ensures !r.Heading? ==> r.text == line
  {
    var trimmed := Trim(line);
    if trimmed in KNOWN_HEADINGS then Heading(trimmed)
    else if IsLogLine(line) then Log(line)
    else Paragraph(line)
  }

  /** A known heading surrounded by whitespace is shown as that heading. */
  lemma HeadingWithPadding(pre: string, h: string, post: string)
    requires AllWhitespace(pre) && AllWhitespace(post) && h in KNOWN_HEADINGS
    ensures ClassifyLine(pre + h + post) == Heading(h)
  {
    TrimPadded(pre, h, post);
  }

  /** A line that is not a heading and mentions `ip=` anywhere is a log line, whatever
      else it says. */
  lemma IpMentionIsLog(a: string, b: string)
    requires Trim(a + "ip=" + b) !in KNOWN_HEADINGS
    ensures ClassifyLine(a + "ip=" + b) == Log(a + "ip=" + b)
  {
    ContainsInfix(a, "ip=", b);
  }

  /** A line that is not a heading and holds a bracketed timestamp is a log line. */
  lemma TimestampIsLog(a: string, ts: string, b: string)
    requires MatchesAt(ts, 0) && Trim(a + ts + b) !in KNOWN_HEADINGS
    ensures ClassifyLine(a + ts + b) == Log(a + ts + b)
  {
    TimestampAnywhere(a, ts, b);
  }

  /** The pattern matches an ISO-8601 instant in brackets. */
  lemma TimestampIsoSample()
    ensures MatchesAt("[2024-05-01T10:20:30.123Z]", 0)
  {
    SampleMatches("[2024-05-01T10:20:30.123Z]");
  }

  /** The pattern's `.` is not escaped, so a comma before the milliseconds matches too. */
  lemma TimestampCommaSample()
    ensures MatchesAt("[2024-05-01T10:20:30,123Z]", 0)
  {
    SampleMatches("[2024-05-01T10:20:30,123Z]");
  }

  /** The unescaped `.` still rejects a line terminator before the milliseconds. */
  lemma TimestampLineBreakSample()
    ensures !MatchesAt("[2024-05-01T10:20:30\r123Z]", 0)
  {
    SampleRejected("[2024-05-01T10:20:30\r123Z]");
  }

  /** A character outside the Basic Multilingual Plane before the milliseconds is two
      code units, of which `.` takes only the first, so the line has no timestamp there. */
  lemma TimestampAstralSample()
    ensures !MatchesAt("[2024-05-01T10:20:30\U{1F600}123Z]", 0)
  {
    SampleRejected("[2024-05-01T10:20:30\U{1F600}123Z]");
  }

  lemma SampleMatches(t: string)
    requires MatchesPrefix(t)
    ensures MatchesAt(t, 0)
  {
    assert t[0..] == t;
  }

  lemma SampleRejected(t: string)
    requires |t| > 20 && (IsLineTerminator(t[20]) || (t[20] as int) >= 0x1_0000)
    ensures !MatchesAt(t, 0)
  {
    assert t[0..] == t;
    assert !ClassMatches(TIMESTAMP[20], t[20]);
  }

  /** `filter(line => line.trim() !== '')`: the lines that are not blank, in order. */
  function NonBlank(lines: seq<string>): (r: seq<string>)
    ensures |r| <= |lines|
    ensures forall l :: l in r <==> l in lines && !AllWhitespace(l)
  {
    if |lines| == 0 then []
    else
      var rest := NonBlank(lines[1..]);
      assert forall l :: l in lines <==> l == lines[0] || l in lines[1..];
      if Trim(lines[0]) != "" then [lines[0]] + rest else rest
  }

  /** Blank lines are dropped wherever they stand; the order of the others is kept. */
  lemma {:induction false} NonBlankConcat(u: seq<string>, v: seq<string>)
    ensures NonBlank(u + v) == NonBlank(u) + NonBlank(v)
  {
    if |u| == 0 {
      assert u + v == v;
    } else {
      assert (u + v)[1..] == u[1..] + v;
      NonBlankConcat(u[1..], v);
    }
  }

  /** The classification of each line, in order. */
  function ClassifyAll(lines: seq<string>): (r: seq<Line>)
    ensures |r| == |lines|
    ensures forall i :: 0 <= i < |lines| ==> r[i] == ClassifyLine(lines[i])
  {
    if |lines| == 0 then [] else [ClassifyLine(lines[0])] + ClassifyAll(lines[1..])
  }

  /** The article of the panel: split on newlines, drop blank lines, classify the rest.
      Nothing shown is blank. */
  function Classify(analysis: string): (r: seq<Line>)
    ensures forall i :: 0 <= i < |r| ==> |r[i].text| > 0 && !AllWhitespace(r[i].text)
  {
    var lines := NonBlank(Split(analysis, '\n'));
    var r := ClassifyAll(lines);
    forall i | 0 <= i < |r| ensures |r[i].text| > 0 && !AllWhitespace(r[i].text) {
      assert lines[i] in lines;
      ClassifyLineNotBlank(lines[i]);
    }
    r
  }

  /** A line that is not blank is not shown blank. */
  lemma ClassifyLineNotBlank(line: string)
    requires !AllWhitespace(line)
    ensures |ClassifyLine(line).text| > 0 && !AllWhitespace(ClassifyLine(line).text)
  {
    var t := Trim(line);
    assert t != "";
    assert !IsJsWhitespace(t[0]);
  }

  /** For text made of newline-free lines, the article shows each non-blank line once, in
      the order written, classified on its own. */
  lemma ClassifyLines(lines: seq<string>)
    requires |lines| >= 1
    requires forall i :: 0 <= i < |lines| ==> '\n' !in lines[i]
    ensures Classify(Join(lines, '\n')) == ClassifyAll(NonBlank(lines))
  {
    SplitJoin(lines, '\n');
  }

  // ---------------------------------------------------------------------------------
  // The panel's state machine

  /** How a remote request ends. */
  datatype Outcome = Resolved(text: string) | Rejected

  const ANALYSIS_FAILED: string := "Failed to load analysis."
  const SUMMARY_FAILED: string := "Failed to generate summary."

  /** The summary button: absent, or present with its disabled flag and its caption. */
  datatype Button = Hidden | Shown(disabled: bool, caption: string)

  /** What the panel renders. */
  datatype View =
    | Placeholder
    | Details(attack: Attack, button: Button, summaryBox: Option<string>, skeleton: bool,
              article: seq<Line>)

  class AttackDetailsPanel {
    /** The `attack` property the selection effect last ran with. */
    var attack: Option<Attack>
    var analysis: string
    var loading: bool
    var summary: string
    var summaryLoading: bool
    /** The selections whose analysis request is still outstanding, oldest first. */
    var analysisRequests: seq<Attack>
    /** The analysis texts whose summary request is still outstanding, oldest first. */
    var summaryRequests: seq<string>

    constructor ()
      ensures attack == None && analysis == "" && !loading && summary == "" && !summaryLoading
      ensures analysisRequests == [] && summaryRequests == []
    {
      attack := None;
      analysis, loading, summary, summaryLoading := "", false, "", false;
      analysisRequests, summaryRequests := [], [];
    }

    /** A new `attack` property. The effect runs when the property changes; for a
        selection it starts loading, clears the analysis and the summary and issues the
        request; for no selection it changes nothing. */
    method SetAttack(a: Option<Attack>)
      modifies this
      ensures attack == a
      ensures a.Some? && a != old(attack) ==>
        loading && analysis == "" && summary == "" && summaryLoading == old(summaryLoading)
        && analysisRequests == old(analysisRequests) + [a.value]
      ensures a.None? || a == old(attack) ==>
        analysis == old(analysis) && loading == old(loading) && summary == old(summary)
        && summaryLoading == old(summaryLoading) && analysisRequests == old(analysisRequests)
      ensures summaryRequests == old(summaryRequests)
    {
      if a != attack {
        attack := a;
        if a.Some? {
          loading := true;
          analysis := "";
          summary := "";
          analysisRequests := analysisRequests + [a.value];
        }
      }
    }

    /** The k-th outstanding analysis request completes. Nothing checks that it belongs
        to the current selection: its text, or the failure message, replaces the analysis
        and loading ends. */
    method CompleteAnalysis(k: nat, outcome: Outcome)
      requires k < |analysisRequests|
      modifies this
      ensures analysis == (if outcome.Resolved? then outcome.text else ANALYSIS_FAILED)
      ensures !loading
      ensures analysisRequests == old(analysisRequests[..k] + analysisRequests[k + 1..])
      ensures attack == old(attack) && summary == old(summary)
      ensures summaryLoading == old(summaryLoading) && summaryRequests == old(summaryRequests)
    {
      match outcome {
        case Resolved(text) => analysis := text;
        case Rejected => analysis := ANALYSIS_FAILED;
      }
      loading := false;
      analysisRequests := analysisRequests[..k] + analysisRequests[k + 1..];
    }

    /** `handleSummarize`: nothing without an analysis; otherwise the summary is cleared,
        the summary spinner starts and the request is issued for the current analysis. */
    method Summarize()
      modifies this
      ensures old(analysis) == "" ==>
        summary == old(summary) && summaryLoading == old(summaryLoading)
        && summaryRequests == old(summaryRequests)
      ensures old(analysis) != "" ==>
        summaryLoading && summary == "" && summaryRequests == old(summaryRequests) + [old(analysis)]
      ensures attack == old(attack) && analysis == old(analysis) && loading == old(loading)
      ensures analysisRequests == old(analysisRequests)
    {
      if analysis == "" {
        return;
      }
      summaryLoading := true;
      summary := "";
      summaryRequests := summaryRequests + [analysis];
    }

    /** The k-th outstanding summary request completes: its text, or the failure
        message, becomes the summary, and the spinner stops. */
    method CompleteSummary(k: nat, outcome: Outcome)
      requires k < |summaryRequests|
      modifies this
      ensures summary == (if outcome.Resolved? then outcome.text else SUMMARY_FAILED)
      ensures !summaryLoading
      ensures summaryRequests == old(summaryRequests[..k] + summaryRequests[k + 1..])
      ensures attack == old(attack) && analysis == old(analysis) && loading == old(loading)
      ensures analysisRequests == old(analysisRequests)
    {
      match outcome {
        case Resolved(text) => summary := text;
        case Rejected => summary := SUMMARY_FAILED;
      }
      summaryLoading := false;
      summaryRequests := summaryRequests[..k] + summaryRequests[k + 1..];
    }

    /** The summary button is there only with an analysis that is not loading, and it is
        disabled, with the busy caption, while a summary is on its way. */
    function SummaryButton(): (b: Button)
      reads this
      ensures b.Shown? <==> analysis != "" && !loading
      ensures b.Shown? ==> (b.disabled <==> summaryLoading)
      ensures b.Shown? ==> b.caption == if summaryLoading then "Summarizing..." else "Quick Summary"
    {
      if analysis != "" && !loading then
        Shown(summaryLoading, if summaryLoading then "Summarizing..." else "Quick Summary")
      else Hidden
    }

    /** The render: the placeholder without a selection; otherwise the summary box when
        there is a summary, the skeleton while loading, and the classified article. */
    function Render(): (v: View)
      reads this
      ensures v.Placeholder? <==> attack.None?
      ensures v.Details? ==> v.attack == attack.value && v.button == SummaryButton()
      ensures v.Details? ==> (v.summaryBox.Some? <==> summary != "")
      ensures v.Details? && v.summaryBox.Some? ==> v.summaryBox.value == summary
      ensures v.Details? ==> (v.skeleton <==> loading)
      ensures v.Details? ==> v.article == Classify(analysis)
    {
      match attack
      case None => Placeholder
      case Some(a) =>
        Details(a, SummaryButton(), if summary != "" then Some(summary) else None, loading,
          Classify(analysis))
    }
  }

  /** An empty analysis shows no article lines. */
  lemma EmptyAnalysisHasNoArticle()
    ensures Classify("") == []
  {
    assert Split("", '\n') == [""];
    assert Trim("") == "";
  }

  /** A line shorter than the pattern holds no timestamp. */
  lemma ShortLineHasNoTimestamp(s: string)
    requires |s| < |TIMESTAMP|
    ensures !HasTimestamp(s)
  {
    HasTimestampIff(s);
  }

  /** A text of one newline-free, non-blank line that is neither a heading nor a log
      line is shown as that one paragraph. */
  lemma SingleParagraph(m: string)
    requires '\n' !in m && !AllWhitespace(m)
    requires Trim(m) !in KNOWN_HEADINGS && !IsLogLine(m)
    ensures Classify(m) == [Paragraph(m)]
  {
    ClassifyLines([m]);
    assert Join([m], '\n') == m;
    assert NonBlank([m]) == [m];
  }

  /** The failure message holds neither `=` nor a line break. */
  lemma FailureMessageChars()
    ensures '\n' !in ANALYSIS_FAILED && '=' !in ANALYSIS_FAILED
  {
    FailureMessagePieces();
    assert '\n' !in "Failed" && '\n' !in " to " && '\n' !in "load " && '\n' !in "analysis.";
    assert '=' !in "Failed" && '=' !in " to " && '=' !in "load " && '=' !in "analysis.";
  }

  /** The failure message is its own trim and is not blank. */
  lemma FailureMessageTrims()
    ensures Trim(ANALYSIS_FAILED) == ANALYSIS_FAILED && !AllWhitespace(ANALYSIS_FAILED)
  {
    var m := ANALYSIS_FAILED;
    assert !IsJsWhitespace(m[0]) && !IsJsWhitespace(m[|m| - 1]);
    TrimPadded("", m, "");
    assert "" + m + "" == m;
  }

  /** The failure message in short pieces, each cheap to inspect. */
  lemma FailureMessagePieces()
    ensures ANALYSIS_FAILED == "Failed" + " to " + "load " + "analysis."
  {
  }

  /** The failure message is no heading. */
  lemma FailureMessageNoHeading()
    ensures ANALYSIS_FAILED !in KNOWN_HEADINGS
  {
    forall i | 0 <= i < |KNOWN_HEADINGS| ensures KNOWN_HEADINGS[i] != ANALYSIS_FAILED {
      assert |KNOWN_HEADINGS[i]| != |ANALYSIS_FAILED|;
    }
  }

  /** The failure message is shown as one paragraph: it is no heading and mentions
      neither `ip=`, `status=` nor a timestamp. */
  lemma FailureMessageIsParagraph()
    ensures Classify(ANALYSIS_FAILED) == [Paragraph(ANALYSIS_FAILED)]
  {
    var m := ANALYSIS_FAILED;
    FailureMessageChars();
    FailureMessageTrims();
    FailureMessageNoHeading();
    assert !Contains(m, "ip=") by {
      if Contains(m, "ip=") { ContainsLast(m, "ip="); }
    }
    assert !Contains(m, "status=") by {
      if Contains(m, "status=") { ContainsLast(m, "status="); }
    }
    ShortLineHasNoTimestamp(m);
    SingleParagraph(m);
  }

  /** Right after a new selection the panel shows the skeleton and nothing else: no
      summary button, no summary box and an empty article. */
  method SelectShowsSkeleton(p: AttackDetailsPanel, a: Attack)
    requires p.attack != Some(a)
    modifies p
    ensures p.Render() == Details(a, Hidden, None, true, [])
  {
    p.SetAttack(Some(a));
    EmptyAnalysisHasNoArticle();
  }

  /** A rejected analysis request leaves the failure message as the article's one
      paragraph, ends the skeleton and offers the summary button. */
  method FailedAnalysisShown(p: AttackDetailsPanel, k: nat)
    requires p.attack.Some? && k < |p.analysisRequests|
    modifies p
    ensures p.Render().Details? && !p.Render().skeleton
    ensures p.Render().article == [Paragraph(ANALYSIS_FAILED)]
    ensures p.Render().button.Shown?
  {
    p.CompleteAnalysis(k, Rejected);
    FailureMessageIsParagraph();
  }

  /** Without a staleness guard, the answer to an earlier selection lands after a later
      selection was made: the panel shows that earlier answer for the later attack and
      stops loading while the later request is still outstanding. */
  method StaleCompletion(a: Attack, b: Attack, text: string) returns (p: AttackDetailsPanel)
    requires a != b
    ensures p.attack == Some(b)
    ensures p.analysis == text && !p.loading
    ensures p.analysisRequests == [b]
  {
    p := new AttackDetailsPanel();
    p.SetAttack(Some(a));
    p.SetAttack(Some(b));
    assert p.analysisRequests == [a, b];
    p.CompleteAnalysis(0, Resolved(text));
  }

  /** Deselecting does not touch the four state variables, and the panel shows the
      placeholder. */
  method Deselect(p: AttackDetailsPanel)
    modifies p
    ensures p.analysis == old(p.analysis) && p.loading == old(p.loading)
    ensures p.summary == old(p.summary) && p.summaryLoading == old(p.summaryLoading)
    ensures p.Render() == Placeholder
  {
    p.SetAttack(None);
  }
}
