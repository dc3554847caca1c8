/** The itinerary card (src/src/components/home/ItineraryAnalysis.tsx): one
    line per city with its stay shortened to the dates, and the six fixed
    optimisation tips.

    A stay is shortened by taking the first line of the city's duration
    text, removing with the pattern `.*Estadía\s*:\s*` (flag `i`) everything up to the last
    "Estadía" label of its line segment and the colon after it, removing a
    "**Estadía**:" marker with the pattern `\*\*Estadía\*\*:\s*` (flag `i`),
    and trimming. */
module ItineraryAnalysis {
  import opened Options
  import opened JsStrings
  import opened I18n
  import opened Trip

  // ---------------------------------------------------------------------
  // The pattern .*Estadía\s*:\s* with the i flag

  /** The word the label starts with. */
  const StayWord: string := "Estadía"

  /** The end of the run of characters other than line terminators from
      `i`: how far `.*` can reach. */
  function SegmentEnd(s: string, i: nat): (j: nat)
    requires i <= |s|
    ensures i <= j <= |s|
    ensures forall k :: i <= k < j ==> !IsLineTerminator(s[k])
    ensures j == |s| || IsLineTerminator(s[j])
    decreases |s| - i
  {
    if i == |s| || IsLineTerminator(s[i]) then i else SegmentEnd(s, i + 1)
  }

  /** `Estadía\s*:` matches at `p`, with or without letter case: the word,
      whitespace, then a colon. */
  predicate StayLabelAt(s: string, p: nat) {
    && LiteralAt(s, StayWord, true, p)
    && var q := WhitespaceRunEnd(s, p + |StayWord|);
    q < |s| && s[q] == ':'
  }

  /** Where the match of `Estadía\s*:\s*` at `p` ends: after the colon and
      the whitespace that follows it. */
  function StayLabelEnd(s: string, p: nat): (e: nat)
    requires StayLabelAt(s, p)
    ensures p < e <= |s|
  {
    WhitespaceRunEnd(s, WhitespaceRunEnd(s, p + |StayWord|) + 1)
  }

  /** The last `p` in `[i, j]` where the label matches: the greedy `.*`
      backs off from the far end until the rest of the pattern matches. */
  function LastStayLabel(s: string, i: nat, j: nat): (p: Option<nat>)
    requires i <= j
    ensures p.Some? ==> i <= p.value <= j && StayLabelAt(s, p.value)
    ensures p.Some? ==> forall k: nat :: p.value < k <= j ==> !StayLabelAt(s, k)
    ensures p.None? ==> forall k: nat :: i <= k <= j ==> !StayLabelAt(s, k)
    decreases j - i
  {
    if StayLabelAt(s, j) then Some(j)
    else if j == i then None
    else
      var p := LastStayLabel(s, i, j - 1);
      // The label does not match at j, in the form the postconditions use.
      assert forall k: nat :: k == j ==> !StayLabelAt(s, k);
      p
  }

  /** `s.replace` of the pattern `.*Estadía\s*:\s*` (flag `i`) by '', trying the start positions from
      `i` on: the first start from which the pattern matches wins, and the
      text from there to the end of the match is removed. */
  function StripStayPrefixFrom(s: string, i: nat): string
    requires i <= |s| + 1
    decreases |s| + 1 - i
  {
    if i > |s| then s
    else match LastStayLabel(s, i, SegmentEnd(s, i))
      case Some(p) => s[..i] + s[StayLabelEnd(s, p)..]
      case None => StripStayPrefixFrom(s, i + 1)
  }

  function StripStayPrefix(s: string): string {
    StripStayPrefixFrom(s, 0)
  }

  /** No line terminator in `s`. */
  predicate SingleSegment(s: string) {
    forall k :: 0 <= k < |s| ==> !IsLineTerminator(s[k])
  }

  /** On one line segment the pattern removes everything up to the end of
      the last label: the match starts at 0 and `.*` reaches that label. */
  lemma StripThroughLastLabel(s: string, p: nat)
    requires SingleSegment(s)
    requires p <= |s| && StayLabelAt(s, p)
    requires forall k :: p < k <= |s| ==> !StayLabelAt(s, k)
    ensures StripStayPrefix(s) == s[StayLabelEnd(s, p)..]
  {
    assert SegmentEnd(s, 0) == |s|;
    assert LastStayLabel(s, 0, |s|) == Some(p);
  }

  /** Without a label the pattern removes nothing. */
  lemma {:induction false} StripWithoutLabel(s: string, i: nat)
    requires i <= |s| + 1
    requires forall k :: i <= k <= |s| ==> !StayLabelAt(s, k)
    ensures StripStayPrefixFrom(s, i) == s
    decreases |s| + 1 - i
  {
    if i <= |s| {
      assert LastStayLabel(s, i, SegmentEnd(s, i)).None?;
      StripWithoutLabel(s, i + 1);
    }
  }

  // ---------------------------------------------------------------------
  // The shortened stay

  /** The marker the second pattern removes. */
  const BoldStayMarker: string := "**Estadía**:"

  /** The chain `split('\n')[0]`, both replacements and `trim()`. */
  function SimplifyDurationText(durationText: string): string {
    Trim(RemoveFirstMarker(StripStayPrefix(FirstLine(durationText)), BoldStayMarker, true))
  }

  /** The stay shown for a city: the shortened duration text, or the
      "not specified" text when the duration key is untranslated. */
  function SimplifiedDuration(tr: Translator, city: City): (stay: string)
    ensures city.id + "_dates_duration" !in tr.entries ==> stay == tr.T("duration_not_specified")
    ensures tr.T(city.id + "_dates_duration") != city.id + "_dates_duration" ==>
      stay == SimplifyDurationText(tr.T(city.id + "_dates_duration"))
  {
    var durationKey := city.id + "_dates_duration";
    var durationText := tr.T(durationKey);
    if durationText != durationKey then SimplifyDurationText(durationText)
    else tr.T("duration_not_specified")
  }

  /** A string without a line feed is its own first line. */
  lemma FirstLineOfLine(line: string)
    requires '\n' !in line
    ensures FirstLine(line) == line
  {
    SplitJoin([line], '\n');
    assert Join([line], '\n') == line;
  }

  /** Nothing after the first line feed plays a part in the stay. */
  lemma OnlyFirstLineMatters(line: string, rest: string)
    requires '\n' !in line
    ensures SimplifyDurationText(line + ['\n'] + rest) == SimplifyDurationText(line)
  {
    FirstLineOf(line, rest);
    FirstLineOfLine(line);
  }

  /** A first line with no label and no marker is only trimmed. */
  lemma PlainLineIsTrimmed(line: string)
    requires '\n' !in line
    requires forall k :: 0 <= k <= |line| ==> !StayLabelAt(line, k)
    requires forall k :: 0 <= k <= |line| ==> !LiteralAt(line, BoldStayMarker, true, k)
    ensures SimplifyDurationText(line) == Trim(line)
  {
    FirstLineOfLine(line);
    StripWithoutLabel(line, 0);
    NoMarkerFound(line, BoldStayMarker, 0);
  }

  /** Where no position matches, the search for a literal finds nothing. */
  lemma NoMarkerFound(s: string, marker: string, i: nat)
    requires i <= |s|
    requires forall k :: i <= k <= |s| ==> !LiteralAt(s, marker, true, k)
    ensures FindLiteral(s, marker, true, i) > |s|
  {
  }

  /** A line with a label and the dates after it. */
  function LabelledLine(pre: string, gap: string, dates: string): string {
    pre + StayWord + ":" + gap + dates
  }

  /** The label matches where it was put, and its match ends at the dates. */
  lemma LabelOfLabelledLine(pre: string, gap: string, dates: string)
    requires AllWhitespace(gap)
    requires dates != [] && !IsWhitespace(dates[0])
    ensures var s := LabelledLine(pre, gap, dates);
      StayLabelAt(s, |pre|) && StayLabelEnd(s, |pre|) == |pre| + 8 + |gap|
  {
    var s := LabelledLine(pre, gap, dates);
    var colon := |pre| + 7;
    assert s[|pre|..colon] == StayWord;
    assert s[colon] == ':';
    WhitespaceRunEndAt(s, colon, colon);
    assert s[colon + 1..colon + 1 + |gap|] == gap;
    assert s[colon + 1 + |gap|] == dates[0];
    WhitespaceRunEndAt(s, colon + 1, colon + 1 + |gap|);
  }

  /** With no colon in the dates, no label matches after the one put there. */
  lemma NoLaterLabel(pre: string, gap: string, dates: string)
    requires AllWhitespace(gap)
    requires ':' !in dates
    ensures var s := LabelledLine(pre, gap, dates);
      forall k :: |pre| < k <= |s| ==> !StayLabelAt(s, k)
  {
  }

  /** A line of segments without line terminators is one segment. */
  lemma LabelledLineSingleSegment(pre: string, gap: string, dates: string)
    requires SingleSegment(pre) && SingleSegment(gap) && SingleSegment(dates)
    ensures SingleSegment(LabelledLine(pre, gap, dates)) && '\n' !in LabelledLine(pre, gap, dates)
  {
    var s := LabelledLine(pre, gap, dates);
    var start := |pre| + 8 + |gap|;
    forall k | 0 <= k < |s| ensures !IsLineTerminator(s[k]) {
      if k < |pre| { assert s[k] == pre[k]; }
      else if k < |pre| + 8 { }
      else if k < start { assert s[k] == gap[k - |pre| - 8]; }
      else { assert s[k] == dates[k - start]; }
    }
    assert forall k :: 0 <= k < |s| ==> s[k] != '\n';
  }

  /** Wherever the "**Estadía**:" marker matches, the text holds its colon. */
  lemma BoldMarkerNeedsColon(s: string)
    ensures forall k :: 0 <= k <= |s| && LiteralAt(s, BoldStayMarker, true, k) ==> ':' in s
  {
    forall k | 0 <= k <= |s| && LiteralAt(s, BoldStayMarker, true, k) ensures ':' in s {
      var marker := BoldStayMarker;
      assert CaseCanon(s[k..k + |marker|][11]) == CaseCanon(marker[11]);
      assert s[k + 11] == ':';
      assert s[k + 11] in s;
    }
  }

  /** Text without a colon holds no "**Estadía**:" marker. */
  lemma NoBoldMarkerWithoutColon(dates: string)
    requires ':' !in dates
    ensures FindLiteral(dates, BoldStayMarker, true, 0) > |dates|
  {
    BoldMarkerNeedsColon(dates);
    NoMarkerFound(dates, BoldStayMarker, 0);
  }

  /** "Estadía:" and the dates: the label and everything before it go, the
      dates stay, when the line has no line terminator and the dates no
      colon. */
  lemma LabelledLineGivesDates(pre: string, gap: string, dates: string)
    requires SingleSegment(pre)
    requires AllWhitespace(gap) && SingleSegment(gap)
    requires SingleSegment(dates) && ':' !in dates
    requires dates != [] && !IsWhitespace(dates[0]) && !IsWhitespace(dates[|dates| - 1])
    ensures SimplifyDurationText(LabelledLine(pre, gap, dates)) == dates
  {
    var s := LabelledLine(pre, gap, dates);
    LabelledLineSingleSegment(pre, gap, dates);
    LabelOfLabelledLine(pre, gap, dates);
    NoLaterLabel(pre, gap, dates);
    StripThroughLastLabel(s, |pre|);
    assert s[|pre| + 8 + |gap|..] == dates;
    FirstLineOfLine(s);
    NoBoldMarkerWithoutColon(dates);
    TrimUnpadded(dates);
  }

  /** A line with the bold marker: `pre`, "**Estadía**:", whitespace, then the rest. */
  function BoldLine(pre: string, gap: string, rest: string): string {
    pre + BoldStayMarker + gap + rest
  }

  /** The second pattern on a line the first one leaves alone: the first
      "**Estadía**:" marker and the whitespace after it go, and whatever
      came before the marker stays (so a leading "- " stays too). */
  lemma BoldMarkerRemoved(pre: string, gap: string, rest: string)
    requires '\n' !in BoldLine(pre, gap, rest)
    requires forall k :: 0 <= k <= |BoldLine(pre, gap, rest)| ==> !StayLabelAt(BoldLine(pre, gap, rest), k)
    requires forall k :: 0 <= k < |pre| ==> !LiteralAt(BoldLine(pre, gap, rest), BoldStayMarker, true, k)
    requires AllWhitespace(gap) && (rest == [] || !IsWhitespace(rest[0]))
    ensures SimplifyDurationText(BoldLine(pre, gap, rest)) == Trim(pre + rest)
  {
    var s := BoldLine(pre, gap, rest);
    FirstLineOfLine(s);
    StripWithoutLabel(s, 0);
    BoldMarkerDropped(pre, gap, rest);
  }

  /** The marker found first is the one after `pre`; it goes with the gap. */
  lemma BoldMarkerDropped(pre: string, gap: string, rest: string)
    requires forall k :: 0 <= k < |pre| ==> !LiteralAt(BoldLine(pre, gap, rest), BoldStayMarker, true, k)
    requires AllWhitespace(gap) && (rest == [] || !IsWhitespace(rest[0]))
    ensures RemoveFirstMarker(BoldLine(pre, gap, rest), BoldStayMarker, true) == pre + rest
  {
    var s := BoldLine(pre, gap, rest);
    var m := |pre| + |BoldStayMarker|;
    var e := m + |gap|;
    FirstBoldMarker(pre, gap, rest);
    assert s[m..e] == gap;
    assert e == |s| || s[e] == rest[0];
    WhitespaceRunEndAt(s, m, e);
    assert s[..|pre|] == pre && s[e..] == rest;
  }

  /** The first marker in a bold line starts right after `pre`. */
  lemma FirstBoldMarker(pre: string, gap: string, rest: string)
    requires forall k :: 0 <= k < |pre| ==> !LiteralAt(BoldLine(pre, gap, rest), BoldStayMarker, true, k)
    ensures FindLiteral(BoldLine(pre, gap, rest), BoldStayMarker, true, 0) == |pre|
  {
    var s := BoldLine(pre, gap, rest);
    assert s[|pre|..|pre| + |BoldStayMarker|] == BoldStayMarker;
    assert LiteralAt(s, BoldStayMarker, true, |pre|);
  }

  // ---------------------------------------------------------------------
  // The card

  /** One line of the current plan: the city's name and its stay. */
  datatype PlanEntry = PlanEntry(cityName: string, stay: string)

  /** The current plan: one entry per city, in the order of the cities. */
  function CurrentPlan(tr: Translator, cities: seq<City>): (plan: seq<PlanEntry>)
    ensures |plan| == |cities|
    ensures forall k :: 0 <= k < |cities| ==>
      plan[k].cityName == tr.T(cities[k].nameKey) && plan[k].stay == SimplifiedDuration(tr, cities[k])
  {
    seq(|cities|, k requires 0 <= k < |cities| => PlanEntry(tr.T(cities[k].nameKey), SimplifiedDuration(tr, cities[k])))
  }

  /** A city whose translated duration is a line with the label and the
      dates is listed with just those dates. */
  lemma PlanShowsLabelledDates(tr: Translator, cities: seq<City>, k: nat, pre: string, gap: string, dates: string)
    requires k < |cities|
    requires tr.T(cities[k].id + "_dates_duration") == LabelledLine(pre, gap, dates)
    requires LabelledLine(pre, gap, dates) != cities[k].id + "_dates_duration"
    requires SingleSegment(pre)
    requires AllWhitespace(gap) && SingleSegment(gap)
    requires SingleSegment(dates) && ':' !in dates
    requires dates != [] && !IsWhitespace(dates[0]) && !IsWhitespace(dates[|dates| - 1])
    ensures CurrentPlan(tr, cities)[k].stay == dates
  {
    LabelledLineGivesDates(pre, gap, dates);
  }

  /** The key of tip `n`. */
  function TipKey(n: nat): string {
    "itinerary_optimization_tip_" + DecimalString(n)
  }

  /** The tips: always tips 1 to 6, in order. */
  function OptimizationTips(tr: Translator): (tips: seq<string>)
    ensures |tips| == 6
    ensures forall k :: 0 <= k < 6 ==> tips[k] == tr.T(TipKey(k + 1))
  {
    seq(6, k requires 0 <= k < 6 => tr.T(TipKey(k + 1)))
  }
}
