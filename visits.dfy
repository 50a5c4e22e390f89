/** Visit data and what the highlighter makes of it: the summary `queryVisitData` builds from
    the browser's visit times, the recency category `determineHighlightClass` picks, and the
    tooltip and accessible label `updateLinkTitle` writes. Times are integer milliseconds; the
    clock reading (`Date.now()`) is a parameter. */
module Visits {
  import opened Seqs
  import opened Text

  /** Milliseconds in a day, `1000 * 60 * 60 * 24`. */
  const DayMs: int := 86400000

  /** `{totalVisits, lastVisit, firstVisit}`; `None` is the source's `null`. */
  datatype VisitData = VisitData(totalVisits: nat, lastVisit: Option<int>, firstVisit: Option<int>)

  /** `Math.max(...times)` of a non-empty list. */
  function MaxOf(times: seq<int>): (m: int)
    requires |times| > 0
    ensures m in times
    ensures forall i :: 0 <= i < |times| ==> times[i] <= m
    decreases |times|
  {
    if |times| == 1 then times[0]
    else
      var rest := MaxOf(times[1..]);
      if times[0] >= rest then times[0] else rest
  }

  /** `Math.min(...times)` of a non-empty list. */
  function MinOf(times: seq<int>): (m: int)
    requires |times| > 0
    ensures m in times
    ensures forall i :: 0 <= i < |times| ==> m <= times[i]
    decreases |times|
  {
    if |times| == 1 then times[0]
    else
      var rest := MinOf(times[1..]);
      if times[0] <= rest then times[0] else rest
  }

  /** The summary `queryVisitData` resolves with: the number of visits, the latest and the
      earliest visit time, both absent when there is no visit. */
  function FromVisitTimes(times: seq<int>): (v: VisitData)
    ensures v.totalVisits == |times|
    ensures v.lastVisit.None? <==> times == []
    ensures v.firstVisit.None? <==> times == []
    ensures v.lastVisit.Some? ==>
      (v.lastVisit.value in times && forall i :: 0 <= i < |times| ==> times[i] <= v.lastVisit.value)
    ensures v.firstVisit.Some? ==>
      (v.firstVisit.value in times && forall i :: 0 <= i < |times| ==> v.firstVisit.value <= times[i])
  {
    if times == [] then VisitData(0, None, None)
    else VisitData(|times|, Some(MaxOf(times)), Some(MinOf(times)))
  }

  /** A visit summary of at least one visit has its first visit no later than its last. */
  lemma FirstNotAfterLast(times: seq<int>)
    requires times != []
    ensures FromVisitTimes(times).firstVisit.value <= FromVisitTimes(times).lastVisit.value
  {
    var v := FromVisitTimes(times);
    var i :| 0 <= i < |times| && times[i] == v.lastVisit.value;
  }

  /** `!visitData.lastVisit` is false: a last visit is recorded and is not the time 0. */
  predicate Visited(v: VisitData) {
    v.lastVisit.Some? && v.lastVisit.value != 0
  }

  /** The five recency categories; each names a `link-highlighter-<suffix>` class. */
  datatype Category = Today | Week | Month | Older | Never {
    function Suffix(): string {
      match this
      case Today => "today"
      case Week => "week"
      case Month => "month"
      case Older => "older"
      case Never => "never"
    }
  }

  const ClassPrefix: string := "link-highlighter-"

  function ClassName(c: Category): string {
    ClassPrefix + c.Suffix()
  }

  /** `determineHighlightClass` on integer milliseconds: `days < k` is `now - last < k * DayMs`. */
  function DetermineHighlightClass(v: VisitData, now: int): (c: Category)
    ensures c == Never <==> !Visited(v)
  {
    if !Visited(v) then Never
    else
      var diff := now - v.lastVisit.value;
      if diff < DayMs then Today
      else if diff < 7 * DayMs then Week
      else if diff < 30 * DayMs then Month
      else Older
  }

  /** `(now - lastVisitTime) / (1000 * 60 * 60 * 24)` as an exact real number. */
  function DaysSince(now: int, last: int): real {
    (now - last) as real / DayMs as real
  }

  /** The source's comparison chain on the fractional day count. */
  function CategoryOfDays(days: real): Category {
    if days < 1.0 then Today
    else if days < 7.0 then Week
    else if days < 30.0 then Month
    else Older
  }

  /** The integer classifier agrees with the source's division-then-compare on every input. */
  lemma ClassifierMatchesDays(v: VisitData, now: int)
    ensures DetermineHighlightClass(v, now) ==
      if !Visited(v) then Never else CategoryOfDays(DaysSince(now, v.lastVisit.value))
  {
    if Visited(v) {
      var diff := now - v.lastVisit.value;
      DividedBelow(diff, 1);
      DividedBelow(diff, 7);
      DividedBelow(diff, 30);
    }
  }

  lemma DividedBelow(diff: int, k: int)
    ensures diff as real / DayMs as real < k as real <==> diff < k * DayMs
  {
    assert diff as real / DayMs as real * DayMs as real == diff as real;
  }

  /** Freshness order of the categories: `Today` is 0, `Older` is 3, `Never` is 4. */
  function Rank(c: Category): nat {
    match c
    case Today => 0
    case Week => 1
    case Month => 2
    case Older => 3
    case Never => 4
  }

  /** A visit that lies further back never gets a fresher category. */
  lemma ClassifierMonotone(v1: VisitData, v2: VisitData, now: int)
    requires Visited(v1) && Visited(v2)
    requires v1.lastVisit.value <= v2.lastVisit.value
    ensures Rank(DetermineHighlightClass(v1, now)) >= Rank(DetermineHighlightClass(v2, now))
  {
  }

  /** A last visit of 0 counts as never visited, even with a positive visit count. */
  lemma ZeroLastVisitIsNever(total: nat, first: Option<int>, now: int)
    ensures DetermineHighlightClass(VisitData(total, Some(0), first), now) == Never
  {
  }

  // ---------------------------------------------------------------------------------------
  // Tooltip and label text

  /** `Math.floor((Date.now() - lastVisit) / 86400000)`. */
  function DaysAgo(now: int, last: int): int {
    (now - last) / DayMs
  }

  /** `DaysAgo` is the floor of the real day count. */
  lemma DaysAgoIsFloor(now: int, last: int)
    ensures DaysAgo(now, last) as real <= DaysSince(now, last) < DaysAgo(now, last) as real + 1.0
  {
    var d := DaysAgo(now, last);
    var diff := now - last;
    assert d * DayMs <= diff < (d + 1) * DayMs;
    assert diff as real == (d * DayMs) as real + (diff - d * DayMs) as real;
  }

  /** The recency phrase for a whole number of days. */
  function RecencyText(daysAgo: int): string {
    if daysAgo == 0 then "Today"
    else if daysAgo == 1 then "Yesterday"
    else if daysAgo < 7 then IntToString(daysAgo) + " days ago"
    else if daysAgo < 30 then IntToString(daysAgo / 7) + " weeks ago"
    else IntToString(daysAgo / 30) + " months ago"
  }

  /** The text `updateLinkTitle` appends: `Never visited`, or the visit count and recency. */
  function HighlighterText(v: VisitData, now: int): (t: string)
    ensures t == "Never visited" <==> !Visited(v)
    ensures Visited(v) ==> |t| > 8 && t[..8] == "Visited "
  {
    if !Visited(v) then "Never visited"
    else
      "Visited " + IntToString(v.totalVisits) + " times, last: "
      + RecencyText(DaysAgo(now, v.lastVisit.value))
  }

  /** The new `title`: the stored original, a bar and the text, or the text alone when the
      stored original is absent or empty. */
  function TitleFor(originalTitle: Option<string>, text: string): (t: string)
    ensures originalTitle.GetOr("") == [] ==> t == text
    ensures originalTitle.GetOr("") != [] ==>
      |t| == |originalTitle.value| + 3 + |text| && t[..|originalTitle.value|] == originalTitle.value
      && t[|originalTitle.value|..] == " | " + text
    ensures |t| >= |text| && t[|t| - |text|..] == text
  {
    var original := originalTitle.GetOr("");
    if original != [] then original + " | " + text else text
  }

  /** The new `aria-label`: the link's text, a dash and the highlighter text. */
  function AriaLabelFor(textContent: string, text: string): (aria: string)
    ensures |aria| == |textContent| + 3 + |text|
    ensures aria[..|textContent|] == textContent
    ensures aria[|textContent|..] == " - " + text
  {
    textContent + " - " + text
  }

  /** For a visited link seen no later than now, the recency phrase names the same bucket
      as the category: `Today` for today, a day phrase for the week bucket, weeks for the
      month bucket, months for the rest. */
  lemma RecencyTextMatchesCategory(v: VisitData, now: int)
    requires Visited(v) && now >= v.lastVisit.value
    ensures var d := DaysAgo(now, v.lastVisit.value);
      && (DetermineHighlightClass(v, now) == Today <==> RecencyText(d) == "Today")
      && (DetermineHighlightClass(v, now) == Week <==>
            RecencyText(d) == "Yesterday" || RecencyText(d) == IntToString(d) + " days ago")
      && (DetermineHighlightClass(v, now) == Month <==> RecencyText(d) == IntToString(d / 7) + " weeks ago")
      && (DetermineHighlightClass(v, now) == Older <==> RecencyText(d) == IntToString(d / 30) + " months ago")
  {
    var d := DaysAgo(now, v.lastVisit.value);
    var n: nat := d;
    DaysAgoBuckets(now, v.lastVisit.value);
    PhrasesDiffer(n);
  }

  lemma DaysAgoBuckets(now: int, last: int)
    requires now >= last
    ensures DaysAgo(now, last) >= 0
    ensures DaysAgo(now, last) < 1 <==> now - last < DayMs
    ensures DaysAgo(now, last) < 7 <==> now - last < 7 * DayMs
    ensures DaysAgo(now, last) < 30 <==> now - last < 30 * DayMs
  {
  }

  /** The five phrase shapes are told apart by their last character and their first. */
  lemma PhrasesDiffer(d: nat)
    ensures RecencyText(d) == "Today" <==> d == 0
    ensures RecencyText(d) == "Yesterday" <==> d == 1
    ensures RecencyText(d) == IntToString(d) + " days ago" <==> 2 <= d < 7
    ensures RecencyText(d) == IntToString(d / 7) + " weeks ago" <==> 7 <= d < 30
    ensures RecencyText(d) == IntToString(d / 30) + " months ago" <==> 30 <= d
  {
    var days := IntToString(d) + " days ago";
    var weeks := IntToString(d / 7) + " weeks ago";
    var months := IntToString(d / 30) + " months ago";
    assert days[|days| - 6] == 'y' && weeks[|weeks| - 6] == 'k' && months[|months| - 6] == 'h';
    assert days[0] != 'T' && days[0] != 'Y';
    assert weeks[0] != 'T' && weeks[0] != 'Y';
    assert months[0] != 'T' && months[0] != 'Y';
  }

  /** A visit time ahead of the clock still counts as `Today`, but the phrase reads as a
      negative number of days. */
  lemma FutureVisitPhrase(v: VisitData, now: int)
    requires Visited(v) && now < v.lastVisit.value
    ensures DetermineHighlightClass(v, now) == Today
    ensures DaysAgo(now, v.lastVisit.value) < 0
    ensures RecencyText(DaysAgo(now, v.lastVisit.value)) ==
      "-" + NatToString(-DaysAgo(now, v.lastVisit.value)) + " days ago"
  {
  }

  /** The label the highlighter writes contains the case-sensitive word `Visited` exactly
      when the link was visited (for link text without that word): the `Never visited`
      label has a lower-case `v`. */
  lemma LabelMentionsVisited(textContent: string, v: VisitData, now: int)
    requires !Contains(textContent, "Visited")
    ensures Contains(AriaLabelFor(textContent, HighlighterText(v, now)), "Visited") <==> Visited(v)
  {
    if Visited(v) {
      var rest := IntToString(v.totalVisits) + " times, last: " + RecencyText(DaysAgo(now, v.lastVisit.value));
      assert HighlighterText(v, now) == "Visited " + rest;
      VisitedLabelHasWord(textContent, rest);
    } else {
      NeverVisitedLabelLacksWord(textContent);
    }
  }

  lemma VisitedLabelHasWord(textContent: string, rest: string)
    ensures OccursAt(AriaLabelFor(textContent, "Visited " + rest), "Visited", |textContent| + 3)
  {
    var shown := AriaLabelFor(textContent, "Visited " + rest);
    var n := |textContent|;
    assert shown[n..] == " - Visited " + rest;
    assert shown[n + 3..n + 10] == shown[n..][3..10];
  }

  lemma NeverVisitedLabelLacksWord(textContent: string)
    requires !Contains(textContent, "Visited")
    ensures !Contains(AriaLabelFor(textContent, "Never visited"), "Visited")
  {
    var shown := AriaLabelFor(textContent, "Never visited");
    var n := |textContent|;
    forall i | 0 <= i <= |shown|
      ensures !OccursAt(shown, "Visited", i)
    {
      if i + 7 <= n {
        assert shown[i..i + 7] == textContent[i..i + 7];
        assert !OccursAt(textContent, "Visited", i);
      } else if i < n {
        if i + 7 <= |shown| {
          assert shown[n] == ' ';
          assert shown[i..i + 7][n - i] == ' ';
          assert "Visited"[n - i] != ' ';
        }
      } else if i + 7 <= |shown| {
        var tail := " - Never visited";
        assert shown[n..] == tail;
        assert shown[i] == tail[i - n];
        assert 'V' !in tail;
        assert shown[i..i + 7][0] != 'V';
      }
    }
  }
}
