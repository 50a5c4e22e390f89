/** The batch scheduler of the content script: the page-size table `adjustPerformanceSettings`
    applies, the back-off `calculateNextDelay` computes, the selection `highlightExistingLinks`
    makes, and the chain `processLinksAdaptively` runs over consecutive slices of the selected
    links. The chain is a series of timer callbacks; here it is a loop over `Tick`s, one per
    callback, each carrying what the callback reads from the highlighter when it runs. */
module Scheduler {
  import opened Seqs

  /** `maxLinksPerBatch` and `processingDelay` as `adjustPerformanceSettings` sets them. */
  datatype Settings = Settings(maxLinksPerBatch: int, processingDelay: int)

  /** `adjustPerformanceSettings(linkCount)`. */
  function AdjustPerformanceSettings(linkCount: int): (s: Settings)
    ensures linkCount > 500 ==> s == Settings(Max(1, linkCount / 250), 200)
    ensures 200 < linkCount <= 500 ==> s == Settings(2, 150)
    ensures 100 < linkCount <= 200 ==> s == Settings(3, 100)
    ensures linkCount <= 100 ==> s == Settings(5, 50)
  {
    if linkCount > 500 then Settings(Max(1, linkCount / 250), 200)
    else if linkCount > 200 then Settings(2, 150)
    else if linkCount > 100 then Settings(3, 100)
    else Settings(5, 50)
  }

  function Max(a: int, b: int): int { if a >= b then a else b }
  function Min(a: int, b: int): int { if a <= b then a else b }

  /** The table always yields a positive batch size, and a delay that grows with the page. */
  lemma AdjustedSettingsBounds(n1: int, n2: int)
    requires n1 <= n2
    ensures AdjustPerformanceSettings(n1).maxLinksPerBatch >= 1
    ensures AdjustPerformanceSettings(n1).processingDelay <= AdjustPerformanceSettings(n2).processingDelay
    ensures 50 <= AdjustPerformanceSettings(n1).processingDelay <= 200
  {
  }

  /** Above 500 links the batch is `⌊n/250⌋`, at least 2, and it grows with the page: large
      pages get larger batches than pages of 201 to 500 links, not smaller ones. */
  lemma LargePageBatches(n1: int, n2: int)
    requires 500 < n1 <= n2
    ensures AdjustPerformanceSettings(n1).maxLinksPerBatch == n1 / 250 >= 2
    ensures AdjustPerformanceSettings(n1).maxLinksPerBatch <= AdjustPerformanceSettings(n2).maxLinksPerBatch
    ensures n1 >= 750 ==> AdjustPerformanceSettings(n1).maxLinksPerBatch > AdjustPerformanceSettings(300).maxLinksPerBatch
  {
  }

  /** `calculateNextDelay(processTime)`: a batch slower than 32 ms triples the current
      delay, capped at one second. */
  function CalculateNextDelay(processTime: real, processingDelay: int): (d: int)
    ensures processTime > 32.0 && 3 * processingDelay <= 1000 ==> d == 3 * processingDelay
    ensures processTime > 32.0 && 3 * processingDelay > 1000 ==> d == 1000
    ensures processTime <= 32.0 ==> d == processingDelay
  {
    if processTime > 32.0 then Min(processingDelay * 3, 1000) else processingDelay
  }

  /** The back-off never exceeds one second or the delay it starts from, whichever is larger,
      and with a delay of at most 1000 ms it never shortens it. */
  lemma NextDelayBounds(processTime: real, processingDelay: int)
    requires processingDelay >= 0
    ensures CalculateNextDelay(processTime, processingDelay) <= Max(processingDelay, 1000)
    ensures processingDelay <= 1000 ==> CalculateNextDelay(processTime, processingDelay) >= processingDelay
  {
  }

  // ---------------------------------------------------------------------------------------
  // Selection of links

  /** The end index `Array.prototype.slice(0, end)` uses on an array of `len` elements. */
  function SliceEnd(len: nat, end: int): (k: nat)
    ensures k <= len
    ensures 0 <= end ==> k == Min(end, len)
    ensures end < 0 ==> k == Max(len + end, 0)
  {
    if end < 0 then (if len + end < 0 then 0 else len + end)
    else if end > len then len else end
  }

  /** `links.filter(keep).slice(0, maxLinksPerPage)`. */
  function SelectLinks<T(==)>(links: seq<T>, keep: T -> bool, maxLinksPerPage: int): (r: seq<T>)
    ensures r <= Filter(links, keep)
    ensures 0 <= maxLinksPerPage ==> |r| == Min(|Filter(links, keep)|, maxLinksPerPage)
    ensures maxLinksPerPage < 0 ==> |r| == Max(|Filter(links, keep)| + maxLinksPerPage, 0)
  {
    var kept := Filter(links, keep);
    kept[..SliceEnd(|kept|, maxLinksPerPage)]
  }

  /** The selection is the first kept links in page order, at most `maxLinksPerPage` of them;
      all of them when they are no more than that. */
  lemma SelectionBounds<T>(links: seq<T>, keep: T -> bool, maxLinksPerPage: int)
    requires maxLinksPerPage >= 0
    ensures var r := SelectLinks(links, keep, maxLinksPerPage);
      && r <= Filter(links, keep)
      && |r| <= maxLinksPerPage
      && (forall i :: 0 <= i < |r| ==> r[i] in links && keep(r[i]))
      && (|Filter(links, keep)| <= maxLinksPerPage ==> r == Filter(links, keep))
  {
    var kept := Filter(links, keep);
    var r := SelectLinks(links, keep, maxLinksPerPage);
    forall i | 0 <= i < |r|
      ensures r[i] in links && keep(r[i])
    {
      assert r[i] == kept[i];
    }
  }

  // ---------------------------------------------------------------------------------------
  // The adaptive chain

  type Positive = x: int | x >= 1 witness 1

  /** What one callback of the chain reads: `enabled` on entry, `maxLinksPerBatch` when it
      slices the batch and again when it computes the next index after the batch settles, the
      measured batch time and `processingDelay` for the next delay. */
  datatype Tick = Tick(
    enabled: bool,
    batchAtSlice: Positive,
    batchAtAdvance: Positive,
    processTime: real,
    processingDelay: int)

  /** One batch: the slice `[start, end)` of the selected links, and the delay before the next
      callback when one is scheduled. */
  datatype Step = Step(start: nat, end: nat, nextDelay: Option<int>)

  /** The batches the chain processes from `start` when its callbacks read `ticks`. */
  function Run(n: nat, start: nat, ticks: seq<Tick>): seq<Step>
    decreases |ticks|
  {
    if ticks == [] || start >= n || !ticks[0].enabled then []
    else
      var t := ticks[0];
      var end := Min(start + t.batchAtSlice, n);
      var next := start + t.batchAtAdvance;
      if next < n then
        [Step(start, end, Some(CalculateNextDelay(t.processTime, t.processingDelay)))] + Run(n, next, ticks[1..])
      else
        [Step(start, end, None)]
  }

  /** The run from the `k`-th callback, one batch unfolded. */
  lemma RunFrom(n: nat, start: nat, ticks: seq<Tick>, k: nat)
    requires k < |ticks| && start < n && ticks[k].enabled
    ensures var t := ticks[k];
      var end := Min(start + t.batchAtSlice, n);
      var next := start + t.batchAtAdvance;
      Run(n, start, ticks[k..]) ==
        if next < n then [Step(start, end, Some(CalculateNextDelay(t.processTime, t.processingDelay)))] + Run(n, next, ticks[k + 1..])
        else [Step(start, end, None)]
  {
    assert ticks[k..][0] == ticks[k];
    assert ticks[k..][1..] == ticks[k + 1..];
  }

  /** `processLinksAdaptively(links, 0)` over `n` selected links, one loop turn per callback. */
  method ProcessLinksAdaptively(n: nat, ticks: seq<Tick>) returns (steps: seq<Step>)
    ensures steps == Run(n, 0, ticks)
  {
    steps := [];
    var index: nat := 0;
    var k := 0;
    var done := false;
    while !done
      invariant 0 <= k <= |ticks|
      invariant !done ==> steps + Run(n, index, ticks[k..]) == Run(n, 0, ticks)
      invariant done ==> steps == Run(n, 0, ticks)
      decreases |ticks| - k + (if done then 0 else 1)
    {
      if k == |ticks| || index >= n || !ticks[k].enabled {
        assert Run(n, index, ticks[k..]) == [];
        assert steps + [] == steps;
        done := true;
      } else {
        var t := ticks[k];
        var end := Min(index + t.batchAtSlice, n);
        var next := index + t.batchAtAdvance;
        RunFrom(n, index, ticks, k);
        if next < n {
          var step := Step(index, end, Some(CalculateNextDelay(t.processTime, t.processingDelay)));
          assert steps + [step] + Run(n, next, ticks[k + 1..]) == steps + ([step] + Run(n, next, ticks[k + 1..]));
          steps := steps + [step];
          index := next;
          k := k + 1;
        } else {
          steps := steps + [Step(index, end, None)];
          done := true;
        }
      }
    }
  }

  /** Every batch is a non-empty slice inside the list, each starts where the previous one's
      start plus the re-read batch size points, at most one batch runs per callback, and only
      the last batch schedules no successor. Each delay comes from its own callback's
      readings alone: the back-off does not compound. */
  lemma RunShape(n: nat, start: nat, ticks: seq<Tick>)
    ensures var rs := Run(n, start, ticks);
      && |rs| <= |ticks|
      && (|rs| > 0 ==> rs[0].start == start)
      && (forall i :: 0 <= i < |rs| ==> rs[i].start < rs[i].end <= n)
      && (forall i :: 0 <= i < |rs| ==> rs[i].end == Min(rs[i].start + ticks[i].batchAtSlice, n))
      && (forall i :: 0 <= i < |rs| - 1 ==> rs[i + 1].start == rs[i].start + ticks[i].batchAtAdvance)
      && (forall i :: 0 <= i < |rs| - 1 ==>
            rs[i].nextDelay == Some(CalculateNextDelay(ticks[i].processTime, ticks[i].processingDelay)))
  {
    RunSlices(n, start, ticks);
    RunEnds(n, start, ticks);
    RunChain(n, start, ticks);
  }

  /** Each batch is a non-empty slice inside the list, the first one at `start`. */
  lemma {:induction false} RunSlices(n: nat, start: nat, ticks: seq<Tick>)
    ensures var rs := Run(n, start, ticks);
      && |rs| <= |ticks|
      && (|rs| > 0 ==> rs[0].start == start)
      && (forall i :: 0 <= i < |rs| ==> rs[i].start < rs[i].end <= n)
    decreases |ticks|
  {
    if ticks != [] && start < n && ticks[0].enabled {
      var t := ticks[0];
      var next := start + t.batchAtAdvance;
      var rs := Run(n, start, ticks);
      assert rs[0].start == start && rs[0].end == Min(start + t.batchAtSlice, n);
      if next < n {
        var rest := Run(n, next, ticks[1..]);
        RunSlices(n, next, ticks[1..]);
        assert rs == [rs[0]] + rest;
        assert forall i :: 1 <= i < |rs| ==> rs[i] == rest[i - 1];
      }
    }
  }

  /** Each batch ends where its own callback's batch size, read when slicing, says. */
  lemma {:induction false} RunEnds(n: nat, start: nat, ticks: seq<Tick>)
    ensures var rs := Run(n, start, ticks);
      && |rs| <= |ticks|
      && (forall i :: 0 <= i < |rs| ==> rs[i].end == Min(rs[i].start + ticks[i].batchAtSlice, n))
    decreases |ticks|
  {
    if ticks != [] && start < n && ticks[0].enabled {
      var t := ticks[0];
      var next := start + t.batchAtAdvance;
      var rs := Run(n, start, ticks);
      assert rs[0].start == start && rs[0].end == Min(start + t.batchAtSlice, n);
      if next < n {
        var tail := ticks[1..];
        var rest := Run(n, next, tail);
        RunEnds(n, next, tail);
        assert rs == [rs[0]] + rest;
        forall i | 1 <= i < |rs|
          ensures rs[i].end == Min(rs[i].start + ticks[i].batchAtSlice, n)
        {
          assert rs[i] == rest[i - 1] && ticks[i] == tail[i - 1];
        }
      }
    }
  }

  /** Each batch starts at the previous start plus the size re-read after it, and every batch
      but the last schedules its successor with its own callback's delay. */
  lemma {:induction false} RunChain(n: nat, start: nat, ticks: seq<Tick>)
    ensures var rs := Run(n, start, ticks);
      && |rs| <= |ticks|
      && (forall i :: 0 <= i < |rs| - 1 ==> rs[i + 1].start == rs[i].start + ticks[i].batchAtAdvance)
      && (forall i :: 0 <= i < |rs| - 1 ==>
            rs[i].nextDelay == Some(CalculateNextDelay(ticks[i].processTime, ticks[i].processingDelay)))
    decreases |ticks|
  {
    if ticks != [] && start < n && ticks[0].enabled {
      var t := ticks[0];
      var next := start + t.batchAtAdvance;
      if next < n {
        var tail := ticks[1..];
        var rest := Run(n, next, tail);
        var rs := Run(n, start, ticks);
        RunChain(n, next, tail);
        assert rs[1..] == rest;
        forall i | 0 <= i < |rs| - 1
          ensures rs[i + 1].start == rs[i].start + ticks[i].batchAtAdvance
          ensures rs[i].nextDelay == Some(CalculateNextDelay(ticks[i].processTime, ticks[i].processingDelay))
        {
          if i > 0 {
            assert rs[i] == rest[i - 1] && rs[i + 1] == rest[i] && ticks[i] == tail[i - 1];
          }
        }
      }
    }
  }

  /** The chain stops at the first callback that finds the highlighter disabled. */
  lemma {:induction false} RunStopsWhenDisabled(n: nat, start: nat, ticks: seq<Tick>, k: nat)
    requires k < |ticks| && !ticks[k].enabled
    ensures |Run(n, start, ticks)| <= k
    decreases k
  {
    if k > 0 && start < n && ticks[0].enabled {
      var next := start + ticks[0].batchAtAdvance;
      if next < n {
        RunStopsWhenDisabled(n, next, ticks[1..], k - 1);
      }
    }
  }

  /** The batch size of an unchanging, enabled chain. */
  predicate Steady(ticks: seq<Tick>, b: Positive) {
    forall i :: 0 <= i < |ticks| ==> ticks[i].enabled && ticks[i].batchAtSlice == b && ticks[i].batchAtAdvance == b
  }

  /** The selected links the batches of a run cover, in order. */
  function Covered<T>(links: seq<T>, rs: seq<Step>): seq<T> {
    if rs == [] then []
    else
      var r := rs[0];
      (if r.start <= r.end <= |links| then links[r.start..r.end] else []) + Covered(links, rs[1..])
  }

  /** With an unchanging batch size, the highlighter enabled throughout and enough callbacks,
      the batches are consecutive slices that together cover every selected link once, in
      order. */
  lemma {:induction false} SteadyRunCovers<T>(links: seq<T>, start: nat, ticks: seq<Tick>, b: Positive)
    requires start <= |links|
    requires Steady(ticks, b)
    requires |ticks| * b >= |links| - start
    ensures Covered(links, Run(|links|, start, ticks)) == links[start..]
    decreases |ticks|
  {
    var n := |links|;
    RunShape(n, start, ticks);
    if start < n {
      var next := start + b;
      if next < n {
        assert ticks[1..][0] == ticks[1];
        assert Steady(ticks[1..], b);
        SteadyRunCovers(links, next, ticks[1..], b);
        RunShape(n, next, ticks[1..]);
        assert Run(n, start, ticks)[1..] == Run(n, next, ticks[1..]);
        assert links[start..] == links[start..next] + links[next..];
      } else {
        assert links[start..n] + [] == links[start..];
      }
    }
  }

  /** When the batch size grows while a batch is in flight, the next batch starts past the end
      of the current one: the links in between are never given to this chain. */
  lemma GrowingBatchSkipsLinks(n: nat, ticks: seq<Tick>)
    requires |ticks| >= 2 && ticks[0].enabled && ticks[1].enabled
    requires ticks[0].batchAtAdvance > ticks[0].batchAtSlice
    requires ticks[0].batchAtAdvance < n
    ensures var rs := Run(n, 0, ticks);
      |rs| >= 2 && rs[0].end < rs[1].start
  {
    var rs := Run(n, 0, ticks);
    assert rs[1..] == Run(n, ticks[0].batchAtAdvance, ticks[1..]);
  }
}
