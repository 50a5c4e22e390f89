/** The `LinkHighlighter` object of the content script: its configuration as `loadConfig` and
    `updatePerformanceSettings` write it, the visit cache and the set of processed links, the
    observer flag and the mutation gate, and the operations the message listener, the batch
    chain, the observer and the page-level cleanup call. Asynchronous work is split at its
    `await`s: a method runs up to the await and reports what it waits for, and another method
    runs the continuation when the environment delivers the result. */
module Controller {
  import opened Seqs
  import opened ClassList
  import opened UrlGate
  import opened Visits
  import opened VisitCache
  import opened Scheduler
  import opened MutationGate
  import opened Presentation

  /** `this.config`, without the colours (which only feed the stylesheet). */
  datatype Config = Config(
    protocols: seq<string>,
    maxLinksPerPage: int,
    adaptivePerformance: bool,
    preserveClassChanges: bool,
    processingDelay: int,
    maxLinksPerBatch: int,
    throttleDynamicContent: bool,
    throttleDelay: int)

  /** The configuration the constructor writes. */
  function DefaultConfig(): Config {
    Config(["http:", "https:", "file:"], 1000, true, true, 50, 5, true, 500)
  }

  /** The keys `loadConfig` reads from `chrome.storage.local`; `None` is a key that is not
      stored. */
  datatype Stored = Stored(
    enabled: Option<bool>,
    processingDelay: Option<int>,
    maxLinksPerBatch: Option<int>,
    maxLinksPerPage: Option<int>,
    adaptivePerformance: Option<bool>,
    includedProtocols: Option<seq<string>>,
    preserveClassChanges: Option<bool>,
    throttleDynamicContent: Option<bool>,
    throttleDelay: Option<int>)

  /** Nothing stored at all, as on a fresh install. */
  function NothingStored(): Stored {
    Stored(None, None, None, None, None, None, None, None, None)
  }

  /** `value || fallback` on a stored number: absent and `0` are falsy. */
  function OrDefault(value: Option<int>, fallback: int): int {
    if value.Some? && value.value != 0 then value.value else fallback
  }

  /** `value !== false` on a stored flag: only a stored `false` turns it off. */
  function NotFalse(value: Option<bool>): bool {
    value != Some(false)
  }

  /** The configuration `loadConfig` leaves when storage answers with `s`. */
  function LoadedConfig(c: Config, s: Stored): Config {
    Config(
      if s.includedProtocols.Some? then s.includedProtocols.value else c.protocols,
      OrDefault(s.maxLinksPerPage, 1000),
      NotFalse(s.adaptivePerformance),
      NotFalse(s.preserveClassChanges),
      OrDefault(s.processingDelay, 50),
      OrDefault(s.maxLinksPerBatch, 5),
      NotFalse(s.throttleDynamicContent),
      OrDefault(s.throttleDelay, 500))
  }

  /** Each number is the stored one unless that is absent or `0`, when it is the built-in
      default; so no loaded number is `0`. Each flag is on unless stored as `false`. The
      protocol list is replaced only when one is stored. */
  lemma LoadedConfigFields(c: Config, s: Stored)
    ensures var r := LoadedConfig(c, s);
      && (s.processingDelay.Some? && s.processingDelay.value != 0 ==> r.processingDelay == s.processingDelay.value)
      && (s.processingDelay.None? || s.processingDelay.value == 0 ==> r.processingDelay == 50)
      && (s.maxLinksPerBatch.Some? && s.maxLinksPerBatch.value != 0 ==> r.maxLinksPerBatch == s.maxLinksPerBatch.value)
      && (s.maxLinksPerBatch.None? || s.maxLinksPerBatch.value == 0 ==> r.maxLinksPerBatch == 5)
      && (s.maxLinksPerPage.Some? && s.maxLinksPerPage.value != 0 ==> r.maxLinksPerPage == s.maxLinksPerPage.value)
      && (s.maxLinksPerPage.None? || s.maxLinksPerPage.value == 0 ==> r.maxLinksPerPage == 1000)
      && (s.throttleDelay.Some? && s.throttleDelay.value != 0 ==> r.throttleDelay == s.throttleDelay.value)
      && (s.throttleDelay.None? || s.throttleDelay.value == 0 ==> r.throttleDelay == 500)
      && r.processingDelay != 0 && r.maxLinksPerBatch != 0 && r.maxLinksPerPage != 0 && r.throttleDelay != 0
      && (r.adaptivePerformance <==> s.adaptivePerformance != Some(false))
      && (r.preserveClassChanges <==> s.preserveClassChanges != Some(false))
      && (r.throttleDynamicContent <==> s.throttleDynamicContent != Some(false))
      && (s.includedProtocols.None? ==> r.protocols == c.protocols)
      && (s.includedProtocols.Some? ==> r.protocols == s.includedProtocols.value)
  {
  }

  /** Loading from empty storage gives the constructor's configuration. */
  lemma NothingStoredGivesDefaults()
    ensures LoadedConfig(DefaultConfig(), NothingStored()) == DefaultConfig()
  {
  }

  /** Loading depends on the previous configuration only through the protocol list, and
      loading the same storage twice changes nothing the second time. */
  lemma LoadedConfigForgetsPrevious(c1: Config, c2: Config, s: Stored)
    ensures LoadedConfig(c1, s) == LoadedConfig(c2, s).(protocols := LoadedConfig(c1, s).protocols)
    ensures s.includedProtocols.Some? ==> LoadedConfig(c1, s) == LoadedConfig(c2, s)
    ensures LoadedConfig(LoadedConfig(c1, s), s) == LoadedConfig(c1, s)
  {
  }

  /** The settings object of an `updatePerformance` message; `None` is a key that is absent. */
  datatype PerformanceSettings = PerformanceSettings(
    processingDelay: Option<int>,
    maxLinksPerBatch: Option<int>,
    adaptivePerformance: Option<bool>,
    throttleDelay: Option<int>,
    throttleDynamicContent: Option<bool>)

  /** The configuration after `updatePerformanceSettings(s)`: the keys present in `s` are
      copied, every other key keeps its value. */
  function Updated(c: Config, s: PerformanceSettings): (r: Config)
    ensures r.protocols == c.protocols && r.maxLinksPerPage == c.maxLinksPerPage
    ensures r.preserveClassChanges == c.preserveClassChanges
    ensures s.processingDelay.Some? ==> r.processingDelay == s.processingDelay.value
    ensures s.maxLinksPerBatch.Some? ==> r.maxLinksPerBatch == s.maxLinksPerBatch.value
    ensures s.adaptivePerformance.Some? ==> r.adaptivePerformance == s.adaptivePerformance.value
    ensures s.throttleDelay.Some? ==> r.throttleDelay == s.throttleDelay.value
    ensures s.throttleDynamicContent.Some? ==> r.throttleDynamicContent == s.throttleDynamicContent.value
    ensures s.processingDelay.None? ==> r.processingDelay == c.processingDelay
    ensures s.maxLinksPerBatch.None? ==> r.maxLinksPerBatch == c.maxLinksPerBatch
    ensures s.adaptivePerformance.None? ==> r.adaptivePerformance == c.adaptivePerformance
    ensures s.throttleDelay.None? ==> r.throttleDelay == c.throttleDelay
    ensures s.throttleDynamicContent.None? ==> r.throttleDynamicContent == c.throttleDynamicContent
  {
    c.(processingDelay := s.processingDelay.GetOr(c.processingDelay),
       maxLinksPerBatch := s.maxLinksPerBatch.GetOr(c.maxLinksPerBatch),
       adaptivePerformance := s.adaptivePerformance.GetOr(c.adaptivePerformance),
       throttleDelay := s.throttleDelay.GetOr(c.throttleDelay),
       throttleDynamicContent := s.throttleDynamicContent.GetOr(c.throttleDynamicContent))
  }

  /** The keys of `later` where present, else those of `earlier`. */
  function Overlay(earlier: PerformanceSettings, later: PerformanceSettings): PerformanceSettings {
    PerformanceSettings(
      if later.processingDelay.Some? then later.processingDelay else earlier.processingDelay,
      if later.maxLinksPerBatch.Some? then later.maxLinksPerBatch else earlier.maxLinksPerBatch,
      if later.adaptivePerformance.Some? then later.adaptivePerformance else earlier.adaptivePerformance,
      if later.throttleDelay.Some? then later.throttleDelay else earlier.throttleDelay,
      if later.throttleDynamicContent.Some? then later.throttleDynamicContent else earlier.throttleDynamicContent)
  }

  /** Two updates in a row are one update with the later message's keys winning; an empty
      update changes nothing, and repeating an update changes nothing more. */
  lemma UpdatesCompose(c: Config, s1: PerformanceSettings, s2: PerformanceSettings)
    ensures Updated(Updated(c, s1), s2) == Updated(c, Overlay(s1, s2))
    ensures Updated(c, PerformanceSettings(None, None, None, None, None)) == c
    ensures Updated(Updated(c, s1), s1) == Updated(c, s1)
  {
  }

  /** The test `highlightExistingLinks` and `processMutations` apply to a link. */
  function Eligible(protocols: seq<string>, pageProtocol: string, processed: set<Link>): Link -> bool {
    (l: Link) => IsValidLink(l.facts, protocols, pageProtocol) && l !in processed
  }

  /** How far `processSingleLink` got before its first `await` on a history query. */
  datatype Progress =
    | Skipped                              // the guard returned at once
    | Done(settled: bool)                  // classes applied; `settled` is false when the catch block threw
    | Awaiting(key: string, issued: bool)  // waiting for the query of `key`, issued by this call or joined

  /** The answer to `getConfig`: the figures of `getStats` the model keeps. */
  datatype Stats = Stats(
    cacheSize: nat,
    pendingQueries: nat,
    processedLinks: nat,
    enabled: bool,
    processingDelay: int,
    maxLinksPerBatch: int,
    throttleDelay: int,
    throttleDynamicContent: bool,
    throttledUpdates: nat)

  /** The messages the listener acts on; `Other` is any other action. */
  datatype Request =
    | ToggleHighlighting(enabled: bool)
    | UpdateConfig(stored: Option<Stored>)
    | GetConfig
    | Refresh
    | ClearCache
    | UpdatePerformance(settings: Option<PerformanceSettings>)
    | MergeClassesTest
    | Other

  datatype Response = Success | ConfigReport(config: Config, enabled: bool, stats: Stats) | NoResponse

  /** The `forEach` of `removeHighlights` over the page's `a[href]` elements, which
      `querySelectorAll` lists once each. */
  method RemoveEach(page: seq<Link>)
    requires Distinct(page)
    modifies set l | l in page
    ensures forall j :: 0 <= j < |page| ==> page[j].State() == AfterRemoval(old(page[j].State()))
  {
    ghost var before := seq(|page|, j requires 0 <= j < |page| reads page => page[j].State());
    for i := 0 to |page|
      invariant forall j :: 0 <= j < i ==> page[j].State() == AfterRemoval(before[j])
      invariant forall j :: i <= j < |page| ==> page[j].State() == before[j]
    {
      label Before:
      page[i].RemoveHighlight();
      forall j | 0 <= j < |page| && j != i
        ensures page[j].State() == old@Before(page[j].State())
      {
        assert page[j] != page[i];
      }
    }
  }

  /** What `applyRealHighlightClass` did to a class list `base` without highlighter classes,
      ending as `after`: with no cache key (`lookup` is `None`) or a cached answer the category
      class is added (`never` without a key); while a query is awaited nothing more is done. */
  predicate AppliedAs(p: Progress, base: seq<string>, after: seq<string>, merge: Option<string>,
                      lookup: Option<Lookup>, now: int)
  {
    match lookup
    case None => p.Done? && Outcome(after, p.settled) == TryAddClasses(base, Never, merge)
    case Some(Hit(v)) => p.Done? && Outcome(after, p.settled) == TryAddClasses(base, DetermineHighlightClass(v, now), merge)
    case Some(Joined) => p.Awaiting? && !p.issued && after == base
    case Some(Issued) => p.Awaiting? && p.issued && after == base
  }

  /** The cached answer a lookup returned, if it returned one. */
  function HitData(lookup: Option<Lookup>): Option<VisitData> {
    if lookup.Some? && lookup.value.Hit? then Some(lookup.value.data) else None
  }

  /** The `title` and `aria-label` after the category for `answer` was added to `base`:
      `updateLinkTitle` ran when there was a summary and adding its category did not throw;
      otherwise both are as they were. */
  predicate TitledAs(answer: Option<VisitData>, base: seq<string>, merge: Option<string>, now: int,
                     textContent: string, originalTitle: Option<string>,
                     oldTitle: string, oldAria: Option<string>, title: string, aria: Option<string>)
  {
    if answer.Some? && AddClasses(base, DetermineHighlightClass(answer.value, now), merge).ok then
      var text := HighlighterText(answer.value, now);
      title == TitleFor(originalTitle, text) && aria == Some(AriaLabelFor(textContent, text))
    else
      title == oldTitle && aria == oldAria
  }

  /** `applyRealHighlightClass` after the highlighter classes were removed, leaving `base`, on
      a link whose title and label were `title0` and `aria0`, with the cache going from
      `cache0` to `cache1` and the link ending as `after`: the lookup is `Begin` on the key
      (none without a key), the classes are as `AppliedAs` says and the title and label as
      `TitledAs` says. */
  predicate HighlightedAs(p: Progress, key: Option<string>, cache0: Cache, cache1: Cache,
                          base: seq<string>, title0: string, aria0: Option<string>,
                          after: LinkState, textContent: string, preserve: bool, now: int)
  {
    var lookup := if key.None? then None else Some(Begin(cache0, key.value).1);
    var merge := MergeSource(preserve, after.originalClasses);
    && cache1 == (if key.None? then cache0 else Begin(cache0, key.value).0)
    && AppliedAs(p, base, after.classes, merge, lookup, now)
    && (p.Awaiting? ==> key.Some? && p.key == key.value)
    && TitledAs(HitData(lookup), base, merge, now, textContent,
                after.originalTitle, title0, aria0, after.title, after.ariaLabel)
  }

  /** `processSingleLink` on a link it did not skip, which was in state `before` with class
      attribute `className0`: the original title and classes are preserved, then
      `applyRealHighlightClass` runs as `HighlightedAs` says. */
  predicate ProcessedAs(p: Progress, key: Option<string>, cache0: Cache, cache1: Cache,
                        before: LinkState, className0: string, after: LinkState,
                        textContent: string, preserve: bool, now: int)
  {
    && after.originalTitle == PreservedTitle(before.originalTitle, before.title)
    && after.originalClasses == (if preserve && before.originalClasses.GetOr("") == []
                                 then Some(className0) else before.originalClasses)
    && HighlightedAs(p, key, cache0, cache1, Without(before.classes, HighlighterClasses),
                     before.title, before.ariaLabel, after, textContent, preserve, now)
  }

  /** One entry of a batch: a skipped link leaves the cache as it was; any other is processed
      as `ProcessedAs` says. */
  predicate BatchEntryAs(p: Progress, key: Option<string>, cache0: Cache, cache1: Cache,
                         before: LinkState, className0: string, after: LinkState,
                         textContent: string, preserve: bool, now: int)
  {
    if p == Skipped then cache1 == cache0
    else ProcessedAs(p, key, cache0, cache1, before, className0, after, textContent, preserve, now)
  }

  /** The states of `links`, in order. */
  ghost function States(links: seq<Link>): (r: seq<LinkState>)
    reads set l | l in links
    ensures |r| == |links| && forall j :: 0 <= j < |links| ==> r[j] == links[j].State()
  {
    if links == [] then [] else [links[0].State()] + States(links[1..])
  }

  /** The class attributes of `links`, in order. */
  ghost function ClassNames(links: seq<Link>): (r: seq<string>)
    reads set l | l in links
    ensures |r| == |links| && forall j :: 0 <= j < |links| ==> r[j] == links[j].className
  {
    if links == [] then [] else [links[0].className] + ClassNames(links[1..])
  }

  /** The first `|progress|` links of a batch, which were in states `befores` with class
      attributes `classNames` and are now in states `afters`, were each run as
      `BatchEntryAs` says, the cache going through `caches`. */
  predicate BatchAs(progress: seq<Progress>, valid: seq<Link>, caches: seq<Cache>,
                    befores: seq<LinkState>, classNames: seq<string>, afters: seq<LinkState>,
                    preserve: bool, now: int)
  {
    && |progress| <= |valid| && |caches| == |progress| + 1
    && |befores| == |valid| && |classNames| == |valid| && |afters| == |valid|
    && forall j :: 0 <= j < |progress| ==>
         BatchEntryAs(progress[j], NormalizeAndValidateUrl(valid[j].facts.parsed), caches[j], caches[j + 1],
                      befores[j], classNames[j], afters[j], valid[j].textContent, preserve, now)
  }

  lemma BatchAsSnoc(progress: seq<Progress>, valid: seq<Link>, caches: seq<Cache>,
                    befores: seq<LinkState>, classNames: seq<string>, afters0: seq<LinkState>,
                    afters1: seq<LinkState>, p: Progress, c: Cache, preserve: bool, now: int)
    requires BatchAs(progress, valid, caches, befores, classNames, afters0, preserve, now)
    requires |progress| < |valid| && |afters1| == |valid|
    requires forall j :: 0 <= j < |progress| ==> afters1[j] == afters0[j]
    requires var i := |progress|;
      BatchEntryAs(p, NormalizeAndValidateUrl(valid[i].facts.parsed), caches[i], c,
                   befores[i], classNames[i], afters1[i], valid[i].textContent, preserve, now)
    ensures BatchAs(progress + [p], valid, caches + [c], befores, classNames, afters1, preserve, now)
  {
    var ps := progress + [p];
    var cs := caches + [c];
    forall j | 0 <= j < |ps|
      ensures BatchEntryAs(ps[j], NormalizeAndValidateUrl(valid[j].facts.parsed), cs[j], cs[j + 1],
                           befores[j], classNames[j], afters1[j], valid[j].textContent, preserve, now)
    {
      if j < |progress| {
        assert ps[j] == progress[j] && cs[j] == caches[j] && cs[j + 1] == caches[j + 1];
      }
    }
  }

  /** Entry `j` of `progress` is `Skipped` exactly when `valid[j]` occurred earlier. */
  predicate SkipsRepeats<T(==)>(progress: seq<Progress>, valid: seq<T>) {
    |progress| <= |valid| && forall j :: 0 <= j < |progress| ==> (progress[j] == Skipped <==> valid[j] in valid[..j])
  }

  lemma SkipsRepeatsSnoc<T>(progress: seq<Progress>, valid: seq<T>, p: Progress)
    requires SkipsRepeats(progress, valid) && |progress| < |valid|
    requires p == Skipped <==> valid[|progress|] in valid[..|progress|]
    ensures SkipsRepeats(progress + [p], valid)
  {
    var r := progress + [p];
    forall j | 0 <= j < |r|
      ensures r[j] == Skipped <==> valid[j] in valid[..j]
    {
      if j < |progress| {
        assert r[j] == progress[j];
      }
    }
  }

  lemma PrefixSnoc<T>(s: seq<T>, i: nat)
    requires i < |s|
    ensures s[..i + 1] == s[..i] + [s[i]]
  {
  }

  /** After the first `i` links of a batch, which were in states `befores` with class
      attributes `classNames` and are now in states `afters` with class attributes `names`:
      the processed set grew from `processed0` by those links, repeats were skipped, each
      entry ran as `BatchAs` says with the cache going from `cache0` to `cache`, and every
      link not processed yet is as it was. */
  ghost predicate EachDone(valid: seq<Link>, i: nat, progress: seq<Progress>, caches: seq<Cache>,
                           processed0: set<Link>, processed: set<Link>, cache0: Cache, cache: Cache,
                           befores: seq<LinkState>, classNames: seq<string>,
                           afters: seq<LinkState>, names: seq<string>, preserve: bool, now: int)
  {
    && i <= |valid| && |progress| == i && |names| == |valid|
    && processed == processed0 + Members(valid[..i])
    && SkipsRepeats(progress, valid)
    && |caches| == i + 1 && caches[0] == cache0 && caches[i] == cache
    && BatchAs(progress, valid, caches, befores, classNames, afters, preserve, now)
    && forall j :: 0 <= j < |valid| && valid[j] !in processed ==> afters[j] == befores[j] && names[j] == classNames[j]
  }

  lemma EachDoneSnoc(valid: seq<Link>, i: nat, progress: seq<Progress>, caches: seq<Cache>,
                     processed0: set<Link>, processed: set<Link>, cache0: Cache, cache: Cache, cache1: Cache,
                     befores: seq<LinkState>, classNames: seq<string>,
                     afters0: seq<LinkState>, names0: seq<string>, afters1: seq<LinkState>, names1: seq<string>,
                     preserve: bool, now: int, p: Progress)
    requires EachDone(valid, i, progress, caches, processed0, processed, cache0, cache, befores, classNames,
                      afters0, names0, preserve, now)
    requires i < |valid| && valid[i] !in processed0 && |afters1| == |valid| && |names1| == |valid|
    requires p == Skipped <==> valid[i] in processed
    requires forall j :: 0 <= j < |valid| && valid[j] != valid[i] ==> afters1[j] == afters0[j] && names1[j] == names0[j]
    requires forall j :: 0 <= j < |valid| && p == Skipped ==> afters1[j] == afters0[j]
    requires BatchEntryAs(p, NormalizeAndValidateUrl(valid[i].facts.parsed), cache, cache1, afters0[i], names0[i],
                          afters1[i], valid[i].textContent, preserve, now)
    ensures EachDone(valid, i + 1, progress + [p], caches + [cache1], processed0, processed + {valid[i]}, cache0, cache1,
                     befores, classNames, afters1, names1, preserve, now)
  {
    PrefixSnoc(valid, i);
    MembersIn(valid[..i], valid[i]);
    assert Members(valid[..i + 1]) == Members(valid[..i]) + {valid[i]} by {
      assert valid[..i + 1][..i] == valid[..i];
    }
    SkipsRepeatsSnoc(progress, valid, p);
    forall j | 0 <= j < i
      ensures afters1[j] == afters0[j]
    {
      if valid[j] == valid[i] {
        assert valid[i] in valid[..i];
      }
    }
    BatchAsSnoc(progress, valid, caches, befores, classNames, afters0, afters1, p, cache1, preserve, now);
  }

  /** The elements of `s`. */
  ghost function Members<T>(s: seq<T>): set<T> {
    if s == [] then {} else Members(s[..|s| - 1]) + {s[|s| - 1]}
  }

  lemma {:induction false} MembersIn<T>(s: seq<T>, x: T)
    ensures x in Members(s) <==> x in s
  {
    if s != [] {
      MembersIn(s[..|s| - 1], x);
      assert s == s[..|s| - 1] + [s[|s| - 1]];
    }
  }

  /** `EachDone` over a whole batch, spelled out. */
  lemma EachDoneAll(valid: seq<Link>, progress: seq<Progress>, caches: seq<Cache>,
                    processed0: set<Link>, processed: set<Link>, cache0: Cache, cache: Cache,
                    befores: seq<LinkState>, classNames: seq<string>,
                    afters: seq<LinkState>, names: seq<string>, preserve: bool, now: int)
    requires EachDone(valid, |valid|, progress, caches, processed0, processed, cache0, cache, befores, classNames,
                      afters, names, preserve, now)
    ensures |progress| == |valid| && processed == processed0 + set l | l in valid
    ensures forall i :: 0 <= i < |valid| ==> (progress[i] == Skipped <==> valid[i] in valid[..i])
    ensures |caches| == |valid| + 1 && caches[0] == cache0 && caches[|valid|] == cache
    ensures BatchAs(progress, valid, caches, befores, classNames, afters, preserve, now)
  {
    assert valid[..|valid|] == valid;
    MembersAll(valid);
  }

  lemma MembersAll<T>(s: seq<T>)
    ensures Members(s) == set x | x in s
  {
    forall x | x in Members(s) || x in s
      ensures x in Members(s) <==> x in s
    {
      MembersIn(s, x);
    }
  }

  /** A cached answer applied to the link gives what `HighlightedAs` describes. */
  lemma CachedHighlighted(p: Progress, url: string, cache0: Cache, cache1: Cache,
                          base: seq<string>, title0: string, aria0: Option<string>,
                          after: LinkState, textContent: string, preserve: bool, now: int, v: VisitData)
    requires Begin(cache0, url) == (cache1, Hit(v)) && p.Done?
    requires var merge := MergeSource(preserve, after.originalClasses);
      && Outcome(after.classes, p.settled) == TryAddClasses(base, DetermineHighlightClass(v, now), merge)
      && TitledAs(Some(v), base, merge, now, textContent, after.originalTitle, title0, aria0, after.title, after.ariaLabel)
    ensures HighlightedAs(p, Some(url), cache0, cache1, base, title0, aria0, after, textContent, preserve, now)
  {
  }

  /** The batch size and delay the chain runs a selection with: the page-size table's, when
      something was selected and adaptive mode is on, else those already set. */
  function ChainSettings<T>(selected: seq<T>, adaptive: bool, current: Settings): Settings {
    if |selected| > 0 && adaptive then AdjustPerformanceSettings(|selected|) else current
  }

  class LinkHighlighter {
    var enabled: bool
    var config: Config
    var processingDelay: int
    var maxLinksPerBatch: int
    var throttleDelay: int
    /** Whether `observer` holds a connected observer. */
    var observing: bool
    var processedLinks: set<Link>
    var visitCache: map<string, VisitData>
    var pendingQueries: set<string>
    /** The history queries issued and not yet settled. */
    ghost var inFlight: multiset<string>
    /** `throttleTimeout`, `debounceTimeout`, the callbacks they hold and
        `performanceMetrics.throttledUpdates`. */
    var gate: Gate<seq<Mutation<Link>>>

    ghost function CacheState(): Cache
      reads this
    {
      Cache(visitCache, pendingQueries, inFlight)
    }

    ghost predicate Valid()
      reads this
    {
      CacheState().Valid() && gate.Valid()
    }

    constructor ()
      ensures Valid()
      ensures enabled && config == DefaultConfig() && !observing
      ensures processingDelay == 50 && maxLinksPerBatch == 5 && throttleDelay == 500
      ensures processedLinks == {} && CacheState() == EmptyCache() && gate == InitialGate()
    {
      enabled := true;
      config := DefaultConfig();
      processingDelay := 50;
      maxLinksPerBatch := 5;
      throttleDelay := 500;
      observing := false;
      processedLinks := {};
      visitCache := map[];
      pendingQueries := {};
      inFlight := multiset{};
      gate := InitialGate();
    }

    /** `getStats()`. */
    function GetStats(): Stats
      reads this
    {
      Stats(|visitCache|, |pendingQueries|, |processedLinks|, enabled, processingDelay,
            maxLinksPerBatch, throttleDelay, config.throttleDynamicContent, gate.throttledUpdates)
    }

    /** `loadConfig()` once storage has answered; `None` when the read failed, which keeps the
        current settings. */
    method LoadConfig(result: Option<Stored>)
      modifies this
      ensures result.None? ==>
        && enabled == old(enabled) && config == old(config)
        && processingDelay == old(processingDelay) && maxLinksPerBatch == old(maxLinksPerBatch)
        && throttleDelay == old(throttleDelay)
      ensures result.Some? ==>
        && enabled == NotFalse(result.value.enabled)
        && config == LoadedConfig(old(config), result.value)
        && processingDelay == config.processingDelay
        && maxLinksPerBatch == config.maxLinksPerBatch
        && throttleDelay == config.throttleDelay
      ensures observing == old(observing) && processedLinks == old(processedLinks)
      ensures CacheState() == old(CacheState()) && gate == old(gate)
    {
      if result.Some? {
        var s := result.value;
        enabled := NotFalse(s.enabled);
        config := LoadedConfig(config, s);
        processingDelay := config.processingDelay;
        maxLinksPerBatch := config.maxLinksPerBatch;
        throttleDelay := config.throttleDelay;
      }
    }

    /** `updatePerformanceSettings(s)`: the present keys go to the configuration and, for the
        delays and the batch size, to the live values too. */
    method UpdatePerformanceSettings(s: PerformanceSettings)
      modifies this
      ensures config == Updated(old(config), s)
      ensures processingDelay == s.processingDelay.GetOr(old(processingDelay))
      ensures maxLinksPerBatch == s.maxLinksPerBatch.GetOr(old(maxLinksPerBatch))
      ensures throttleDelay == s.throttleDelay.GetOr(old(throttleDelay))
      ensures enabled == old(enabled) && observing == old(observing) && processedLinks == old(processedLinks)
      ensures CacheState() == old(CacheState()) && gate == old(gate)
    {
      config := Updated(config, s);
      if s.processingDelay.Some? {
        processingDelay := s.processingDelay.value;
      }
      if s.maxLinksPerBatch.Some? {
        maxLinksPerBatch := s.maxLinksPerBatch.value;
      }
      if s.throttleDelay.Some? {
        throttleDelay := s.throttleDelay.value;
      }
    }

    /** `highlightExistingLinks()` over the page's `a[href]` elements `page`: the links that
        are valid and not yet processed, at most `maxLinksPerPage` of them, go to the batch
        chain; with adaptive performance on, the batch size and delay are first set from
        their number. */
    method HighlightExistingLinks(page: seq<Link>, pageProtocol: string) returns (selected: seq<Link>)
      modifies this
      ensures selected == SelectLinks(page, Eligible(config.protocols, pageProtocol, processedLinks), config.maxLinksPerPage)
      ensures |selected| > 0 && config.adaptivePerformance ==>
        Settings(maxLinksPerBatch, processingDelay) == AdjustPerformanceSettings(|selected|)
      ensures !(|selected| > 0 && config.adaptivePerformance) ==>
        maxLinksPerBatch == old(maxLinksPerBatch) && processingDelay == old(processingDelay)
      ensures enabled == old(enabled) && config == old(config) && throttleDelay == old(throttleDelay)
      ensures observing == old(observing) && processedLinks == old(processedLinks)
      ensures CacheState() == old(CacheState()) && gate == old(gate)
    {
      selected := SelectLinks(page, Eligible(config.protocols, pageProtocol, processedLinks), config.maxLinksPerPage);
      if |selected| > 0 && config.adaptivePerformance {
        var adjusted := AdjustPerformanceSettings(|selected|);
        maxLinksPerBatch := adjusted.maxLinksPerBatch;
        processingDelay := adjusted.processingDelay;
      }
    }

    /** `startObserving()`: a second call while an observer is connected does nothing. */
    method StartObserving()
      modifies this
      ensures observing
      ensures enabled == old(enabled) && config == old(config) && processedLinks == old(processedLinks)
      ensures processingDelay == old(processingDelay) && maxLinksPerBatch == old(maxLinksPerBatch)
      ensures throttleDelay == old(throttleDelay)
      ensures CacheState() == old(CacheState()) && gate == old(gate)
    {
      if observing {
        return;
      }
      observing := true;
    }

    /** `stopObserving()`: the observer is disconnected and both timer handles cancelled. */
    method StopObserving()
      modifies this
      ensures !observing && gate == StopGate(old(gate))
      ensures enabled == old(enabled) && config == old(config) && processedLinks == old(processedLinks)
      ensures processingDelay == old(processingDelay) && maxLinksPerBatch == old(maxLinksPerBatch)
      ensures throttleDelay == old(throttleDelay)
      ensures CacheState() == old(CacheState())
    {
      observing := false;
      gate := StopGate(gate);
    }

    /** `removeHighlights()` over the page's `a[href]` elements `page`: each loses the six
        highlighter classes, gets a non-empty stored title back, loses an `aria-label` that
        contains `Visited` and its stored classes; then the cache, the pending queries and the
        processed links are emptied. */
    method RemoveHighlights(page: seq<Link>)
      requires Valid() && Distinct(page)
      modifies this, set l | l in page
      ensures Valid()
      ensures forall j :: 0 <= j < |page| ==> page[j].State() == AfterRemoval(old(page[j].State()))
      ensures CacheState() == Clear(old(CacheState())) && processedLinks == {}
      ensures enabled == old(enabled) && config == old(config) && observing == old(observing)
      ensures processingDelay == old(processingDelay) && maxLinksPerBatch == old(maxLinksPerBatch)
      ensures throttleDelay == old(throttleDelay) && gate == old(gate)
    {
      RemoveEach(page);
      visitCache := map[];
      pendingQueries := {};
      processedLinks := {};
    }

    /** `startHighlighting()`: the processed set is emptied, the existing links are selected
        for the batch chain and the observer is started. */
    method StartHighlighting(page: seq<Link>, pageProtocol: string) returns (selected: seq<Link>)
      modifies this
      ensures selected == SelectLinks(page, Eligible(config.protocols, pageProtocol, {}), config.maxLinksPerPage)
      ensures Settings(maxLinksPerBatch, processingDelay) ==
        ChainSettings(selected, config.adaptivePerformance, Settings(old(maxLinksPerBatch), old(processingDelay)))
      ensures observing && processedLinks == {}
      ensures enabled == old(enabled) && config == old(config) && throttleDelay == old(throttleDelay)
      ensures CacheState() == old(CacheState()) && gate == old(gate)
    {
      processedLinks := {};
      selected := HighlightExistingLinks(page, pageProtocol);
      StartObserving();
    }

    /** `stopHighlighting()`: highlights removed, observer stopped. */
    method StopHighlighting(page: seq<Link>)
      requires Valid() && Distinct(page)
      modifies this, set l | l in page
      ensures Valid()
      ensures forall j :: 0 <= j < |page| ==> page[j].State() == AfterRemoval(old(page[j].State()))
      ensures !observing && gate == StopGate(old(gate))
      ensures CacheState() == Clear(old(CacheState())) && processedLinks == {}
      ensures enabled == old(enabled) && config == old(config)
      ensures processingDelay == old(processingDelay) && maxLinksPerBatch == old(maxLinksPerBatch)
      ensures throttleDelay == old(throttleDelay)
    {
      RemoveHighlights(page);
      StopObserving();
    }

    /** `destroy()`: highlighting stopped (the stylesheet element is not modelled). */
    method Destroy(page: seq<Link>)
      requires Valid() && Distinct(page)
      modifies this, set l | l in page
      ensures Valid()
      ensures forall j :: 0 <= j < |page| ==> page[j].State() == AfterRemoval(old(page[j].State()))
      ensures !observing && gate == StopGate(old(gate))
      ensures CacheState() == Clear(old(CacheState())) && processedLinks == {}
      ensures enabled == old(enabled) && config == old(config)
      ensures processingDelay == old(processingDelay) && maxLinksPerBatch == old(maxLinksPerBatch)
      ensures throttleDelay == old(throttleDelay)
    {
      StopHighlighting(page);
    }

    /** `init()` once storage has answered `stored`: the configuration is loaded and, when
        highlighting is on, started. */
    method Init(stored: Option<Stored>, page: seq<Link>, pageProtocol: string) returns (selected: seq<Link>)
      requires Valid()
      modifies this
      ensures Valid()
      ensures stored.Some? ==> config == LoadedConfig(old(config), stored.value) && enabled == NotFalse(stored.value.enabled)
      ensures stored.None? ==> config == old(config) && enabled == old(enabled)
      ensures enabled ==>
        && observing && processedLinks == {}
        && selected == SelectLinks(page, Eligible(config.protocols, pageProtocol, {}), config.maxLinksPerPage)
      ensures !enabled ==> selected == [] && observing == old(observing) && processedLinks == old(processedLinks)
      ensures var loaded := if stored.Some? then Settings(config.maxLinksPerBatch, config.processingDelay)
                            else Settings(old(maxLinksPerBatch), old(processingDelay));
        Settings(maxLinksPerBatch, processingDelay) ==
          if enabled then ChainSettings(selected, config.adaptivePerformance, loaded) else loaded
      ensures throttleDelay == if stored.Some? then config.throttleDelay else old(throttleDelay)
      ensures CacheState() == old(CacheState()) && gate == old(gate)
    {
      LoadConfig(stored);
      selected := [];
      if enabled {
        selected := StartHighlighting(page, pageProtocol);
      }
    }

    /** `getVisitDataForLink(url)` up to its `await`. */
    method GetVisitDataForLink(url: string) returns (lookup: Lookup)
      requires Valid()
      modifies this
      ensures Valid()
      ensures (CacheState(), lookup) == Begin(old(CacheState()), url)
      ensures enabled == old(enabled) && config == old(config) && observing == old(observing)
      ensures processedLinks == old(processedLinks) && gate == old(gate)
      ensures processingDelay == old(processingDelay) && maxLinksPerBatch == old(maxLinksPerBatch)
      ensures throttleDelay == old(throttleDelay)
    {
      if url in visitCache {
        return Hit(visitCache[url]);
      }
      if url in pendingQueries {
        return Joined;
      }
      pendingQueries := pendingQueries + {url};
      inFlight := inFlight + multiset{url};
      return Issued;
    }

    /** The rest of the `getVisitDataForLink` call that issued a query for `url`, once the
        query settles: `answer` is the summary, or `None` for a rejection or the timeout. */
    method SettleQuery(url: string, answer: Option<VisitData>)
      requires Valid() && url in inFlight
      modifies this
      ensures Valid()
      ensures answer.Some? ==> CacheState() == Complete(old(CacheState()), url, answer.value)
      ensures answer.None? ==> CacheState() == Fail(old(CacheState()), url)
      ensures enabled == old(enabled) && config == old(config) && observing == old(observing)
      ensures processedLinks == old(processedLinks) && gate == old(gate)
      ensures processingDelay == old(processingDelay) && maxLinksPerBatch == old(maxLinksPerBatch)
      ensures throttleDelay == old(throttleDelay)
    {
      ghost var next := if answer.Some? then Complete(CacheState(), url, answer.value) else Fail(CacheState(), url);
      pendingQueries := pendingQueries - {url};
      if answer.Some? {
        visitCache := visitCache[url := answer.value];
      }
      inFlight := inFlight - multiset{url};
      assert CacheState() == next;
    }

    /** `applyRealHighlightClass(link)` up to the point where it awaits a query, or to its end
        when it does not. */
    method ApplyRealHighlightClass(link: Link, now: int) returns (p: Progress)
      requires Valid()
      modifies this, link
      ensures Valid()
      ensures HighlightedAs(p, NormalizeAndValidateUrl(link.facts.parsed), old(CacheState()), CacheState(),
                            Without(old(link.Classes()), HighlighterClasses), old(link.title), old(link.ariaLabel),
                            link.State(), link.textContent, config.preserveClassChanges, now)
      ensures link.originalTitle == old(link.originalTitle) && link.originalClasses == old(link.originalClasses)
      ensures enabled == old(enabled) && config == old(config) && observing == old(observing)
      ensures processedLinks == old(processedLinks) && gate == old(gate)
      ensures processingDelay == old(processingDelay) && maxLinksPerBatch == old(maxLinksPerBatch)
      ensures throttleDelay == old(throttleDelay)
    {
      link.RemoveHighlighterClasses();
      p := ApplyCategoryFor(link, now);
    }

    /** The rest of `applyRealHighlightClass` once the highlighter classes are gone: the
        category for the link's cache key, or `never` without one. */
    method ApplyCategoryFor(link: Link, now: int) returns (p: Progress)
      requires Valid()
      modifies this, link
      ensures Valid()
      ensures HighlightedAs(p, NormalizeAndValidateUrl(link.facts.parsed), old(CacheState()), CacheState(),
                            old(link.Classes()), old(link.title), old(link.ariaLabel),
                            link.State(), link.textContent, config.preserveClassChanges, now)
      ensures link.originalTitle == old(link.originalTitle) && link.originalClasses == old(link.originalClasses)
      ensures enabled == old(enabled) && config == old(config) && observing == old(observing)
      ensures processedLinks == old(processedLinks) && gate == old(gate)
      ensures processingDelay == old(processingDelay) && maxLinksPerBatch == old(maxLinksPerBatch)
      ensures throttleDelay == old(throttleDelay)
    {
      var key := NormalizeAndValidateUrl(link.facts.parsed);
      if key.None? {
        var settled := link.AddCategory(Never, config.preserveClassChanges);
        return Done(settled);
      }
      p := ApplyLookup(link, key.value, now);
    }

    /** The lookup of `url` and what follows it: a cached answer applies its category at once,
        otherwise the link waits for the query. */
    method ApplyLookup(link: Link, url: string, now: int) returns (p: Progress)
      requires Valid()
      modifies this, link
      ensures Valid()
      ensures HighlightedAs(p, Some(url), old(CacheState()), CacheState(),
                            old(link.Classes()), old(link.title), old(link.ariaLabel),
                            link.State(), link.textContent, config.preserveClassChanges, now)
      ensures link.originalTitle == old(link.originalTitle) && link.originalClasses == old(link.originalClasses)
      ensures enabled == old(enabled) && config == old(config) && observing == old(observing)
      ensures processedLinks == old(processedLinks) && gate == old(gate)
      ensures processingDelay == old(processingDelay) && maxLinksPerBatch == old(maxLinksPerBatch)
      ensures throttleDelay == old(throttleDelay)
    {
      ghost var base := link.Classes();
      var lookup := GetVisitDataForLink(url);
      ghost var cache1 := CacheState();
      assert link.Classes() == base && link.title == old(link.title) && link.ariaLabel == old(link.ariaLabel);
      assert Begin(old(CacheState()), url).0 == cache1 && Begin(old(CacheState()), url).1 == lookup;
      match lookup
      case Hit(v) =>
        var settled := ResumeLink(link, Some(v), now);
        p := Done(settled);
        CachedHighlighted(p, url, old(CacheState()), CacheState(), base, old(link.title), old(link.ariaLabel),
                          link.State(), link.textContent, config.preserveClassChanges, now, v);
      case Joined =>
        p := Awaiting(url, false);
      case Issued =>
        p := Awaiting(url, true);
    }

    /** `processSingleLink(link)` up to its first wait: a link is skipped while highlighting is
        off, when it is not a valid link, or when it was processed already; otherwise it is
        marked processed before anything is awaited, which keeps a second call from
        processing it again. */
    method ProcessSingleLink(link: Link, pageProtocol: string, now: int) returns (p: Progress)
      requires Valid()
      modifies this, link
      ensures Valid()
      ensures p == Skipped <==>
        !old(enabled) || !IsValidLink(link.facts, old(config).protocols, pageProtocol) || link in old(processedLinks)
      ensures p == Skipped ==>
        processedLinks == old(processedLinks) && CacheState() == old(CacheState()) && link.State() == old(link.State())
      ensures p != Skipped ==>
        && processedLinks == old(processedLinks) + {link}
        && link.originalTitle == PreservedTitle(old(link.originalTitle), old(link.title))
        && link.originalClasses == (if config.preserveClassChanges && old(link.originalClasses).GetOr("") == []
                                    then Some(old(link.className)) else old(link.originalClasses))
        && HighlightedAs(p, NormalizeAndValidateUrl(link.facts.parsed), old(CacheState()), CacheState(),
                         Without(old(link.Classes()), HighlighterClasses), old(link.title), old(link.ariaLabel),
                         link.State(), link.textContent, config.preserveClassChanges, now)
      ensures enabled == old(enabled) && config == old(config) && observing == old(observing) && gate == old(gate)
      ensures processingDelay == old(processingDelay) && maxLinksPerBatch == old(maxLinksPerBatch)
      ensures throttleDelay == old(throttleDelay)
    {
      if !enabled || !IsValidLink(link.facts, config.protocols, pageProtocol) || link in processedLinks {
        return Skipped;
      }
      processedLinks := processedLinks + {link};
      ghost var before := link.State();
      link.PreserveOriginalAttributes(config.preserveClassChanges);
      assert link.Classes() == before.classes && link.title == before.title && link.ariaLabel == before.ariaLabel;
      p := ApplyRealHighlightClass(link, now);
    }

    /** The continuation of `applyRealHighlightClass` for a link that awaited a query: the
        category class for the summary, or `never` when the query rejected. */
    method ResumeLink(link: Link, answer: Option<VisitData>, now: int) returns (settled: bool)
      modifies link
      ensures var merge := MergeSource(config.preserveClassChanges, link.originalClasses);
        && (answer.None? ==> Outcome(link.Classes(), settled) == AddClasses(old(link.Classes()), Never, merge))
        && (answer.Some? ==>
              Outcome(link.Classes(), settled) == TryAddClasses(old(link.Classes()), DetermineHighlightClass(answer.value, now), merge))
      ensures TitledAs(answer, old(link.Classes()), MergeSource(config.preserveClassChanges, link.originalClasses), now,
                       link.textContent, link.originalTitle, old(link.title), old(link.ariaLabel), link.title, link.ariaLabel)
      ensures link.originalTitle == old(link.originalTitle) && link.originalClasses == old(link.originalClasses)
    {
      settled := link.FinishHighlight(answer, now, config.preserveClassChanges);
    }

    /** `processSingleLink` on a link of a batch, which passed `isValidLink` when the batch was
        filtered: afterwards the link is among the processed ones, whether it was already or not. */
    method ProcessBatchItem(link: Link, pageProtocol: string, now: int) returns (p: Progress)
      requires Valid() && enabled && IsValidLink(link.facts, config.protocols, pageProtocol)
      modifies this, link
      ensures Valid()
      ensures p == Skipped <==> link in old(processedLinks)
      ensures processedLinks == old(processedLinks) + {link}
      ensures p == Skipped ==> link.State() == old(link.State())
      ensures BatchEntryAs(p, NormalizeAndValidateUrl(link.facts.parsed), old(CacheState()), CacheState(),
                           old(link.State()), old(link.className), link.State(), link.textContent,
                           config.preserveClassChanges, now)
      ensures enabled == old(enabled) && config == old(config) && observing == old(observing) && gate == old(gate)
      ensures processingDelay == old(processingDelay) && maxLinksPerBatch == old(maxLinksPerBatch)
      ensures throttleDelay == old(throttleDelay)
    {
      p := ProcessSingleLink(link, pageProtocol, now);
    }

    /** `processLinkBatch(links)` up to the point where every link of the batch has run to its
        first wait: nothing happens while highlighting is off; otherwise the links that are
        valid and not yet processed are each processed, in order. */
    method ProcessLinkBatch(links: seq<Link>, pageProtocol: string, now: int) returns (progress: seq<Progress>, ghost caches: seq<Cache>)
      requires Valid()
      modifies this, set l | l in links
      ensures Valid()
      ensures var valid := Filter(links, Eligible(old(config).protocols, pageProtocol, old(processedLinks)));
        && (!old(enabled) ==> progress == [] && processedLinks == old(processedLinks))
        && (old(enabled) ==> |progress| == |valid| && processedLinks == old(processedLinks) + set l | l in valid)
        && (old(enabled) ==> forall i :: 0 <= i < |valid| ==> (progress[i] == Skipped <==> valid[i] in valid[..i]))
        && (forall l :: l in links && l !in valid ==> l.State() == old(l.State()))
        && (old(enabled) ==>
              && |caches| == |valid| + 1 && caches[0] == old(CacheState()) && caches[|valid|] == CacheState()
              && BatchAs(progress, valid, caches, old(States(valid)), old(ClassNames(valid)), States(valid),
                         config.preserveClassChanges, now))
      ensures !old(enabled) ==> CacheState() == old(CacheState()) && forall l :: l in links ==> l.State() == old(l.State())
      ensures enabled == old(enabled) && config == old(config) && observing == old(observing) && gate == old(gate)
      ensures processingDelay == old(processingDelay) && maxLinksPerBatch == old(maxLinksPerBatch)
      ensures throttleDelay == old(throttleDelay)
    {
      progress := [];
      caches := [CacheState()];
      if !enabled || |links| == 0 {
        return;
      }
      var valid := Filter(links, Eligible(config.protocols, pageProtocol, processedLinks));
      progress, caches := ProcessEach(valid, pageProtocol, now);
    }

    /** One step of `ProcessEach`: `ProcessBatchItem` on the `i`-th link of the batch, which
        keeps `EachDone` going. */
    method ProcessNext(valid: seq<Link>, i: nat, pageProtocol: string, now: int,
                       ghost progress: seq<Progress>, ghost caches: seq<Cache>, ghost processed0: set<Link>,
                       ghost cache0: Cache, ghost befores: seq<LinkState>, ghost classNames: seq<string>)
      returns (p: Progress)
      requires Valid() && enabled && i < |valid| && valid[i] !in processed0
      requires IsValidLink(valid[i].facts, config.protocols, pageProtocol)
      requires EachDone(valid, i, progress, caches, processed0, processedLinks, cache0, CacheState(), befores, classNames,
                        States(valid), ClassNames(valid), config.preserveClassChanges, now)
      modifies this, valid[i]
      ensures Valid()
      ensures EachDone(valid, i + 1, progress + [p], caches + [CacheState()], processed0, processedLinks, cache0, CacheState(),
                       befores, classNames, States(valid), ClassNames(valid), config.preserveClassChanges, now)
      ensures enabled == old(enabled) && config == old(config) && observing == old(observing) && gate == old(gate)
      ensures processingDelay == old(processingDelay) && maxLinksPerBatch == old(maxLinksPerBatch)
      ensures throttleDelay == old(throttleDelay)
    {
      ghost var afters0, names0, processed, cache := States(valid), ClassNames(valid), processedLinks, CacheState();
      p := ProcessBatchItem(valid[i], pageProtocol, now);
      ghost var afters1, names1 := States(valid), ClassNames(valid);
      forall j | 0 <= j < |valid| && valid[j] != valid[i]
        ensures afters1[j] == afters0[j] && names1[j] == names0[j]
      {
      }
      forall j | 0 <= j < |valid| && p == Skipped
        ensures afters1[j] == afters0[j]
      {
      }
      EachDoneSnoc(valid, i, progress, caches, processed0, processed, cache0, cache, CacheState(), befores, classNames,
                   afters0, names0, afters1, names1, config.preserveClassChanges, now, p);
    }

    /** The links of a batch that passed the filter, processed in order; a link listed twice
        is skipped the second time. */
    method ProcessEach(valid: seq<Link>, pageProtocol: string, now: int) returns (progress: seq<Progress>, ghost caches: seq<Cache>)
      requires Valid() && enabled
      requires forall i {:trigger IsValidLink(valid[i].facts, config.protocols, pageProtocol)} :: 0 <= i < |valid| ==>
        IsValidLink(valid[i].facts, config.protocols, pageProtocol)
      requires forall i :: 0 <= i < |valid| ==> valid[i] !in processedLinks
      modifies this, set l | l in valid
      ensures Valid()
      ensures |progress| == |valid| && processedLinks == old(processedLinks) + set l | l in valid
      ensures forall i :: 0 <= i < |valid| ==> (progress[i] == Skipped <==> valid[i] in valid[..i])
      ensures |caches| == |valid| + 1 && caches[0] == old(CacheState()) && caches[|valid|] == CacheState()
      ensures BatchAs(progress, valid, caches, old(States(valid)), old(ClassNames(valid)), States(valid),
                      config.preserveClassChanges, now)
      ensures enabled == old(enabled) && config == old(config) && observing == old(observing) && gate == old(gate)
      ensures processingDelay == old(processingDelay) && maxLinksPerBatch == old(maxLinksPerBatch)
      ensures throttleDelay == old(throttleDelay)
    {
      progress := [];
      caches := [CacheState()];
      ghost var processed0 := processedLinks;
      ghost var befores := States(valid);
      ghost var classNames := ClassNames(valid);
      for i := 0 to |valid|
        invariant Valid()
        invariant enabled && config == old(config) && observing == old(observing) && gate == old(gate)
        invariant processingDelay == old(processingDelay) && maxLinksPerBatch == old(maxLinksPerBatch)
        invariant throttleDelay == old(throttleDelay)
        invariant EachDone(valid, i, progress, caches, processed0, processedLinks, old(CacheState()), CacheState(),
                           befores, classNames, States(valid), ClassNames(valid), config.preserveClassChanges, now)
      {
        var p := ProcessNext(valid, i, pageProtocol, now, progress, caches, processed0, old(CacheState()), befores, classNames);
        progress := progress + [p];
        caches := caches + [CacheState()];
      }
      EachDoneAll(valid, progress, caches, processed0, processedLinks, old(CacheState()), CacheState(), befores, classNames,
                  States(valid), ClassNames(valid), config.preserveClassChanges, now);
    }

    /** The observer callback: the mutation batch goes to the throttled or the immediate
        path, as the configuration says. */
    method OnMutations(ms: seq<Mutation<Link>>)
      requires Valid()
      modifies this
      ensures Valid()
      ensures gate == if config.throttleDynamicContent then Throttled(old(gate), ms) else Immediately(old(gate), ms)
      ensures enabled == old(enabled) && config == old(config) && observing == old(observing)
      ensures processedLinks == old(processedLinks) && CacheState() == old(CacheState())
      ensures processingDelay == old(processingDelay) && maxLinksPerBatch == old(maxLinksPerBatch)
      ensures throttleDelay == old(throttleDelay)
    {
      if !config.throttleDynamicContent {
        gate := Immediately(gate, ms);
      } else {
        gate := Throttled(gate, ms);
      }
    }

    /** The throttle timeout runs. */
    method OnTimer()
      requires Valid() && gate.timerPending.Some?
      modifies this
      ensures Valid()
      ensures gate == TimerFires(old(gate))
      ensures enabled == old(enabled) && config == old(config) && observing == old(observing)
      ensures processedLinks == old(processedLinks) && CacheState() == old(CacheState())
      ensures processingDelay == old(processingDelay) && maxLinksPerBatch == old(maxLinksPerBatch)
      ensures throttleDelay == old(throttleDelay)
    {
      gate := TimerFires(gate);
    }

    /** The animation frame runs `processMutations` on the mutations it captured: the links
        to hand to `processLinkBatch` after the 100 ms delay, if `dispatch`. */
    method OnFrame(pageProtocol: string) returns (newLinks: seq<Link>, dispatch: bool)
      requires Valid() && gate.framePending.Some?
      modifies this
      ensures Valid()
      ensures gate == FrameFires(old(gate)).0
      ensures newLinks == Dedup(Filter(Candidates(FrameFires(old(gate)).1), Eligible(config.protocols, pageProtocol, processedLinks)))
      ensures dispatch <==> |newLinks| > 0
      ensures enabled == old(enabled) && config == old(config) && observing == old(observing)
      ensures processedLinks == old(processedLinks) && CacheState() == old(CacheState())
      ensures processingDelay == old(processingDelay) && maxLinksPerBatch == old(maxLinksPerBatch)
      ensures throttleDelay == old(throttleDelay)
    {
      var fired := FrameFires(gate);
      gate := fired.0;
      newLinks, dispatch := ProcessMutations(fired.1, Eligible(config.protocols, pageProtocol, processedLinks));
    }

    /** The `toggleHighlighting` request: the flag is set, then highlighting is started or
        stopped. */
    method Toggle(on: bool, page: seq<Link>, pageProtocol: string) returns (selected: seq<Link>)
      requires Valid() && Distinct(page)
      modifies this, set l | l in page
      ensures Valid()
      ensures enabled == on && observing == on && processedLinks == {} && config == old(config)
      ensures on ==>
        && CacheState() == old(CacheState()) && gate == old(gate)
        && selected == SelectLinks(page, Eligible(config.protocols, pageProtocol, {}), config.maxLinksPerPage)
        && forall j :: 0 <= j < |page| ==> page[j].State() == old(page[j].State())
      ensures !on ==>
        && CacheState() == Clear(old(CacheState())) && gate == StopGate(old(gate)) && selected == []
        && forall j :: 0 <= j < |page| ==> page[j].State() == AfterRemoval(old(page[j].State()))
      ensures Settings(maxLinksPerBatch, processingDelay) ==
        ChainSettings(selected, on && config.adaptivePerformance, Settings(old(maxLinksPerBatch), old(processingDelay)))
      ensures throttleDelay == old(throttleDelay)
    {
      enabled := on;
      if on {
        selected := StartHighlighting(page, pageProtocol);
      } else {
        StopHighlighting(page);
        selected := [];
      }
    }

    /** The `updateConfig` request, given what storage answered: the configuration is
        reloaded and, when highlighting is on, restarted under it. */
    method UpdateConfig(stored: Option<Stored>, page: seq<Link>, pageProtocol: string) returns (selected: seq<Link>)
      requires Valid() && Distinct(page)
      modifies this, set l | l in page
      ensures Valid()
      ensures stored.Some? ==> config == LoadedConfig(old(config), stored.value) && enabled == NotFalse(stored.value.enabled)
      ensures stored.None? ==> config == old(config) && enabled == old(enabled)
      ensures enabled ==>
        && observing && processedLinks == {} && CacheState() == Clear(old(CacheState()))
        && gate == StopGate(old(gate))
        && selected == SelectLinks(page, Eligible(config.protocols, pageProtocol, {}), config.maxLinksPerPage)
        && forall j :: 0 <= j < |page| ==> page[j].State() == AfterRemoval(old(page[j].State()))
      ensures !enabled ==>
        && observing == old(observing) && processedLinks == old(processedLinks)
        && CacheState() == old(CacheState()) && gate == old(gate) && selected == []
        && forall j :: 0 <= j < |page| ==> page[j].State() == old(page[j].State())
      ensures var loaded := if stored.Some? then Settings(config.maxLinksPerBatch, config.processingDelay)
                            else Settings(old(maxLinksPerBatch), old(processingDelay));
        Settings(maxLinksPerBatch, processingDelay) ==
          if enabled then ChainSettings(selected, config.adaptivePerformance, loaded) else loaded
      ensures throttleDelay == if stored.Some? then config.throttleDelay else old(throttleDelay)
    {
      LoadConfig(stored);
      selected := RestartIfOn(page, pageProtocol);
    }

    /** The second half of the `updateConfig` request: when highlighting is on, a stop and a
        start under the configuration just loaded; when off, nothing. */
    method RestartIfOn(page: seq<Link>, pageProtocol: string) returns (selected: seq<Link>)
      requires Valid() && Distinct(page)
      modifies this, set l | l in page
      ensures Valid()
      ensures enabled == old(enabled) && config == old(config) && throttleDelay == old(throttleDelay)
      ensures enabled ==>
        && observing && processedLinks == {} && CacheState() == Clear(old(CacheState()))
        && gate == StopGate(old(gate))
        && selected == SelectLinks(page, Eligible(config.protocols, pageProtocol, {}), config.maxLinksPerPage)
        && forall j :: 0 <= j < |page| ==> page[j].State() == AfterRemoval(old(page[j].State()))
      ensures !enabled ==>
        && observing == old(observing) && processedLinks == old(processedLinks)
        && CacheState() == old(CacheState()) && gate == old(gate) && selected == []
        && forall j :: 0 <= j < |page| ==> page[j].State() == old(page[j].State())
      ensures Settings(maxLinksPerBatch, processingDelay) ==
        if enabled then ChainSettings(selected, config.adaptivePerformance, Settings(old(maxLinksPerBatch), old(processingDelay)))
        else Settings(old(maxLinksPerBatch), old(processingDelay))
    {
      selected := [];
      if enabled {
        selected := Refresh(page, pageProtocol);
      }
    }

    /** The `refresh` request: a stop and a start, whether or not highlighting is on. */
    method Refresh(page: seq<Link>, pageProtocol: string) returns (selected: seq<Link>)
      requires Valid() && Distinct(page)
      modifies this, set l | l in page
      ensures Valid()
      ensures enabled == old(enabled) && config == old(config)
      ensures observing && processedLinks == {} && CacheState() == Clear(old(CacheState())) && gate == StopGate(old(gate))
      ensures selected == SelectLinks(page, Eligible(config.protocols, pageProtocol, {}), config.maxLinksPerPage)
      ensures forall j :: 0 <= j < |page| ==> page[j].State() == AfterRemoval(old(page[j].State()))
      ensures Settings(maxLinksPerBatch, processingDelay) ==
        ChainSettings(selected, config.adaptivePerformance, Settings(old(maxLinksPerBatch), old(processingDelay)))
      ensures throttleDelay == old(throttleDelay)
    {
      StopHighlighting(page);
      selected := StartHighlighting(page, pageProtocol);
    }

    /** The `clearCache` request: the visit cache, the pending queries and the processed
        links are forgotten; links keep their classes. */
    method ClearCache()
      requires Valid()
      modifies this
      ensures Valid()
      ensures CacheState() == Clear(old(CacheState())) && processedLinks == {}
      ensures enabled == old(enabled) && config == old(config) && observing == old(observing) && gate == old(gate)
      ensures processingDelay == old(processingDelay) && maxLinksPerBatch == old(maxLinksPerBatch)
      ensures throttleDelay == old(throttleDelay)
    {
      visitCache := map[];
      pendingQueries := {};
      processedLinks := {};
    }

    /** The requests that stop or start highlighting: `toggleHighlighting`, `updateConfig`
        and `refresh`, each with the effects of the method it calls. */
    method HandleRestart(req: Request, page: seq<Link>, pageProtocol: string) returns (selected: seq<Link>)
      requires Valid() && Distinct(page)
      requires req.ToggleHighlighting? || req.UpdateConfig? || req.Refresh?
      modifies this, set l | l in page
      ensures Valid()
      ensures req.ToggleHighlighting? ==>
        enabled == req.enabled && observing == req.enabled && processedLinks == {} && config == old(config)
      ensures req.ToggleHighlighting? && req.enabled ==>
        && CacheState() == old(CacheState()) && gate == old(gate)
        && selected == SelectLinks(page, Eligible(config.protocols, pageProtocol, {}), config.maxLinksPerPage)
        && forall j :: 0 <= j < |page| ==> page[j].State() == old(page[j].State())
      ensures req.ToggleHighlighting? && !req.enabled ==>
        && CacheState() == Clear(old(CacheState())) && gate == StopGate(old(gate)) && selected == []
        && forall j :: 0 <= j < |page| ==> page[j].State() == AfterRemoval(old(page[j].State()))
      ensures req.UpdateConfig? && req.stored.Some? ==>
        config == LoadedConfig(old(config), req.stored.value) && enabled == NotFalse(req.stored.value.enabled)
      ensures req.UpdateConfig? && req.stored.None? ==> config == old(config) && enabled == old(enabled)
      ensures req.UpdateConfig? && enabled ==>
        && observing && processedLinks == {} && CacheState() == Clear(old(CacheState()))
        && gate == StopGate(old(gate))
        && selected == SelectLinks(page, Eligible(config.protocols, pageProtocol, {}), config.maxLinksPerPage)
        && forall j :: 0 <= j < |page| ==> page[j].State() == AfterRemoval(old(page[j].State()))
      ensures req.UpdateConfig? && !enabled ==>
        && observing == old(observing) && processedLinks == old(processedLinks)
        && CacheState() == old(CacheState()) && gate == old(gate) && selected == []
        && forall j :: 0 <= j < |page| ==> page[j].State() == old(page[j].State())
      ensures req.Refresh? ==>
        && observing && processedLinks == {} && CacheState() == Clear(old(CacheState())) && config == old(config)
        && enabled == old(enabled) && gate == StopGate(old(gate))
        && selected == SelectLinks(page, Eligible(config.protocols, pageProtocol, {}), config.maxLinksPerPage)
        && forall j :: 0 <= j < |page| ==> page[j].State() == AfterRemoval(old(page[j].State()))
      ensures req.ToggleHighlighting? ==>
        && Settings(maxLinksPerBatch, processingDelay) ==
             ChainSettings(selected, req.enabled && config.adaptivePerformance, Settings(old(maxLinksPerBatch), old(processingDelay)))
        && throttleDelay == old(throttleDelay)
      ensures req.UpdateConfig? ==>
        && (var loaded := if req.stored.Some? then Settings(config.maxLinksPerBatch, config.processingDelay)
                          else Settings(old(maxLinksPerBatch), old(processingDelay));
            Settings(maxLinksPerBatch, processingDelay) ==
              if enabled then ChainSettings(selected, config.adaptivePerformance, loaded) else loaded)
        && throttleDelay == if req.stored.Some? then config.throttleDelay else old(throttleDelay)
      ensures req.Refresh? ==>
        && Settings(maxLinksPerBatch, processingDelay) ==
             ChainSettings(selected, config.adaptivePerformance, Settings(old(maxLinksPerBatch), old(processingDelay)))
        && throttleDelay == old(throttleDelay)
    {
      match req
      case ToggleHighlighting(on) =>
        selected := Toggle(on, page, pageProtocol);
      case UpdateConfig(stored) =>
        selected := UpdateConfig(stored, page, pageProtocol);
      case Refresh =>
        selected := Refresh(page, pageProtocol);
    }

    /** The requests that neither stop nor start highlighting. */
    method HandleOther(req: Request) returns (resp: Response)
      requires Valid()
      requires !(req.ToggleHighlighting? || req.UpdateConfig? || req.Refresh?)
      modifies this
      ensures Valid()
      ensures resp == match req
        case GetConfig => ConfigReport(old(config), old(enabled), old(GetStats()))
        case Other => NoResponse
        case _ => Success
      ensures req.GetConfig? || req.MergeClassesTest? || req.Other? ==>
        && enabled == old(enabled) && config == old(config) && observing == old(observing)
        && processedLinks == old(processedLinks) && CacheState() == old(CacheState()) && gate == old(gate)
      ensures req.UpdatePerformance? ==>
        && config == (if req.settings.Some? then Updated(old(config), req.settings.value) else old(config))
        && enabled == old(enabled) && processedLinks == old(processedLinks) && CacheState() == old(CacheState())
      ensures req.UpdatePerformance? && req.settings.Some? ==>
        && processingDelay == req.settings.value.processingDelay.GetOr(old(processingDelay))
        && maxLinksPerBatch == req.settings.value.maxLinksPerBatch.GetOr(old(maxLinksPerBatch))
        && throttleDelay == req.settings.value.throttleDelay.GetOr(old(throttleDelay))
      ensures req.ClearCache? ==>
        && CacheState() == Clear(old(CacheState())) && processedLinks == {} && observing == old(observing)
        && enabled == old(enabled) && config == old(config) && gate == old(gate)
      ensures enabled == old(enabled) && observing == old(observing) && gate == old(gate)
      ensures !(req.UpdatePerformance? && req.settings.Some?) ==>
        processingDelay == old(processingDelay) && maxLinksPerBatch == old(maxLinksPerBatch)
        && throttleDelay == old(throttleDelay)
    {
      match req
      case GetConfig =>
        resp := ConfigReport(config, enabled, GetStats());
      case ClearCache =>
        ClearCache();
        resp := Success;
      case UpdatePerformance(settings) =>
        if settings.Some? {
          UpdatePerformanceSettings(settings.value);
        }
        resp := Success;
      case MergeClassesTest =>
        resp := Success;
      case Other =>
        resp := NoResponse;
    }

    /** The message listener. `page` is the page's `a[href]` elements; `selected` is what a
        (re)start hands to the batch chain. Every known request is answered with success,
        `getConfig` with the configuration, the flag and the statistics; an unknown one gets
        no answer. The effects of each request are those of the method it calls. */
    method HandleMessage(req: Request, page: seq<Link>, pageProtocol: string) returns (resp: Response, selected: seq<Link>)
      requires Valid() && Distinct(page)
      modifies this, set l | l in page
      ensures Valid()
      ensures resp == match req
        case GetConfig => ConfigReport(old(config), old(enabled), old(GetStats()))
        case Other => NoResponse
        case _ => Success
      ensures req.GetConfig? || req.MergeClassesTest? || req.Other? ==>
        && enabled == old(enabled) && config == old(config) && observing == old(observing)
        && processedLinks == old(processedLinks) && CacheState() == old(CacheState()) && gate == old(gate)
      ensures req.UpdatePerformance? ==>
        && config == (if req.settings.Some? then Updated(old(config), req.settings.value) else old(config))
        && enabled == old(enabled) && processedLinks == old(processedLinks) && CacheState() == old(CacheState())
      ensures req.UpdatePerformance? && req.settings.Some? ==>
        && processingDelay == req.settings.value.processingDelay.GetOr(old(processingDelay))
        && maxLinksPerBatch == req.settings.value.maxLinksPerBatch.GetOr(old(maxLinksPerBatch))
        && throttleDelay == req.settings.value.throttleDelay.GetOr(old(throttleDelay))
      ensures req.ToggleHighlighting? ==>
        enabled == req.enabled && observing == req.enabled && processedLinks == {} && config == old(config)
      ensures req.ToggleHighlighting? && req.enabled ==>
        && CacheState() == old(CacheState()) && gate == old(gate)
        && selected == SelectLinks(page, Eligible(config.protocols, pageProtocol, {}), config.maxLinksPerPage)
        && forall j :: 0 <= j < |page| ==> page[j].State() == old(page[j].State())
      ensures req.ToggleHighlighting? && !req.enabled ==>
        && CacheState() == Clear(old(CacheState())) && gate == StopGate(old(gate)) && selected == []
        && forall j :: 0 <= j < |page| ==> page[j].State() == AfterRemoval(old(page[j].State()))
      ensures req.UpdateConfig? && req.stored.Some? ==>
        config == LoadedConfig(old(config), req.stored.value) && enabled == NotFalse(req.stored.value.enabled)
      ensures req.UpdateConfig? && req.stored.None? ==> config == old(config) && enabled == old(enabled)
      ensures req.UpdateConfig? && enabled ==>
        && observing && processedLinks == {} && CacheState() == Clear(old(CacheState()))
        && gate == StopGate(old(gate))
        && selected == SelectLinks(page, Eligible(config.protocols, pageProtocol, {}), config.maxLinksPerPage)
        && forall j :: 0 <= j < |page| ==> page[j].State() == AfterRemoval(old(page[j].State()))
      ensures req.UpdateConfig? && !enabled ==>
        && observing == old(observing) && processedLinks == old(processedLinks)
        && CacheState() == old(CacheState()) && gate == old(gate) && selected == []
        && forall j :: 0 <= j < |page| ==> page[j].State() == old(page[j].State())
      ensures req.Refresh? ==>
        && observing && processedLinks == {} && CacheState() == Clear(old(CacheState())) && config == old(config)
        && enabled == old(enabled) && gate == StopGate(old(gate))
        && selected == SelectLinks(page, Eligible(config.protocols, pageProtocol, {}), config.maxLinksPerPage)
        && forall j :: 0 <= j < |page| ==> page[j].State() == AfterRemoval(old(page[j].State()))
      ensures req.ClearCache? ==>
        && CacheState() == Clear(old(CacheState())) && processedLinks == {} && observing == old(observing)
        && enabled == old(enabled) && config == old(config) && gate == old(gate)
      ensures req.ClearCache? || req.GetConfig? || req.MergeClassesTest? || req.Other? || req.UpdatePerformance? ==>
        forall j :: 0 <= j < |page| ==> page[j].State() == old(page[j].State())
      ensures req.UpdatePerformance? ==> observing == old(observing) && gate == old(gate)
      ensures req.ClearCache? || req.GetConfig? || req.MergeClassesTest? || req.Other? ||
              (req.UpdatePerformance? && req.settings.None?) ==>
        processingDelay == old(processingDelay) && maxLinksPerBatch == old(maxLinksPerBatch)
        && throttleDelay == old(throttleDelay)
      ensures req.ToggleHighlighting? ==>
        && Settings(maxLinksPerBatch, processingDelay) ==
             ChainSettings(selected, req.enabled && config.adaptivePerformance, Settings(old(maxLinksPerBatch), old(processingDelay)))
        && throttleDelay == old(throttleDelay)
      ensures req.UpdateConfig? ==>
        && (var loaded := if req.stored.Some? then Settings(config.maxLinksPerBatch, config.processingDelay)
                          else Settings(old(maxLinksPerBatch), old(processingDelay));
            Settings(maxLinksPerBatch, processingDelay) ==
              if enabled then ChainSettings(selected, config.adaptivePerformance, loaded) else loaded)
        && throttleDelay == if req.stored.Some? then config.throttleDelay else old(throttleDelay)
      ensures req.Refresh? ==>
        && Settings(maxLinksPerBatch, processingDelay) ==
             ChainSettings(selected, config.adaptivePerformance, Settings(old(maxLinksPerBatch), old(processingDelay)))
        && throttleDelay == old(throttleDelay)
    {
      if req.ToggleHighlighting? || req.UpdateConfig? || req.Refresh? {
        selected := HandleRestart(req, page, pageProtocol);
        resp := Success;
      } else {
        selected := [];
        resp := HandleOther(req);
      }
    }
  }

  /** The page-level state of `initializeLinkHighlighter`: the highlighter and the
      `cleanedUp` flag its cleanup closure checks. `destroyed` counts calls of `destroy()`. */
  class Page {
    var cleanedUp: bool
    var highlighter: LinkHighlighter?
    ghost var destroyed: nat

    ghost predicate Valid()
      reads this
    {
      && (!cleanedUp ==> destroyed == 0 && highlighter != null)
      && (cleanedUp ==> destroyed == 1 && highlighter == null)
    }

    constructor (h: LinkHighlighter)
      ensures Valid() && !cleanedUp && highlighter == h && destroyed == 0
    {
      cleanedUp := false;
      highlighter := h;
      destroyed := 0;
    }

    /** The cleanup closure: the first call destroys the highlighter, every later call
        returns at once; so the highlighter is destroyed exactly once. */
    method Cleanup(page: seq<Link>)
      requires Valid() && Distinct(page)
      requires highlighter != null ==> highlighter.Valid()
      modifies this, highlighter, set l | l in page
      ensures Valid() && cleanedUp && highlighter == null && destroyed == 1
      ensures old(cleanedUp) ==> destroyed == old(destroyed)
      ensures !old(cleanedUp) ==> !old(highlighter).observing && old(highlighter).processedLinks == {}
    {
      if cleanedUp {
        return;
      }
      cleanedUp := true;
      var h := highlighter;
      if h != null {
        h.Destroy(page);
        destroyed := destroyed + 1;
        highlighter := null;
      }
    }
  }
}
