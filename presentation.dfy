/** What the highlighter does to one anchor element: the six classes it owns, the optional
    merge with the classes stored when the link was first seen, the tooltip and accessible
    label, the stored originals in the element's dataset, and the undo `removeHighlights`
    performs. The element is a `Link` object whose fields the methods update in place; the
    pure functions beside it state what each step computes. */
module Presentation {
  import opened Seqs
  import opened Text
  import opened ClassList
  import opened Visits
  import opened UrlGate

  const Highlighted: string := "link-highlighter-highlighted"

  /** The classes `removeHighlighterClasses` and `removeHighlights` strip, in source order. */
  const HighlighterClasses: seq<string> :=
    [ClassName(Today), ClassName(Week), ClassName(Month), ClassName(Older), ClassName(Never), Highlighted]

  /** A class the merge treats as the highlighter's: any `link-highlighter-` class. */
  predicate IsOurs(c: string) {
    StartsWith(c, ClassPrefix)
  }

  predicate NotOurs(c: string) {
    !IsOurs(c)
  }

  /** A piece of the stored class string the merge keeps: not empty and not the highlighter's. */
  predicate IsPageClass(c: string) {
    c != [] && !IsOurs(c)
  }

  function Ours(ts: seq<string>): seq<string> {
    Filter(ts, IsOurs)
  }

  function Theirs(ts: seq<string>): seq<string> {
    Filter(ts, NotOurs)
  }

  /** `originalClasses.split(' ').filter(...)`: the stored class string's page classes. */
  function OriginalClasses(stored: string): seq<string> {
    Filter(SplitSpace(stored), IsPageClass)
  }

  /** `[...new Set([...originalClasses, ...currentClasses])]`. */
  function MergedClasses(stored: string, ts: seq<string>): seq<string> {
    Dedup(OriginalClasses(stored) + Theirs(ts))
  }

  /** A class list and whether the step finished without a DOMException. */
  datatype Outcome = Outcome(classes: seq<string>, ok: bool)

  /** `mergeOriginalClasses` on a class list: the page classes are removed, then the merged
      list is added. The addition throws when a stored piece holds whitespace other than a
      space; the removal has already happened by then. */
  function MergeClasses(ts: seq<string>, stored: string): Outcome {
    if AllTokens(OriginalClasses(stored)) then Outcome(Ours(ts) + MergedClasses(stored, ts), true)
    else Outcome(Ours(ts), false)
  }

  /** The stored class string `addHighlighterClasses` merges with, if it merges at all. */
  function MergeSource(preserve: bool, stored: Option<string>): Option<string> {
    if preserve && stored.GetOr("") != [] then stored else None
  }

  /** `addHighlighterClasses(link, type)` on a class list. */
  function AddClasses(ts: seq<string>, cat: Category, merge: Option<string>): Outcome {
    var added := With(ts, [ClassName(cat), Highlighted]);
    if merge.Some? then MergeClasses(added, merge.value) else Outcome(added, true)
  }

  /** `try { addHighlighterClasses(cat) } catch { addHighlighterClasses('never') }`; `ok` is
      false when the catch block threw as well. */
  function TryAddClasses(ts: seq<string>, cat: Category, merge: Option<string>): Outcome {
    var first := AddClasses(ts, cat, merge);
    if first.ok then first else AddClasses(first.classes, Never, merge)
  }

  /** `removeHighlights` leaves an `originalTitle` in place unless it is a non-empty string. */
  function RestoredTitle(stored: Option<string>, title: string): string {
    if stored.GetOr("") != [] then stored.value else title
  }

  /** `preserveOriginalAttributes` stores the title unless a non-empty one is already stored. */
  function PreservedTitle(stored: Option<string>, title: string): (r: Option<string>)
    ensures r.Some?
    ensures stored.GetOr("") != [] ==> r == stored
    ensures stored.GetOr("") == [] ==> r.value == title
  {
    if stored.GetOr("") == [] then Some(title) else stored
  }

  /** The `aria-label` left after `removeHighlights`: removed when it is a non-empty string
      holding `Visited`. */
  function ClearedAriaLabel(aria: Option<string>): Option<string> {
    if aria.Some? && aria.value != [] && Contains(aria.value, "Visited") then None else aria
  }

  /** What the highlighter reads and writes of an anchor: its class list, `title`,
      `aria-label` and the two dataset entries. */
  datatype LinkState = LinkState(
    classes: seq<string>,
    title: string,
    ariaLabel: Option<string>,
    originalTitle: Option<string>,
    originalClasses: Option<string>)

  /** One link after the `forEach` body of `removeHighlights`. */
  function AfterRemoval(s: LinkState): LinkState {
    LinkState(
      Without(s.classes, HighlighterClasses),
      RestoredTitle(s.originalTitle, s.title),
      ClearedAriaLabel(s.ariaLabel),
      if s.originalTitle.GetOr("") != [] then None else s.originalTitle,
      None)
  }

  /** Removing the highlight of a link twice is removing it once: a link listed twice ends as
      if listed once. */
  lemma AfterRemovalIdempotent(s: LinkState)
    ensures AfterRemoval(AfterRemoval(s)) == AfterRemoval(s)
  {
    WithoutTwice(s.classes, HighlighterClasses);
  }

  class Link {
    /** What `isValidLink` reads of the element. */
    const facts: LinkFacts
    const textContent: string
    /** The `class` attribute, `""` when absent. */
    var className: string
    /** The `title` property, `""` when absent. */
    var title: string
    var ariaLabel: Option<string>
    /** `dataset.originalTitle` and `dataset.originalClasses`. */
    var originalTitle: Option<string>
    var originalClasses: Option<string>

    constructor (facts: LinkFacts, textContent: string, className: string, title: string,
                 ariaLabel: Option<string>, originalTitle: Option<string>, originalClasses: Option<string>)
      ensures this.facts == facts && this.textContent == textContent
      ensures this.className == className && this.title == title && this.ariaLabel == ariaLabel
      ensures this.originalTitle == originalTitle && this.originalClasses == originalClasses
    {
      this.facts := facts;
      this.textContent := textContent;
      this.className := className;
      this.title := title;
      this.ariaLabel := ariaLabel;
      this.originalTitle := originalTitle;
      this.originalClasses := originalClasses;
    }

    /** `classList`. */
    function Classes(): seq<string>
      reads this`className
    {
      Tokens(className)
    }

    function State(): LinkState
      reads this
    {
      LinkState(Classes(), title, ariaLabel, originalTitle, originalClasses)
    }

    /** `removeHighlighterClasses`: the six highlighter classes go, every other class stays. */
    method RemoveHighlighterClasses()
      modifies this
      ensures Classes() == Without(old(Classes()), HighlighterClasses)
      ensures title == old(title) && ariaLabel == old(ariaLabel)
      ensures originalTitle == old(originalTitle) && originalClasses == old(originalClasses)
    {
      HighlighterClassesAreTokens();
      className := RemoveFrom(className, HighlighterClasses).value;
    }

    /** `mergeOriginalClasses`: the page classes become the merge of the stored and the current
        ones; `ok` is false when `classList.add` threw, the page classes being gone already. */
    method MergeOriginalClasses() returns (ok: bool)
      requires originalClasses.Some?
      modifies this
      ensures originalTitle == old(originalTitle) && originalClasses == old(originalClasses)
      ensures Outcome(Classes(), ok) == MergeClasses(old(Classes()), originalClasses.value)
      ensures title == old(title) && ariaLabel == old(ariaLabel)
    {
      var stored := originalClasses.value;
      var current := Theirs(Classes());
      var merged := Dedup(OriginalClasses(stored) + current);
      MergeSteps(className, stored);
      className := RemoveFrom(className, current).value;
      var added := AddTo(className, merged);
      if added.Some? {
        className := added.value;
        ok := true;
      } else {
        ok := false;
      }
    }

    /** `addHighlighterClasses(link, type)`: the category class and the marker class are
        added, then the merge runs when class preservation is on and classes were stored. */
    method AddHighlighterClasses(cat: Category, preserve: bool) returns (ok: bool)
      modifies this
      ensures Outcome(Classes(), ok) == AddClasses(old(Classes()), cat, MergeSource(preserve, originalClasses))
      ensures title == old(title) && ariaLabel == old(ariaLabel)
      ensures originalTitle == old(originalTitle) && originalClasses == old(originalClasses)
    {
      CategoryClassIsToken(cat);
      className := AddTo(className, [ClassName(cat), Highlighted]).value;
      ok := true;
      if preserve && originalClasses.GetOr("") != [] {
        ok := MergeOriginalClasses();
      }
    }

    /** The `try`/`catch` around adding a category: on an exception the catch block adds
        `never`; `settled` is false when that threw too. */
    method AddCategory(cat: Category, preserve: bool) returns (settled: bool)
      modifies this
      ensures Outcome(Classes(), settled) == TryAddClasses(old(Classes()), cat, MergeSource(preserve, originalClasses))
      ensures title == old(title) && ariaLabel == old(ariaLabel)
      ensures originalTitle == old(originalTitle) && originalClasses == old(originalClasses)
    {
      settled := AddHighlighterClasses(cat, preserve);
      if !settled {
        settled := AddHighlighterClasses(Never, preserve);
      }
    }

    /** `preserveOriginalAttributes`: the title is stored unless a non-empty one is stored
        already, and with class preservation on so is the class attribute. */
    method PreserveOriginalAttributes(preserve: bool)
      modifies this
      ensures originalTitle == PreservedTitle(old(originalTitle), title)
      ensures originalClasses ==
        if preserve && old(originalClasses).GetOr("") == [] then Some(className) else old(originalClasses)
      ensures className == old(className) && title == old(title) && ariaLabel == old(ariaLabel)
    {
      if originalTitle.GetOr("") == [] {
        originalTitle := Some(title);
      }
      if preserve && originalClasses.GetOr("") == [] {
        originalClasses := Some(className);
      }
    }

    /** `updateLinkTitle`: the tooltip gets the visit summary after the stored title, and the
        `aria-label` the link text followed by the summary. */
    method UpdateLinkTitle(v: VisitData, now: int)
      modifies this
      ensures title == TitleFor(originalTitle, HighlighterText(v, now))
      ensures ariaLabel == Some(AriaLabelFor(textContent, HighlighterText(v, now)))
      ensures className == old(className)
      ensures originalTitle == old(originalTitle) && originalClasses == old(originalClasses)
    {
      var text := HighlighterText(v, now);
      title := TitleFor(originalTitle, text);
      ariaLabel := Some(AriaLabelFor(textContent, text));
    }

    /** The work after the visit query of `applyRealHighlightClass` settles: `answer` is `None`
        when the query rejected. The title is only updated when adding the category class
        did not throw. */
    method FinishHighlight(answer: Option<VisitData>, now: int, preserve: bool) returns (settled: bool)
      modifies this
      ensures answer.None? ==>
        Outcome(Classes(), settled) == AddClasses(old(Classes()), Never, MergeSource(preserve, originalClasses))
        && title == old(title) && ariaLabel == old(ariaLabel)
      ensures answer.Some? ==>
        var first := AddClasses(old(Classes()), DetermineHighlightClass(answer.value, now), MergeSource(preserve, originalClasses));
        && Outcome(Classes(), settled) == TryAddClasses(old(Classes()), DetermineHighlightClass(answer.value, now), MergeSource(preserve, originalClasses))
        && (first.ok ==>
              title == TitleFor(originalTitle, HighlighterText(answer.value, now))
              && ariaLabel == Some(AriaLabelFor(textContent, HighlighterText(answer.value, now))))
        && (!first.ok ==> title == old(title) && ariaLabel == old(ariaLabel))
      ensures originalTitle == old(originalTitle) && originalClasses == old(originalClasses)
    {
      if answer.None? {
        settled := AddHighlighterClasses(Never, preserve);
      } else {
        var cat := DetermineHighlightClass(answer.value, now);
        settled := AddHighlighterClasses(cat, preserve);
        if settled {
          UpdateLinkTitle(answer.value, now);
        } else {
          settled := AddHighlighterClasses(Never, preserve);
        }
      }
    }

    /** The body of the `forEach` in `removeHighlights` for this link. */
    method RemoveHighlight()
      modifies this
      ensures State() == AfterRemoval(old(State()))
    {
      ghost var before := State();
      RemoveHighlighterClasses();
      ghost var classes := Classes();
      if originalTitle.GetOr("") != [] {
        title := originalTitle.value;
        originalTitle := None;
      }
      if ariaLabel.Some? && ariaLabel.value != [] && Contains(ariaLabel.value, "Visited") {
        ariaLabel := None;
      }
      originalClasses := None;
      assert Classes() == classes == AfterRemoval(before).classes;
      assert title == AfterRemoval(before).title && originalTitle == AfterRemoval(before).originalTitle;
      assert ariaLabel == AfterRemoval(before).ariaLabel;
    }
  }

  // ---------------------------------------------------------------------------------------
  // Facts the methods rely on

  lemma ClassNameIsToken(cat: Category)
    ensures IsToken(ClassName(cat)) && IsToken(Highlighted)
  {
    assert IsToken(ClassPrefix);
    assert IsToken(cat.Suffix()) by {
      match cat
      case Today =>
      case Week =>
      case Month =>
      case Older =>
      case Never =>
    }
    TokenJoin(ClassPrefix, cat.Suffix());
    assert IsToken("highlighted");
    assert Highlighted == ClassPrefix + "highlighted";
    TokenJoin(ClassPrefix, "highlighted");
  }

  lemma CategoryClassIsToken(cat: Category)
    ensures AllTokens([ClassName(cat), Highlighted])
  {
    ClassNameIsToken(cat);
  }

  lemma HighlighterClassesAreTokens()
    ensures AllTokens(HighlighterClasses)
  {
    ClassNameIsToken(Today);
    ClassNameIsToken(Week);
    ClassNameIsToken(Month);
    ClassNameIsToken(Older);
    ClassNameIsToken(Never);
  }

  /** The two `classList` calls of `mergeOriginalClasses`, on the attribute: the removal of
      the page classes always succeeds and leaves the highlighter classes; the addition of the
      merged list then succeeds exactly when the stored pieces are valid tokens, and appends
      the merged list. */
  lemma MergeSteps(attr: string, stored: string)
    ensures var ts := Tokens(attr);
      var current := Theirs(ts);
      var removed := RemoveFrom(attr, current);
      && removed.Some? && Tokens(removed.value) == Ours(ts)
      && var added := AddTo(removed.value, Dedup(OriginalClasses(stored) + current));
      && (added.Some? <==> AllTokens(OriginalClasses(stored)))
      && (added.Some? ==> Tokens(added.value) == Ours(ts) + MergedClasses(stored, ts))
  {
    var ts := Tokens(attr);
    var current := Theirs(ts);
    FilterTokens(ts, NotOurs);
    WithoutTheirs(ts);
    var merged := Dedup(OriginalClasses(stored) + current);
    MergedTokens(OriginalClasses(stored), current);
    OursThenTheirs(ts, merged);
  }

  /** Removing a list's page classes leaves its highlighter classes. */
  lemma WithoutTheirs(ts: seq<string>)
    ensures Without(ts, Theirs(ts)) == Ours(ts)
  {
    FilterAgree(ts, t => t !in Theirs(ts), IsOurs);
  }

  /** The merged list is a list of valid tokens exactly when the stored pieces are. */
  lemma MergedTokens(original: seq<string>, current: seq<string>)
    requires AllTokens(current)
    ensures AllTokens(Dedup(original + current)) <==> AllTokens(original)
  {
    var merged := Dedup(original + current);
    if AllTokens(original) {
      forall i | 0 <= i < |merged|
        ensures IsToken(merged[i])
      {
        var j :| 0 <= j < |original + current| && (original + current)[j] == merged[i];
      }
    } else {
      var i :| 0 <= i < |original| && !IsToken(original[i]);
      assert (original + current)[i] == original[i];
    }
  }

  /** Adding page classes to a list of highlighter classes appends them. */
  lemma OursThenTheirs(ts: seq<string>, merged: seq<string>)
    requires Distinct(ts) && Distinct(merged)
    requires forall i :: 0 <= i < |merged| ==> NotOurs(merged[i])
    ensures With(Ours(ts), merged) == Ours(ts) + merged
  {
    FilterDistinct(ts, IsOurs);
    WithFresh(Ours(ts), merged);
  }

  // ---------------------------------------------------------------------------------------
  // What applying and removing a highlight promise

  lemma ClassNameFacts(c: Category)
    ensures IsOurs(ClassName(c)) && ClassName(c) in HighlighterClasses
    ensures ClassName(c) != Highlighted
    ensures IsOurs(Highlighted) && Highlighted in HighlighterClasses
  {
    assert |ClassName(c)| < |Highlighted|;
  }

  lemma ClassNameInjective(c1: Category, c2: Category)
    ensures ClassName(c1) == ClassName(c2) ==> c1 == c2
  {
    assert ClassName(c1)[17..] == c1.Suffix() && ClassName(c2)[17..] == c2.Suffix();
  }

  lemma {:induction false} FilterNone<T>(xs: seq<T>, keep: T -> bool)
    requires forall i :: 0 <= i < |xs| ==> !keep(xs[i])
    ensures Filter(xs, keep) == []
    decreases |xs|
  {
    if xs != [] {
      FilterNone(xs[..|xs| - 1], keep);
    }
  }

  /** Dropping classes the highlighter owns does not change the page classes. */
  lemma {:induction false} TheirsWithout(ts: seq<string>, xs: seq<string>)
    requires forall i :: 0 <= i < |xs| ==> IsOurs(xs[i])
    ensures Theirs(Without(ts, xs)) == Theirs(ts)
    decreases |ts|
  {
    if ts != [] {
      var init := ts[..|ts| - 1];
      var last := ts[|ts| - 1];
      TheirsWithout(init, xs);
      assert init + [last] == ts;
      FilterAppend(init, [last], t => t !in xs);
      FilterAppend(Filter(init, t => t !in xs), Filter([last], t => t !in xs), NotOurs);
      FilterAppend(init, [last], NotOurs);
    }
  }

  lemma HighlighterClassesAreOurs()
    ensures forall i :: 0 <= i < |HighlighterClasses| ==> IsOurs(HighlighterClasses[i])
  {
  }

  /** With the highlighter classes gone, adding `cat` and the marker appends them. */
  lemma AddedAfterRemoval(ts: seq<string>, cat: Category)
    requires Distinct(ts)
    ensures var base := Without(ts, HighlighterClasses);
      With(base, [ClassName(cat), Highlighted]) == base + [ClassName(cat), Highlighted]
  {
    ClassNameFacts(cat);
    var base := Without(ts, HighlighterClasses);
    FilterDistinct(ts, t => t !in HighlighterClasses);
    WithFresh(base, [ClassName(cat), Highlighted]);
  }

  /** Appending `cat` and the marker adds them to the highlighter classes and leaves the page
      classes alone. */
  lemma SplitOfAdded(base: seq<string>, cat: Category)
    ensures Ours(base + [ClassName(cat), Highlighted]) == Ours(base) + [ClassName(cat), Highlighted]
    ensures Theirs(base + [ClassName(cat), Highlighted]) == Theirs(base)
  {
    ClassNameFacts(cat);
    var pair := [ClassName(cat), Highlighted];
    assert forall i :: 0 <= i < |pair| ==> IsOurs(pair[i]);
    FilterAppend(base, pair, IsOurs);
    FilterAll(pair, IsOurs);
    assert Ours(base + pair) == Ours(base) + pair;
    FilterAppend(base, pair, NotOurs);
    FilterNone(pair, NotOurs);
    assert Theirs(base + pair) == Theirs(base) + [];
  }

  /** The merged page classes hold no highlighter class. */
  lemma MergedAreTheirs(stored: string, ts: seq<string>)
    ensures forall i :: 0 <= i < |MergedClasses(stored, ts)| ==> NotOurs(MergedClasses(stored, ts)[i])
  {
  }

  /** Highlighter classes followed by page classes split back into the two. */
  lemma SplitOfJoined(ours: seq<string>, theirs: seq<string>)
    requires forall i :: 0 <= i < |ours| ==> IsOurs(ours[i])
    requires forall i :: 0 <= i < |theirs| ==> NotOurs(theirs[i])
    ensures Ours(ours + theirs) == ours && Theirs(ours + theirs) == theirs
  {
    FilterAppend(ours, theirs, IsOurs);
    FilterAppend(ours, theirs, NotOurs);
    FilterAll(ours, IsOurs);
    FilterAll(theirs, NotOurs);
    FilterNone(theirs, IsOurs);
    FilterNone(ours, NotOurs);
  }

  /** After `applyRealHighlightClass` with a category, when no `classList` call throws: the
      element carries exactly that category class and the marker class after its other
      highlighter-prefixed classes, and its page classes are the current ones or, when merging,
      the duplicate-free union of the stored and the current ones. */
  lemma ApplyLeavesOneCategory(attr: string, cat: Category, merge: Option<string>)
    requires merge.None? || AllTokens(OriginalClasses(merge.value))
    ensures var ts := Tokens(attr);
      var o := TryAddClasses(Without(ts, HighlighterClasses), cat, merge);
      && o.ok
      && Highlighted in o.classes
      && (forall c: Category :: ClassName(c) in o.classes <==> c == cat)
      && Ours(o.classes) == Ours(Without(ts, HighlighterClasses)) + [ClassName(cat), Highlighted]
      && Theirs(o.classes) == if merge.Some? then MergedClasses(merge.value, ts) else Theirs(ts)
  {
    var ts := Tokens(attr);
    var base := Without(ts, HighlighterClasses);
    var pair := [ClassName(cat), Highlighted];
    var added := base + pair;
    AddedAfterRemoval(ts, cat);
    SplitOfAdded(base, cat);
    HighlighterClassesAreOurs();
    TheirsWithout(ts, HighlighterClasses);
    var o := TryAddClasses(base, cat, merge);
    assert o == AddClasses(base, cat, merge);
    if merge.Some? {
      var merged := MergedClasses(merge.value, added);
      MergedAreTheirs(merge.value, added);
      assert o.classes == Ours(added) + merged;
      SplitOfJoined(Ours(added), merged);
    } else {
      assert o.classes == added;
    }
    OnlyCategory(base, cat, o.classes);
  }

  /** A class list whose highlighter classes are those of `base`, which holds none of the six,
      then `cat` and the marker, holds the class of `cat` and of no other category. */
  lemma OnlyCategory(base: seq<string>, cat: Category, classes: seq<string>)
    requires forall t :: t in base ==> t !in HighlighterClasses
    requires Ours(classes) == Ours(base) + [ClassName(cat), Highlighted]
    ensures forall c: Category :: ClassName(c) in classes <==> c == cat
  {
    forall c: Category
      ensures ClassName(c) in classes <==> c == cat
    {
      ClassNameFacts(c);
      ClassNameInjective(c, cat);
      assert ClassName(c) in classes <==> ClassName(c) in Ours(classes);
      assert ClassName(c) !in Ours(base);
    }
  }

  /** When a stored piece holds a tab or a line break, `classList.add` throws inside the merge
      after the page classes were removed; the catch block adds `never` and throws again. The
      element ends with no page class and with two category classes. */
  lemma MergeFailureLosesPageClasses(attr: string, cat: Category, stored: string)
    requires !AllTokens(OriginalClasses(stored))
    ensures var o := TryAddClasses(Without(Tokens(attr), HighlighterClasses), cat, Some(stored));
      && !o.ok
      && Theirs(o.classes) == []
      && ClassName(cat) in o.classes && ClassName(Never) in o.classes && Highlighted in o.classes
  {
    var ts := Tokens(attr);
    var base := Without(ts, HighlighterClasses);
    var added := With(base, [ClassName(cat), Highlighted]);
    var first := Ours(added);
    var added2 := With(first, [ClassName(Never), Highlighted]);
    ClassNameFacts(cat);
    ClassNameFacts(Never);
    assert ClassName(cat) in added && ClassName(cat) in first && ClassName(cat) in added2;
    assert ClassName(Never) in added2 && Highlighted in added2;
    var o := Ours(added2);
    assert TryAddClasses(base, cat, Some(stored)) == Outcome(o, false);
    FilterNone(o, NotOurs);
  }

  /** A class attribute written with a tab between two classes, as stored, cannot be merged. */
  lemma TabSeparatedClassesCannotMerge()
    ensures !AllTokens(OriginalClasses("btn\tprimary"))
  {
    var stored := "btn\tprimary";
    assert ' ' !in stored;
    assert SplitSpace(stored) == [stored];
    assert IsPageClass(stored);
    FilterAll([stored], IsPageClass);
    assert !IsToken(stored) by {
      assert IsAsciiWhitespace(stored[3]);
    }
  }

  /** Removing a highlight applied without merging gives back the class list as it was with
      the highlighter's classes dropped. */
  lemma RemoveUndoesApply(attr: string, cat: Category)
    ensures var base := Without(Tokens(attr), HighlighterClasses);
      Without(TryAddClasses(base, cat, None).classes, HighlighterClasses) == base
  {
    var ts := Tokens(attr);
    var base := Without(ts, HighlighterClasses);
    var pair := [ClassName(cat), Highlighted];
    AddedAfterRemoval(ts, cat);
    ClassNameFacts(cat);
    FilterAppend(base, pair, t => t !in HighlighterClasses);
    FilterAll(base, t => t !in HighlighterClasses);
    FilterNone(pair, t => t !in HighlighterClasses);
  }

  /** A non-empty title survives a highlight and its removal. */
  lemma TitleRestored(t: string, text: string)
    requires t != []
    ensures var stored := PreservedTitle(None, t);
      RestoredTitle(stored, TitleFor(stored, text)) == t
  {
  }

  /** An empty title is stored as the empty string, which later passes treat as nothing
      stored: removal leaves the highlighter's text as the title, and the next pass stores that
      text as the original and prefixes it to the new text. */
  lemma EmptyTitleAccumulates(text1: string, text2: string)
    requires text1 != []
    ensures var stored := PreservedTitle(None, "");
      var title1 := TitleFor(stored, text1);
      var afterRemoval := RestoredTitle(stored, title1);
      && stored == Some("")
      && afterRemoval == text1
      && PreservedTitle(stored, afterRemoval) == Some(text1)
      && TitleFor(PreservedTitle(stored, afterRemoval), text2) == text1 + " | " + text2
  {
  }

  /** `removeHighlights` removes the label the highlighter wrote exactly when the link was
      visited: the `Never visited` label stays (for link text without the word `Visited`). */
  lemma LabelClearedIffVisited(textContent: string, v: VisitData, now: int)
    requires !Contains(textContent, "Visited")
    ensures var aria := Some(AriaLabelFor(textContent, HighlighterText(v, now)));
      ClearedAriaLabel(aria) == if Visited(v) then None else aria
  {
    LabelMentionsVisited(textContent, v, now);
  }
}
