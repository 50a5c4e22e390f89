/** The part of the DOM's `class` attribute handling the highlighter depends on. The element
    keeps the raw attribute text; `classList` is the ordered set of its whitespace-separated
    words; `classList.add`/`remove` first validate every argument (no empty string, no ASCII
    whitespace, else a DOMException and no change), then edit the set and write it back as
    the attribute, joined by single spaces. Also JavaScript's `String.prototype.split(' ')`. */
module ClassList {
  import opened Seqs

  predicate IsAsciiWhitespace(c: char) {
    c == ' ' || c == '\t' || c == '\n' || c == '\r' || c == '\U{000C}'
  }

  /** A string `classList.add` and `remove` accept: not empty, no ASCII whitespace. */
  predicate IsToken(t: string) {
    |t| > 0 && forall i :: 0 <= i < |t| ==> !IsAsciiWhitespace(t[i])
  }

  lemma TokenJoin(a: string, b: string)
    requires IsToken(a) && IsToken(b)
    ensures IsToken(a + b)
  {
    forall i | 0 <= i < |a + b|
      ensures !IsAsciiWhitespace((a + b)[i])
    {
      if i < |a| {
        assert (a + b)[i] == a[i];
      } else {
        assert (a + b)[i] == b[i - |a|];
      }
    }
  }

  predicate AllTokens(ts: seq<string>) {
    forall i :: 0 <= i < |ts| ==> IsToken(ts[i])
  }

  /** Number of whitespace characters at the start of `s`. */
  function SpaceRun(s: string): (n: nat)
    ensures n <= |s|
    ensures forall i :: 0 <= i < n ==> IsAsciiWhitespace(s[i])
    ensures n == |s| || !IsAsciiWhitespace(s[n])
    decreases |s|
  {
    if s == [] || !IsAsciiWhitespace(s[0]) then 0 else 1 + SpaceRun(s[1..])
  }

  /** Number of non-whitespace characters at the start of `s`. */
  function WordRun(s: string): (n: nat)
    ensures n <= |s|
    ensures forall i :: 0 <= i < n ==> !IsAsciiWhitespace(s[i])
    ensures n == |s| || IsAsciiWhitespace(s[n])
    decreases |s|
  {
    if s == [] || IsAsciiWhitespace(s[0]) then 0 else 1 + WordRun(s[1..])
  }

  /** The words of an attribute value: its maximal runs of non-whitespace characters. */
  function Words(s: string): (ws: seq<string>)
    ensures AllTokens(ws)
    decreases |s|
  {
    var k := SpaceRun(s);
    if k == |s| then []
    else
      var rest := s[k..];
      var w := WordRun(rest);
      [rest[..w]] + Words(rest[w..])
  }

  predicate AllWhitespace(g: string) {
    forall i :: 0 <= i < |g| ==> IsAsciiWhitespace(g[i])
  }

  /** The whitespace runs around and between the words of `s`: the first and the last may be
      empty, the ones between two words are not. */
  function Gaps(s: string): seq<string>
    decreases |s|
  {
    var k := SpaceRun(s);
    if k == |s| then [s]
    else
      var rest := s[k..];
      [s[..k]] + Gaps(rest[WordRun(rest)..])
  }

  /** `gs[0] + ws[0] + gs[1] + ws[1] + ... + gs[n]`. */
  function Interleave(gs: seq<string>, ws: seq<string>): string
    requires |gs| == |ws| + 1
    decreases |ws|
  {
    if ws == [] then gs[0] else gs[0] + ws[0] + Interleave(gs[1..], ws[1..])
  }

  /** An attribute is its words separated by non-empty whitespace runs, with optional
      whitespace at both ends. Such a split is unique, so this characterises `Words`: each
      word is a maximal run of non-whitespace characters, and every such run is a word, in
      order. */
  lemma WordsSplitAttribute(s: string)
    ensures |Gaps(s)| == |Words(s)| + 1
    ensures s == Interleave(Gaps(s), Words(s))
    ensures forall i :: 0 <= i < |Gaps(s)| ==> AllWhitespace(Gaps(s)[i])
    ensures forall i :: 0 < i < |Words(s)| ==> Gaps(s)[i] != []
  {
    InterleaveGapsWords(s);
    GapsAreWhitespace(s);
    InnerGapsNonEmpty(s);
  }

  lemma {:induction false} InterleaveGapsWords(s: string)
    ensures |Gaps(s)| == |Words(s)| + 1
    ensures s == Interleave(Gaps(s), Words(s))
    decreases |s|
  {
    var k := SpaceRun(s);
    if k < |s| {
      var rest := s[k..];
      var w := WordRun(rest);
      var tail := rest[w..];
      InterleaveGapsWords(tail);
      var gs, ws := Gaps(s), Words(s);
      assert gs == [s[..k]] + Gaps(tail);
      assert ws == [rest[..w]] + Words(tail);
      assert gs[1..] == Gaps(tail) && ws[1..] == Words(tail);
      calc {
        Interleave(gs, ws);
        gs[0] + ws[0] + Interleave(gs[1..], ws[1..]);
        s[..k] + rest[..w] + tail;
        { SplitTwice(s, k, w); }
        s;
      }
    }
  }

  lemma SplitTwice<T>(s: seq<T>, k: nat, w: nat)
    requires k <= |s| && w <= |s| - k
    ensures s == s[..k] + s[k..][..w] + s[k..][w..]
  {
    assert s[k..] == s[k..][..w] + s[k..][w..];
    assert s == s[..k] + s[k..];
  }

  lemma {:induction false} GapsAreWhitespace(s: string)
    ensures forall i :: 0 <= i < |Gaps(s)| ==> AllWhitespace(Gaps(s)[i])
    decreases |s|
  {
    var k := SpaceRun(s);
    if k < |s| {
      var rest := s[k..];
      var tail := rest[WordRun(rest)..];
      GapsAreWhitespace(tail);
      assert Gaps(s)[1..] == Gaps(tail);
    }
  }

  lemma {:induction false} InnerGapsNonEmpty(s: string)
    ensures |Gaps(s)| == |Words(s)| + 1
    ensures forall i :: 0 < i < |Words(s)| ==> Gaps(s)[i] != []
    decreases |s|
  {
    var k := SpaceRun(s);
    if k < |s| {
      var rest := s[k..];
      var w := WordRun(rest);
      var tail := rest[w..];
      InnerGapsNonEmpty(tail);
      var gs, ws := Gaps(s), Words(s);
      assert gs[1..] == Gaps(tail) && ws[1..] == Words(tail);
      if |ws| > 1 {
        assert SpaceRun(tail) > 0;
      }
    }
  }

  /** `classList` of an element whose `class` attribute is `attr`: each word once, in order of
      first occurrence. */
  function Tokens(attr: string): (ts: seq<string>)
    ensures Distinct(ts) && AllTokens(ts)
    ensures forall t :: t in ts <==> t in Words(attr)
  {
    Dedup(Words(attr))
  }

  /** `ts.join(' ')`. */
  function Join(ts: seq<string>): string
    decreases |ts|
  {
    if ts == [] then "" else if |ts| == 1 then ts[0] else ts[0] + (" " + Join(ts[1..]))
  }

  /** Reading back a joined list of tokens gives the list again. */
  lemma {:induction false} WordsOfJoin(ts: seq<string>)
    requires AllTokens(ts)
    ensures Words(Join(ts)) == ts
    decreases |ts|
  {
    if |ts| == 1 {
      WordsOfTokenThen(ts[0], []);
      assert ts[0] + [] == ts[0];
    } else if |ts| > 1 {
      var tail := ts[1..];
      assert AllTokens(tail);
      WordsOfJoin(tail);
      WordsOfCons(ts[0], Join(tail), tail);
      assert [ts[0]] + tail == ts;
    }
  }

  lemma WordsOfCons(t: string, j: string, tail: seq<string>)
    requires IsToken(t) && Words(j) == tail
    ensures Words(t + (" " + j)) == [t] + tail
  {
    WordsOfTokenThen(t, " " + j);
    WordsSkipSpace(j);
  }

  /** A token followed by whitespace or nothing is the first word. */
  lemma WordsOfTokenThen(t: string, rest: string)
    requires IsToken(t)
    requires rest == [] || IsAsciiWhitespace(rest[0])
    ensures Words(t + rest) == [t] + Words(rest)
  {
    var s := t + rest;
    WordRunOfToken(t, rest);
    assert s[0..] == s;
    assert s[..|t|] == t && s[|t|..] == rest;
  }

  lemma {:induction false} WordRunOfToken(t: string, rest: string)
    requires IsToken(t)
    requires rest == [] || IsAsciiWhitespace(rest[0])
    ensures SpaceRun(t + rest) == 0 && WordRun(t + rest) == |t|
    decreases |t|
  {
    if |t| > 1 {
      assert (t + rest)[1..] == t[1..] + rest;
      WordRunOfToken(t[1..], rest);
    } else {
      assert (t + rest)[1..] == rest;
    }
  }

  lemma WordsSkipSpace(s: string)
    ensures Words(" " + s) == Words(s)
  {
    var t := " " + s;
    assert t[1..] == s;
    assert SpaceRun(t) == 1 + SpaceRun(s);
    assert t[SpaceRun(t)..] == s[SpaceRun(s)..];
  }

  /** The `classList` of an attribute written from a list of distinct tokens is that list. */
  lemma TokensOfJoin(ts: seq<string>)
    requires AllTokens(ts) && Distinct(ts)
    ensures Tokens(Join(ts)) == ts
  {
    WordsOfJoin(ts);
    DedupOfDistinct(ts);
  }

  lemma {:induction false} FilterDistinct<T>(xs: seq<T>, keep: T -> bool)
    requires Distinct(xs)
    ensures Distinct(Filter(xs, keep))
    decreases |xs|
  {
    if xs != [] {
      var init := xs[..|xs| - 1];
      assert Distinct(init);
      FilterDistinct(init, keep);
    }
  }

  lemma {:induction false} FilterTokens(xs: seq<string>, keep: string -> bool)
    requires AllTokens(xs)
    ensures AllTokens(Filter(xs, keep))
    decreases |xs|
  {
    if xs != [] {
      FilterTokens(xs[..|xs| - 1], keep);
    }
  }

  /** Two tests that agree on every element keep the same elements. */
  lemma {:induction false} FilterAgree<T>(xs: seq<T>, p: T -> bool, q: T -> bool)
    requires forall i :: 0 <= i < |xs| ==> p(xs[i]) == q(xs[i])
    ensures Filter(xs, p) == Filter(xs, q)
    decreases |xs|
  {
    if xs != [] {
      FilterAgree(xs[..|xs| - 1], p, q);
    }
  }

  /** A test every element passes keeps the whole sequence. */
  lemma {:induction false} FilterAll<T>(xs: seq<T>, keep: T -> bool)
    requires forall i :: 0 <= i < |xs| ==> keep(xs[i])
    ensures Filter(xs, keep) == xs
    decreases |xs|
  {
    if xs != [] {
      FilterAll(xs[..|xs| - 1], keep);
    }
  }

  /** The tokens of `ts` that are not among `xs`, in order: the set after `remove(...xs)`. */
  function Without(ts: seq<string>, xs: seq<string>): (r: seq<string>)
    ensures forall t :: t in r <==> t in ts && t !in xs
  {
    Filter(ts, t => t !in xs)
  }

  /** Removing the same tokens twice removes nothing more. */
  lemma WithoutTwice(ts: seq<string>, xs: seq<string>)
    ensures Without(Without(ts, xs), xs) == Without(ts, xs)
  {
    FilterAll(Without(ts, xs), t => t !in xs);
  }

  /** `ts` followed by the tokens of `xs` it lacks: the set after `add(...xs)`. */
  function With(ts: seq<string>, xs: seq<string>): (r: seq<string>)
    ensures forall t :: t in r <==> t in ts || t in xs
  {
    var r := Dedup(ts + xs);
    assert forall t :: t in ts + xs <==> t in ts || t in xs;
    r
  }

  /** `element.classList.remove(...xs)`: the new attribute, or `None` for the DOMException
      an empty or whitespace-holding argument raises (the attribute is then unchanged). */
  function RemoveFrom(attr: string, xs: seq<string>): (r: Option<string>)
    ensures r.None? <==> !AllTokens(xs)
    ensures r.Some? ==> Tokens(r.value) == Without(Tokens(attr), xs)
  {
    if !AllTokens(xs) then None
    else
      var ts := Without(Tokens(attr), xs);
      FilterDistinct(Tokens(attr), t => t !in xs);
      FilterTokens(Tokens(attr), t => t !in xs);
      TokensOfJoin(ts);
      Some(Join(ts))
  }

  /** `element.classList.add(...xs)`: the new attribute, or `None` for the DOMException. */
  function AddTo(attr: string, xs: seq<string>): (r: Option<string>)
    ensures r.None? <==> !AllTokens(xs)
    ensures r.Some? ==> Tokens(r.value) == With(Tokens(attr), xs)
  {
    if !AllTokens(xs) then None
    else
      var ts := With(Tokens(attr), xs);
      assert AllTokens(ts) by {
        forall i | 0 <= i < |ts|
          ensures IsToken(ts[i])
        {
          var j :| 0 <= j < |Tokens(attr) + xs| && (Tokens(attr) + xs)[j] == ts[i];
        }
      }
      TokensOfJoin(ts);
      Some(Join(ts))
  }

  /** Adding tokens that are all new appends them. */
  lemma WithFresh(ts: seq<string>, xs: seq<string>)
    requires Distinct(ts) && Distinct(xs)
    requires forall i :: 0 <= i < |xs| ==> xs[i] !in ts
    ensures With(ts, xs) == ts + xs
  {
    DedupAppendFresh(ts, xs);
  }

  // ---------------------------------------------------------------------------------------
  // `s.split(' ')`

  /** Index of the first space in `s`. */
  function FirstSpace(s: string): (i: nat)
    requires ' ' in s
    ensures i < |s| && s[i] == ' '
    ensures forall j :: 0 <= j < i ==> s[j] != ' '
    decreases |s|
  {
    if s[0] == ' ' then 0 else 1 + FirstSpace(s[1..])
  }

  /** `s.split(' ')`: the pieces between single spaces, empty ones included. */
  function SplitSpace(s: string): (parts: seq<string>)
    ensures |parts| >= 1
    ensures forall i :: 0 <= i < |parts| ==> ' ' !in parts[i]
    ensures Join(parts) == s
    decreases |s|
  {
    if ' ' !in s then [s]
    else
      var i := FirstSpace(s);
      var rest := SplitSpace(s[i + 1..]);
      var parts := [s[..i]] + rest;
      assert parts[1..] == rest;
      assert s == s[..i] + (" " + s[i + 1..]);
      parts
  }

  /** Splitting a joined list of space-free pieces gives the pieces back. */
  lemma {:induction false} SplitOfJoin(parts: seq<string>)
    requires |parts| >= 1
    requires forall i :: 0 <= i < |parts| ==> ' ' !in parts[i]
    ensures SplitSpace(Join(parts)) == parts
    decreases |parts|
  {
    if |parts| > 1 {
      var p := parts[0];
      var s := Join(parts);
      assert s == p + (" " + Join(parts[1..]));
      assert s[|p|] == ' ';
      assert forall j :: 0 <= j < |p| ==> s[j] == p[j];
      assert s[..|p|] == p && s[|p| + 1..] == Join(parts[1..]);
      SplitOfJoin(parts[1..]);
      assert SplitSpace(s) == [p] + SplitSpace(s[|p| + 1..]);
      assert [p] + parts[1..] == parts;
    }
  }
}
