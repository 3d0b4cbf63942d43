/**
 * `renderWithBold` (components/MarketIntelligence.tsx and, identically,
 * components/SWOTCard.tsx): `text.split(/(\*\*.*?\*\*)/g)` followed by a
 * per-part test `startsWith('**') && endsWith('**')`, whose passing parts
 * lose two characters at each end (`slice(2, -2)`).
 *
 * `split` is modelled as the ECMAScript split loop over positions of the
 * whole text (`SplitFrom`); the regular expression is matched by hand
 * (`MatchEnd`): a `**` at the start position, then the fewest characters
 * other than a line terminator, then `**`.
 */
module BoldMarkup {
  import opened Types

  /** Characters JavaScript's `.` does not match (no `s` flag): LF, CR, U+2028, U+2029. */
  predicate IsLineTerminator(c: char)
  {
    c == '\n' || c == '\r' || c == '\U{2028}' || c == '\U{2029}'
  }

  /** `text` holds the marker `**` at position `j`. */
  predicate HasMarkerAt(text: string, j: int)
  {
    0 <= j && j + 2 <= |text| && text[j] == '*' && text[j + 1] == '*'
  }

  /**
   * The lazy part `.*?\*\*` of the pattern, tried from position `j`: the
   * end of the first `**` reachable from `j` over characters that are not
   * line terminators, if any.
   */
  function CloseFrom(text: string, j: nat): (r: Option<nat>)
    requires j <= |text|
    ensures r.Some? ==> j + 2 <= r.value <= |text| && HasMarkerAt(text, r.value - 2)
    decreases |text| - j
  {
    if HasMarkerAt(text, j) then Some(j + 2)
    else if j < |text| && !IsLineTerminator(text[j]) then CloseFrom(text, j + 1)
    else None
  }

  /**
   * The close is the first `**` from `j` on, and no line terminator comes
   * before it; there is none exactly when every `**` from `j` on comes after
   * a line terminator.
   */
  lemma {:induction false} CloseFromSpec(text: string, j: nat)
    requires j <= |text|
    ensures CloseFrom(text, j).Some? ==>
              forall q :: j <= q < CloseFrom(text, j).value - 2 ==> !HasMarkerAt(text, q) && !IsLineTerminator(text[q])
    ensures CloseFrom(text, j).None? ==>
              forall q :: j <= q && HasMarkerAt(text, q) ==> exists t :: j <= t < q && IsLineTerminator(text[t])
    decreases |text| - j
  {
    if !HasMarkerAt(text, j) && j < |text| && !IsLineTerminator(text[j]) {
      CloseFromSpec(text, j + 1);
      if CloseFrom(text, j).None? {
        forall q | j <= q && HasMarkerAt(text, q)
          ensures exists t :: j <= t < q && IsLineTerminator(text[t])
        {
          assert q != j;
          var t :| j + 1 <= t < q && IsLineTerminator(text[t]);
        }
      }
    }
  }

  /** The end of the match of `\*\*.*?\*\*` that starts exactly at `q`, if any. */
  function MatchEnd(text: string, q: nat): (r: Option<nat>)
    requires q <= |text|
    ensures r.Some? ==> q + 4 <= r.value <= |text|
  {
    if HasMarkerAt(text, q) then CloseFrom(text, q + 2) else None
  }

  /**
   * A segment the pattern matches as a whole with the lazy quantifier:
   * `**`, then characters that are not line terminators and at none of
   * which a `**` starts before the closing one, then `**`.
   */
  ghost predicate IsBoldRun(s: string)
  {
    && |s| >= 4
    && HasMarkerAt(s, 0)
    && HasMarkerAt(s, |s| - 2)
    && forall q :: 2 <= q < |s| - 2 ==> !IsLineTerminator(s[q]) && !HasMarkerAt(s, q)
  }

  lemma MatchIsBoldRun(text: string, q: nat)
    requires q <= |text| && MatchEnd(text, q).Some?
    ensures q + 4 <= MatchEnd(text, q).value <= |text|
    ensures IsBoldRun(text[q..MatchEnd(text, q).value])
  {
    var e := MatchEnd(text, q).value;
    var s := text[q..e];
    CloseFromSpec(text, q + 2);
    forall t | 2 <= t < |s| - 2 ensures !IsLineTerminator(s[t]) && !HasMarkerAt(s, t) {
      assert s[t] == text[q + t] && s[t + 1] == text[q + t + 1];
    }
  }

  // ---------------------------------------------------------------------
  // String.prototype.split with a capturing, non-empty-matching pattern
  // ---------------------------------------------------------------------

  /**
   * The split loop: `p` is where the pending piece of text starts, `q` the
   * position the pattern is tried at next. A match `[q, e)` emits the text
   * before it and the capture (the whole match), then both positions move
   * to `e`; no match moves `q` one character on. At the end the rest of the
   * text is emitted. (The pattern never matches the empty string, so the
   * loop's empty-match branches never apply.)
   */
  function SplitFrom(text: string, p: nat, q: nat): seq<string>
    requires p <= q <= |text|
    decreases |text| - q
  {
    if q == |text| then [text[p..]]
    else
      match MatchEnd(text, q)
      case None => SplitFrom(text, p, q + 1)
      case Some(e) => [text[p..q], text[q..e]] + SplitFrom(text, e, e)
  }

  /**
   * The split loop emits text and match in pairs and ends with the rest of
   * the text, so it emits an odd number of parts; the first is the text from
   * where the pending piece starts.
   */
  lemma {:induction false} SplitFromShape(text: string, p: nat, q: nat)
    requires p <= q <= |text|
    ensures var parts := SplitFrom(text, p, q);
            && |parts| % 2 == 1
            && p + |parts[0]| <= |text| && parts[0] == text[p..p + |parts[0]|]
    decreases |text| - q
  {
    if q < |text| {
      match MatchEnd(text, q)
      case None => SplitFromShape(text, p, q + 1);
      case Some(e) => SplitFromShape(text, e, e);
    }
  }

  /** `text.split(/(\*\*.*?\*\*)/g)`: the first part is a prefix of the text, and the count is odd. */
  function Split(text: string): (parts: seq<string>)
    ensures |parts| % 2 == 1
    ensures |parts[0]| <= |text| && parts[0] == text[..|parts[0]|]
  {
    SplitFromShape(text, 0, 0);
    SplitFrom(text, 0, 0)
  }

  /** The leftmost match at or after `q`: its start and end. */
  function Search(text: string, q: nat): (r: Option<(nat, nat)>)
    requires q <= |text|
    ensures r.Some? ==>
              && q <= r.value.0 < |text|
              && MatchEnd(text, r.value.0) == Some(r.value.1)
              && forall t :: q <= t < r.value.0 ==> MatchEnd(text, t).None?
    ensures r.None? ==> forall t :: q <= t <= |text| ==> MatchEnd(text, t).None?
    decreases |text| - q
  {
    if q == |text| then None
    else
      match MatchEnd(text, q)
      case Some(e) => Some((q, e))
      case None => Search(text, q + 1)
  }

  function Concat(parts: seq<string>): string
  {
    if parts == [] then "" else parts[0] + Concat(parts[1..])
  }

  // ---------------------------------------------------------------------
  // The split, characterised
  // ---------------------------------------------------------------------

  /** Trying the pattern past positions where it does not match changes nothing. */
  lemma {:induction false} SkipNonMatches(text: string, p: nat, q: nat, r: nat)
    requires p <= q <= r <= |text|
    requires forall t :: q <= t < r ==> MatchEnd(text, t).None?
    ensures SplitFrom(text, p, q) == SplitFrom(text, p, r)
    decreases r - q
  {
    if q < r {
      SkipNonMatches(text, p, q + 1, r);
    }
  }

  /** The pattern looks only forward: matching in a suffix is matching in the whole text, shifted. */
  lemma {:induction false} CloseFromSuffix(text: string, e: nat, j: nat)
    requires e + j <= |text|
    ensures CloseFrom(text, e + j) == if CloseFrom(text[e..], j).Some? then Some(CloseFrom(text[e..], j).value + e) else None
    decreases |text| - e - j
  {
    var u := text[e..];
    assert HasMarkerAt(text, e + j) == HasMarkerAt(u, j);
    if !HasMarkerAt(u, j) && j < |u| && !IsLineTerminator(u[j]) {
      CloseFromSuffix(text, e, j + 1);
    }
  }

  lemma MatchEndSuffix(text: string, e: nat, t: nat)
    requires e + t <= |text|
    ensures MatchEnd(text, e + t) == if MatchEnd(text[e..], t).Some? then Some(MatchEnd(text[e..], t).value + e) else None
  {
    var u := text[e..];
    assert HasMarkerAt(text, e + t) == HasMarkerAt(u, t);
    if HasMarkerAt(u, t) {
      CloseFromSuffix(text, e, t + 2);
    }
  }

  lemma SliceOfSuffix(text: string, e: nat, i: nat, j: nat)
    requires i <= j && e + j <= |text|
    ensures text[e..][i..j] == text[e + i..e + j]
  {
  }

  /** One step of the split loop where the pattern does not match. */
  lemma SplitFromPastNonMatch(text: string, p: nat, q: nat)
    requires p <= q < |text| && MatchEnd(text, q).None?
    ensures SplitFrom(text, p, q) == SplitFrom(text, p, q + 1)
  {
  }

  /** One step of the split loop where the pattern matches `[q, f)`. */
  lemma SplitFromAtMatch(text: string, p: nat, q: nat, f: nat)
    requires p <= q < |text| && MatchEnd(text, q) == Some(f)
    ensures SplitFrom(text, p, q) == [text[p..q], text[q..f]] + SplitFrom(text, f, f)
  {
  }

  /** Continuing the split at a position `e` is splitting the rest of the text. */
  lemma {:induction false} SplitFromSuffix(text: string, e: nat, p: nat, q: nat)
    requires e + p <= e + q <= |text|
    ensures SplitFrom(text, e + p, e + q) == SplitFrom(text[e..], p, q)
    decreases |text| - e - q
  {
    if e + q == |text| {
      SuffixAtEnd(text, e, p, q);
    } else {
      MatchEndSuffix(text, e, q);
      match MatchEnd(text[e..], q)
      case None =>
        SplitFromSuffix(text, e, p, q + 1);
        SuffixPastNonMatch(text, e, p, q);
      case Some(f) =>
        SplitFromSuffix(text, e, f, f);
        SuffixAtMatch(text, e, p, q, f);
    }
  }

  lemma SuffixAtEnd(text: string, e: nat, p: nat, q: nat)
    requires e + p <= e + q == |text|
    ensures SplitFrom(text, e + p, e + q) == SplitFrom(text[e..], p, q)
  {
    assert text[e + p..] == text[e..][p..];
  }

  lemma SuffixPastNonMatch(text: string, e: nat, p: nat, q: nat)
    requires e + p <= e + q < |text|
    requires MatchEnd(text[e..], q).None? && MatchEnd(text, e + q).None?
    requires SplitFrom(text, e + p, e + q + 1) == SplitFrom(text[e..], p, q + 1)
    ensures SplitFrom(text, e + p, e + q) == SplitFrom(text[e..], p, q)
  {
    var u := text[e..];
    SplitFromPastNonMatch(text, e + p, e + q);
    SplitFromPastNonMatch(u, p, q);
  }

  lemma SuffixAtMatch(text: string, e: nat, p: nat, q: nat, f: nat)
    requires e + p <= e + q < |text|
    requires MatchEnd(text[e..], q) == Some(f) && MatchEnd(text, e + q) == Some(f + e)
    requires SplitFrom(text, e + f, e + f) == SplitFrom(text[e..], f, f)
    ensures SplitFrom(text, e + p, e + q) == SplitFrom(text[e..], p, q)
  {
    var u := text[e..];
    SplitFromAtMatch(text, e + p, e + q, e + f);
    SplitFromAtMatch(u, p, q, f);
    SliceOfSuffix(text, e, p, q);
    SliceOfSuffix(text, e, q, f);
    var head := [u[p..q], u[q..f]];
    assert [text[e + p..e + q], text[e + q..e + f]] == head;
  }

  /**
   * split takes the LEFTMOST match: with no match anywhere the text comes
   * back whole; otherwise the text before the first match, the match
   * itself, and then the split of what follows it.
   */
  lemma SplitLeftmost(text: string)
    ensures Search(text, 0).None? ==> Split(text) == [text]
    ensures Search(text, 0).Some? ==>
              var (r, e) := Search(text, 0).value;
              r < e <= |text| && Split(text) == [text[..r], text[r..e]] + Split(text[e..])
  {
    match Search(text, 0)
    case None => SplitWithoutMatch(text);
    case Some((r, e)) => SplitAtFirstMatch(text, r, e);
  }

  /** With no match anywhere, the text comes back whole. */
  lemma SplitWithoutMatch(text: string)
    requires forall j :: 0 <= j <= |text| ==> MatchEnd(text, j).None?
    ensures Split(text) == [text]
  {
    SkipNonMatches(text, 0, 0, |text|);
    assert text[0..] == text;
  }

  lemma SplitAtFirstMatch(text: string, r: nat, e: nat)
    requires Search(text, 0) == Some((r, e))
    ensures r < e <= |text| && Split(text) == [text[..r], text[r..e]] + Split(text[e..])
  {
    SplitSkipsToMatch(text, r, e);
    SplitEmitsMatch(text, r, e);
    SplitRest(text, e);
  }

  /** Up to the first match the split only moves its search position. */
  lemma SplitSkipsToMatch(text: string, r: nat, e: nat)
    requires Search(text, 0) == Some((r, e))
    ensures Split(text) == SplitFrom(text, 0, r)
  {
    SkipNonMatches(text, 0, 0, r);
  }

  /** At a match the split emits the pending text and the match, and goes on after it. */
  lemma SplitEmitsMatch(text: string, r: nat, e: nat)
    requires Search(text, 0) == Some((r, e))
    ensures SplitFrom(text, 0, r) == [text[..r], text[r..e]] + SplitFrom(text, e, e)
  {
    SplitFromAtMatch(text, 0, r, e);
  }

  /** Going on at `e` splits the rest of the text. */
  lemma SplitRest(text: string, e: nat)
    requires e <= |text|
    ensures SplitFrom(text, e, e) == Split(text[e..])
  {
    SplitFromSuffix(text, e, 0, 0);
  }

  /** Joining the parts gives back the text: the capturing group keeps the delimiters. */
  lemma {:induction false} SplitRoundTrip(text: string)
    ensures Concat(Split(text)) == text
    decreases |text|
  {
    SplitLeftmost(text);
    match Search(text, 0)
    case None =>
      assert Concat([text]) == text + Concat([]);
    case Some((r, e)) =>
      var rest := Split(text[e..]);
      SplitRoundTrip(text[e..]);
      var parts := [text[..r], text[r..e]] + rest;
      assert parts[1..] == [text[r..e]] + rest;
      assert parts[1..][1..] == rest;
      assert text == text[..r] + (text[r..e] + text[e..]);
  }

  /**
   * The parts alternate: there is one more text part than matches, and
   * every part at an odd position is a whole `**…**` match.
   */
  lemma {:induction false} SplitAlternates(text: string)
    ensures |Split(text)| % 2 == 1
    ensures forall i :: 0 <= i < |Split(text)| && i % 2 == 1 ==> IsBoldRun(Split(text)[i])
    decreases |text|
  {
    SplitLeftmost(text);
    match Search(text, 0)
    case None =>
    case Some((r, e)) =>
      var rest := Split(text[e..]);
      SplitAlternates(text[e..]);
      MatchIsBoldRun(text, r);
      var parts := [text[..r], text[r..e]] + rest;
      forall i | 0 <= i < |parts| && i % 2 == 1 ensures IsBoldRun(parts[i]) {
        if i > 1 {
          assert parts[i] == rest[i - 2];
        }
      }
  }

  /** Text in which no `**` occurs splits into a single part, the text itself. */
  lemma SplitWithoutMarker(text: string)
    requires forall j :: 0 <= j < |text| ==> !HasMarkerAt(text, j)
    ensures Split(text) == [text]
  {
    SplitLeftmost(text);
  }

  // ---------------------------------------------------------------------
  // The bolding of the parts
  // ---------------------------------------------------------------------

  /** A rendered part: plain text, or a `<strong>` element with its CSS class. */
  datatype Segment = Plain(text: string) | Strong(className: string, text: string)

  predicate StartsWith(s: string, prefix: string)
  {
    |prefix| <= |s| && s[..|prefix|] == prefix
  }

  predicate EndsWith(s: string, suffix: string)
  {
    |suffix| <= |s| && s[|s| - |suffix|..] == suffix
  }

  /** `String.prototype.slice(start, end)`: negative indices count from the end, both are clamped. */
  function Slice(s: string, start: int, end: int): (r: string)
    ensures |r| <= |s|
    ensures 0 <= start <= end <= |s| ==> r == s[start..end]
    ensures 0 <= start && end < 0 && start <= |s| + end ==> r == s[start..|s| + end]
    ensures (0 <= end <= start) || start >= |s| ==> r == ""
    ensures 0 <= start && end < 0 && start >= |s| + end ==> r == ""
  {
    var from := if start < 0 then (if |s| + start < 0 then 0 else |s| + start)
                else (if start < |s| then start else |s|);
    var to := if end < 0 then (if |s| + end < 0 then 0 else |s| + end)
              else (if end < |s| then end else |s|);
    if from < to then s[from..to] else ""
  }

  /** The `map` callback of `renderWithBold`. */
  function RenderPart(part: string, strongClass: string): (seg: Segment)
    ensures seg.Strong? <==> StartsWith(part, "**") && EndsWith(part, "**")
    ensures seg.Strong? ==> seg.className == strongClass && |seg.text| == if |part| >= 4 then |part| - 4 else 0
    ensures seg.Strong? && |part| >= 4 ==> part == "**" + seg.text + "**"
    ensures seg.Plain? ==> seg.text == part
  {
    if StartsWith(part, "**") && EndsWith(part, "**") then Strong(strongClass, Slice(part, 2, -2))
    else Plain(part)
  }

  /** A whole match renders bold without its markers, and what remains has no line terminator and no `**`. */
  lemma BoldRunRendersBold(part: string, strongClass: string)
    requires IsBoldRun(part)
    ensures var seg := RenderPart(part, strongClass);
            && seg == Strong(strongClass, seg.text)
            && part == "**" + seg.text + "**"
            && forall q :: 0 <= q < |seg.text| ==> !IsLineTerminator(seg.text[q]) && !HasMarkerAt(seg.text, q)
  {
    var seg := RenderPart(part, strongClass);
    assert StartsWith(part, "**") && EndsWith(part, "**");
    assert seg.text == part[2..|part| - 2];
    forall q | 0 <= q < |seg.text|
      ensures !IsLineTerminator(seg.text[q]) && !HasMarkerAt(seg.text, q)
    {
      assert seg.text[q] == part[q + 2];
      assert HasMarkerAt(seg.text, q) ==> HasMarkerAt(part, q + 2);
    }
  }

  /**
   * `renderWithBold(text)`, with the class its `<strong>` elements carry:
   * one segment per split part. Every match of the pattern (the odd
   * positions) is bold with its two markers removed, and what remains has
   * no line terminator and no `**`. Any other part stays plain text,
   * unchanged, unless it starts and ends with `**` itself. Text without
   * `**` is one plain segment.
   */
  function RenderWithBold(text: string, strongClass: string): (segs: seq<Segment>)
    ensures |segs| == |Split(text)| && |segs| % 2 == 1
    ensures forall i :: 0 <= i < |segs| ==> segs[i] == RenderPart(Split(text)[i], strongClass)
    ensures forall i :: 0 <= i < |segs| ==>
              (segs[i].Strong? <==> StartsWith(Split(text)[i], "**") && EndsWith(Split(text)[i], "**"))
    ensures forall i :: 0 <= i < |segs| && segs[i].Strong? ==> segs[i].className == strongClass
    ensures forall i :: 0 <= i < |segs| && segs[i].Plain? ==> segs[i].text == Split(text)[i]
    ensures forall i :: 0 <= i < |segs| && i % 2 == 1 ==>
              && segs[i].Strong?
              && Split(text)[i] == "**" + segs[i].text + "**"
              && forall q :: 0 <= q < |segs[i].text| ==>
                   !IsLineTerminator(segs[i].text[q]) && !HasMarkerAt(segs[i].text, q)
    ensures (forall j :: 0 <= j < |text| ==> !HasMarkerAt(text, j)) ==> segs == [Plain(text)]
  {
    var parts := Split(text);
    var segs := seq(|parts|, i requires 0 <= i < |parts| => RenderPart(parts[i], strongClass));
    MatchesRenderBold(text, strongClass, segs);
    NoMarkerRendersPlain(text, strongClass, segs);
    segs
  }

  /** The matches among the rendered parts are bold, their markers removed. */
  lemma MatchesRenderBold(text: string, strongClass: string, segs: seq<Segment>)
    requires |segs| == |Split(text)|
    requires forall i :: 0 <= i < |segs| ==> segs[i] == RenderPart(Split(text)[i], strongClass)
    ensures forall i :: 0 <= i < |segs| && i % 2 == 1 ==>
              && segs[i].Strong?
              && Split(text)[i] == "**" + segs[i].text + "**"
              && forall q :: 0 <= q < |segs[i].text| ==>
                   !IsLineTerminator(segs[i].text[q]) && !HasMarkerAt(segs[i].text, q)
  {
    SplitAlternates(text);
    forall i | 0 <= i < |segs| && i % 2 == 1
      ensures && segs[i].Strong?
              && Split(text)[i] == "**" + segs[i].text + "**"
              && forall q :: 0 <= q < |segs[i].text| ==>
                   !IsLineTerminator(segs[i].text[q]) && !HasMarkerAt(segs[i].text, q)
    {
      BoldRunRendersBold(Split(text)[i], strongClass);
    }
  }

  /** Text without `**` renders as one plain part, unchanged. */
  lemma NoMarkerRendersPlain(text: string, strongClass: string, segs: seq<Segment>)
    requires |segs| == |Split(text)|
    requires forall i :: 0 <= i < |segs| ==> segs[i] == RenderPart(Split(text)[i], strongClass)
    ensures (forall j :: 0 <= j < |text| ==> !HasMarkerAt(text, j)) ==> segs == [Plain(text)]
  {
    if forall j :: 0 <= j < |text| ==> !HasMarkerAt(text, j) {
      SplitWithoutMarker(text);
      assert !StartsWith(text, "**") by {
        if |text| >= 2 { assert !HasMarkerAt(text, 0); }
      }
    }
  }

  /**
   * The bold test is only a prefix and suffix check: `***` is not a match of
   * the pattern, yet renders bold with nothing inside, and so does a line
   * break between two markers keep the text from matching but not from
   * rendering bold.
   */
  lemma BoldTestIsPrefixSuffixOnly(strongClass: string)
    ensures RenderWithBold("***", strongClass) == [Strong(strongClass, "")]
    ensures RenderWithBold("**a\nb**", strongClass) == [Strong(strongClass, "a\nb")]
  {
    SplitWithoutMatch("***");
    var t := "**a\nb**";
    assert MatchEnd(t, 0).None? by {
      assert CloseFrom(t, 2) == CloseFrom(t, 3);
    }
    assert forall j :: 1 <= j <= |t| ==> MatchEnd(t, j).None? by {
      assert !HasMarkerAt(t, 1) && !HasMarkerAt(t, 2) && !HasMarkerAt(t, 3) && !HasMarkerAt(t, 4);
      assert MatchEnd(t, 5) == CloseFrom(t, 7) == None;
    }
    SplitWithoutMatch(t);
    assert Slice(t, 2, -2) == "a\nb";
  }

  lemma SearchMarkedPhrase()
    ensures Search("Prices **rose** 5%", 0) == Some((7, 15))
  {
    var t := "Prices **rose** 5%";
    assert forall j :: 0 <= j < 7 ==> !HasMarkerAt(t, j);
    assert MatchEnd(t, 7) == Some(15) by {
      assert CloseFrom(t, 9) == CloseFrom(t, 10) == CloseFrom(t, 11) == CloseFrom(t, 12) == CloseFrom(t, 13);
    }
  }

  lemma SplitMarkedPhrase()
    ensures Split("Prices **rose** 5%") == ["Prices ", "**rose**", " 5%"]
  {
    var t := "Prices **rose** 5%";
    SearchMarkedPhrase();
    SplitLeftmost(t);
    var u := t[15..];
    assert u == " 5%";
    assert forall j :: 0 <= j <= |u| ==> !HasMarkerAt(u, j);
    SplitWithoutMatch(u);
    assert t[..7] == "Prices " && t[7..15] == "**rose**";
  }

  /** A marked phrase in a sentence is cut out and bolded, with the text around it kept. */
  lemma RendersMarkedPhrase(strongClass: string)
    ensures RenderWithBold("Prices **rose** 5%", strongClass)
            == [Plain("Prices "), Strong(strongClass, "rose"), Plain(" 5%")]
  {
    SplitMarkedPhrase();
    RendersPhraseParts(strongClass);
    var segs := RenderWithBold("Prices **rose** 5%", strongClass);
    assert segs[0] == Plain("Prices ") && segs[1] == Strong(strongClass, "rose") && segs[2] == Plain(" 5%");
  }

  lemma RendersPhraseParts(strongClass: string)
    ensures RenderPart("Prices ", strongClass) == Plain("Prices ")
    ensures RenderPart("**rose**", strongClass) == Strong(strongClass, "rose")
    ensures RenderPart(" 5%", strongClass) == Plain(" 5%")
  {
    assert Slice("**rose**", 2, -2) == "rose";
    assert "Prices "[..2][0] == 'P' && " 5%"[..2][0] == ' ';
  }
}
