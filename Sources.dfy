/**
 * The "Live Data Sources" list (components/Sources.tsx): the five source
 * lists are concatenated, pushed through a JavaScript `Map` keyed by
 * `s.web?.uri`, read back with `values()`, and filtered to the entries
 * whose uri and title are both truthy.
 */
module Sources {
  import opened Types

  /** The key the `Map` is given for one source: `s.web?.uri`, absent when either part is missing. */
  function UriKey(s: GroundingSource): Option<string>
  {
    if s.web.Some? then s.web.value.uri else None
  }

  /** The filter of the list: `s?.web?.uri && s?.web?.title`. */
  predicate IsCitable(s: GroundingSource)
  {
    s.web.Some? && Truthy(s.web.value.uri) && Truthy(s.web.value.title)
  }

  function Keys(xs: seq<GroundingSource>): (ks: seq<Option<string>>)
    ensures |ks| == |xs|
    ensures forall i :: 0 <= i < |xs| ==> ks[i] == UriKey(xs[i])
  {
    seq(|xs|, i requires 0 <= i < |xs| => UriKey(xs[i]))
  }

  ghost predicate Distinct<T>(ks: seq<T>)
  {
    forall i, j :: 0 <= i < j < |ks| ==> ks[i] != ks[j]
  }

  /** `allSources`: the five lists spread into one array, in this order. */
  function AllSources(
    market: seq<GroundingSource>,
    competitive: seq<GroundingSource>,
    sharePrice: seq<GroundingSource>,
    indiaNews: seq<GroundingSource>,
    internationalNews: seq<GroundingSource>): (all: seq<GroundingSource>)
    ensures |all| == |market| + |competitive| + |sharePrice| + |indiaNews| + |internationalNews|
    ensures var c := |market|; all[..c] == market
    ensures var c := |market|; all[c..c + |competitive|] == competitive
    ensures var c := |market| + |competitive|; all[c..c + |sharePrice|] == sharePrice
    ensures var c := |market| + |competitive| + |sharePrice|; all[c..c + |indiaNews|] == indiaNews
    ensures var c := |market| + |competitive| + |sharePrice| + |indiaNews|; all[c..] == internationalNews
  {
    market + competitive + sharePrice + indiaNews + internationalNews
  }

  // ---------------------------------------------------------------------
  // The JavaScript Map, as the sequence of its entries in insertion order
  // ---------------------------------------------------------------------

  /**
   * `map.set(UriKey(s), s)` on a map whose values are `entries`: an existing
   * key keeps its position and takes the new value; a new key is appended.
   */
  function MapSet(entries: seq<GroundingSource>, s: GroundingSource): (r: seq<GroundingSource>)
    ensures |entries| <= |r| <= |entries| + 1
  {
    if entries == [] then [s]
    else if UriKey(entries[0]) == UriKey(s) then [s] + entries[1..]
    else [entries[0]] + MapSet(entries[1..], s)
  }

  /** `Array.from(new Map(xs.map(s => [s.web?.uri, s])).values())`: the pairs are set left to right. */
  function MapValues(xs: seq<GroundingSource>): (r: seq<GroundingSource>)
    ensures 0 < |r| <= |xs| || r == xs == []
  {
    if xs == [] then [] else MapSet(MapValues(xs[..|xs| - 1]), xs[|xs| - 1])
  }

  /** `.filter(s => s?.web?.uri && s?.web?.title)`. */
  function CitableOnly(xs: seq<GroundingSource>): (r: seq<GroundingSource>)
    ensures forall s :: s in r <==> s in xs && IsCitable(s)
  {
    if xs == [] then []
    else (if IsCitable(xs[0]) then [xs[0]] else []) + CitableOnly(xs[1..])
  }

  /**
   * `uniqueSources`: entries of the five lists, each citable, no uri twice,
   * each the last entry for its uri.
   */
  function UniqueSources(
    market: seq<GroundingSource>,
    competitive: seq<GroundingSource>,
    sharePrice: seq<GroundingSource>,
    indiaNews: seq<GroundingSource>,
    internationalNews: seq<GroundingSource>): (r: seq<GroundingSource>)
    ensures var all := AllSources(market, competitive, sharePrice, indiaNews, internationalNews);
            forall s :: s in r ==> IsCitable(s) && s in all && UriKey(s) in Keys(all) && s == all[LastIndex(all, UriKey(s))]
    ensures forall i, j :: 0 <= i < j < |r| ==> UriKey(r[i]) != UriKey(r[j])
  {
    var all := AllSources(market, competitive, sharePrice, indiaNews, internationalNews);
    UniqueAreLastCitable(all);
    UniqueHaveDistinctUris(all);
    Deduplicated(all)
  }

  /** The de-duplicated, filtered list for an already concatenated input. */
  function Deduplicated(all: seq<GroundingSource>): seq<GroundingSource>
  {
    CitableOnly(MapValues(all))
  }

  // ---------------------------------------------------------------------
  // Reference definitions: first occurrence of a key, last entry of a key
  // ---------------------------------------------------------------------

  /** The distinct keys of `xs`, each at the place of its first occurrence. */
  function FirstKeys(xs: seq<GroundingSource>): seq<Option<string>>
  {
    if xs == [] then []
    else
      var ks := FirstKeys(xs[..|xs| - 1]);
      if UriKey(xs[|xs| - 1]) in ks then ks else ks + [UriKey(xs[|xs| - 1])]
  }

  /** The index of the first entry of `xs` whose key is `k`. */
  function FirstIndex(xs: seq<GroundingSource>, k: Option<string>): (i: nat)
    requires k in Keys(xs)
    ensures i < |xs| && UriKey(xs[i]) == k
    ensures forall j :: 0 <= j < i ==> UriKey(xs[j]) != k
  {
    if UriKey(xs[0]) == k then 0
    else
      assert Keys(xs[1..]) == Keys(xs)[1..];
      1 + FirstIndex(xs[1..], k)
  }

  /** The index of the last entry of `xs` whose key is `k`. */
  function LastIndex(xs: seq<GroundingSource>, k: Option<string>): (i: nat)
    requires k in Keys(xs)
    ensures i < |xs| && UriKey(xs[i]) == k
    ensures forall j :: i < j < |xs| ==> UriKey(xs[j]) != k
  {
    var n := |xs| - 1;
    if UriKey(xs[n]) == k then n
    else
      assert Keys(xs[..n]) == Keys(xs)[..n];
      LastIndex(xs[..n], k)
  }

  // ---------------------------------------------------------------------
  // Lemmas
  // ---------------------------------------------------------------------

  lemma KeysOfSnoc(xs: seq<GroundingSource>, s: GroundingSource)
    ensures Keys(xs + [s]) == Keys(xs) + [UriKey(s)]
  {
  }

  /** What one `set` does to a map whose keys are distinct. */
  lemma {:induction false} MapSetEffect(m: seq<GroundingSource>, s: GroundingSource)
    requires Distinct(Keys(m))
    ensures UriKey(s) in Keys(m) ==>
              |MapSet(m, s)| == |m| &&
              forall i :: 0 <= i < |m| ==> MapSet(m, s)[i] == if UriKey(m[i]) == UriKey(s) then s else m[i]
    ensures UriKey(s) !in Keys(m) ==> MapSet(m, s) == m + [s]
  {
    if m == [] {
    } else if UriKey(m[0]) == UriKey(s) {
      assert UriKey(s) in Keys(m);
      forall i | 1 <= i < |m| ensures UriKey(m[i]) != UriKey(s) {
        assert Keys(m)[0] != Keys(m)[i];
      }
    } else {
      var tail := m[1..];
      assert Keys(tail) == Keys(m)[1..];
      MapSetEffect(tail, s);
      assert UriKey(s) in Keys(m) <==> UriKey(s) in Keys(tail) by {
        assert Keys(m) == [UriKey(m[0])] + Keys(tail);
      }
    }
  }

  /** `FirstKeys` lists every key of the input, each once. */
  lemma {:induction false} FirstKeysSpec(xs: seq<GroundingSource>)
    ensures Distinct(FirstKeys(xs))
    ensures forall k :: k in FirstKeys(xs) <==> k in Keys(xs)
  {
    if xs != [] {
      var n := |xs| - 1;
      var p, s := xs[..n], xs[n];
      assert xs == p + [s];
      FirstKeysSpec(p);
      KeysOfSnoc(p, s);
    }
  }

  /**
   * The values of the Map are, in order, the keys of the input at their first
   * occurrence, each holding the LAST entry of the input with that key.
   */
  lemma {:induction false} MapValuesSpec(xs: seq<GroundingSource>)
    ensures Keys(MapValues(xs)) == FirstKeys(xs)
    ensures forall k :: k in Keys(MapValues(xs)) <==> k in Keys(xs)
    ensures forall i :: 0 <= i < |MapValues(xs)| ==>
              MapValues(xs)[i] == xs[LastIndex(xs, UriKey(MapValues(xs)[i]))]
  {
    FirstKeysSpec(xs);
    if xs != [] {
      var n := |xs| - 1;
      var p, s := xs[..n], xs[n];
      assert xs == p + [s];
      MapValuesSpec(p);
      FirstKeysSpec(p);
      var m := MapValues(p);
      KeysOfSnoc(p, s);
      MapSetEffect(m, s);
      var r := MapValues(xs);
      assert r == MapSet(m, s);
      forall i | 0 <= i < |r|
        ensures r[i] == xs[LastIndex(xs, UriKey(r[i]))]
      {
        if UriKey(r[i]) != UriKey(s) {
          assert i < |m| && r[i] == m[i];
          LastIndexOfPrefix(xs, UriKey(r[i]));
        }
      }
    }
  }

  /** A key whose last entry is not the final one has the same last entry without it. */
  lemma LastIndexOfPrefix(xs: seq<GroundingSource>, k: Option<string>)
    requires xs != [] && k in Keys(xs[..|xs| - 1]) && UriKey(xs[|xs| - 1]) != k
    ensures k in Keys(xs) && LastIndex(xs, k) == LastIndex(xs[..|xs| - 1], k)
  {
    var n := |xs| - 1;
    assert Keys(xs[..n]) == Keys(xs)[..n];
  }

  /** A key of a prefix first occurs in the whole input where it first occurs in the prefix. */
  lemma FirstIndexOfPrefix(xs: seq<GroundingSource>, n: nat, k: Option<string>)
    requires n <= |xs| && k in Keys(xs[..n])
    ensures k in Keys(xs) && FirstIndex(xs, k) == FirstIndex(xs[..n], k)
  {
    var b := FirstIndex(xs[..n], k);
    assert xs[b] == xs[..n][b];
    assert Keys(xs)[b] == k;
  }

  /** The keys of `FirstKeys(xs)` are ordered by where each first occurs in `xs`. */
  lemma {:induction false} FirstKeysOrdered(xs: seq<GroundingSource>)
    ensures forall k :: k in FirstKeys(xs) <==> k in Keys(xs)
    ensures forall i, j :: 0 <= i < j < |FirstKeys(xs)| ==>
              FirstIndex(xs, FirstKeys(xs)[i]) < FirstIndex(xs, FirstKeys(xs)[j])
  {
    FirstKeysSpec(xs);
    if xs != [] {
      var n := |xs| - 1;
      var p, s := xs[..n], xs[n];
      assert xs == p + [s];
      FirstKeysOrdered(p);
      KeysOfSnoc(p, s);
      var ks, kp := FirstKeys(xs), FirstKeys(p);
      forall i, j | 0 <= i < j < |ks|
        ensures FirstIndex(xs, ks[i]) < FirstIndex(xs, ks[j])
      {
        FirstIndexOfPrefix(xs, n, ks[i]);
        if j < |kp| {
          FirstIndexOfPrefix(xs, n, ks[j]);
        } else {
          assert ks[j] == UriKey(s) && UriKey(s) !in Keys(p);
          assert FirstIndex(xs, ks[j]) == n;
        }
      }
    }
  }

  /** Filtering keeps any relation that holds between every earlier and later element. */
  lemma {:induction false} CitableOnlyKeepsOrder(xs: seq<GroundingSource>, rel: (GroundingSource, GroundingSource) -> bool)
    requires forall i, j :: 0 <= i < j < |xs| ==> rel(xs[i], xs[j])
    ensures forall i, j :: 0 <= i < j < |CitableOnly(xs)| ==> rel(CitableOnly(xs)[i], CitableOnly(xs)[j])
  {
    if xs != [] {
      var tail := xs[1..];
      CitableOnlyKeepsOrder(tail, rel);
      var r, rt := CitableOnly(xs), CitableOnly(tail);
      forall y | y in rt ensures rel(xs[0], y) {
        var k :| 0 <= k < |tail| && tail[k] == y;
        assert xs[k + 1] == y;
      }
    }
  }

  /** Every listed entry is citable and is the last entry of the input with its uri. */
  lemma UniqueAreLastCitable(all: seq<GroundingSource>)
    ensures forall s :: s in Deduplicated(all) ==>
              && IsCitable(s)
              && s in all
              && UriKey(s) in Keys(all)
              && s == all[LastIndex(all, UriKey(s))]
  {
    MapValuesSpec(all);
    var mv := MapValues(all);
    forall s | s in mv ensures UriKey(s) in Keys(all) && s == all[LastIndex(all, UriKey(s))] {
      var i :| 0 <= i < |mv| && mv[i] == s;
    }
  }

  /** No uri is listed twice. */
  lemma UniqueHaveDistinctUris(all: seq<GroundingSource>)
    ensures forall i, j :: 0 <= i < j < |Deduplicated(all)| ==>
              UriKey(Deduplicated(all)[i]) != UriKey(Deduplicated(all)[j])
  {
    MapValuesSpec(all);
    FirstKeysSpec(all);
    var mv := MapValues(all);
    assert forall i, j :: 0 <= i < j < |mv| ==> UriKey(mv[i]) != UriKey(mv[j]) by {
      assert Keys(mv) == FirstKeys(all);
    }
    CitableOnlyKeepsOrder(mv, (a, b) => UriKey(a) != UriKey(b));
  }

  /** Listed uris appear in the order of their first occurrence in the input. */
  lemma UniqueInFirstOccurrenceOrder(all: seq<GroundingSource>)
    ensures forall i, j :: 0 <= i < j < |Deduplicated(all)| ==>
              var a, b := UriKey(Deduplicated(all)[i]), UriKey(Deduplicated(all)[j]);
              a in Keys(all) && b in Keys(all) && FirstIndex(all, a) < FirstIndex(all, b)
  {
    MapValuesSpec(all);
    FirstKeysOrdered(all);
    var mv := MapValues(all);
    assert Keys(mv) == FirstKeys(all);
    CitableOnlyKeepsOrder(mv, (a, b) =>
      UriKey(a) in Keys(all) && UriKey(b) in Keys(all) &&
      FirstIndex(all, UriKey(a)) < FirstIndex(all, UriKey(b)));
  }

  /**
   * A uri of the input is listed exactly when its LAST entry is citable:
   * the filter runs after the de-duplication, so a citable earlier entry
   * does not rescue a uri whose last entry lacks a title.
   */
  lemma UniqueListsUriIffLastCitable(all: seq<GroundingSource>, k: Option<string>)
    requires k in Keys(all)
    ensures (exists s :: s in Deduplicated(all) && UriKey(s) == k) <==> IsCitable(all[LastIndex(all, k)])
  {
    MapValuesSpec(all);
    FirstKeysSpec(all);
    UniqueAreLastCitable(all);
    var mv := MapValues(all);
    var last := all[LastIndex(all, k)];
    if IsCitable(last) {
      var i :| 0 <= i < |FirstKeys(all)| && FirstKeys(all)[i] == k;
      assert mv[i] == last;
      assert last in Deduplicated(all);
    }
  }

  /** What the page shows in place of the table of sources. */
  datatype SourcesView = NoSourcesCited | SourceTable(rows: seq<GroundingSource>)

  /** The table when there is a source to list, the "no sources" message otherwise. */
  function ViewSources(
    market: seq<GroundingSource>,
    competitive: seq<GroundingSource>,
    sharePrice: seq<GroundingSource>,
    indiaNews: seq<GroundingSource>,
    internationalNews: seq<GroundingSource>): (v: SourcesView)
    ensures v.SourceTable? ==> |v.rows| > 0 && forall i :: 0 <= i < |v.rows| ==> IsCitable(v.rows[i])
    ensures v.SourceTable? ==> forall i, j :: 0 <= i < j < |v.rows| ==> UriKey(v.rows[i]) != UriKey(v.rows[j])
    ensures var all := AllSources(market, competitive, sharePrice, indiaNews, internationalNews);
            v.SourceTable? ==> (v.rows == Deduplicated(all) &&
                                forall s :: s in v.rows ==> s in all && UriKey(s) in Keys(all) && s == all[LastIndex(all, UriKey(s))])
  {
    var unique := UniqueSources(market, competitive, sharePrice, indiaNews, internationalNews);
    if |unique| > 0 then SourceTable(unique) else NoSourcesCited
  }

  /** The "no sources" message appears exactly when no uri's last entry is citable. */
  lemma NoSourcesMessageSpec(
    market: seq<GroundingSource>,
    competitive: seq<GroundingSource>,
    sharePrice: seq<GroundingSource>,
    indiaNews: seq<GroundingSource>,
    internationalNews: seq<GroundingSource>)
    ensures var all := AllSources(market, competitive, sharePrice, indiaNews, internationalNews);
            ViewSources(market, competitive, sharePrice, indiaNews, internationalNews).NoSourcesCited?
            <==> forall k :: k in Keys(all) ==> !IsCitable(all[LastIndex(all, k)])
  {
    var all := AllSources(market, competitive, sharePrice, indiaNews, internationalNews);
    var r := Deduplicated(all);
    UniqueAreLastCitable(all);
    if |r| > 0 {
      assert r[0] in r;
      UniqueListsUriIffLastCitable(all, UriKey(r[0]));
    } else {
      forall k | k in Keys(all) ensures !IsCitable(all[LastIndex(all, k)]) {
        UniqueListsUriIffLastCitable(all, k);
      }
    }
  }
}
