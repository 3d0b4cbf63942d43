/**
 * One SWOT quadrant (components/SWOTCard.tsx): a list entry per item,
 * each item passed through the same `renderWithBold` as the market
 * synopsis, with `font-bold text-slate-100` on its bold parts.
 */
module SWOTCard {
  import opened Types
  import opened BoldMarkup
  import MarketIntelligence

  const ItemStrongClass := "font-bold text-slate-100"

  /** `items.map(item => renderWithBold(item))`: one entry per item, in order. */
  function RenderItems(items: seq<string>): (entries: seq<seq<Segment>>)
    ensures |entries| == |items|
    ensures forall i :: 0 <= i < |items| ==>
              |entries[i]| == |Split(items[i])| && |entries[i]| % 2 == 1
    ensures forall i, k :: 0 <= i < |items| && 0 <= k < |entries[i]| ==>
              entries[i][k] == RenderPart(Split(items[i])[k], ItemStrongClass)
  {
    assert forall i :: 0 <= i < |items| ==> |Split(items[i])| % 2 == 1 by {
      forall i | 0 <= i < |items| ensures |Split(items[i])| % 2 == 1 {
        SplitAlternates(items[i]);
      }
    }
    seq(|items|, i requires 0 <= i < |items| => RenderWithBold(items[i], ItemStrongClass))
  }

  /**
   * The card's transformation is the synopsis's: the same parts, each plain
   * or bold alike with the same text; only the class of the bold parts differs.
   */
  lemma SameTransformationAsOverview(text: string)
    ensures var card, overview := RenderItems([text])[0], MarketIntelligence.RenderOverview(text);
            && |card| == |overview|
            && forall k :: 0 <= k < |card| ==>
                 && card[k].Plain? == overview[k].Plain?
                 && card[k].text == overview[k].text
                 && (card[k].Strong? ==> card[k].className == ItemStrongClass)
  {
  }
}
