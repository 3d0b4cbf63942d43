/**
 * The market page's synopsis (components/MarketIntelligence.tsx): the
 * market overview text passed through `renderWithBold`, whose bold parts
 * carry the class `font-bold text-violet-400`.
 */
module MarketIntelligence {
  import opened Types
  import opened BoldMarkup

  const OverviewStrongClass := "font-bold text-violet-400"

  /** `renderWithBold` of this component. */
  function RenderOverview(text: string): (segs: seq<Segment>)
    ensures |segs| == |Split(text)| && |segs| % 2 == 1
    ensures forall i :: 0 <= i < |segs| ==> segs[i] == RenderPart(Split(text)[i], OverviewStrongClass)
    ensures forall i :: 0 <= i < |segs| && i % 2 == 1 ==>
              segs[i].Strong? && segs[i].className == OverviewStrongClass &&
              Split(text)[i] == "**" + segs[i].text + "**"
    ensures forall i :: 0 <= i < |segs| && segs[i].Strong? ==> segs[i].className == OverviewStrongClass
    ensures forall i :: 0 <= i < |segs| && segs[i].Plain? ==> segs[i].text == Split(text)[i]
    ensures (forall j :: 0 <= j < |text| ==> !HasMarkerAt(text, j)) ==> segs == [Plain(text)]
  {
    RenderWithBold(text, OverviewStrongClass)
  }

  /** What the page shows for the synopsis: a message when there is no market data. */
  datatype Synopsis = NoMarketData | Overview(segments: seq<Segment>)

  /**
   * The synopsis of the market page: the message exactly when there is no
   * data; otherwise the overview's split parts, the matches in violet bold
   * without their markers and the text between them as it is.
   */
  function ViewSynopsis(data: Option<MarketData>): (v: Synopsis)
    ensures v.NoMarketData? <==> data.None?
    ensures v.Overview? ==>
              var text, segs := data.value.marketOverview, v.segments;
              && |segs| == |Split(text)| && |segs| % 2 == 1
              && (forall i :: 0 <= i < |segs| ==> segs[i] == RenderPart(Split(text)[i], OverviewStrongClass))
              && (forall i :: 0 <= i < |segs| && i % 2 == 1 ==>
                    segs[i].Strong? && segs[i].className == OverviewStrongClass &&
                    Split(text)[i] == "**" + segs[i].text + "**")
              && (forall i :: 0 <= i < |segs| && segs[i].Plain? ==> segs[i].text == Split(text)[i])
  {
    if data.None? then NoMarketData else Overview(RenderOverview(data.value.marketOverview))
  }
}
