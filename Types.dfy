/**
 * The records the dashboard passes around (types.ts), as Dafny values.
 * Text is `string` (`seq<char>`); JSON numbers are `real`; a field that
 * may be missing at run time is an `Option`.
 */
module Types {

  datatype Option<+T> = None | Some(value: T)

  /** The pages the navigation bar offers. */
  datatype Page =
    | MarketIntelligencePage
    | CompetitiveIntelligencePage
    | SourcesPage
    | SharePriceIndexPage
    | IndiaNewsPage
    | InternationalNewsPage

  /** The market regions a report can be scoped to; `India` is pan-India. */
  datatype Geography = India | Gurgaon | Delhi | Mumbai | Panchkula | Chennai | Kerala

  datatype ChangeType = Increase | Decrease | Neutral

  datatype SwotAnalysis = SwotAnalysis(
    strengths: seq<string>,
    weaknesses: seq<string>,
    opportunities: seq<string>,
    threats: seq<string>)

  datatype Kpi = Kpi(name: string, value: string, change: string, changeType: ChangeType)

  datatype TrendDataPoint = TrendDataPoint(quarter: string, averagePrice: real, unitsSold: real)

  datatype DemandProfileItem = DemandProfileItem(category: string, percentage: real)

  datatype DemandProfile = DemandProfile(
    byConfiguration: seq<DemandProfileItem>,
    byTicketSize: seq<DemandProfileItem>)

  datatype MarketData = MarketData(
    marketOverview: string,
    swot: SwotAnalysis,
    kpis: seq<Kpi>,
    trends: seq<TrendDataPoint>,
    demandProfile: DemandProfile)

  datatype ProjectLaunch = ProjectLaunch(
    developerName: string,
    projectName: string,
    location: string,
    priceBracket: string,
    configuration: string,
    usp: string,
    launchDate: string)

  /**
   * A provenance reference cited by the generative provider. The type
   * declares `web`, `uri` and `title` as always present, but the code that
   * consumes sources reads them through optional chaining, so the model
   * lets each of them be absent.
   */
  datatype WebReference = WebReference(uri: Option<string>, title: Option<string>)

  datatype GroundingSource = GroundingSource(web: Option<WebReference>)

  datatype SharePrice = SharePrice(
    companyName: string,
    stockSymbol: string,
    currentPrice: string,
    dayChange: string,
    dayChangePercent: string,
    changeType: ChangeType)

  datatype NewsArticle = NewsArticle(
    title: string,
    source: string,
    url: string,
    publishedDate: string,
    snippet: string)

  /** JavaScript truthiness of a possibly missing string: present and non-empty. */
  predicate Truthy(s: Option<string>)
  {
    s.Some? && s.value != ""
  }
}
