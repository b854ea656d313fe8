/** The records the report generator exchanges with the language model and
    the patent-statistics parser. They carry no behaviour of their own; a
    Python `Optional[...]` field is an `Option`, a `list` a `seq`. */
module Schemas {
  import opened Wrappers

  /** One source cited for a market-size figure. */
  datatype MarketSource = MarketSource(
    sourceName: Option<string>,
    issuingOrganization: Option<string>,
    publishYear: Option<int>,
    keyBasis: Option<string>,
    linkOrId: Option<string>)

  /** A market-size forecast: years and values are aligned lists whose
      entries may be null. */
  datatype MarketForecast = MarketForecast(
    currency: Option<string>,
    unit: Option<string>,
    years: seq<Option<int>>,
    valuesInt: seq<Option<int>>,
    forecastMethod: Option<string>,
    sources: Option<seq<MarketSource>>)

  /** One source cited for a competitor. */
  datatype CompetitorSource = CompetitorSource(
    sourceName: Option<string>,
    publishYear: Option<int>,
    linkOrId: Option<string>)

  datatype CompetitorInfo = CompetitorInfo(
    name: Option<string>,
    country: Option<string>,
    similarityReason: Option<string>,
    productServiceSummary: Option<string>,
    businessModel: seq<Option<string>>,
    sources: seq<CompetitorSource>)

  /** What the market item asks the model for. */
  datatype MarketForecastAndCompetitors = MarketForecastAndCompetitors(
    overseasMarket: Option<MarketForecast>,
    koreaMarket: Option<MarketForecast>,
    competitors: Option<seq<CompetitorInfo>>)

  /** The generic report item; only its `evaluation` text is read by the
      pipeline. */
  datatype ReportItemResult = ReportItemResult(evaluation: string)

  /** One patent classification proposed for the business plan. */
  datatype IpcAnalysisItem = IpcAnalysisItem(
    ipcCode: string,
    ipcName: string,
    linkedBusinessFunction: string,
    justification: string)

  datatype IpcAnalysisResult = IpcAnalysisResult(ipcAnalysis: seq<IpcAnalysisItem>)

  /** Yearly patent counts: `years[i]` is counted `valuesInt[i]` times. */
  datatype YearSeries = YearSeries(years: seq<int>, valuesInt: seq<int>)

  datatype KiprisYearAggregates = KiprisYearAggregates(
    application: YearSeries,
    publication: YearSeries,
    registration: YearSeries)
}
