/** The record shapes the dashboard passes around: the two price categories,
    one query's snapshot, a grounding citation and the fetch status. */
module Types {
  import opened Wrappers
  import opened JsValues

  /** The five financial-market prices. A price is whatever truthy value the
      model's reply carried (normally a string), or the "unknown" sentinel. */
  datatype MarketData = MarketData(gold18k: Json, usd: Json, eur: Json, oil: Json, ounce: Json)

  /** The five consumer-staple prices. */
  datatype EssentialsData = EssentialsData(rice: Json, chicken: Json, meat: Json, sugar: Json, eggs: Json)

  /** One query's snapshot; `sources` is optional in the record type. */
  datatype DashboardData = DashboardData(
    market: MarketData,
    essentials: EssentialsData,
    lastUpdated: string,
    sources: Option<seq<string>>)

  /** The web part of a grounding chunk. */
  datatype WebSource = WebSource(uri: string, title: string)

  /** A citation record from the provider's grounding metadata. */
  datatype GroundingChunk = GroundingChunk(web: Option<WebSource>)

  datatype FetchStatus = Idle | Loading | Success | Error

  /** The two price categories of the reply object. */
  datatype Category = MarketCategory | EssentialsCategory

  /** The ten fixed price fields. */
  datatype Field =
    | Gold18k | Usd | Eur | Oil | Ounce
    | Rice | Chicken | Meat | Sugar | Eggs

  function CategoryOf(f: Field): Category {
    match f
    case Gold18k | Usd | Eur | Oil | Ounce => MarketCategory
    case _ => EssentialsCategory
  }

  /** The property name of a category in the reply object. */
  function CategoryName(c: Category): string {
    match c
    case MarketCategory => "market"
    case EssentialsCategory => "essentials"
  }

  /** The property name of a field inside its category object. */
  function FieldName(f: Field): string {
    match f
    case Gold18k => "gold18k"
    case Usd => "usd"
    case Eur => "eur"
    case Oil => "oil"
    case Ounce => "ounce"
    case Rice => "rice"
    case Chicken => "chicken"
    case Meat => "meat"
    case Sugar => "sugar"
    case Eggs => "eggs"
  }

  /** The value a snapshot holds for a field. */
  function FieldOf(d: DashboardData, f: Field): Json {
    match f
    case Gold18k => d.market.gold18k
    case Usd => d.market.usd
    case Eur => d.market.eur
    case Oil => d.market.oil
    case Ounce => d.market.ounce
    case Rice => d.essentials.rice
    case Chicken => d.essentials.chicken
    case Meat => d.essentials.meat
    case Sugar => d.essentials.sugar
    case Eggs => d.essentials.eggs
  }
}
