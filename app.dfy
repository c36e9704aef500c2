/** The dashboard component: its four pieces of state, the refresh cycle that
    updates them, the two tab buttons, and the values the page shows for a
    given state. */
module App {
  import opened Wrappers
  import opened JsValues
  import opened Types
  import GeminiService

  datatype Tab = MarketTab | EssentialsTab

  /** The message shown after a failed refresh ("error receiving data, please
      try again"). */
  const FetchErrorMessage: string := "خطا در دریافت اطلاعات. لطفاً دوباره تلاش کنید."

  /** The state of the component between renders. */
  class Dashboard {
    var data: Option<DashboardData>
    var status: FetchStatus
    var error: Option<string>
    var activeTab: Tab

    /** What the refresh cycle keeps true: the error message is present
        exactly in the error status, nothing is shown before the first
        refresh, and a snapshot on display is a complete one. */
    ghost predicate Valid()
      reads this
    {
      (status == Error <==> error == Some(FetchErrorMessage)) &&
      (status != Error ==> error.None?) &&
      (status == Idle ==> data.None?) &&
      (status == Success ==> data.Some?) &&
      (data.Some? ==> GeminiService.SnapshotComplete(data.value))
    }

    /** The initial state of the four `useState` hooks. */
    constructor ()
      ensures Valid()
      ensures data.None? && status == Idle && error.None? && activeTab == MarketTab
    {
      data := None;
      status := Idle;
      error := None;
      activeTab := MarketTab;
    }

    /** The synchronous start of `fetchData`. */
    method BeginFetch()
      requires Valid()
      modifies this
      ensures Valid()
      ensures status == Loading && error.None?
      ensures data == old(data) && activeTab == old(activeTab)
    {
      status := Loading;
      error := None;
    }

    /** The awaited call returned `result`. */
    method FetchSucceeded(result: DashboardData)
      requires Valid() && status == Loading
      requires GeminiService.SnapshotComplete(result)
      modifies this
      ensures Valid()
      ensures data == Some(result) && status == Success && error.None?
      ensures activeTab == old(activeTab)
    {
      data := Some(result);
      status := Success;
    }

    /** The awaited call threw: the previous snapshot stays. */
    method FetchFailed()
      requires Valid() && status == Loading
      modifies this
      ensures Valid()
      ensures data == old(data) && status == Error && error == Some(FetchErrorMessage)
      ensures activeTab == old(activeTab)
    {
      error := Some(FetchErrorMessage);
      status := Error;
    }

    /** `fetchData` from start to finish, once the provider call has settled
        with `outcome`. */
    method FetchData(outcome: GeminiService.ProviderOutcome, parse: GeminiService.JsonParser, lastUpdated: string)
      requires Valid()
      modifies this
      ensures Valid()
      ensures activeTab == old(activeTab) && status != Loading
      ensures outcome.ProviderFailed? ==>
                data == old(data) && status == Error && error == Some(FetchErrorMessage)
      ensures outcome.Responded? ==>
                var r := GeminiService.Normalise(outcome.response, parse, lastUpdated);
                if r.Ok? then data == Some(r.value) && status == Success && error.None?
                else data == old(data) && status == Error && error == Some(FetchErrorMessage)
    {
      BeginFetch();
      var result := GeminiService.FetchLivePrices(outcome, parse, lastUpdated);
      if result.Ok? {
        FetchSucceeded(result.value);
      } else {
        FetchFailed();
      }
    }

    /** A click on the refresh button, which is disabled while a refresh is
        outstanding: a click then does nothing. */
    method PressRefresh() returns (started: bool)
      requires Valid()
      modifies this
      ensures Valid()
      ensures started <==> old(status) != Loading
      ensures started ==> status == Loading && error.None? && data == old(data) && activeTab == old(activeTab)
      ensures !started ==> unchanged(this)
    {
      started := !RefreshDisabled(status);
      if started {
        BeginFetch();
      }
    }

    /** The error banner is on screen exactly in the error status. */
    lemma ErrorBannerExactlyOnError()
      requires Valid()
      ensures ErrorBanner(error).Some? <==> status == Error
      ensures ErrorBanner(error).Some? ==> ErrorBanner(error).value == FetchErrorMessage
    {
    }

    /** A refresh, started from a settled state, that ends in an error (the
        provider threw, or the payload was `null`): the banner shows the fixed
        message, and the previous snapshot's time, sources and prices stay on
        screen. */
    method RefreshFailsKeepingDisplay(outcome: GeminiService.ProviderOutcome, parse: GeminiService.JsonParser,
                                      lastUpdated: string)
      requires Valid() && status != Loading
      requires outcome.ProviderFailed? || GeminiService.Normalise(outcome.response, parse, lastUpdated).Err?
      modifies this
      ensures Valid()
      ensures ErrorBanner(error) == Some(FetchErrorMessage)
      ensures LastUpdatedText(status, data) == LastUpdatedText(old(status), old(data))
      ensures SourcesPanel(status, data) == SourcesPanel(old(status), old(data))
      ensures forall f: Field :: PriceText(data, f) == PriceText(old(data), f)
    {
      FetchData(outcome, parse, lastUpdated);
    }

    /** One of the two tab buttons. */
    method SelectTab(t: Tab)
      requires Valid()
      modifies this
      ensures Valid()
      ensures activeTab == t
      ensures data == old(data) && status == old(status) && error == old(error)
    {
      activeTab := t;
    }
  }

  // ---------------------------------------------------------------------
  // What the page shows
  // ---------------------------------------------------------------------

  /** `disabled={status === 'loading'}` on the refresh button. */
  function RefreshDisabled(status: FetchStatus): bool {
    status == Loading
  }

  const Placeholder: Json := JString("---")

  /** The price on a card: `data?.<category>.<field> || "---"`. */
  function PriceText(data: Option<DashboardData>, f: Field): (r: Json)
    ensures Truthy(r)
    ensures data.Some? && Truthy(FieldOf(data.value, f)) ==> r == FieldOf(data.value, f)
    ensures data.None? || !Truthy(FieldOf(data.value, f)) ==> r == Placeholder
  {
    if data.Some? then Or(Some(FieldOf(data.value, f)), Placeholder) else Placeholder
  }

  /** The cards of the selected tab, in page order (the ounce card comes
      before the oil card). */
  function VisibleFields(tab: Tab): seq<Field> {
    match tab
    case MarketTab => [Gold18k, Usd, Eur, Ounce, Oil]
    case EssentialsTab => [Rice, Chicken, Meat, Sugar, Eggs]
  }

  /** The last-updated box: `'...'` while loading, otherwise the snapshot's
      time or `'---'`. */
  function LastUpdatedText(status: FetchStatus, data: Option<DashboardData>): (r: string)
    ensures status == Loading ==> r == "..."
    ensures status != Loading && data.Some? && data.value.lastUpdated != "" ==> r == data.value.lastUpdated
    ensures status != Loading && (data.None? || data.value.lastUpdated == "") ==> r == "---"
  {
    if status == Loading then "..."
    else if data.Some? && data.value.lastUpdated != "" then data.value.lastUpdated
    else "---"
  }

  /** What the sources box holds. */
  datatype SourcesView =
    | Skeleton                      // pulsing placeholder bars while loading
    | SourceLinks(urls: seq<string>) // one link per source, in order
    | NoSourcesNote                 // "no source found or not received yet"

  /** Lines 195-217: skeleton while loading, else the links when the snapshot
      has a non-empty source list, else the note. */
  function SourcesPanel(status: FetchStatus, data: Option<DashboardData>): (r: SourcesView)
    ensures r.Skeleton? <==> status == Loading
    ensures r.SourceLinks? <==>
              status != Loading && data.Some? && data.value.sources.Some? && |data.value.sources.value| > 0
    ensures r.SourceLinks? ==> r.urls == data.value.sources.value
  {
    if status == Loading then Skeleton
    else if data.Some? && data.value.sources.Some? && |data.value.sources.value| > 0 then
      SourceLinks(data.value.sources.value)
    else NoSourcesNote
  }

  /** The error banner: shown when `error` is a non-empty string. */
  function ErrorBanner(error: Option<string>): (r: Option<string>)
    ensures r.Some? <==> error.Some? && error.value != ""
    ensures r.Some? ==> r == error
  {
    if error.Some? && error.value != "" then error else None
  }

  /** The selected tab shows exactly the five cards of its category, once each. */
  lemma VisibleFieldsOfTab(tab: Tab)
    ensures |VisibleFields(tab)| == 5
    ensures forall i, j :: 0 <= i < j < 5 ==> VisibleFields(tab)[i] != VisibleFields(tab)[j]
    ensures forall f: Field :: f in VisibleFields(tab) <==>
              CategoryOf(f) == (if tab == MarketTab then MarketCategory else EssentialsCategory)
  {
    forall f: Field ensures f in VisibleFields(tab) <==>
      CategoryOf(f) == (if tab == MarketTab then MarketCategory else EssentialsCategory)
    {
      match f
      case Gold18k => assert VisibleFields(MarketTab)[0] == f;
      case Usd => assert VisibleFields(MarketTab)[1] == f;
      case Eur => assert VisibleFields(MarketTab)[2] == f;
      case Ounce => assert VisibleFields(MarketTab)[3] == f;
      case Oil => assert VisibleFields(MarketTab)[4] == f;
      case Rice => assert VisibleFields(EssentialsTab)[0] == f;
      case Chicken => assert VisibleFields(EssentialsTab)[1] == f;
      case Meat => assert VisibleFields(EssentialsTab)[2] == f;
      case Sugar => assert VisibleFields(EssentialsTab)[3] == f;
      case Eggs => assert VisibleFields(EssentialsTab)[4] == f;
    }
  }

  /** After a successful refresh every card shows the reply's own value for
      its field when that value is truthy, and the "unknown" sentinel
      otherwise: never the `---` placeholder. */
  lemma RefreshedCardsShowReply(response: GeminiService.Response, parse: GeminiService.JsonParser,
                                lastUpdated: string, f: Field)
    requires GeminiService.Normalise(response, parse, lastUpdated).Ok?
    ensures var parsed := GeminiService.ParsedData(GeminiService.ResponseText(response), parse);
            !parsed.JNull? &&
            var v := GeminiService.Lookup(parsed, f);
            PriceText(Some(GeminiService.Normalise(response, parse, lastUpdated).value), f) ==
              (if TruthyOpt(v) then v.value else GeminiService.Sentinel)
  {
    GeminiService.NormaliseFailsOnlyOnNull(response, parse, lastUpdated);
    GeminiService.FieldsFollowReply(response, parse, lastUpdated);
    GeminiService.NormaliseComplete(response, parse, lastUpdated);
  }

  /** After a successful refresh the sources box lists the de-duplicated
      citations when some chunk of the first candidate carries a truthy URI,
      and shows the "no source" note otherwise. */
  lemma RefreshedSourcesPanel(response: GeminiService.Response, parse: GeminiService.JsonParser,
                              lastUpdated: string, status: FetchStatus)
    requires GeminiService.Normalise(response, parse, lastUpdated).Ok?
    requires status != Loading
    ensures var d := GeminiService.Normalise(response, parse, lastUpdated).value;
            var chunks := GeminiService.FirstCandidateChunks(response);
            var cited := chunks.Some? &&
                         exists k, u :: 0 <= k < |chunks.value| && GeminiService.HasUri(chunks.value[k], u);
            (cited ==> SourcesPanel(status, Some(d)) == SourceLinks(d.sources.value)) &&
            (!cited ==> SourcesPanel(status, Some(d)) == NoSourcesNote)
  {
    var d := GeminiService.Normalise(response, parse, lastUpdated).value;
    var chunks := GeminiService.FirstCandidateChunks(response);
    GeminiService.SnapshotSources(response, parse, lastUpdated);
    if chunks.Some? {
      var cs := chunks.value;
      if exists k, u :: 0 <= k < |cs| && GeminiService.HasUri(cs[k], u) {
        var k, u :| 0 <= k < |cs| && GeminiService.HasUri(cs[k], u);
        assert u in d.sources.value;
      } else {
        assert forall u :: u !in d.sources.value;
      }
    }
  }
}
