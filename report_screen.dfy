/**
 * The decision logic of the report screen: which report the route names,
 * the effects that storing the currently viewed report issues and when
 * the component lifecycle re-issues them, when the loader is shown, the
 * chat footer's minimum height, and the store keys the screen subscribes to.
 *
 * The external calls the screen makes (the report actions and the composer
 * toggle) are not executed here; each one appends an Effect to the
 * screen's log, so their order and number can be stated.
 */
module ReportScreen {
  import opened JsNumber

  /** The route the navigator hands to the screen; only
      `route.params.reportID` is read. */
  datatype Route = Route(reportID: string)

  /** A report action; the screen itself only asks whether there are any. */
  datatype ReportAction = ReportAction(actionName: string)

  /** One call the screen makes to code outside it, in the order made. */
  datatype Effect =
    | HandleInaccessibleReport
    | ToggleReportActionComposeView(flag: bool)
    | UpdateCurrentlyViewedReportID(reportID: int)
    | AddComment(commentReportID: Number, text: string)

  /** getReportID: the route's report ID read by parseInt with radix 10. */
  function GetReportID(route: Route): Number {
    ParseInt(route.reportID)
  }

  /** The effects of storeCurrentlyViewedReport for a parsed report ID: NaN
      marks the report inaccessible and stops; a number first resets the
      composer view, then records that report as the one being viewed. */
  function StoreEffects(reportID: Number): seq<Effect> {
    match reportID
    case NaN => [HandleInaccessibleReport]
    case Num(n) => [ToggleReportActionComposeView(true), UpdateCurrentlyViewedReportID(n)]
  }

  /** The effects of componentDidUpdate, which compares the raw route
      strings, not the parsed IDs. */
  function UpdateEffects(prevReportID: string, reportID: string): seq<Effect> {
    if reportID == prevReportID then [] else StoreEffects(ParseInt(reportID))
  }

  /** The number of times `e` occurs in `log`. */
  function Occurrences(log: seq<Effect>, e: Effect): nat {
    multiset(log)[e]
  }

  /** For a NaN report ID, handleInaccessibleReport is called exactly once and
      neither the composer toggle nor updateCurrentlyViewedReportID is. */
  lemma StoreEffectsWhenInaccessible(reportID: Number)
    requires reportID.NaN?
    ensures Occurrences(StoreEffects(reportID), HandleInaccessibleReport) == 1
    ensures forall e :: e in StoreEffects(reportID) ==>
      !e.ToggleReportActionComposeView? && !e.UpdateCurrentlyViewedReportID?
  {
  }

  /** For a numeric report ID, the composer is reset exactly once, strictly
      before the report is recorded as viewed exactly once; nothing else is
      called. */
  lemma StoreEffectsWhenNumeric(reportID: Number)
    requires reportID.Num?
    ensures var log := StoreEffects(reportID);
      && Occurrences(log, HandleInaccessibleReport) == 0
      && Occurrences(log, ToggleReportActionComposeView(true)) == 1
      && Occurrences(log, UpdateCurrentlyViewedReportID(reportID.value)) == 1
      && (forall e :: e in log ==>
            e == ToggleReportActionComposeView(true) || e == UpdateCurrentlyViewedReportID(reportID.value))
      && (forall i, j ::
            && 0 <= i < |log| && 0 <= j < |log|
            && log[i] == ToggleReportActionComposeView(true)
            && log[j] == UpdateCurrentlyViewedReportID(reportID.value)
            ==> i < j)
  {
    var log := StoreEffects(reportID);
    assert multiset(log) == multiset{log[0]} + multiset{log[1]} by {
      assert log == [log[0]] + [log[1]];
    }
  }

  /** The effects of a whole visit: mounting on `mounted`, then the updates
      that bring each raw route string of `later` in turn. */
  function SessionEffects(mounted: string, later: seq<string>): seq<Effect> {
    StoreEffects(ParseInt(mounted)) + NavigationEffects(mounted, later)
  }

  function NavigationEffects(current: string, later: seq<string>): seq<Effect>
    decreases |later|
  {
    if later == [] then [] else UpdateEffects(current, later[0]) + NavigationEffects(later[0], later[1..])
  }

  /** The raw report ID shown last in a visit. */
  function LastReportID(mounted: string, later: seq<string>): string {
    if later == [] then mounted else later[|later| - 1]
  }

  /** The last effect that storing the report `reportID` issues. */
  function FinalStoreEffect(reportID: Number): Effect {
    match reportID
    case NaN => HandleInaccessibleReport
    case Num(n) => UpdateCurrentlyViewedReportID(n)
  }

  /** A visit that continues to `later[0]` is the rest of the visit from
      there, preceded by the mount's effects when the raw string changed. */
  lemma SessionStep(mounted: string, later: seq<string>)
    requires later != []
    ensures SessionEffects(mounted, later) ==
      if later[0] == mounted then SessionEffects(later[0], later[1..])
      else StoreEffects(ParseInt(mounted)) + SessionEffects(later[0], later[1..])
  {
    var next := later[0];
    var nav := NavigationEffects(next, later[1..]);
    assert NavigationEffects(mounted, later) == UpdateEffects(mounted, next) + nav;
  }

  /** True when `log` is not empty and its last effect is `e`. */
  predicate EndsWith(log: seq<Effect>, e: Effect) {
    log != [] && log[|log| - 1] == e
  }

  /** Storing a report ends with its final effect. */
  lemma StoreEndsWithFinal(reportID: Number)
    ensures EndsWith(StoreEffects(reportID), FinalStoreEffect(reportID))
  {
  }

  /** Effects put in front of a log do not change how it ends. */
  lemma EndsWithPrefixed(a: seq<Effect>, b: seq<Effect>, e: Effect)
    requires EndsWith(b, e)
    ensures EndsWith(a + b, e)
  {
  }

  /** Whatever the navigation, the last effect of a visit is about the report
      on screen at its end: it records that report as viewed, or marks it
      inaccessible. An update to the same raw string issues nothing, so the
      effect of the last change stays the last one. */
  lemma {:induction false} SessionEndsWithCurrentReport(mounted: string, later: seq<string>)
    decreases |later|
    ensures EndsWith(SessionEffects(mounted, later), FinalStoreEffect(ParseInt(LastReportID(mounted, later))))
  {
    if later == [] {
      assert SessionEffects(mounted, later) == StoreEffects(ParseInt(mounted));
      StoreEndsWithFinal(ParseInt(mounted));
    } else {
      var rest := SessionEffects(later[0], later[1..]);
      var last := FinalStoreEffect(ParseInt(LastReportID(mounted, later)));
      SessionEndsWithCurrentReport(later[0], later[1..]);
      assert LastReportID(later[0], later[1..]) == LastReportID(mounted, later);
      assert EndsWith(rest, last);
      SessionStep(mounted, later);
      EndsWithPrefixed(StoreEffects(ParseInt(mounted)), rest, last);
    }
  }

  /** Revisiting the same raw route string any number of times after the
      mount issues nothing beyond the mount's own effects. */
  lemma {:induction false} RepeatedRouteIsQuiet(mounted: string, later: seq<string>)
    requires forall i :: 0 <= i < |later| ==> later[i] == mounted
    ensures SessionEffects(mounted, later) == StoreEffects(ParseInt(mounted))
  {
    if later != [] {
      RepeatedRouteIsQuiet(mounted, later[1..]);
    }
  }

  /** A change of the raw route string to one that does not parse marks
      the report inaccessible, and does nothing else, whatever the previous
      string was (an unparsable one included). */
  lemma InaccessibleOnEachUnparsableChange(prev: string, next: string)
    requires prev != next && ParseInt(next) == NaN
    ensures UpdateEffects(prev, next) == [HandleInaccessibleReport]
  {
  }

  /** A zero put in front of a numeric route string keeps the parsed ID but
      changes the raw string, so the update re-runs the store. */
  lemma LeadingZeroReRunsStore(prev: string, next: string)
    requires prev != [] && IsDecimalDigit(prev[0])
    requires next == ['0'] + prev
    ensures GetReportID(Route(next)) == GetReportID(Route(prev))
    ensures UpdateEffects(prev, next) == StoreEffects(GetReportID(Route(prev)))
    ensures UpdateEffects(prev, next) != []
  {
    ParseIntLeadingZero(next, prev);
  }

  /** The loader shows for a route whose digit run holds no digit but '0'
      (the empty run included), whatever the report actions. */
  lemma LoaderForZeroOrMissingID(screen: Screen)
    requires forall i :: 0 <= i < |DigitRun(screen.route.reportID)| ==> DigitRun(screen.route.reportID)[i] == '0'
    ensures screen.ShouldShowLoader()
  {
    ParseIntFalsy(screen.route.reportID);
  }

  /** A style value: a length or any other value. */
  datatype StyleValue = Length(pixels: int) | Other(text: string)

  /** setChatFooterStyles: the chat footer style with `minHeight` set to the
      footer's minimum height online and to 0 offline. */
  function ChatFooterStyles(chatFooter: map<string, StyleValue>, isOffline: bool, chatFooterMinHeight: int): (style: map<string, StyleValue>)
    ensures style.Keys == chatFooter.Keys + {"minHeight"}
    ensures forall k :: k in chatFooter && k != "minHeight" ==> style[k] == chatFooter[k]
    ensures style["minHeight"] == Length(if isOffline then 0 else chatFooterMinHeight)
  {
    chatFooter["minHeight" := Length(if !isOffline then chatFooterMinHeight else 0)]
  }

  /** The key strings of the store (the ONYXKEYS table): static keys and
      the prefixes of the per-report collections. */
  datatype OnyxKeys = OnyxKeys(
    isSidebarLoaded: string,
    session: string,
    isLoadingReportData: string,
    betas: string,
    policyCollection: string,
    reportActionsCollection: string,
    reportCollection: string,
    reportIsComposerFullSizeCollection: string,
    isLoadingReportActionsCollection: string)

  /** A subscription key: static, or a collection prefix followed by the
      report ID. */
  datatype KeySpec = Static(key: string) | PerReport(collection: string)

  /** The screen's subscription table, by prop name. */
  function SubscriptionTable(keys: OnyxKeys): map<string, KeySpec> {
    map[
      "isSidebarLoaded" := Static(keys.isSidebarLoaded),
      "session" := Static(keys.session),
      "reportActions" := PerReport(keys.reportActionsCollection),
      "report" := PerReport(keys.reportCollection),
      "isLoadingReportData" := Static(keys.isLoadingReportData),
      "isComposerFullSize" := PerReport(keys.reportIsComposerFullSizeCollection),
      "betas" := Static(keys.betas),
      "isLoadingReportActions" := PerReport(keys.isLoadingReportActionsCollection),
      "policies" := Static(keys.policyCollection)
    ]
  }

  /** The key a table entry names for a route: the template literal
      `${prefix}${getReportID(route)}` for a per-report entry. */
  function ResolveKey(spec: KeySpec, route: Route): string {
    match spec
    case Static(k) => k
    case PerReport(c) => c + NumberToString(GetReportID(route))
  }

  /** The key of every subscribed prop for a route. */
  function SubscriptionKeys(keys: OnyxKeys, route: Route): (subscribed: map<string, string>)
    ensures subscribed.Keys == SubscriptionTable(keys).Keys
  {
    var table := SubscriptionTable(keys);
    map p | p in table :: ResolveKey(table[p], route)
  }

  /** Static entries ignore the route; per-report entries are their prefix
      and the string form of the parsed ID ("NaN" when it does not parse). */
  lemma SubscriptionKeyShapes(keys: OnyxKeys, route: Route)
    ensures var subscribed := SubscriptionKeys(keys, route);
      && subscribed["session"] == keys.session
      && subscribed["betas"] == keys.betas
      && subscribed["policies"] == keys.policyCollection
      && subscribed["isSidebarLoaded"] == keys.isSidebarLoaded
      && subscribed["isLoadingReportData"] == keys.isLoadingReportData
      && subscribed["reportActions"] == keys.reportActionsCollection + NumberToString(GetReportID(route))
      && subscribed["report"] == keys.reportCollection + NumberToString(GetReportID(route))
      && subscribed["isComposerFullSize"] == keys.reportIsComposerFullSizeCollection + NumberToString(GetReportID(route))
      && subscribed["isLoadingReportActions"] == keys.isLoadingReportActionsCollection + NumberToString(GetReportID(route))
  {
  }

  /** A route whose ID does not parse subscribes to `<prefix>NaN`. */
  lemma UnparsedRouteKey(collection: string, route: Route)
    requires GetReportID(route) == NaN
    ensures ResolveKey(PerReport(collection), route) == collection + "NaN"
  {
  }

  /** Two routes with the same parsed ID subscribe to the same keys. */
  lemma SameReportSameKeys(keys: OnyxKeys, r1: Route, r2: Route)
    requires GetReportID(r1) == GetReportID(r2)
    ensures SubscriptionKeys(keys, r1) == SubscriptionKeys(keys, r2)
  {
  }

  /** Two routes with different parsed IDs get different keys for every
      per-report entry: no two reports share a collection key. */
  lemma DistinctReportsDistinctKeys(collection: string, r1: Route, r2: Route)
    requires GetReportID(r1) != GetReportID(r2)
    ensures ResolveKey(PerReport(collection), r1) != ResolveKey(PerReport(collection), r2)
  {
    var s1 := NumberToString(GetReportID(r1));
    var s2 := NumberToString(GetReportID(r2));
    if collection + s1 == collection + s2 {
      assert s1 == (collection + s1)[|collection|..];
      assert s2 == (collection + s2)[|collection|..];
      NumberToStringInjective(GetReportID(r1), GetReportID(r2));
    }
  }

  /** The report screen component: the props it reads and the log of the
      external calls it has made. */
  class Screen {
    var route: Route
    var reportActions: map<string, ReportAction>
    var isLoadingReportActions: bool
    var effects: seq<Effect>

    /** The constructor only binds handlers: no external call is made. */
    constructor (route: Route, reportActions: map<string, ReportAction>, isLoadingReportActions: bool)
      ensures this.route == route && this.reportActions == reportActions
      ensures this.isLoadingReportActions == isLoadingReportActions
      ensures effects == []
    {
      this.route := route;
      this.reportActions := reportActions;
      this.isLoadingReportActions := isLoadingReportActions;
      effects := [];
    }

    /** componentDidMount: store the currently viewed report once. */
    method ComponentDidMount()
      modifies this`effects
      ensures effects == old(effects) + StoreEffects(GetReportID(route))
    {
      StoreCurrentlyViewedReport();
    }

    /** componentDidUpdate: store the currently viewed report again only when
        the raw report ID string differs from the previous props'. */
    method ComponentDidUpdate(prevRoute: Route)
      modifies this`effects
      ensures effects == old(effects) + UpdateEffects(prevRoute.reportID, route.reportID)
    {
      if route.reportID == prevRoute.reportID {
        return;
      }
      StoreCurrentlyViewedReport();
    }

    /** New props arrive from the navigator and the store, and then
        componentDidUpdate runs with the previous props. */
    method ReceiveProps(newRoute: Route, newReportActions: map<string, ReportAction>, newIsLoadingReportActions: bool)
      modifies this
      ensures route == newRoute && reportActions == newReportActions
      ensures isLoadingReportActions == newIsLoadingReportActions
      ensures effects == old(effects) + UpdateEffects(old(route).reportID, newRoute.reportID)
    {
      var prevRoute := route;
      route, reportActions, isLoadingReportActions := newRoute, newReportActions, newIsLoadingReportActions;
      ComponentDidUpdate(prevRoute);
    }

    /** onSubmitComment: add the comment to the report the route names. */
    method OnSubmitComment(text: string)
      modifies this`effects
      ensures effects == old(effects) + [AddComment(GetReportID(route), text)]
    {
      effects := effects + [AddComment(GetReportID(route), text)];
    }

    /** shouldShowLoader: the report ID is falsy (NaN or zero), or there
        are no report actions yet and they are still loading. */
    function ShouldShowLoader(): (show: bool)
      reads this
      ensures show <==> || GetReportID(route) == NaN || GetReportID(route) == Num(0)
                        || (|reportActions| == 0 && isLoadingReportActions)
    {
      var isLoadingInitialReportActions := reportActions == map[] && isLoadingReportActions;
      var reportID := GetReportID(route);
      assert !Truthy(reportID) <==> reportID == NaN || reportID == Num(0);
      !Truthy(reportID) || isLoadingInitialReportActions
    }

    /** storeCurrentlyViewedReport: an unparsable ID is reported as
        inaccessible and nothing else happens; otherwise the composer view
        is reset and then the ID is recorded as the one being viewed. */
    method StoreCurrentlyViewedReport()
      modifies this`effects
      ensures effects == old(effects) + StoreEffects(GetReportID(route))
    {
      var reportID := GetReportID(route);
      if reportID.NaN? {
        effects := effects + [HandleInaccessibleReport];
        return;
      }
      effects := effects + [ToggleReportActionComposeView(true)];
      effects := effects + [UpdateCurrentlyViewedReportID(reportID.value)];
    }
  }

  /** One more update at the end of a visit adds the update rule's effects
      against the raw string shown until then. */
  lemma {:induction false} NavigationEffectsAppend(current: string, later: seq<string>, next: string)
    decreases |later|
    ensures NavigationEffects(current, later + [next]) ==
      NavigationEffects(current, later) + UpdateEffects(LastReportID(current, later), next)
  {
    if later == [] {
      assert later + [next] == [next];
      assert NavigationEffects(next, []) == [];
    } else {
      var rest := later[1..];
      assert (later + [next])[0] == later[0];
      assert (later + [next])[1..] == rest + [next];
      NavigationEffectsAppend(later[0], rest, next);
      assert LastReportID(later[0], rest) == LastReportID(current, later);
    }
  }

  /** The visit through one more route of `later`: the effects so far,
      then the update rule against the route shown until then. */
  lemma SessionEffectsStep(mounted: string, later: seq<string>, i: nat)
    requires i < |later|
    ensures LastReportID(mounted, later[..i + 1]) == later[i]
    ensures SessionEffects(mounted, later[..i + 1]) ==
      SessionEffects(mounted, later[..i]) + UpdateEffects(LastReportID(mounted, later[..i]), later[i])
  {
    assert later[..i + 1] == later[..i] + [later[i]];
    NavigationEffectsAppend(mounted, later[..i], later[i]);
  }

  /** A whole visit of the component: construct the screen on the route
      `mounted`, mount it, then deliver the routes of `later` one by one.
      The log is the visit's specification, and it ends with the store
      effect of the report on screen at the end. */
  method Visit(mounted: string, later: seq<string>, reportActions: map<string, ReportAction>, isLoadingReportActions: bool)
    returns (screen: Screen)
    ensures screen.route == Route(LastReportID(mounted, later))
    ensures screen.effects == SessionEffects(mounted, later)
    ensures EndsWith(screen.effects, FinalStoreEffect(GetReportID(screen.route)))
  {
    screen := new Screen(Route(mounted), reportActions, isLoadingReportActions);
    screen.ComponentDidMount();
    assert later[..0] == [];
    var i := 0;
    while i < |later|
      invariant 0 <= i <= |later|
      invariant screen.route == Route(LastReportID(mounted, later[..i]))
      invariant screen.effects == SessionEffects(mounted, later[..i])
    {
      SessionEffectsStep(mounted, later, i);
      screen.ReceiveProps(Route(later[i]), reportActions, isLoadingReportActions);
      i := i + 1;
    }
    assert later[..|later|] == later;
    SessionEndsWithCurrentReport(mounted, later);
  }
}
