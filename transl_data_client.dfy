/**
 * The translib data client (src/sonic_data_client/transl_data_client.go):
 * construction of its path→URI map, the dispatch of Set to translib, the
 * subscription loop of StreamRun that resolves each subscription's mode
 * and sample interval and groups sample subscriptions into one ticker per
 * interval, and what one tick or one poll puts on the queue.
 *
 * translib is a parameter: `support` is what IsSubscribeSupported answers
 * for the subscriptions, `get` is TranslProcessGet (None for an error),
 * and Set yields the translib call it makes rather than its outcome.  The
 * goroutines, channels, tickers' timing and the queue's priority are not
 * modelled; a path pointer is identified by its position in the request.
 */
module TranslDataClient {
  import opened Wrappers
  import opened Gnmi
  import opened GoMaps
  import TranslUtils

  /** The flagop values of Set. */
  const DELETE: int := 0
  const REPLACE: int := 1
  const UPDATE: int := 2

  /** gnmi.SubscriptionMode as the number a request carries. */
  const TargetDefinedMode: int := 0
  const OnChangeMode: int := 1
  const SampleMode: int := 2

  /** time.Second in nanoseconds. */
  const Second: int := 1000000000

  const U64: int := 0x1_0000_0000_0000_0000

  /** The client: the request prefix and the URI of each request path, by the path's position. */
  datatype TranslClient = TranslClient(prefix: Option<Path>, path2URI: map<nat, string>)

  /**
   * NewTranslClient: with get paths, the map holds the URI of every one of
   * them; without, the map is empty.  Construction never fails.
   */
  method NewTranslClient(prefix: Option<Path>, getpaths: Option<seq<Path>>)
    returns (r: Result<TranslClient>, ghost orders: seq<seq<seq<string>>>)
    ensures r.Ok? && r.value.prefix == prefix
    ensures getpaths.None? ==> r.value.path2URI == map[]
    ensures getpaths.Some? ==>
      && (forall k: nat :: k in r.value.path2URI <==> k < |getpaths.value|)
      && |orders| == |getpaths.value|
      && forall i :: 0 <= i < |getpaths.value| ==>
           TranslUtils.RendersAs(prefix, getpaths.value[i], orders[i], r.value.path2URI[i])
  {
    var path2URI: map<nat, string> := map[];
    orders := [];
    var err := Success;
    if getpaths.Some? {
      err, path2URI, orders := TranslUtils.PopulateClientPaths(prefix, getpaths.value, map[]);
    }
    if err != Success {
      r := Err("PopulateClientPaths failed");
    } else {
      r := Ok(TranslClient(prefix, path2URI));
    }
  }

  /** `c.path2URI[id]`: the URI of a path, or "" for a path the map does not hold. */
  function UriOf(c: TranslClient, id: nat): string
  {
    if id in c.path2URI then c.path2URI[id] else ""
  }

  /* Set */

  /** The translib write a Set makes. */
  datatype TranslibCall =
    | DeleteCall(uri: string)
    | ReplaceCall(uri: string, val: TypedValue)
    | UpdateCall(uri: string, val: TypedValue)

  /**
   * Set: converts the path to its URI, then DELETE, REPLACE and UPDATE
   * make the matching translib call with that URI; any other flagop makes
   * no call, and Set then returns nil.  The error Set returns is the
   * outcome of `call`.
   */
  method Set(c: TranslClient, path: Path, val: TypedValue, flagop: int)
    returns (call: Option<TranslibCall>, ghost orders: seq<seq<string>>)
    ensures call.None? <==> flagop != DELETE && flagop != REPLACE && flagop != UPDATE
    ensures call.Some? ==> TranslUtils.RendersAs(c.prefix, path, orders, call.value.uri)
    ensures flagop == DELETE ==> call.Some? && call.value.DeleteCall?
    ensures flagop == REPLACE ==> call == Some(ReplaceCall(call.value.uri, val))
    ensures flagop == UPDATE ==> call == Some(UpdateCall(call.value.uri, val))
  {
    var _, uri, o := TranslUtils.ConvertToURI(c.prefix, path);
    orders := o;
    call := None;
    if flagop == DELETE {
      call := Some(DeleteCall(uri));
    } else if flagop == REPLACE {
      call := Some(ReplaceCall(uri, val));
    } else if flagop == UPDATE {
      call := Some(UpdateCall(uri, val));
    }
  }

  /* The subscription loop of StreamRun */

  /** One subscription: the position of its path in the request, its mode and its sample interval (uint64, in ns). */
  datatype Subscription = Subscription(pathId: nat, mode: int, sampleInterval: nat)

  /** translib's subscription types; `OtherType` stands for any type other than the two StreamRun tests for. */
  datatype PreferredType = Sample | OnChange | OtherType

  /** translib.IsSubscribeSupported's answer for one path; the minimum interval is in seconds. */
  datatype SubSupport = SubSupport(isSupported: bool, minInterval: int, preferredType: PreferredType)

  /** Why StreamRun queues a fatal message and stops. */
  datatype FatalReason =
    | InvalidPath(uri: string)
    | OnChangeInvalid(uri: string)
    | InvalidMode(mode: int)
    | InvalidInterval(interval: int, minInterval: int)

  datatype Resolution = Fatal(reason: FatalReason) | Mode(mode: int)

  /**
   * The mode switch for one subscription.  `prev` is the mode the previous
   * subscription left, which a supported TARGET_DEFINED subscription of a
   * type other than sample or on-change keeps.
   */
  function ResolveMode(prev: int, sub: Subscription, sup: SubSupport, uri: string): (r: Resolution)
    ensures r.Fatal? <==>
      || (sub.mode == OnChangeMode && !(sup.isSupported && sup.minInterval > 0))
      || (sub.mode == SampleMode && sup.minInterval <= 0)
      || (sub.mode != TargetDefinedMode && sub.mode != OnChangeMode && sub.mode != SampleMode)
    ensures r.Mode? && sub.mode != TargetDefinedMode ==> r.mode == sub.mode
    ensures r.Mode? && r.mode == OnChangeMode ==> sup.isSupported
    ensures sub.mode == TargetDefinedMode && !sup.isSupported ==> r == Mode(SampleMode)
    ensures sub.mode == TargetDefinedMode && sup.isSupported && sup.preferredType == Sample ==> r == Mode(SampleMode)
    ensures sub.mode == TargetDefinedMode && sup.isSupported && sup.preferredType == OnChange ==> r == Mode(OnChangeMode)
    ensures sub.mode == TargetDefinedMode && sup.isSupported && sup.preferredType == OtherType ==> r == Mode(prev)
  {
    if sub.mode == TargetDefinedMode then
      if sup.isSupported then
        if sup.preferredType == Sample then Mode(SampleMode)
        else if sup.preferredType == OnChange then Mode(OnChangeMode)
        else Mode(prev)
      else Mode(SampleMode)
    else if sub.mode == OnChangeMode then
      if sup.isSupported then
        if sup.minInterval > 0 then Mode(OnChangeMode) else Fatal(InvalidPath(uri))
      else Fatal(OnChangeInvalid(uri))
    else if sub.mode == SampleMode then
      if sup.minInterval > 0 then Mode(SampleMode) else Fatal(InvalidPath(uri))
    else Fatal(InvalidMode(sub.mode))
  }

  /** Go's int(x) of a uint64: values from 2^63 up wrap to negative. */
  function Int64(x: nat): (r: int)
    requires x < U64
    ensures -U64 / 2 <= r < U64 / 2
    ensures r == x || r == x - U64
  {
    if x < U64 / 2 then x else x - U64
  }

  datatype IntervalOutcome = IntervalOk(ns: int) | IntervalFatal(reason: FatalReason)

  /**
   * The interval of a sample subscription: 0 means the minimum interval;
   * a non-zero interval below the minimum is fatal.
   */
  function SampleInterval(sub: Subscription, sup: SubSupport): (r: IntervalOutcome)
    requires sub.sampleInterval < U64
    ensures sub.sampleInterval == 0 ==> r == IntervalOk(sup.minInterval * Second)
    ensures r.IntervalOk? ==> r.ns >= sup.minInterval * Second
    ensures r.IntervalOk? && sub.sampleInterval != 0 ==> r.ns == Int64(sub.sampleInterval)
    ensures r.IntervalFatal? <==> sub.sampleInterval != 0 && Int64(sub.sampleInterval) < sup.minInterval * Second
  {
    var interval := Int64(sub.sampleInterval);
    if interval == 0 then IntervalOk(sup.minInterval * Second)
    else if interval < sup.minInterval * Second then IntervalFatal(InvalidInterval(interval, sup.minInterval))
    else IntervalOk(interval)
  }

  /** A ticker: the paths it samples and their URIs, in subscription order. */
  datatype TickerInfo = TickerInfo(paths: seq<nat>, uris: seq<string>)

  /**
   * What the subscription loop builds: a ticker per sample interval, the
   * select cases (each the interval of the ticker it receives from; the
   * stop channel's case follows them), and the on-change subscriptions.
   */
  datatype Plan = Plan(
    tickers: map<int, TickerInfo>,
    cases: seq<int>,
    onChangeUris: seq<string>,
    onChangePaths: seq<nat>,
    onChangeMap: map<string, nat>)

  datatype SubscribeState = SubscribeState(mode: int, plan: Plan)

  /**
   * The loop after some subscriptions: still running, stopped after
   * queueing a fatal message, or panicking in time.NewTicker, which
   * refuses an interval that is not positive.
   */
  datatype Progress = Running(st: SubscribeState) | Stopped(reason: FatalReason) | TickerPanic(interval: int)

  predicate ValidSubscriptions(subs: seq<Subscription>, support: seq<SubSupport>)
  {
    |support| == |subs| && forall i :: 0 <= i < |subs| ==> subs[i].sampleInterval < U64
  }

  /** One pass of the subscription loop. */
  function Step(c: TranslClient, st: SubscribeState, sub: Subscription, sup: SubSupport): Progress
    requires sub.sampleInterval < U64
  {
    var uri := UriOf(c, sub.pathId);
    match ResolveMode(st.mode, sub, sup, uri)
    case Fatal(reason) => Stopped(reason)
    case Mode(m) =>
      var p := st.plan;
      if m == SampleMode then
        match SampleInterval(sub, sup)
        case IntervalFatal(reason) => Stopped(reason)
        case IntervalOk(v) =>
          if v in p.tickers then
            var t := p.tickers[v];
            Running(SubscribeState(m, p.(tickers := p.tickers[v := TickerInfo(t.paths + [sub.pathId], t.uris + [uri])])))
          else if v <= 0 then TickerPanic(v)
          else
            Running(SubscribeState(m, p.(tickers := p.tickers[v := TickerInfo([sub.pathId], [uri])], cases := p.cases + [v])))
      else if m == OnChangeMode then
        Running(SubscribeState(m, p.(onChangeUris := p.onChangeUris + [uri], onChangePaths := p.onChangePaths + [sub.pathId],
                                     onChangeMap := p.onChangeMap[uri := sub.pathId])))
      else Running(SubscribeState(m, p))
  }

  const EmptyPlan := Plan(map[], [], [], [], map[])

  /** The loop after the first `n` subscriptions. */
  function Run(c: TranslClient, subs: seq<Subscription>, support: seq<SubSupport>, n: nat): Progress
    requires ValidSubscriptions(subs, support) && n <= |subs|
  {
    if n == 0 then Running(SubscribeState(TargetDefinedMode, EmptyPlan))
    else
      match Run(c, subs, support, n - 1)
      case Running(st) => Step(c, st, subs[n - 1], support[n - 1])
      case other => other
  }

  /** Once the loop has stopped or panicked, later subscriptions change nothing. */
  lemma {:induction false} RunStays(c: TranslClient, subs: seq<Subscription>, support: seq<SubSupport>, i: nat, n: nat)
    requires ValidSubscriptions(subs, support) && i <= n <= |subs|
    requires !Run(c, subs, support, i).Running?
    ensures Run(c, subs, support, n) == Run(c, subs, support, i)
    decreases n - i
  {
    if i < n {
      RunStays(c, subs, support, i + 1, n);
    }
  }

  /**
   * StreamRun's subscription loop: looks up every subscription's URI,
   * resolves its mode and interval, and adds it to the ticker of its
   * interval (creating the ticker and its select case on first use) or to
   * the on-change lists; a fatal subscription stops the routine.
   */
  method StreamRun(c: TranslClient, subs: seq<Subscription>, support: seq<SubSupport>) returns (r: Progress)
    requires ValidSubscriptions(subs, support)
    ensures r == Run(c, subs, support, |subs|)
  {
    var stringPaths: seq<string> := [];
    for i := 0 to |subs|
      invariant |stringPaths| == i
      invariant forall j :: 0 <= j < i ==> stringPaths[j] == UriOf(c, subs[j].pathId)
    {
      stringPaths := stringPaths + [UriOf(c, subs[i].pathId)];
    }
    var tickerMap: map<int, TickerInfo> := map[];
    var cases: seq<int> := [];
    var subscribeMode := TargetDefinedMode;
    var onChangeUris: seq<string> := [];
    var onChangePaths: seq<nat> := [];
    var onChangeMap: map<string, nat> := map[];
    for i := 0 to |subs|
      invariant Run(c, subs, support, i)
        == Running(SubscribeState(subscribeMode, Plan(tickerMap, cases, onChangeUris, onChangePaths, onChangeMap)))
    {
      var sub, sup := subs[i], support[i];
      var uri := stringPaths[i];
      var resolved := ResolveMode(subscribeMode, sub, sup, uri);
      if resolved.Fatal? {
        RunStays(c, subs, support, i + 1, |subs|);
        return Stopped(resolved.reason);
      }
      subscribeMode := resolved.mode;
      if subscribeMode == SampleMode {
        var interval := SampleInterval(sub, sup);
        if interval.IntervalFatal? {
          RunStays(c, subs, support, i + 1, |subs|);
          return Stopped(interval.reason);
        }
        var v := interval.ns;
        if v !in tickerMap {
          if v <= 0 {
            RunStays(c, subs, support, i + 1, |subs|);
            return TickerPanic(v);
          }
          tickerMap := tickerMap[v := TickerInfo([sub.pathId], [uri])];
          cases := cases + [v];
        } else {
          tickerMap := tickerMap[v := TickerInfo(tickerMap[v].paths + [sub.pathId], tickerMap[v].uris + [uri])];
        }
      } else if subscribeMode == OnChangeMode {
        onChangeUris := onChangeUris + [uri];
        onChangePaths := onChangePaths + [sub.pathId];
        onChangeMap := onChangeMap[uri := sub.pathId];
      }
    }
    r := Running(SubscribeState(subscribeMode, Plan(tickerMap, cases, onChangeUris, onChangePaths, onChangeMap)));
  }

  /* What the loop guarantees about the tickers */

  /**
   * One ticker per interval: the cases name distinct positive intervals,
   * exactly the intervals of the ticker map, and each ticker holds as many
   * paths as URIs.
   */
  predicate WellFormedPlan(p: Plan)
  {
    && (forall v :: v in p.tickers ==> v in p.cases)
    && (forall k :: 0 <= k < |p.cases| ==> p.cases[k] in p.tickers)
    && (forall j, k :: 0 <= j < k < |p.cases| ==> p.cases[j] != p.cases[k])
    && (forall v :: v in p.tickers ==> v > 0 && |p.tickers[v].paths| == |p.tickers[v].uris|)
    && |p.onChangeUris| == |p.onChangePaths|
  }

  /** One pass of the loop keeps the plan well formed. */
  lemma StepWellFormed(c: TranslClient, st: SubscribeState, sub: Subscription, sup: SubSupport)
    requires sub.sampleInterval < U64 && WellFormedPlan(st.plan)
    requires Step(c, st, sub, sup).Running?
    ensures WellFormedPlan(Step(c, st, sub, sup).st.plan)
  {
    var p := st.plan;
    var p' := Step(c, st, sub, sup).st.plan;
    var r := ResolveMode(st.mode, sub, sup, UriOf(c, sub.pathId));
    if r.mode == SampleMode {
      var v := SampleInterval(sub, sup).ns;
      if v !in p.tickers {
        assert p'.cases == p.cases + [v];
        assert forall k :: 0 <= k < |p.cases| ==> p.cases[k] != v;
      } else {
        assert p'.cases == p.cases;
      }
    }
  }

  lemma {:induction false} RunWellFormed(c: TranslClient, subs: seq<Subscription>, support: seq<SubSupport>, n: nat)
    requires ValidSubscriptions(subs, support) && n <= |subs|
    requires Run(c, subs, support, n).Running?
    ensures WellFormedPlan(Run(c, subs, support, n).st.plan)
    decreases n
  {
    if n > 0 {
      RunWellFormed(c, subs, support, n - 1);
      StepWellFormed(c, Run(c, subs, support, n - 1).st, subs[n - 1], support[n - 1]);
    }
  }

  /**
   * What one pass does to the ticker of interval `v`: a subscription that
   * samples at `v` is appended to it, creating it when absent; every other
   * pass leaves it as it was.
   */
  lemma StepTicker(c: TranslClient, st: SubscribeState, sub: Subscription, sup: SubSupport, v: int)
    requires sub.sampleInterval < U64 && Step(c, st, sub, sup).Running?
    ensures var p, p' := st.plan, Step(c, st, sub, sup).st.plan;
      var samples := ResolveMode(st.mode, sub, sup, UriOf(c, sub.pathId)) == Mode(SampleMode) && SampleInterval(sub, sup) == IntervalOk(v);
      && (v in p'.tickers <==> v in p.tickers || samples)
      && (v in p'.tickers ==>
            && p'.tickers[v].uris == (if v in p.tickers then p.tickers[v].uris else []) + (if samples then [UriOf(c, sub.pathId)] else [])
            && p'.tickers[v].paths == (if v in p.tickers then p.tickers[v].paths else []) + (if samples then [sub.pathId] else []))
  {
  }

  /**
   * The mode the subscription at position `j` resolves to, when the loop
   * reaches it.
   */
  function ModeAt(c: TranslClient, subs: seq<Subscription>, support: seq<SubSupport>, j: nat): Resolution
    requires ValidSubscriptions(subs, support) && j < |subs|
    requires Run(c, subs, support, j).Running?
  {
    ResolveMode(Run(c, subs, support, j).st.mode, subs[j], support[j], UriOf(c, subs[j].pathId))
  }

  /** A running loop's mode after subscription `j` is the mode subscription `j` resolved to. */
  lemma {:induction false} ModeCarried(c: TranslClient, subs: seq<Subscription>, support: seq<SubSupport>, j: nat)
    requires ValidSubscriptions(subs, support) && j < |subs|
    requires Run(c, subs, support, j + 1).Running?
    ensures Run(c, subs, support, j).Running?
    ensures ModeAt(c, subs, support, j) == Mode(Run(c, subs, support, j + 1).st.mode)
  {
  }

  /**
   * A supported TARGET_DEFINED subscription whose preferred type is neither
   * sample nor on-change takes the mode the subscription before it resolved to
   * (the first one takes TARGET_DEFINED itself).
   */
  lemma {:induction false} TargetDefinedInherits(c: TranslClient, subs: seq<Subscription>, support: seq<SubSupport>, j: nat)
    requires ValidSubscriptions(subs, support) && j < |subs|
    requires Run(c, subs, support, j).Running?
    requires subs[j].mode == TargetDefinedMode && support[j].isSupported && support[j].preferredType == OtherType
    ensures j == 0 ==> ModeAt(c, subs, support, j) == Mode(TargetDefinedMode)
    ensures j > 0 ==> Run(c, subs, support, j - 1).Running? && ModeAt(c, subs, support, j) == ModeAt(c, subs, support, j - 1)
  {
    if j > 0 {
      ModeCarried(c, subs, support, j - 1);
    }
  }

  /** The subscription at position `j` samples at interval `v`. */
  predicate SamplesAt(c: TranslClient, subs: seq<Subscription>, support: seq<SubSupport>, j: nat, v: int)
    requires ValidSubscriptions(subs, support) && j < |subs|
  {
    && Run(c, subs, support, j).Running?
    && ModeAt(c, subs, support, j) == Mode(SampleMode)
    && SampleInterval(subs[j], support[j]) == IntervalOk(v)
  }

  /** The URIs of the first `n` subscriptions that sample at `v`, in subscription order. */
  function UrisAt(c: TranslClient, subs: seq<Subscription>, support: seq<SubSupport>, n: nat, v: int): seq<string>
    requires ValidSubscriptions(subs, support) && n <= |subs|
  {
    if n == 0 then []
    else UrisAt(c, subs, support, n - 1, v) + if SamplesAt(c, subs, support, n - 1, v) then [UriOf(c, subs[n - 1].pathId)] else []
  }

  /** The paths of the first `n` subscriptions that sample at `v`, in subscription order. */
  function PathsAt(c: TranslClient, subs: seq<Subscription>, support: seq<SubSupport>, n: nat, v: int): seq<nat>
    requires ValidSubscriptions(subs, support) && n <= |subs|
  {
    if n == 0 then []
    else PathsAt(c, subs, support, n - 1, v) + if SamplesAt(c, subs, support, n - 1, v) then [subs[n - 1].pathId] else []
  }

  /**
   * Sample subscriptions with equal intervals share one ticker: while the
   * loop runs, interval `v` has a ticker exactly when some subscription so
   * far samples at `v`, and that ticker's paths and URIs are those of the
   * subscriptions sampling at `v`, in subscription order.
   */
  lemma {:induction false} RunGroupsByInterval(c: TranslClient, subs: seq<Subscription>, support: seq<SubSupport>, n: nat, v: int)
    requires ValidSubscriptions(subs, support) && n <= |subs|
    requires Run(c, subs, support, n).Running?
    ensures v in Run(c, subs, support, n).st.plan.tickers <==> UrisAt(c, subs, support, n, v) != []
    ensures v in Run(c, subs, support, n).st.plan.tickers ==>
      && Run(c, subs, support, n).st.plan.tickers[v].uris == UrisAt(c, subs, support, n, v)
      && Run(c, subs, support, n).st.plan.tickers[v].paths == PathsAt(c, subs, support, n, v)
    decreases n
  {
    if n > 0 {
      var prev := Run(c, subs, support, n - 1);
      assert prev.Running?;
      RunGroupsByInterval(c, subs, support, n - 1, v);
      StepTicker(c, prev.st, subs[n - 1], support[n - 1], v);
      AtLengths(c, subs, support, n - 1, v);
      assert SamplesAt(c, subs, support, n - 1, v)
        == (ResolveMode(prev.st.mode, subs[n - 1], support[n - 1], UriOf(c, subs[n - 1].pathId)) == Mode(SampleMode)
            && SampleInterval(subs[n - 1], support[n - 1]) == IntervalOk(v));
    }
  }

  lemma {:induction false} AtLengths(c: TranslClient, subs: seq<Subscription>, support: seq<SubSupport>, n: nat, v: int)
    requires ValidSubscriptions(subs, support) && n <= |subs|
    ensures |UrisAt(c, subs, support, n, v)| == |PathsAt(c, subs, support, n, v)|
    decreases n
  {
    if n > 0 {
      AtLengths(c, subs, support, n - 1, v);
    }
  }

  /**
   * A subscription that asks for SAMPLE or ON_CHANGE explicitly never makes
   * the loop panic: only a TARGET_DEFINED subscription whose minimum
   * interval is not positive can reach time.NewTicker with a non-positive
   * interval, because TARGET_DEFINED resolves to SAMPLE without checking
   * the minimum.
   */
  lemma PanicOnlyFromTargetDefined(c: TranslClient, st: SubscribeState, sub: Subscription, sup: SubSupport)
    requires sub.sampleInterval < U64
    requires Step(c, st, sub, sup).TickerPanic?
    ensures sub.mode == TargetDefinedMode && sup.minInterval <= 0
  {
    var v := Step(c, st, sub, sup).interval;
    assert SampleInterval(sub, sup) == IntervalOk(v);
  }

  /** An on-change subscription is recorded with its URI and path, in the same position of both lists. */
  lemma {:induction false} OnChangeListsAgree(c: TranslClient, subs: seq<Subscription>, support: seq<SubSupport>, n: nat)
    requires ValidSubscriptions(subs, support) && n <= |subs|
    requires Run(c, subs, support, n).Running?
    ensures var p := Run(c, subs, support, n).st.plan;
      |p.onChangeUris| == |p.onChangePaths|
      && forall k :: 0 <= k < |p.onChangeUris| ==> p.onChangeUris[k] in p.onChangeMap
    decreases n
  {
    if n > 0 {
      OnChangeListsAgree(c, subs, support, n - 1);
    }
  }

  /* What one tick or one poll queues */

  /** An item the routine puts on the queue. */
  datatype Emitted = Queued(prefix: Option<Path>, pathId: nat, val: TypedValue) | Sync

  /**
   * One value per URI, in order, then one sync marker; a failed read ends
   * the routine at once, with no sync marker.  `stopped` says whether it
   * ended.
   */
  function Emission(prefix: Option<Path>, ids: seq<nat>, uris: seq<string>, get: string -> Option<TypedValue>): (r: (seq<Emitted>, bool))
    requires |ids| == |uris|
    decreases |uris|
  {
    if uris == [] then ([Sync], false)
    else match get(uris[0])
      case None => ([], true)
      case Some(val) =>
        var rest := Emission(prefix, ids[1..], uris[1..], get);
        ([Queued(prefix, ids[0], val)] + rest.0, rest.1)
  }

  /**
   * A tick or poll either reads every URI and queues exactly one update per
   * URI followed by exactly one sync marker, or stops at the first failed
   * read after queueing the updates of the URIs before it, and no sync.
   */
  lemma {:induction false} EmissionMeaning(prefix: Option<Path>, ids: seq<nat>, uris: seq<string>, get: string -> Option<TypedValue>)
    requires |ids| == |uris|
    ensures var (out, stopped) := Emission(prefix, ids, uris, get);
      && (!stopped <==> forall i :: 0 <= i < |uris| ==> get(uris[i]).Some?)
      && (!stopped ==> |out| == |uris| + 1 && out[|uris|] == Sync)
      && (stopped ==> Sync !in out)
      && (forall i :: 0 <= i < |out| && out[i] != Sync ==>
            i < |uris| && get(uris[i]).Some? && out[i] == Queued(prefix, ids[i], get(uris[i]).value))
      && (stopped ==> |out| < |uris| && get(uris[|out|]).None?)
    decreases |uris|
  {
    if uris != [] && get(uris[0]).Some? {
      EmissionMeaning(prefix, ids[1..], uris[1..], get);
      var rest := Emission(prefix, ids[1..], uris[1..], get);
      var out := Emission(prefix, ids, uris, get).0;
      assert out == [Queued(prefix, ids[0], get(uris[0]).value)] + rest.0;
      forall i | 0 <= i < |uris| - 1 ensures uris[1..][i] == uris[i + 1] {}
      if rest.1 {
        assert Sync !in out by {
          assert forall i :: 1 <= i < |out| ==> out[i] == rest.0[i - 1];
        }
      }
      forall i | 0 <= i < |out| && out[i] != Sync
        ensures i < |uris| && get(uris[i]).Some? && out[i] == Queued(prefix, ids[i], get(uris[i]).value)
      {
        if i > 0 {
          assert out[i] == rest.0[i - 1];
        }
      }
    }
  }

  /**
   * The body of one tick of a ticker: every URI of the ticker read in
   * order, each value queued under its path and the request prefix, then a
   * sync marker.
   */
  method EmitTick(c: TranslClient, info: TickerInfo, get: string -> Option<TypedValue>) returns (out: seq<Emitted>, stopped: bool)
    requires |info.paths| == |info.uris|
    ensures out == Emission(c.prefix, info.paths, info.uris, get).0
    ensures stopped == Emission(c.prefix, info.paths, info.uris, get).1
  {
    out := [];
    assert info.paths[0..] == info.paths && info.uris[0..] == info.uris;
    for ii := 0 to |info.uris|
      invariant Emission(c.prefix, info.paths, info.uris, get).0 == out + Emission(c.prefix, info.paths[ii..], info.uris[ii..], get).0
      invariant Emission(c.prefix, info.paths, info.uris, get).1 == Emission(c.prefix, info.paths[ii..], info.uris[ii..], get).1
    {
      var val := get(info.uris[ii]);
      assert info.uris[ii..][0] == info.uris[ii] && info.paths[ii..][0] == info.paths[ii];
      if val.None? {
        return out, true;
      }
      assert info.uris[ii..][1..] == info.uris[ii + 1..] && info.paths[ii..][1..] == info.paths[ii + 1..];
      out := out + [Queued(c.prefix, info.paths[ii], val.value)];
    }
    assert info.uris[|info.uris|..] == [];
    out := out + [Sync];
    stopped := false;
  }

  /**
   * One poll: every path of the client's map, in the map's visiting order,
   * read and queued, then a sync marker; `visit` is the order taken.
   */
  method PollOnce(c: TranslClient, get: string -> Option<TypedValue>)
    returns (out: seq<Emitted>, stopped: bool, ghost visit: seq<nat>)
    ensures IsKeyOrder(visit, c.path2URI.Keys)
    ensures out == Emission(c.prefix, visit, Uris(c, visit), get).0
    ensures stopped == Emission(c.prefix, visit, Uris(c, visit), get).1
  {
    KeyOrderExists(c.path2URI.Keys);
    var order: seq<nat> :| IsKeyOrder(order, c.path2URI.Keys);
    visit := order;
    out, stopped := EmitPaths(c, order, get);
  }

  /** The body of one poll, over the paths of the map in the order `order`. */
  method EmitPaths(c: TranslClient, order: seq<nat>, get: string -> Option<TypedValue>)
    returns (out: seq<Emitted>, stopped: bool)
    requires forall i :: 0 <= i < |order| ==> order[i] in c.path2URI
    ensures out == Emission(c.prefix, order, Uris(c, order), get).0
    ensures stopped == Emission(c.prefix, order, Uris(c, order), get).1
  {
    ghost var uris := Uris(c, order);
    out := [];
    assert order[0..] == order && uris[0..] == uris;
    for i := 0 to |order|
      invariant Emission(c.prefix, order, uris, get).0 == out + Emission(c.prefix, order[i..], uris[i..], get).0
      invariant Emission(c.prefix, order, uris, get).1 == Emission(c.prefix, order[i..], uris[i..], get).1
    {
      var gnmiPath := order[i];
      var uriPath := c.path2URI[gnmiPath];
      var val := get(uriPath);
      assert uris[i..][0] == uriPath && order[i..][0] == gnmiPath;
      if val.None? {
        return out, true;
      }
      assert uris[i..][1..] == uris[i + 1..] && order[i..][1..] == order[i + 1..];
      out := out + [Queued(c.prefix, gnmiPath, val.value)];
    }
    assert uris[|order|..] == [] && order[|order|..] == [];
    out := out + [Sync];
    stopped := false;
  }

  /** The URIs of the paths `ids` of the client's map. */
  function Uris(c: TranslClient, ids: seq<nat>): (r: seq<string>)
    ensures |r| == |ids|
    ensures forall i :: 0 <= i < |ids| ==> r[i] == UriOf(c, ids[i])
  {
    if ids == [] then [] else [UriOf(c, ids[0])] + Uris(c, ids[1..])
  }
}
