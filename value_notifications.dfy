/** The resource value notification listener (`IhcResourceValueNotificationListener`):
    one iteration of its `run` loop decides from the configuration change time
    and the connection's open time whether to (re)order runtime value
    notifications for all resources, waits for notifications and posts every
    received value to the items bound to its resource. */
module ValueNotifications {
  import opened IhcTypes
  import opened ValueCodec

  /** What `waitResourceValueNotifications(10)` does: return the values that
      changed, or throw. */
  datatype WaitOutcome = Received(values: seq<ResourceValue>) | WaitThrows(failure: Failure)

  /** The controller's side of one iteration: the outcome of the
      `enableRuntimeValueNotifications` call made before the wait, of the wait,
      of `openConnection()` after an IOException, and of the
      `enableRuntimeValueNotifications` call that follows it. */
  datatype NotificationOracle = NotificationOracle(
    enable: CallOutcome, wait: WaitOutcome, openConnection: CallOutcome, reenable: CallOutcome)

  /** The visible effects of an iteration, in order. Backoff is a call of
      `mysleep`. */
  datatype ListenerEvent =
    | EnableNotifications(resourceIds: seq<int>)
    | WaitNotifications
    | OpenConnection
    | Post(item: string, state: State)
    | Backoff

  /** The resource ids of the items bs, one per item, duplicates kept. */
  function ResourceIds(bs: seq<ItemBinding>): seq<int>
    decreases |bs|
  {
    if bs == [] then [] else ResourceIds(bs[..|bs| - 1]) + [bs[|bs| - 1].resourceId]
  }

  lemma {:induction false} ResourceIdsAt(bs: seq<ItemBinding>)
    ensures |ResourceIds(bs)| == |bs|
    ensures forall k | 0 <= k < |bs| :: ResourceIds(bs)[k] == bs[k].resourceId
  {
    if bs != [] {
      ResourceIdsAt(bs[..|bs| - 1]);
    }
  }

  lemma ResourceIdsAppend(bs: seq<ItemBinding>, b: ItemBinding)
    ensures ResourceIds(bs + [b]) == ResourceIds(bs) + [b.resourceId]
  {
    assert (bs + [b])[..|bs|] == bs;
  }

  /** The inner loop of `enableResourceValueNotification`: append the
      resource ids of one provider's items to the ids of the items done. */
  method AppendResourceIds(ids: seq<int>, items: seq<ItemBinding>, ghost done: seq<ItemBinding>) returns (out: seq<int>)
    requires ids == ResourceIds(done)
    ensures out == ResourceIds(done + items)
  {
    out := ids;
    var i := 0;
    assert done + items[..0] == done;
    while i < |items|
      invariant 0 <= i <= |items|
      invariant out == ResourceIds(done + items[..i])
    {
      ResourceIdsAppend(done + items[..i], items[i]);
      assert done + items[..i + 1] == done + items[..i] + [items[i]];
      out := out + [items[i].resourceId];
      i := i + 1;
    }
    assert items[..|items|] == items;
  }

  /** The list `enableResourceValueNotification` builds: the resource id of
      every item of every provider, in order. */
  method CollectResourceIds(providers: seq<seq<ItemBinding>>) returns (ids: seq<int>)
    ensures ids == ResourceIds(Flatten(providers))
    ensures |ids| == |Flatten(providers)|
    ensures forall k | 0 <= k < |ids| :: ids[k] == Flatten(providers)[k].resourceId
  {
    ids := [];
    var p := 0;
    while p < |providers|
      invariant 0 <= p <= |providers|
      invariant ids == ResourceIds(Flatten(providers[..p]))
    {
      ids := AppendResourceIds(ids, providers[p], Flatten(providers[..p]));
      FlattenAppend(providers, p);
      p := p + 1;
    }
    assert providers[..|providers|] == providers;
    ResourceIdsAt(Flatten(providers));
  }

  /** The posts made for received values so far, and whether a conversion
      threw, which ends the fan-out. */
  datatype FanOut = FanOut(posts: seq<ListenerEvent>, failed: bool)

  /** Item b receives value v as state s: b is bound to v's resource, is not
      out binding only, and v converts to s for b's item. */
  predicate Delivers(v: ResourceValue, b: ItemBinding, registry: Registry, s: State) {
    && b.resourceId == v.resourceId && !b.outBindingOnly
    && ConvertResourceValueToState(Lookup(registry, b.itemName), v.value) == Ok(s)
  }

  /** Posting one received value to the items bs in order. */
  function DispatchValue(v: ResourceValue, bs: seq<ItemBinding>, registry: Registry): FanOut
    decreases |bs|
  {
    if bs == [] then FanOut([], false)
    else
      var prev := DispatchValue(v, bs[..|bs| - 1], registry);
      var b := bs[|bs| - 1];
      if prev.failed || b.resourceId != v.resourceId || b.outBindingOnly then prev
      else
        match ConvertResourceValueToState(Lookup(registry, b.itemName), v.value)
        case Ok(s) => FanOut(prev.posts + [Post(b.itemName, s)], false)
        case Err(_) => FanOut(prev.posts, true)
  }

  /** Posting the received values vals, in order, to the items bs. */
  function DispatchValues(vals: seq<ResourceValue>, bs: seq<ItemBinding>, registry: Registry): FanOut
    decreases |vals|
  {
    if vals == [] then FanOut([], false)
    else
      var prev := DispatchValues(vals[..|vals| - 1], bs, registry);
      if prev.failed then prev
      else
        var d := DispatchValue(vals[|vals| - 1], bs, registry);
        FanOut(prev.posts + d.posts, d.failed)
  }

  lemma DispatchValueAppend(v: ResourceValue, bs: seq<ItemBinding>, b: ItemBinding, registry: Registry)
    ensures var prev := DispatchValue(v, bs, registry);
      DispatchValue(v, bs + [b], registry)
      == if prev.failed || b.resourceId != v.resourceId || b.outBindingOnly then prev
         else match ConvertResourceValueToState(Lookup(registry, b.itemName), v.value)
              case Ok(s) => FanOut(prev.posts + [Post(b.itemName, s)], false)
              case Err(_) => FanOut(prev.posts, true)
  {
    assert (bs + [b])[..|bs|] == bs;
  }

  lemma DispatchValuesAppend(vals: seq<ResourceValue>, v: ResourceValue, bs: seq<ItemBinding>, registry: Registry)
    ensures var prev := DispatchValues(vals, bs, registry);
      DispatchValues(vals + [v], bs, registry)
      == if prev.failed then prev
         else var d := DispatchValue(v, bs, registry); FanOut(prev.posts + d.posts, d.failed)
  {
    assert (vals + [v])[..|vals|] == vals;
  }

  /** Once a conversion has thrown, later items get nothing. */
  lemma {:induction false} DispatchValueStaysFailed(v: ResourceValue, xs: seq<ItemBinding>, ys: seq<ItemBinding>, registry: Registry)
    requires DispatchValue(v, xs, registry).failed
    ensures DispatchValue(v, xs + ys, registry) == DispatchValue(v, xs, registry)
  {
    if ys != [] {
      var zs := ys[..|ys| - 1];
      DispatchValueStaysFailed(v, xs, zs, registry);
      assert xs + ys == (xs + zs) + [ys[|ys| - 1]];
      DispatchValueAppend(v, xs + zs, ys[|ys| - 1], registry);
    } else {
      assert xs + ys == xs;
    }
  }

  /** Once a conversion has thrown, later values are not posted. */
  lemma {:induction false} DispatchValuesStaysFailed(xs: seq<ResourceValue>, ys: seq<ResourceValue>, bs: seq<ItemBinding>, registry: Registry)
    requires DispatchValues(xs, bs, registry).failed
    ensures DispatchValues(xs + ys, bs, registry) == DispatchValues(xs, bs, registry)
  {
    if ys != [] {
      var zs := ys[..|ys| - 1];
      DispatchValuesStaysFailed(xs, zs, bs, registry);
      assert xs + ys == (xs + zs) + [ys[|ys| - 1]];
      DispatchValuesAppend(xs + zs, ys[|ys| - 1], bs, registry);
    } else {
      assert xs + ys == xs;
    }
  }

  /** The innermost loop body of `waitResourceNotifications`: post value v
      to item b if b is bound to its resource and not out binding only. */
  method DispatchToItem(v: ResourceValue, b: ItemBinding, registry: Registry, fanOut: FanOut, ghost done: seq<ItemBinding>)
    returns (fanOut': FanOut)
    requires fanOut == DispatchValue(v, done, registry) && !fanOut.failed
    ensures fanOut' == DispatchValue(v, done + [b], registry)
  {
    DispatchValueAppend(v, done, b, registry);
    fanOut' := fanOut;
    if b.resourceId == v.resourceId && !b.outBindingOnly {
      var state := ConvertResourceValueToState(Lookup(registry, b.itemName), v.value);
      if state.Ok? {
        fanOut' := FanOut(fanOut.posts + [Post(b.itemName, state.value)], false);
      } else {
        fanOut' := FanOut(fanOut.posts, true);
      }
    }
  }

  /** `waitResourceNotifications`' loop over one provider's items for value
      v, the items done coming before them. */
  method DispatchToItems(v: ResourceValue, items: seq<ItemBinding>, registry: Registry,
                         fanOut: FanOut, ghost done: seq<ItemBinding>)
    returns (fanOut': FanOut)
    requires fanOut == DispatchValue(v, done, registry)
    ensures fanOut' == DispatchValue(v, done + items, registry)
  {
    fanOut' := fanOut;
    var i := 0;
    assert done + items[..0] == done;
    while i < |items| && !fanOut'.failed
      invariant 0 <= i <= |items|
      invariant fanOut' == DispatchValue(v, done + items[..i], registry)
    {
      assert done + items[..i + 1] == done + items[..i] + [items[i]];
      fanOut' := DispatchToItem(v, items[i], registry, fanOut', done + items[..i]);
      i := i + 1;
    }
    if i < |items| {
      DispatchValueStaysFailed(v, done + items[..i], items[i..], registry);
      assert done + items[..i] + items[i..] == done + items;
    } else {
      assert items[..i] == items;
    }
  }

  /** `waitResourceNotifications`' loops over all providers' items for one
      received value. */
  method DispatchToProviders(v: ResourceValue, providers: seq<seq<ItemBinding>>, registry: Registry)
    returns (fanOut: FanOut)
    ensures fanOut == DispatchValue(v, Flatten(providers), registry)
  {
    fanOut := FanOut([], false);
    var p := 0;
    while p < |providers| && !fanOut.failed
      invariant 0 <= p <= |providers|
      invariant fanOut == DispatchValue(v, Flatten(providers[..p]), registry)
    {
      fanOut := DispatchToItems(v, providers[p], registry, fanOut, Flatten(providers[..p]));
      FlattenAppend(providers, p);
      p := p + 1;
    }
    FlattenSplit(providers, p);
    if p < |providers| {
      DispatchValueStaysFailed(v, Flatten(providers[..p]), Flatten(providers[p..]), registry);
    } else {
      assert providers[..p] == providers;
    }
  }

  /** `waitResourceNotifications`' fan-out of the received values: each is
      posted to every item bound to its resource that is not out binding
      only; a conversion that throws ends the fan-out. */
  method DispatchNotifications(vals: seq<ResourceValue>, providers: seq<seq<ItemBinding>>, registry: Registry)
    returns (fanOut: FanOut)
    ensures fanOut == DispatchValues(vals, Flatten(providers), registry)
  {
    fanOut := FanOut([], false);
    var i := 0;
    while i < |vals| && !fanOut.failed
      invariant 0 <= i <= |vals|
      invariant fanOut == DispatchValues(vals[..i], Flatten(providers), registry)
    {
      var d := DispatchToProviders(vals[i], providers, registry);
      DispatchValuesAppend(vals[..i], vals[i], Flatten(providers), registry);
      assert vals[..i + 1] == vals[..i] + [vals[i]];
      fanOut := FanOut(fanOut.posts + d.posts, d.failed);
      i := i + 1;
    }
    if i < |vals| {
      DispatchValuesStaysFailed(vals[..i], vals[i..], Flatten(providers), registry);
      assert vals[..i] + vals[i..] == vals;
    } else {
      assert vals[..i] == vals;
    }
  }

  /** Every post of a fan-out delivers a received value to an item that is
      bound to its resource and not out binding only. */
  ghost predicate Justified(vals: seq<ResourceValue>, bs: seq<ItemBinding>, registry: Registry, e: ListenerEvent) {
    e.Post? &&
    exists i, j | 0 <= i < |vals| && 0 <= j < |bs| :: bs[j].itemName == e.item && Delivers(vals[i], bs[j], registry, e.state)
  }

  lemma {:induction false} DispatchValueSound(v: ResourceValue, bs: seq<ItemBinding>, registry: Registry)
    ensures forall k | 0 <= k < |DispatchValue(v, bs, registry).posts| ::
      Justified([v], bs, registry, DispatchValue(v, bs, registry).posts[k])
  {
    if bs != [] {
      var n := |bs| - 1;
      DispatchValueSound(v, bs[..n], registry);
      var prev := DispatchValue(v, bs[..n], registry);
      var posts := DispatchValue(v, bs, registry).posts;
      forall k | 0 <= k < |posts| ensures Justified([v], bs, registry, posts[k]) {
        if k < |prev.posts| {
          assert posts[k] == prev.posts[k];
          assert Justified([v], bs[..n], registry, prev.posts[k]);
          var i, j :| 0 <= i < 1 && 0 <= j < n && bs[..n][j].itemName == posts[k].item
                      && Delivers([v][i], bs[..n][j], registry, posts[k].state);
          assert bs[j] == bs[..n][j];
        } else {
          assert Delivers([v][0], bs[n], registry, posts[k].state);
        }
      }
    }
  }

  /** Soundness of the fan-out: every post delivers a received value to an
      item bound to its resource that is not out binding only. */
  lemma {:induction false} DispatchValuesSound(vals: seq<ResourceValue>, bs: seq<ItemBinding>, registry: Registry)
    ensures forall k | 0 <= k < |DispatchValues(vals, bs, registry).posts| ::
      Justified(vals, bs, registry, DispatchValues(vals, bs, registry).posts[k])
  {
    if vals != [] {
      var n := |vals| - 1;
      DispatchValuesSound(vals[..n], bs, registry);
      var prev := DispatchValues(vals[..n], bs, registry);
      var posts := DispatchValues(vals, bs, registry).posts;
      if !prev.failed {
        var d := DispatchValue(vals[n], bs, registry);
        DispatchValueSound(vals[n], bs, registry);
        forall k | 0 <= k < |posts| ensures Justified(vals, bs, registry, posts[k]) {
          if k < |prev.posts| {
            assert posts[k] == prev.posts[k];
            assert Justified(vals[..n], bs, registry, prev.posts[k]);
            var i, j :| 0 <= i < n && 0 <= j < |bs| && bs[j].itemName == posts[k].item
                        && Delivers(vals[..n][i], bs[j], registry, posts[k].state);
            assert vals[i] == vals[..n][i];
          } else {
            assert posts[k] == d.posts[k - |prev.posts|];
            assert Justified([vals[n]], bs, registry, d.posts[k - |prev.posts|]);
            var i, j :| 0 <= i < 1 && 0 <= j < |bs| && bs[j].itemName == posts[k].item
                        && Delivers([vals[n]][i], bs[j], registry, posts[k].state);
            assert Delivers(vals[n], bs[j], registry, posts[k].state);
          }
        }
      } else {
        forall k | 0 <= k < |posts| ensures Justified(vals, bs, registry, posts[k]) {
          assert Justified(vals[..n], bs, registry, prev.posts[k]);
          var i, j :| 0 <= i < n && 0 <= j < |bs| && bs[j].itemName == posts[k].item
                      && Delivers(vals[..n][i], bs[j], registry, posts[k].state);
          assert vals[i] == vals[..n][i];
        }
      }
    }
  }

  /** Completeness for one value: when no conversion threw, every item bound
      to the value's resource and not out binding only received it. */
  lemma {:induction false} DispatchValueComplete(v: ResourceValue, bs: seq<ItemBinding>, registry: Registry)
    requires !DispatchValue(v, bs, registry).failed
    ensures forall j | 0 <= j < |bs| && bs[j].resourceId == v.resourceId && !bs[j].outBindingOnly ::
      var s := ConvertResourceValueToState(Lookup(registry, bs[j].itemName), v.value);
      s.Ok? && Post(bs[j].itemName, s.value) in DispatchValue(v, bs, registry).posts
  {
    if bs != [] {
      var n := |bs| - 1;
      var prev := DispatchValue(v, bs[..n], registry);
      assert !prev.failed;
      DispatchValueComplete(v, bs[..n], registry);
      var posts := DispatchValue(v, bs, registry).posts;
      assert prev.posts <= posts;
      forall j | 0 <= j < |bs| && bs[j].resourceId == v.resourceId && !bs[j].outBindingOnly
        ensures var s := ConvertResourceValueToState(Lookup(registry, bs[j].itemName), v.value);
          s.Ok? && Post(bs[j].itemName, s.value) in posts
      {
        if j < n {
          assert bs[..n][j] == bs[j];
        }
      }
    }
  }

  /** Completeness of the fan-out: when no conversion threw, every received
      value reached every item bound to its resource that is not out binding
      only, converted for that item. */
  lemma {:induction false} DispatchValuesComplete(vals: seq<ResourceValue>, bs: seq<ItemBinding>, registry: Registry)
    requires !DispatchValues(vals, bs, registry).failed
    ensures forall i, j | 0 <= i < |vals| && 0 <= j < |bs| && bs[j].resourceId == vals[i].resourceId && !bs[j].outBindingOnly ::
      var s := ConvertResourceValueToState(Lookup(registry, bs[j].itemName), vals[i].value);
      s.Ok? && Post(bs[j].itemName, s.value) in DispatchValues(vals, bs, registry).posts
  {
    if vals != [] {
      var n := |vals| - 1;
      var prev := DispatchValues(vals[..n], bs, registry);
      assert !prev.failed;
      DispatchValuesComplete(vals[..n], bs, registry);
      var d := DispatchValue(vals[n], bs, registry);
      DispatchValueComplete(vals[n], bs, registry);
      var posts := DispatchValues(vals, bs, registry).posts;
      assert posts == prev.posts + d.posts;
      forall i, j | 0 <= i < |vals| && 0 <= j < |bs| && bs[j].resourceId == vals[i].resourceId && !bs[j].outBindingOnly
        ensures var s := ConvertResourceValueToState(Lookup(registry, bs[j].itemName), vals[i].value);
          s.Ok? && Post(bs[j].itemName, s.value) in posts
      {
        if i < n {
          assert vals[..n][i] == vals[i];
          var s := ConvertResourceValueToState(Lookup(registry, bs[j].itemName), vals[i].value);
          assert Post(bs[j].itemName, s.value) in prev.posts;
        } else {
          var s := ConvertResourceValueToState(Lookup(registry, bs[j].itemName), vals[i].value);
          assert Post(bs[j].itemName, s.value) in d.posts;
        }
      }
    }
  }

  /** An item whose bindings are all out binding only is never posted to. */
  lemma OutBindingOnlyNeverPosted(vals: seq<ResourceValue>, bs: seq<ItemBinding>, registry: Registry, name: string)
    requires forall j | 0 <= j < |bs| && bs[j].itemName == name :: bs[j].outBindingOnly
    ensures forall k | 0 <= k < |DispatchValues(vals, bs, registry).posts| ::
      DispatchValues(vals, bs, registry).posts[k].Post? && DispatchValues(vals, bs, registry).posts[k].item != name
  {
    DispatchValuesSound(vals, bs, registry);
  }

  /** The outcome of an `enableResourceValueNotification` call: the new order
      time, the controller call made, and the exception it threw. */
  datatype EnableResult = EnableResult(lastNotificationOrderTime: int, events: seq<ListenerEvent>, thrown: Option<Failure>)

  /** `enableResourceValueNotification` with the resource id list ids: no call
      for an empty list; the order time becomes now when the call returns. */
  function Enable(lastNotificationOrderTime: int, ids: seq<int>, outcome: CallOutcome, now: int): (e: EnableResult)
    ensures e.events == [] <==> ids == []
    ensures forall k | 0 <= k < |e.events| :: e.events[k] == EnableNotifications(ids)
    ensures e.thrown.Some? <==> ids != [] && outcome.Throws?
    ensures e.lastNotificationOrderTime == (if ids != [] && outcome.Succeeds? then now else lastNotificationOrderTime)
  {
    if |ids| == 0 then EnableResult(lastNotificationOrderTime, [], None)
    else
      match outcome
      case Succeeds => EnableResult(now, [EnableNotifications(ids)], None)
      case Throws(f) => EnableResult(lastNotificationOrderTime, [EnableNotifications(ids)], Some(f))
  }

  datatype WaitResult = WaitResult(lastNotificationOrderTime: int, events: seq<ListenerEvent>)

  /** The catch clauses of `waitResourceNotifications` for an exception f,
      thrown after events with the order time then being
      lastNotificationOrderTime. */
  function Recover(f: Failure, lastNotificationOrderTime: int, events: seq<ListenerEvent>,
                   ids: seq<int>, oracle: NotificationOracle, now: int): (w: WaitResult)
    ensures |w.events| >= |events| && w.events[..|events|] == events
    ensures f == IOFailure ==> |w.events| > |events| && w.events[|events|] == OpenConnection
    ensures f != IOFailure ==> forall k | |events| <= k < |w.events| :: w.events[k] == Backoff
    ensures f == SocketTimeout ==> w == WaitResult(lastNotificationOrderTime, events)
    ensures w.lastNotificationOrderTime == lastNotificationOrderTime || w.lastNotificationOrderTime == now
            || w.lastNotificationOrderTime == 0
  {
    match f
    case SocketTimeout => WaitResult(lastNotificationOrderTime, events)
    case IOFailure =>
      (match oracle.openConnection
       case Throws(_) => WaitResult(0, events + [OpenConnection, Backoff])
       case Succeeds =>
         var e := Enable(lastNotificationOrderTime, ids, oracle.reenable, now);
         if e.thrown.Some? then WaitResult(0, events + [OpenConnection] + e.events + [Backoff])
         else WaitResult(e.lastNotificationOrderTime, events + [OpenConnection] + e.events))
    case OtherFailure => WaitResult(lastNotificationOrderTime, events + [Backoff])
  }

  /** The start of `waitResourceNotifications(order)`: the order made when
      order is set, nothing otherwise. */
  function OrderStep(lastNotificationOrderTime: int, order: bool, ids: seq<int>, outcome: CallOutcome, now: int): EnableResult {
    if order then Enable(lastNotificationOrderTime, ids, outcome, now)
    else EnableResult(lastNotificationOrderTime, [], None)
  }

  /** `waitResourceNotifications(order)`, with the communicator present or
      `null`, for the items bs of all providers. */
  function WaitNotificationsStep(lastNotificationOrderTime: int, order: bool, communicator: bool,
                                 bs: seq<ItemBinding>, registry: Registry, oracle: NotificationOracle, now: int): (w: WaitResult)
    ensures !communicator ==> w == WaitResult(lastNotificationOrderTime, [Backoff])
    ensures communicator && order && ResourceIds(bs) != [] ==> |w.events| >= 1 && w.events[0] == EnableNotifications(ResourceIds(bs))
    ensures communicator && (!order || ResourceIds(bs) == []) ==> |w.events| >= 1 && w.events[0] == WaitNotifications
  {
    if !communicator then WaitResult(lastNotificationOrderTime, [Backoff])
    else
      var ids := ResourceIds(bs);
      var e := OrderStep(lastNotificationOrderTime, order, ids, oracle.enable, now);
      if e.thrown.Some? then Recover(e.thrown.value, e.lastNotificationOrderTime, e.events, ids, oracle, now)
      else
        var waited := e.events + [WaitNotifications];
        match oracle.wait
        case WaitThrows(f) => Recover(f, e.lastNotificationOrderTime, waited, ids, oracle, now)
        case Received(vals) =>
          var fanOut := DispatchValues(vals, bs, registry);
          if fanOut.failed then Recover(OtherFailure, e.lastNotificationOrderTime, waited + fanOut.posts, ids, oracle, now)
          else WaitResult(e.lastNotificationOrderTime, waited + fanOut.posts)
  }

  datatype ListenerState = ListenerState(ready: bool, lastNotificationOrderTime: int)

  datatype IterationResult = IterationResult(state: ListenerState, events: seq<ListenerEvent>)

  /** Whether the listener is ready after an iteration starting in st: a
      configuration change newer than the last order makes it ready exactly
      when more than a second has passed since the change. */
  function NextReady(st: ListenerState, lastConfigChangeTime: int, now: int): bool {
    if lastConfigChangeTime > st.lastNotificationOrderTime then lastConfigChangeTime + 1000 < now else st.ready
  }

  /** The order argument run passes to `waitResourceNotifications`: a
      settled configuration change, or a connection opened since the last
      order. */
  function Orders(st: ListenerState, lastConfigChangeTime: int, lastOpenTime: int, now: int): bool {
    var changed := lastConfigChangeTime > st.lastNotificationOrderTime;
    (changed && NextReady(st, lastConfigChangeTime, now)) || lastOpenTime > st.lastNotificationOrderTime
  }

  /** One iteration of `run`'s loop. */
  function Iteration(st: ListenerState, lastConfigChangeTime: int, lastOpenTime: int, now: int, communicator: bool,
                     bs: seq<ItemBinding>, registry: Registry, oracle: NotificationOracle): (r: IterationResult)
    ensures r.state.ready == NextReady(st, lastConfigChangeTime, now)
    ensures !r.state.ready ==> r.events == [Backoff] && r.state.lastNotificationOrderTime == st.lastNotificationOrderTime
  {
    var ready := NextReady(st, lastConfigChangeTime, now);
    var order := Orders(st, lastConfigChangeTime, lastOpenTime, now);
    if !ready then IterationResult(ListenerState(false, st.lastNotificationOrderTime), [Backoff])
    else
      var w := WaitNotificationsStep(st.lastNotificationOrderTime, order, communicator, bs, registry, oracle, now);
      IterationResult(ListenerState(true, w.lastNotificationOrderTime), w.events)
  }

  /** A listener that is not ready neither orders nor waits: it backs off. */
  lemma NotReadyOnlyBacksOff(st: ListenerState, lastConfigChangeTime: int, lastOpenTime: int, now: int, communicator: bool,
                             bs: seq<ItemBinding>, registry: Registry, oracle: NotificationOracle)
    ensures var r := Iteration(st, lastConfigChangeTime, lastOpenTime, now, communicator, bs, registry, oracle);
      !r.state.ready ==> r.events == [Backoff] && r.state.lastNotificationOrderTime == st.lastNotificationOrderTime
  {
  }

  /** A configuration change less than a second old, and newer than the last
      order, makes the listener not ready; one that has settled makes it
      ready and orders notifications for all resources. */
  lemma ConfigurationChangeDebounce(st: ListenerState, lastConfigChangeTime: int, lastOpenTime: int, now: int, communicator: bool,
                                    bs: seq<ItemBinding>, registry: Registry, oracle: NotificationOracle)
    requires lastConfigChangeTime > st.lastNotificationOrderTime
    ensures var r := Iteration(st, lastConfigChangeTime, lastOpenTime, now, communicator, bs, registry, oracle);
      && (now <= lastConfigChangeTime + 1000 ==>
            !r.state.ready && r.events == [Backoff] && r.state.lastNotificationOrderTime == st.lastNotificationOrderTime)
      && (lastConfigChangeTime + 1000 < now ==>
            r.state.ready && (communicator && bs != [] ==> r.events[0] == EnableNotifications(ResourceIds(bs))))
  {
    ResourceIdsAt(bs);
  }

  /** A reopened connection orders notifications again, but only a ready
      listener gets that far. */
  lemma ReopenOrdersWhenReady(st: ListenerState, lastConfigChangeTime: int, lastOpenTime: int, now: int, communicator: bool,
                              bs: seq<ItemBinding>, registry: Registry, oracle: NotificationOracle)
    requires lastConfigChangeTime <= st.lastNotificationOrderTime < lastOpenTime
    ensures var r := Iteration(st, lastConfigChangeTime, lastOpenTime, now, communicator, bs, registry, oracle);
      && r.state.ready == st.ready
      && (!st.ready ==> r.events == [Backoff])
      && (st.ready && communicator && bs != [] ==> r.events[0] == EnableNotifications(ResourceIds(bs)))
  {
    ResourceIdsAt(bs);
  }

  /** Without a configuration change or a reopen since the last order, a
      ready listener just waits. */
  lemma NothingNewJustWaits(st: ListenerState, lastConfigChangeTime: int, lastOpenTime: int, now: int,
                            bs: seq<ItemBinding>, registry: Registry, oracle: NotificationOracle)
    requires st.ready && lastConfigChangeTime <= st.lastNotificationOrderTime && lastOpenTime <= st.lastNotificationOrderTime
    ensures Iteration(st, lastConfigChangeTime, lastOpenTime, now, true, bs, registry, oracle).events[0] == WaitNotifications
  {
  }

  /** A fan-out makes only posts. */
  lemma FanOutOnlyPosts(vals: seq<ResourceValue>, bs: seq<ItemBinding>, registry: Registry)
    ensures forall k | 0 <= k < |DispatchValues(vals, bs, registry).posts| :: DispatchValues(vals, bs, registry).posts[k].Post?
  {
    DispatchValuesSound(vals, bs, registry);
  }

  /** Every order among events names the resource id list ids, which is not
      empty. */
  predicate OrdersOnly(events: seq<ListenerEvent>, ids: seq<int>) {
    forall k | 0 <= k < |events| && events[k].EnableNotifications? :: events[k].resourceIds == ids && ids != []
  }

  lemma OrdersOnlyConcat(a: seq<ListenerEvent>, b: seq<ListenerEvent>, ids: seq<int>)
    requires OrdersOnly(a, ids) && OrdersOnly(b, ids)
    ensures OrdersOnly(a + b, ids)
  {
    forall k | 0 <= k < |a + b| && (a + b)[k].EnableNotifications? ensures (a + b)[k].resourceIds == ids && ids != [] {
      if k >= |a| {
        assert (a + b)[k] == b[k - |a|];
      }
    }
  }

  lemma RecoverOrdersOnly(f: Failure, lastNotificationOrderTime: int, events: seq<ListenerEvent>,
                          ids: seq<int>, oracle: NotificationOracle, now: int)
    requires OrdersOnly(events, ids)
    ensures OrdersOnly(Recover(f, lastNotificationOrderTime, events, ids, oracle, now).events, ids)
  {
    var e := Enable(lastNotificationOrderTime, ids, oracle.reenable, now);
    OrdersOnlyConcat(events, [OpenConnection, Backoff], ids);
    OrdersOnlyConcat(events, [OpenConnection], ids);
    OrdersOnlyConcat(events + [OpenConnection], e.events, ids);
    OrdersOnlyConcat(events + [OpenConnection] + e.events, [Backoff], ids);
    OrdersOnlyConcat(events, [Backoff], ids);
  }

  /** The orders `waitResourceNotifications` makes name the resource ids of
      all items, and there are none when there are no items. */
  lemma WaitOrdersCarryAllResourceIds(lastNotificationOrderTime: int, order: bool, communicator: bool,
                                      bs: seq<ItemBinding>, registry: Registry, oracle: NotificationOracle, now: int)
    ensures OrdersOnly(WaitNotificationsStep(lastNotificationOrderTime, order, communicator, bs, registry, oracle, now).events,
                       ResourceIds(bs))
  {
    if communicator {
      var ids := ResourceIds(bs);
      var e := OrderStep(lastNotificationOrderTime, order, ids, oracle.enable, now);
      assert OrdersOnly(e.events, ids);
      if e.thrown.Some? {
        RecoverOrdersOnly(e.thrown.value, e.lastNotificationOrderTime, e.events, ids, oracle, now);
      } else {
        var waited := e.events + [WaitNotifications];
        OrdersOnlyConcat(e.events, [WaitNotifications], ids);
        match oracle.wait {
          case WaitThrows(f) =>
            RecoverOrdersOnly(f, e.lastNotificationOrderTime, waited, ids, oracle, now);
          case Received(vals) =>
            var fanOut := DispatchValues(vals, bs, registry);
            FanOutOnlyPosts(vals, bs, registry);
            assert OrdersOnly(fanOut.posts, ids);
            OrdersOnlyConcat(waited, fanOut.posts, ids);
            RecoverOrdersOnly(OtherFailure, e.lastNotificationOrderTime, waited + fanOut.posts, ids, oracle, now);
        }
      }
    }
  }

  /** Without items, the order time of `waitResourceNotifications` changes
      only by the reset to 0 after a failed reopen. */
  lemma WaitWithoutItemsKeepsOrderTime(lastNotificationOrderTime: int, order: bool, communicator: bool,
                                       registry: Registry, oracle: NotificationOracle, now: int)
    ensures var w := WaitNotificationsStep(lastNotificationOrderTime, order, communicator, [], registry, oracle, now);
      w.lastNotificationOrderTime == lastNotificationOrderTime
      || (w.lastNotificationOrderTime == 0 && oracle.openConnection.Throws?)
  {
  }

  /** Every order names the resource ids of all items, and there is no order
      when there are no items; then the order time changes only by the reset
      to 0 after a failed reopen. */
  lemma OrdersCarryAllResourceIds(st: ListenerState, lastConfigChangeTime: int, lastOpenTime: int, now: int, communicator: bool,
                                  bs: seq<ItemBinding>, registry: Registry, oracle: NotificationOracle)
    ensures var r := Iteration(st, lastConfigChangeTime, lastOpenTime, now, communicator, bs, registry, oracle);
      && (forall k | 0 <= k < |r.events| && r.events[k].EnableNotifications? ::
            r.events[k].resourceIds == ResourceIds(bs) && |r.events[k].resourceIds| == |bs| > 0)
      && (bs == [] ==>
            && (forall k | 0 <= k < |r.events| :: !r.events[k].EnableNotifications?)
            && (r.state.lastNotificationOrderTime == st.lastNotificationOrderTime
                || (r.state.lastNotificationOrderTime == 0 && oracle.openConnection.Throws?)))
  {
    var order := Orders(st, lastConfigChangeTime, lastOpenTime, now);
    ResourceIdsAt(bs);
    WaitOrdersCarryAllResourceIds(st.lastNotificationOrderTime, order, communicator, bs, registry, oracle, now);
    if bs == [] {
      WaitWithoutItemsKeepsOrderTime(st.lastNotificationOrderTime, order, communicator, registry, oracle, now);
    }
  }

  /** A ready listener whose order returned and whose wait did not end in an
      IOException keeps the order time of that order. */
  lemma SuccessfulOrderStampsNow(st: ListenerState, lastConfigChangeTime: int, lastOpenTime: int, now: int,
                                 bs: seq<ItemBinding>, registry: Registry, oracle: NotificationOracle)
    requires NextReady(st, lastConfigChangeTime, now)
    requires (lastConfigChangeTime > st.lastNotificationOrderTime) || lastOpenTime > st.lastNotificationOrderTime
    requires bs != [] && oracle.enable == Succeeds && oracle.wait != WaitThrows(IOFailure)
    ensures var r := Iteration(st, lastConfigChangeTime, lastOpenTime, now, true, bs, registry, oracle);
      r.state.lastNotificationOrderTime == now && r.events[0] == EnableNotifications(ResourceIds(bs))
  {
    ResourceIdsAt(bs);
  }

  /** A timeout, from the order or from the wait, needs no recovery: no
      reopen and no back-off; the iteration ends where the timeout struck,
      with the order time the order step left. */
  lemma TimeoutIsBenign(st: ListenerState, lastConfigChangeTime: int, lastOpenTime: int, now: int,
                        bs: seq<ItemBinding>, registry: Registry, oracle: NotificationOracle)
    requires NextReady(st, lastConfigChangeTime, now)
    requires var e := OrderStep(st.lastNotificationOrderTime, Orders(st, lastConfigChangeTime, lastOpenTime, now),
                                ResourceIds(bs), oracle.enable, now);
      e.thrown == Some(SocketTimeout) || (e.thrown.None? && oracle.wait == WaitThrows(SocketTimeout))
    ensures var e := OrderStep(st.lastNotificationOrderTime, Orders(st, lastConfigChangeTime, lastOpenTime, now),
                               ResourceIds(bs), oracle.enable, now);
      var r := Iteration(st, lastConfigChangeTime, lastOpenTime, now, true, bs, registry, oracle);
      && OpenConnection !in r.events && Backoff !in r.events
      && r.events == e.events + (if e.thrown.None? then [WaitNotifications] else [])
      && r.state.lastNotificationOrderTime == e.lastNotificationOrderTime
  {
  }

  /** The IOException clause of `waitResourceNotifications`: reopen, then
      order again; when either throws, reset the order time to 0 and back
      off. */
  lemma IOFailureReopens(lastNotificationOrderTime: int, before: seq<ListenerEvent>, ids: seq<int>,
                         oracle: NotificationOracle, now: int)
    requires Backoff !in before
    ensures var w := Recover(IOFailure, lastNotificationOrderTime, before, ids, oracle, now);
      && OpenConnection in w.events
      && (oracle.openConnection.Throws? || (ids != [] && oracle.reenable.Throws?) ==>
            w.lastNotificationOrderTime == 0 && w.events[|w.events| - 1] == Backoff)
      && (oracle.openConnection == Succeeds && (ids == [] || oracle.reenable == Succeeds) ==>
            Backoff !in w.events
            && w.lastNotificationOrderTime == (if ids != [] then now else lastNotificationOrderTime))
  {
  }

  /** Any other IOException, from the order or from the wait, reopens the
      connection and orders again; if that fails, the order time is reset to
      0 so that the next iteration orders again, and the listener backs off. */
  lemma IOFailureRecovery(st: ListenerState, lastConfigChangeTime: int, lastOpenTime: int, now: int,
                          bs: seq<ItemBinding>, registry: Registry, oracle: NotificationOracle)
    requires NextReady(st, lastConfigChangeTime, now)
    requires var e := OrderStep(st.lastNotificationOrderTime, Orders(st, lastConfigChangeTime, lastOpenTime, now),
                                ResourceIds(bs), oracle.enable, now);
      e.thrown == Some(IOFailure) || (e.thrown.None? && oracle.wait == WaitThrows(IOFailure))
    ensures var r := Iteration(st, lastConfigChangeTime, lastOpenTime, now, true, bs, registry, oracle);
      && OpenConnection in r.events
      && (oracle.openConnection.Throws? || (bs != [] && oracle.reenable.Throws?) ==>
            r.state.lastNotificationOrderTime == 0 && r.events[|r.events| - 1] == Backoff)
      && (oracle.openConnection == Succeeds && (bs == [] || oracle.reenable == Succeeds) ==>
            Backoff !in r.events
            && r.state.lastNotificationOrderTime == (if bs != [] then now else st.lastNotificationOrderTime))
  {
    ResourceIdsAt(bs);
    var ids := ResourceIds(bs);
    var order := Orders(st, lastConfigChangeTime, lastOpenTime, now);
    var e := OrderStep(st.lastNotificationOrderTime, order, ids, oracle.enable, now);
    var before := if e.thrown.Some? then e.events else e.events + [WaitNotifications];
    assert Backoff !in before;
    IOFailureReopens(e.lastNotificationOrderTime, before, ids, oracle, now);
  }

  /** An exception of another class, a conversion error among them, only
      backs off, whether the order, the wait or the fan-out throws it: the
      order time is the one the order step left. */
  lemma OtherFailureBacksOff(st: ListenerState, lastConfigChangeTime: int, lastOpenTime: int, now: int,
                             bs: seq<ItemBinding>, registry: Registry, oracle: NotificationOracle)
    requires NextReady(st, lastConfigChangeTime, now)
    requires var e := OrderStep(st.lastNotificationOrderTime, Orders(st, lastConfigChangeTime, lastOpenTime, now),
                                ResourceIds(bs), oracle.enable, now);
      || e.thrown == Some(OtherFailure)
      || (e.thrown.None? && oracle.wait == WaitThrows(OtherFailure))
      || (e.thrown.None? && oracle.wait.Received? && DispatchValues(oracle.wait.values, bs, registry).failed)
    ensures var e := OrderStep(st.lastNotificationOrderTime, Orders(st, lastConfigChangeTime, lastOpenTime, now),
                               ResourceIds(bs), oracle.enable, now);
      var r := Iteration(st, lastConfigChangeTime, lastOpenTime, now, true, bs, registry, oracle);
      && r.events[..|e.events|] == e.events
      && r.state.lastNotificationOrderTime == e.lastNotificationOrderTime
      && r.events[|r.events| - 1] == Backoff && OpenConnection !in r.events
  {
    if oracle.wait.Received? {
      FanOutOnlyPosts(oracle.wait.values, bs, registry);
    }
  }

  /** A received batch whose conversions all succeed is posted in full: the
      iteration's events are the order step's, the wait and exactly the
      fan-out's posts. */
  lemma ReceivedValuesArePosted(st: ListenerState, lastConfigChangeTime: int, lastOpenTime: int, now: int,
                                bs: seq<ItemBinding>, registry: Registry, oracle: NotificationOracle)
    requires NextReady(st, lastConfigChangeTime, now)
    requires OrderStep(st.lastNotificationOrderTime, Orders(st, lastConfigChangeTime, lastOpenTime, now),
                       ResourceIds(bs), oracle.enable, now).thrown.None?
    requires oracle.wait.Received? && !DispatchValues(oracle.wait.values, bs, registry).failed
    ensures var e := OrderStep(st.lastNotificationOrderTime, Orders(st, lastConfigChangeTime, lastOpenTime, now),
                               ResourceIds(bs), oracle.enable, now);
      var r := Iteration(st, lastConfigChangeTime, lastOpenTime, now, true, bs, registry, oracle);
      && r.events == e.events + [WaitNotifications] + DispatchValues(oracle.wait.values, bs, registry).posts
      && r.state.lastNotificationOrderTime == e.lastNotificationOrderTime
  {
  }

  /** The listener thread's state: `ready` (a local of `run` that lives as
      long as the loop) and `lastNotificationOrderTime`. */
  class ResourceValueNotificationListener {
    var ready: bool
    var lastNotificationOrderTime: int

    constructor ()
      ensures !ready && lastNotificationOrderTime == 0
    {
      ready := false;
      lastNotificationOrderTime := 0;
    }

    /** `enableResourceValueNotification` at time now. */
    method EnableResourceValueNotification(providers: seq<seq<ItemBinding>>, outcome: CallOutcome, now: int)
      returns (events: seq<ListenerEvent>, thrown: Option<Failure>)
      modifies this`lastNotificationOrderTime
      ensures var e := Enable(old(lastNotificationOrderTime), ResourceIds(Flatten(providers)), outcome, now);
        lastNotificationOrderTime == e.lastNotificationOrderTime && events == e.events && thrown == e.thrown
    {
      var ids := CollectResourceIds(providers);
      events := [];
      thrown := None;
      if |ids| > 0 {
        events := [EnableNotifications(ids)];
        match outcome {
          case Succeeds =>
            lastNotificationOrderTime := now;
          case Throws(f) =>
            thrown := Some(f);
        }
      }
    }

    /** The catch clauses of `waitResourceNotifications`. */
    method HandleFailure(f: Failure, events: seq<ListenerEvent>, providers: seq<seq<ItemBinding>>,
                         oracle: NotificationOracle, now: int)
      returns (events': seq<ListenerEvent>)
      modifies this`lastNotificationOrderTime
      ensures WaitResult(lastNotificationOrderTime, events')
        == Recover(f, old(lastNotificationOrderTime), events, ResourceIds(Flatten(providers)), oracle, now)
    {
      events' := events;
      match f {
        case SocketTimeout =>
        case IOFailure =>
          events' := events' + [OpenConnection];
          var recovered := false;
          if oracle.openConnection.Succeeds? {
            var enabled, thrown := EnableResourceValueNotification(providers, oracle.reenable, now);
            events' := events' + enabled;
            recovered := thrown.None?;
          }
          if !recovered {
            lastNotificationOrderTime := 0;
            events' := events' + [Backoff];
          }
        case OtherFailure =>
          events' := events' + [Backoff];
      }
    }

    /** `waitResourceNotifications(order)` at time now. */
    method WaitResourceNotifications(order: bool, communicator: bool, providers: seq<seq<ItemBinding>>,
                                     registry: Registry, oracle: NotificationOracle, now: int)
      returns (events: seq<ListenerEvent>)
      modifies this`lastNotificationOrderTime
      ensures WaitResult(lastNotificationOrderTime, events)
        == WaitNotificationsStep(old(lastNotificationOrderTime), order, communicator, Flatten(providers), registry, oracle, now)
    {
      if !communicator {
        events := [Backoff];
        return;
      }
      events := [];
      var thrown: Option<Failure> := None;
      if order {
        events, thrown := EnableResourceValueNotification(providers, oracle.enable, now);
      }
      if thrown.Some? {
        events := HandleFailure(thrown.value, events, providers, oracle, now);
        return;
      }
      events := events + [WaitNotifications];
      match oracle.wait {
        case WaitThrows(f) =>
          events := HandleFailure(f, events, providers, oracle, now);
        case Received(vals) =>
          var fanOut := DispatchNotifications(vals, providers, registry);
          events := events + fanOut.posts;
          if fanOut.failed {
            events := HandleFailure(OtherFailure, events, providers, oracle, now);
          }
      }
    }

    /** One iteration of `run`'s loop at time now, given the binding's
        configuration change time and the connection's last open time. */
    method Iterate(lastConfigChangeTime: int, lastOpenTime: int, now: int, communicator: bool,
                   providers: seq<seq<ItemBinding>>, registry: Registry, oracle: NotificationOracle)
      returns (events: seq<ListenerEvent>)
      modifies this
      ensures IterationResult(ListenerState(ready, lastNotificationOrderTime), events)
        == Iteration(ListenerState(old(ready), old(lastNotificationOrderTime)), lastConfigChangeTime, lastOpenTime,
                     now, communicator, Flatten(providers), registry, oracle)
    {
      var orderResourceValueNotifications := false;
      if lastConfigChangeTime > lastNotificationOrderTime {
        ready := false;
        if lastConfigChangeTime + 1000 < now {
          ready := true;
          orderResourceValueNotifications := true;
        }
      }
      if lastOpenTime > lastNotificationOrderTime {
        orderResourceValueNotifications := true;
      }
      if ready {
        events := WaitResourceNotifications(orderResourceValueNotifications, communicator, providers, registry, oracle, now);
      } else {
        events := [Backoff];
      }
    }
  }
}
