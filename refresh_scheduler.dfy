/** The binding object and its refresh cycle (`execute`): every item with a
    positive refresh interval that is due is queried from the controller, with
    one retry after a reconnect, its value is posted to the event bus, and its
    time stamp in `lastUpdateMap` is renewed. */
module RefreshScheduler {
  import opened IhcTypes
  import opened ValueCodec

  /** What one `resourceQuery` call does: return a value or throw. */
  datatype QueryAnswer = Answer(value: Value) | QueryThrows(failure: Failure)

  /** The controller's side of one refresh cycle: query(k, 0) and query(k, 1)
      answer the first and the retried `resourceQuery` for the k-th item of
      the cycle (counting the items of all providers in order), and
      reconnect(k) says whether `IhcConnection.reconnect()` before that retry
      returns normally. */
  datatype RefreshOracle = RefreshOracle(query: (nat, nat) -> QueryAnswer, reconnect: nat -> bool)

  /** The visible effects of a refresh cycle, in order: controller queries,
      reconnects and updates posted to the event bus. */
  datatype RefreshEvent = Query(item: string, resourceId: int) | Reconnect(item: string) | Post(item: string, state: State)

  /** Java `int` arithmetic: the result of an `int` multiplication wraps
      around modulo 2^32. */
  function Wrap32(x: int): (w: Int32)
    ensures (w - x) % 0x1_0000_0000 == 0
  {
    (x + 0x8000_0000) % 0x1_0000_0000 - 0x8000_0000
  }

  /** `provider.getRefreshInterval(itemName) * 1000`, computed in `int`. */
  function IntervalMillis(b: ItemBinding): (ms: Int32)
    ensures (ms - b.refreshInterval * 1000) % 0x1_0000_0000 == 0
    ensures -2147483 <= b.refreshInterval <= 2147483 ==> ms == b.refreshInterval * 1000
  {
    Wrap32(b.refreshInterval * 1000)
  }

  /** The item's time stamp, 0 when it has none. */
  function LastUpdate(lastUpdateMap: map<string, int>, itemName: string): int {
    if itemName in lastUpdateMap then lastUpdateMap[itemName] else 0
  }

  /** An item is refreshed when its interval is positive and at least that
      many milliseconds have passed since its time stamp. */
  predicate Due(lastUpdateMap: map<string, int>, b: ItemBinding, now: int): (due: bool)
    ensures -2147483 <= b.refreshInterval <= 2147483 ==>
      (due <==> b.refreshInterval > 0 && now - LastUpdate(lastUpdateMap, b.itemName) >= b.refreshInterval * 1000)
    ensures due ==> now - LastUpdate(lastUpdateMap, b.itemName) > 0
  {
    IntervalMillis(b) > 0 && now - LastUpdate(lastUpdateMap, b.itemName) >= IntervalMillis(b)
  }

  /** The value the k-th item's queries obtain, `null` being None: the first
      answer, or after an IOException and a reconnect that returns normally,
      the retry's answer. */
  function ObtainedValue(k: nat, oracle: RefreshOracle): Option<Value> {
    match oracle.query(k, 0)
    case Answer(v) => Some(v)
    case QueryThrows(f) =>
      if IsIOException(f) && oracle.reconnect(k) then
        (match oracle.query(k, 1)
         case Answer(v) => Some(v)
         case QueryThrows(_) => None)
      else None
  }

  /** The calls made to the controller for the k-th item. */
  function QueriesMade(b: ItemBinding, k: nat, oracle: RefreshOracle): seq<RefreshEvent> {
    var q := Query(b.itemName, b.resourceId);
    match oracle.query(k, 0)
    case Answer(_) => [q]
    case QueryThrows(f) =>
      if !IsIOException(f) then [q]
      else if !oracle.reconnect(k) then [q, Reconnect(b.itemName)]
      else [q, Reconnect(b.itemName), q]
  }

  /** The update posted for an obtained value: none without a value or when
      the conversion throws. */
  function Publication(b: ItemBinding, registry: Registry, value: Option<Value>): seq<RefreshEvent> {
    if value.None? then []
    else
      match ConvertResourceValueToState(Lookup(registry, b.itemName), value.value)
      case Ok(s) => [Post(b.itemName, s)]
      case Err(_) => []
  }

  /** Everything the refresh of one due item does. */
  function RefreshItem(b: ItemBinding, k: nat, registry: Registry, oracle: RefreshOracle): (e: seq<RefreshEvent>)
    ensures |e| >= 1 && e[0] == Query(b.itemName, b.resourceId)
    ensures forall i | 0 <= i < |e| :: e[i].item == b.itemName
  {
    QueriesMade(b, k, oracle) + Publication(b, registry, ObtainedValue(k, oracle))
  }

  datatype TickResult = TickResult(lastUpdateMap: map<string, int>, log: seq<RefreshEvent>)

  /** A refresh cycle over the items bs (all providers' items in order),
      starting from the time stamps init, item by item. */
  function RunTick(init: map<string, int>, bs: seq<ItemBinding>, now: int, registry: Registry, oracle: RefreshOracle): TickResult
    decreases |bs|
  {
    if bs == [] then TickResult(init, [])
    else
      var k := |bs| - 1;
      var r := RunTick(init, bs[..k], now, registry, oracle);
      var b := bs[k];
      if Due(r.lastUpdateMap, b, now) then
        TickResult(r.lastUpdateMap[b.itemName := now], r.log + RefreshItem(b, k, registry, oracle))
      else r
  }

  lemma RunTickAppend(init: map<string, int>, bs: seq<ItemBinding>, b: ItemBinding, now: int, registry: Registry, oracle: RefreshOracle)
    ensures var r := RunTick(init, bs, now, registry, oracle);
      RunTick(init, bs + [b], now, registry, oracle)
      == if Due(r.lastUpdateMap, b, now)
         then TickResult(r.lastUpdateMap[b.itemName := now], r.log + RefreshItem(b, |bs|, registry, oracle))
         else r
  {
    assert (bs + [b])[..|bs|] == bs;
  }

  function QueryCount(log: seq<RefreshEvent>): nat {
    if log == [] then 0 else (if log[0].Query? then 1 else 0) + QueryCount(log[1..])
  }

  lemma {:induction false} QueryCountAppend(a: seq<RefreshEvent>, b: seq<RefreshEvent>)
    ensures QueryCount(a + b) == QueryCount(a) + QueryCount(b)
  {
    if a == [] {
      assert a + b == b;
    } else {
      assert (a + b)[1..] == a[1..] + b;
      QueryCountAppend(a[1..], b);
    }
  }

  /** The order of the retry: after a first query that threw an
      IOException comes the reconnect, and after a reconnect that returned
      comes the second query. */
  lemma RetryFollowsReconnect(b: ItemBinding, k: nat, registry: Registry, oracle: RefreshOracle)
    ensures var e := RefreshItem(b, k, registry, oracle);
      var first := oracle.query(k, 0);
      var ioFailed := first.QueryThrows? && IsIOException(first.failure);
      && (ioFailed ==> |e| >= 2 && e[1] == Reconnect(b.itemName))
      && (ioFailed && oracle.reconnect(k) ==> |e| >= 3 && e[2] == Query(b.itemName, b.resourceId))
  {
  }

  /** The retry policy for one due item: one query, and a second one only
      after the first threw an IOException and the reconnect returned
      normally; an update only for a value obtained and converted, as the
      last thing done for the item. */
  lemma RefreshItemRetryPolicy(b: ItemBinding, k: nat, registry: Registry, oracle: RefreshOracle)
    ensures var e := RefreshItem(b, k, registry, oracle);
      var first := oracle.query(k, 0);
      var ioFailed := first.QueryThrows? && IsIOException(first.failure);
      && |e| >= 1 && e[0] == Query(b.itemName, b.resourceId)
      && (QueryCount(e) == 1 || QueryCount(e) == 2)
      && (QueryCount(e) == 2 <==> ioFailed && oracle.reconnect(k))
      && (Reconnect(b.itemName) in e <==> ioFailed)
      && (forall i | 0 <= i < |e| && e[i].Query? :: e[i] == Query(b.itemName, b.resourceId))
      && (forall i | 0 <= i < |e| && e[i].Post? ::
            && i == |e| - 1 && e[i].item == b.itemName
            && ObtainedValue(k, oracle).Some?
            && ConvertResourceValueToState(Lookup(registry, b.itemName), ObtainedValue(k, oracle).value) == Ok(e[i].state))
      && (ObtainedValue(k, oracle).Some?
          && ConvertResourceValueToState(Lookup(registry, b.itemName), ObtainedValue(k, oracle).value).Ok?
          ==> e[|e| - 1] == Post(b.itemName, ConvertResourceValueToState(Lookup(registry, b.itemName), ObtainedValue(k, oracle).value).value))
  {
    var q := QueriesMade(b, k, oracle);
    var p := Publication(b, registry, ObtainedValue(k, oracle));
    QueryCountAppend(q, p);
    assert QueryCount(p) == 0 by {
      if p != [] {
        assert p[1..] == [];
      }
    }
    var first := oracle.query(k, 0);
    if first.Answer? || !IsIOException(first.failure) {
      assert q == [Query(b.itemName, b.resourceId)];
      assert q[1..] == [];
    } else if !oracle.reconnect(k) {
      assert q[1..][1..] == [];
    } else {
      assert q[1..][1..][1..] == [];
      assert QueryCount(q[1..][1..]) == 1;
      assert QueryCount(q[1..]) == 1;
    }
  }

  /** A refresh cycle only adds time stamps and only ever writes `now`. */
  lemma {:induction false} RunTickStampsNow(init: map<string, int>, bs: seq<ItemBinding>, now: int, registry: Registry, oracle: RefreshOracle)
    ensures var m := RunTick(init, bs, now, registry, oracle).lastUpdateMap;
      && init.Keys <= m.Keys
      && forall n | n in m :: m[n] == now || (n in init && m[n] == init[n])
  {
    if bs != [] {
      RunTickStampsNow(init, bs[..|bs| - 1], now, registry, oracle);
    }
  }

  /** Every item that is due at the start of the cycle carries the time stamp
      `now` afterwards, whatever its queries and its conversion did. */
  lemma {:induction false} RunTickStampsDue(init: map<string, int>, bs: seq<ItemBinding>, now: int, registry: Registry, oracle: RefreshOracle)
    ensures var m := RunTick(init, bs, now, registry, oracle).lastUpdateMap;
      forall j | 0 <= j < |bs| && Due(init, bs[j], now) :: bs[j].itemName in m && m[bs[j].itemName] == now
  {
    if bs != [] {
      var k := |bs| - 1;
      var xs := bs[..k];
      var b := bs[k];
      RunTickStampsDue(init, xs, now, registry, oracle);
      RunTickStampsNow(init, xs, now, registry, oracle);
      var before := RunTick(init, xs, now, registry, oracle).lastUpdateMap;
      var m := RunTick(init, bs, now, registry, oracle).lastUpdateMap;
      forall j | 0 <= j < |bs| && Due(init, bs[j], now)
        ensures bs[j].itemName in m && m[bs[j].itemName] == now
      {
        if j < k {
          assert xs[j] == bs[j];
        } else {
          var n := b.itemName;
          if !(n in before && before[n] == now) {
            assert LastUpdate(before, n) == LastUpdate(init, n);
            assert Due(before, b, now);
          }
        }
      }
    }
  }

  /** An item none of whose bindings is due at the start of the cycle keeps
      its time stamp, or the lack of one. */
  lemma {:induction false} RunTickLeavesOthers(init: map<string, int>, bs: seq<ItemBinding>, now: int, registry: Registry, oracle: RefreshOracle, n: string)
    requires forall j | 0 <= j < |bs| && bs[j].itemName == n :: !Due(init, bs[j], now)
    ensures var m := RunTick(init, bs, now, registry, oracle).lastUpdateMap;
      (n in m <==> n in init) && (n in init ==> m[n] == init[n])
  {
    if bs != [] {
      var k := |bs| - 1;
      var xs := bs[..k];
      assert forall j | 0 <= j < |xs| && xs[j].itemName == n :: !Due(init, xs[j], now) by {
        forall j | 0 <= j < |xs| && xs[j].itemName == n ensures !Due(init, xs[j], now) {
          assert xs[j] == bs[j];
        }
      }
      RunTickLeavesOthers(init, xs, now, registry, oracle, n);
      var before := RunTick(init, xs, now, registry, oracle).lastUpdateMap;
      if bs[k].itemName == n {
        assert LastUpdate(before, n) == LastUpdate(init, n);
      }
    }
  }

  /** An item that is due part way through a cycle was already due at its
      start: the cycle only ever stamps `now`, which makes an item not due. */
  lemma DueMidCycleWasDue(init: map<string, int>, xs: seq<ItemBinding>, b: ItemBinding, now: int, registry: Registry, oracle: RefreshOracle)
    requires Due(RunTick(init, xs, now, registry, oracle).lastUpdateMap, b, now)
    ensures Due(init, b, now)
  {
    RunTickStampsNow(init, xs, now, registry, oracle);
    var m := RunTick(init, xs, now, registry, oracle).lastUpdateMap;
    assert LastUpdate(m, b.itemName) == LastUpdate(init, b.itemName);
  }

  /** Every event of a cycle concerns an item that was due at the start of
      the cycle; every query asks for that item's resource. */
  predicate FromRefreshedItem(init: map<string, int>, bs: seq<ItemBinding>, now: int, e: RefreshEvent) {
    exists j | 0 <= j < |bs| ::
      && bs[j].itemName == e.item && Due(init, bs[j], now)
      && (e.Query? ==> e.resourceId == bs[j].resourceId)
  }

  /** Only due items are queried, reconnected for or posted to. */
  lemma {:induction false} RunTickEventsFromRefreshedItems(init: map<string, int>, bs: seq<ItemBinding>, now: int, registry: Registry, oracle: RefreshOracle)
    ensures forall i | 0 <= i < |RunTick(init, bs, now, registry, oracle).log| ::
      FromRefreshedItem(init, bs, now, RunTick(init, bs, now, registry, oracle).log[i])
  {
    if bs != [] {
      var k := |bs| - 1;
      var xs := bs[..k];
      RunTickEventsFromRefreshedItems(init, xs, now, registry, oracle);
      var before := RunTick(init, xs, now, registry, oracle);
      var log := RunTick(init, bs, now, registry, oracle).log;
      assert forall i | 0 <= i < |before.log| :: FromRefreshedItem(init, xs, now, before.log[i]);
      forall i | 0 <= i < |log| ensures FromRefreshedItem(init, bs, now, log[i]) {
        if i < |before.log| {
          assert log[i] == before.log[i];
          assert FromRefreshedItem(init, xs, now, before.log[i]);
          var j :| 0 <= j < |xs| && xs[j].itemName == log[i].item && Due(init, xs[j], now)
                   && (log[i].Query? ==> log[i].resourceId == xs[j].resourceId);
          assert bs[j] == xs[j];
        } else {
          assert Due(before.lastUpdateMap, bs[k], now);
          DueMidCycleWasDue(init, xs, bs[k], now, registry, oracle);
          var e := RefreshItem(bs[k], k, registry, oracle);
          assert log[i] == e[i - |before.log|];
          RefreshItemRetryPolicy(bs[k], k, registry, oracle);
          assert log[i].item == bs[k].itemName;
        }
      }
    }
  }

  /** Item names are distinct among the items bs. */
  predicate DistinctNames(bs: seq<ItemBinding>) {
    forall a, c | 0 <= a < c < |bs| :: bs[a].itemName != bs[c].itemName
  }

  /** The last item of a cycle, when due at its start and named by no item
      before it, is queried for its resource. */
  lemma LastDueIsQueried(init: map<string, int>, bs: seq<ItemBinding>, now: int, registry: Registry, oracle: RefreshOracle)
    requires bs != [] && Due(init, bs[|bs| - 1], now)
    requires forall a | 0 <= a < |bs| - 1 :: bs[a].itemName != bs[|bs| - 1].itemName
    ensures Query(bs[|bs| - 1].itemName, bs[|bs| - 1].resourceId) in RunTick(init, bs, now, registry, oracle).log
  {
    var k := |bs| - 1;
    var xs := bs[..k];
    var n := bs[k].itemName;
    forall a | 0 <= a < |xs| ensures xs[a].itemName != n {
      assert xs[a] == bs[a];
    }
    RunTickLeavesOthers(init, xs, now, registry, oracle, n);
    var before := RunTick(init, xs, now, registry, oracle);
    assert LastUpdate(before.lastUpdateMap, n) == LastUpdate(init, n);
    RefreshItemRetryPolicy(bs[k], k, registry, oracle);
    var e := RefreshItem(bs[k], k, registry, oracle);
    var log := RunTick(init, bs, now, registry, oracle).log;
    assert log == before.log + e;
    assert log[|before.log|] == e[0];
  }

  /** Every item due at the start of the cycle is queried for its resource,
      whatever happened to the items before it. */
  lemma {:induction false} DueIsQueried(init: map<string, int>, bs: seq<ItemBinding>, now: int, registry: Registry, oracle: RefreshOracle)
    requires DistinctNames(bs)
    ensures forall j | 0 <= j < |bs| && Due(init, bs[j], now) ::
      Query(bs[j].itemName, bs[j].resourceId) in RunTick(init, bs, now, registry, oracle).log
  {
    if bs != [] {
      var k := |bs| - 1;
      var xs := bs[..k];
      assert DistinctNames(xs) by {
        forall a, c | 0 <= a < c < |xs| ensures xs[a].itemName != xs[c].itemName {
          assert xs[a] == bs[a] && xs[c] == bs[c];
        }
      }
      DueIsQueried(init, xs, now, registry, oracle);
      var log := RunTick(init, bs, now, registry, oracle).log;
      assert RunTick(init, xs, now, registry, oracle).log <= log;
      if Due(init, bs[k], now) {
        LastDueIsQueried(init, bs, now, registry, oracle);
      }
      forall j | 0 <= j < k && Due(init, bs[j], now) ensures Query(bs[j].itemName, bs[j].resourceId) in log {
        assert xs[j] == bs[j];
      }
    }
  }

  /** An item whose bindings all have refresh interval 0 is never queried,
      never updated by the cycle and keeps its time stamp. */
  lemma ZeroIntervalNeverRefreshed(init: map<string, int>, bs: seq<ItemBinding>, now: int, registry: Registry, oracle: RefreshOracle, n: string)
    requires forall j | 0 <= j < |bs| && bs[j].itemName == n :: bs[j].refreshInterval == 0
    ensures var r := RunTick(init, bs, now, registry, oracle);
      && (forall i | 0 <= i < |r.log| :: r.log[i].item != n)
      && (n in r.lastUpdateMap <==> n in init) && (n in init ==> r.lastUpdateMap[n] == init[n])
  {
    RunTickEventsFromRefreshedItems(init, bs, now, registry, oracle);
    RunTickLeavesOthers(init, bs, now, registry, oracle, n);
  }

  /** The Java `int` product wraps: an interval of 2147484 seconds or more
      comes out negative (or smaller than meant), and such an item is never
      refreshed. */
  lemma LongIntervalWraps(b: ItemBinding, lastUpdateMap: map<string, int>, now: int)
    requires b.refreshInterval == 2147484
    ensures IntervalMillis(b) == -2147483296
    ensures !Due(lastUpdateMap, b, now)
  {
  }

  /** A cycle makes at most two queries per item. */
  lemma {:induction false} RunTickQueryBound(init: map<string, int>, bs: seq<ItemBinding>, now: int, registry: Registry, oracle: RefreshOracle)
    ensures QueryCount(RunTick(init, bs, now, registry, oracle).log) <= 2 * |bs|
  {
    if bs != [] {
      var k := |bs| - 1;
      RunTickQueryBound(init, bs[..k], now, registry, oracle);
      var before := RunTick(init, bs[..k], now, registry, oracle);
      if Due(before.lastUpdateMap, bs[k], now) {
        QueryCountAppend(before.log, RefreshItem(bs[k], k, registry, oracle));
        RefreshItemRetryPolicy(bs[k], k, registry, oracle);
      }
    }
  }

  /** Time stamps stay between 0 and the current time. */
  ghost predicate StampsUpTo(lastUpdateMap: map<string, int>, now: int) {
    forall n | n in lastUpdateMap :: 0 <= lastUpdateMap[n] <= now
  }

  lemma RunTickKeepsStampsUpTo(init: map<string, int>, bs: seq<ItemBinding>, now: int, registry: Registry, oracle: RefreshOracle)
    requires now >= 0 && StampsUpTo(init, now)
    ensures StampsUpTo(RunTick(init, bs, now, registry, oracle).lastUpdateMap, now)
  {
    RunTickStampsNow(init, bs, now, registry, oracle);
  }

  /** The body of `execute`'s try block for the k-th item, which is due: the
      query, the retry after an IOException, the conversion and the post. */
  method QueryAndConvert(b: ItemBinding, k: nat, registry: Registry, oracle: RefreshOracle)
    returns (events: seq<RefreshEvent>)
    ensures events == RefreshItem(b, k, registry, oracle)
  {
    var query := Query(b.itemName, b.resourceId);
    events := [query];
    var resourceValue: Option<Value> := None;
    match oracle.query(k, 0) {
      case Answer(v) =>
        resourceValue := Some(v);
      case QueryThrows(f) =>
        if IsIOException(f) {
          events := events + [Reconnect(b.itemName)];
          if oracle.reconnect(k) {
            events := events + [query];
            var retry := oracle.query(k, 1);
            if retry.Answer? {
              resourceValue := Some(retry.value);
            }
          }
        }
    }
    if resourceValue.Some? {
      var item := Lookup(registry, b.itemName);
      var state := ConvertResourceValueToState(item, resourceValue.value);
      if state.Ok? {
        events := events + [Post(b.itemName, state.value)];
      }
    }
  }

  /** The binding object: whether it is configured, when its configuration
      last changed, and the time stamps of the refresh cycle. */
  class IhcInBinding {
    var isProperlyConfigured: bool
    var lastConfigurationChangeTime: int
    var lastUpdateMap: map<string, int>

    constructor ()
      ensures !isProperlyConfigured && lastConfigurationChangeTime == 0 && lastUpdateMap == map[]
    {
      isProperlyConfigured := false;
      lastConfigurationChangeTime := 0;
      lastUpdateMap := map[];
    }

    /** `touchLastConfigurationChangeTime` at time now. */
    method TouchLastConfigurationChangeTime(now: int)
      modifies this`lastConfigurationChangeTime
      ensures lastConfigurationChangeTime == now
    {
      lastConfigurationChangeTime := now;
    }

    /** `bindingChanged`: an item binding was added, changed or removed. */
    method BindingChanged(now: int)
      modifies this`lastConfigurationChangeTime
      ensures lastConfigurationChangeTime == now
    {
      TouchLastConfigurationChangeTime(now);
    }

    /** `updated`: the configuration was (re)loaded. */
    method Updated(now: int)
      modifies this`lastConfigurationChangeTime, this`isProperlyConfigured
      ensures lastConfigurationChangeTime == now && isProperlyConfigured
    {
      TouchLastConfigurationChangeTime(now);
      isProperlyConfigured := true;
    }

    /** The loop body of `execute` for its k-th item b: refresh b if it is
        due and renew its time stamp; log is what the cycle did before. */
    method RefreshIfDue(b: ItemBinding, k: nat, now: int, registry: Registry, oracle: RefreshOracle, log: seq<RefreshEvent>,
                        ghost init: map<string, int>, ghost done: seq<ItemBinding>)
      returns (log': seq<RefreshEvent>)
      requires k == |done|
      requires TickResult(lastUpdateMap, log) == RunTick(init, done, now, registry, oracle)
      modifies this`lastUpdateMap
      ensures TickResult(lastUpdateMap, log') ==
        if Due(old(lastUpdateMap), b, now)
        then TickResult(old(lastUpdateMap)[b.itemName := now], log + RefreshItem(b, k, registry, oracle))
        else TickResult(old(lastUpdateMap), log)
      ensures TickResult(lastUpdateMap, log') == RunTick(init, done + [b], now, registry, oracle)
    {
      RunTickAppend(init, done, b, now, registry, oracle);
      log' := log;
      var interval := Wrap32(b.refreshInterval * 1000);
      if interval > 0 {
        var last := if b.itemName in lastUpdateMap then lastUpdateMap[b.itemName] else 0;
        var age := now - last;
        if age >= interval {
          var events := QueryAndConvert(b, k, registry, oracle);
          log' := log' + events;
          lastUpdateMap := lastUpdateMap[b.itemName := now];
        }
      }
    }

    /** `execute`'s inner loop over the items of one provider, the first of
        which is the k-th item of the cycle; done are the items before it. */
    method RefreshProvider(items: seq<ItemBinding>, k: nat, now: int, registry: Registry, oracle: RefreshOracle,
                           log: seq<RefreshEvent>, ghost init: map<string, int>, ghost done: seq<ItemBinding>)
      returns (log': seq<RefreshEvent>)
      requires k == |done|
      requires TickResult(lastUpdateMap, log) == RunTick(init, done, now, registry, oracle)
      modifies this`lastUpdateMap
      ensures TickResult(lastUpdateMap, log') == RunTick(init, done + items, now, registry, oracle)
    {
      log' := log;
      var i := 0;
      assert done + items[..0] == done;
      while i < |items|
        invariant 0 <= i <= |items|
        invariant TickResult(lastUpdateMap, log') == RunTick(init, done + items[..i], now, registry, oracle)
      {
        var b := items[i];
        ghost var prefix := done + items[..i];
        assert done + items[..i + 1] == prefix + [b];
        log' := RefreshIfDue(b, k + i, now, registry, oracle, log', init, prefix);
        i := i + 1;
      }
      assert items[..|items|] == items;
    }

    /** `execute`: one refresh cycle at time now, with the communicator
        present or `null`. */
    method Execute(now: int, communicator: bool, providers: seq<seq<ItemBinding>>, registry: Registry, oracle: RefreshOracle)
      returns (log: seq<RefreshEvent>)
      modifies this`lastUpdateMap
      ensures !communicator ==> lastUpdateMap == old(lastUpdateMap) && log == []
      ensures communicator ==>
        TickResult(lastUpdateMap, log) == RunTick(old(lastUpdateMap), Flatten(providers), now, registry, oracle)
      ensures now >= 0 && StampsUpTo(old(lastUpdateMap), now) ==> StampsUpTo(lastUpdateMap, now)
    {
      log := [];
      if !communicator {
        return;
      }
      ghost var init := lastUpdateMap;
      var p := 0;
      var k := 0;
      while p < |providers|
        invariant 0 <= p <= |providers|
        invariant k == |Flatten(providers[..p])|
        invariant TickResult(lastUpdateMap, log) == RunTick(init, Flatten(providers[..p]), now, registry, oracle)
      {
        log := RefreshProvider(providers[p], k, now, registry, oracle, log, init, Flatten(providers[..p]));
        k := k + |providers[p]|;
        FlattenAppend(providers, p);
        p := p + 1;
      }
      assert providers[..|providers|] == providers;
      if now >= 0 && StampsUpTo(init, now) {
        RunTickKeepsStampsUpTo(init, Flatten(providers), now, registry, oracle);
      }
    }
  }
}
