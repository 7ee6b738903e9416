# IHC / ELKO LS binding core, modelled in Dafny

This project models the core of openHAB's IHC / ELKO LS binding. That core
connects items on the openHAB event bus to the resources of an IHC
home-automation controller. It has four parts, each modelled in its own
module:

- **Value conversion** (`ValueCodec`). `convertResourceValueToState` turns a
  controller resource value (boolean, integer, floating point, timer, weekday,
  date, time or enum) into the state of the item it is bound to.
  - Floating point values are rounded to two decimals, half to even.
  - Unsupported pairs of value and item class throw.
  - An unknown item gets UNDEF.
- **Refresh cycle** (`RefreshScheduler`, class `IhcInBinding`). `execute`
  queries every item whose refresh interval has passed. After an IOException
  it retries once, following a reconnect. It posts the converted value and
  renews the item's time stamp.
- **Resource value notification listener** (`ValueNotifications`, class
  `ResourceValueNotificationListener`). One iteration of its loop does this:
  - It waits until a configuration change is more than a second old.
  - After a change or a reopened connection, it orders runtime value
    notifications for all resources.
  - It waits for notifications and posts each value to every item bound to its
    resource, except items that are out binding only.
  - It recovers from a timeout, an IOException or any other exception as the
    source does.
- **Controller state listener** (`ControllerStateWatch`, class
  `ControllerStateListener`). It holds the controller's last state and waits
  for a change. The connection is reopened after a change away from the
  initialize state or into the ready state.

It also models `SwitchItem` (`SwitchItem`), the openHAB item class that the
binding gives ON and OFF.

## How the model works

**Calls into the controller are oracles.** `resourceQuery`,
`enableRuntimeValueNotifications`, `waitResourceValueNotifications`,
`queryControllerState`, `waitStateChangeNotifications`, `openConnection`,
`connect` and `reconnect` all belong to the controller client or the
connection. The model does not contain them. Each operation takes an oracle
value that says what each such call returns or which exception it throws:
`Failure` has three cases, a SocketTimeoutException, another IOException or
an exception of another class. What an operation does is a sequence of events
in order: queries, orders, waits, reconnects, posts to the event bus and
back-offs. A back-off is a call of `mysleep`.

**Each operation has a specification function and a method.** The function
describes one refresh cycle or one listener iteration (`RunTick` and
`RefreshItem`; `DispatchValue`, `DispatchValues`, `Enable`, `Recover`,
`WaitNotificationsStep` and `Iteration` of the notification listener;
`Recover` and `Iteration` of the controller state listener). The lemmas state the properties about those functions. The
imperative code is a class whose fields are the state the source updates:
`lastUpdateMap`, `lastConfigurationChangeTime`, `ready`,
`lastNotificationOrderTime` and `oldState`. Its methods use the source's
nested loops over providers and items. Each method's postcondition ties the new
state and the events to the specification function.

**Time is a parameter.** The clock is the parameter `now`: one value per
cycle or iteration. The communicator being present or `null` is the
parameter `communicator`. The binding providers are a sequence of sequences
of `ItemBinding`s. The item registry is a map from item name to item class.

**Numbers.**
- A finite `double` is an exact `real`.
- `BigDecimal` is an unscaled integer with a scale.
- The Java `int` product `refreshInterval * 1000` wraps around modulo 2^32
  (`Wrap32`).

**Where the code behaves differently from what its comments and structure suggest, the model follows the code:**
- A conversion that throws inside the notification fan-out is not contained to
  one item. The NumberFormatException leaves all three loops of
  `waitResourceNotifications`, reaches its `catch (Exception)` and backs
  off. Values and items not yet handled in that batch get nothing
  (`DispatchValuesStaysFailed`, `OtherFailureBacksOff`). In the refresh
  cycle, a throwing conversion only skips its own item, because the try block
  is inside the item loop.
- When `IhcConnection.connect()` throws after a reopening transition, the
  controller state listener does not update its held state
  (`HeldStateTracksController`). The next wait starts again from the old
  state.
- The controller state listener has no separate timeout clause. A timeout is
  an IOException there and leads to a reconnect (`RecoveryPolicy`). The
  notification listener does treat a timeout as benign.
- The configuration change must be strictly more than 1000 ms old
  (`lastConfigChangeTime + 1000 < now`) before notifications are ordered.
- `mysleep` always sleeps five seconds, whatever its argument. The model
  therefore has a single `Backoff` event.

## Model

| member | source | states |
|---|---|---|
| `IhcTypes.Lookup` | bundles/binding/org.openhab.binding.ihc/src/main/java/org/openhab/binding/ihc/internal/IhcInBinding.java:402-410 | the item is found exactly when the registry knows its name, and it is the registered one; otherwise it is `null` |
| `ValueCodec.RoundHalfEven` | bundles/binding/org.openhab.binding.ihc/src/main/java/org/openhab/binding/ihc/internal/IhcInBinding.java:268-269 | the result is within one half of x, and on a tie it is even (HALF_EVEN) |
| `ValueCodec.RoundHalfEvenUnique` | bundles/binding/org.openhab.binding.ihc/src/main/java/org/openhab/binding/ihc/internal/IhcInBinding.java:268-269 | those two properties determine the rounded integer uniquely |
| `ValueCodec.SetScale2HalfEven` | bundles/binding/org.openhab.binding.ihc/src/main/java/org/openhab/binding/ihc/internal/IhcInBinding.java:266-270 | `setScale(2, HALF_EVEN)` has scale 2 and is within 0.005 of the double; on a tie its last digit is even |
| `ValueCodec.ConvertResourceValueToState` | bundles/binding/org.openhab.binding.ihc/src/main/java/org/openhab/binding/ihc/internal/IhcInBinding.java:252-348 | it throws exactly when the item exists and its class does not accept the value's variant; a state is of the item's class (Decimal, OnOff, OpenClosed, DateTime or String); UNDEF exactly for a `null` item or an item of another class |
| `ValueCodec.NumberConversionIsExact` | bundles/binding/org.openhab.binding.ihc/src/main/java/org/openhab/binding/ihc/internal/IhcInBinding.java:273-286 | a number item gets a boolean as 1 or 0, an integer unchanged, a timer as milliseconds and a weekday as its number, exactly |
| `ValueCodec.NumberConversionRounds` | bundles/binding/org.openhab.binding.ihc/src/main/java/org/openhab/binding/ihc/internal/IhcInBinding.java:259-271 | a number item gets a finite floating point value rounded half to even at scale 2, at most 0.005 away |
| `ValueCodec.RoundingExamples` | bundles/binding/org.openhab.binding.ihc/src/main/java/org/openhab/binding/ihc/internal/IhcInBinding.java:263-270 | 22.299999237060546875 gives 22.30; 0.125 gives 0.12; 0.375 gives 0.38; -0.125 gives -0.12 |
| `ValueCodec.BooleanItemsAgree` | bundles/binding/org.openhab.binding.ihc/src/main/java/org/openhab/binding/ihc/internal/IhcInBinding.java:273-314 | switch and contact items accept exactly booleans; true is ON, OPEN and 1 |
| `ValueCodec.WSDateTimeToCalendar` | bundles/binding/org.openhab.binding.ihc/src/main/java/org/openhab/binding/ihc/internal/IhcInBinding.java:350-371 | with a time, the calendar reads back the time's hour, minute and second on year 1900, month index 1, day 1; with only a date, the date's year, month and day at midnight; with neither, the initial calendar |
| `ValueCodec.DateConversionRoundTrip` | bundles/binding/org.openhab.binding.ihc/src/main/java/org/openhab/binding/ihc/internal/IhcInBinding.java:350-360 | a date value's calendar gives back the date's year, month and day, at midnight |
| `ValueCodec.TimeConversionRoundTrip` | bundles/binding/org.openhab.binding.ihc/src/main/java/org/openhab/binding/ihc/internal/IhcInBinding.java:362-368 | a time value's calendar gives back its hours, minutes and seconds, on year 1900, month index 1, day 1 |
| `ValueCodec.CalendarTimeOverridesDate` | bundles/binding/org.openhab.binding.ihc/src/main/java/org/openhab/binding/ihc/internal/IhcInBinding.java:350-371 | a time replaces every field a date set; with neither, the calendar is the initial one |
| `ValueCodec.EnumConversionRoundTrip` | bundles/binding/org.openhab.binding.ihc/src/main/java/org/openhab/binding/ihc/internal/IhcInBinding.java:334-338 | a string item gets the enum value's name |
| `SwitchItem.GetAcceptedDataTypes` | bundles/core/org.openhab.core.library/src/main/java/org/openhab/core/library/items/SwitchItem.java:52-72 | the accepted state classes are exactly those of ON, OFF and UNDEF |
| `SwitchItem.GetAcceptedCommandTypes` | bundles/core/org.openhab.core.library/src/main/java/org/openhab/core/library/items/SwitchItem.java:53-76 | the accepted command classes are exactly that of ON and OFF |
| `SwitchItem.GetStateAs` | bundles/core/org.openhab.core.library/src/main/java/org/openhab/core/library/items/SwitchItem.java:78-87 | as a decimal, the state is 1 when ON and 0 otherwise; as a percent, 100 or 0; other classes are left to GenericItem |
| `SwitchItem.PercentViewScalesDecimalView` | bundles/core/org.openhab.core.library/src/main/java/org/openhab/core/library/items/SwitchItem.java:80-83 | the percent view is a hundred times the decimal view |
| `SwitchItem.SwitchViewMatchesNumberConversion` | bundles/core/org.openhab.core.library/src/main/java/org/openhab/core/library/items/SwitchItem.java:78-87 | a switch given a boolean by the binding holds an accepted state, and its decimal view is what a number item would get for that boolean |
| `RefreshScheduler.Wrap32` | bundles/binding/org.openhab.binding.ihc/src/main/java/org/openhab/binding/ihc/internal/IhcInBinding.java:180-181 | the `int` product is congruent to the exact product modulo 2^32 |
| `RefreshScheduler.IntervalMillis` | bundles/binding/org.openhab.binding.ihc/src/main/java/org/openhab/binding/ihc/internal/IhcInBinding.java:180-181 | the interval in milliseconds is congruent to interval * 1000 modulo 2^32, and equals it for intervals up to 2147483 seconds in size |
| `RefreshScheduler.Due` | bundles/binding/org.openhab.binding.ihc/src/main/java/org/openhab/binding/ihc/internal/IhcInBinding.java:183-192 | for intervals that do not wrap, an item is due exactly when its interval is positive and its age is at least interval * 1000 ms; a due item's age is positive |
| `RefreshScheduler.RunTick` | bundles/binding/org.openhab.binding.ihc/src/main/java/org/openhab/binding/ihc/internal/IhcInBinding.java:170-235 | the specification of `execute` over all items in order; its properties are `RunTickStampsNow`, `RunTickStampsDue`, `RunTickLeavesOthers`, `RunTickEventsFromRefreshedItems`, `DueIsQueried` and `RunTickQueryBound` |
| `RefreshScheduler.RefreshItem` | bundles/binding/org.openhab.binding.ihc/src/main/java/org/openhab/binding/ihc/internal/IhcInBinding.java:196-228 | the try block for one due item: its first event is the query of the item's resource, and every event names the item |
| `RefreshScheduler.RefreshItemRetryPolicy` | bundles/binding/org.openhab.binding.ihc/src/main/java/org/openhab/binding/ihc/internal/IhcInBinding.java:200-228 | a due item is queried once; it is queried a second time exactly when the first query threw an IOException and the reconnect returned; there is a reconnect exactly after an IOException; every query asks for the item's resource; at most one update is posted, last, carrying the obtained value's conversion, and one is posted whenever a value was obtained and converts |
| `RefreshScheduler.RetryFollowsReconnect` | bundles/binding/org.openhab.binding.ihc/src/main/java/org/openhab/binding/ihc/internal/IhcInBinding.java:200-212 | the reconnect comes right after a first query that threw an IOException, and the second query right after a reconnect that returned |
| `RefreshScheduler.RunTickStampsNow` | bundles/binding/org.openhab.binding.ihc/src/main/java/org/openhab/binding/ihc/internal/IhcInBinding.java:230-231 | a cycle drops no time stamp, and every stamp afterwards is now or the one it had before |
| `RefreshScheduler.RunTickStampsDue` | bundles/binding/org.openhab.binding.ihc/src/main/java/org/openhab/binding/ihc/internal/IhcInBinding.java:183-232 | every item due at the start of the cycle carries time stamp now afterwards, whatever its queries did |
| `RefreshScheduler.RunTickLeavesOthers` | bundles/binding/org.openhab.binding.ihc/src/main/java/org/openhab/binding/ihc/internal/IhcInBinding.java:183-194 | an item with no due binding keeps its time stamp, or the lack of one |
| `RefreshScheduler.DueMidCycleWasDue` | bundles/binding/org.openhab.binding.ihc/src/main/java/org/openhab/binding/ihc/internal/IhcInBinding.java:183-194 | an item due part way through a cycle was already due at its start, since a cycle only stamps now |
| `RefreshScheduler.RunTickEventsFromRefreshedItems` | bundles/binding/org.openhab.binding.ihc/src/main/java/org/openhab/binding/ihc/internal/IhcInBinding.java:176-235 | every event of a cycle concerns an item that was due at the start of the cycle, and each query asks for that item's resource |
| `RefreshScheduler.LastDueIsQueried` | bundles/binding/org.openhab.binding.ihc/src/main/java/org/openhab/binding/ihc/internal/IhcInBinding.java:183-200 | the cycle's last item, due at the start and named by no earlier item, is queried for its resource |
| `RefreshScheduler.DueIsQueried` | bundles/binding/org.openhab.binding.ihc/src/main/java/org/openhab/binding/ihc/internal/IhcInBinding.java:176-200 | when item names are distinct, every item due at the start of the cycle is queried for its resource |
| `RefreshScheduler.ZeroIntervalNeverRefreshed` | bundles/binding/org.openhab.binding.ihc/src/main/java/org/openhab/binding/ihc/internal/IhcInBinding.java:180-183 | an item with refresh interval 0 is never queried or posted to, and keeps its time stamp |
| `RefreshScheduler.LongIntervalWraps` | bundles/binding/org.openhab.binding.ihc/src/main/java/org/openhab/binding/ihc/internal/IhcInBinding.java:180-183 | an interval of 2147484 s wraps to -2147483296 ms, so that item is never refreshed |
| `RefreshScheduler.RunTickQueryBound` | bundles/binding/org.openhab.binding.ihc/src/main/java/org/openhab/binding/ihc/internal/IhcInBinding.java:200-217 | a cycle makes at most two queries per item |
| `RefreshScheduler.RunTickKeepsStampsUpTo` | bundles/binding/org.openhab.binding.ihc/src/main/java/org/openhab/binding/ihc/internal/IhcInBinding.java:230-231 | time stamps between 0 and now stay so |
| `RefreshScheduler.QueryAndConvert` | bundles/binding/org.openhab.binding.ihc/src/main/java/org/openhab/binding/ihc/internal/IhcInBinding.java:200-228 | the try block's events are those of the retry policy above |
| `RefreshScheduler.IhcInBinding.constructor` | bundles/binding/org.openhab.binding.ihc/src/main/java/org/openhab/binding/ihc/internal/IhcInBinding.java:97-111 | the binding starts unconfigured, with change time 0 and no time stamps |
| `RefreshScheduler.IhcInBinding.TouchLastConfigurationChangeTime` | bundles/binding/org.openhab.binding.ihc/src/main/java/org/openhab/binding/ihc/internal/IhcInBinding.java:151-153 | the configuration change time becomes now |
| `RefreshScheduler.IhcInBinding.BindingChanged` | bundles/binding/org.openhab.binding.ihc/src/main/java/org/openhab/binding/ihc/internal/IhcInBinding.java:374-377 | a binding change renews the configuration change time |
| `RefreshScheduler.IhcInBinding.Updated` | bundles/binding/org.openhab.binding.ihc/src/main/java/org/openhab/binding/ihc/internal/IhcInBinding.java:380-391 | a configuration update renews the change time and marks the binding configured |
| `RefreshScheduler.IhcInBinding.RefreshIfDue` | bundles/binding/org.openhab.binding.ihc/src/main/java/org/openhab/binding/ihc/internal/IhcInBinding.java:183-232 | a due item is refreshed and stamped now; any other item changes nothing |
| `RefreshScheduler.IhcInBinding.RefreshProvider` | bundles/binding/org.openhab.binding.ihc/src/main/java/org/openhab/binding/ihc/internal/IhcInBinding.java:177-234 | one provider's items continue the cycle item by item |
| `RefreshScheduler.IhcInBinding.Execute` | bundles/binding/org.openhab.binding.ihc/src/main/java/org/openhab/binding/ihc/internal/IhcInBinding.java:171-240 | without a communicator nothing happens; otherwise the time stamps and events are those of the cycle over all providers' items in order; time stamps between 0 and now stay so |
| `ValueNotifications.ResourceIdsAt` | bundles/binding/org.openhab.binding.ihc/src/main/java/org/openhab/binding/ihc/internal/IhcInBinding.java:438-446 | the id list has one entry per item, the item's resource id, in order |
| `ValueNotifications.AppendResourceIds` | bundles/binding/org.openhab.binding.ihc/src/main/java/org/openhab/binding/ihc/internal/IhcInBinding.java:441-443 | one provider's inner loop appends exactly the resource ids of its items, in order |
| `ValueNotifications.CollectResourceIds` | bundles/binding/org.openhab.binding.ihc/src/main/java/org/openhab/binding/ihc/internal/IhcInBinding.java:435-446 | the list ordered is every provider's items' resource ids, in order |
| `ValueNotifications.DispatchToItem` | bundles/binding/org.openhab.binding.ihc/src/main/java/org/openhab/binding/ihc/internal/IhcInBinding.java:523-545 | an item bound to the value's resource and not out binding only is posted the converted value; a conversion error ends the fan-out |
| `ValueNotifications.DispatchToItems` | bundles/binding/org.openhab.binding.ihc/src/main/java/org/openhab/binding/ihc/internal/IhcInBinding.java:521-549 | one provider's items continue the fan-out, and it stops at a conversion error |
| `ValueNotifications.DispatchToProviders` | bundles/binding/org.openhab.binding.ihc/src/main/java/org/openhab/binding/ihc/internal/IhcInBinding.java:520-550 | one value is fanned out to all providers' items in order |
| `ValueNotifications.DispatchNotifications` | bundles/binding/org.openhab.binding.ihc/src/main/java/org/openhab/binding/ihc/internal/IhcInBinding.java:519-551 | all received values are fanned out in order |
| `ValueNotifications.DispatchValue` | bundles/binding/org.openhab.binding.ihc/src/main/java/org/openhab/binding/ihc/internal/IhcInBinding.java:524-549 | the fan-out of one value over the items, stopping at a conversion that throws; its properties are `DispatchValueSound`, `DispatchValueComplete` and `DispatchValueStaysFailed` |
| `ValueNotifications.DispatchValues` | bundles/binding/org.openhab.binding.ihc/src/main/java/org/openhab/binding/ihc/internal/IhcInBinding.java:523-551 | the fan-out of a batch, value after value, stopping at a conversion that throws; its properties are `DispatchValuesSound`, `DispatchValuesComplete` and `DispatchValuesStaysFailed` |
| `ValueNotifications.DispatchValueStaysFailed` | bundles/binding/org.openhab.binding.ihc/src/main/java/org/openhab/binding/ihc/internal/IhcInBinding.java:575-580 | after a conversion error, later items get nothing for that value |
| `ValueNotifications.DispatchValuesStaysFailed` | bundles/binding/org.openhab.binding.ihc/src/main/java/org/openhab/binding/ihc/internal/IhcInBinding.java:575-580 | after a conversion error, later values of the batch are not posted |
| `ValueNotifications.DispatchValueSound` | bundles/binding/org.openhab.binding.ihc/src/main/java/org/openhab/binding/ihc/internal/IhcInBinding.java:523-545 | every post for a value goes to an item bound to its resource, not out binding only, with the value converted for that item |
| `ValueNotifications.DispatchValuesSound` | bundles/binding/org.openhab.binding.ihc/src/main/java/org/openhab/binding/ihc/internal/IhcInBinding.java:519-551 | every post of a batch delivers a received value to an item bound to its resource, not out binding only, as its conversion |
| `ValueNotifications.DispatchValueComplete` | bundles/binding/org.openhab.binding.ihc/src/main/java/org/openhab/binding/ihc/internal/IhcInBinding.java:523-545 | without a conversion error, every item bound to the value's resource and not out binding only is posted the converted value |
| `ValueNotifications.DispatchValuesComplete` | bundles/binding/org.openhab.binding.ihc/src/main/java/org/openhab/binding/ihc/internal/IhcInBinding.java:519-551 | without a conversion error, every received value reaches every item bound to its resource that is not out binding only |
| `ValueNotifications.OutBindingOnlyNeverPosted` | bundles/binding/org.openhab.binding.ihc/src/main/java/org/openhab/binding/ihc/internal/IhcInBinding.java:531-536 | an item all of whose bindings are out binding only is never posted to |
| `ValueNotifications.WaitOrdersCarryAllResourceIds` | bundles/binding/org.openhab.binding.ihc/src/main/java/org/openhab/binding/ihc/internal/IhcInBinding.java:502-587 | every order `waitResourceNotifications` makes names the resource ids of all items, and none is made without items |
| `ValueNotifications.WaitWithoutItemsKeepsOrderTime` | bundles/binding/org.openhab.binding.ihc/src/main/java/org/openhab/binding/ihc/internal/IhcInBinding.java:449-453 | without items, the order time changes only by the reset to 0 after a failed reopen |
| `ValueNotifications.NotReadyOnlyBacksOff` | bundles/binding/org.openhab.binding.ihc/src/main/java/org/openhab/binding/ihc/internal/IhcInBinding.java:492-495 | a listener that is not ready only backs off and keeps its order time |
| `ValueNotifications.ConfigurationChangeDebounce` | bundles/binding/org.openhab.binding.ihc/src/main/java/org/openhab/binding/ihc/internal/IhcInBinding.java:470-485 | a change newer than the last order and at most a second old makes the listener not ready, and it only backs off; an older one makes it ready and orders notifications for all resources first |
| `ValueNotifications.ReopenOrdersWhenReady` | bundles/binding/org.openhab.binding.ihc/src/main/java/org/openhab/binding/ihc/internal/IhcInBinding.java:487-495 | a reopened connection orders notifications again, but only when the listener is ready; otherwise it backs off |
| `ValueNotifications.NothingNewJustWaits` | bundles/binding/org.openhab.binding.ihc/src/main/java/org/openhab/binding/ihc/internal/IhcInBinding.java:464-495 | with no change and no reopen since the last order, a ready listener waits without ordering |
| `ValueNotifications.OrdersCarryAllResourceIds` | bundles/binding/org.openhab.binding.ihc/src/main/java/org/openhab/binding/ihc/internal/IhcInBinding.java:431-454 | every order names all items' resource ids and is never empty; without items there is no order, and the order time changes only by the reset to 0 |
| `ValueNotifications.SuccessfulOrderStampsNow` | bundles/binding/org.openhab.binding.ihc/src/main/java/org/openhab/binding/ihc/internal/IhcInBinding.java:449-453 | an order that returns sets the order time to now, and it stays so unless the wait throws an IOException other than a timeout |
| `ValueNotifications.TimeoutIsBenign` | bundles/binding/org.openhab.binding.ihc/src/main/java/org/openhab/binding/ihc/internal/IhcInBinding.java:510-555 | a SocketTimeoutException from the order or from the wait causes no reopen and no back-off; the events are the order step's, followed by the wait when the order returned, and the order time is the one the order step left |
| `ValueNotifications.IOFailureReopens` | bundles/binding/org.openhab.binding.ihc/src/main/java/org/openhab/binding/ihc/internal/IhcInBinding.java:556-574 | the IOException clause opens the connection; a failing reopen or re-order resets the order time to 0 and ends in a back-off; otherwise there is no back-off and the order time is now, or unchanged when nothing is ordered |
| `ValueNotifications.IOFailureRecovery` | bundles/binding/org.openhab.binding.ihc/src/main/java/org/openhab/binding/ihc/internal/IhcInBinding.java:510-574 | another IOException, from the order or from the wait, reopens the connection and orders again; if the reopen or the new order throws, the order time is reset to 0 and the listener backs off; otherwise there is no back-off and the order time is now, or unchanged when there are no items |
| `ValueNotifications.OtherFailureBacksOff` | bundles/binding/org.openhab.binding.ihc/src/main/java/org/openhab/binding/ihc/internal/IhcInBinding.java:512-580 | any other exception, thrown by the order, the wait or a conversion in the fan-out, backs off without a reopen; the events start with the order step's and the order time is the one the order step left |
| `ValueNotifications.ReceivedValuesArePosted` | bundles/binding/org.openhab.binding.ihc/src/main/java/org/openhab/binding/ihc/internal/IhcInBinding.java:512-551 | when the order step did not throw, a batch whose conversions all succeed is posted exactly as the fan-out gives it, after the order step's events and the wait; the order time is the one the order step left |
| `ValueNotifications.ResourceValueNotificationListener.constructor` | bundles/binding/org.openhab.binding.ihc/src/main/java/org/openhab/binding/ihc/internal/IhcInBinding.java:421-425 | the listener starts not ready with order time 0 |
| `ValueNotifications.Enable` | bundles/binding/org.openhab.binding.ihc/src/main/java/org/openhab/binding/ihc/internal/IhcInBinding.java:431-454 | an order is made exactly when the id list is not empty, and names that list; it throws exactly when the call is made and throws; the order time becomes now exactly when the call returns |
| `ValueNotifications.Recover` | bundles/binding/org.openhab.binding.ihc/src/main/java/org/openhab/binding/ihc/internal/IhcInBinding.java:553-580 | the catch clauses keep the events before the exception; an IOException opens the connection first; any other exception appends only back-offs; a timeout changes nothing; the order time becomes now, 0 or stays |
| `ValueNotifications.WaitNotificationsStep` | bundles/binding/org.openhab.binding.ihc/src/main/java/org/openhab/binding/ihc/internal/IhcInBinding.java:502-587 | without a communicator only a back-off; otherwise the first event is the order of all resource ids when ordering with items, and the wait otherwise |
| `ValueNotifications.Iteration` | bundles/binding/org.openhab.binding.ihc/src/main/java/org/openhab/binding/ihc/internal/IhcInBinding.java:464-495 | the listener is ready afterwards exactly when `NextReady` says so; a listener that is not ready only backs off and keeps its order time |
| `ValueNotifications.ResourceValueNotificationListener.EnableResourceValueNotification` | bundles/binding/org.openhab.binding.ihc/src/main/java/org/openhab/binding/ihc/internal/IhcInBinding.java:431-454 | no call is made for an empty id list; otherwise the ids are ordered and the order time becomes now if the call returns |
| `ValueNotifications.ResourceValueNotificationListener.HandleFailure` | bundles/binding/org.openhab.binding.ihc/src/main/java/org/openhab/binding/ihc/internal/IhcInBinding.java:553-580 | the catch clauses: a timeout does nothing; an IOException reopens and reorders, resetting the order time to 0 and backing off when that throws; anything else backs off |
| `ValueNotifications.ResourceValueNotificationListener.WaitResourceNotifications` | bundles/binding/org.openhab.binding.ihc/src/main/java/org/openhab/binding/ihc/internal/IhcInBinding.java:502-587 | one call of `waitResourceNotifications`: order if asked, wait, fan out, or recover; back off without a communicator |
| `ValueNotifications.ResourceValueNotificationListener.Iterate` | bundles/binding/org.openhab.binding.ihc/src/main/java/org/openhab/binding/ihc/internal/IhcInBinding.java:464-495 | one iteration of `run`'s loop: new readiness, whether to order, and the wait or the back-off |
| `ControllerStateWatch.Baseline` | bundles/binding/org.openhab.binding.ihc/src/main/java/org/openhab/binding/ihc/internal/IhcInBinding.java:632-637 | the state waited from is the held one, or else the state the query returned, which is available exactly when the query returns |
| `ControllerStateWatch.ConnectExactlyOnReopenTransition` | bundles/binding/org.openhab.binding.ihc/src/main/java/org/openhab/binding/ihc/internal/IhcInBinding.java:646-659 | the connection is reopened exactly when the wait reports a change away from the initialize state or into the ready state |
| `ControllerStateWatch.ConnectAtMostOnce` | bundles/binding/org.openhab.binding.ihc/src/main/java/org/openhab/binding/ihc/internal/IhcInBinding.java:652-659 | an iteration reopens the connection at most once |
| `ControllerStateWatch.OtherTransitionsDoNotReopen` | bundles/binding/org.openhab.binding.ihc/src/main/java/org/openhab/binding/ihc/internal/IhcInBinding.java:646-662 | a change between two other states makes no connect, reconnect or back-off, and the new state is held |
| `ControllerStateWatch.HeldStateTracksController` | bundles/binding/org.openhab.binding.ihc/src/main/java/org/openhab/binding/ihc/internal/IhcInBinding.java:646-662 | the held state becomes the reported one, except that it stays the prior one when `connect()` throws |
| `ControllerStateWatch.BaselineIsKept` | bundles/binding/org.openhab.binding.ihc/src/main/java/org/openhab/binding/ihc/internal/IhcInBinding.java:632-637 | a queried baseline is kept even if the wait fails; a held state is never dropped |
| `ControllerStateWatch.QueryOnlyWithoutBaseline` | bundles/binding/org.openhab.binding.ihc/src/main/java/org/openhab/binding/ihc/internal/IhcInBinding.java:632-642 | the state is queried exactly when none is held, and the wait starts from the baseline |
| `ControllerStateWatch.RecoverAppendsNoConnect` | bundles/binding/org.openhab.binding.ihc/src/main/java/org/openhab/binding/ihc/internal/IhcInBinding.java:664-684 | the catch clauses keep the events before the exception and append no connect |
| `ControllerStateWatch.RecoveryPolicy` | bundles/binding/org.openhab.binding.ihc/src/main/java/org/openhab/binding/ihc/internal/IhcInBinding.java:664-688 | an IOException, a timeout included, reconnects, and backs off when reconnecting throws; any other exception only backs off; a back-off is the last event |
| `ControllerStateWatch.Recover` | bundles/binding/org.openhab.binding.ihc/src/main/java/org/openhab/binding/ihc/internal/IhcInBinding.java:664-684 | the catch clauses of the controller listener; their properties are `RecoverAppendsNoConnect` and `RecoveryPolicy` |
| `ControllerStateWatch.Iteration` | bundles/binding/org.openhab.binding.ihc/src/main/java/org/openhab/binding/ihc/internal/IhcInBinding.java:624-689 | the specification of one iteration of `run`; its properties are the lemmas above, from `ConnectExactlyOnReopenTransition` to `RecoveryPolicy` |
| `ControllerStateWatch.ControllerStateListener.constructor` | bundles/binding/org.openhab.binding.ihc/src/main/java/org/openhab/binding/ihc/internal/IhcInBinding.java:621 | the listener starts with no state held |
| `ControllerStateWatch.ControllerStateListener.Iterate` | bundles/binding/org.openhab.binding.ihc/src/main/java/org/openhab/binding/ihc/internal/IhcInBinding.java:624-689 | one iteration of `run`'s loop: query if needed, wait, reopen on the transitions above, update the held state, or recover |

## Left out

- RefreshScheduler.DueIsQueried: stated only for item lists without a
  repeated name. When two bindings share an item name, the first refresh
  stamps the name with now, and the second binding is then not due. The
  source behaves the same way (`lastUpdateMap` is keyed by item name), and
  `RunTickEventsFromRefreshedItems` covers that case.
- Threads, the `interrupted` flags and `setInterrupted`, the `while
  (!interrupted)` loops themselves, and `mysleep`'s handling of
  InterruptedException. Each listener is modelled one iteration at a time.
  The three contexts share more than `lastConfigurationChangeTime`. They
  also share the `IhcConnection` behind the communicator and the providers'
  item lists. The refresh cycle's `IhcConnection.reconnect()`
  (IhcInBinding.java:210) and the controller listener's
  `IhcConnection.connect()` and `reconnect()` (IhcInBinding.java:658, 670)
  renew the connection whose `getLastOpenTime()` (IhcInBinding.java:487) the
  notification listener compares with its order time. This is how a
  controller restart leads to a new notification order. The refresh cycle
  and the notification listener also both iterate the same `providers`,
  which the model passes to each as a value. The model does not capture
  this coupling. `lastConfigurationChangeTime` and `lastOpenTime` are
  parameters of `ValueNotifications.ResourceValueNotificationListener.Iterate`
  that the caller chooses freely. The lemmas therefore hold whatever values
  the other threads leave there, but no lemma relates one thread's
  reconnect to another thread's next order.
- Logging, `activate`/`deactivate` (thread start and stop), the item
  registry setters, `getName`, `getRefreshInterval` and
  `isProperlyConfigured`. These are OSGi plumbing or plain accessors.
- The controller client and `IhcConnection`. They are foreign code and are
  replaced by the oracles described above.
- One `now` per cycle or iteration. The source reads
  `System.currentTimeMillis()` again for each item's age, each time stamp
  and each order time.
- The `long` arithmetic of ages and times is unbounded in the model. The
  millisecond clock cannot overflow a `long` in practice.
- The communicator is re-read inside `enableResourceValueNotification`.
  The model assumes it is the same one `waitResourceNotifications` read.
- IEEE doubles are reduced to exact rationals plus NaN/infinity. `new
  BigDecimal(NaN)` throws a NumberFormatException.
- `GregorianCalendar` is modelled as the fields set. Lenient normalisation
  (for example a month index of 12) and time zones are left out. The date's
  month is passed to `cal.set` unchanged, as the source does. Calendar
  counts months from 0, so the model keeps that field as a raw index.
- The item's class is abstracted to the first of NumberItem, SwitchItem,
  ContactItem, DateTimeItem and StringItem that the item is an instance of.
  The registry throwing for a name it does not know becomes a missing key.
- `SwitchItem.send` and the `SwitchItem` constructor only delegate to
  GenericItem. GenericItem is not part of this model, so neither is
  `super.getStateAs`.
- `ScriptRuntimeModule.java` and `ScriptExtensionClassNameProvider.java`
  are openHAB script-engine classes unrelated to the IHC binding. They are
  not part of this model.
