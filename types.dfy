/** Shared vocabulary of the IHC / ELKO LS binding: the controller's wire
    values, the openHAB states they are converted into, item bindings as the
    binding providers report them, and the outcomes of calls into the
    controller client, which the model treats as foreign I/O. */
module IhcTypes {

  datatype Option<+T> = None | Some(value: T)

  datatype Result<+T, +E> = Ok(value: T) | Err(error: E)

  /** A Java `int`. */
  type Int32 = x: int | -0x8000_0000 <= x < 0x8000_0000

  /** The payload of a floating point resource value. A Java `double` is an
      exact binary fraction, so a finite one is a rational number; NaN and the
      infinities have no such value. */
  datatype FloatingPoint = Finite(value: real) | NotFinite

  datatype WSDate = WSDate(year: int, month: int, day: int)

  datatype WSTime = WSTime(hours: int, minutes: int, seconds: int)

  /** The variants of the controller's resource values. */
  datatype Value =
    | BooleanValue(b: bool)
    | IntegerValue(integer: int)
    | FloatingPointValue(f: FloatingPoint)
    | TimerValue(milliseconds: int)
    | WeekdayValue(weekdayNumber: int)
    | DateValue(date: WSDate)
    | TimeValue(time: WSTime)
    | EnumValue(enumName: string)

  /** A value as received from the controller, tagged with its resource id. */
  datatype ResourceValue = ResourceValue(resourceId: int, value: Value)

  /** The class of an openHAB item, as far as the conversion distinguishes it:
      the first of NumberItem, SwitchItem, ContactItem, DateTimeItem and
      StringItem that the item is an instance of, or none of them. */
  datatype ItemKind = NumberKind | SwitchKind | ContactKind | DateTimeKind | StringKind | OtherKind

  /** A `java.math.BigDecimal`: the number unscaled / 10^scale. */
  datatype Decimal = Decimal(unscaled: int, scale: nat)

  /** The fields of a `java.util.Calendar` that the binding sets. The month is
      Calendar's zero-based month index. */
  datatype Calendar = Calendar(year: int, month: int, day: int, hour: int, minute: int, second: int)

  /** openHAB states: UNDEF, DecimalType, PercentType, OnOffType,
      OpenClosedType, DateTimeType and StringType. */
  datatype State =
    | Undef
    | DecimalState(d: Decimal)
    | PercentState(p: Decimal)
    | On
    | Off
    | Open
    | Closed
    | DateTimeState(cal: Calendar)
    | StringState(s: string)

  /** One item of a binding provider: its resource id, its refresh interval in
      seconds and whether it is only ever written to the controller. */
  datatype ItemBinding = ItemBinding(itemName: string, resourceId: int, refreshInterval: Int32, outBindingOnly: bool)

  /** The item registry, from item name to the item's class; a name that is
      not a key is an item the registry does not find. */
  type Registry = map<string, ItemKind>

  /** `getItemFromItemName`: the item, or `null` when the registry does not
      know the name. */
  function Lookup(registry: Registry, itemName: string): (item: Option<ItemKind>)
    ensures item.Some? <==> itemName in registry
    ensures item.Some? ==> registry[itemName] == item.value
  {
    if itemName in registry then Some(registry[itemName]) else None
  }

  /** The items of all providers, in the order the binding iterates them:
      provider by provider, each provider's items in its own order. */
  function Flatten(providers: seq<seq<ItemBinding>>): seq<ItemBinding>
    decreases |providers|
  {
    if providers == [] then []
    else Flatten(providers[..|providers| - 1]) + providers[|providers| - 1]
  }

  lemma FlattenAppend(providers: seq<seq<ItemBinding>>, p: nat)
    requires p < |providers|
    ensures Flatten(providers[..p + 1]) == Flatten(providers[..p]) + providers[p]
  {
    assert providers[..p + 1][..p] == providers[..p];
  }

  /** Flattening distributes over a split of the providers. */
  lemma {:induction false} FlattenSplit(providers: seq<seq<ItemBinding>>, p: nat)
    requires p <= |providers|
    ensures Flatten(providers) == Flatten(providers[..p]) + Flatten(providers[p..])
    decreases |providers|
  {
    if p == |providers| {
      assert providers[..p] == providers;
      assert providers[p..] == [];
    } else {
      var n := |providers| - 1;
      var front := providers[..n];
      FlattenSplit(front, p);
      assert front[..p] == providers[..p];
      assert providers[p..] == front[p..] + [providers[n]];
      assert (front[p..] + [providers[n]])[..|front[p..]|] == front[p..];
    }
  }

  /** Exceptions thrown by the controller client: a SocketTimeoutException
      (which is an IOException), any other IOException, or an exception of
      another class. */
  datatype Failure = SocketTimeout | IOFailure | OtherFailure

  predicate IsIOException(f: Failure) {
    f.SocketTimeout? || f.IOFailure?
  }

  /** The outcome of a controller call that returns nothing. */
  datatype CallOutcome = Succeeds | Throws(failure: Failure)
}
