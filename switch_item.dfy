/** openHAB's SwitchItem: the state classes and command classes it accepts
    and the views `getStateAs` gives of its state. */
module SwitchItem {
  import opened IhcTypes
  import opened ValueCodec

  /** The classes of the states (and commands) known to the model. */
  datatype TypeClass = OnOffType | UnDefType | DecimalType | PercentType | OpenClosedType | DateTimeType | StringType

  function TypeOf(s: State): TypeClass {
    match s
    case Undef => UnDefType
    case DecimalState(_) => DecimalType
    case PercentState(_) => PercentType
    case On => OnOffType
    case Off => OnOffType
    case Open => OpenClosedType
    case Closed => OpenClosedType
    case DateTimeState(_) => DateTimeType
    case StringState(_) => StringType
  }

  /** The lists the static initializer fills once and the getters return. */
  const AcceptedDataTypes: seq<TypeClass> := [OnOffType, UnDefType]
  const AcceptedCommandTypes: seq<TypeClass> := [OnOffType]

  /** `getAcceptedDataTypes`: exactly the classes of ON, OFF and UNDEF. */
  function GetAcceptedDataTypes(): (types: seq<TypeClass>)
    ensures |types| == 2
    ensures forall s: State :: TypeOf(s) in types <==> s == On || s == Off || s == Undef
  {
    AcceptedDataTypes
  }

  /** `getAcceptedCommandTypes`: exactly the class of ON and OFF. */
  function GetAcceptedCommandTypes(): (types: seq<TypeClass>)
    ensures |types| == 1
    ensures forall c: State :: TypeOf(c) in types <==> c == On || c == Off
  {
    AcceptedCommandTypes
  }

  /** The result of `getStateAs`: a state, or the answer of GenericItem's
      `getStateAs`, which the model does not include. */
  datatype StateView = View(s: State) | Inherited

  /** `getStateAs(typeClass)` of a switch item in the given state. */
  function GetStateAs(state: State, typeClass: TypeClass): (r: StateView)
    ensures typeClass == DecimalType ==>
      r.View? && r.s.DecimalState? && DecimalValue(r.s.d) == (if state == On then 1.0 else 0.0)
    ensures typeClass == PercentType ==>
      r.View? && r.s.PercentState? && DecimalValue(r.s.p) == (if state == On then 100.0 else 0.0)
    ensures typeClass != DecimalType && typeClass != PercentType ==> r == Inherited
  {
    if typeClass == DecimalType then
      View(DecimalState(if state == On then Decimal(1, 0) else Decimal(0, 0)))
    else if typeClass == PercentType then
      View(PercentState(if state == On then Decimal(100, 0) else Decimal(0, 0)))
    else Inherited
  }

  /** The percent view is a hundred times the decimal view. */
  lemma PercentViewScalesDecimalView(state: State)
    ensures DecimalValue(GetStateAs(state, PercentType).s.p) == 100.0 * DecimalValue(GetStateAs(state, DecimalType).s.d)
  {
  }

  /** A switch item that the binding gave a boolean, seen as a decimal, shows
      what a number item would have been given for the same boolean; and that
      state is one the switch item accepts. */
  lemma SwitchViewMatchesNumberConversion(b: bool)
    ensures var s := ConvertResourceValueToState(Some(SwitchKind), BooleanValue(b));
      && s.Ok? && TypeOf(s.value) in GetAcceptedDataTypes()
      && GetStateAs(s.value, DecimalType)
         == View(ConvertResourceValueToState(Some(NumberKind), BooleanValue(b)).value)
  {
  }
}
