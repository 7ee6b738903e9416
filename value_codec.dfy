/** The conversion of a controller resource value into the state of an
    openHAB item (`convertResourceValueToState` and `WSDateTimeToCalendar`). */
module ValueCodec {
  import opened IhcTypes

  /** The NumberFormatException the conversion throws: an unsupported pair of
      value variant and item class, or a NaN or infinite floating point value
      that `new BigDecimal(double)` refuses. */
  datatype ConversionError = CannotConvert(value: Value, target: ItemKind) | InfiniteOrNaN

  function Pow10(n: nat): (p: nat)
    ensures p >= 1
  {
    if n == 0 then 1 else 10 * Pow10(n - 1)
  }

  /** The number a BigDecimal stands for. */
  function DecimalValue(d: Decimal): real {
    d.unscaled as real / Pow10(d.scale) as real
  }

  /** The integer nearest to x; of two equally near, the even one
      (`RoundingMode.HALF_EVEN`). */
  function RoundHalfEven(x: real): (q: int)
    ensures -0.5 <= x - q as real <= 0.5
    ensures (x - q as real == 0.5 || x - q as real == -0.5) ==> q % 2 == 0
  {
    var f := x.Floor;
    var fraction := x - f as real;
    if fraction < 0.5 then f
    else if fraction > 0.5 then f + 1
    else if f % 2 == 0 then f
    else f + 1
  }

  /** The two properties of RoundHalfEven's contract determine its result. */
  lemma RoundHalfEvenUnique(x: real, k: int)
    requires -0.5 <= x - k as real <= 0.5
    requires (x - k as real == 0.5 || x - k as real == -0.5) ==> k % 2 == 0
    ensures k == RoundHalfEven(x)
  {
  }

  /** `new BigDecimal(d).setScale(2, RoundingMode.HALF_EVEN)` for a finite d. */
  function SetScale2HalfEven(x: real): (d: Decimal)
    ensures d.scale == 2
    ensures -0.005 <= x - DecimalValue(d) <= 0.005
    ensures (x - DecimalValue(d) == 0.005 || x - DecimalValue(d) == -0.005) ==> d.unscaled % 2 == 0
  {
    var q := RoundHalfEven(x * 100.0);
    assert DecimalValue(Decimal(q, 2)) == q as real / 100.0;
    Decimal(q, 2)
  }

  /** The value variants each item class accepts. */
  predicate Convertible(kind: ItemKind, v: Value) {
    match kind
    case NumberKind =>
      v.BooleanValue? || v.IntegerValue? || v.TimerValue? || v.WeekdayValue?
      || (v.FloatingPointValue? && v.f.Finite?)
    case SwitchKind => v.BooleanValue?
    case ContactKind => v.BooleanValue?
    case DateTimeKind => v.DateValue? || v.TimeValue?
    case StringKind => v.EnumValue?
    case OtherKind => true
  }

  /** The states each item class is given by the conversion. */
  predicate FitsKind(item: Option<ItemKind>, s: State) {
    match item
    case None => s == Undef
    case Some(k) =>
      match k
      case NumberKind => s.DecimalState?
      case SwitchKind => s == On || s == Off
      case ContactKind => s == Open || s == Closed
      case DateTimeKind => s.DateTimeState?
      case StringKind => s.StringState?
      case OtherKind => s == Undef
  }

  /** `WSDateTimeToCalendar`: a calendar created as `new GregorianCalendar(1900,
      01, 01)` (month index 1, midnight), whose fields a date then sets to the
      date's year, month and day at midnight, and a time then sets to
      year 1900, month index 1, day 1 at the time's hour, minute and second. */
  function WSDateTimeToCalendar(date: Option<WSDate>, time: Option<WSTime>): (c: Calendar)
    ensures time.Some? ==> WSTime(c.hour, c.minute, c.second) == time.value && c.year == 1900 && c.month == 1 && c.day == 1
    ensures time.None? && date.Some? ==>
      WSDate(c.year, c.month, c.day) == date.value && c.hour == 0 && c.minute == 0 && c.second == 0
    ensures time.None? && date.None? ==> c == Calendar(1900, 1, 1, 0, 0, 0)
  {
    var initial := Calendar(1900, 1, 1, 0, 0, 0);
    var dated := if date.Some? then Calendar(date.value.year, date.value.month, date.value.day, 0, 0, 0) else initial;
    if time.Some? then Calendar(1900, 1, 1, time.value.hours, time.value.minutes, time.value.seconds) else dated
  }

  /** `convertResourceValueToState`: the state for value v of an item of the
      given class, where None is the `null` item of a name the registry does
      not know. */
  function ConvertResourceValueToState(item: Option<ItemKind>, v: Value): (r: Result<State, ConversionError>)
    ensures r.Err? <==> item.Some? && !Convertible(item.value, v)
    ensures r.Ok? ==> FitsKind(item, r.value)
    ensures r == Ok(Undef) <==> item.None? || item == Some(OtherKind)
  {
    match item
    case None => Ok(Undef)
    case Some(kind) =>
      match kind
      case NumberKind =>
        (match v
         case FloatingPointValue(f) =>
           if f.Finite? then Ok(DecimalState(SetScale2HalfEven(f.value))) else Err(InfiniteOrNaN)
         case BooleanValue(b) => Ok(DecimalState(Decimal(if b then 1 else 0, 0)))
         case IntegerValue(i) => Ok(DecimalState(Decimal(i, 0)))
         case TimerValue(ms) => Ok(DecimalState(Decimal(ms, 0)))
         case WeekdayValue(n) => Ok(DecimalState(Decimal(n, 0)))
         case _ => Err(CannotConvert(v, kind)))
      case SwitchKind =>
        if v.BooleanValue? then Ok(if v.b then On else Off) else Err(CannotConvert(v, kind))
      case ContactKind =>
        if v.BooleanValue? then Ok(if v.b then Open else Closed) else Err(CannotConvert(v, kind))
      case DateTimeKind =>
        if v.DateValue? then Ok(DateTimeState(WSDateTimeToCalendar(Some(v.date), None)))
        else if v.TimeValue? then Ok(DateTimeState(WSDateTimeToCalendar(None, Some(v.time))))
        else Err(CannotConvert(v, kind))
      case StringKind =>
        if v.EnumValue? then Ok(StringState(v.enumName)) else Err(CannotConvert(v, kind))
      case OtherKind => Ok(Undef)
  }

  /** The number a value stands for, for the variants a number item takes
      without rounding. */
  function IntegralMeaning(v: Value): int
    requires v.BooleanValue? || v.IntegerValue? || v.TimerValue? || v.WeekdayValue?
  {
    match v
    case BooleanValue(b) => if b then 1 else 0
    case IntegerValue(i) => i
    case TimerValue(ms) => ms
    case WeekdayValue(n) => n
  }

  /** A number item gets a boolean as 1 or 0, an integer unchanged, a timer as
      its milliseconds and a weekday as its number, all exactly. */
  lemma NumberConversionIsExact(v: Value)
    requires v.BooleanValue? || v.IntegerValue? || v.TimerValue? || v.WeekdayValue?
    ensures ConvertResourceValueToState(Some(NumberKind), v).Ok?
    ensures var s := ConvertResourceValueToState(Some(NumberKind), v).value;
      s.DecimalState? && s.d.scale == 0 && DecimalValue(s.d) == IntegralMeaning(v) as real
  {
  }

  /** A number item gets a finite floating point value rounded to two decimals,
      at most half a hundredth away, and ties go to an even last digit. */
  lemma NumberConversionRounds(x: real)
    ensures var r := ConvertResourceValueToState(Some(NumberKind), FloatingPointValue(Finite(x)));
      && r.Ok? && r.value.DecimalState? && r.value.d.scale == 2
      && r.value.d.unscaled == RoundHalfEven(x * 100.0)
      && -0.005 <= x - DecimalValue(r.value.d) <= 0.005
  {
  }

  /** The rounding example of the source comment at IhcInBinding.java:263-265
      (22.299999237060546875 becomes 22.30), two ties that round to the even
      neighbour, and a negative tie. */
  lemma RoundingExamples()
    ensures ConvertResourceValueToState(Some(NumberKind), FloatingPointValue(Finite(22.299999237060546875)))
            == Ok(DecimalState(Decimal(2230, 2)))
    ensures ConvertResourceValueToState(Some(NumberKind), FloatingPointValue(Finite(0.125)))
            == Ok(DecimalState(Decimal(12, 2)))
    ensures ConvertResourceValueToState(Some(NumberKind), FloatingPointValue(Finite(0.375)))
            == Ok(DecimalState(Decimal(38, 2)))
    ensures ConvertResourceValueToState(Some(NumberKind), FloatingPointValue(Finite(-0.125)))
            == Ok(DecimalState(Decimal(-12, 2)))
  {
    RoundHalfEvenUnique(2229.9999237060546875, 2230);
    RoundHalfEvenUnique(12.5, 12);
    RoundHalfEvenUnique(37.5, 38);
    RoundHalfEvenUnique(-12.5, -12);
  }

  /** A switch item and a contact item both take exactly the booleans, and
      agree with each other and with a number item on what true means. */
  lemma BooleanItemsAgree(v: Value)
    ensures ConvertResourceValueToState(Some(SwitchKind), v).Ok? <==> v.BooleanValue?
    ensures ConvertResourceValueToState(Some(ContactKind), v).Ok? <==> v.BooleanValue?
    ensures v.BooleanValue? ==>
      && (ConvertResourceValueToState(Some(SwitchKind), v) == Ok(On) <==> v.b)
      && (ConvertResourceValueToState(Some(ContactKind), v) == Ok(Open) <==> v.b)
      && (ConvertResourceValueToState(Some(NumberKind), v) == Ok(DecimalState(Decimal(1, 0))) <==> v.b)
  {
  }

  /** The calendar's date of a date value read back gives the value's year,
      month and day; its time of day is midnight. */
  lemma DateConversionRoundTrip(d: WSDate)
    ensures var r := ConvertResourceValueToState(Some(DateTimeKind), DateValue(d));
      && r.Ok? && r.value.DateTimeState?
      && WSDate(r.value.cal.year, r.value.cal.month, r.value.cal.day) == d
      && r.value.cal.hour == 0 && r.value.cal.minute == 0 && r.value.cal.second == 0
  {
  }

  /** The calendar's time of day of a time value read back gives the value's
      hours, minutes and seconds; its date is year 1900, month index 1, day 1. */
  lemma TimeConversionRoundTrip(t: WSTime)
    ensures var r := ConvertResourceValueToState(Some(DateTimeKind), TimeValue(t));
      && r.Ok? && r.value.DateTimeState?
      && WSTime(r.value.cal.hour, r.value.cal.minute, r.value.cal.second) == t
      && r.value.cal.year == 1900 && r.value.cal.month == 1 && r.value.cal.day == 1
  {
  }

  /** When both a date and a time are given, the time's fields replace all of
      the date's. */
  lemma CalendarTimeOverridesDate(d: WSDate, t: WSTime)
    ensures WSDateTimeToCalendar(Some(d), Some(t)) == WSDateTimeToCalendar(None, Some(t))
    ensures WSDateTimeToCalendar(None, None) == Calendar(1900, 1, 1, 0, 0, 0)
  {
  }

  /** A string item gets an enum value's name, so distinct names give distinct
      states. */
  lemma EnumConversionRoundTrip(name: string)
    ensures ConvertResourceValueToState(Some(StringKind), EnumValue(name)) == Ok(StringState(name))
  {
  }
}
