/** Cell values on their way through the engine: what the value store keeps of a literal, what a read
    makes of it again, and what Python receives. Numbers are exact reals. */
module Literals {
  import opened Options

  datatype ErrorKind =
    | Null | Ref | Name | BadValue | Div | Na | Num | Other | NImpl | Spill | Calc | Circ | Cancelled

  datatype ErrorContext = ErrorContext(
    row: Option<nat>, col: Option<nat>, sheet: Option<string>, originRow: Option<nat>, originCol: Option<nat>)

  const SECOND: int := 1_000_000
  const DAY: int := 86_400 * SECOND

  /** Microseconds since midnight. */
  type TimeOfDay = t: int | 0 <= t < DAY witness 0

  /** Dates count days since 1899-12-31; durations count microseconds. */
  datatype Literal =
    | Empty
    | Int(i: int)
    | Number(x: real)
    | Text(s: string)
    | Boolean(b: bool)
    | Error(kind: ErrorKind, message: Option<string>, context: Option<ErrorContext>)
    | Date(day: int)
    | DateTime(day: int, time: TimeOfDay)
    | Time(time: TimeOfDay)
    | Duration(micros: int)
    | Pending
    | Array(rows: seq<Row>)

  datatype Row = Row(cells: seq<Literal>)

  datatype DateSystem = Excel1900 | Excel1904

  /** Whether temporal cells leave the engine as dates and times or as serial numbers. */
  datatype Egress = Native | Serial

  // ----- The value store -----

  datatype Lane =
    | NoValue
    | NumberLane(x: real)
    | DateTimeLane(serial: real)
    | DurationLane(serial: real)
    | BooleanLane(b: bool)
    | TextLane(s: string)
    | ErrorLane(code: nat)
    | PendingLane

  datatype Format = General | DateFormat | DateTimeFormat | TimeFormat | DurationFormat

  /** `map_error_code`. */
  function KindCode(kind: ErrorKind): nat {
    match kind
    case Null => 1
    case Ref => 2
    case Name => 3
    case BadValue => 4
    case Div => 5
    case Na => 6
    case Num => 7
    case Other => 8
    case NImpl => 9
    case Spill => 10
    case Calc => 11
    case Circ => 12
    case Cancelled => 13
  }

  /** `unmap_error_code`. */
  function CodeKind(code: nat): ErrorKind {
    if code == 1 then Null
    else if code == 2 then Ref
    else if code == 3 then Name
    else if code == 4 then BadValue
    else if code == 5 then Div
    else if code == 6 then Na
    else if code == 7 then Num
    else if code == 9 then NImpl
    else if code == 10 then Spill
    else if code == 11 then Calc
    else if code == 12 then Circ
    else if code == 13 then Cancelled
    else Other
  }

  /** 1900-03-01: later dates count the day 1900-02-29 that never was. */
  const PHANTOM_CUTOFF := 60
  const EPOCH_1904 := 1461
  const MAX_DAY := 2_958_464

  function DateSerial(system: DateSystem, day: int): int {
    match system
    case Excel1900 => if day >= PHANTOM_CUTOFF then day + 1 else day
    case Excel1904 => day - EPOCH_1904
  }

  /** Whole seconds of a time, as a fraction of a day. */
  function TimeFraction(time: TimeOfDay): real {
    (time / SECOND) as real / 86_400.0
  }

  /** `num_seconds`, which truncates toward zero. */
  function WholeSeconds(micros: int): int {
    if micros >= 0 then micros / SECOND else -((-micros) / SECOND)
  }

  /** What the store keeps of a literal (`OverlayValue::from_literal_value`). */
  function StoreAs(v: Literal, system: DateSystem): Lane {
    match v
    case Empty => NoValue
    case Int(i) => NumberLane(i as real)
    case Number(x) => NumberLane(x)
    case Text(s) => TextLane(s)
    case Boolean(b) => BooleanLane(b)
    case Error(kind, _, _) => ErrorLane(KindCode(kind))
    case Date(day) => DateTimeLane(DateSerial(system, day) as real)
    case DateTime(day, time) => DateTimeLane(DateSerial(system, day) as real + TimeFraction(time))
    case Time(time) => DateTimeLane(TimeFraction(time))
    case Duration(micros) => DurationLane(WholeSeconds(micros) as real / 86_400.0)
    case Pending => PendingLane
    case Array(_) => ErrorLane(KindCode(BadValue))
  }

  /** The number format that the engine sets beside a literal. */
  function FormatOf(v: Literal): Format {
    match v
    case Date(_) => DateFormat
    case DateTime(_, _) => DateTimeFormat
    case Time(_) => TimeFormat
    case Duration(_) => DurationFormat
    case _ => General
  }

  // ----- Reading back -----

  /** `to_literal_for`: serials come back as numbers, errors as their kind. */
  function FromLane(lane: Lane): Literal {
    match lane
    case NoValue => Empty
    case NumberLane(x) => Number(x)
    case DateTimeLane(serial) => Number(serial)
    case DurationLane(serial) => Number(serial)
    case BooleanLane(b) => Boolean(b)
    case TextLane(s) => Text(s)
    case ErrorLane(code) => Error(CodeKind(code), None, None)
    case PendingLane => Pending
  }

  predicate ValidSerial(system: DateSystem, serial: real) {
    serial >= 0.0 && serial.Floor <= DateSerial(system, MAX_DAY)
  }

  function DayOfSerial(system: DateSystem, whole: int): int {
    match system
    case Excel1900 => if whole == 60 then 59 else if whole < 60 then whole else whole - 1
    case Excel1904 => whole + EPOCH_1904
  }

  /** Rounding half away from zero. */
  function Round(x: real): int {
    if x >= 0.0 then (x + 0.5).Floor else -((-x + 0.5).Floor)
  }

  function SerialToDateTime(system: DateSystem, serial: real): Option<(int, int)> {
    if !ValidSerial(system, serial) then None
    else
      var whole, seconds := serial.Floor, Round((serial - serial.Floor as real) * 86_400.0);
      if seconds != 86_400 then Some((DayOfSerial(system, whole), seconds))
      else if whole + 1 > DateSerial(system, MAX_DAY) then None
      else Some((DayOfSerial(system, whole + 1), 0))
  }

  const I64_MIN: int := -0x8000_0000_0000_0000
  const I64_MAX: int := 0x7FFF_FFFF_FFFF_FFFF

  function Min(a: int, b: int): int {
    if a < b then a else b
  }

  /** `materialize_temporal_egress`. */
  function Materialized(v: Literal, format: Format, policy: Egress, system: DateSystem): Literal {
    if policy == Serial || !v.Number? then v
    else
      match format
      case General => v
      case DateFormat => if ValidSerial(system, v.x) then Date(DayOfSerial(system, v.x.Floor)) else v
      case DateTimeFormat =>
        (match SerialToDateTime(system, v.x)
         case Some((day, seconds)) => if 0 <= seconds < 86_400 then DateTime(day, seconds * SECOND) else v
         case None => v)
      case TimeFormat => Time(Round((v.x - v.x.Floor as real) * 86_400.0) % 86_400 * SECOND)
      case DurationFormat =>
        var nanos := Round(v.x * 86_400.0 * 1_000_000_000.0);
        if I64_MIN <= nanos <= I64_MAX + 1 then Duration(MicrosOfNanos(Min(nanos, I64_MAX))) else v
  }

  /** Python sees a duration in microseconds, truncated toward zero. */
  function MicrosOfNanos(nanos: int): int {
    if nanos >= 0 then nanos / 1000 else -((-nanos) / 1000)
  }

  /** `get_cell_value` on a stored value: an empty cell reads as nothing. */
  function ReadBack(lane: Lane, format: Format, policy: Egress, system: DateSystem): Option<Literal> {
    if lane.NoValue? then None
    else
      match Materialized(FromLane(lane), format, policy, system)
      case Empty => None
      case Int(i) => Some(Number(i as real))
      case other => Some(other)
  }

  // ----- What Python receives -----

  datatype Python =
    | PyNone
    | PyInt(i: int)
    | PyFloat(x: real)
    | PyStr(s: string)
    | PyBool(b: bool)
    | PyDate(day: int)
    | PyDateTime(day: int, time: int)
    | PyTime(time: int)
    | PyDelta(micros: int)
    | PyError(kind: ErrorKind, message: Option<string>, context: ErrorContext)
    | PyList(items: seq<Python>)

  const NO_CONTEXT := ErrorContext(None, None, None, None, None)

  /** `literal_to_py`. The entries of an error's context go into one dictionary with its message, so an
      empty context looks like none. */
  function ToPython(v: Literal): Python {
    match v
    case Empty => PyNone
    case Int(i) => PyInt(i)
    case Number(x) => PyFloat(x)
    case Text(s) => PyStr(s)
    case Boolean(b) => PyBool(b)
    case Error(kind, message, context) =>
      PyError(kind, message, if context.Some? then context.value else NO_CONTEXT)
    case Date(day) => PyDate(day)
    case DateTime(day, time) => PyDateTime(day, time)
    case Time(time) => PyTime(time)
    case Duration(micros) => if I64_MIN <= micros <= I64_MAX then PyDelta(micros) else PyNone
    case Pending => PyNone
    case Array(rows) => PyList(seq(|rows|, i requires 0 <= i < |rows| => RowToPython(rows[i])))
  }

  function RowToPython(row: Row): Python {
    PyList(seq(|row.cells|, j requires 0 <= j < |row.cells| => ToPython(row.cells[j])))
  }

  /** A missing value and an empty one are both `None` in Python. */
  function ReadByPython(v: Option<Literal>): Python {
    if v.Some? then ToPython(v.value) else PyNone
  }

  // ----- Which values survive the store -----

  predicate CalendarDay(system: DateSystem, day: int) {
    (if system == Excel1900 then 0 else EPOCH_1904) <= day <= MAX_DAY
  }

  /** A test of the literal alone, for a store under `system` that is read under `policy` with the number
      format `format`. */
  predicate Survives(v: Literal, format: Format, policy: Egress, system: DateSystem) {
    match v
    case Int(_) => false
    case Array(_) => false
    case Number(x) => policy == Serial || StaysNumber(x, format, system)
    case Error(_, message, context) => message.None? && (context.None? || context.value == NO_CONTEXT)
    case Date(day) => format == DateFormat && policy == Native && CalendarDay(system, day)
    case DateTime(day, time) =>
      format == DateTimeFormat && policy == Native && CalendarDay(system, day) && time % SECOND == 0
    case Time(time) => format == TimeFormat && policy == Native && time % SECOND == 0
    case Duration(micros) =>
      format == DurationFormat && policy == Native && micros % SECOND == 0 && I64_MIN <= micros * 1000 <= I64_MAX
    case _ => true
  }

  /** A number that the format does not turn into a date, a time or a duration. */
  predicate StaysNumber(x: real, format: Format, system: DateSystem) {
    match format
    case General => true
    case DateFormat => !ValidSerial(system, x)
    case DateTimeFormat => SerialToDateTime(system, x).None?
    case TimeFormat => false
    case DurationFormat => !(I64_MIN <= Round(x * 86_400.0 * 1_000_000_000.0) <= I64_MAX + 1)
  }

  /** What a read of the stored literal hands to Python. */
  function StoredRead(v: Literal, format: Format, policy: Egress, system: DateSystem): Python {
    ReadByPython(ReadBack(StoreAs(v, system), format, policy, system))
  }

  lemma KindRoundTrip(kind: ErrorKind)
    ensures CodeKind(KindCode(kind)) == kind
  {
  }

  /** Rounding a whole number of seconds gives it back. */
  lemma SecondsOfFraction(seconds: int)
    ensures Round(seconds as real / 86_400.0 * 86_400.0) == seconds
  {
    assert seconds as real / 86_400.0 * 86_400.0 == seconds as real;
  }

  lemma FractionIsBelowOne(time: TimeOfDay)
    ensures 0.0 <= TimeFraction(time) < 1.0 && 0 <= time / SECOND < 86_400
  {
    var seconds := (time / SECOND) as real;
    assert 0.0 <= seconds < 86_400.0;
    assert seconds / 86_400.0 * 86_400.0 == seconds;
  }

  lemma FloorOfSum(whole: int, fraction: real)
    requires 0.0 <= fraction < 1.0
    ensures (whole as real + fraction).Floor == whole
    ensures (whole as real + fraction) - (whole as real + fraction).Floor as real == fraction
  {
  }

  lemma DateRoundTripIff(day: int, system: DateSystem)
    ensures ValidSerial(system, DateSerial(system, day) as real) <==> CalendarDay(system, day)
    ensures DayOfSerial(system, DateSerial(system, day)) == day
  {
  }

  lemma DateTimeRoundTripIff(day: int, time: TimeOfDay, system: DateSystem)
    ensures SerialToDateTime(system, DateSerial(system, day) as real + TimeFraction(time))
         == if CalendarDay(system, day) then Some((day, time / SECOND)) else None
  {
    var whole, fraction := DateSerial(system, day), TimeFraction(time);
    FractionIsBelowOne(time);
    FloorOfSum(whole, fraction);
    DateRoundTripIff(day, system);
    SecondsOfFraction(time / SECOND);
    hide TimeFraction, DateSerial, DayOfSerial, Round;
    assert whole as real + fraction >= 0.0 <==> whole >= 0;
  }

  lemma TimeIsLost(time: TimeOfDay)
    ensures time / SECOND * SECOND == time <==> time % SECOND == 0
  {
  }

  lemma DateSurvivesIff(v: Literal, format: Format, policy: Egress, system: DateSystem)
    requires v.Date?
    ensures StoredRead(v, format, policy, system) == ToPython(v) <==> Survives(v, format, policy, system)
  {
    DateRoundTripIff(v.day, system);
    FloorOfSum(DateSerial(system, v.day), 0.0);
  }

  lemma DateTimeSurvivesIff(v: Literal, format: Format, policy: Egress, system: DateSystem)
    requires v.DateTime?
    ensures StoredRead(v, format, policy, system) == ToPython(v) <==> Survives(v, format, policy, system)
  {
    hide SerialToDateTime, TimeFraction, DateSerial;
    DateTimeRoundTripIff(v.day, v.time, system);
    FractionIsBelowOne(v.time);
    TimeIsLost(v.time);
  }

  lemma TimeSurvivesIff(v: Literal, format: Format, policy: Egress, system: DateSystem)
    requires v.Time?
    ensures StoredRead(v, format, policy, system) == ToPython(v) <==> Survives(v, format, policy, system)
  {
    FractionIsBelowOne(v.time);
    FloorOfSum(0, TimeFraction(v.time));
    SecondsOfFraction(v.time / SECOND);
    TimeIsLost(v.time);
    hide Round;
  }

  /** The nanoseconds that a stored duration comes back with. */
  lemma NanosOfSeconds(seconds: int)
    ensures Round(seconds as real / 86_400.0 * 86_400.0 * 1_000_000_000.0) == seconds * 1_000_000_000
  {
    assert seconds as real / 86_400.0 * 86_400.0 == seconds as real;
    assert seconds as real * 1_000_000_000.0 == (seconds * 1_000_000_000) as real;
  }

  lemma WholeSecondsIff(micros: int)
    ensures WholeSeconds(micros) * SECOND == micros <==> micros % SECOND == 0
  {
  }

  lemma MicrosOfSeconds(seconds: int)
    ensures MicrosOfNanos(seconds * 1_000_000_000) == seconds * SECOND
  {
  }

  lemma InRangeNotAtEnd(seconds: int)
    ensures seconds * 1_000_000_000 != I64_MAX + 1
  {
  }

  lemma DurationRead(micros: int, system: DateSystem)
    ensures var seconds := WholeSeconds(micros);
            StoredRead(Duration(micros), DurationFormat, Native, system)
            == if I64_MIN <= seconds * 1_000_000_000 <= I64_MAX then ToPython(Duration(seconds * SECOND))
               else PyFloat(seconds as real / 86_400.0)
  {
    var seconds := WholeSeconds(micros);
    NanosOfSeconds(seconds);
    MicrosOfSeconds(seconds);
    InRangeNotAtEnd(seconds);
    hide Round, MicrosOfNanos, WholeSeconds;
  }

  lemma DurationSurvivesIff(v: Literal, format: Format, policy: Egress, system: DateSystem)
    requires v.Duration?
    ensures StoredRead(v, format, policy, system) == ToPython(v) <==> Survives(v, format, policy, system)
  {
    WholeSecondsIff(v.micros);
    if format == DurationFormat && policy == Native {
      DurationRead(v.micros, system);
      hide StoredRead, WholeSeconds;
    } else {
      hide Round, WholeSeconds, SerialToDateTime, ValidSerial, DayOfSerial, CodeKind, KindCode, MicrosOfNanos;
    }
  }

  /** The time of day in a serial is within the day. */
  lemma SecondsInDay(system: DateSystem, serial: real)
    requires SerialToDateTime(system, serial).Some?
    ensures 0 <= SerialToDateTime(system, serial).value.1 < 86_400
  {
    var fraction := serial - serial.Floor as real;
    assert 0.0 <= fraction * 86_400.0 < 86_400.0;
    hide DayOfSerial, DateSerial;
  }

  lemma NumberSurvivesIff(v: Literal, format: Format, policy: Egress, system: DateSystem)
    requires v.Number?
    ensures StoredRead(v, format, policy, system) == ToPython(v) <==> Survives(v, format, policy, system)
  {
    hide SerialToDateTime, ValidSerial, DayOfSerial, Round, CodeKind, KindCode, DateSerial, TimeFraction, MicrosOfNanos;
    assert StoreAs(v, system) == NumberLane(v.x) && FromLane(NumberLane(v.x)) == v;
    hide StoreAs, FromLane;
    if SerialToDateTime(system, v.x).Some? {
      SecondsInDay(system, v.x);
    }
  }

  lemma PlainSurvivesIff(v: Literal, format: Format, policy: Egress, system: DateSystem)
    requires !v.Number? && !v.Date? && !v.DateTime? && !v.Time? && !v.Duration?
    ensures StoredRead(v, format, policy, system) == ToPython(v) <==> Survives(v, format, policy, system)
  {
    if v.Error? {
      KindRoundTrip(v.kind);
    }
    hide CodeKind, KindCode, Round, DateSerial, TimeFraction, SerialToDateTime, ValidSerial, DayOfSerial;
  }

  /** Reading a stored literal gives Python what the literal itself would, exactly when it survives. */
  lemma SurvivesIff(v: Literal, format: Format, policy: Egress, system: DateSystem)
    ensures StoredRead(v, format, policy, system) == ToPython(v) <==> Survives(v, format, policy, system)
  {
    hide StoredRead, ToPython, Survives;
    match v
    case Number(_) => NumberSurvivesIff(v, format, policy, system);
    case Date(_) => DateSurvivesIff(v, format, policy, system);
    case DateTime(_, _) => DateTimeSurvivesIff(v, format, policy, system);
    case Time(_) => TimeSurvivesIff(v, format, policy, system);
    case Duration(_) => DurationSurvivesIff(v, format, policy, system);
    case _ => PlainSurvivesIff(v, format, policy, system);
  }

  // ----- One value of each kind that does not survive -----

  lemma IntegerBecomesFloat(system: DateSystem)
    ensures StoredRead(Int(5), General, Native, system) == PyFloat(5.0) != ToPython(Int(5))
  {
  }

  lemma ArrayBecomesError(system: DateSystem)
    ensures StoredRead(Array([]), General, Native, system) == PyError(BadValue, None, NO_CONTEXT) != ToPython(Array([]))
  {
  }

  lemma ErrorLosesItsMessage(system: DateSystem)
    ensures var v := Error(Div, Some("x"), None);
            StoredRead(v, General, Native, system) == PyError(Div, None, NO_CONTEXT) != ToPython(v)
  {
  }

  lemma ErrorLosesItsContext(system: DateSystem)
    ensures var v := Error(Div, None, Some(NO_CONTEXT.(row := Some(1))));
            StoredRead(v, General, Native, system) == PyError(Div, None, NO_CONTEXT) != ToPython(v)
  {
  }

  lemma DurationLosesItsFraction(system: DateSystem)
    ensures StoredRead(Duration(1_500_000), DurationFormat, Native, system) == PyDelta(1_000_000)
    ensures PyDelta(1_000_000) != ToPython(Duration(1_500_000))
  {
    DurationRead(1_500_000, system);
  }

  lemma TimeLosesItsFraction(system: DateSystem)
    ensures StoredRead(Time(1_500_000), TimeFormat, Native, system) != ToPython(Time(1_500_000))
    ensures var v := DateTime(50_000, 1_500_000); StoredRead(v, DateTimeFormat, Native, system) != ToPython(v)
  {
    SurvivesIff(Time(1_500_000), TimeFormat, Native, system);
    SurvivesIff(DateTime(50_000, 1_500_000), DateTimeFormat, Native, system);
  }

  lemma EarlyDateBecomesSerial(system: DateSystem)
    ensures StoredRead(Date(-1), DateFormat, Native, system) == PyFloat(DateSerial(system, -1) as real)
    ensures StoredRead(Date(-1), DateFormat, Native, system) != ToPython(Date(-1))
  {
    DateRoundTripIff(-1, system);
  }

  lemma DateUnderSerialPolicy(system: DateSystem)
    ensures StoredRead(Date(50_000), DateFormat, Serial, system) == PyFloat(DateSerial(system, 50_000) as real)
    ensures StoredRead(Date(50_000), DateFormat, Serial, system) != ToPython(Date(50_000))
  {
  }
}
