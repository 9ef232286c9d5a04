/** The decoded view of one washer status frame (wideq/washer.py:64-168).

    A frame maps field names to the raw codes the appliance reports. The model
    catalog that turns a (field, code) pair into a machine string or a display
    reference lives in the client library, which is not part of this model: it
    is a pair of function parameters here. */
module Washer {
  import opened Wrappers
  import opened WasherStates
  import opened Decimal

  /** A raw status frame: field name to raw code. */
  type Frame = map<string, string>

  /** The per-model catalog. `enumName(field, code)` is the machine string the
      model assigns to that code, if any; `referenceName(field, code)` is the
      free-text reference, if any. */
  datatype Catalog = Catalog(
    enumName: (string, string) -> Option<string>,
    referenceName: (string, string) -> Option<string>)

  /** Why an accessor fails; each one is an exception in the source. */
  datatype DecodeError =
    | MissingField(key: string)                // KeyError on the frame
    | NoCatalogEntry(key: string, code: string) // the catalog knows no name for the code
    | UnknownToken(key: string, text: string)  // the name is not a WasherState value
    | NotAnInteger(key: string, text: string)  // int() refuses the text

  /** A status: the frame and the catalog of the device that produced it. It
      is never changed after construction. */
  datatype WasherStatus = WasherStatus(data: Frame, catalog: Catalog)

  // ---------------------------------------------------------------------
  // Enumerated fields (wideq/washer.py:96-119)
  // ---------------------------------------------------------------------

  /** The five accessors that return a `WasherState`. */
  datatype EnumField = State | PreviousState | SpinSpeed | WaterTemp | RinseOption

  /** The one frame key each accessor reads. */
  function FieldKey(f: EnumField): string {
    match f
    case State => "State"
    case PreviousState => "PreState"
    case SpinSpeed => "SpinSpeed"
    case WaterTemp => "WaterTemp"
    case RinseOption => "RinseOption"
  }

  /** `WasherState(lookup_enum(key, data, washer))`: a member exactly when the
      catalog names the raw code with that member's machine string; otherwise
      the accessor fails, and it never falls back to a default member. */
  function EnumValue(st: WasherStatus, f: EnumField): (r: Result<WasherState, DecodeError>)
    ensures FieldKey(f) !in st.data ==> r == Failure(MissingField(FieldKey(f)))
    ensures forall m :: r == Success(m) <==>
      FieldKey(f) in st.data && st.catalog.enumName(FieldKey(f), st.data[FieldKey(f)]) == Some(ToString(m))
  {
    var key := FieldKey(f);
    if key !in st.data then Failure(MissingField(key))
    else
      var code := st.data[key];
      match st.catalog.enumName(key, code)
      case None => Failure(NoCatalogEntry(key, code))
      case Some(text) =>
        FromStringAll(text);
        match FromString(text)
        case None => Failure(UnknownToken(key, text))
        case Some(m) => Success(m)
  }

  /** `FromStringSpec` for every member at once. */
  lemma FromStringAll(s: string)
    ensures forall m :: FromString(s) == Some(m) <==> ToString(m) == s
  {
    forall m ensures FromString(s) == Some(m) <==> ToString(m) == s {
      FromStringSpec(s, m);
    }
  }

  /** An enumerated accessor depends on its own frame key and nothing else in
      the frame. */
  lemma EnumValueReadsOneKey(st: WasherStatus, st': WasherStatus, f: EnumField)
    requires st.catalog == st'.catalog
    requires FieldKey(f) in st.data <==> FieldKey(f) in st'.data
    requires FieldKey(f) in st.data ==> st.data[FieldKey(f)] == st'.data[FieldKey(f)]
    ensures EnumValue(st, f) == EnumValue(st', f)
  {
  }

  /** A raw `State` code the catalog names "@WM_STATE_RUNNING_W" reads as
      `RUNNING`; a name outside the table is an error, not a default. */
  lemma EnumValueExample(st: WasherStatus)
    requires "State" in st.data && st.data["State"] == "22"
    requires st.catalog.enumName("State", "22") == Some("@WM_STATE_RUNNING_W")
    requires "PreState" in st.data && st.catalog.enumName("PreState", st.data["PreState"]) == Some("@WM_STATE_WAITING_W")
    ensures EnumValue(st, State) == Success(RUNNING)
    ensures EnumValue(st, PreviousState) == Failure(UnknownToken("PreState", "@WM_STATE_WAITING_W"))
  {
    assert ToString(RUNNING) == "@WM_STATE_RUNNING_W";
    FromStringAll("@WM_STATE_WAITING_W");
    assert FromString("@WM_STATE_WAITING_W") == None;
  }

  /** The five accessors read five different keys. */
  lemma FieldKeyInjective(f: EnumField, g: EnumField)
    ensures FieldKey(f) == FieldKey(g) <==> f == g
  {
  }

  // ---------------------------------------------------------------------
  // is_on (wideq/washer.py:123-126)
  // ---------------------------------------------------------------------

  /** `state != WasherState.OFF`; fails when `state` does. */
  function IsOn(st: WasherStatus): (r: Result<bool, DecodeError>)
    ensures r.Success? <==> EnumValue(st, State).Success?
    ensures r == Success(false) <==>
      "State" in st.data && st.catalog.enumName("State", st.data["State"]) == Some("@WM_STATE_POWER_OFF_W")
  {
    assert ToString(OFF) == "@WM_STATE_POWER_OFF_W";
    var s :- EnumValue(st, State);
    Success(s != OFF)
  }

  // ---------------------------------------------------------------------
  // Times in minutes (wideq/washer.py:128-139)
  // ---------------------------------------------------------------------

  /** The two computed times, each read from an hours and a minutes field. */
  datatype TimeField = RemainingTime | InitialTime

  function HourKey(t: TimeField): string {
    match t
    case RemainingTime => "Remain_Time_H"
    case InitialTime => "Initial_Time_H"
  }

  function MinuteKey(t: TimeField): string {
    match t
    case RemainingTime => "Remain_Time_M"
    case InitialTime => "Initial_Time_M"
  }

  /** `int(data[key])`. */
  function IntField(st: WasherStatus, key: string): (r: Result<int, DecodeError>)
    ensures r.Success? <==> key in st.data && IsIntLiteral(st.data[key])
    ensures key !in st.data ==> r == Failure(MissingField(key))
    ensures key in st.data && !IsIntLiteral(st.data[key]) ==> r == Failure(NotAnInteger(key, st.data[key]))
  {
    if key !in st.data then Failure(MissingField(key))
    else match ParseInt(st.data[key])
      case None => Failure(NotAnInteger(key, st.data[key]))
      case Some(v) => Success(v)
  }

  /** `int(data[H]) * 60 + int(data[M])`, the hours field read and parsed
      first: a missing or malformed field is a failure, never 0. */
  function Minutes(st: WasherStatus, t: TimeField): (r: Result<int, DecodeError>)
    ensures r.Success? <==>
      HourKey(t) in st.data && IsIntLiteral(st.data[HourKey(t)]) &&
      MinuteKey(t) in st.data && IsIntLiteral(st.data[MinuteKey(t)])
    ensures r.Success? ==>
      r.value == 60 * ParseInt(st.data[HourKey(t)]).value + ParseInt(st.data[MinuteKey(t)]).value
    ensures r.Failure? && !(HourKey(t) in st.data && IsIntLiteral(st.data[HourKey(t)])) ==>
      r == IntField(st, HourKey(t))
  {
    var h :- IntField(st, HourKey(t));
    var m :- IntField(st, MinuteKey(t));
    Success(h * 60 + m)
  }

  /** Hours and minutes round-trip through the total: for a non-negative hour
      count and a minute count below 60, dividing the result by 60 gives back
      both fields. */
  lemma MinutesRoundTrip(st: WasherStatus, t: TimeField, h: int, m: int)
    requires h >= 0 && 0 <= m < 60
    requires HourKey(t) in st.data && st.data[HourKey(t)] == ShowInt(h)
    requires MinuteKey(t) in st.data && st.data[MinuteKey(t)] == ShowInt(m)
    ensures Minutes(st, t).Success?
    ensures Minutes(st, t).value / 60 == h && Minutes(st, t).value % 60 == m
  {
    ParseShowInt(h);
    ParseShowInt(m);
  }

  /** Fields "1" and "30" give 90 minutes. */
  lemma MinutesExample(st: WasherStatus)
    requires st.data == map["Remain_Time_H" := "1", "Remain_Time_M" := "30"]
    ensures Minutes(st, RemainingTime) == Success(90)
    ensures Minutes(st, InitialTime) == Failure(MissingField("Initial_Time_H"))
  {
    ParseShowInt(1);
    ParseShowInt(30);
    assert ShowInt(1) == "1" && ShowInt(30) == "30";
  }

  // ---------------------------------------------------------------------
  // Reference fields (wideq/washer.py:141-165)
  // ---------------------------------------------------------------------

  /** `_lookup_reference(attr)`: the catalog's reference for the raw code, or
      "Off" when the catalog has none; a missing key fails. */
  function LookupReference(st: WasherStatus, key: string): (r: Result<string, DecodeError>)
    ensures r.Success? <==> key in st.data
    ensures key !in st.data ==> r == Failure(MissingField(key))
    ensures key in st.data && st.catalog.referenceName(key, st.data[key]).Some? ==>
      r == Success(st.catalog.referenceName(key, st.data[key]).value)
    ensures r == Success("Off") <==>
      key in st.data && st.catalog.referenceName(key, st.data[key]) in {None, Some("Off")}
  {
    if key !in st.data then Failure(MissingField(key))
    else match st.catalog.referenceName(key, st.data[key])
      case None => Success("Off")
      case Some(v) => Success(v)
  }

  /** The three free-text accessors. */
  datatype ReferenceField = Course | SmartCourse | Error

  function ReferenceKey(f: ReferenceField): string {
    match f
    case Course => "Course"
    case SmartCourse => "SmartCourse"
    case Error => "Error"
  }

  /** `course`, `smart_course` and `error`: the reference lookup of their own
      key, so an absent reference reads as "Off" rather than an error. */
  function ReferenceValue(st: WasherStatus, f: ReferenceField): (r: Result<string, DecodeError>)
    ensures r.Success? <==> ReferenceKey(f) in st.data
    ensures r == Success("Off") <==>
      ReferenceKey(f) in st.data &&
      st.catalog.referenceName(ReferenceKey(f), st.data[ReferenceKey(f)]) in {None, Some("Off")}
  {
    LookupReference(st, ReferenceKey(f))
  }

  // ---------------------------------------------------------------------
  // WasherDevice.poll (wideq/washer.py:67-83)
  // ---------------------------------------------------------------------

  /** What the device knows when `poll` runs: whether `monitor_start` has
      attached a monitor handle. */
  datatype WasherDevice = WasherDevice(monitoring: bool)

  /** `poll`: nothing before monitoring starts, nothing when the monitor has no
      (or empty) data, and otherwise the frame the model decodes from it.
      `polled` is what the monitor handle's own poll returns, and `decode` is
      the model's `decode_monitor`; both belong to the client library. */
  function Poll(dev: WasherDevice, polled: Option<seq<bv8>>, decode: seq<bv8> -> Frame): (r: Option<Frame>)
    ensures !dev.monitoring ==> r == None
    ensures dev.monitoring && (polled == None || polled == Some([])) ==> r == None
    ensures r.Some? <==> dev.monitoring && polled.Some? && polled.value != []
    ensures r.Some? ==> r.value == decode(polled.value)
  {
    if !dev.monitoring then None
    else if polled.Some? && polled.value != [] then Some(decode(polled.value))
    else None
  }
}
