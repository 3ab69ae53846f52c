/** The proactive-automation settings: `normalizeAutomationPayload`, which validates the JSON
    body of a save request (src/server.js, lines 1142-1223), `buildDeliveryArgs` (lines
    1225-1231) and the cron expression of the morning job (lines 1291-1292). The `Intl`
    time-zone check is passed in as a function. */
module Automation {
  import opened Text
  import opened Json

  /** `SUPPORTED_DELIVERY_CHANNELS`. */
  const SupportedChannels: seq<string> :=
    ["telegram", "discord", "slack", "whatsapp", "signal", "googlechat", "mattermost", "imessage", "msteams"]

  /** The defaults of `DEFAULT_AUTOMATION_SETTINGS` that the validator falls back to. */
  const DefaultHours: int := 6
  const DefaultTime: string := "08:00"
  const DefaultTimezone: string := "UTC"
  /** In clauses: the verifier reads the characters of a string literal only when it is short. */
  const DefaultProgressPrompt: string :=
    "Review my active tasks " + "and send a concise status update: " + "done, in progress, blocked, "
    + "and next actions."

  /** The longest prompt accepted. */
  const MaxPromptLength: nat := 2000

  /** Whether `new Intl.DateTimeFormat("en-US", { timeZone })` accepts a non-empty name. */
  type TimezoneOracle = string -> bool

  /** The validated settings: the returned `value`. The hours are None when they are NaN,
      which is accepted while the progress job is disabled. There is no morning prompt. */
  datatype Settings = Settings(
    progressEnabled: bool,
    progressEveryHours: Option<int>,
    progressPrompt: string,
    morningEnabled: bool,
    morningTime: string,
    morningTimezone: string,
    deliveryChannel: string,
    deliveryTarget: string)

  /** Which check refused the payload, in the order the checks are made. */
  datatype Problem =
    | NotAnObject
    | BadHours
    | BadTime
    | BadTimezone
    | UnsupportedChannel
    | UnpairedDelivery
    | EmptyProgressPrompt
    | EmptyMorningPrompt
    | LongProgressPrompt
    | LongMorningPrompt

  /** The outcome: an error, the settings, or a `String(...)` conversion that threw before
      either was reached. */
  datatype Checked = Rejected(problem: Problem) | Accepted(settings: Settings) | Threw

  /** `String(value ?? fallback)`, when it does not throw (`ReadThrows`). */
  function StringOr(v: Option<Json>, fallback: string): string {
    if Nullish(v) then fallback else JsString(v)
  }

  /** The request body as the validator sees it: anything but an object or an array is
      refused; of the rest only the nine properties below are read (None when absent). */
  datatype Payload =
    | NotObject
    | Body(
        progressEnabled: Option<Json>,
        progressEveryHours: Option<Json>,
        progressPrompt: Option<Json>,
        morningEnabled: Option<Json>,
        morningTime: Option<Json>,
        morningTimezone: Option<Json>,
        morningPrompt: Option<Json>,
        deliveryChannel: Option<Json>,
        deliveryTarget: Option<Json>)

  /** A body that sets none of the properties. */
  const EmptyBody: Payload := Body(None, None, None, None, None, None, None, None, None)

  /** The properties of a JSON value the validator reads; an array has none of them. */
  function PayloadOf(j: Json): (p: Payload)
    ensures p.NotObject? <==> !(j.JObj? || j.JArr?)
    ensures j.JObj? ==> p.progressEnabled == Get(j.fields, "progressEnabled")
    ensures j.JObj? ==> p.morningEnabled == Get(j.fields, "morningEnabled")
    ensures j.JArr? ==> p == EmptyBody
  {
    match j
    case JObj(props) =>
      Body(Get(props, "progressEnabled"), Get(props, "progressEveryHours"), Get(props, "progressPrompt"),
           Get(props, "morningEnabled"), Get(props, "morningTime"), Get(props, "morningTimezone"),
           Get(props, "morningPrompt"), Get(props, "deliveryChannel"), Get(props, "deliveryTarget"))
    case JArr(_) => EmptyBody
    case _ => NotObject
  }

  /** `/^([01]\d|2[0-3]):([0-5]\d)$/`: a 24-hour time with two-digit hour and minute. */
  predicate IsClockTime(s: string) {
    && |s| == 5
    && s[2] == ':'
    && (((s[0] == '0' || s[0] == '1') && IsDigit(s[1])) || (s[0] == '2' && '0' <= s[1] <= '3'))
    && '0' <= s[3] <= '5' && IsDigit(s[4])
  }

  /** `isValidTimezone(name)`. */
  predicate IsValidTimezone(name: string, intl: TimezoneOracle) {
    Trim(name) != "" && intl(Trim(name))
  }

  predicate IsSupportedChannel(channel: string) {
    channel in SupportedChannels
  }

  /** What every accepted value satisfies. */
  predicate WellFormed(s: Settings) {
    && (s.progressEnabled ==> s.progressEveryHours.Some? && 1 <= s.progressEveryHours.value <= 24)
    && (s.morningEnabled ==> IsClockTime(s.morningTime))
    && (s.deliveryChannel == "" || IsSupportedChannel(s.deliveryChannel))
    && (s.deliveryChannel == "" <==> s.deliveryTarget == "")
    && s.progressPrompt != "" && |s.progressPrompt| <= MaxPromptLength
  }

  /** The body's properties as the strings the checks look at: `String(value ?? default)`,
      trimmed (the channel also lower-cased; the hours are not trimmed, `parseInt` skips the
      leading white space itself). The defaults have no morning prompt, so a missing one
      becomes `String(undefined)`, the text "undefined". */
  datatype Fields = Fields(
    progressEnabled: bool,
    morningEnabled: bool,
    hours: string,
    time: string,
    timezone: string,
    channel: string,
    target: string,
    progressPrompt: string,
    morningPrompt: string)

  /** `String(value ?? fallback).trim()` where the fallback has no white space to trim, when
      the conversion does not throw. */
  function TrimmedOr(v: Option<Json>, fallback: string): string {
    if Nullish(v) then fallback else Trim(JsString(v))
  }

  function FieldsOf(b: Payload): (f: Fields)
    requires b.Body?
    ensures f.progressEnabled <==> b.progressEnabled != Some(JBool(false))
    ensures f.morningEnabled <==> b.morningEnabled != Some(JBool(false))
  {
    Fields(
      b.progressEnabled != Some(JBool(false)),
      b.morningEnabled != Some(JBool(false)),
      StringOr(b.progressEveryHours, IntToString(DefaultHours)),
      TrimmedOr(b.morningTime, DefaultTime),
      TrimmedOr(b.morningTimezone, DefaultTimezone),
      ToLowerAscii(TrimmedOr(b.deliveryChannel, "")),
      TrimmedOr(b.deliveryTarget, ""),
      TrimmedOr(b.progressPrompt, DefaultProgressPrompt),
      TrimmedOr(b.morningPrompt, JsString(None)))
  }

  /** Trimming after the fallback, as the validator does, is the same as falling back to a
      fallback that has nothing to trim. */
  lemma TrimmedOrTrims(v: Option<Json>, fallback: string)
    requires NoEdgeSpace(fallback)
    ensures TrimmedOr(v, fallback) == Trim(StringOr(v, fallback))
  {
    if Nullish(v) {
      TrimFixed(fallback);
    }
  }

  predicate NoEdgeSpace(s: string) {
    s == [] || (!IsJsSpace(s[0]) && !IsJsSpace(s[|s| - 1]))
  }

  /** The fallbacks have nothing to trim, so with `TrimmedOrTrims` every string field is
      `String(value ?? default).trim()`. */
  lemma FallbacksHaveNoEdgeSpace()
    ensures NoEdgeSpace(DefaultTime) && NoEdgeSpace(DefaultTimezone) && NoEdgeSpace("")
    ensures NoEdgeSpace(DefaultProgressPrompt) && NoEdgeSpace(JsString(None))
  {
    assert DefaultProgressPrompt[0] == 'R' && DefaultProgressPrompt[|DefaultProgressPrompt| - 1] == '.';
  }

  /** Progress updates are on and the hours are NaN or outside 1 to 24. */
  predicate BadHoursOf(f: Fields) {
    var hours := ParseInt(f.hours);
    f.progressEnabled && (hours.None? || hours.value < 1 || hours.value > 24)
  }

  /** The morning job is on and its time is not HH:MM. */
  predicate BadTimeOf(f: Fields) {
    f.morningEnabled && !IsClockTime(f.time)
  }

  /** The morning job is on and its time zone is not one `Intl` knows. */
  predicate BadTimezoneOf(f: Fields, intl: TimezoneOracle) {
    f.morningEnabled && !IsValidTimezone(f.timezone, intl)
  }

  /** A channel is chosen that is not supported. */
  predicate BadChannelOf(f: Fields) {
    f.channel != "" && !IsSupportedChannel(f.channel)
  }

  /** Exactly one of channel and target is set. */
  predicate UnpairedOf(f: Fields) {
    (f.channel != "" && f.target == "") || (f.channel == "" && f.target != "")
  }

  /** The checks of `normalizeAutomationPayload`, in order, on the extracted fields. */
  function Validate(f: Fields, intl: TimezoneOracle): (r: Checked)
    ensures r.Accepted? ==> WellFormed(r.settings)
    ensures r.Accepted? ==>
      r.settings == Settings(f.progressEnabled, ParseInt(f.hours), f.progressPrompt, f.morningEnabled,
                             f.time, f.timezone, f.channel, f.target)
    ensures r.Accepted? && r.settings.morningEnabled ==> IsValidTimezone(r.settings.morningTimezone, intl)
    ensures r.Accepted? ==> f.morningPrompt != "" && |f.morningPrompt| <= MaxPromptLength
    ensures r.Rejected? ==> r.problem != NotAnObject
    ensures !r.Threw?
  {
    if BadHoursOf(f) then Rejected(BadHours)
    else if BadTimeOf(f) then Rejected(BadTime)
    else if BadTimezoneOf(f, intl) then Rejected(BadTimezone)
    else if BadChannelOf(f) then Rejected(UnsupportedChannel)
    else if UnpairedOf(f) then Rejected(UnpairedDelivery)
    else if f.progressPrompt == "" then Rejected(EmptyProgressPrompt)
    else if f.morningPrompt == "" then Rejected(EmptyMorningPrompt)
    else if |f.progressPrompt| > MaxPromptLength then Rejected(LongProgressPrompt)
    else if |f.morningPrompt| > MaxPromptLength then Rejected(LongMorningPrompt)
    else Accepted(Settings(f.progressEnabled, ParseInt(f.hours), f.progressPrompt, f.morningEnabled, f.time, f.timezone, f.channel, f.target))
  }

  /** The delivery fields pass: a supported channel or none, and a target exactly with it. */
  predicate DeliveryOk(f: Fields) {
    !BadChannelOf(f) && !UnpairedOf(f)
  }

  /** The schedule fields pass: hours, time and time zone. */
  predicate ScheduleOk(f: Fields, intl: TimezoneOracle) {
    !BadHoursOf(f) && !BadTimeOf(f) && !BadTimezoneOf(f, intl)
  }

  /** Each problem is reported exactly when its check fails and every earlier one passes,
      and the fields are accepted exactly when every check passes. */
  lemma ValidateSound(f: Fields, intl: TimezoneOracle)
    ensures Validate(f, intl) == Rejected(BadHours) <==> BadHoursOf(f)
    ensures Validate(f, intl) == Rejected(BadTime) <==> !BadHoursOf(f) && BadTimeOf(f)
    ensures Validate(f, intl) == Rejected(BadTimezone) <==>
      !BadHoursOf(f) && !BadTimeOf(f) && BadTimezoneOf(f, intl)
    ensures Validate(f, intl) == Rejected(UnsupportedChannel) <==> ScheduleOk(f, intl) && BadChannelOf(f)
    ensures Validate(f, intl) == Rejected(UnpairedDelivery) <==>
      ScheduleOk(f, intl) && !BadChannelOf(f) && UnpairedOf(f)
    ensures Validate(f, intl) == Rejected(EmptyProgressPrompt) <==>
      ScheduleOk(f, intl) && DeliveryOk(f) && f.progressPrompt == ""
    ensures Validate(f, intl) == Rejected(EmptyMorningPrompt) <==>
      ScheduleOk(f, intl) && DeliveryOk(f) && f.progressPrompt != "" && f.morningPrompt == ""
    ensures Validate(f, intl) == Rejected(LongProgressPrompt) <==>
      ScheduleOk(f, intl) && DeliveryOk(f) && f.progressPrompt != "" && f.morningPrompt != ""
      && |f.progressPrompt| > MaxPromptLength
    ensures Validate(f, intl) == Rejected(LongMorningPrompt) <==>
      ScheduleOk(f, intl) && DeliveryOk(f) && f.progressPrompt != "" && f.morningPrompt != ""
      && |f.progressPrompt| <= MaxPromptLength && |f.morningPrompt| > MaxPromptLength
    ensures Validate(f, intl).Accepted? <==>
      ScheduleOk(f, intl) && DeliveryOk(f) && f.progressPrompt != "" && f.morningPrompt != ""
      && |f.progressPrompt| <= MaxPromptLength && |f.morningPrompt| <= MaxPromptLength
  {
  }

  /** `String(value ?? fallback)` throws: the value is there, is not null, and its
      conversion fails. */
  predicate ReadThrows(v: Option<Json>) {
    !Nullish(v) && StringThrows(v.value)
  }

  /** The groups of `String(...)` conversions, in the order they are made: each group comes
      just before the checks that use it (the hours, the time, the time zone, channel and
      target, the two prompts). */
  datatype Read = HoursRead | TimeRead | TimezoneRead | DeliveryRead | PromptRead

  /** The position of a read among the checks: the checks of `Stage` below it come first. */
  function ReadStage(k: Read): nat {
    match k
    case HoursRead => 1
    case TimeRead => 2
    case TimezoneRead => 3
    case DeliveryRead => 4
    case PromptRead => 5
  }

  /** The read a check uses, by position. */
  function Stage(p: Problem): nat {
    match p
    case NotAnObject => 0
    case BadHours => 1
    case BadTime => 2
    case BadTimezone => 3
    case UnsupportedChannel => 4
    case UnpairedDelivery => 4
    case _ => 5
  }

  /** The first group of conversions that throws, None when none does. */
  function FirstThrow(b: Payload): (r: Option<Read>)
    requires b.Body?
    ensures r.None? <==>
      && !ReadThrows(b.progressEveryHours) && !ReadThrows(b.morningTime) && !ReadThrows(b.morningTimezone)
      && !ReadThrows(b.deliveryChannel) && !ReadThrows(b.deliveryTarget)
      && !ReadThrows(b.progressPrompt) && !ReadThrows(b.morningPrompt)
    ensures r == Some(HoursRead) <==> ReadThrows(b.progressEveryHours)
    ensures r == Some(PromptRead) ==> ReadThrows(b.progressPrompt) || ReadThrows(b.morningPrompt)
    ensures r.Some? && ReadStage(r.value) > 1 ==> !ReadThrows(b.progressEveryHours)
    ensures r.Some? && ReadStage(r.value) > 2 ==> !ReadThrows(b.morningTime)
    ensures r.Some? && ReadStage(r.value) > 3 ==> !ReadThrows(b.morningTimezone)
    ensures r.Some? && ReadStage(r.value) > 4 ==> !ReadThrows(b.deliveryChannel) && !ReadThrows(b.deliveryTarget)
  {
    if ReadThrows(b.progressEveryHours) then Some(HoursRead)
    else if ReadThrows(b.morningTime) then Some(TimeRead)
    else if ReadThrows(b.morningTimezone) then Some(TimezoneRead)
    else if ReadThrows(b.deliveryChannel) || ReadThrows(b.deliveryTarget) then Some(DeliveryRead)
    else if ReadThrows(b.progressPrompt) || ReadThrows(b.morningPrompt) then Some(PromptRead)
    else None
  }

  /** The validator on the properties it reads. The checks before the first conversion that
      throws see only values that converted, so they decide as `Validate` does; once that
      conversion is reached the call throws. */
  function NormalizeBody(b: Payload, intl: TimezoneOracle): (r: Checked)
    ensures (r.Rejected? && r.problem == NotAnObject) <==> b.NotObject?
    ensures r.Accepted? ==> WellFormed(r.settings)
    ensures r.Accepted? ==>
      && r.settings.progressEnabled == (b.progressEnabled != Some(JBool(false)))
      && r.settings.morningEnabled == (b.morningEnabled != Some(JBool(false)))
    ensures r.Threw? ==> b.Body? && FirstThrow(b).Some?
    ensures b.Body? && ReadThrows(b.progressEveryHours) ==> r.Threw?
    ensures b.Body? && FirstThrow(b).Some? ==> !r.Accepted?
    ensures r.Rejected? && b.Body? ==> r == Validate(FieldsOf(b), intl)
    ensures r.Rejected? && b.Body? && FirstThrow(b).Some? ==> Stage(r.problem) < ReadStage(FirstThrow(b).value)
    ensures b.Body? && FirstThrow(b).None? ==> r == Validate(FieldsOf(b), intl)
  {
    if b.NotObject? then Rejected(NotAnObject)
    else
      var r := Validate(FieldsOf(b), intl);
      match FirstThrow(b)
      case None => r
      case Some(k) => if r.Rejected? && Stage(r.problem) < ReadStage(k) then r else Threw
  }

  /** `normalizeAutomationPayload(payload)`. */
  function NormalizeAutomationPayload(payload: Json, intl: TimezoneOracle): (r: Checked)
    ensures (r.Rejected? && r.problem == NotAnObject) <==> !(payload.JObj? || payload.JArr?)
    ensures r.Threw? ==> payload.JObj?
    ensures r.Accepted? ==> WellFormed(r.settings)
    ensures r.Accepted? && payload.JObj? ==>
      && r.settings.progressEnabled == (Get(payload.fields, "progressEnabled") != Some(JBool(false)))
      && r.settings.morningEnabled == (Get(payload.fields, "morningEnabled") != Some(JBool(false)))
  {
    NormalizeBody(PayloadOf(payload), intl)
  }

  /** The settings used when nothing is configured. */
  function Defaults(): Settings {
    Settings(true, Some(DefaultHours), DefaultProgressPrompt, true, DefaultTime, DefaultTimezone, "", "")
  }

  /** The fields of a body that sets nothing. */
  lemma FieldsOfEmpty()
    ensures FieldsOf(EmptyBody) == Fields(true, true, "6", DefaultTime, DefaultTimezone, "", "", DefaultProgressPrompt, "undefined")
  {
    assert IntToString(DefaultHours) == "6";
  }

  /** The checks refuse nothing else: fields that pass every one of them are accepted, with
      the settings they spell out. */
  lemma ValidateAccepts(f: Fields, intl: TimezoneOracle)
    requires f.progressEnabled ==> ParseInt(f.hours).Some? && 1 <= ParseInt(f.hours).value <= 24
    requires f.morningEnabled ==> IsClockTime(f.time) && IsValidTimezone(f.timezone, intl)
    requires f.channel == "" || IsSupportedChannel(f.channel)
    requires (f.channel == "") == (f.target == "")
    requires f.progressPrompt != "" && |f.progressPrompt| <= MaxPromptLength
    requires f.morningPrompt != "" && |f.morningPrompt| <= MaxPromptLength
    ensures Validate(f, intl) == Accepted(Settings(f.progressEnabled, ParseInt(f.hours), f.progressPrompt,
                                                   f.morningEnabled, f.time, f.timezone, f.channel, f.target))
  {
  }

  /** The default fields, with any hours that `parseInt` reads as 1 to 24, pass the checks. */
  lemma DefaultsWithHoursValid(hours: string, intl: TimezoneOracle)
    requires intl(DefaultTimezone)
    requires ParseInt(hours).Some? && 1 <= ParseInt(hours).value <= 24
    ensures Validate(FieldsOf(EmptyBody).(hours := hours), intl) == Accepted(Defaults().(progressEveryHours := ParseInt(hours)))
  {
    FieldsOfEmpty();
    DefaultStringsPass(intl);
    ValidateAccepts(Fields(true, true, hours, DefaultTime, DefaultTimezone, "", "", DefaultProgressPrompt, "undefined"), intl);
  }

  lemma DefaultStringsPass(intl: TimezoneOracle)
    requires intl(DefaultTimezone)
    ensures IsClockTime(DefaultTime) && IsValidTimezone(DefaultTimezone, intl)
    ensures DefaultProgressPrompt != "" && |DefaultProgressPrompt| <= MaxPromptLength
  {
    DefaultTimezonePasses(intl);
    DefaultTimeAndPromptPass();
  }

  lemma DefaultTimezonePasses(intl: TimezoneOracle)
    requires intl(DefaultTimezone)
    ensures IsValidTimezone(DefaultTimezone, intl)
  {
    TrimFixed(DefaultTimezone);
  }

  lemma DefaultTimeAndPromptPass()
    ensures IsClockTime(DefaultTime)
    ensures DefaultProgressPrompt != "" && |DefaultProgressPrompt| <= MaxPromptLength
  {
  }

  /** Some check made before read `k` fails. */
  predicate RejectedBefore(f: Fields, k: Read, intl: TimezoneOracle) {
    match k
    case HoursRead => false
    case TimeRead => BadHoursOf(f)
    case TimezoneRead => BadHoursOf(f) || BadTimeOf(f)
    case DeliveryRead => !ScheduleOk(f, intl)
    case PromptRead => !ScheduleOk(f, intl) || !DeliveryOk(f)
  }

  /** A body throws exactly when one of its conversions throws and no check made before the
      first such conversion refuses it. */
  lemma ThrowsExactly(b: Payload, intl: TimezoneOracle)
    requires b.Body?
    ensures NormalizeBody(b, intl).Threw? <==>
      FirstThrow(b).Some? && !RejectedBefore(FieldsOf(b), FirstThrow(b).value, intl)
  {
    ValidateSound(FieldsOf(b), intl);
  }

  /** The defaults pass the checks, as long as UTC is a known time zone. */
  lemma DefaultsValid(intl: TimezoneOracle)
    requires intl(DefaultTimezone)
    ensures NormalizeBody(EmptyBody, intl) == Accepted(Defaults())
  {
    FieldsOfEmpty();
    assert ParseInt("6") == Some(6) by {
      ParseIntNatToString(6);
      assert NatToString(6) == "6";
    }
    DefaultsWithHoursValid("6", intl);
    assert FieldsOf(EmptyBody).(hours := "6") == FieldsOf(EmptyBody);
  }

  /** An empty object, or an array, is accepted as the defaults: the missing morning prompt
      turns into the text "undefined", which passes the checks. */
  lemma EmptyObjectGivesDefaults(intl: TimezoneOracle)
    requires intl(DefaultTimezone)
    ensures NormalizeAutomationPayload(JObj([]), intl) == Accepted(Defaults())
    ensures NormalizeAutomationPayload(JArr([]), intl) == Accepted(Defaults())
  {
    assert PayloadOf(JObj([])) == EmptyBody;
    DefaultsValid(intl);
  }

  /** Otherwise valid settings whose progress prompt cannot be converted make the call throw
      once the prompts are read. */
  lemma ObjectPromptThrows(intl: TimezoneOracle)
    requires intl(DefaultTimezone)
    ensures NormalizeAutomationPayload(JObj([Field("progressPrompt", OwnToString)]), intl) == Threw
  {
    var b := EmptyBody.(progressPrompt := Some(OwnToString));
    assert PayloadOf(JObj([Field("progressPrompt", OwnToString)])) == b;
    ThrowingPromptRead(b);
    PromptOnlyFields(Some(OwnToString));
    DefaultsPassEarlyChecks(intl, TrimmedOr(Some(OwnToString), DefaultProgressPrompt));
    ThrowsExactly(b, intl);
  }

  lemma ThrowingPromptRead(b: Payload)
    requires b.Body? && b.progressPrompt == Some(OwnToString)
    requires Scalar(b.progressEveryHours) && Scalar(b.morningTime) && Scalar(b.morningTimezone)
    requires Scalar(b.deliveryChannel) && Scalar(b.deliveryTarget)
    ensures FirstThrow(b) == Some(PromptRead)
  {
    OwnToStringThrows([OwnToString]);
  }

  lemma PromptOnlyFields(v: Option<Json>)
    ensures FieldsOf(EmptyBody.(progressPrompt := v))
         == FieldsOf(EmptyBody).(progressPrompt := TrimmedOr(v, DefaultProgressPrompt))
  {
  }

  /** The default schedule and delivery pass their checks, whatever the prompt. */
  lemma DefaultsPassEarlyChecks(intl: TimezoneOracle, prompt: string)
    requires intl(DefaultTimezone)
    ensures var f := FieldsOf(EmptyBody).(progressPrompt := prompt);
      ScheduleOk(f, intl) && DeliveryOk(f)
  {
    FieldsOfEmpty();
    assert ParseInt("6") == Some(6) by {
      ParseIntNatToString(6);
      assert NatToString(6) == "6";
    }
    DefaultStringsPass(intl);
  }

  /** A check made before the conversion that throws still decides: hours of 0 are refused
      before the unconvertible prompt is read. */
  lemma EarlierRejectionWins(intl: TimezoneOracle)
    ensures NormalizeBody(EmptyBody.(progressEveryHours := Some(JStr("0")), progressPrompt := Some(OwnToString)), intl)
         == Rejected(BadHours)
  {
    var b := EmptyBody.(progressEveryHours := Some(JStr("0")), progressPrompt := Some(OwnToString));
    ZeroHoursRefused(b);
    HoursCheckedFirst(b, intl);
  }

  /** Hours that the check refuses are refused whatever the later properties hold, even ones
      whose conversion throws. */
  lemma HoursCheckedFirst(b: Payload, intl: TimezoneOracle)
    requires b.Body? && !ReadThrows(b.progressEveryHours) && BadHoursOf(FieldsOf(b))
    ensures NormalizeBody(b, intl) == Rejected(BadHours)
  {
    var r := Validate(FieldsOf(b), intl);
    assert r == Rejected(BadHours);
    match FirstThrow(b)
    case None =>
    case Some(k) =>
      assert k != HoursRead;
      assert Stage(r.problem) < ReadStage(k);
  }

  lemma ZeroHoursRefused(b: Payload)
    requires b.Body? && b.progressEveryHours == Some(JStr("0")) && b.progressEnabled.None?
    ensures BadHoursOf(FieldsOf(b))
  {
    assert ParseInt("0") == Some(0) by {
      ParseIntNatToString(0);
      assert NatToString(0) == "0";
    }
  }

  /** The property holds null, a boolean, a number or a string, or is missing. */
  predicate Scalar(v: Option<Json>) {
    v.None? || !(v.value.JObj? || v.value.JArr?)
  }

  /** A body whose properties are all scalars never throws: it is decided by the checks. */
  lemma ScalarsNeverThrow(b: Payload, intl: TimezoneOracle)
    requires b.Body?
    requires Scalar(b.progressEveryHours) && Scalar(b.morningTime) && Scalar(b.morningTimezone)
    requires Scalar(b.deliveryChannel) && Scalar(b.deliveryTarget)
    requires Scalar(b.progressPrompt) && Scalar(b.morningPrompt)
    ensures NormalizeBody(b, intl) == Validate(FieldsOf(b), intl)
  {
  }

  /** Emptying the morning prompt of accepted fields makes them refused for that reason. */
  lemma EmptiedMorningPrompt(f: Fields, intl: TimezoneOracle)
    requires Validate(f, intl).Accepted?
    ensures Validate(f.(morningPrompt := ""), intl) == Rejected(EmptyMorningPrompt)
  {
    var g := f.(morningPrompt := "");
    assert ScheduleOk(f, intl) && DeliveryOk(f) && f.progressPrompt != "";
    assert ScheduleOk(g, intl) && DeliveryOk(g) && g.progressPrompt != "";
  }

  lemma MorningPromptOnly(prompt: string)
    requires Trim(prompt) == prompt
    ensures FieldsOf(EmptyBody.(morningPrompt := Some(JStr(prompt)))) == FieldsOf(EmptyBody).(morningPrompt := prompt)
  {
  }

  /** An explicitly empty morning prompt is refused, although leaving it out is accepted. */
  lemma EmptyMorningPromptRejected(intl: TimezoneOracle)
    requires intl(DefaultTimezone)
    ensures NormalizeBody(EmptyBody.(morningPrompt := Some(JStr(""))), intl) == Rejected(EmptyMorningPrompt)
  {
    DefaultsValid(intl);
    MorningPromptOnly("");
    EmptiedMorningPrompt(FieldsOf(EmptyBody), intl);
  }

  /** A body that sets only the hours, to a text `parseInt` reads as 1 to 24, gets the
      defaults with those hours. */
  lemma HoursOnly(hours: string, intl: TimezoneOracle)
    requires intl(DefaultTimezone)
    requires ParseInt(hours).Some? && 1 <= ParseInt(hours).value <= 24
    ensures NormalizeBody(EmptyBody.(progressEveryHours := Some(JStr(hours))), intl)
         == Accepted(Defaults().(progressEveryHours := ParseInt(hours)))
  {
    ScalarsNeverThrow(EmptyBody.(progressEveryHours := Some(JStr(hours))), intl);
    HoursOnlyFields(hours);
    DefaultsWithHoursValid(hours, intl);
  }

  lemma HoursOnlyFields(hours: string)
    ensures FieldsOf(EmptyBody.(progressEveryHours := Some(JStr(hours)))) == FieldsOf(EmptyBody).(hours := hours)
  {
  }

  /** `parseInt` reads the leading digits only, so "12abc" is taken as every 12 hours. */
  lemma LenientHours(intl: TimezoneOracle)
    requires intl(DefaultTimezone)
    ensures NormalizeBody(EmptyBody.(progressEveryHours := Some(JStr("12abc"))), intl)
         == Accepted(Defaults().(progressEveryHours := Some(12)))
  {
    LeadingDigits("12abc");
    HoursOnly("12abc", intl);
  }

  lemma LeadingDigits(s: string)
    requires s == "12abc"
    ensures ParseInt(s) == Some(12)
  {
    assert DigitRun(s[2..]) == 0;
    assert DigitRun(s[1..]) == 1;
    assert DigitRun(s) == 2;
    ParseIntOfDigits(s);
    DigitsValueTwo(s[..2]);
  }

  /** `buildDeliveryArgs(settings)`: always announce; name the channel and target only when
      both are set. */
  function BuildDeliveryArgs(s: Settings): (args: seq<string>)
    ensures |args| >= 1 && args[0] == "--announce"
    ensures |args| == 1 || |args| == 5
    ensures |args| == 5 <==> s.deliveryChannel != "" && s.deliveryTarget != ""
    ensures |args| == 5 ==> args[1..] == ["--channel", s.deliveryChannel, "--to", s.deliveryTarget]
  {
    if s.deliveryChannel != "" && s.deliveryTarget != "" then
      ["--announce", "--channel", s.deliveryChannel, "--to", s.deliveryTarget]
    else ["--announce"]
  }

  /** For accepted settings, delivery is named exactly when a channel was chosen. */
  lemma DeliveryFollowsChannel(payload: Json, intl: TimezoneOracle)
    requires NormalizeAutomationPayload(payload, intl).Accepted?
    ensures var s := NormalizeAutomationPayload(payload, intl).settings;
      |BuildDeliveryArgs(s)| == 5 <==> s.deliveryChannel != ""
  {
  }

  /** `String(Number.parseInt(x, 10))`: "NaN" for no number. */
  function NumberString(n: Option<int>): string {
    if n.None? then "NaN" else IntToString(n.value)
  }

  /** The morning job's schedule: `${parseInt(minute)} ${parseInt(hour)} * * *` of the two
      halves of the time around its colon (a missing half is NaN). For a validated time it
      fires daily at that time, with the leading zeros dropped and both fields in range. */
  function MorningCron(time: string): (r: string)
    ensures IsClockTime(time) ==> HourOf(time) < 24 && MinuteOf(time) < 60
    ensures IsClockTime(time) ==>
      r == NatToString(MinuteOf(time)) + " " + NatToString(HourOf(time)) + " * * *"
  {
    if IsClockTime(time) then CronLineOfClockTime(time); CronLine(time)
    else CronLine(time)
  }

  /** The cron line of a clock time, in plain decimal. */
  lemma CronLineOfClockTime(time: string)
    requires IsClockTime(time)
    ensures HourOf(time) < 24 && MinuteOf(time) < 60
    ensures CronLine(time) == NatToString(MinuteOf(time)) + " " + NatToString(HourOf(time)) + " * * *"
  {
    SplitClockTime(time);
    ClockTimeHalves(time);
    var parts := Split(time, ':');
    assert parts[0] == time[..2] && parts[1] == time[3..];
  }

  function CronLine(time: string): string {
    var parts := Split(time, ':');
    var minute := if |parts| >= 2 then ParseInt(parts[1]) else None;
    var hour := ParseInt(parts[0]);
    NumberString(minute) + " " + NumberString(hour) + " * * *"
  }

  /** The hour and minute a clock time denotes. */
  function HourOf(time: string): nat
    requires IsClockTime(time)
  {
    DigitValue(time[0]) * 10 + DigitValue(time[1])
  }

  function MinuteOf(time: string): nat
    requires IsClockTime(time)
  {
    DigitValue(time[3]) * 10 + DigitValue(time[4])
  }

  lemma MorningCronHalves(time: string)
    requires IsClockTime(time)
    ensures MorningCron(time) == NumberString(ParseInt(time[3..])) + " " + NumberString(ParseInt(time[..2])) + " * * *"
  {
    SplitClockTime(time);
  }

  lemma ClockTimeHalves(time: string)
    requires IsClockTime(time)
    ensures ParseInt(time[..2]) == Some(HourOf(time) as int) && ParseInt(time[3..]) == Some(MinuteOf(time) as int)
  {
    HourHalf(time);
    MinuteHalf(time);
  }

  lemma HourHalf(time: string)
    requires IsClockTime(time)
    ensures ParseInt(time[..2]) == Some(HourOf(time) as int)
  {
    var h := time[..2];
    assert |h| == 2 && h[0] == time[0] && h[1] == time[1];
    TwoDigits(h);
    assert HourOf(time) == DigitValue(h[0]) * 10 + DigitValue(h[1]);
  }

  lemma MinuteHalf(time: string)
    requires IsClockTime(time)
    ensures ParseInt(time[3..]) == Some(MinuteOf(time) as int)
  {
    var m := time[3..];
    assert |m| == 2 && m[0] == time[3] && m[1] == time[4];
    TwoDigits(m);
    assert MinuteOf(time) == DigitValue(m[0]) * 10 + DigitValue(m[1]);
  }

  /** A clock time splits at its colon into the hour and the minute. */
  lemma SplitClockTime(time: string)
    requires IsClockTime(time)
    ensures Split(time, ':') == [time[..2], time[3..]]
  {
    var minute := time[3..];
    assert ':' !in minute by {
      assert minute == [time[3], time[4]];
    }
    assert FindChar(time, ':') == 2;
    SplitNoSep(minute, ':');
  }

  /** `parseInt` of two decimal digits is their value. */
  lemma TwoDigits(s: string)
    requires |s| == 2 && IsDigit(s[0]) && IsDigit(s[1])
    ensures ParseInt(s) == Some((DigitValue(s[0]) * 10 + DigitValue(s[1])) as int)
  {
    assert AllDigits(s);
    ParseIntAllDigits(s);
    DigitsValueTwo(s);
  }

  lemma DigitsValueTwo(s: string)
    requires |s| == 2 && IsDigit(s[0]) && IsDigit(s[1])
    ensures DigitsValue(s) == DigitValue(s[0]) * 10 + DigitValue(s[1])
  {
    var p := s[..1];
    assert p == [s[0]];
    assert p[..0] == [];
    assert DigitsValue(p) == DigitValue(s[0]);
  }
}
