/** The status envelope shared by the redirect managers and the status
    components: the reserved keys, the Severity enum, how severity is
    inferred from a message when none was given, and the banner's CSS class. */
module Status {
  import opened Values
  import opened Text

  const StatusMessageKey: string := "StatusMessage"
  const StatusSeverityKey: string := "StatusSeverity"

  /** The name of the enum type `BlazorSsrRedirectManager.Severity`. */
  const SeverityEnum: string := "Severity"

  /** The values of `enum Severity { Normal, Info, Success, Warning, Error }`.
      A C# enum holds any number of its underlying type; Undeclared is such a
      number without a name. */
  datatype SeverityValue = Normal | Info | Success | Warning | Error | Undeclared(ordinal: int)

  /** Each number has one spelling: the names are used for the declared numbers. */
  predicate Canonical(s: SeverityValue) {
    s.Undeclared? ==> !(0 <= s.ordinal <= 4)
  }

  /** A Severity is a number of the enum, spelled by its name when it has one,
      so `(Severity)4` and `Severity.Error` are the same value. */
  type Severity = s: SeverityValue | Canonical(s) witness Normal

  function Ordinal(s: Severity): int {
    match s
    case Normal => 0
    case Info => 1
    case Success => 2
    case Warning => 3
    case Error => 4
    case Undeclared(n) => n
  }

  /** The Severity whose number is n, as `(Severity)n` gives it. */
  function FromOrdinal(n: int): (s: Severity)
    ensures Ordinal(s) == n
  {
    if n == 0 then Normal
    else if n == 1 then Info
    else if n == 2 then Success
    else if n == 3 then Warning
    else if n == 4 then Error
    else Undeclared(n)
  }

  /** Severities and their numbers correspond one to one. */
  lemma OrdinalRoundTrip(s: Severity)
    ensures FromOrdinal(Ordinal(s)) == s
  {
  }

  /** A Severity as the store holds it: boxed as a value of the enum type,
      from which AsSeverity gives it back. */
  function ToValue(s: Severity): (v: Value)
    ensures v.VEnum? && v.enumName == SeverityEnum && v.ordinal == Ordinal(s)
    ensures AsSeverity(v) == Some(s)
  {
    OrdinalRoundTrip(s);
    VEnum(SeverityEnum, Ordinal(s))
  }

  /** A read string as `string?`. */
  function AsString(v: Value): (r: Option<string>)
    ensures v.VStr? <==> r.Some?
    ensures r.Some? ==> r.value == v.s
  {
    if v.VStr? then Some(v.s) else None
  }

  /** A read Severity value (of type Severity or Severity?) as `Severity?`. */
  function AsSeverity(v: Value): (r: Option<Severity>)
    ensures r.Some? <==> v.VEnum?
    ensures r.Some? ==> Ordinal(r.value) == v.ordinal
  {
    if v.VEnum? then Some(FromOrdinal(v.ordinal)) else None
  }

  /** The envelope a status redirect writes: the message under "StatusMessage"
      and the severity under "StatusSeverity", and nothing else. */
  function Envelope(message: string, severity: Severity): (p: map<string, Value>)
    ensures p.Keys == {StatusMessageKey, StatusSeverityKey}
    ensures AsString(p[StatusMessageKey]) == Some(message)
    ensures p[StatusSeverityKey] == ToValue(severity)
  {
    map[StatusMessageKey := VStr(message), StatusSeverityKey := ToValue(severity)]
  }

  /** What a status banner shows: its message and its severity, either possibly null. */
  datatype Banner = Banner(message: Option<string>, severity: Option<Severity>)

  /** The fallback of every status component: a missing severity of a
      non-blank message is Error when the message contains "error" in any
      letter case, Normal otherwise; a given severity is kept. */
  function InferSeverity(message: Option<string>, severity: Option<Severity>): (r: Option<Severity>)
    ensures severity.Some? ==> r == severity
    ensures severity.None? && IsNullOrWhiteSpace(message) ==> r.None?
    ensures severity.None? && !IsNullOrWhiteSpace(message) ==>
              (r == Some(Error) <==> exists i :: 0 <= i && i + 5 <= |message.value| && MatchesAt(message.value, "Error", i))
              && (r == Some(Error) || r == Some(Normal))
  {
    if severity.None? && !IsNullOrWhiteSpace(message) then
      Some(if ContainsIgnoreCase(message.value, "Error") then Error else Normal)
    else severity
  }

  /** The banner after the inference step of OnInitialized. */
  function Inferred(b: Banner): (r: Banner)
    ensures r.message == b.message
    ensures r.severity == InferSeverity(b.message, b.severity)
  {
    b.(severity := InferSeverity(b.message, b.severity))
  }

  /** Inference only fills a gap: applying it twice is applying it once. */
  lemma InferenceIsIdempotent(b: Banner)
    ensures Inferred(Inferred(b)) == Inferred(b)
  {
  }

  /** `GetAlertClass()` of every status component: the four named non-Normal
      severities have their own class, everything else (Normal, null and
      numbers outside the enum) is "alert-secondary". */
  function AlertClass(severity: Option<Severity>): (r: string)
    ensures r == "alert-success" <==> severity == Some(Success)
    ensures r == "alert-info" <==> severity == Some(Info)
    ensures r == "alert-warning" <==> severity == Some(Warning)
    ensures r == "alert-danger" <==> severity == Some(Error)
    ensures r == "alert-secondary" <==> !(severity in {Some(Success), Some(Info), Some(Warning), Some(Error)})
    // by number: exactly the severities numbered 1 to 4 get a class of their own
    ensures r != "alert-secondary" <==> severity.Some? && 1 <= Ordinal(severity.value) <= 4
  {
    match severity
    case Some(Success) => "alert-success"
    case Some(Info) => "alert-info"
    case Some(Warning) => "alert-warning"
    case Some(Error) => "alert-danger"
    case _ => "alert-secondary"
  }
}
