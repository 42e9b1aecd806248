/** The 9.0 sample's StatusMessage component. Its Message and MessageSeverity
    parameters win; temp data is consulted only for what they leave open,
    and only when there is an HttpContext. */
module StatusMessage9 {
  import opened Values
  import opened TempData
  import opened Text
  import opened Status
  import Reader9

  /** OnInitialized reads temp data exactly when there is an HttpContext and
      the message is blank or the severity is missing. */
  predicate ConsultsStore(hasContext: bool, params: Banner)
    // with both parameters set, temp data is left alone
    ensures !IsNullOrWhiteSpace(params.message) && params.severity.Some? ==> !ConsultsStore(hasContext, params)
    // a missing severity alone is enough to read temp data
    ensures hasContext && params.severity.None? ==> ConsultsStore(hasContext, params)
    ensures ConsultsStore(hasContext, params) ==> hasContext
  {
    hasContext && (IsNullOrWhiteSpace(params.message) || params.severity.None?)
  }

  /** The banner after the store has been consulted: a blank message is
      replaced by the stored `string`, a missing severity by the stored
      `Severity`, read as a non-nullable enum. */
  function Loaded(params: Banner, st: StoreState, converts: EnumConversion): (b: Banner)
    ensures !IsNullOrWhiteSpace(params.message) ==> b.message == params.message
    ensures IsNullOrWhiteSpace(params.message) ==>
              b.message == AsString(Reader9.ReadAs(Peek(st, StatusMessageKey), StringType, converts).value)
    ensures params.severity.Some? ==> b.severity == params.severity
    // a read of the non-nullable enum always yields a severity: Normal when nothing usable is stored
    ensures params.severity.None? ==> b.severity.Some?
    ensures params.severity.None? && Peek(st, StatusSeverityKey).None? ==> b.severity == Some(Normal)
  {
    Banner(
      if IsNullOrWhiteSpace(params.message)
      then AsString(Reader9.ReadAs(Peek(st, StatusMessageKey), StringType, converts).value)
      else params.message,
      if params.severity.None?
      then AsSeverity(Reader9.ReadAs(Peek(st, StatusSeverityKey), Plain(EnumType(SeverityEnum)), converts).value)
      else params.severity)
  }

  /** The store after the lookups OnInitialized makes (before its Save). */
  function AfterReads(params: Banner, st: StoreState): StoreState {
    var st1 := if IsNullOrWhiteSpace(params.message) then AfterLookup(st, StatusMessageKey) else st;
    if params.severity.None? then AfterLookup(st1, StatusSeverityKey) else st1
  }

  /** The banner OnInitialized leaves, given the parameters and the store
      (None: no HttpContext). */
  function Initialized(params: Banner, store: Option<StoreState>, converts: EnumConversion): (b: Banner)
    ensures !IsNullOrWhiteSpace(params.message) ==> b.message == params.message
    ensures params.severity.Some? ==> b.severity == params.severity
  {
    Inferred(if ConsultsStore(store.Some?, params) then Loaded(params, store.value, converts) else params)
  }

  /** Whenever the store is consulted the severity comes out non-null, so
      the message-based inference only ever applies without an HttpContext. */
  lemma InferenceOnlyWithoutContext(params: Banner, st: StoreState, converts: EnumConversion)
    requires ConsultsStore(true, params)
    ensures Initialized(params, Some(st), converts) == Loaded(params, st, converts)
    ensures Initialized(params, Some(st), converts).severity.Some?
  {
  }

  // ---- Finding: a message parameter without a severity is never inferred ----

  /** As written: a non-blank message passed without a severity, rendered with
      an HttpContext whose temp data holds no severity, is shown as Normal:
      the failed read still assigns default(Severity). */
  lemma ErrorMessageShownAsNormal(st: StoreState, converts: EnumConversion)
    requires StatusSeverityKey !in st.data
    ensures var b := Initialized(Banner(Some("Error"), None), Some(st), converts);
            b.severity == Some(Normal) && AlertClass(b.severity) == "alert-secondary"
  {
  }

  /** Corrected Loaded: the stored severity is taken only when the read
      succeeds, so a missing one stays null for the inference step. */
  function LoadedChecked(params: Banner, st: StoreState, converts: EnumConversion): (b: Banner)
    ensures b.message == Loaded(params, st, converts).message
    ensures params.severity.Some? ==> b.severity == params.severity
    ensures params.severity.None? ==>
              (b.severity.Some? <==> Reader9.ReadAs(Peek(st, StatusSeverityKey), Plain(EnumType(SeverityEnum)), converts).ok)
  {
    var read := Reader9.ReadAs(Peek(st, StatusSeverityKey), Plain(EnumType(SeverityEnum)), converts);
    Banner(Loaded(params, st, converts).message,
           if params.severity.None? && read.ok then AsSeverity(read.value) else params.severity)
  }

  /** Corrected Initialized, built on LoadedChecked. */
  function InitializedChecked(params: Banner, store: Option<StoreState>, converts: EnumConversion): Banner {
    Inferred(if ConsultsStore(store.Some?, params) then LoadedChecked(params, store.value, converts) else params)
  }

  /** The correction changes nothing when a severity can be read, and lets
      the inference decide when none can. */
  lemma CheckedReadInfersMissingSeverity(params: Banner, st: StoreState, converts: EnumConversion)
    ensures Reader9.ReadAs(Peek(st, StatusSeverityKey), Plain(EnumType(SeverityEnum)), converts).ok ==>
              InitializedChecked(params, Some(st), converts) == Initialized(params, Some(st), converts)
    ensures params.severity.None? && !Reader9.ReadAs(Peek(st, StatusSeverityKey), Plain(EnumType(SeverityEnum)), converts).ok ==>
              InitializedChecked(params, Some(st), converts).severity
              == InferSeverity(Loaded(params, st, converts).message, None)
  {
  }

  /** Corrected instance: the message "Error" without a severity is shown as an error. */
  lemma ErrorMessageShownAsError(st: StoreState, converts: EnumConversion)
    requires StatusSeverityKey !in st.data
    ensures var b := InitializedChecked(Banner(Some("Error"), None), Some(st), converts);
            b.severity == Some(Error) && AlertClass(b.severity) == "alert-danger"
  {
    assert MatchesAt("Error", "Error", 0) by {
      assert "Error"[0..5] == "Error";
    }
  }

  class StatusMessage {
    /** The request's temp data; null when there is no HttpContext. */
    const tempData: TempStore?
    var message: Option<string>
    var messageSeverity: Option<Severity>

    function Store(): Option<StoreState>
      reads this, tempData
    {
      if tempData == null then None else Some(tempData.State())
    }

    /** The component with its parameters as the renderer sets them. */
    constructor (contextStore: TempStore?, message: Option<string>, messageSeverity: Option<Severity>)
      ensures tempData == contextStore && this.message == message && this.messageSeverity == messageSeverity
    {
      tempData := contextStore;
      this.message := message;
      this.messageSeverity := messageSeverity;
    }

    method OnInitialized(converts: EnumConversion)
      modifies this, tempData
      ensures Banner(message, messageSeverity)
              == Initialized(Banner(old(message), old(messageSeverity)), old(Store()), converts)
      // Save follows the reads exactly when the store was consulted
      ensures tempData != null && ConsultsStore(true, Banner(old(message), old(messageSeverity))) ==>
                tempData.State() == AfterSave(AfterReads(Banner(old(message), old(messageSeverity)), old(tempData.State())))
                && tempData.saved == old(tempData.saved) + [tempData.data]
      ensures tempData != null && !ConsultsStore(true, Banner(old(message), old(messageSeverity))) ==>
                tempData.State() == old(tempData.State()) && tempData.saved == old(tempData.saved)
    {
      if tempData != null && (IsNullOrWhiteSpace(message) || messageSeverity.None?) {
        if IsNullOrWhiteSpace(message) {
          var _, read := Reader9.TryGetValue(tempData, "StatusMessage", StringType, converts);
          message := AsString(read);
        }
        if messageSeverity.None? {
          var _, read := Reader9.TryGetValue(tempData, "StatusSeverity", Plain(EnumType(SeverityEnum)), converts);
          messageSeverity := AsSeverity(read);
        }
        // the Save purges the entries just read
        tempData.Save();
      }

      // a message without a severity gets one from its wording
      if messageSeverity.None? && !IsNullOrWhiteSpace(message) {
        messageSeverity := if ContainsIgnoreCase(message.value, "Error") then Some(Error) else Some(Normal);
      }
    }

    function GetAlertClass(): (r: string)
      reads this
      ensures r == AlertClass(messageSeverity)
    {
      AlertClass(messageSeverity)
    }
  }
}
