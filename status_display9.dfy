/** The 9.0 sample's StatusMessageDisplay component: reads the envelope
    through the TempDataAccessor (message as `string?`, severity as
    `Severity?`), saves, then infers a missing severity. */
module StatusDisplay9 {
  import opened Values
  import opened TempData
  import opened Text
  import opened Status
  import Accessor9

  /** The banner OnInitialized leaves when the accessor's store is in state
      `store` (None: no HttpContext). */
  function Displayed(store: Option<StoreState>, converts: EnumConversion): (b: Banner)
    // without an HttpContext there is nothing to show
    ensures store.None? ==> b == Banner(None, None)
    // a non-blank message always ends up with a severity
    ensures !IsNullOrWhiteSpace(b.message) ==> b.severity.Some?
  {
    var msg := Accessor9.Fetched(store, StatusMessageKey, StringType, converts, VNull);
    var severity := Accessor9.Fetched(store, StatusSeverityKey, Nullable(EnumType(SeverityEnum)), converts, VNull);
    Inferred(Banner(AsString(msg.value), AsSeverity(severity.value)))
  }

  /** The `hasData` flags of the two reads, in order. */
  function ReadFlags(store: Option<StoreState>, converts: EnumConversion): (flags: seq<bool>)
    ensures |flags| == 2
    // without an HttpContext neither read finds data
    ensures store.None? ==> flags == [false, false]
    // the message read finds data exactly when a string is stored under its key
    ensures store.Some? ==> (flags[0] <==> Peek(store.value, StatusMessageKey).Some?
                                           && Peek(store.value, StatusMessageKey).value.VStr?)
  {
    [Accessor9.Fetched(store, StatusMessageKey, StringType, converts, VNull).ok,
     Accessor9.Fetched(store, StatusSeverityKey, Nullable(EnumType(SeverityEnum)), converts, VNull).ok]
  }

  class StatusMessageDisplay {
    const tempDataAccessor: Accessor9.TempDataAccessor
    var statusMessage: Option<string>
    var statusSeverity: Option<Severity>

    constructor (tempDataAccessor: Accessor9.TempDataAccessor)
      ensures this.tempDataAccessor == tempDataAccessor
      ensures statusMessage.None? && statusSeverity.None?
    {
      this.tempDataAccessor := tempDataAccessor;
      statusMessage := None;
      statusSeverity := None;
    }

    method OnInitialized(converts: EnumConversion)
      requires tempDataAccessor.Valid()
      modifies this, tempDataAccessor, tempDataAccessor.tempData
      ensures Banner(statusMessage, statusSeverity) == Displayed(old(tempDataAccessor.Store()), converts)
      // the accessor records both reads and stays usable
      ensures tempDataAccessor.Valid()
      ensures tempDataAccessor.hasDataLog
              == old(tempDataAccessor.hasDataLog) + ReadFlags(old(tempDataAccessor.Store()), converts)
      ensures tempDataAccessor.hasAnyData
              == (old(tempDataAccessor.hasAnyData) || true in ReadFlags(old(tempDataAccessor.Store()), converts))
      // two lookups, then one Save
      ensures tempDataAccessor.tempData != null ==>
                tempDataAccessor.tempData.State()
                == AfterSave(AfterLookup(AfterLookup(old(tempDataAccessor.tempData.State()), StatusMessageKey), StatusSeverityKey))
                && tempDataAccessor.tempData.saved == old(tempDataAccessor.tempData.saved) + [tempDataAccessor.tempData.data]
    {
      ghost var st0 := tempDataAccessor.Store();
      var accessor, msg, _ := tempDataAccessor.TryGet("StatusMessage", StringType, converts);
      if st0.Some? {
        LookupsCommute(st0.value, StatusMessageKey, StatusSeverityKey);
      }
      var accessor', severity, _ := accessor.TryGet("StatusSeverity", Nullable(EnumType(SeverityEnum)), converts);
      accessor'.Save();

      statusMessage := AsString(msg);
      statusSeverity := AsSeverity(severity);

      if statusSeverity.None? && !IsNullOrWhiteSpace(statusMessage) {
        // a message without a severity gets one from its wording
        statusSeverity := if ContainsIgnoreCase(statusMessage.value, "Error") then Some(Error) else Some(Normal);
      }
    }

    function GetAlertClass(): (r: string)
      reads this
      ensures r == AlertClass(statusSeverity)
    {
      AlertClass(statusSeverity)
    }
  }
}
