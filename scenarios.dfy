/** End-to-end behaviour of the protocol: a redirect stages a payload and
    saves it, the browser follows, and the next request reads it back from
    a store loaded from the cookie. */
module Scenarios {
  import opened Values
  import opened TempData
  import opened Text
  import opened Status
  import opened Navigation
  import Reader8
  import Reader9
  import Accessor9
  import StatusMessage9
  import StatusDisplay9
  import Redirect9

  /** The store of the request after a redirect that wrote `payload` into a
      store in state `st` and saved it. */
  function NextStore(st: StoreState, payload: map<string, Value>): (next: StoreState)
    ensures next.marked == {}
    ensures forall k :: k in payload ==> Peek(next, k) == Some(OnWire(payload[k]))
  {
    WriteAllThenSaveKeepsPayload(st, payload);
    Reloaded(AfterSave(AfterWriteAll(st, payload)).data)
  }

  lemma WriteAllThenSaveKeepsPayload(st: StoreState, payload: map<string, Value>)
    ensures forall k :: k in payload ==>
              k in AfterSave(AfterWriteAll(st, payload)).data && AfterSave(AfterWriteAll(st, payload)).data[k] == payload[k]
  {
  }

  /** Every non-null payload entry read back with its own type is recovered
      by the 8.0 reader, an enum value through its number. */
  lemma RoundTrip8(st: StoreState, payload: map<string, Value>, k: string, t: TypeTag, converts: EnumConversion)
    requires k in payload && payload[k] != VNull && HasType(payload[k], t)
    requires payload[k].VEnum? ==> converts(payload[k].enumName, payload[k].ordinal)
    ensures Reader8.ReadAs(Peek(NextStore(st, payload), k), t, converts) == Read(true, payload[k])
  {
  }

  /** The 9.0 reader recovers the same entries, except an enum value read as
      a nullable enum: that read fails. */
  lemma RoundTrip9(st: StoreState, payload: map<string, Value>, k: string, t: TypeTag, converts: EnumConversion)
    requires k in payload && payload[k] != VNull && HasType(payload[k], t)
    requires payload[k].VEnum? ==> converts(payload[k].enumName, payload[k].ordinal)
    ensures Reader9.ReadAs(Peek(NextStore(st, payload), k), t, converts) == Read(true, payload[k])
            <==> !(payload[k].VEnum? && t.Nullable?)
    ensures payload[k].VEnum? && t.Nullable? ==>
              Reader9.ReadAs(Peek(NextStore(st, payload), k), t, converts) == Read(false, VNull)
  {
  }

  /** The weather form's round trip: a description and a day of the week
      written before the redirect; a key nobody wrote is reported absent. */
  lemma ForecastRoundTrip(st: StoreState, converts: EnumConversion)
    requires "Nonexistent" !in st.data
    requires converts("DayOfWeek", 2)
    ensures var next := NextStore(st, map["Description" := VStr("Sunny"), "SelectedDay" := VEnum("DayOfWeek", 2)]);
            && Reader9.ReadAs(Peek(next, "Description"), StringType, converts) == Read(true, VStr("Sunny"))
            && Reader9.ReadAs(Peek(next, "SelectedDay"), Plain(EnumType("DayOfWeek")), converts) == Read(true, VEnum("DayOfWeek", 2))
            && Reader8.ReadAs(Peek(next, "SelectedDay"), Nullable(EnumType("DayOfWeek")), converts) == Read(true, VEnum("DayOfWeek", 2))
            && Reader9.ReadAs(Peek(next, "Nonexistent"), StringType, converts) == Read(false, VNull)
  {
    var payload := map["Description" := VStr("Sunny"), "SelectedDay" := VEnum("DayOfWeek", 2)];
    assert "Nonexistent" !in AfterSave(AfterWriteAll(st, payload)).data;
  }

  /** The StatusMessage component shows the message and severity a status
      redirect sent. */
  lemma StatusMessageShowsEnvelope(st: StoreState, message: string, severity: Severity, converts: EnumConversion)
    requires converts(SeverityEnum, Ordinal(severity))
    ensures StatusMessage9.Initialized(Banner(None, None), Some(NextStore(st, Envelope(message, severity))), converts)
            == Banner(Some(message), Some(severity))
  {
    OrdinalRoundTrip(severity);
  }

  // ---- Finding: the 9.0 StatusMessageDisplay loses the severity ----

  /** As written: after a status redirect, StatusMessageDisplay reads the
      severity as `Severity?` through the 9.0 reader, which cannot decode the
      number the cookie holds; the banner shows the inferred severity instead
      of the one sent. */
  lemma DisplayIgnoresSentSeverity(st: StoreState, message: string, severity: Severity, converts: EnumConversion)
    ensures StatusDisplay9.Displayed(Some(NextStore(st, Envelope(message, severity))), converts)
            == Inferred(Banner(Some(message), None))
  {
  }

  /** An instance: "Saved" sent with Success is shown as Normal. */
  lemma SuccessShownAsNormal(st: StoreState, converts: EnumConversion)
    ensures var shown := StatusDisplay9.Displayed(Some(NextStore(st, Envelope("Saved", Success))), converts);
            shown.severity == Some(Normal) && AlertClass(shown.severity) == "alert-secondary"
  {
    DisplayIgnoresSentSeverity(st, "Saved", Success, converts);
    assert !MatchesAt("Saved", "Error", 0) by {
      assert FoldCase("Saved"[0]) != FoldCase("Error"[0]);
    }
  }

  /** A severity number that converts to the enum is stored. */
  predicate NumberStored(st: StoreState, converts: EnumConversion) {
    var found := Peek(st, StatusSeverityKey);
    found.Some? && found.value.VInt? && converts(SeverityEnum, found.value.i)
  }

  /** The banner StatusMessageDisplay would leave if the 9.0 reader looked
      through Nullable<E> as the 8.0 reader does. */
  function DisplayedUnwrapped(st: StoreState, converts: EnumConversion): (b: Banner)
    // the message is the one the component shows as written
    ensures b.message == StatusDisplay9.Displayed(Some(st), converts).message
    // the banner differs only where a severity number that converts is stored, which is now recovered
    ensures NumberStored(st, converts) ==> b.severity == Some(FromOrdinal(Peek(st, StatusSeverityKey).value.i))
    ensures !NumberStored(st, converts) ==> b == StatusDisplay9.Displayed(Some(st), converts)
  {
    Reader9.UnwrappedReaderIsTheIntendedOne(Peek(st, StatusMessageKey), StringType, converts);
    Reader9.UnwrappedReaderIsTheIntendedOne(Peek(st, StatusSeverityKey), Nullable(EnumType(SeverityEnum)), converts);
    var msg := Reader9.ReadAsUnwrapped(Peek(st, StatusMessageKey), StringType, converts);
    var severity := Reader9.ReadAsUnwrapped(Peek(st, StatusSeverityKey), Nullable(EnumType(SeverityEnum)), converts);
    Inferred(Banner(AsString(msg.value), AsSeverity(severity.value)))
  }

  /** Corrected: with the unwrapping reader the banner shows exactly the
      message and severity the redirect sent. */
  lemma UnwrappedDisplayShowsEnvelope(st: StoreState, message: string, severity: Severity, converts: EnumConversion)
    requires converts(SeverityEnum, Ordinal(severity))
    ensures DisplayedUnwrapped(NextStore(st, Envelope(message, severity)), converts) == Banner(Some(message), Some(severity))
  {
    OrdinalRoundTrip(severity);
  }

  // ---- No HttpContext ----

  /** Without an HttpContext a status redirect still navigates, and an
      accessor built the same way finds no data. */
  method MissingContextScenario(nav: NavigationManager, converts: EnumConversion) returns (o: Outcome, found: bool)
    requires nav.staticRendering && nav.ops.isWellFormedRelative("/x")
    ensures o == Navigated("/x")
    ensures !found
  {
    var manager := new Redirect9.BlazorSsrRedirectManager(null, nav);
    o := manager.RedirectToWithStatus("/x", "hi", Normal);
    var accessor := new Accessor9.TempDataAccessor(null);
    var _, _, hasData := accessor.TryGet("StatusMessage", StringType, converts);
    found := hasData || accessor.HasAnyData();
  }
}
