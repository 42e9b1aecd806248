/** The 8.0 sample's StatusMessageDisplay component. It reads the envelope
    through the 8.0 TempDataAccessor, which is not part of this model: what
    that accessor hands back is taken as the input of OnInitialized. */
module StatusDisplay8 {
  import opened Values
  import opened Text
  import opened Status

  class StatusMessageDisplay {
    var statusMessage: Option<string>
    var statusSeverity: Option<Severity>

    constructor ()
      ensures statusMessage.None? && statusSeverity.None?
    {
      statusMessage := None;
      statusSeverity := None;
    }

    /** OnInitialized after its read chain produced `msg` and `severity`:
        the fields take the values read, then a missing severity of a
        non-blank message is inferred. */
    method OnInitialized(msg: Option<string>, severity: Option<Severity>)
      modifies this
      ensures Banner(statusMessage, statusSeverity) == Inferred(Banner(msg, severity))
    {
      statusMessage := msg;
      statusSeverity := severity;

      if statusSeverity.None? && !IsNullOrWhiteSpace(statusMessage) {
        // a message without a severity gets one from its wording
        statusSeverity := if ContainsIgnoreCase(statusMessage.value, "Error") then Some(Error) else Some(Normal);
      }
    }

    function GetAlertClass(): (r: string)
      reads this
      ensures r == AlertClass(statusSeverity)
    {
      AlertClass(statusSeverity)
    }
  }
}
