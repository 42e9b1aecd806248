/** The 9.0 sample's BlazorSsrRedirectManager: stage a payload in temp
    data, save it, then redirect. The current-page variants always target
    the current URI made base-relative, query included. */
module Redirect9 {
  import opened Values
  import opened TempData
  import opened Navigation
  import opened Status

  class BlazorSsrRedirectManager {
    /** The request's temp data; null when there was no HttpContext. */
    const tempData: TempStore?
    const navigationManager: NavigationManager

    constructor (contextStore: TempStore?, navigationManager: NavigationManager)
      ensures tempData == contextStore && this.navigationManager == navigationManager
    {
      tempData := contextStore;
      this.navigationManager := navigationManager;
    }

    /** The current URI made base-relative, query included. */
    function CurrentPathInclQuery(): (path: string)
      ensures path == navigationManager.ops.toBaseRelativePath(navigationManager.uri)
    {
      navigationManager.ops.toBaseRelativePath(navigationManager.uri)
    }

    /** Writes every entry of `data` into temp data, saves once, then
        redirects. Without temp data only the redirect happens. */
    method RedirectToWithTempData(uri: string, data: Dictionary) returns (o: Outcome)
      modifies tempData
      ensures tempData != null ==> tempData.State() == AfterSave(AfterWriteAll(old(tempData.State()), data.entries))
      ensures tempData != null ==> tempData.saved == old(tempData.saved) + [tempData.data]
      ensures o == Redirect(navigationManager, Some(uri))
    {
      if tempData != null {
        var pending := data.entries.Keys;
        while pending != {}
          invariant pending <= data.entries.Keys
          invariant tempData.State() == AfterWriteAll(old(tempData.State()), data.entries - pending)
          invariant tempData.saved == old(tempData.saved)
          decreases pending
        {
          var key :| key in pending;
          SetStep(old(tempData.State()), data.entries, pending, key);
          tempData.Set(key, data.entries[key]);
          pending := pending - {key};
        }
        assert data.entries - {} == data.entries;
        tempData.Save();
      }
      o := RedirectTo(Some(uri));
    }

    /** Redirects with exactly the status envelope as payload. */
    method RedirectToWithStatus(uri: string, message: string, severity: Severity) returns (o: Outcome)
      modifies tempData
      ensures tempData != null ==> tempData.State() == AfterSave(AfterWriteAll(old(tempData.State()), Envelope(message, severity)))
      ensures tempData != null ==> tempData.saved == old(tempData.saved) + [tempData.data]
      ensures o == Redirect(navigationManager, Some(uri))
    {
      var data := new Dictionary(map["StatusMessage" := VStr(message), "StatusSeverity" := ToValue(severity)]);
      o := RedirectToWithTempData(uri, data);
    }

    /** Puts the status envelope into the caller's dictionary, over any
        entries it had under those keys, then redirects with it. */
    method RedirectToWithStatusAndTempData(uri: string, message: string, severity: Severity, data: Dictionary)
      returns (o: Outcome)
      modifies data, tempData
      ensures data.entries == old(data.entries) + Envelope(message, severity)
      ensures tempData != null ==> tempData.State() == AfterSave(AfterWriteAll(old(tempData.State()), data.entries))
      ensures tempData != null ==> tempData.saved == old(tempData.saved) + [tempData.data]
      ensures o == Redirect(navigationManager, Some(uri))
    {
      data.Set("StatusMessage", VStr(message));
      data.Set("StatusSeverity", ToValue(severity));
      o := RedirectToWithTempData(uri, data);
    }

    method RedirectToCurrentPageKeepQuery() returns (o: Outcome)
      ensures o == Redirect(navigationManager, Some(CurrentPathInclQuery()))
    {
      o := RedirectTo(Some(CurrentPathInclQuery()));
    }

    method RedirectToCurrentPageWithTempData(data: Dictionary) returns (o: Outcome)
      modifies tempData
      ensures tempData != null ==> tempData.State() == AfterSave(AfterWriteAll(old(tempData.State()), data.entries))
      ensures tempData != null ==> tempData.saved == old(tempData.saved) + [tempData.data]
      ensures o == Redirect(navigationManager, Some(CurrentPathInclQuery()))
    {
      o := RedirectToWithTempData(CurrentPathInclQuery(), data);
    }

    method RedirectToCurrentPageWithStatus(message: string, severity: Severity) returns (o: Outcome)
      modifies tempData
      ensures tempData != null ==> tempData.State() == AfterSave(AfterWriteAll(old(tempData.State()), Envelope(message, severity)))
      ensures tempData != null ==> tempData.saved == old(tempData.saved) + [tempData.data]
      ensures o == Redirect(navigationManager, Some(CurrentPathInclQuery()))
    {
      o := RedirectToWithStatus(CurrentPathInclQuery(), message, severity);
    }

    method RedirectToCurrentPageWithStatusAndTempData(message: string, severity: Severity, data: Dictionary)
      returns (o: Outcome)
      modifies data, tempData
      ensures data.entries == old(data.entries) + Envelope(message, severity)
      ensures tempData != null ==> tempData.State() == AfterSave(AfterWriteAll(old(tempData.State()), data.entries))
      ensures tempData != null ==> tempData.saved == old(tempData.saved) + [tempData.data]
      ensures o == Redirect(navigationManager, Some(CurrentPathInclQuery()))
    {
      o := RedirectToWithStatusAndTempData(CurrentPathInclQuery(), message, severity, data);
    }

    /** `RedirectTo(string? uri)`: normalises the destination, then navigates;
        it never returns normally. */
    method RedirectTo(uri: Option<string>) returns (o: Outcome)
      ensures o == Redirect(navigationManager, uri)
    {
      var u := if uri.Some? then uri.value else "";
      // only a relative destination is navigated to as given
      if !navigationManager.ops.isWellFormedRelative(u) {
        u := navigationManager.ops.toBaseRelativePath(u);
      }
      if navigationManager.staticRendering {
        o := Navigated(u);
      } else {
        o := InvalidUsage;
      }
    }

    /** `RedirectTo(uri, queryParameters)`: drops the query of `uri`, adds
        the given parameters, and redirects there. */
    method RedirectToWithQuery(uri: string, queryParameters: map<string, Value>) returns (o: Outcome)
      ensures o == Redirect(navigationManager,
                            Some(navigationManager.ops.withQueryParameters(navigationManager.ops.pathWithoutQuery(uri), queryParameters)))
    {
      var uriWithoutQuery := navigationManager.ops.pathWithoutQuery(uri);
      var newUri := navigationManager.ops.withQueryParameters(uriWithoutQuery, queryParameters);
      o := RedirectTo(Some(newUri));
    }
  }
}
