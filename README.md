# Redirect-with-TempData for Blazor static SSR, in Dafny

This project models the protocol that the .NET 8.0 and 9.0 Blazor static-SSR samples use to carry data across a redirect. It also proves properties of that model.

A `BlazorSsrRedirectManager` writes a payload into the request's temp data (ITempDataDictionary), saves it to the response cookie and then redirects. On the next request, a typed `TryGetValue<T>` extension reads the payload back. In 9.0 this can also go through the fluent `TempDataAccessor`, which is chained and then saved. The status components (`StatusMessage` and `StatusMessageDisplay`) read a message and severity envelope, infer a missing severity from the message text, and choose a CSS class.

Modules:

- `Values`: boxed values (`object?`), the type argument `T` of a read, and `default(T)`.
- `TempData`: the store. A lookup marks the key it finds, an assignment writes and keeps the entry, and Save purges the marked keys and commits. The cookie serializer writes an enum as its number. The module also holds the caller's dictionary.
- `Reader8` and `Reader9`: the two `TryGetValue<T>` extensions, plus the corrected 9.0 reader.
- `Accessor9`: the 9.0 `TempDataAccessor`.
- `Navigation`: the `RedirectTo` destination logic and its outcome.
- `Redirect8` and `Redirect9`: the two redirect managers.
- `Text`: `string.IsNullOrWhiteSpace` and the ordinal case-insensitive `Contains`.
- `Status`: `Severity`, the status envelope, inference and `GetAlertClass`.
- `StatusMessage9`: the 9.0 `StatusMessage` component.
- `StatusDisplay8` and `StatusDisplay9`: the two `StatusMessageDisplay` components.
- `Scenarios`: end-to-end redirect and read round trips.

Some library behaviour enters the model as parameters:

- `Enum.ToObject`'s success or failure is a parameter `converts: (string, int) -> bool`.
- The URI library calls (`Uri.IsWellFormedUriString`, `ToBaseRelativePath`, `ToAbsoluteUri`, `GetLeftPart`, `GetUriWithQueryParameters`) are functions carried by the `NavigationManager` value. Nothing is assumed about them.
- Whether the page renders statically decides whether `NavigateTo` redirects. In the model it yields `Navigated(target)`; otherwise the result is `InvalidUsage`, standing for the `InvalidOperationException`.
- A missing HttpContext is a null store.

## Model

| member | source | states |
|---|---|---|
| Values.Default | 8.0/BlazorSsrTempDataExample8/TempDataDictionaryExtensions.cs:60-66 | default(T) is a legal T, and it is null exactly when T admits null |
| Values.IsInstance | 8.0/BlazorSsrTempDataExample8/TempDataDictionaryExtensions.cs:35 | `rawValue is T` never holds for null, and a boxed number is never an instance of an enum or nullable enum type |
| Values.NullableTestMatchesPlain | 9.0/BlazorSsrTempDataExample9/TempDataDictionaryExtensions.cs:18 | a test against `U?` accepts exactly the boxed values a test against `U` accepts |
| Values.UnderlyingEnum | 8.0/BlazorSsrTempDataExample8/TempDataDictionaryExtensions.cs:42 | `Nullable.GetUnderlyingType(typeof(T)) ?? typeof(T)` is an enum exactly for an enum or a nullable enum, and names that enum |
| Values.DirectEnum | 9.0/BlazorSsrTempDataExample9/TempDataDictionaryExtensions.cs:25 | `typeof(T).IsEnum` holds exactly for a plain enum; it agrees with the 8.0 test except on a nullable enum, where they differ |
| TempData.Peek | 8.0/BlazorSsrTempDataExample8/TempDataDictionaryExtensions.cs:23 | the store's lookup finds a value exactly when the key is an entry, and returns that entry |
| TempData.OnWire | 8.0/BlazorSsrTempDataExample8/TempDataDictionaryExtensions.cs:41 | the cookie holds an enum value as its number and every other value unchanged |
| TempData.Reloaded | 8.0/BlazorSsrTempDataExample8/TempDataDictionaryExtensions.cs:41 | the next request's store has exactly the saved keys, each holding the on-wire form of its saved value, and nothing is marked |
| TempData.OperationsKeepConsistent | 8.0/BlazorSsrTempDataExample8/BlazorSsrRedirectManager.cs:48-56 | lookup, assignment, bulk write and Save all keep the marked keys among the entries |
| TempData.LookupsCommute | 9.0/BlazorSsrTempDataExample9/Components/Shared/StatusMessageDisplay.razor.cs:16-19 | a lookup never changes what a later lookup finds, and two lookups give the same state in either order |
| TempData.SavePurgesExactlyTheReadKeys | 9.0/BlazorSsrTempDataExample9/Components/Shared/StatusMessage.razor.cs:37-38 | after a read and a Save the read key is gone, while an unread key keeps its value |
| TempData.WriteAllThenSave | 8.0/BlazorSsrTempDataExample8/BlazorSsrRedirectManager.cs:44-57 | after writing a payload and saving, every payload entry is present with its value; other keys survive exactly when they were unread |
| TempData.SetStep | 8.0/BlazorSsrTempDataExample8/BlazorSsrRedirectManager.cs:48-51 | assigning one more payload key, in any order, advances the partial bulk write by exactly that key |
| TempData.Dictionary.Set | 8.0/BlazorSsrTempDataExample8/BlazorSsrRedirectManager.cs:89-90 | an indexer assignment overwrites or adds one entry and leaves the others |
| TempData.TempStore.constructor | 8.0/BlazorSsrTempDataExample8/BlazorSsrRedirectManager.cs:30 | a request's store starts with the loaded entries, nothing marked and nothing saved, and satisfies the store invariant (only entries are marked) |
| TempData.TempStore.TryGetValue | 8.0/BlazorSsrTempDataExample8/TempDataDictionaryExtensions.cs:22-23 | the lookup returns what Peek finds and marks a found key for deletion; it keeps the store invariant |
| TempData.TempStore.Set | 8.0/BlazorSsrTempDataExample8/BlazorSsrRedirectManager.cs:50 | an assignment writes the entry and unmarks it; it keeps the store invariant |
| TempData.TempStore.Save | 8.0/BlazorSsrTempDataExample8/BlazorSsrRedirectManager.cs:53-56 | Save removes the marked entries, clears the marks and commits the remaining entries; afterwards the store invariant holds |
| Reader8.ReadAs | 8.0/BlazorSsrTempDataExample8/TempDataDictionaryExtensions.cs:20-67 | the result is key presence whatever the conversion; the out value is always a legal T; a stored T comes back unchanged; a number read as an enum or nullable enum becomes that enum value when it converts and is default(T) otherwise; every other case yields default(T) |
| Reader8.TryGetValue | 8.0/BlazorSsrTempDataExample8/TempDataDictionaryExtensions.cs:20-67 | the extension performs one lookup on the store, which marks a found key, and returns ReadAs of what was found |
| Reader8.PresentButUnusable | 8.0/BlazorSsrTempDataExample8/TempDataDictionaryExtensions.cs:51-61 | a present key whose value is null, fails to convert or has the wrong type reads as (true, default(T)) |
| Reader9.ReadAs | 9.0/BlazorSsrTempDataExample9/TempDataDictionaryExtensions.cs:12-42 | true exactly when the key is present, the value is non-null, and the value either is a T or is a number that converts while T itself is an enum; on false the value is default(T); on true it is a non-null T, a stored T unchanged |
| Reader9.TryGetValue | 9.0/BlazorSsrTempDataExample9/TempDataDictionaryExtensions.cs:12-42 | one lookup on the store, which marks a found key, then ReadAs of what was found |
| Reader9.SuccessImpliesPresence | 9.0/BlazorSsrTempDataExample9/TempDataDictionaryExtensions.cs:15-41 | when 9.0 succeeds, 8.0 returns the same result; 8.0 says true where 9.0 says false exactly for a present key holding null or something 9.0 cannot obtain |
| Reader9.ValuesDifferOnlyForNullableEnum | 9.0/BlazorSsrTempDataExample9/TempDataDictionaryExtensions.cs:25 | the two readers' out values differ exactly when a number that converts is read as a nullable enum |
| Reader9.ReadAsUnwrapped | 9.0/BlazorSsrTempDataExample9/TempDataDictionaryExtensions.cs:12-42 | corrected 9.0 reader: it succeeds exactly on a non-null T, or on a number that converts into T's underlying enum (nullable included) |
| Reader9.UnwrappedReaderIsTheIntendedOne | 9.0/BlazorSsrTempDataExample9/TempDataDictionaryExtensions.cs:25 | the corrected reader equals 9.0 except for nullable enums, always yields 8.0's value, and recovers a nullable enum stored as its number |
| Accessor9.AnyTrueMeansSomeTrue | 9.0/BlazorSsrTempDataExample9/TempDataAccessor.cs:49 | the OR-accumulated flag holds exactly when some read in the log found data |
| Accessor9.AnyTrueAppend | 9.0/BlazorSsrTempDataExample9/TempDataAccessor.cs:49 | one more read ORs its flag into the summary |
| Accessor9.AnyTrueSticky | 9.0/BlazorSsrTempDataExample9/TempDataAccessor.cs:49 | once data was found, every longer chain of reads has found data |
| Accessor9.Fetched | 9.0/BlazorSsrTempDataExample9/TempDataAccessor.cs:39-57 | without a store the result is (false, defaultValue); otherwise the flag is 9.0's result; the value is the read T on success and defaultValue otherwise |
| Accessor9.TempDataAccessor.constructor | 9.0/BlazorSsrTempDataExample9/TempDataAccessor.cs:13-24 | the accessor holds the context's store (null without HttpContext), and no data has been found yet |
| Accessor9.TempDataAccessor.TryGet | 9.0/BlazorSsrTempDataExample9/TempDataAccessor.cs:39-57 | returns this accessor and the result of Fetched on the old store, with default(T) as the default unless one is given; ORs the flag into HasAnyData; the store records exactly one lookup and no Save |
| Accessor9.TempDataAccessor.HasAnyData | 9.0/BlazorSsrTempDataExample9/TempDataAccessor.cs:62 | true exactly when some TryGet so far found data |
| Accessor9.TempDataAccessor.Save | 9.0/BlazorSsrTempDataExample9/TempDataAccessor.cs:67-70 | forwards to the store's Save when there is a store |
| Navigation.Destination | 8.0/BlazorSsrTempDataExample8/BlazorSsrRedirectManager.cs:139-145 | null becomes ""; a well-formed relative URI is kept, anything else is replaced by its base-relative path |
| Navigation.Redirect | 8.0/BlazorSsrTempDataExample8/BlazorSsrRedirectManager.cs:137-151 | the redirect navigates exactly under static rendering, to Destination; otherwise it is the invalid-usage exception |
| Navigation.NullIsEmpty | 8.0/BlazorSsrTempDataExample8/BlazorSsrRedirectManager.cs:139 | redirecting to null is redirecting to "" |
| Navigation.RawTargetOnlyIfRelative | 9.0/BlazorSsrTempDataExample9/BlazorSsrRedirectManager.cs:132-136 | a raw destination reaches NavigateTo unchanged only when it is well-formed relative or its base-relative path is itself |
| Redirect8.BlazorSsrRedirectManager.constructor | 8.0/BlazorSsrTempDataExample8/BlazorSsrRedirectManager.cs:20-34 | the manager holds the context's store (null without HttpContext) and the navigation manager |
| Redirect8.BlazorSsrRedirectManager.CurrentPath | 8.0/BlazorSsrTempDataExample8/BlazorSsrRedirectManager.cs:14-15 | `CurrentPathKeepQuery` and `CurrentPathWithoutQuery` with the choice of line 100: keepQuery selects the absolute current URI, otherwise the absolute current URI without its query |
| Redirect8.BlazorSsrRedirectManager.RedirectToWithTempData | 8.0/BlazorSsrTempDataExample8/BlazorSsrRedirectManager.cs:42-60 | with a store, every payload entry is written, then one Save commits; then the redirect to uri happens |
| Redirect8.BlazorSsrRedirectManager.RedirectToWithStatus | 8.0/BlazorSsrTempDataExample8/BlazorSsrRedirectManager.cs:69-77 | the payload is exactly the status envelope |
| Redirect8.BlazorSsrRedirectManager.RedirectToWithStatusAndTempData | 8.0/BlazorSsrTempDataExample8/BlazorSsrRedirectManager.cs:87-92 | the caller's dictionary gains the envelope, overriding those two keys, and it is the payload |
| Redirect8.BlazorSsrRedirectManager.RedirectToCurrentPage | 8.0/BlazorSsrTempDataExample8/BlazorSsrRedirectManager.cs:99-100 | redirects to CurrentPath(keepQuery), with keepQuery defaulting to true |
| Redirect8.BlazorSsrRedirectManager.RedirectToCurrentPageWithTempData | 8.0/BlazorSsrTempDataExample8/BlazorSsrRedirectManager.cs:108-109 | RedirectToWithTempData to CurrentPath(keepQuery) |
| Redirect8.BlazorSsrRedirectManager.RedirectToCurrentPageWithStatus | 8.0/BlazorSsrTempDataExample8/BlazorSsrRedirectManager.cs:118-119 | the status redirect to CurrentPath(keepQuery) |
| Redirect8.BlazorSsrRedirectManager.RedirectToCurrentPageWithStatusAndTempData | 8.0/BlazorSsrTempDataExample8/BlazorSsrRedirectManager.cs:129-130 | the status-and-data redirect to CurrentPath(keepQuery) |
| Redirect8.BlazorSsrRedirectManager.RedirectTo | 8.0/BlazorSsrTempDataExample8/BlazorSsrRedirectManager.cs:137-151 | the step-by-step normalisation reaches the outcome Redirect describes |
| Redirect8.BlazorSsrRedirectManager.RedirectToWithQuery | 8.0/BlazorSsrTempDataExample8/BlazorSsrRedirectManager.cs:159-164 | drops the uri's query, adds the parameters, then redirects there |
| Redirect9.BlazorSsrRedirectManager.constructor | 9.0/BlazorSsrTempDataExample9/BlazorSsrRedirectManager.cs:16-30 | the manager holds the context's store (null without HttpContext) and the navigation manager |
| Redirect9.BlazorSsrRedirectManager.CurrentPathInclQuery | 9.0/BlazorSsrTempDataExample9/BlazorSsrRedirectManager.cs:14 | the current page is the current URI made base-relative, query included |
| Redirect9.BlazorSsrRedirectManager.RedirectToWithTempData | 9.0/BlazorSsrTempDataExample9/BlazorSsrRedirectManager.cs:38-56 | with a store, every payload entry is written, then one Save commits; then the redirect to uri happens |
| Redirect9.BlazorSsrRedirectManager.RedirectToWithStatus | 9.0/BlazorSsrTempDataExample9/BlazorSsrRedirectManager.cs:65-73 | the payload is exactly the status envelope |
| Redirect9.BlazorSsrRedirectManager.RedirectToWithStatusAndTempData | 9.0/BlazorSsrTempDataExample9/BlazorSsrRedirectManager.cs:83-88 | the caller's dictionary gains the envelope, overriding those two keys, and it is the payload |
| Redirect9.BlazorSsrRedirectManager.RedirectToCurrentPageKeepQuery | 9.0/BlazorSsrTempDataExample9/BlazorSsrRedirectManager.cs:94 | redirects to the current URI made base-relative, query included |
| Redirect9.BlazorSsrRedirectManager.RedirectToCurrentPageWithTempData | 9.0/BlazorSsrTempDataExample9/BlazorSsrRedirectManager.cs:101-102 | RedirectToWithTempData to the base-relative current URI |
| Redirect9.BlazorSsrRedirectManager.RedirectToCurrentPageWithStatus | 9.0/BlazorSsrTempDataExample9/BlazorSsrRedirectManager.cs:110-111 | the status redirect to the base-relative current URI |
| Redirect9.BlazorSsrRedirectManager.RedirectToCurrentPageWithStatusAndTempData | 9.0/BlazorSsrTempDataExample9/BlazorSsrRedirectManager.cs:120-121 | the status-and-data redirect to the base-relative current URI |
| Redirect9.BlazorSsrRedirectManager.RedirectTo | 9.0/BlazorSsrTempDataExample9/BlazorSsrRedirectManager.cs:128-142 | the step-by-step normalisation reaches the outcome Redirect describes |
| Redirect9.BlazorSsrRedirectManager.RedirectToWithQuery | 9.0/BlazorSsrTempDataExample9/BlazorSsrRedirectManager.cs:150-155 | drops the uri's query, adds the parameters, then redirects there |
| Text.AllWhiteSpace | 9.0/BlazorSsrTempDataExample9/Components/Shared/StatusMessage.razor.cs:22 | true exactly when every character is Unicode white space |
| Text.IsWhiteSpace | 9.0/BlazorSsrTempDataExample9/Components/Shared/StatusMessage.razor.cs:22 | among ASCII characters exactly space, tab, line feed, vertical tab, form feed and carriage return are white space; no letter is |
| Text.IsNullOrWhiteSpace | 9.0/BlazorSsrTempDataExample9/Components/Shared/StatusMessage.razor.cs:22 | true exactly for null, "" and all-white-space strings |
| Text.ContainsIgnoreCase | 9.0/BlazorSsrTempDataExample9/Components/Shared/StatusMessage.razor.cs:45 | true exactly when some slice of the message equals the pattern, ignoring case |
| Text.MatchesInTail | 9.0/BlazorSsrTempDataExample9/Components/Shared/StatusMessage.razor.cs:45 | a match past the first position is a match in the tail, one position earlier, in both directions |
| Text.ContainsIgnoresCase | 9.0/BlazorSsrTempDataExample9/Components/Shared/StatusMessage.razor.cs:45 | two messages that differ only in letter case give the same answer |
| Status.FromOrdinal | 8.0/BlazorSsrTempDataExample8/BlazorSsrRedirectManager.cs:166-173 | `(Severity)n` is the severity numbered n; the type `Severity` spells each number one way, by its name for 0 to 4 |
| Status.OrdinalRoundTrip | 8.0/BlazorSsrTempDataExample8/BlazorSsrRedirectManager.cs:166-173 | converting a severity to its number and back gives the same severity |
| Status.ToValue | 8.0/BlazorSsrTempDataExample8/BlazorSsrRedirectManager.cs:73 | a severity is boxed as a value of the enum `Severity` with its number, and unboxing it gives the severity back |
| Status.AsString | 9.0/BlazorSsrTempDataExample9/Components/Shared/StatusMessage.razor.cs:28-29 | a read value is a string exactly when it is a stored string |
| Status.AsSeverity | 9.0/BlazorSsrTempDataExample9/Components/Shared/StatusMessage.razor.cs:33-34 | a read value is a severity exactly when it is an enum value, and the severity has that number |
| Status.Envelope | 8.0/BlazorSsrTempDataExample8/BlazorSsrRedirectManager.cs:71-74 | the envelope has exactly the keys "StatusMessage" and "StatusSeverity", holding the message and the severity |
| Status.InferSeverity | 9.0/BlazorSsrTempDataExample9/Components/Shared/StatusMessage.razor.cs:42-47 | a given severity is kept; a blank message stays without one; otherwise the severity is Error exactly when "Error" occurs in any case, and Normal in every other case |
| Status.Inferred | 9.0/BlazorSsrTempDataExample9/Components/Shared/StatusMessageDisplay.razor.cs:24-29 | the inference step changes only the severity, as InferSeverity says |
| Status.InferenceIsIdempotent | 9.0/BlazorSsrTempDataExample9/Components/Shared/StatusMessage.razor.cs:42-47 | inferring twice is inferring once |
| Status.AlertClass | 9.0/BlazorSsrTempDataExample9/Components/Shared/StatusMessage.razor.cs:50-60 | each of Success, Info, Warning and Error has its own class, in both directions; everything else is "alert-secondary"; by number, exactly the severities 1 to 4 get a class of their own, so `(Severity)4` is "alert-danger" |
| StatusMessage9.ConsultsStore | 9.0/BlazorSsrTempDataExample9/Components/Shared/StatusMessage.razor.cs:22 | temp data is read only with an HttpContext; it is left alone when both parameters are set, and read whenever the severity is missing |
| StatusMessage9.Loaded | 9.0/BlazorSsrTempDataExample9/Components/Shared/StatusMessage.razor.cs:26-35 | a non-blank parameter message is kept, a blank one is replaced by the stored string; a given severity is kept, a missing one always becomes a severity, Normal when none is stored |
| StatusMessage9.Initialized | 9.0/BlazorSsrTempDataExample9/Components/Shared/StatusMessage.razor.cs:20-48 | non-blank message and non-null severity parameters always survive |
| StatusMessage9.InferenceOnlyWithoutContext | 9.0/BlazorSsrTempDataExample9/Components/Shared/StatusMessage.razor.cs:31-47 | when the store is consulted, the severity is never null, so inference has no effect |
| StatusMessage9.ErrorMessageShownAsNormal | 9.0/BlazorSsrTempDataExample9/Components/Shared/StatusMessage.razor.cs:31-35 | as written: the message "Error" passed without a severity, with no severity in temp data, is shown as Normal with "alert-secondary" |
| StatusMessage9.LoadedChecked | 9.0/BlazorSsrTempDataExample9/Components/Shared/StatusMessage.razor.cs:31-35 | corrected: a missing severity takes the stored one exactly when the read succeeds; the message is loaded as before |
| StatusMessage9.CheckedReadInfersMissingSeverity | 9.0/BlazorSsrTempDataExample9/Components/Shared/StatusMessage.razor.cs:42-47 | corrected: the result equals the as-written one when a severity can be read, and is the inferred severity when none can |
| StatusMessage9.ErrorMessageShownAsError | 9.0/BlazorSsrTempDataExample9/Components/Shared/StatusMessage.razor.cs:42-47 | corrected: the message "Error" without a severity is shown as Error with "alert-danger" |
| StatusMessage9.StatusMessage.constructor | 9.0/BlazorSsrTempDataExample9/Components/Shared/StatusMessage.razor.cs:12-18 | the component holds the store and its two parameters |
| StatusMessage9.StatusMessage.OnInitialized | 9.0/BlazorSsrTempDataExample9/Components/Shared/StatusMessage.razor.cs:20-48 | the banner is Initialized of the parameters and the old store; when the store is consulted, the reads are followed by one Save, and otherwise the store is untouched |
| StatusMessage9.StatusMessage.GetAlertClass | 9.0/BlazorSsrTempDataExample9/Components/Shared/StatusMessage.razor.cs:50-60 | the class of the current severity |
| StatusDisplay8.StatusMessageDisplay.constructor | 8.0/BlazorSsrTempDataExample8/Components/Shared/StatusMessageDisplay.razor.cs:10-15 | nothing to show before initialisation |
| StatusDisplay8.StatusMessageDisplay.OnInitialized | 8.0/BlazorSsrTempDataExample8/Components/Shared/StatusMessageDisplay.razor.cs:17-33 | the banner is the read message and severity with a missing severity inferred |
| StatusDisplay8.StatusMessageDisplay.GetAlertClass | 8.0/BlazorSsrTempDataExample8/Components/Shared/StatusMessageDisplay.razor.cs:35-45 | the class of the current severity |
| StatusDisplay9.Displayed | 9.0/BlazorSsrTempDataExample9/Components/Shared/StatusMessageDisplay.razor.cs:14-30 | without HttpContext nothing is shown; a non-blank message always has a severity |
| StatusDisplay9.ReadFlags | 9.0/BlazorSsrTempDataExample9/Components/Shared/StatusMessageDisplay.razor.cs:16-18 | the two reads' `hasData` flags: both false without an HttpContext; the message read finds data exactly when a string is stored under "StatusMessage" |
| StatusDisplay9.StatusMessageDisplay.constructor | 9.0/BlazorSsrTempDataExample9/Components/Shared/StatusMessageDisplay.razor.cs:9-12 | the component holds its accessor and shows nothing yet |
| StatusDisplay9.StatusMessageDisplay.OnInitialized | 9.0/BlazorSsrTempDataExample9/Components/Shared/StatusMessageDisplay.razor.cs:14-30 | the banner is Displayed of the old store; the accessor logs the two reads' flags, ORs them into HasAnyData and stays valid; the store sees two lookups, then one Save |
| StatusDisplay9.StatusMessageDisplay.GetAlertClass | 9.0/BlazorSsrTempDataExample9/Components/Shared/StatusMessageDisplay.razor.cs:32-42 | the class of the current severity |
| Scenarios.NextStore | 8.0/BlazorSsrTempDataExample8/BlazorSsrRedirectManager.cs:42-60 | after a redirect with a payload, the next request's store holds every payload entry in its on-wire form, with nothing marked |
| Scenarios.WriteAllThenSaveKeepsPayload | 8.0/BlazorSsrTempDataExample8/BlazorSsrRedirectManager.cs:48-56 | the saved data holds every payload entry |
| Scenarios.RoundTrip8 | 8.0/BlazorSsrTempDataExample8/TempDataDictionaryExtensions.cs:20-67 | every non-null payload entry read back with its type comes back as (true, entry), enums included |
| Scenarios.RoundTrip9 | 9.0/BlazorSsrTempDataExample9/TempDataDictionaryExtensions.cs:12-42 | the 9.0 round trip succeeds exactly unless an enum entry is read as a nullable enum, which reads as (false, null) |
| Scenarios.ForecastRoundTrip | 9.0/BlazorSsrTempDataExample9/Components/Pages/Forecast.razor.cs:23-24 | the weather form's description and day come back; the 8.0 nullable-day read works too; an unwritten key reads as absent |
| Scenarios.StatusMessageShowsEnvelope | 9.0/BlazorSsrTempDataExample9/Components/Shared/StatusMessage.razor.cs:31-35 | after a status redirect, StatusMessage shows exactly the message and severity sent |
| Scenarios.DisplayIgnoresSentSeverity | 9.0/BlazorSsrTempDataExample9/Components/Shared/StatusMessageDisplay.razor.cs:18 | as written: after a status redirect, the 9.0 display shows the message with the inferred severity, whatever severity was sent |
| Scenarios.SuccessShownAsNormal | 9.0/BlazorSsrTempDataExample9/Components/Shared/StatusMessageDisplay.razor.cs:18 | as written: "Saved" sent with Success is shown as Normal, with class "alert-secondary" |
| Scenarios.DisplayedUnwrapped | 9.0/BlazorSsrTempDataExample9/TempDataDictionaryExtensions.cs:25 | the display with the corrected reader shows the same message, and the same banner unless a convertible severity number is stored, which it recovers |
| Scenarios.UnwrappedDisplayShowsEnvelope | 9.0/BlazorSsrTempDataExample9/TempDataDictionaryExtensions.cs:25 | corrected: with the unwrapping reader the display shows exactly the message and severity sent |
| Scenarios.MissingContextScenario | 9.0/BlazorSsrTempDataExample9/BlazorSsrRedirectManager.cs:19-22 | without HttpContext a status redirect still navigates, and an accessor finds no data |

## Left out

- URI parsing: `Uri.IsWellFormedUriString`, `ToBaseRelativePath`, `ToAbsoluteUri`, `GetLeftPart` and `GetUriWithQueryParameters` are uninterpreted functions, so nothing is proved about their results.
- Navigation.Destination: the `ArgumentException` that `ToBaseRelativePath` throws for a URI outside the base is not modelled; the call is treated as total.
- `NavigateTo` and the exception flow: each redirect yields an `Outcome` value instead of throwing `NavigationException` or `InvalidOperationException`. `InvalidUsage` does not record the target that was attempted.
- The cookie temp-data provider is reduced to one fact: an enum is serialised as its number. Everything else is outside the model: size limits, the JSON serializer's handling of other types (for example, DateTime or arrays), encryption and chunking.
- Keep and Peek of ITempDataDictionary, and the implicit save at the end of a request: this code never calls them.
- Logging of a null HttpContext, DI registration (Program.cs) and the rendering of the `.razor` markup.
- The page components (Home, Forecast): only their reads and writes appear, as scenarios.
- The 8.0 TempDataAccessor is not part of this model. StatusDisplay8.StatusMessageDisplay.OnInitialized takes the values that its reads return as inputs.
- Text.ContainsIgnoreCase: case folding covers ASCII letters only, while .NET's ordinal ignore-case comparison folds all of Unicode. This is exact for the pattern "Error", because no non-ASCII character folds to E, R or O.
- Status.Severity: Int32 width is not modelled. An enum number is an unbounded integer, and `converts` decides which numbers `Enum.ToObject` accepts.
- The class comment of `StatusMessage` (9.0 StatusMessage.razor.cs:8-10) says that temp data is not read when Message or MessageSeverity is passed. The code reads it unless both are set (line 22). The model follows the code.
- Redirect8.BlazorSsrRedirectManager.RedirectToWithTempData: the entries are written in an arbitrary order, not the dictionary's enumeration order. Because the keys are distinct, the resulting state is the same.
- The XML comment of `TempDataAccessor.TryGet` (9.0 TempDataAccessor.cs:36-37) says that hasData is true for a present key whose value cannot be cast. The code does not behave that way: it returns the 9.0 reader's result, which is false there. The model follows the code.

## Findings

| source | as written | input that shows it | evidently intended | confidence | as-written member | corrected member |
|---|---|---|---|---|---|---|
| 9.0/BlazorSsrTempDataExample9/TempDataDictionaryExtensions.cs:25 | The enum branch tests `typeof(T).IsEnum`, which is false for `Severity?`. The 9.0 StatusMessageDisplay (StatusMessageDisplay.razor.cs:18) reads "StatusSeverity" as `Severity?`, so the number that the cookie holds is never converted back. The severity comes out null and the message-based inference replaces it. | RedirectToWithStatus(uri, "Saved", Severity.Success), then the next request's StatusMessageDisplay shows severity Normal, class "alert-secondary", instead of "alert-success" | Test `Nullable.GetUnderlyingType(typeof(T)) ?? typeof(T)`, as the 8.0 extension does (8.0 TempDataDictionaryExtensions.cs:42-43), so that the sent severity is shown | not executed | Scenarios.SuccessShownAsNormal | Scenarios.UnwrappedDisplayShowsEnvelope |
| 9.0/BlazorSsrTempDataExample9/Components/Shared/StatusMessage.razor.cs:33-34 | A missing severity is read with `TryGetValue<Severity>`, and the result is ignored. When the read fails, `MessageSeverity` still receives default(Severity), which is Normal. The inference at lines 42-47 therefore never runs when there is an HttpContext. | `<StatusMessage Message="Error" />` rendered during static SSR, with no "StatusSeverity" in temp data, is shown as Normal with "alert-secondary" instead of "alert-danger" | Assign the severity only when the read succeeds, so that a missing one is inferred from the message, as the comment at line 42 describes | not executed | StatusMessage9.ErrorMessageShownAsNormal | StatusMessage9.ErrorMessageShownAsError |
