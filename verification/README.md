# CNPJ lead-generation client, modelled in Dafny

This project models the browser client of a CNPJ (Brazilian company registry)
lead-generation service. The client is a React single-page application. Users
build a company search, send its results by e-mail, and browse the files they
have extracted. Administrators manage users, leads, plans, services, allowed
CORS domains and e-mail templates.

The model keeps the client's decision logic and leaves out its rendering,
network and timers:

- **Search payload.** The search form becomes a sparse query object (module
  `SearchPayload`).
- **Tag lists.** The form's string lists are edited one tag at a time, with
  per-field validators (`TagEditing`).
- **Send-by-e-mail dialog.** The address box is split into recipients
  (`SendEmail`).
- **Autocomplete input.** A state machine over discrete events (`Autocomplete`).
- **Extracted files.** The search, filter and pagination of the file list, and
  the document-access filter (`FileList`).
- **Admin hooks.** Each admin hook becomes a pure `Handle` function from
  (state, event) to (state, request). A request is the API call the hook
  would make. Each hook's list view is a filter-then-paginate function, and
  each mock state hook is an in-memory CRUD list. The modules are
  `CatalogAdmin` (plans and services), `DomainAdmin`, `LeadAdmin`,
  `UserAdmin` (with the `createUser` service and the new-user form) and
  `EmailTemplates` (with both template dialogs).
- **Page controls.** The plan and template pagination controls
  (`PageControls`).
- **Authentication.** The login, forgot-password and reset-password pages, the
  authentication context and the route guard (`Auth`, `EmailRules`).

Shared vocabulary lives in small modules:

- `Wrappers`: `Option`.
- `Lists`: filter (which keeps order and every copy), map, keyed replace and
  remove, subsequence and "no duplicates".
- `Text`: JavaScript `trim`, `toLowerCase`, `includes`, `split` and `||` on
  strings.
- `JsNumber`: `parseInt` and number-to-string.
- `Paging`: `Math.ceil` page counts, `Array.prototype.slice`, and the
  search-term-and-page state the list hooks share.
- `MockIds`: `Math.max(...ids.map(id => parseInt(id))) + 1`, including its `-Infinity`
  and `NaN` results.

Some JavaScript semantics are modelled explicitly:

- **Falsy fallbacks.** `a || b` on strings is `Text.TextOr`. On numbers, `0`
  and `NaN` fall back (`CountOrOne`, `OrZero`, `OrOne`).
- **`parseInt`.** It skips leading white space, takes an optional sign,
  accepts a `0x` prefix and reads the longest digit run. `NaN` is `None`.
- **`slice`.** It clamps its indices as the standard says, so a page past the
  end is empty rather than an error.
- **Regular expressions.** The two e-mail patterns are written out as
  predicates over the position of the `@` and of the final dot.

Where the documented behaviour and the code differ, the model follows the
code:

- The autocomplete input has no guard against stale responses. A result that
  arrives after a newer term is stored (`Autocomplete.LateResultStored`).
- `mei` and `mais_filtros` are always sent, even when every flag in them is
  false.
- The route guard looks only at `isAdmin`. A user with only
  `permission_admin` is sent to `/admin` by the login and then turned back to
  `/dashboard` (`Auth.PermissionAdminTurnedBack`).

## Model

| member | source | states |
|---|---|---|
| SearchPayload.Lookup | src/components/extraction/ExtractionSearchForm.tsx:64-74 | a key has a value in the payload exactly when it is one of the payload's keys |
| SearchPayload.Put | src/components/extraction/ExtractionSearchForm.tsx:72 | after `payload[key] = v` the key maps to v, every other key keeps its value, and a new key is appended at the end of the key order |
| SearchPayload.AddField | src/components/extraction/ExtractionSearchForm.tsx:65-74 | an undefined, null, "" or empty-array value leaves the payload unchanged; any other value is stored under its key and changes no other key |
| SearchPayload.AddFieldKeepsWellFormed | src/components/extraction/ExtractionSearchForm.tsx:65-74 | adding a field never introduces an omitted value or a repeated key |
| SearchPayload.LimitValue | src/components/extraction/ExtractionSearchForm.tsx:132 | the limit is never 0; it is the parsed integer when that is a non-zero number and 50 otherwise |
| SearchPayload.LimitOfNumber | src/components/extraction/ExtractionSearchForm.tsx:132 | any non-zero integer typed as its decimal text is sent as that integer, negative ones included |
| SearchPayload.LimitFallsBack | src/components/extraction/ExtractionSearchForm.tsx:132 | an empty limit and a limit of "0" both become 50 |
| SearchPayload.FormatNumber | src/components/extraction/ExtractionSearchForm.tsx:75-76 | an empty amount is 0; any other amount is parsed after replacing only its first comma by a dot |
| SearchPayload.AddAllLookup | src/components/extraction/ExtractionSearchForm.tsx:80-132 | adding a list of distinct keys in turn gives each offered key its value when that value is not omitted, and leaves every other key as it was |
| SearchPayload.AddAllKeys | src/components/extraction/ExtractionSearchForm.tsx:80-132 | the keys added appear in the order they were offered, restricted to those whose value is not omitted |
| SearchPayload.OfferFirst | src/components/extraction/ExtractionSearchForm.tsx:65-74 | offering the first of a list of fresh keys appends it exactly when it is sent and leaves the rest fresh |
| SearchPayload.FieldOrderDistinct | src/components/extraction/ExtractionSearchForm.tsx:80-132 | the builder offers no key twice |
| SearchPayload.OnlyPaginaNotOffered | src/components/extraction/ExtractionSearchForm.tsx:64 | every key except `pagina` is offered by the builder, and `pagina` is set up front |
| SearchPayload.OfferFieldOrder | src/components/extraction/ExtractionSearchForm.tsx:80-132 | offering the builder's key order gives each offered key its value when present and leaves the starting keys alone |
| SearchPayload.OfferedAfterPagina | src/components/extraction/ExtractionSearchForm.tsx:64-132 | starting from `{pagina: 0}`, `pagina` stays 0 and every other key holds its offered value exactly when that value is not omitted |
| SearchPayload.BuildLookup | src/components/extraction/ExtractionSearchForm.tsx:63-135 | in the built payload `pagina` is 0 and every other key is present exactly when the form offers a non-omitted value for it, with that value |
| SearchPayload.AddAllKeepsWellFormed | src/components/extraction/ExtractionSearchForm.tsx:65-74 | a payload built field by field never holds an omitted value or a repeated key |
| SearchPayload.BuildWellFormed | src/components/extraction/ExtractionSearchForm.tsx:63-135 | the built payload holds no undefined, null, "" or empty-array value and no key twice |
| SearchPayload.OfferFieldOrderKeys | src/components/extraction/ExtractionSearchForm.tsx:80-132 | the keys added by the builder are its key order restricted to the keys that are sent |
| SearchPayload.BuildKeys | src/components/extraction/ExtractionSearchForm.tsx:63-135 | the payload's keys are `pagina` followed by the present keys, in the order the builder adds them |
| SearchPayload.BuildSendsMei | src/components/extraction/ExtractionSearchForm.tsx:119-122 | `mei` is always sent, carrying both MEI flags as typed |
| SearchPayload.BuildSendsMoreFilters | src/components/extraction/ExtractionSearchForm.tsx:123-130 | `mais_filtros` is always sent with all six flags |
| SearchPayload.BuildSendsLimit | src/components/extraction/ExtractionSearchForm.tsx:132 | `limite` is always sent, with the non-zero limit value |
| SearchPayload.BuildAlwaysSends | src/components/extraction/ExtractionSearchForm.tsx:64-132 | `pagina = 0`, `mei`, `mais_filtros` and `limite` are present in every payload |
| SearchPayload.BuildTextSearch | src/components/extraction/ExtractionSearchForm.tsx:80-90 | `busca_textual` is present exactly when the company name is non-empty, and is then the single CONTEM clause over the company and trade names but not the partners' names |
| SearchPayload.BuildListFilters | src/components/extraction/ExtractionSearchForm.tsx:92-101 | each list filter is sent unchanged when non-empty and absent when empty; `situacao_cadastral` is `[status]` exactly when the status is non-empty |
| SearchPayload.BuildOpeningDates | src/components/extraction/ExtractionSearchForm.tsx:103-109 | `data_abertura` is present exactly when at least one date bound is set, and holds `inicio` and `fim` only for the bounds that are set |
| SearchPayload.BuildCapital | src/components/extraction/ExtractionSearchForm.tsx:111-117 | `capital_social` is present exactly when a bound parses to a positive amount, and holds only the positive bounds |
| SearchPayload.FiftyParses | src/components/extraction/ExtractionSearchForm.tsx:178 | the default limit text "50" parses to 50 |
| SearchPayload.NoFiltersPresent | src/components/extraction/ExtractionSearchForm.tsx:63-135 | with every filter empty, exactly `pagina`, `mei`, `mais_filtros` and `limite` are present |
| SearchPayload.KeysOfAlwaysSent | src/components/extraction/ExtractionSearchForm.tsx:64-132 | when only the always-sent keys are present, the key order is `pagina, mei, mais_filtros, limite` |
| SearchPayload.BuildWithoutFilters | src/components/extraction/ExtractionSearchForm.tsx:63-135 | a form with no filters yields exactly the keys `pagina, mei, mais_filtros, limite`, in that order |
| SearchPayload.DefaultFormFacts | src/components/extraction/ExtractionSearchForm.tsx:155-180 | the form's defaults set no filter and a limit of 50 |
| SearchPayload.KeyNameRoundTrip | src/components/extraction/ExtractionSearchForm.tsx:64-132 | each key's JSON name reads back as that key under the inverse spelling table `KeyOfName` |
| SearchPayload.KeyNameInjective | src/components/extraction/ExtractionSearchForm.tsx:64-132 | two keys share a JSON name only if they are the same key |
| SearchPayload.SerializeLookup | src/components/extraction/ExtractionSearchForm.tsx:64-74 | the JSON object holds under each key's name exactly what the payload holds under the key, and its names are the payload's keys in order |
| SearchPayload.SerializeKeepsNamesDistinct | src/components/extraction/ExtractionSearchForm.tsx:64-74 | a payload without repeated keys becomes an object without repeated names |
| SearchPayload.BuildSerializesDistinct | src/components/extraction/ExtractionSearchForm.tsx:63-135 | the search body the form builds never repeats a name |
| SearchPayload.EmailPayload | src/components/extraction/ExtractionSearchForm.tsx:264-276 | the e-mail request carries the name, file type and recipients unchanged, embeds the same payload as the search, and its `total_linhas` equals the payload's `limite` |
| TagEditing.AddItem | src/components/extraction/ExtractionSearchForm.tsx:182-205 | a blank input or one whose trimmed text fails the validator is refused and everything is kept; an untrimmed duplicate clears the input and keeps the list; otherwise the untrimmed input is appended and the input cleared |
| TagEditing.RemoveItem | src/components/extraction/ExtractionSearchForm.tsx:207-216 | every copy of the removed value is dropped; every other value keeps all its copies, in their order |
| TagEditing.AddTagOutcome | src/components/extraction/ExtractionSearchForm.tsx:388-722 | with a field's validator (digits for CNAE and legal nature, Latin letters for city and neighbourhood, 8 digits for CEP, 2 for DDD), an add succeeds exactly when the trimmed input is non-empty and valid and the raw input is new, and only then does the list grow |
| TagEditing.AddTagKeepsAccepted | src/components/extraction/ExtractionSearchForm.tsx:182-205 | if every stored tag passes its field's check once trimmed, that still holds after an add |
| TagEditing.AddTagKeepsNoDuplicates | src/components/extraction/ExtractionSearchForm.tsx:197-204 | a duplicate-free list stays duplicate-free after an add |
| TagEditing.AddThenRemoveTag | src/components/extraction/ExtractionSearchForm.tsx:182-216 | removing a tag that was just added gives back the list before the add |
| TagEditing.RemoveItemFacts | src/components/extraction/ExtractionSearchForm.tsx:207-216 | removal keeps a list duplicate-free, and removing twice is the same as removing once |
| TagEditing.TrimPadded | src/components/extraction/ExtractionSearchForm.tsx:188 | trimming a trimmed tag with one leading space gives the tag back |
| TagEditing.PaddedCodeStoredAgain | src/components/extraction/ExtractionSearchForm.tsx:188-204 | because the duplicate check uses the untrimmed text, a code typed again with a leading space is stored a second time, untrimmed |
| TagEditing.TagInputAdd | src/components/extraction/MultiTagInput.tsx:20-26 | either nothing changes, or the trimmed text is appended and the input cleared; it changes exactly when the trimmed text is non-empty and not yet in the list |
| TagEditing.TagInputRemove | src/components/extraction/MultiTagInput.tsx:28-30 | every occurrence of the item is removed; every other item keeps all its copies, in order; the typed text is untouched |
| TagEditing.TagInputKeyDown | src/components/extraction/MultiTagInput.tsx:32-37 | Enter behaves exactly like the add button and any other key changes nothing |
| TagEditing.TagInputKeepsWellFormed | src/components/extraction/MultiTagInput.tsx:20-37 | a list of distinct, non-empty, trimmed tags stays so after add, key press and remove |
| TagEditing.TagInputAddThenRemove | src/components/extraction/MultiTagInput.tsx:20-30 | removing what was just added restores the list |
| SendEmail.RecipientsWellFormed | src/components/extraction/SendEmailDialog.tsx:44 | every recipient is non-empty, trimmed and free of commas |
| SendEmail.BlankNoRecipients | src/components/extraction/SendEmailDialog.tsx:39-44 | a blank address box yields no recipient |
| SendEmail.RecipientsNeedText | src/components/extraction/SendEmailDialog.tsx:39-44 | any recipient at all implies the address box is not blank |
| SendEmail.RecipientsOfJoin | src/components/extraction/SendEmailDialog.tsx:44 | addresses joined with commas are read back as exactly those addresses, in order |
| SendEmail.OnlySeparatorsNoRecipients | src/components/extraction/SendEmailDialog.tsx:44-49 | a box of only commas and spaces yields no recipient |
| SendEmail.Submit | src/components/extraction/SendEmailDialog.tsx:34-52 | a submission is made exactly when the name is not blank and some recipient remains; a blank name fails first, then a blank box; the submission carries the untrimmed name, the recipient list and the chosen type |
| SendEmail.OnlyCommasRejected | src/components/extraction/SendEmailDialog.tsx:46-49 | a named submission whose box holds only commas and spaces passes the blank check but is refused for having no valid address |
| Autocomplete.Stored | src/components/AutocompleteInput.tsx:43-48 | an array result is stored as is; a non-array result or a failed fetch stores no suggestion |
| Autocomplete.Next | src/components/AutocompleteInput.tsx:31-76 | selecting sets and reports the suggestion's name and hides the panel; a finished fetch ends loading and stores its result; an empty settled term clears the list without fetching; a fetch starts exactly for a non-empty settled term, with that term, and sets loading; a new `value` prop only overwrites the text; `onChange` fires exactly on typing and selecting |
| Autocomplete.PanelOf | src/components/AutocompleteInput.tsx:79-97 | the panel shows exactly when suggestions are enabled and the text is non-empty, shows the spinner exactly when also loading, and otherwise lists the stored suggestions when there are any |
| Autocomplete.RunSuggestionsFetched | src/components/AutocompleteInput.tsx:35-55 | after any run of events, every stored suggestion was there at the start or came from some completed fetch |
| Autocomplete.BlankTermKeepsLoading | src/components/AutocompleteInput.tsx:37-40 | an empty settled term while a fetch is running clears the list but leaves the loading flag on |
| Autocomplete.SelectHidesPanel | src/components/AutocompleteInput.tsx:57-62 | after a selection no panel is shown and the stored list is untouched |
| Autocomplete.FetchThenBlankTerm | src/components/AutocompleteInput.tsx:37-51 | loading is off after a fetch completes, and a following empty term clears the list |
| Autocomplete.LateResultStored | src/components/AutocompleteInput.tsx:35-55 | the result that arrives last is stored even when a newer term has settled since its fetch began |
| FileList.FilteredData | src/hooks/useFilePagination.ts:11-27 | the filtered files are an order-preserving subsequence of the data, holding every copy of each file matched by the chosen field, or all files when the term is empty, and no other file |
| FileList.EmptyTermShortcut | src/hooks/useFilePagination.ts:12 | an empty term returns the data itself, and would also match every file |
| FileList.UnknownFieldKeepsAll | src/hooks/useFilePagination.ts:23-24 | a filter field other than name, lastModified or date keeps every file |
| FileList.FilterTwice | src/hooks/useFilePagination.ts:11-27 | filtering is idempotent |
| FileList.ViewOf | src/hooks/useFilePagination.ts:29-32 | the page count is the least number of 2-file pages that covers the filtered files, 0 exactly when none match, and the page is their slice for the current page |
| FileList.PageIsRunOfFiltered | src/hooks/useFilePagination.ts:31-32 | a page holds at most 2 files, all from the filtered list, and a page past the last is empty |
| FileList.ShrunkListLeavesPageEmpty | src/hooks/useFilePagination.ts:8-32 | when the filtered list shrinks below the current page, the page stays and shows nothing |
| FileList.PageChangeInRangeShowsFiles | src/hooks/useFilePagination.ts:29-36 | moving to any page from 1 to the page count shows one or two files, all from the filtered list |
| FileList.ToFileData | src/services/documentService.ts:11-18 | all six fields of an API document are copied unchanged |
| FileList.FetchUserDocuments | src/services/documentService.ts:5-38 | a failed listing yields no document; otherwise the result is an order-preserving subsequence of the converted documents, holding every copy of each document that is accessible and of the requested type, and nothing else |
| FileList.FetchMembers | src/services/documentService.ts:21-31 | a document is returned exactly when it is of a type the user may access and of the requested type, if one was requested |
| FileList.NoAccessNoDocuments | src/services/documentService.ts:21-24 | with neither access nothing is returned |
| FileList.FullAccessKeepsAll | src/services/documentService.ts:21-31 | with both accesses and no type requested every document is returned, in order |
| FileList.RequestWithoutAccessIsEmpty | src/services/documentService.ts:21-31 | asking for a type the user may not access returns nothing |
| FileList.NoMatchEmpty | src/services/documentService.ts:21-31 | when no document can pass both filters the result is empty |
| Paging.PageCount | src/hooks/useFilePagination.ts:30 | `Math.ceil(n / k)`: the least number of k-item pages that covers n items, 0 exactly for none |
| Paging.SliceIndex | src/hooks/useFilePagination.ts:32 | a slice index is clamped to the list, and a negative one counts from the end |
| Paging.JsSlice | src/hooks/useFilePagination.ts:32 | `slice(start, end)` takes at most end - start items, is the plain sub-sequence for in-range indices, and is empty from the end on |
| Paging.PageIsRun | src/hooks/useFilePagination.ts:31-32 | a page of size k is a contiguous run of at most k items starting at (page-1)*k, empty past the end |
| Paging.PageBeyondCount | src/hooks/useFilePagination.ts:30-32 | a page past the page count is empty |
| Paging.PageWithinCountNonEmpty | src/hooks/useFilePagination.ts:30-32 | every page from 1 to the page count holds at least one item |
| Paging.ItemOnItsPage | src/hooks/useFilePagination.ts:31-32 | item i is on page i/k + 1 at position i mod k, so every item is reachable |
| Paging.ItemPageWithinCount | src/hooks/useFilePagination.ts:30-32 | the page that holds item i lies between 1 and the page count |
| Paging.FirstPage | src/hooks/useFilePagination.ts:31-32 | page 1 is the first k items |
| Paging.PageOfPage | src/pages/admin/components/domain/DomainList.tsx:27-29 | paging a single page again shows it on local page 1 and nothing on any later page |
| Paging.PageCountOfPage | src/pages/admin/components/domain/DomainList.tsx:27 | a single page never spans more than one page |
| JsNumber.DigitRun | src/components/extraction/ExtractionSearchForm.tsx:132 | `parseInt` reads the longest prefix of digits valid in the radix |
| JsNumber.NatToString | src/pages/admin/hooks/useDomainState.ts:59 | the decimal text of a number is non-empty, all digits, and denotes the number |
| JsNumber.ParseIntOfIntToString | src/pages/admin/hooks/useDomainState.ts:59 | `parseInt` of an integer's decimal text gives the integer back |
| JsNumber.IntToStringInjective | src/pages/admin/hooks/useDomainState.ts:59 | different integers have different decimal texts |
| Text.TrimStart | src/components/extraction/MultiTagInput.tsx:21 | removes exactly the leading white space |
| Text.TrimEnd | src/components/extraction/MultiTagInput.tsx:21 | removes exactly the trailing white space |
| Text.Trim | src/components/extraction/MultiTagInput.tsx:21 | the result starts and ends with non-space and is empty exactly when the input is all white space |
| Text.TextOr | src/pages/admin/hooks/useLeadHandlers.ts:37-39 | `value \|\| fallback` on strings: a non-empty value is kept, and a missing or empty one gives the fallback, so the result is never empty when the fallback is not (every error message the pages show has text) |
| Text.TrimIdempotent | src/services/routes/user.ts:45-50 | trimming twice is trimming once |
| Text.Lower | src/hooks/useFilePagination.ts:14 | lower-cases each character in place and keeps the length |
| Text.LowerIdempotent | src/services/routes/user.ts:46 | lower-casing twice is lower-casing once |
| Text.IncludesEmpty | src/hooks/useFilePagination.ts:14-22 | every text includes the empty term, with or without case |
| Text.Split | src/components/extraction/SendEmailDialog.tsx:44 | splitting gives at least one piece and no piece holds the separator |
| Text.SplitJoin | src/components/extraction/SendEmailDialog.tsx:44 | splitting pieces joined with a separator they lack gives the pieces back |
| Text.JoinSplit | src/components/extraction/SendEmailDialog.tsx:44 | joining the pieces of a split gives the text back |
| Text.ReplaceFirst | src/components/extraction/ExtractionSearchForm.tsx:76 | `replace(",", ".")` changes only the first occurrence, if any |
| CatalogAdmin.FilterServices | src/pages/admin/hooks/useServicePagination.ts:9-14 | an order-preserving subsequence holding every copy of the services whose name or description contains the term, ignoring case, and nothing else |
| CatalogAdmin.FilterPlans | src/hooks/usePlanHandlers.ts:60-63 | an order-preserving subsequence holding every copy of the plans whose name, or non-empty description, contains the term, ignoring case, and nothing else |
| CatalogAdmin.PlanGuardRedundant | src/hooks/usePlanHandlers.ts:60-63 | the guard on an empty description changes nothing: the plan filter equals the service filter |
| CatalogAdmin.EmptyTermKeepsAllServices | src/pages/admin/hooks/useServicePagination.ts:9-14 | an empty term keeps every service |
| CatalogAdmin.PageChangeInRangeShowsServices | src/pages/admin/hooks/useServicePagination.ts:15-22 | moving to any page from 1 to the page count shows between one and `k` services, all matching the term |
| CatalogAdmin.PagedViewOf | src/pages/admin/hooks/useServicePagination.ts:9-18 | the view filters the services, counts `ceil(filtered / k)` pages, and shows the current page's slice of the filtered list |
| CatalogAdmin.PagedViewShowsMatches | src/pages/admin/hooks/useServicePagination.ts:16-18 | a page holds at most k services, all matching the term, and a page past the count is empty |
| CatalogAdmin.PagerSearchCanEmptyPage | src/pages/admin/hooks/usePlanPagination.ts:6-18 | narrowing the term while on a later page leaves that page empty, because the page is not reset |
| CatalogAdmin.MapPlan | src/hooks/usePlanHandlers.ts:35-46 | a mapped plan has `id = _id`, keeps its name, description, price and query limit, and is "active" whatever the API said |
| CatalogAdmin.ListPlans | src/hooks/usePlanHandlers.ts:28-63 | with no data there are no plans and 0 pages; the page count is the API's or 0; the plans are an order-preserving subsequence of the mapped records holding every copy of each matching one and nothing else, all active with `id = _id` |
| CatalogAdmin.ListPlansMembers | src/hooks/usePlanHandlers.ts:56-63 | a plan is listed exactly when it is a mapped record that matches the term |
| CatalogAdmin.UpdateTarget | src/hooks/usePlanHandlers.ts:186 | an update targets `_id` when it is non-empty, otherwise `id` as text |
| CatalogAdmin.PlanBodyOf | src/hooks/usePlanHandlers.ts:67-74 | the create body copies the draft, defaults the query limit to 0 and is always "active" |
| CatalogAdmin.HandlePlan | src/hooks/usePlanHandlers.ts:145-215 | a search sets the term and goes to page 1; create and update send only for a name that is not blank, and refuse otherwise; update and delete do nothing with nothing selected; update targets the plan's id; success events close and reset their dialogs; only search and page change move the page |
| CatalogAdmin.EditedPlanTargetsItsId | src/hooks/usePlanHandlers.ts:169-196 | editing a fetched plan and saving it updates that plan's `_id` with its own fields |
| CatalogAdmin.PlanSearchShowsFirstPage | src/hooks/usePlanHandlers.ts:212-215 | after a search the visible slice is the first page of the matches |
| CatalogAdmin.CreatedPlansNamedAndActive | src/hooks/usePlanHandlers.ts:156-167 | every create request has a name that is not blank and status "active" |
| CatalogAdmin.HandleService | src/pages/admin/hooks/useServiceHandlers.ts:108-169 | a search sets the term and goes to page 1; create sends the draft only for a name that is not blank; opening the new dialog resets the draft; update and delete do nothing with nothing selected and otherwise target the id as text; success closes only the dialog; only search and page change move the page |
| CatalogAdmin.ServiceUpdateTargetsNumericId | src/pages/admin/hooks/useServiceHandlers.ts:138-151 | editing a service with a numeric id and saving it updates that id's decimal text |
| CatalogAdmin.ServiceDraftClearedOnReopen | src/pages/admin/hooks/useServiceHandlers.ts:109-118 | a successful create keeps the typed draft; only reopening the dialog clears it |
| CatalogAdmin.ServiceUpdateKeepsSelection | src/pages/admin/hooks/useServiceHandlers.ts:72-79 | a successful update closes the dialog but keeps the selected service |
| CatalogAdmin.ServicePageCount | src/pages/admin/hooks/useServiceHandlers.ts:40 | `Math.ceil((totalCount \|\| 0) / k)`: the fewest pages that hold the count, none exactly when the count is missing or 0 |
| CatalogAdmin.ListServices | src/pages/admin/hooks/useServiceHandlers.ts:28-46 | with no data nothing is listed; otherwise the listing is an order-preserving subsequence of the fetched page holding every copy of each matching service and nothing else; the page count comes from the total count |
| DomainAdmin.FilterDomains | src/pages/admin/hooks/useDomainHandlers.ts:32-34 | an order-preserving subsequence holding every copy of the domains whose address contains the term, ignoring case, and nothing else |
| DomainAdmin.EmptyTermKeepsAll | src/pages/admin/hooks/useDomainHandlers.ts:32-34 | an empty term keeps every domain |
| DomainAdmin.ViewOf | src/pages/admin/hooks/useDomainPagination.ts:9-15 | the view filters the domains, counts `ceil(filtered / k)` pages and shows the current page's slice |
| DomainAdmin.ViewShowsMatches | src/pages/admin/hooks/useDomainPagination.ts:14-15 | a page holds at most k domains, all matching the term |
| DomainAdmin.NarrowedSearchCanEmptyPage | src/pages/admin/hooks/useDomainPagination.ts:6-15 | narrowing the term while on a later page leaves that page empty |
| DomainAdmin.DomainListShowsOnlyFirstPage | src/pages/admin/components/domain/DomainList.tsx:25-29 | re-paging the hook's page shows it all on local page 1 and nothing on any other, and its control never counts more than one page |
| DomainAdmin.DomainListHidesLastMatch | src/pages/admin/components/domain/DomainList.tsx:25-33 | with k + 1 matching domains, the last one appears on no local page |
| DomainAdmin.FixedListReachesEveryDomain | src/pages/admin/components/domain/DomainList.tsx:27-33 | when the list pages the filtered domains itself, every domain is on some page within the page count |
| DomainAdmin.Handle | src/pages/admin/hooks/useDomainHandlers.ts:101-143 | add sends the draft only when its address is not blank, and refuses otherwise; a successful add resets the draft; update and delete do nothing with nothing selected and otherwise send the selected id and fields; only page change moves the page |
| DomainAdmin.Expose | src/pages/admin/hooks/useDomainHandlers.ts:29-39 | the exposed domains are the current page of the fetched domains filtered by the term, with `ceil(matches / k)` pages and the number of matches as the total; no data means no domains and 0 pages |
| DomainAdmin.ExposedDomainsMatch | src/pages/admin/hooks/useDomainHandlers.ts:29-39 | from page 1 on at most `k` domains are exposed, all fetched and matching the term, and a page within the count exposes at least one |
| DomainAdmin.SearchKeepsPage | src/pages/admin/hooks/useDomainHandlers.ts:158-159 | the raw search setter changes the term and keeps the page |
| DomainAdmin.AddAfterTyping | src/pages/admin/hooks/useDomainHandlers.ts:102-113 | typing a draft whose address is not blank and adding sends exactly that draft |
| DomainAdmin.MockUpdate | src/pages/admin/hooks/useDomainState.ts:41-48 | with nothing selected nothing changes; otherwise every domain with the selected id is replaced, the rest and the length are kept, and the dialog closes |
| DomainAdmin.MockAdd | src/pages/admin/hooks/useDomainState.ts:56-66 | exactly one domain is appended, with the next id, the draft's fields and version 0; the draft resets; the selections are kept |
| DomainAdmin.MockDelete | src/pages/admin/hooks/useDomainState.ts:78-82 | with nothing selected nothing changes; otherwise every domain with the selected id is removed and every other one keeps all its copies, in order |
| DomainAdmin.NextIdOfEmpty | src/pages/admin/hooks/useDomainState.ts:59 | the first id is 1 |
| DomainAdmin.FirstIds | src/pages/admin/hooks/useDomainState.ts:59 | an empty list gives the id "1" |
| DomainAdmin.NextIdOfLast | src/pages/admin/hooks/useDomainState.ts:59 | the next id is the last element's numeric id plus one |
| DomainAdmin.NextIdAbove | src/pages/admin/hooks/useDomainState.ts:59 | for ids in increasing order the next id is numeric and above every existing id |
| DomainAdmin.NextIdOfIncreasing | src/pages/admin/hooks/useDomainState.ts:59 | for a non-empty list in increasing id order the next id is above all |
| DomainAdmin.MockAddFresh | src/pages/admin/hooks/useDomainState.ts:56-66 | with ids in increasing order the added id is new |
| DomainAdmin.MockAddKeepsIncreasingIds | src/pages/admin/hooks/useDomainState.ts:56-66 | adding keeps the ids in increasing order |
| DomainAdmin.MockUpdateKeepsIncreasingIds | src/pages/admin/hooks/useDomainState.ts:41-48 | an update keeps the ids in increasing order |
| DomainAdmin.MockDeleteKeepsIncreasingIds | src/pages/admin/hooks/useDomainState.ts:78-82 | a delete keeps the ids in increasing order |
| DomainAdmin.OutOfOrderIdsCollide | src/pages/admin/hooks/useDomainState.ts:59 | when the last id is not the largest, the next id repeats an existing one |
| MockIds.MaxOfValues | src/pages/admin/hooks/useUserState.ts:85 | `Math.max` over parsed ids is `-Infinity` exactly for none, `NaN` exactly when some id does not parse, and otherwise bounds every id |
| MockIds.MaxIsAttained | src/pages/admin/hooks/useUserState.ts:85 | a finite maximum is one of the ids |
| MockIds.MaxOf | src/pages/admin/hooks/useUserState.ts:85 | the maximum id is `-Infinity` exactly for no ids, `NaN` exactly when some id is not numeric, and otherwise at least every id |
| MockIds.MaxPlusOneFresh | src/pages/admin/hooks/useUserState.ts:85 | for a non-empty list of numeric ids, max + 1 is numeric, above every id, and new |
| MockIds.MaxPlusOneKeepsIdsDistinct | src/pages/admin/hooks/useUserState.ts:85-95 | appending max + 1 keeps a non-empty list of numeric ids numeric and distinct |
| MockIds.NotANumberSticks | src/pages/admin/hooks/useUserState.ts:85 | once an id is not numeric every later id is "NaN" |
| MockIds.NegInfinityNotNumeric | src/pages/admin/hooks/useUserState.ts:85 | "-Infinity" does not parse as an integer |
| MockIds.FirstIdOfEmpty | src/pages/admin/hooks/useUserState.ts:85 | the first id created from an empty list is "-Infinity" |
| MockIds.NotANumberTwice | src/pages/admin/hooks/useUserState.ts:85 | after a non-numeric id the next two ids are both "NaN" |
| MockIds.EmptyListIdsCollide | src/pages/admin/hooks/useUserState.ts:85 | three creates from an empty list give "-Infinity", "NaN", "NaN", which repeat |
| MockIds.ThreeCreatesFromEmpty | src/pages/admin/hooks/useUserState.ts:85-95 | three creates from an empty list give the ids "-Infinity", "NaN", "NaN" |
| MockIds.NextIdFixed | src/pages/admin/hooks/useUserState.ts:85 | for a non-empty list the corrected id agrees with max + 1 |
| MockIds.NextIdFixedOfEmpty | src/pages/admin/hooks/useUserState.ts:85 | the corrected first id is "1" |
| MockIds.NextIdFixedKeepsIdsDistinct | src/pages/admin/hooks/useUserState.ts:85-95 | the corrected id is new and keeps any list of numeric ids numeric and distinct, the empty list included |
| LeadAdmin.DateOr | src/pages/admin/hooks/useLeadHandlers.ts:40-41 | a present date is formatted, a missing or empty one shows "-" |
| LeadAdmin.MapLead | src/pages/admin/hooks/useLeadHandlers.ts:33-42 | id, name and e-mail are copied; CPF/CNPJ, phone and plan default to ""; both dates are formatted or "-" |
| LeadAdmin.CountOrOne | src/pages/admin/hooks/useLeadHandlers.ts:49-50 | `parseInt(x) \|\| 1` is never 0: the parsed number when it is non-zero, else 1 |
| LeadAdmin.ReadLeads | src/pages/admin/hooks/useLeadHandlers.ts:22-61 | a failed request or missing records give no leads, 0 pages and page 1; otherwise every record is mapped in order, the count is their number, and the page numbers are read with the 1 fallback |
| LeadAdmin.ZeroPagesOnlyOnFailure | src/pages/admin/hooks/useLeadHandlers.ts:27-60 | the page count is 0 exactly when the answer had no records, and the page is never 0 |
| LeadAdmin.FilterLeads | src/pages/admin/hooks/useLeadHandlers.ts:69-73 | an order-preserving subsequence holding every copy of the leads whose name or e-mail contains the term ignoring case, or whose CPF/CNPJ contains it exactly, and nothing else |
| LeadAdmin.EmptyTermKeepsAllLeads | src/pages/admin/hooks/useLeadHandlers.ts:69-73 | an empty term keeps every lead |
| LeadAdmin.NameSearchIgnoresCase | src/pages/admin/hooks/useLeadHandlers.ts:70 | a name match survives lower-casing the term |
| LeadAdmin.PlanIsNotSearched | src/pages/admin/hooks/useLeadHandlers.ts:69-73 | a lead whose plan equals the term is still not matched by it |
| LeadAdmin.UpdateOf | src/pages/admin/hooks/useLeadHandlers.ts:144-149 | the update sends exactly name, e-mail, CPF/CNPJ and phone |
| LeadAdmin.Handle | src/pages/admin/hooks/useLeadHandlers.ts:134-168 | update and delete do nothing with nothing selected and otherwise send the selected lead; update success closes the dialog; delete success clears the selection; the mass send posts its two arguments; only page change moves the page |
| LeadAdmin.EditThenUpdate | src/pages/admin/hooks/useLeadHandlers.ts:134-151 | editing a lead and saving updates that lead's id with its own fields |
| LeadAdmin.UpdateIgnoresPlan | src/pages/admin/hooks/useLeadHandlers.ts:139-151 | the update request does not depend on the lead's plan or creation date |
| LeadAdmin.Expose | src/pages/admin/hooks/useLeadHandlers.ts:64-73 | the exposed leads are the filtered data; the page is the API's page, or 1 with no data; the page count is the API's |
| LeadAdmin.ExposedPageComesFromAnswer | src/pages/admin/hooks/useLeadHandlers.ts:64-66 | the exposed page does not depend on the hook's own page, and is 1 after a failed answer |
| LeadAdmin.MockUpdate | src/pages/admin/hooks/useLeadState.ts:59-72 | with nothing selected nothing changes; otherwise every lead with the selected id is replaced, the rest and the length are kept, and the dialog closes |
| LeadAdmin.MockCreate | src/pages/admin/hooks/useLeadState.ts:74-95 | exactly one lead is appended with id max + 1 and the draft's fields; the draft resets with plan "FREE"; the dialog closes |
| LeadAdmin.MockDelete | src/pages/admin/hooks/useLeadState.ts:101-111 | with nothing selected nothing changes; otherwise every lead with the selected id is removed and every other one keeps all its copies, in order |
| LeadAdmin.MockCreateKeepsIdsDistinct | src/pages/admin/hooks/useLeadState.ts:77-81 | creating keeps a non-empty list of numeric, distinct ids numeric and distinct |
| LeadAdmin.IdsAfterCreate | src/pages/admin/hooks/useLeadState.ts:77-81 | a create appends exactly the new id to the ids |
| LeadAdmin.EmptyMockIdsCollide | src/pages/admin/hooks/useLeadState.ts:77 | three creates from no leads give the ids "-Infinity", "NaN", "NaN", which repeat |
| LeadAdmin.MockCreateFixed | src/pages/admin/hooks/useLeadState.ts:74-95 | the corrected create appends the corrected id and otherwise agrees with the original on any non-empty list |
| LeadAdmin.MockCreateFixedKeepsIdsDistinct | src/pages/admin/hooks/useLeadState.ts:77-81 | the corrected create keeps any list of numeric, distinct ids so, the empty list included |
| LeadAdmin.MockDeleteRemovesId | src/pages/admin/hooks/useLeadState.ts:101-104 | after a delete the selected id is gone |
| LeadAdmin.MockUpdateKeepsIds | src/pages/admin/hooks/useLeadState.ts:62-64 | an update keeps the ids and their order |
| UserAdmin.MissingFields | src/services/routes/user.ts:35-36 | a required field is listed exactly when it is empty, and the list is empty exactly when all five are present |
| UserAdmin.MissingFieldsInOrder | src/services/routes/user.ts:35-36 | the missing fields are reported in the order name, email, password, plan, cpfOrCnpj |
| UserAdmin.TrimmedOrEmpty | src/services/routes/user.ts:48 | a missing phone becomes "", a present one is trimmed |
| UserAdmin.Clean | src/services/routes/user.ts:44-52 | name, plan and CPF/CNPJ are trimmed, the e-mail is trimmed and lower-cased, the password is kept, the phone is trimmed or "", and the API key defaults to "" |
| UserAdmin.CreateUser | src/services/routes/user.ts:35-52 | the request is refused exactly when a required field is missing, naming the missing fields; otherwise it posts the cleaned data |
| UserAdmin.CleanIsIdempotent | src/services/routes/user.ts:44-52 | cleaning already cleaned data changes nothing |
| UserAdmin.PhoneCleanIdempotent | src/services/routes/user.ts:48 | cleaning a phone twice is cleaning it once |
| UserAdmin.EmailCleanIdempotent | src/services/routes/user.ts:46 | cleaning an e-mail twice is cleaning it once |
| UserAdmin.BlankNamePassesCheck | src/services/routes/user.ts:35-45 | a name of only spaces passes the required check and is posted as the empty name |
| UserAdmin.InitialForm | src/pages/admin/components/user/NewUserForm.tsx:26-33 | the form starts from the parent's draft with an empty password |
| UserAdmin.SyncForm | src/pages/admin/components/user/NewUserForm.tsx:37-46 | each non-empty draft field replaces the form's, an empty one keeps it, and the password is untouched |
| UserAdmin.EmptyDraftKeepsForm | src/pages/admin/components/user/NewUserForm.tsx:37-46 | an emptied draft does not clear what was typed |
| UserAdmin.FormErrors | src/pages/admin/components/user/NewUserForm.tsx:73-87 | name, password and plan have an error exactly when empty; the e-mail has one exactly when it fails the pattern, reading "required" when empty and "invalid" otherwise; phone and CPF/CNPJ never do |
| UserAdmin.FormValidIff | src/pages/admin/components/user/NewUserForm.tsx:85-86 | the form is valid exactly when name, password and plan are non-empty and the e-mail matches the pattern |
| UserAdmin.InputChange | src/pages/admin/components/user/NewUserForm.tsx:89-94 | typing into a field gives that field the typed value and leaves every other field as it was; the field's error, if it had one, is blanked and every other error is kept |
| UserAdmin.InputChangeSetsOnlyItsField | src/pages/admin/components/user/NewUserForm.tsx:90 | typing into any of the six fields changes only that field |
| UserAdmin.DraftOf | src/pages/admin/components/user/NewUserForm.tsx:104-110 | the draft handed to the parent has the five form fields and no password |
| UserAdmin.CreateErrorMessage | src/pages/admin/hooks/useUserHandlers.ts:145-152 | the message is the first non-empty of the server message, the server error and the error's own message, or the default text |
| UserAdmin.LocalErrorShowsItsMessage | src/pages/admin/hooks/useUserHandlers.ts:113-152 | an error raised before any request shows its own message |
| UserAdmin.OrOne | src/pages/admin/hooks/useUserHandlers.ts:36-37 | `n \|\| 1` is never 0 and keeps a non-zero number |
| UserAdmin.UpdateOf | src/pages/admin/hooks/useUserHandlers.ts:60-67 | the update sends exactly name, e-mail, phone, CPF/CNPJ and plan |
| UserAdmin.CreateDataOf | src/pages/admin/hooks/useUserHandlers.ts:94-101 | the create data is the draft with the typed password and no API key |
| UserAdmin.Handle | src/pages/admin/hooks/useUserHandlers.ts:28-206 | a load asks for 50 users and sets loading; an answer with `objRecords` stores the records, with page and page count defaulting to 1, and any other answer only ends loading; a failed load shows the load-failure toast and no other answer shows one; create sends exactly when name, e-mail, plan and password are non-empty, and otherwise shows the required-fields message; update and delete do nothing with nothing selected; successes reload the current page and reset their dialog; a failed update or delete changes nothing and shows its own toast |
| UserAdmin.CpfCheckedOnlyByService | src/pages/admin/hooks/useUserHandlers.ts:113-115 | a draft with no CPF/CNPJ passes the hook's check and is then refused by the service for exactly that field |
| UserAdmin.FailedLoadStaysUnloaded | src/pages/admin/components/UserSection.tsx:39-43 | after a failed or empty load the section still wants to load |
| UserAdmin.AnsweredLoadStopsAutoLoad | src/pages/admin/components/UserSection.tsx:39-43 | after an answer with `objRecords` the section never loads by itself again |
| UserAdmin.SubmitAsWritten | src/pages/admin/components/user/NewUserForm.tsx:96-117 | an invalid form does nothing; a valid one sets the parent's draft but runs the create against the draft the handler was bound to |
| UserAdmin.FreshDialogSubmitRefused | src/pages/admin/hooks/useUserHandlers.ts:191-201 | right after the dialog opens, every valid form is refused with the required-fields message and nothing is sent |
| UserAdmin.SubmitFixed | src/pages/admin/components/user/NewUserForm.tsx:96-117 | with the create reading the submitted values, an invalid form does nothing and a valid one creates from it |
| UserAdmin.ValidFormIsSent | src/pages/admin/components/user/NewUserForm.tsx:99-116 | with the fix every valid form is sent, carrying exactly what was typed |
| UserAdmin.FilterUsers | src/pages/admin/components/UserSection.tsx:49-53 | an order-preserving subsequence holding every copy of the users whose name or e-mail contains the term ignoring case, or whose CPF/CNPJ contains it exactly, and nothing else |
| UserAdmin.EmptyTermKeepsAllUsers | src/pages/admin/components/UserSection.tsx:49-53 | an empty term keeps every user |
| UserAdmin.SectionSummary | src/pages/admin/components/UserSection.tsx:90-94 | with a term the summary counts the matches out of all users, never more; without one it shows the API's page and page count |
| UserAdmin.MockUpdate | src/pages/admin/hooks/useUserState.ts:67-80 | with nothing selected nothing changes; otherwise every user with the selected id is replaced, the rest and the length are kept, and the dialog closes |
| UserAdmin.NewMockUser | src/pages/admin/hooks/useUserState.ts:82-94 | the new user has id max + 1, the draft's fields, a time-stamped mock API key, 50 queries, no online flag, an active account and no admin right |
| UserAdmin.MockCreate | src/pages/admin/hooks/useUserState.ts:82-109 | exactly one user is appended; the dialog closes and the draft resets with plan "BÁSICO"; the selections are kept |
| UserAdmin.MockDelete | src/pages/admin/hooks/useUserState.ts:115-125 | with nothing selected nothing changes; otherwise every user with the selected id is removed and every other one keeps all its copies, in order |
| UserAdmin.MockCreateKeepsIdsDistinct | src/pages/admin/hooks/useUserState.ts:85-95 | creating keeps a non-empty list of numeric, distinct ids numeric and distinct |
| UserAdmin.EmptyMockIdsCollide | src/pages/admin/hooks/useUserState.ts:85 | three creates from no users give the ids "-Infinity", "NaN", "NaN", which repeat |
| UserAdmin.MockUpdateKeepsIds | src/pages/admin/hooks/useUserState.ts:70-72 | an update keeps the ids and their order |
| EmailRules.LoginEmailIsFormEmail | src/pages/Login.tsx:22 | every address the login pattern accepts, the new-user pattern accepts too |
| EmailRules.DoubleDotRejected | src/pages/Login.tsx:22 | an address holding ".." anywhere is refused by the login pattern |
| EmailRules.LeadingDotRejectedByLogin | src/pages/Login.tsx:22 | an address starting with a dot is refused by the login pattern |
| EmailRules.AtIsUnique | src/pages/admin/components/user/NewUserForm.tsx:81 | an accepted address has exactly one "@", after a non-empty local part |
| EmailRules.LoginLocalPartBounded | src/pages/Login.tsx:22 | in an address the login pattern accepts, the "@" comes after 1 to 64 characters |
| EmailRules.FormAcceptsBuiltAddress | src/pages/admin/components/user/NewUserForm.tsx:81 | a well-formed local part, domain and top-level domain of two or more letters make an accepted address |
| EmailTemplates.ReadTemplates | src/pages/admin/hooks/useEmailTemplateHandlers.ts:26-35 | a failed fetch or missing `objRecords` gives no templates and 0 pages; missing records or page count default to none and 0 |
| EmailTemplates.FilterTemplates | src/pages/admin/hooks/useEmailTemplateHandlers.ts:38-42 | an order-preserving subsequence holding every copy of the templates whose subject, message or SMTP e-mail contains the term, ignoring case, and nothing else |
| EmailTemplates.EmptyTermKeepsAllTemplates | src/pages/admin/hooks/useEmailTemplateHandlers.ts:38-42 | an empty term keeps every template |
| EmailTemplates.ListTemplates | src/pages/admin/hooks/useEmailTemplateHandlers.ts:44-47 | without a term the fetched templates and the API's page count are shown as they are; with one the matches of the fetched page are counted as `ceil(matches / k)` pages and sliced at the current page as if they were the whole list |
| EmailTemplates.SearchOnFirstPageShowsAllMatches | src/pages/admin/hooks/useEmailTemplateHandlers.ts:38-47 | with a term, page 1 shows every match on the fetched page, in order |
| EmailTemplates.SearchBeyondFirstPageShowsNothing | src/pages/admin/hooks/useEmailTemplateHandlers.ts:26-47 | with a term on page 2 or later, the one fetched page is sliced again and nothing is shown, under a count of at most one page |
| EmailTemplates.MatchOnSecondPageHidden | src/pages/admin/hooks/useEmailTemplateHandlers.ts:44-47 | a matching template fetched for page 2 is filtered in but not shown |
| EmailTemplates.ListTemplatesFixed | src/pages/admin/hooks/useEmailTemplateHandlers.ts:38-47 | the corrected listing keeps the API's page count and shows every copy of each matching fetched template, in order, and nothing else |
| EmailTemplates.FixedListingAgreesWithoutTerm | src/pages/admin/hooks/useEmailTemplateHandlers.ts:44-47 | without a term the corrected listing equals the original |
| EmailTemplates.Handle | src/pages/admin/hooks/useEmailTemplateHandlers.ts:99-133 | every one of the fourteen events changes only its own piece of state, a failed mutation changes nothing, and only page change moves the page |
| EmailTemplates.DeleteRequest | src/pages/admin/hooks/useEmailTemplateHandlers.ts:82-86 | a delete is sent exactly when a template is selected, for that template's `_id` |
| EmailTemplates.SearchOnLaterPageListsNothing | src/pages/admin/hooks/useEmailTemplateHandlers.ts:11-47 | typing a term on page 2 or later keeps the page and lists nothing |
| EmailTemplates.CreateFormData | src/pages/admin/components/emailTemplate/EmailTemplateDialogs.tsx:50-59 | the form data has the nine keys from subject to htmlTemplate in order, with the file last |
| EmailTemplates.CreateFormRoundTrip | src/pages/admin/components/emailTemplate/EmailTemplateDialogs.tsx:50-59 | the fields and the file can be read back from the form data unchanged |
| EmailTemplates.EditFormData | src/pages/admin/components/emailTemplate/EmailTemplateDialogs.tsx:87-98 | the edit form data has 8 entries, and a 9th holding the file exactly when a new file was chosen |
| EmailTemplates.EditIsRenamedCreate | src/pages/admin/components/emailTemplate/EmailTemplateDialogs.tsx:88-98 | the edit form data is the create form data with the SMTP keys renamed to email, pass, host, port and secure, and the same file entry when one is chosen |
| EmailTemplates.SubmitNew | src/pages/admin/components/emailTemplate/EmailTemplateDialogs.tsx:48-60 | nothing is sent exactly when no file is chosen; what is sent reads back as the typed fields and the chosen file |
| EmailTemplates.AfterSubmitNew | src/pages/admin/components/emailTemplate/EmailTemplateDialogs.tsx:60-62 | the dialog resets to port 587, secure on and no file only after a successful create, and is otherwise kept |
| EmailTemplates.SyncEdit | src/pages/admin/components/emailTemplate/EmailTemplateDialogs.tsx:69-73 | a selected template replaces the edit data with its fields; no selection keeps the old data |
| EmailTemplates.SubmitEdit | src/pages/admin/components/emailTemplate/EmailTemplateDialogs.tsx:85-99 | an edit is sent exactly when there is edit data, for its id, with the edit form data |
| EmailTemplates.AfterSubmitEdit | src/pages/admin/components/emailTemplate/EmailTemplateDialogs.tsx:99-100 | a successful edit forgets the new file and keeps the data |
| EmailTemplates.FormSubmit | src/pages/admin/components/emailTemplate/EmailTemplateForm.tsx:38-54 | without a file no call is made; with one exactly one call is made, whose data reads back as the values and the file |
| EmailTemplates.FormAndDialogAgree | src/pages/admin/components/emailTemplate/EmailTemplateForm.tsx:38-54 | the stand-alone form and the new-template dialog refuse the same submissions and send the same data |
| PageControls.ItemsUpTo | src/pages/admin/components/plan/PlanPagination.tsx:36-64 | walking pages 1 to n renders, in increasing page order, exactly the pages that render something, each as its link or ellipsis |
| PageControls.PlanPagination | src/pages/admin/components/plan/PlanPagination.tsx:23-72 | nothing is rendered exactly when the page count is not positive; Previous asks for current - 1 exactly when current > 1, and Next asks for current + 1 exactly when current is below the count |
| PageControls.PlanItemsExact | src/pages/admin/components/plan/PlanPagination.tsx:36-64 | items are in increasing page order within 1..count; a page is a link exactly when it is first, last or within one of the current page; it is an ellipsis exactly when it is not a link and is page 2 with current > 3 or the next-to-last page with current < count - 2 |
| PageControls.FirstAndLastAreLinks | src/pages/admin/components/plan/PlanPagination.tsx:38-40 | the first and last pages are always links |
| PageControls.ActiveIffCurrent | src/pages/admin/components/plan/PlanPagination.tsx:46 | a link is active exactly when it is the current page |
| PageControls.IncreasingPages | src/pages/admin/components/plan/PlanPagination.tsx:36-37 | items in increasing page order have distinct pages |
| PageControls.LinksIncreasing | src/pages/admin/components/plan/PlanPagination.tsx:36-37 | the links alone are in increasing page order too |
| PageControls.LinkPagesLinked | src/pages/admin/components/plan/PlanPagination.tsx:38-42 | every rendered link is for a page that the link rule admits |
| PageControls.LinkedItemsAtMostFive | src/pages/admin/components/plan/PlanPagination.tsx:38-42 | at most five distinct pages satisfy the link rule |
| PageControls.AtMostFiveOf | src/pages/admin/components/plan/PlanPagination.tsx:38-42 | a list of rendered items holds at most five links |
| PageControls.AtMostFiveLinks | src/pages/admin/components/plan/PlanPagination.tsx:38-42 | the control never renders more than five page links |
| PageControls.NeighbouringLinksAreConsecutive | src/pages/admin/components/plan/PlanPagination.tsx:36-64 | two links with no ellipsis between them are for consecutive pages: every skipped page shows an ellipsis |
| PageControls.LabelTotal | src/pages/admin/components/emailTemplate/EmailTemplatePagination.tsx:19 | the label shows the page count, or 1 when it is 0 |
| PageControls.TemplatePagination | src/pages/admin/components/emailTemplate/EmailTemplatePagination.tsx:19-34 | Previous is disabled exactly on page 1 and otherwise asks for current - 1; Next is disabled exactly on the last page or when there are no pages, and otherwise asks for current + 1 |
| PageControls.ControlsAgreeInRange | src/pages/admin/components/emailTemplate/EmailTemplatePagination.tsx:25-34 | on pages within the count, the template control's buttons do what the plan control's do |
| PageControls.TemplateNextPastEnd | src/pages/admin/components/emailTemplate/EmailTemplatePagination.tsx:34 | past the last page, Next stays enabled and keeps going, where the plan control's Next is off |
| PageControls.TemplatePaginationFixed | src/pages/admin/components/emailTemplate/EmailTemplatePagination.tsx:25-34 | the corrected control keeps Previous, and Next only ever asks for a page within the count |
| PageControls.FixedNextAgrees | src/pages/admin/components/emailTemplate/EmailTemplatePagination.tsx:25-34 | the corrected Next equals the plan control's Next, and on pages within the count the corrected control equals the original |
| Auth.SubmitReset | src/pages/ResetPassword.tsx:31-53 | the checks run in order: differing passwords, then fewer than 6 characters, then a blank token; the first failure wins, and only a form passing all three sends the reset with e-mail, password and token |
| Auth.ResetSentIffValid | src/pages/ResetPassword.tsx:34-53 | a reset is sent exactly when the passwords agree, have at least 6 characters and the token is not blank |
| Auth.MountReset | src/pages/ResetPassword.tsx:20-29 | the reset page uses the saved e-mail exactly when one is present, and otherwise goes back to the forgot-password page |
| Auth.ResetAnswered | src/pages/ResetPassword.tsx:49-66 | loading ends; on success the saved e-mail is removed and the login page opens; on failure the server message or the default is shown and the e-mail is kept |
| Auth.SubmitForgot | src/pages/ForgotPassword.tsx:21-47 | an address the pattern refuses shows the error and sends nothing; on success the e-mail is stored and the reset page opens; on failure the server message or the default is shown; loading always ends |
| Auth.ForgotThenReset | src/pages/ForgotPassword.tsx:33-40 | after a successful request the reset page finds the validated address |
| Auth.SubmitLogin | src/pages/Login.tsx:26-43 | `login` is called exactly for an address the pattern accepts, with the error cleared and the credentials as typed; otherwise the error is set |
| Auth.LoginAndForgotAgree | src/pages/ForgotPassword.tsx:16-19 | the login and forgot-password pages accept exactly the same addresses |
| Auth.FetchBalance | src/contexts/AuthContext.tsx:45-57 | with neither a stored nor a current user nothing changes; otherwise the balance becomes the fetched total, or 0 on failure |
| Auth.Init | src/contexts/AuthContext.tsx:59-84 | loading ends; a session user wins, else the stored user is used; a failed check leaves nobody signed in; a balance is fetched only when a user was stored |
| Auth.InitEndsLoading | src/contexts/AuthContext.tsx:79-81 | after start-up the guard never shows the spinner |
| Auth.SessionUserWithoutStorageGetsNoBalance | src/contexts/AuthContext.tsx:45-69 | a session user with nothing stored is signed in but gets no balance |
| Auth.InitFixed | src/contexts/AuthContext.tsx:59-84 | with the check reading the user just found, start-up signs in the same user and fetches a balance exactly when someone is signed in |
| Auth.InitFixedAgreesWithStoredUser | src/contexts/AuthContext.tsx:45-75 | when a user is stored the corrected start-up equals the original |
| Auth.LoginTarget | src/contexts/AuthContext.tsx:101-105 | a login goes to `/admin` exactly for `isAdmin` or `permission_admin`, and to `/dashboard` otherwise |
| Auth.Login | src/contexts/AuthContext.tsx:86-114 | loading ends; success signs the user in, stores it, fetches a balance, clears the error and goes to the login target; failure shows the server message or the default and changes nothing else |
| Auth.Logout | src/contexts/AuthContext.tsx:116-130 | nobody is signed in, there is no balance, storage is empty, loading ends, the error is kept and the login page opens |
| Auth.RouteDecision | src/pages/admin/components/ProtectedRoute.tsx:5-31 | the spinner shows exactly while loading; the login redirect happens exactly when not loading and nobody is signed in; the dashboard redirect happens exactly for a signed-in non-admin on an `/admin` path; otherwise the page is shown |
| Auth.LogoutGuardsEveryPage | src/pages/admin/components/ProtectedRoute.tsx:19-21 | after logout every protected path redirects to the login |
| Auth.LoginTargetShown | src/pages/admin/components/ProtectedRoute.tsx:24-30 | unless only `permission_admin` is set, the page a login goes to is shown by the guard |
| Auth.PermissionAdminTurnedBack | src/pages/admin/components/ProtectedRoute.tsx:24 | a user with only `permission_admin` is sent to `/admin` and turned back to `/dashboard` |

## Left out

- **I/O.** HTTP calls, the axios client, `localStorage`, toast titles and success toasts, and navigation
  are left out. A request appears as a value returned by `Handle`. An API
  answer is a parameter. Storage and navigation are plain fields.
- **Timers and async ordering.** The 300 ms debounce and the 200 ms blur delay
  are left out. Autocomplete events arrive in the order given.
  React-Query's caching, invalidation and refetching are not modelled either,
  so a mutation's success is an event.
- **Floating point.** `parseFloat` is a parameter of the search builder, and
  prices are `real`s that are only copied.
- **Numbers.** JavaScript numbers are doubles; the model's are unbounded
  integers. Integers are exact in a double only up to 2^53 (9007199254740992):
  above it `+ 1` can round back to the same number and `parseInt` of a longer
  digit run returns the nearest double. From 10^21 on, `String(n)` writes an
  exponent ("1e+21"), and `parseInt` of that text reads only its leading digit.
  The members below hold in JavaScript only under those bounds.
- **Dates and locale.** Date formatting (`date-fns`, `toLocaleDateString`) is
  a parameter or an already formatted string, and the current time is a
  parameter.
- **Search results.** The search-result mapping and the search and e-mail
  requests' own answers are left out. They depend on the clock and on
  locale formatting.
- **Text.** Strings are sequences of Unicode scalar values rather than UTF-16
  code units, so `length` counts code points. This matters only for the
  6-character password check, for characters outside the Basic Multilingual
  Plane.
- **Case.** `toLowerCase` is modelled for ASCII and Latin-1 letters only.
  Other scripts are left unchanged.
- **Unused fields.** Template timestamps and `__v`, plan timestamps, and the
  user list's unused fields are left out.
- **Presentation.** Rendering, dialogs' open flags that no property reads,
  and components with no decisions of their own are left out.
- FileList.FetchUserDocuments: a thrown error of the listing call is a missing listing; the two cases are not told apart.
- Autocomplete.Next: selecting hides the panel at once, and blurring, which hides it after a timer, is not an event.
- MockIds.MaxPlusOneFresh: the next id is new only while the largest id plus one stays below 2^53; the id list ["9007199254740992"] gets that id again.
- MockIds.MaxPlusOneKeepsIdsDistinct: the ids stay distinct only below 2^53, for the same reason.
- MockIds.NextIdFixedKeepsIdsDistinct: the corrected id is new only below 2^53.
- DomainAdmin.NextIdOfLast: "last id plus one" holds only while that sum is below 2^53.
- DomainAdmin.NextIdAbove: the next id lies above every id only below 2^53.
- DomainAdmin.NextIdOfIncreasing: holds only below 2^53.
- DomainAdmin.MockAddFresh: the added id is new only below 2^53; "9007199254740992" as the last id is appended again.
- DomainAdmin.MockAddKeepsIncreasingIds: strict increase holds only below 2^53.
- LeadAdmin.MockCreateKeepsIdsDistinct: the ids stay distinct only below 2^53.
- LeadAdmin.MockCreateFixedKeepsIdsDistinct: the ids stay distinct only below 2^53.
- UserAdmin.MockCreateKeepsIdsDistinct: the ids stay distinct only below 2^53.
- SearchPayload.LimitOfNumber: the typed limit is sent exactly only below 2^53; "9007199254740993" is sent as 9007199254740992.
- JsNumber.NatToString: this is `String(n)` only below 10^21, where JavaScript switches to exponent notation.
- JsNumber.ParseIntOfIntToString: the round trip holds only for |n| < 10^21; `parseInt("1e+21")` is 1.
- CatalogAdmin.ServiceUpdateTargetsNumericId: the id text is `String(id)` only for ids below 10^21.
- SearchPayload.FormatNumber: the parsed amount is whatever the `parseFloat` parameter returns; its numeric behaviour is not modelled.

## Findings

| source | as written | input that shows it | evidently intended | confidence | as-written member | corrected member |
|---|---|---|---|---|---|---|
| src/pages/admin/components/domain/DomainList.tsx:25-29 | the list pages the domains it is handed, which the hook has already cut to one page, and its control changes only its own page | k + 1 matching domains with k per page: the hook's page 1 holds the first k, and the last domain appears on no local page | page the filtered domains once, so every domain is on some page | medium, not executed | DomainAdmin.DomainListHidesLastMatch | DomainAdmin.FixedListReachesEveryDomain |
| src/pages/admin/hooks/useUserState.ts:85 | the next mock id is `Math.max(...ids.map(id => parseInt(id))) + 1` | three creates from an empty list give "-Infinity", "NaN", "NaN"; the same holds at src/pages/admin/hooks/useLeadState.ts:77 | start numbering at 1 when the list is empty | high, not executed | MockIds.EmptyListIdsCollide | MockIds.NextIdFixedKeepsIdsDistinct |
| src/pages/admin/components/user/NewUserForm.tsx:115-116 | the form sets the parent's draft and calls the create in the same handler, and the create reads the draft of the render it was bound to | open the new-user dialog, fill a valid form, submit: the create sees the empty draft and refuses with the required-fields message | create from the values just submitted | high, not executed | UserAdmin.FreshDialogSubmitRefused | UserAdmin.ValidFormIsSent |
| src/pages/admin/hooks/useEmailTemplateHandlers.ts:44-47 | with a search term, the page the API returned is sliced again at the current page | any term on page 2: the fetched page is cut at (2-1)*k and nothing is listed | filter the fetched page without re-slicing it | high, not executed | EmailTemplates.SearchBeyondFirstPageShowsNothing | EmailTemplates.ListTemplatesFixed |
| src/pages/admin/components/emailTemplate/EmailTemplatePagination.tsx:34 | Next is disabled only when the page equals the count | page 3 of 2: Next stays enabled and asks for page 4 | disable Next from the last page on | medium, not executed | PageControls.TemplateNextPastEnd | PageControls.TemplatePaginationFixed |
| src/contexts/AuthContext.tsx:47 | the balance check reads the user of the first render, which is null, so it needs a stored user | a session cookie with empty storage: the user is signed in and no balance is fetched | fetch the balance for whoever is signed in | medium, not executed | Auth.SessionUserWithoutStorageGetsNoBalance | Auth.InitFixed |
