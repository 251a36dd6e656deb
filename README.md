# Document workspace: client-side rules, in Dafny

A model of the client-side rules of a browser-based document workspace. A user
uploads a PDF, picks one of its pages, fills the form that was generated for
that page, and asks a chat assistant about the document. The backend owns every
persisted record. This model covers what the client itself decides:

- **Chat history with optimistic entries.** The chat panel's history keeps
  optimistic entries under `temp-user-…` and `temp-ai-…` ids. A save
  acknowledgement replaces such an entry; a save failure removes it. The send
  guard refuses empty input and any send while an AI request is pending.
- **The generated form.** A field map from the generator becomes a validation
  schema of canonical key and optional rule. Field names are normalised (each
  white-space run becomes `_`, then the name is lower-cased). Each field gets a
  label and a control. The module also covers the load rule for saved answers,
  the save request, and which view the form panel shows.
- **Fetch-response handling.** This covers which message an error response
  throws (in priority order), `null` for a 204, the `null` fallbacks of the
  form-data fetch, and the fields the chat POST sends.
- **Small state machines.**
  - The upload dialog: file validation, the open, selected-file and error state,
    and the upload status.
  - The workspace's page selection, from the `page` query parameter or else the
    lowest page number.
  - The page list: sorted in place by page number, with the selected page
    marked.
  - The app shell's sidebar cookie.

Each core file is one module:

- `ChatbotPanel`
- `DynamicFormPanel`
- `FormRenderer`
- `Api`
- `UploadProjectDialog`
- `ProjectWorkspaceLayout`
- `PageListSidebar`
- `AppShell`

Three modules support them:

- `ApiTypes` holds the records of `src/types/api.ts`.
- `JsString` holds the JavaScript string built-ins the code calls: `\s`, `trim`,
  `toLowerCase`, `startsWith`, `split`, `join`, integer `toString` and
  `parseInt`.
- `Wrappers` holds `Option`.

Components whose state changes step by step are classes:

- `ChatPanel`
- `FormPanel`
- `UploadDialog`
- `WorkspaceLayout`
- `Shell`

The history updaters, the schema, the load rule and the view choices are functions,
and lemmas state their laws. Both `createFormSchema` and `pages.sort` are loops
over state. `createFormSchema` is proved against a specification function.
`pages.sort` is an in-place sort of an `array`, proved sorted and a permutation.

Inputs from outside the code under study become parameters:

- `document.cookie` (`None` when reading it throws);
- the `page` query parameter;
- `Date.now()` and the current ISO time;
- `JSON.parse` and `JSON.stringify`, as uninterpreted functions;
- the received HTTP response.

## Model

| member | source | states |
|---|---|---|
| JsString.ToLower | src/components/workspace/FormRenderer.tsx:21 | same length; each character is lower-cased on its own (ASCII letters) |
| JsString.Trim | src/components/workspace/ChatbotPanel.tsx:115-117 | `String.prototype.trim`: drops the leading and the trailing white space; TrimEmptyIff states when the result is empty and that it neither starts nor ends with white space otherwise |
| JsString.TrimEmptyIff | src/components/workspace/ChatbotPanel.tsx:115 | `trim()` gives `""` exactly when the text is all white space; otherwise the trimmed text neither starts nor ends with white space |
| JsString.Split | src/components/layout/AppShell.tsx:118-120 | `split(sep)` with a non-empty string separator gives at least one piece; JoinSplit and SplitJoin make it the inverse of Join |
| JsString.Join | src/lib/api.ts:29 | `join(sep)`: the pieces with `sep` between neighbours; JoinSplit and SplitJoin make it the inverse of Split |
| JsString.JoinSplit | src/components/layout/AppShell.tsx:117-120 | joining the pieces of `split(sep)` with `sep` gives back the original string |
| JsString.SplitJoin | src/lib/api.ts:29 | splitting pieces joined by `sep` gives the pieces back when none contains the separator's first character |
| JsString.ParseInt | src/components/workspace/ProjectWorkspaceLayout.tsx:48 | `parseInt(s, 10)`: optional leading white space and sign, then the leading decimal digits, NaN (`None`) when there are none; ParseIntOfIntToString proves it reads back the decimal text of every integer |
| JsString.IntToString | src/lib/api.ts:25 | the decimal text of an integer is non-empty and starts with '-' or a digit |
| JsString.ParseIntOfIntToString | src/components/workspace/ProjectWorkspaceLayout.tsx:48 | `parseInt(String(n), 10)` is `n` for every integer |
| Api.StatusMessage | src/lib/api.ts:17-25 | "HTTP error! status: " followed by text that `parseInt` reads back as the status |
| Api.DetailMessage | src/lib/api.ts:29 | the validation lines joined by "; "; DetailMessageLines proves that splitting at "; " gives the lines back in order when no line contains ';' |
| Api.DetailMessageLines | src/lib/api.ts:29 | when no line contains ';', splitting the detail message at "; " gives one `loc.join('.') + ": " + msg` line per validation error, in order |
| Api.HasDetail | src/lib/api.ts:28 | `errorData.detail && errorData.detail.length > 0`: a non-empty list or a non-empty string; ErrorFailure takes the detail branch exactly then |
| Api.ErrorFailure | src/lib/api.ts:16-34 | the thrown error, by priority: a string body as-is; a non-empty detail list as its joined lines; an `error` value; else the status message. A non-JSON body gives statusText or the status message. A null or primitive body, or a non-empty detail string, gives a TypeError exactly |
| Api.HandleResponse | src/lib/api.ts:15-40 | `handleResponse`: HandleResponseRules states that a status outside 200-299 always throws the ErrorFailure failure, 204 gives null, and any other ok status gives the parsed body or a SyntaxError |
| Api.HandleResponseRules | src/lib/api.ts:15-40 | a non-ok response throws (never a SyntaxError) and only a non-ok response throws that way; an ok 204 gives null; any other ok response gives the parsed body, or the SyntaxError of a body that is not JSON |
| Api.GetFormDataAsWritten | src/lib/api.ts:107-118 | getFormData as written: it rejects exactly when the fetch succeeded, the status is not 404 and handleResponse throws; a value it returns is the payload of an ok response |
| Api.GetFormDataAsWrittenRejects | src/lib/api.ts:107-118 | as written, every error status other than 404 makes getFormData reject |
| Api.GetFormDataAsWrittenRejectsServerError | src/lib/api.ts:107-118 | as written, a 500 with body `{}` rejects with "HTTP error! status: 500" instead of returning null |
| Api.GetFormData | src/lib/api.ts:107-118 | null when fetch rejects, on 404 and on every handleResponse failure; otherwise the handled value; a value only from an ok response's payload |
| Api.GetFormDataAgrees | src/lib/api.ts:107-118 | wherever the as-written version settles with a value, the corrected one returns the same; where it rejects, the corrected one returns null |
| Api.PostChatMessagePayload | src/lib/api.ts:121-124 | the payload carries the message's `message` and `is_user_message` |
| Api.PayloadDropsTempId | src/lib/api.ts:123-124 | the payload does not depend on the extra `tempId` |
| ChatbotPanel.UserTempId | src/components/workspace/ChatbotPanel.tsx:73 | `temp-user-${Date.now()}`; TempIdsAreTempTokens and TempTokenIsNoServerId show it is a temp token and never the text of a numeric id |
| ChatbotPanel.AiTempId | src/components/workspace/ChatbotPanel.tsx:92 | `temp-ai-${Date.now()}`; TempIdsAreTempTokens and TempTokenIsNoServerId show it is a temp token and never the text of a numeric id |
| ChatbotPanel.TempIdsAreTempTokens | src/components/workspace/ChatbotPanel.tsx:73-92 | `temp-user-${now}` and `temp-ai-${now}` both carry a temp prefix |
| ChatbotPanel.TempTokenIsNoServerId | src/types/api.ts:32 | no temp token equals `toString()` of a numeric backend id |
| ChatbotPanel.Appended | src/components/workspace/ChatbotPanel.tsx:81 | an optimistic insert adds exactly one entry, at the end, and keeps every earlier entry in place |
| ChatbotPanel.ReplacedById | src/components/workspace/ChatbotPanel.tsx:54 | same length; entries whose id text equals the temp id become the saved message, all others keep value and position |
| ChatbotPanel.RemovedById | src/components/workspace/ChatbotPanel.tsx:64 | the result is no longer than the history and holds no entry whose id text is the temp id |
| ChatbotPanel.RemovedByIdMembers | src/components/workspace/ChatbotPanel.tsx:64 | an entry is in the result exactly when it is in the history and does not carry the temp id |
| ChatbotPanel.Acknowledged | src/components/workspace/ChatbotPanel.tsx:51-57 | the save-success updater: with a truthy temp id its carriers become the saved message, otherwise it is appended; AcknowledgeEffect, AcknowledgeKeepsConfirmed and InsertThenAcknowledge state the effect |
| ChatbotPanel.RolledBack | src/components/workspace/ChatbotPanel.tsx:62-65 | the save-failure updater: with a truthy temp id its carriers are dropped, otherwise nothing changes; RollbackKeepsConfirmed, InsertThenRollback and RollbackIsIndependent state the effect |
| ChatbotPanel.AcknowledgeEffect | src/components/workspace/ChatbotPanel.tsx:51-57 | with a truthy temp id the acknowledgement replaces its carriers in place; without one it appends the saved message |
| ChatbotPanel.AcknowledgeAbsentIsIdentity | src/components/workspace/ChatbotPanel.tsx:54 | acknowledging a temp id no entry carries leaves the history unchanged |
| ChatbotPanel.RemoveAbsentIsIdentity | src/components/workspace/ChatbotPanel.tsx:64 | removing an id no entry carries leaves the history unchanged |
| ChatbotPanel.RemoveDistributes | src/components/workspace/ChatbotPanel.tsx:64 | removal of a concatenation is the concatenation of removals, so the kept entries keep their relative order |
| ChatbotPanel.RollbackKeepsConfirmed | src/components/workspace/ChatbotPanel.tsx:62-65 | a rollback by a temp token leaves the confirmed (numeric-id) entries exactly as they were, in order |
| ChatbotPanel.AcknowledgeKeepsConfirmed | src/components/workspace/ChatbotPanel.tsx:53-54 | an acknowledgement by a temp token leaves every confirmed entry where and what it was |
| ChatbotPanel.InsertThenAcknowledge | src/components/workspace/ChatbotPanel.tsx:81-85 | an optimistic insert followed by its acknowledgement leaves the saved message in its place |
| ChatbotPanel.InsertThenRollback | src/components/workspace/ChatbotPanel.tsx:60-66 | an optimistic insert followed by its rollback restores the history |
| ChatbotPanel.RollbackIsIndependent | src/components/workspace/ChatbotPanel.tsx:62-65 | rolling back one of two pending entries leaves the other in place |
| ChatbotPanel.ChatPanel.constructor | src/components/workspace/ChatbotPanel.tsx:23-33 | the panel starts with the loaded history, an empty input and no AI request pending |
| ChatbotPanel.ChatPanel.Edit | src/components/workspace/ChatbotPanel.tsx:23 | the input changes and nothing else does |
| ChatbotPanel.Question | src/components/workspace/ChatbotPanel.tsx:115-117 | no question exactly when an AI request is pending or the input is only white space; otherwise the question is the trimmed input, which is not empty |
| ChatbotPanel.ChatPanel.SendMessage | src/components/workspace/ChatbotPanel.tsx:71-85 | whitespace-only input or a pending AI request changes nothing and sends nothing; otherwise the trimmed text is sent with a `temp-user-` id, the input is cleared, the request is pending, and the optimistic user entry is appended |
| ChatbotPanel.ChatPanel.AiSucceeded | src/components/workspace/ChatbotPanel.tsx:90-103 | the answer is appended under a `temp-ai-` id and a save request carrying that id is returned |
| ChatbotPanel.ChatPanel.AiFailed | src/components/workspace/ChatbotPanel.tsx:105-109 | only the pending flag changes: the optimistic user entry stays in the history |
| ChatbotPanel.ChatPanel.SaveSucceeded | src/components/workspace/ChatbotPanel.tsx:50-57 | the history becomes its acknowledgement by the request's temp id |
| ChatbotPanel.ChatPanel.SaveFailed | src/components/workspace/ChatbotPanel.tsx:60-66 | the history becomes its rollback by the request's temp id (unchanged without one) |
| FormRenderer.NormalizeFieldName | src/components/workspace/FormRenderer.tsx:20-22 | `normalizeFieldName`; NormalizedHasNoWhitespace, NormalizeIdempotent and NormalizeTwoWords state what it gives |
| FormRenderer.CollapseWhitespace | src/components/workspace/FormRenderer.tsx:21 | the result contains no white space |
| FormRenderer.NormalizedHasNoWhitespace | src/components/workspace/FormRenderer.tsx:20-22 | a normalised field name contains no white space |
| FormRenderer.NormalizeIdempotent | src/components/workspace/FormRenderer.tsx:20-22 | normalising twice is normalising once |
| FormRenderer.CollapseRun | src/components/workspace/FormRenderer.tsx:21 | a maximal run of white space between a word and the rest becomes exactly one '_' |
| FormRenderer.NormalizeTwoWords | src/components/workspace/FormRenderer.tsx:20-22 | two words with no white space around a run of white space normalise to the lower-cased words joined by one '_' |
| FormRenderer.FullNameExample | src/components/workspace/FormRenderer.tsx:20-22 | "Full Name" normalises to "full_name" |
| FormRenderer.SpacedNameExample | src/components/workspace/FormRenderer.tsx:20-22 | "full   name" normalises to "full_name" |
| FormRenderer.DisplayLabel | src/components/workspace/FormRenderer.tsx:33 | the label when it is non-empty, otherwise the raw field name |
| FormRenderer.ControlFor | src/components/workspace/FormRenderer.tsx:45-94 | text and multi-line text get input and text area with "Enter <label>". A checkbox's caption is its first option, or the label without options. Radio and dropdown render exactly when `options` is present, with the options in order. No control exactly for an unknown kind or a radio or dropdown without options |
| FormRenderer.RenderField | src/components/workspace/FormRenderer.tsx:31-33 | a field's name is its normalised name (free of white space), with its display label and its control |
| FormRenderer.Render | src/components/workspace/FormRenderer.tsx:25-31 | an empty field map gives only the "no form fields" message; otherwise one rendered field per entry, in entry order |
| DynamicFormPanel.RuleFor | src/components/workspace/DynamicFormPanel.tsx:32-44 | text, multi-line text, radio and dropdown give an optional string exactly; checkbox an optional boolean exactly; any other kind the optional any |
| DynamicFormPanel.SchemaOf | src/components/workspace/DynamicFormPanel.tsx:28-47 | the shape `createFormSchema` builds, entry by entry; SchemaKeys gives its keys and SchemaLastWins the rule of each key |
| DynamicFormPanel.SchemaKeys | src/components/workspace/DynamicFormPanel.tsx:30-31 | the schema's key set is exactly the set of normalised field names |
| DynamicFormPanel.SchemaLastWins | src/components/workspace/DynamicFormPanel.tsx:30-45 | when several names normalise to one key, the last of them in entry order gives the key its rule |
| DynamicFormPanel.EditKeepsAccepted | src/components/workspace/DynamicFormPanel.tsx:86-89 | a change of one key keeps values that pass the schema passing exactly when the new value passes that key's rule or the key is outside the schema |
| DynamicFormPanel.CreateFormSchema | src/components/workspace/DynamicFormPanel.tsx:28-47 | the loop builds the schema of the field list, with one key per normalised name |
| DynamicFormPanel.RenderedNamesAreSchemaKeys | src/components/workspace/FormRenderer.tsx:31-32 | every field the renderer shows is named by a key of the schema |
| DynamicFormPanel.ControlMatchesRule | src/components/workspace/DynamicFormPanel.tsx:32-43 | text-like controls go with a string rule, the checkbox exactly with the boolean rule, and an unconstrained kind gets no control |
| DynamicFormPanel.LoadRule | src/components/workspace/DynamicFormPanel.tsx:96-108 | present data that parses resets to the parsed object as-is; absent, null or `""` data resets to `{}`; data that does not parse fails exactly then |
| DynamicFormPanel.LoadAsWritten | src/components/workspace/DynamicFormPanel.tsx:91-108 | the saved-data callback as written: it is never called, so the values stay as they were whatever was saved |
| DynamicFormPanel.SavedAnswersNotRestoredAsWritten | src/components/workspace/DynamicFormPanel.tsx:91-108 | for saved answers `{"name":"Ada"}` on a fresh form, the load rule resets the form to them while the callback as written leaves the form empty |
| DynamicFormPanel.SaveThenLoad | src/components/workspace/DynamicFormPanel.tsx:96-113 | loading what a save stored resets the form to the saved values whenever parse inverts stringify on them |
| DynamicFormPanel.ViewOf | src/components/workspace/DynamicFormPanel.tsx:128-176 | loading first, then the generation error (its message or the fallback), then "no fields" for an undefined or empty map, then the rendered form |
| DynamicFormPanel.FormPanel.constructor | src/components/workspace/DynamicFormPanel.tsx:53-89 | empty schema, empty values, no notices |
| DynamicFormPanel.FormPanel.FieldsLoaded | src/components/workspace/DynamicFormPanel.tsx:80-84 | the schema becomes that of the loaded fields; the values are untouched |
| DynamicFormPanel.FormPanel.SavedDataLoaded | src/components/workspace/DynamicFormPanel.tsx:96-108 | the callback as intended (see the findings): a reset sets the values to the load rule's values; a parse failure keeps them and adds the error notice |
| DynamicFormPanel.FormPanel.Edit | src/components/workspace/FormRenderer.tsx:56-66 | a control's change sets exactly that key |
| DynamicFormPanel.FormPanel.Submit | src/components/workspace/DynamicFormPanel.tsx:111-126 | the save request carries `JSON.stringify` of the current values |
| DynamicFormPanel.FormPanel.SaveSucceeded | src/components/workspace/DynamicFormPanel.tsx:115-118 | only the "Form Saved" notice is added |
| DynamicFormPanel.FormPanel.SaveFailed | src/components/workspace/DynamicFormPanel.tsx:119-121 | the values stay as they were; a notice with the message, or the fallback, is added |
| UploadProjectDialog.FileError | src/components/projects/UploadProjectDialog.tsx:58-66 | a non-PDF type gives the PDF error whatever the size; a PDF over 50·1024·1024 bytes gives the size error; accepted exactly when a PDF of at most 50 MiB |
| UploadProjectDialog.SizeLimitIsInclusive | src/components/projects/UploadProjectDialog.tsx:63 | exactly 50 MiB is accepted, one byte more is refused |
| UploadProjectDialog.TypeCheckedBeforeSize | src/components/projects/UploadProjectDialog.tsx:58-66 | a large non-PDF gets the type error |
| UploadProjectDialog.UploadDialog.constructor | src/components/projects/UploadProjectDialog.tsx:24-26 | closed, no file, no error, idle |
| UploadProjectDialog.UploadDialog.HandleFileChange | src/components/projects/UploadProjectDialog.tsx:55-71 | no file: nothing changes; a refused file clears the selection and sets its error; an accepted one becomes the selection and clears the error; a selection is always an accepted file |
| UploadProjectDialog.UploadDialog.HandleSubmit | src/components/projects/UploadProjectDialog.tsx:73-81 | without a selection only the error is set and no upload starts; otherwise the error is cleared and the selected file's upload starts |
| UploadProjectDialog.UploadDialog.OpenChange | src/components/projects/UploadProjectDialog.tsx:84-90 | closing clears the selection and the error and resets the upload; opening changes nothing else |
| UploadProjectDialog.UploadDialog.UploadSucceeded | src/components/projects/UploadProjectDialog.tsx:32-44 | the dialog closes and forgets the file and the error |
| UploadProjectDialog.UploadDialog.UploadFailed | src/components/projects/UploadProjectDialog.tsx:45-52 | the error becomes the message or its fallback; open state and selection stay |
| PageListSidebar.SortByPageNumber | src/components/workspace/PageListSidebar.tsx:39-40 | the array is reordered in place into ascending page number and holds the same multiset of pages |
| PageListSidebar.ButtonsFor | src/components/workspace/PageListSidebar.tsx:41-50 | one button per page in list order, reporting that page's number; a button is current exactly when the selection equals its page number |
| PageListSidebar.NoSelectionNoCurrent | src/components/workspace/PageListSidebar.tsx:44-50 | without a selection no page is marked |
| PageListSidebar.AtMostOneCurrent | src/components/workspace/PageListSidebar.tsx:44-50 | with distinct page numbers at most one page is marked |
| PageListSidebar.RenderSidebar | src/components/workspace/PageListSidebar.tsx:27-61 | loading shows five skeletons and leaves the array alone; an undefined or empty list shows the "no pages" message; otherwise the array is sorted in place and its buttons are shown |
| ProjectWorkspaceLayout.ReadPageParam | src/components/workspace/ProjectWorkspaceLayout.tsx:46-51 | absent or empty means no parameter; otherwise NaN exactly when `parseInt` finds no digits, else the number it reads |
| ProjectWorkspaceLayout.PageUrl | src/components/workspace/ProjectWorkspaceLayout.tsx:56-63 | `${pathname}?page=${n}`; PageUrlReadsBack proves the number reads back from the parameter |
| ProjectWorkspaceLayout.PageUrlReadsBack | src/components/workspace/ProjectWorkspaceLayout.tsx:56-63 | the page number written into the URL reads back as the same number |
| ProjectWorkspaceLayout.WorkspaceLayout.constructor | src/components/workspace/ProjectWorkspaceLayout.tsx:27 | nothing selected, no navigation |
| ProjectWorkspaceLayout.WorkspaceLayout.SyncSelection | src/components/workspace/ProjectWorkspaceLayout.tsx:45-58 | a number selects that page; NaN changes nothing; with no parameter and pages, the array is sorted in place, the minimum page number is selected and the URL replaced with it; with no parameter and no pages nothing changes |
| ProjectWorkspaceLayout.WorkspaceLayout.HandleSelectPage | src/components/workspace/ProjectWorkspaceLayout.tsx:61-64 | page `n` is selected and `?page=n` pushed |
| ProjectWorkspaceLayout.ViewOf | src/components/workspace/ProjectWorkspaceLayout.tsx:66-123 | loading, then an error (the project's message first), then a missing project, then the workspace, whose panels show exactly for a truthy selection |
| ProjectWorkspaceLayout.PageZeroShowsNoPanels | src/components/workspace/ProjectWorkspaceLayout.tsx:113-123 | page 0 counts as unselected, page 1 does not |
| AppShell.FindRow | src/components/layout/AppShell.tsx:119 | the index of the first row with the prefix, or none when no row has it |
| AppShell.SplitCookieRow | src/components/layout/AppShell.tsx:120 | `split('=')[1]` of the cookie's row exists and is the text after "sidebar_state=" up to the next '=' |
| AppShell.CookieValue | src/components/layout/AppShell.tsx:117-120 | none exactly when no "; "-row starts with "sidebar_state="; otherwise the piece of the first such row up to the next '=' |
| AppShell.InitialOpen | src/components/layout/AppShell.tsx:115-133 | closed exactly when the cookie was read and its value is the exact text "false" |
| AppShell.RowValue | src/components/layout/AppShell.tsx:120 | the row `sidebar_state=v` gives `v` when `v` holds no '=' |
| AppShell.CookieReadsBack | src/components/layout/AppShell.tsx:117-120 | a cookie string carrying `sidebar_state=v` after other cookies reads back as `v` |
| AppShell.StoredStateReadsBack | src/components/layout/AppShell.tsx:122-127 | such a cookie opens the sidebar exactly when `v` is not "false" |
| AppShell.Shell.constructor | src/components/layout/AppShell.tsx:111 | the sidebar starts open |
| AppShell.Shell.OnMount | src/components/layout/AppShell.tsx:113-134 | the mount effect sets the state to the initial-open rule of the cookie |
| AppShell.Shell.SetOpen | src/components/layout/AppShell.tsx:137 | the provider's change sets the state |

## Left out

- Rendering: markup, styling, skeleton shapes, icons and the scroll-to-bottom of the chat are not modelled. A view is described by the datatype that says what it shows.
- Notices: toasts appear only where the load rule and the form save need them. The text of the chat and upload toasts is not modelled.
- Query caching: caching, invalidation, `enabled` chains, refetching and the timing of mutations are not modelled. Each resolved callback of the components is one sequential method call on these classes.
- `fetch`, URLs, headers and the environment lookup are I/O. A wrapper receives the response, or `None` when `fetch` rejected.
- `createProject` and the other fetch wrappers only pass their response to handleResponse, which is modelled. The AI flows call an external model and are not part of this model.
- `onUploadSuccess`, the invalidation of the project list and the "Selected: … MB" size display are not modelled. The size display uses floating point.
- `JSON.parse` and `JSON.stringify` are uninterpreted parameters. Error bodies are classified by shape (string, object, primitive, not JSON). An object's `error` property is taken to be a string.
- Api.ErrorFailure: the message of the TypeError is not modelled, only that one is thrown. This case is entered by `'detail' in` on a JSON `null`, number or boolean, and by `.map` on a non-empty `detail` string.
- JsString.ToLower: lower-cases only the ASCII letters, while `toLowerCase` handles all of Unicode.
- ProjectWorkspaceLayout.ReadPageParam: integers are unbounded. The floating-point value that `parseInt` gives for very long digit strings is not modelled.
- PageListSidebar.SortByPageNumber: guarantees order and permutation but not stability. `Array.prototype.sort` is stable; the model's insertion sort is too, but that is not proved.
- ApiTypes.FormValue: numbers are integers.
- GeneratedFormFields is the field map in `Object.entries` order. JavaScript's rule that integer-like keys come first is not modelled.
- DynamicFormPanel.FormPanel.Submit: sends the current values as they are. The form library's schema check before `onSubmit`, and its dropping of keys outside the schema, are not modelled.
- `Date.now()` and `new Date().toISOString()` are parameters of the chat methods.
- Behaviours of the code that the model follows as they are:
  - chat history is kept per project (`['chatHistory', projectId]`); there is no chat session;
  - saved form data is loaded as-is; keys that are no longer in the schema are not filtered out;
  - a checkbox's saved value is not coerced to a boolean;
  - saved data that does not parse leaves the current values in place and raises a notice; the form is not reset to empty.

## Findings

| source | as written | input that shows it | evidently intended | confidence | as-written member | corrected member |
|---|---|---|---|---|---|---|
| src/components/workspace/DynamicFormPanel.tsx:91-108 | the saved-data reset is passed to `useQuery` as `onSuccess`, an option TanStack Query v5 removed (the component uses v5's `isPending`; `next.config.ts` sets `ignoreBuildErrors`, so the type error does not stop the build) | saved data `{"name":"Ada"}` for the page: the form stays empty (lemma SavedAnswersNotRestoredAsWritten) | loading the saved data resets the form to it, or raises the notice when it does not parse | not executed; the TanStack Query version is inferred from the code, since package.json is not part of this model | DynamicFormPanel.LoadAsWritten | DynamicFormPanel.LoadRule |
| src/lib/api.ts:108-117 | `return handleResponse(response)` is not awaited inside `try`, so a rejection of handleResponse escapes the `catch` | a 500 response with body `{}`: getFormData rejects with "HTTP error! status: 500" (lemmas GetFormDataAsWrittenRejectsServerError and GetFormDataAsWrittenRejects) | getFormData returns null on any failure, as its `catch` says | not executed | Api.GetFormDataAsWritten | Api.GetFormData |
