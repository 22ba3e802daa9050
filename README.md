# Enrollment admin console — a Dafny model

This project models the core of the administrators' web console of a school
enrollment system. The console is a React single-page application. Its
core is:

- the REST client: the bearer token kept in `localStorage`, the request
  headers, and the envelope rule that turns a reply into data or an error
  message;
- the session provider. It checks a stored token at start-up, signs an
  administrator in and out, and only ever holds an administrator.
- the route table and its guard, and the layout shell with its navigation
  highlighting, sign-out and mobile drawer;
- the four pages:
  - the dashboard: statistics cards and two pie charts;
  - the enrollment list, with its status filter;
  - the archive, with its school-year tabs;
  - the enrollment detail page, with its status, archive, delete and
    e-mail actions.

Each page's state is a `class`. Its fields are the page's `useState` cells,
and one method stands for each event handler or effect. What a page shows is
a pure function of that state, returning a `datatype`. The network is
abstract: an operation that talks to the server is handed the server's
reply, or the outcome of the call, as a parameter. It returns the request it
would send or the navigation it would make.

The JavaScript runtime behaviour that the views depend on is written out in
three modules:

- `Text`: truthiness of strings, `String.prototype.trim` with the white space
  of ECMA-262, `split`/`join` on one character, and decimal rendering;
- `Ordering`: the default `Array.prototype.sort` order, `Set` de-duplication
  and `reverse`;
- `UriComponent`: `encodeURIComponent` with its UTF-8 percent-encoding, and a
  decoder to state its round trip.

Two standards are cited by the model:

- the Bearer credentials syntax, section 2.1 of RFC 6750;
- the `data:` URL syntax, section 3 of RFC 2397.

Files:

| file | module | what it holds |
|---|---|---|
| wrappers.dfy | Wrappers | `Option`, `Result`, `Unit` |
| text.dfy | Text | truthiness, `trim`, `split`/`join`, decimals |
| ordering.dfy | Ordering | string order, sort, distinct, reverse |
| uri_component.dfy | UriComponent | `encodeURIComponent` and its inverse |
| api.dfy | Api | token storage, headers, endpoints, reply envelope |
| auth.dfy | Auth | `AuthProvider` session |
| app.dfy | App | routes and `ProtectedRoute` |
| layout.dfy | Layout | navigation highlighting, user name, sign-out, drawer |
| listing.dfy | Listing | status badges, date cells, row links, "Showing N …" |
| enrollments.dfy | Enrollments | the enrollment list page |
| archive.dfy | Archive | the archive page |
| dashboard.dfy | Dashboard | the dashboard page |
| enrollment_detail.dfy | EnrollmentDetail | the enrollment detail page |

## Model

| member | source | states |
|---|---|---|
| Text.Trim | src/pages/EnrollmentDetail.tsx:244 | the result is the slice of the input between a prefix and a suffix of white space, and neither starts nor ends with white space; it is empty exactly when every character of the input is white space |
| Text.TrimIdempotent | src/pages/EnrollmentDetail.tsx:249-250 | trimming a trimmed text changes nothing |
| Text.TrimNonEmpty | src/pages/EnrollmentDetail.tsx:244 | a text whose first character is not white space trims to a non-empty text |
| Text.Split | src/pages/EnrollmentDetail.tsx:274 | at least one field; no field holds the separator; two or more fields exactly when the separator occurs |
| Text.SplitJoin | src/pages/EnrollmentDetail.tsx:274 | splitting the join of separator-free fields gives the fields back |
| Text.JoinSplit | src/pages/EnrollmentDetail.tsx:676-677 | joining the fields of a split gives the text back |
| Text.SplitSecondField | src/pages/EnrollmentDetail.tsx:274 | the second field of a split is the first field of what follows the first separator |
| Text.FirstField | src/pages/EnrollmentDetail.tsx:274 | the first field of a split is the whole text or is followed in it by the separator |
| Text.Decimal | src/pages/Enrollments.tsx:215 | the rendering is non-empty, all digits, with no leading zero |
| Text.DecimalRoundTrip | src/pages/Enrollments.tsx:215 | reading the rendered digits back gives the number |
| Ordering.BelowTotal | src/pages/Archive.tsx:49 | the default sort order relates any two different strings one way |
| Ordering.BelowTransitive | src/pages/Archive.tsx:49 | the default sort order is transitive |
| Ordering.BelowIrreflexive | src/pages/Archive.tsx:49 | no string sorts before itself |
| Ordering.SortAscending | src/pages/Archive.tsx:49 | `sort()` gives an ascending permutation of its input |
| Ordering.Insert | src/pages/Archive.tsx:49 | inserting into an ascending list keeps it ascending and adds exactly the element |
| Ordering.Distinct | src/pages/Archive.tsx:49 | `[...new Set(xs)]` has the same elements as `xs`, none twice |
| Ordering.Reverse | src/pages/Archive.tsx:49 | `reverse()` puts element i at position length-1-i |
| Ordering.SortedDistinctReversed | src/pages/Archive.tsx:49 | a duplicate-free list, sorted then reversed, is strictly descending |
| Ordering.StrictlyDescendingUnique | src/pages/Archive.tsx:49 | two strictly descending lists with the same elements are equal |
| UriComponent.Encode | src/lib/api.ts:45 | the output holds only unreserved characters and '%'; a text of unreserved characters is unchanged |
| UriComponent.Utf8RoundTrip | src/lib/api.ts:45 | decoding the UTF-8 bytes of a text gives the text |
| UriComponent.EncodeRoundTrip | src/lib/api.ts:45 | percent-decoding then UTF-8 decoding the encoding gives the text back |
| UriComponent.EncodeInjective | src/lib/api.ts:45 | different texts encode differently |
| Api.GetToken | src/lib/api.ts:3-5 | the token is the item stored under `admin_token`, if any |
| Api.SetToken | src/lib/api.ts:77-79 | only the `admin_token` item changes, to the new token |
| Api.ClearToken | src/lib/api.ts:81-83 | only the `admin_token` item is removed |
| Api.BearerWellFormed | src/lib/api.ts:13 | the Authorization value is valid RFC 6750 Bearer credentials, written with a single space, exactly when the token is a b64token; it carries the token unchanged |
| Api.GetHeaders | src/lib/api.ts:7-16 | JSON content type always; Authorization `Bearer <token>` exactly when asked for and a non-empty token is stored; no other header |
| Api.Unwrap | src/lib/api.ts:32-34 | success exactly for a 2xx reply, yielding its data; a failure carries the server's non-empty error or else the endpoint's own message, and is never empty |
| Api.LoginResult | src/lib/api.ts:24-27 | success exactly for a 2xx reply whose user is an admin; a 2xx non-admin reply fails with "Admin access required"; other failures follow the envelope rule |
| Api.Login | src/lib/api.ts:18-28 | POST to /auth/login with the credentials as body and no Authorization header; the result is the login rule |
| Api.GetMe | src/lib/api.ts:30-35 | an authorized GET of /auth/me; the result follows the envelope rule with "Unauthorized" |
| Api.GetStats | src/lib/api.ts:37-42 | an authorized GET of /admin/stats; the envelope rule with "Failed to load stats" |
| Api.EnrollmentsQuery | src/lib/api.ts:45 | a non-empty status adds `?status=` and its encoding, which holds no `&`, `#`, `=`, `+` or space and decodes back to the status; an absent or empty status adds no query |
| Api.GetEnrollments | src/lib/api.ts:44-50 | an authorized GET of the list URL for the status; the envelope rule with "Failed to load enrollments" |
| Api.GetEnrollment | src/lib/api.ts:52-57 | an authorized GET of /admin/enrollments/<id>; the envelope rule with "Failed to load enrollment" |
| Api.UpdateEnrollmentStatus | src/lib/api.ts:59-68 | an authorized PATCH of /admin/enrollments/<id>/status with the status as body; the envelope rule with "Failed to update status" |
| Api.GetDocuments | src/lib/api.ts:70-75 | an authorized GET of /admin/documents/<userId>; the envelope rule with "Failed to load documents" |
| Auth.AdoptKeepsIdentity | src/context/AuthContext.tsx:31-36 | the kept user has the identity's uid, e-mail and role; its name is the identity's name, or the e-mail when the name is empty |
| Auth.AuthProvider.constructor | src/context/AuthContext.tsx:16-17 | no user and the session still loading |
| Auth.AuthProvider.Startup | src/context/AuthContext.tsx:19-44 | without a stored token nothing is sent; otherwise GET /auth/me goes out with the token; an admin identity becomes the user; any other reply drops the token and the user; loading ends in every case and only an admin is ever held |
| Auth.AuthProvider.Login | src/context/AuthContext.tsx:46-55 | a successful admin login stores the returned token and adopts the user; a failure changes neither the user nor the storage |
| Auth.AuthProvider.Logout | src/context/AuthContext.tsx:57-60 | the token is removed and the user cleared |
| App.ProtectedRoute | src/App.tsx:10-15 | the placeholder exactly while loading; a replacing redirect to /login exactly when loaded with no user; the page exactly when loaded with a user |
| App.LoginAlwaysReachable | src/App.tsx:20 | /login renders the login page in every session |
| App.UnmatchedGoesHome | src/App.tsx:34 | an unmatched path redirects to / with history replace |
| App.DetailPathOpensDetail | src/App.tsx:31 | `/enrollments/<id>` selects the detail page of that id, rendered for a signed-in user |
| App.RedirectsSettle | src/App.tsx:10-15 | following redirects from any path stops after at most two of them |
| App.ProtectedPagesNeedAdmin | src/App.tsx:21-33 | with the provider's invariant, a protected page renders only for a signed-in administrator once loading is over |
| Layout.IsActive | src/components/Layout.tsx:28-30 | the dashboard link is active exactly on "/"; any other link is active exactly on pathnames that start with its path |
| Layout.DashboardAndEnrollmentsExclusive | src/components/Layout.tsx:41-45 | the two links are never highlighted together |
| Layout.DetailKeepsEnrollmentsActive | src/components/Layout.tsx:45 | detail pages keep the Enrollments link highlighted |
| Layout.PrefixIsNotASegment | src/components/Layout.tsx:30 | the test is a string prefix: /enrollments-old also highlights Enrollments |
| Layout.ArchiveHighlightsNothing | src/components/Layout.tsx:41-45 | the archive page highlights neither link |
| Layout.DisplayNameOfAdopted | src/components/Layout.tsx:95 | for a user the provider adopted, the header shows the identity's name, or its e-mail when the name is empty |
| Layout.LayoutView.constructor | src/components/Layout.tsx:21 | the drawer starts closed |
| Layout.LayoutView.ToggleMenu | src/components/Layout.tsx:114 | the drawer flips |
| Layout.LayoutView.ChooseLink | src/components/Layout.tsx:41-48 | the drawer closes and the router goes to the link |
| Layout.LayoutView.HandleLogout | src/components/Layout.tsx:23-26 | the session ends with the token removed, the router goes to /login, and that route renders the login page |
| Layout.LayoutView.MobileSignOut | src/components/Layout.tsx:142 | the drawer closes and the session ends as in sign-out |
| Listing.BadgeClass | src/pages/Enrollments.tsx:185-186 | a known status gets its class; any other status gets the fallback look |
| Listing.FallbackExactlyForUnknown | src/pages/Enrollments.tsx:29-34 | the fallback marks exactly the statuses other than the four known ones, and the four looks are pairwise different |
| Listing.DateText | src/pages/Enrollments.tsx:50-60 | '—' for a missing or empty timestamp, else the locale rendering |
| Listing.DetailLinkOpensRow | src/pages/Enrollments.tsx:197 | a row's link opens the detail page of that row |
| Listing.CountText | src/pages/Enrollments.tsx:215 | "Showing N <noun>" ends in the plural exactly when N is not one |
| Listing.CountTextShowsCount | src/pages/Enrollments.tsx:215 | the number shown reads back as the count |
| Enrollments.StatusQuery | src/pages/Enrollments.tsx:44 | the empty filter asks for the unfiltered list; any other filter is passed on unchanged |
| Enrollments.FilterReachesServer | src/pages/Enrollments.tsx:44 | a set filter reaches the server as the encoded `status` parameter and decodes back; the empty filter adds no query |
| Enrollments.EmptyHint | src/pages/Enrollments.tsx:122-124 | the filtered hint exactly when a filter is set |
| Enrollments.Footer | src/pages/Enrollments.tsx:215 | the footer is the "Showing <count> enrollment" text: it says "enrollments" exactly when the count is not one, and "enrollment" for one |
| Enrollments.RowCells | src/pages/Enrollments.tsx:180-193 | the student, e-mail and status as given; contact or '—'; the badge of the status; the localized submission date or '—' when it is missing; the row's link |
| Enrollments.View | src/pages/Enrollments.tsx:62-218 | an error replaces the page; otherwise the spinner exactly while loading, the empty state exactly for an empty list, else the table of the list; a footer exactly when loaded and non-empty |
| Enrollments.EnrollmentsView.constructor | src/pages/Enrollments.tsx:37-40 | empty list, no filter, loading, no error |
| Enrollments.EnrollmentsView.Fetch | src/pages/Enrollments.tsx:42-48 | loading starts and the list is asked for with the current filter |
| Enrollments.EnrollmentsView.ChangeFilter | src/pages/Enrollments.tsx:91 | the filter is set; a new fetch only when it differs from the old one |
| Enrollments.EnrollmentsView.Settle | src/pages/Enrollments.tsx:45-47 | rows replace the list or the message becomes the error; loading ends; an earlier error keeps the page on its error text |
| Enrollments.FailedFetchShowsError | src/pages/Enrollments.tsx:46 | a failed fetch turns the page into its error text |
| Archive.MergeSchoolYears | src/pages/Archive.tsx:49 | the tabs are every default and every reported year, none twice, newest first |
| Archive.MergeIgnoresOrder | src/pages/Archive.tsx:49 | the tabs depend only on which years were reported |
| Archive.DefaultTabs | src/pages/Archive.tsx:37 | with nothing reported the tabs are 2026-2027, 2025-2026, 2024-2025 |
| Archive.YearFilter | src/pages/Archive.tsx:59 | "all" asks for every year; any other tab asks for that year |
| Archive.EmptyMessage | src/pages/Archive.tsx:148 | the general message for "all", else one naming the year |
| Archive.EmptyMessagesDiffer | src/pages/Archive.tsx:148 | the two empty messages never coincide |
| Archive.Footer | src/pages/Archive.tsx:240-241 | the "Showing <count> archived enrollment" text, plural exactly when the count is not one, with " for SY <year>" appended exactly when a non-empty year other than "all" is chosen |
| Archive.View | src/pages/Archive.tsx:78-246 | an error replaces the page; otherwise the "All" tab and the year tabs, with the spinner, the empty message or the table, and a footer exactly when loaded and non-empty |
| Archive.RowCells | src/pages/Archive.tsx:207-223 | the student, e-mail and status as given; contact or '—'; the badge of the status; the localized archive date or '—' when it is missing; the row's link |
| Archive.ArchiveView.constructor | src/pages/Archive.tsx:40-44 | no years, "all" chosen, empty list, loading, no error |
| Archive.ArchiveView.FetchList | src/pages/Archive.tsx:56-64 | no fetch for an empty year; otherwise loading starts and the year's archive is asked for |
| Archive.ArchiveView.YearsSettled | src/pages/Archive.tsx:47-53 | the tabs become the merged years, or the message becomes the error |
| Archive.ArchiveView.SelectYear | src/pages/Archive.tsx:106-121 | the year is chosen; a fetch only when it differs from the current one |
| Archive.ArchiveView.ListSettled | src/pages/Archive.tsx:60-63 | rows replace the list or the message becomes the error; loading ends |
| Dashboard.EnrollingNow | src/pages/Dashboard.tsx:152 | the server's figure whenever it sent one, even zero, else the pending count |
| Dashboard.GenderCounts | src/pages/Dashboard.tsx:153 | the reported counts, else all zero |
| Dashboard.ByDate | src/pages/Dashboard.tsx:154 | the reported series, else empty |
| Dashboard.StatusCards | src/pages/Dashboard.tsx:218-221 | five cards in the order total, pending, approved, rejected, draft, each its count or 0 |
| Dashboard.Slices | src/pages/Dashboard.tsx:167 | the filter keeps only positive values; a slice is in the result exactly when it is the slice of a positive entry; it is empty exactly when no entry is positive |
| Dashboard.SlicesAppend | src/pages/Dashboard.tsx:167 | filtering a concatenation concatenates the filtered parts |
| Dashboard.SlicesOfFour | src/pages/Dashboard.tsx:162-167 | filtering four entries filters each in turn |
| Dashboard.StatusChartData | src/pages/Dashboard.tsx:162-167 | exactly the statuses with a positive count, in order, with their colours; empty exactly when none is positive |
| Dashboard.GenderChartData | src/pages/Dashboard.tsx:169-173 | exactly the genders with a positive count, in order; no slice when the server sent no gender data |
| Dashboard.StatusSlicesCarryCounts | src/pages/Dashboard.tsx:162-167 | every status slice carries its own status's positive count |
| Dashboard.View | src/pages/Dashboard.tsx:128-150 | the error first; the spinner exactly without error and statistics; else the dashboard |
| Dashboard.AfterFetch | src/pages/Dashboard.tsx:122-126 | the statistics on success, the message on failure |
| Dashboard.FetchOutcomeShown | src/pages/Dashboard.tsx:122-150 | a failed request ends on its error; a successful one on the dashboard, or the spinner when the reply held no data |
| EnrollmentDetail.BackLink | src/pages/EnrollmentDetail.tsx:319-323 | the archive link and label exactly for an archived record, the list otherwise |
| EnrollmentDetail.TruthyParts | src/pages/EnrollmentDetail.tsx:675-676 | a text is kept exactly when it is a non-empty present part; the kept parts are non-empty, and none are kept exactly when no part is truthy |
| EnrollmentDetail.TruthyPartsAppend | src/pages/EnrollmentDetail.tsx:675-676 | filtering a concatenation concatenates the filtered parts |
| EnrollmentDetail.FullName | src/pages/EnrollmentDetail.tsx:675-677 | '—' without name parts, else the parts joined by spaces |
| EnrollmentDetail.FullNameWords | src/pages/EnrollmentDetail.tsx:675-677 | when no part holds a space, the full name splits back into the parts |
| EnrollmentDetail.Actions | src/pages/EnrollmentDetail.tsx:389-460 | an archived record offers only e-mail; another offers a button for each status it is not in, ending with e-mail, archive and delete; the buttons are in toolbar order without repeats |
| EnrollmentDetail.StatusButtons | src/pages/EnrollmentDetail.tsx:405-435 | a button for each status the record is not in, in the order approve, reject, set pending |
| EnrollmentDetail.Patched | src/pages/EnrollmentDetail.tsx:183 | only the status of a loaded record changes; no record stays no record |
| EnrollmentDetail.StatusButtonsChangeStatus | src/pages/EnrollmentDetail.tsx:191-195 | a status button never offers the current status, its dialog has a verb for it, and after the update the button is gone |
| EnrollmentDetail.StatusButtonCount | src/pages/EnrollmentDetail.tsx:404-460 | a record in one of the three statuses has five buttons, any other six |
| EnrollmentDetail.DocumentList | src/pages/EnrollmentDetail.tsx:170-172 | the documents on success; none on failure or when the data is not a list |
| EnrollmentDetail.PreviewKind | src/pages/EnrollmentDetail.tsx:885-891 | an image preview exactly for `image/` types, a PDF frame exactly for `application/pdf` |
| EnrollmentDetail.Compose | src/pages/EnrollmentDetail.tsx:244-252 | nothing is sent exactly when the trimmed subject or body is empty; otherwise the trimmed texts, the type, and the attachment exactly when one is held |
| EnrollmentDetail.ComposedIsTrimmed | src/pages/EnrollmentDetail.tsx:249-250 | what is sent is non-empty and composes to itself again |
| EnrollmentDetail.Sendable | src/pages/EnrollmentDetail.tsx:244 | a subject and a body that each start with a character other than white space pass the send guard |
| EnrollmentDetail.TemplatesSendable | src/pages/EnrollmentDetail.tsx:97-140 | every template passes the send guard unedited |
| EnrollmentDetail.SentMessage | src/pages/EnrollmentDetail.tsx:255 | names the record's e-mail, else "student" |
| EnrollmentDetail.Base64Payload | src/pages/EnrollmentDetail.tsx:274 | the payload holds no comma; a comma-free text is kept whole; otherwise the payload is what follows the first comma, up to the next comma or the end |
| EnrollmentDetail.DataUrlPayload | src/pages/EnrollmentDetail.tsx:272-275 | for a base64 data URL (RFC 2397) the payload is exactly the data |
| EnrollmentDetail.DetailView.constructor | src/pages/EnrollmentDetail.tsx:146-162 | every state cell at its initial value, with the second school year preselected |
| EnrollmentDetail.DetailView.Load | src/pages/EnrollmentDetail.tsx:164-175 | nothing without an id; otherwise the record and its user's documents, or the error; loading ends |
| EnrollmentDetail.DetailView.AskStatus | src/pages/EnrollmentDetail.tsx:408 | the confirmation opens for the status |
| EnrollmentDetail.DetailView.CancelStatus | src/pages/EnrollmentDetail.tsx:472-480 | the confirmation closes |
| EnrollmentDetail.DetailView.SetStatus | src/pages/EnrollmentDetail.tsx:177-189 | nothing without an id; otherwise the dialog closes and the update goes out; success patches the status, a failure sets the error |
| EnrollmentDetail.DetailView.OpenArchiveDialog | src/pages/EnrollmentDetail.tsx:447 | the archive dialog opens |
| EnrollmentDetail.DetailView.ChooseArchiveYear | src/pages/EnrollmentDetail.tsx:509 | the chosen year is kept |
| EnrollmentDetail.DetailView.CloseArchiveDialog | src/pages/EnrollmentDetail.tsx:519 | the archive dialog closes |
| EnrollmentDetail.DetailView.HandleArchive | src/pages/EnrollmentDetail.tsx:199-211 | nothing without an id; otherwise the record is archived under the chosen year; success goes to /archive, a failure sets the error |
| EnrollmentDetail.DetailView.OpenDeleteConfirm | src/pages/EnrollmentDetail.tsx:455 | the delete dialog opens |
| EnrollmentDetail.DetailView.CloseDeleteConfirm | src/pages/EnrollmentDetail.tsx:548 | the delete dialog closes |
| EnrollmentDetail.DetailView.HandleDelete | src/pages/EnrollmentDetail.tsx:213-225 | nothing without an id; otherwise the record is deleted; success goes to /enrollments, a failure sets the error |
| EnrollmentDetail.DetailView.OpenEmailModal | src/pages/EnrollmentDetail.tsx:227-234 | the template fills subject and body, the attachment is dropped, the composer opens |
| EnrollmentDetail.DetailView.OnEmailTypeChange | src/pages/EnrollmentDetail.tsx:236-241 | the template replaces subject and body; the attachment is kept |
| EnrollmentDetail.DetailView.EditSubject | src/pages/EnrollmentDetail.tsx:591 | only the subject changes |
| EnrollmentDetail.DetailView.EditBody | src/pages/EnrollmentDetail.tsx:599 | only the body changes |
| EnrollmentDetail.DetailView.RemoveAttachment | src/pages/EnrollmentDetail.tsx:623 | only the attachment is dropped |
| EnrollmentDetail.DetailView.CloseEmailModal | src/pages/EnrollmentDetail.tsx:634 | only the composer closes |
| EnrollmentDetail.DetailView.HandleSendEmail | src/pages/EnrollmentDetail.tsx:243-262 | what is sent is the composed payload; nothing changes when there is none; otherwise the state after the send |
| EnrollmentDetail.DetailView.Deliver | src/pages/EnrollmentDetail.tsx:245-261 | success closes the composer, drops the attachment and shows the banner; a failure sets the error and clears the banner |
| EnrollmentDetail.DetailView.OnEmailFileChange | src/pages/EnrollmentDetail.tsx:264-278 | no file, no change; over 10 MiB sets the error and keeps any earlier attachment; otherwise the file is read |
| EnrollmentDetail.DetailView.OnFileRead | src/pages/EnrollmentDetail.tsx:272-276 | the attachment becomes the file with the comma-free payload of its data URL |
| EnrollmentDetail.DetailView.PreviewDocument | src/pages/EnrollmentDetail.tsx:820 | the preview opens on the document |
| EnrollmentDetail.DetailView.ClosePreview | src/pages/EnrollmentDetail.tsx:876 | the preview closes |
| EnrollmentDetail.PageAsWritten | src/pages/EnrollmentDetail.tsx:280-304 | the spinner exactly while loading or without an id; after that, the error screen exactly when there is an error and no record, not-found exactly when there is neither, and the record exactly when one is loaded, always with no error banner |
| EnrollmentDetail.FailedUpdateHiddenAsWritten | src/pages/EnrollmentDetail.tsx:181-189 | a failed update on a loaded record sets the error, and the page does not show it |
| EnrollmentDetail.PageFor | src/pages/EnrollmentDetail.tsx:280-324 | the spinner, error screen and record cases as in the page as written, not-found exactly when there is no record and no error, but a loaded record carries the error as a banner exactly when there is one |
| EnrollmentDetail.ErrorAlwaysShown | src/pages/EnrollmentDetail.tsx:291-296 | once loading is over, every error is on the page |
| EnrollmentDetail.ScreensAgreeWithoutError | src/pages/EnrollmentDetail.tsx:280-304 | with no error pending the corrected page is the page as written |

## Left out

- The API base URL: `VITE_API_URL` is build configuration, so the model uses the default `http://localhost:4000/api`.
- `fetch` and JSON parsing are not modelled. Each operation is handed the reply as an `Envelope` with the `ok` flag, `data` and `error`. A reply body that is not JSON is not modelled.
- Identity and Enrollment: string members the server leaves out are modelled as "" rather than `undefined`.
- A 2xx reply without `data` is accepted only by `Auth.AuthProvider.Startup` and `Dashboard.AfterFetch`, which model it as no data. `EnrollmentDetail.DetailView.Load`, `Enrollments.EnrollmentsView.Settle`, `Archive.ArchiveView.YearsSettled` and `Archive.ArchiveView.ListSettled` take a record or a list, so their parameter types exclude that reply. What the source then does is not modelled: the list would become `undefined`, and the detail page would show the `TypeError` message as its error screen.
- JSON numbers are modelled as `int` or `nat`, for example the dashboard counts and `Dashboard.Positive`. Non-integer numbers are not modelled.
- Promises and React scheduling are not modelled. Each handler runs to completion with the outcome it is given. The `updating` and `sendingEmail` flags are therefore observed only after they are reset. A stale reply overtaking a newer one is not modelled.
- `archiveEnrollment`, `deleteEnrollment`, `sendEnrollmentEmail`, `getArchivedSchoolYears` and `getArchivedEnrollments` are not part of this model's API client. They are not defined in src/lib/api.ts. The pages receive their outcomes as parameters.
- The `FileReader` is not modelled. `OnEmailFileChange` returns the name of the file to read, and `OnFileRead` takes the data URL the reader produced.
- `toLocaleString` date rendering is not modelled. It is a parameter of `Listing.DateText`, and its `catch` branch is not modelled.
- The chart library, icons, animation and CSS are not modelled, except the badge classes and chart colours the source names.
- The router is approximated by splitting the path on '/' and dropping empty segments. Case sensitivity, URL decoding of `:id` and trailing-slash rules of react-router are not modelled.
- The login page (src/pages/Login.tsx) is not part of this model. Only its route is.
- `useAuth` outside the provider throws. The model always has a provider.
- Ordering.Below: it compares Unicode code points, while JavaScript's default sort compares UTF-16 code units. The two orders differ only on characters above U+FFFF.
- Listing.BadgeClass: keys inherited from `Object.prototype` (such as "constructor") are treated as unknown statuses.
- Api.BearerWellFormed: the client never checks that the stored token is a b64token. The lemma states when the header is well formed, not that it always is.

## Findings

| source | as written | input that shows it | evidently intended | confidence | as-written member | corrected member |
|---|---|---|---|---|---|---|
| src/pages/EnrollmentDetail.tsx:291-296 | the error text is rendered only while no enrollment is loaded, and the loaded view has no error banner | load a record, then let the status update, archive, delete or e-mail fail, or pick an attachment over 10 MiB: `error` is set, but the page keeps showing the record without it | an error raised by an action on a loaded record is shown to the administrator | high (not executed) | EnrollmentDetail.FailedUpdateHiddenAsWritten | EnrollmentDetail.ErrorAlwaysShown |
