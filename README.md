# TeraBox clone: a Dafny model of its core logic

This project models the logic of a small cloud-storage web application, with a
React frontend and a FastAPI/MongoDB backend, and proves properties of that model.

What the model covers:

- **Byte formatting**, `formatBytes` in `api.js` and the dashboard's copy of it. It is in exact arithmetic:
  - the unit index is the largest power of 1024 not above the value;
  - the value in that unit is rounded to two decimals and printed without trailing zeros;
  - it is followed by a label from Bytes/KB/MB/GB/TB, and JavaScript's `undefined` past TB.
- **Request paths** built by `fileAPI`/`dashboardAPI`, checked against the backend's `/api` route table under first-match dispatch.
- **The backend handlers** for register, login, me, upload, list, delete, download and stats:
  - each is an atomic step on an abstract database, with a map of users and the file collection as a sequence;
  - each is also a method of a `Backend` class that keeps the database invariant.
  - The invariant has five parts:
    - users are keyed by id;
    - e-mails are distinct;
    - every file has an existing owner and a non-negative size;
    - file ids are distinct;
    - every user's `storage_used` equals the sum of its file sizes and stays within `storage_limit`.
- **The Pydantic record shapes** with their constraints and defaults, and `PyObjectId.validate`.
- **The mock session store** of `mockAuth.js`: a key/value map with login, register, logout, current user and authenticated.
- **The dashboard page** (`DashboardPage.jsx`):
  - the entry gate;
  - logout;
  - the case-insensitive search filter;
  - the storage percentage, with IEEE division by zero, and its `toFixed(1)` "available" text.
- **The contact form** (`ContactPage.jsx`): its five fields, the submitting flag and the delayed reset.

Inputs the model takes as parameters instead of computing them:

- e-mail validity and the normal form `EmailStr` gives an address;
- ObjectId validity;
- the password hash and check;
- token issuing;
- fresh ids and uuids;
- disk write and remove outcomes;
- whether a stored copy exists on disk.

The authenticated caller also arrives as a parameter: an existing user id.

Details of the code that the model keeps:

- **The handlers see e-mail addresses in their normal form.** `EmailStr` turns the address in a request body into a normal form. Registration checks for a taken address in that form, stores it in that form, and login looks it up in that form.
- **File ids are read case-insensitively.** `ObjectId(file_id)` accepts the hexadecimal digits in either case and the id prints in lower case. Delete and download therefore find a record whatever the case of the id in the URL.
- **The stored name's suffix is that of a normalised path.** `Path(name).suffix` drops trailing '/' and "." parts first, so "report.pdf/" keeps ".pdf".
- **storagePercentage is not clamped.** `DashboardPage.jsx:59` computes `used / limit * 100` as it is. `Dashboard.PercentageNotClamped` proves that past the limit the figure exceeds 100 and the "available" text is negative.

## Model

| member | source | states |
|---|---|---|
| Api.ApiBase | frontend/src/services/api.js:3-4 | the API root is the backend origin followed by /api |
| Api.UploadPath | frontend/src/services/api.js:13 | the upload URL; its shape is stated by Endpoints.UploadPathShape |
| Api.FilesPath | frontend/src/services/api.js:23 | the list URL; its shape is stated by Endpoints.FilesPathShape |
| Api.DeletePath | frontend/src/services/api.js:28 | the delete URL for an id; its shape is stated by Endpoints.DeletePathShape |
| Api.DownloadPath | frontend/src/services/api.js:33 | the download URL for an id; its shape is stated by Endpoints.DownloadPathShape |
| Api.StatsPath | frontend/src/services/api.js:53 | the stats URL; its shape is stated by Endpoints.StatsPathShape |
| Api.FormatBytes | frontend/src/services/api.js:58-64 | formatBytes itself; what its text means is stated by Api.FormatBytesMeaning and Api.FormatBytesZero |
| Api.UnitIndex | frontend/src/services/api.js:62 | the unit index in exact arithmetic; Api.UnitIndexBrackets and Api.UnitIndexIsLargest state what it is |
| Api.Hundredths | frontend/src/services/api.js:63 | the scaled value rounded to hundredths; Api.HundredthsRange and Api.HundredthsError bound it |
| Api.UnitIndexBrackets | frontend/src/services/api.js:62 | 1024^i <= bytes < 1024^(i+1) for the chosen unit index i |
| Api.UnitIndexIsLargest | frontend/src/services/api.js:62 | the unit index is the largest i with 1024^i <= bytes |
| Api.LabelOfIndex | frontend/src/services/api.js:61-63 | below 1024^5 the index is under 5 and the label is the matching unit name |
| Api.HundredthsRange | frontend/src/services/api.js:62-63 | for bytes >= 1 the printed number lies in [1, 1024], 1024 included |
| Api.HundredthsError | frontend/src/services/api.js:63 | the printed number times 1024^i is within half a hundredth of a unit of bytes |
| Api.FormatBytesMeaning | frontend/src/services/api.js:58-64 | the text is the rounded number, a space and the unit; the number reads back exactly and lies within rounding of the value |
| Api.FormatBytesZero | frontend/src/services/api.js:59 | the text starts with '0' exactly when bytes is 0 ("0 Bytes") |
| Api.FormatBytesMegabytes | frontend/src/services/api.js:58-64 | 15728640 prints "15 MB" |
| Api.FormatBytesGigabytes | frontend/src/services/api.js:58-64 | 536870912000 prints "500 GB" |
| Api.FormatBytesTerabyte | frontend/src/services/api.js:58-64 | 1099511627776 prints "1 TB" |
| Api.FormatBytesJustUnderMegabyte | frontend/src/services/api.js:58-64 | 1048575 prints "1024 KB", not "1 MB" |
| Decimal.HundredthsText | frontend/src/services/api.js:63 | a count of hundredths printed as `parseFloat(x.toFixed(2))` re-prints it; Decimal.HundredthsRoundTrip and Decimal.HundredthsNoTrailingZero state its meaning |
| Decimal.ParseHundredths | frontend/src/services/api.js:63 | an independent reader of a decimal with at most two decimals, the partner of Decimal.HundredthsText |
| Decimal.NatToString | frontend/src/services/api.js:63 | an integer prints as digits with no leading zero, one digit exactly below 10 |
| Decimal.NatToStringRoundTrip | frontend/src/services/api.js:63 | the digits of n read back as n |
| Decimal.NatToStringInjective | frontend/src/services/api.js:63 | distinct integers print differently |
| Decimal.HundredthsRoundTrip | frontend/src/services/api.js:63 | a number of hundredths printed with at most two decimals reads back as the same number |
| Decimal.HundredthsNoTrailingZero | frontend/src/services/api.js:63 | the printed fraction is never empty after the dot and never ends in 0 (parseFloat drops them) |
| Dashboard.FormatBytes | frontend/src/components/DashboardPage.jsx:51-57 | the page's own copy of formatBytes, with its own label table |
| Dashboard.FormatBytesAgrees | frontend/src/components/DashboardPage.jsx:51-57 | the page's copy of formatBytes computes the same text as the API's for every input |
| Paths.SegmentsJoin | backend/server.py:34 | splitting a joined path gives back its segments when none contains '/' |
| Paths.Dispatch | backend/server.py:34 | the chosen route answers the verb and matches the path, and no earlier route does; no route is chosen only when none matches |
| Paths.DispatchFirst | backend/server.py:34 | a matching route preceded by no matching route is the one chosen, with its bindings |
| Endpoints.DeletePathShape | frontend/src/services/api.js:28 | the delete URL is the origin followed by /api/files/<id> |
| Endpoints.DeleteSegments | frontend/src/services/api.js:28 | that path splits into api, files, id for an id without '/' |
| Endpoints.DeleteReachesHandler | backend/server.py:173-174 | DELETE of that path selects `delete_file` with file_id bound to the id |
| Endpoints.DownloadPathShape | frontend/src/services/api.js:33 | the download URL is the origin followed by /api/files/<id>/download |
| Endpoints.DownloadSegments | frontend/src/services/api.js:33 | that path splits into api, files, id, download |
| Endpoints.DownloadReachesHandler | backend/server.py:204-205 | GET of that path selects `download_file` with file_id bound, not the list or me routes |
| Endpoints.UploadPathShape | frontend/src/services/api.js:13 | the upload URL is the origin followed by /api/files/upload |
| Endpoints.UploadSegments | frontend/src/services/api.js:13 | that path splits into api, files, upload |
| Endpoints.UploadReachesHandler | backend/server.py:101-105 | POST of that path selects `upload_file`, and the form field the client fills is the parameter it reads |
| Endpoints.FilesPathShape | frontend/src/services/api.js:23 | the list URL is the origin followed by /api/files |
| Endpoints.FilesSegments | frontend/src/services/api.js:23 | that path splits into api, files |
| Endpoints.FilesReachesHandler | backend/server.py:155-156 | GET of that path selects `get_user_files` |
| Endpoints.StatsPathShape | frontend/src/services/api.js:53 | the stats URL is the origin followed by /api/dashboard/stats |
| Endpoints.StatsSegments | frontend/src/services/api.js:53 | that path splits into api, dashboard, stats |
| Endpoints.StatsReachesHandler | backend/server.py:230-231 | GET of that path selects `get_dashboard_stats` |
| Models.ObjectIdOf | backend/models.py:17 | `ObjectId(v)` reads the hexadecimal digits in either case: the id's text has the input's length, capitals become lower case, other characters stay |
| Models.ValidateObjectId | backend/models.py:14-17 | fails with "Invalid ObjectId" exactly on invalid input, otherwise yields the id whose text is the input lower-cased |
| Models.ObjectIdIgnoresCase | backend/models.py:17 | two texts that differ only in the case of their letters name the same id |
| Models.ObjectIdOfOwnText | backend/models.py:17 | an id read back from its own lower-case text is the same id |
| Models.ValidUserRegister | backend/models.py:23-26 | a name of 1 to 100 characters, an address `EmailStr` accepts, a password of at least 6 characters |
| Models.NewUser | backend/models.py:32-37 | a new user gets the given fields, storage_used 0 and storage_limit 1 TB |
| Models.NewFileUpload | backend/models.py:53-63 | a new file record gets the given fields, is not shared and has no share link |
| Models.UserResponseDropsPassword | backend/models.py:46-51 | the user response ignores the password hash and tells users with different ids apart |
| Models.FileResponseDropsServerFields | backend/models.py:70-77 | the file response ignores path, owner and share link and keeps every other field |
| Models.DefaultLimitIsOneTebibyte | backend/models.py:37 | the default limit is 1024^4 bytes |
| Server.StatusCode | backend/server.py:42-45 | every handler error maps to a 4xx code, except the server errors, which map to 500 |
| Server.Owned | backend/server.py:157 | the caller's file records are exactly those of the collection with that owner, at most as many |
| Server.FindOwned | backend/server.py:176-179 | finds a record with that id and owner, and finds none exactly when no record has both |
| Server.PathName | backend/server.py:114 | the final part of a path after trailing '/' and "." parts are dropped; it holds no '/' and is never "." |
| Server.PathNameIsLastPart | backend/server.py:114 | that final part is the last of the parts pathlib keeps (the pieces between slashes, without empty or "." ones), or "" when it keeps none |
| Server.Suffix | backend/server.py:114 | `Path(filename).suffix`; its meaning is stated by Server.SuffixMeaning |
| Server.SuffixMeaning | backend/server.py:114 | the suffix is non-empty exactly when the final part's last dot is neither its first nor last character, and is then the final part from that dot on; it never holds another dot or a slash |
| Server.SuffixIgnoresTrailing | backend/server.py:114 | a trailing '/' or "/." changes neither the final part nor the suffix |
| Server.SuffixOfExtension | backend/server.py:114 | "stem.ext" has suffix ".ext", also with a trailing '/' or "/." |
| Server.StoredName | backend/server.py:115 | the stored name is the uuid followed by the original name's suffix |
| Server.StoredNameKeepsSuffix | backend/server.py:114-115 | for a uuid text without dot or slash, the stored name has the same suffix as the original name |
| Server.AddUsage | backend/server.py:144-147 | `$inc` changes only the caller's storage_used, by the given amount |
| Server.RegisterStep | backend/server.py:37-61 | register as a transition of the database; Server.RegisterOutcome states what it does |
| Server.RegisterOutcome | backend/server.py:37-61 | 422 exactly on an invalid body; 400 exactly when the address's normal form is taken; success exactly otherwise; failures change nothing; success adds one user under the normal form of the address, with no usage and the default limit, and changes nobody else |
| Server.RegisterSameAddress | backend/server.py:40-45 | once an address is registered, registering any text with the same normal form answers 400 and changes nothing |
| Server.RegisterKeepsConsistent | backend/server.py:37-61 | registration preserves the database invariant |
| Server.UploadStep | backend/server.py:101-153 | upload as a transition of the database; Server.UploadOutcome states what it does |
| Server.UploadOutcome | backend/server.py:101-153 | 413 exactly when used + size > limit; success exactly when it fits and the write succeeds; success appends one unshared record owned by the caller and adds its size to the caller's usage only |
| Server.UploadKeepsConsistent | backend/server.py:101-153 | upload preserves the database invariant, usage within limit included |
| Server.AppendKeepsConsistent | backend/server.py:141-147 | inserting a fresh record and adding its size to its owner's usage preserves the invariant |
| Server.DeleteStep | backend/server.py:173-202 | delete as a transition of the database; Server.DeleteOutcome states what it does |
| Server.DeleteOutcome | backend/server.py:173-202 | 404 exactly when the caller owns no record with the id the text names; an owned record is deleted exactly when the disk removal does not raise, else 500; failures change nothing; success removes that record and takes its size off the caller's usage only |
| Server.DeleteIgnoresIdCase | backend/server.py:176-179 | two id texts that differ only in the case of their letters delete alike |
| Server.DeleteKeepsConsistent | backend/server.py:173-202 | delete preserves the database invariant |
| Server.RemoveKeepsConsistent | backend/server.py:194-200 | removing a record and taking its size off its owner's usage preserves the invariant |
| Server.DeleteTwice | backend/server.py:176-185 | after a successful delete no record with the id the text names remains, so a second delete answers 404 and changes nothing |
| Server.Backend.constructor | backend/server.py:22-28 | the server starts on an empty, consistent database with its upload directory |
| Server.Backend.Register | backend/server.py:37-61 | the reply and the new state are those of the registration step; the invariant holds after it |
| Server.Backend.Login | backend/server.py:63-88 | 422 on an invalid body; the user is looked up by the normal form of the address; the same 401 for an unknown address and a wrong password; otherwise a bearer token for the user's id and the user without password |
| Server.Backend.Me | backend/server.py:90-98 | the caller's id, name, e-mail, stored usage and stored limit; that usage is the sum of its file sizes and within its limit |
| Server.Backend.UploadFile | backend/server.py:101-153 | the reply and the new state are those of the upload step; the invariant holds after it |
| Server.Backend.GetUserFiles | backend/server.py:155-171 | the first min(n, 1000) of the caller's n records, in collection order, as file responses |
| Server.Backend.DeleteFile | backend/server.py:173-202 | the reply and the new state are those of the delete step; the invariant holds after it |
| Server.Backend.DownloadFile | backend/server.py:204-228 | the id is read case-insensitively; 404 "File not found" when the caller owns no such record, 404 "File not found on disk" when its copy is missing, otherwise its path, original name and type |
| Server.Backend.GetDashboardStats | backend/server.py:230-241 | the caller's record count, also as recent uploads, zero folders and shares, and the caller's counters with 0 <= used <= limit |
| MockAuth.CurrentUserNeedsToken | frontend/src/utils/mockAuth.js:38-50 | a current user exists exactly when authenticated and a user entry is stored |
| MockAuth.TokenWithoutUser | frontend/src/utils/mockAuth.js:38-50 | a token alone authenticates but yields no current user |
| MockAuth.LoggedIn | frontend/src/utils/mockAuth.js:8-15 | the store after a successful login; MockAuth.LoginThenCurrentUser states what it holds |
| MockAuth.LoggedOut | frontend/src/utils/mockAuth.js:33-36 | the store after a logout; MockAuth.LogoutClears states what it holds |
| MockAuth.LoginThenCurrentUser | frontend/src/utils/mockAuth.js:7-15 | after login the store authenticates, yields the demo user, and keeps every other entry |
| MockAuth.LogoutClears | frontend/src/utils/mockAuth.js:33-36 | after logout neither entry is left, nobody is signed in, logout is idempotent, other entries stay |
| MockAuth.SessionStore.IsAuthenticated | frontend/src/utils/mockAuth.js:48-50 | true exactly when the token entry is present and not empty |
| MockAuth.SessionStore.GetCurrentUser | frontend/src/utils/mockAuth.js:38-46 | null exactly when not authenticated or no user is stored, otherwise the stored user |
| MockAuth.SessionStore.MockLogin | frontend/src/utils/mockAuth.js:3-22 | succeeds exactly on the demo credentials, then stores token and demo user; otherwise fails with "Invalid email or password" and changes nothing |
| MockAuth.SessionStore.MockRegister | frontend/src/utils/mockAuth.js:24-31 | always succeeds without a message and touches no state |
| MockAuth.SessionStore.MockLogout | frontend/src/utils/mockAuth.js:33-36 | removes exactly the token and user entries |
| Dashboard.IncludesMeaning | frontend/src/components/DashboardPage.jsx:62 | `includes` holds exactly when the query occurs at some position of the name |
| Dashboard.Filter | frontend/src/components/DashboardPage.jsx:61-63 | the search filter itself; the lemmas below state what it keeps |
| Dashboard.FilterMembers | frontend/src/components/DashboardPage.jsx:61-63 | the filter keeps exactly the files whose lower-cased name includes the lower-cased query |
| Dashboard.FilterIsSubsequence | frontend/src/components/DashboardPage.jsx:61-63 | the filtered list keeps the files in their original order |
| Dashboard.FilterCounts | frontend/src/components/DashboardPage.jsx:61-63 | each matching file is kept as many times as it occurs, and no other file is kept |
| Dashboard.FilterSingleMatch | frontend/src/components/DashboardPage.jsx:61-63 | a list where exactly one position matches filters to that one file |
| Dashboard.FilterEmptyQuery | frontend/src/components/DashboardPage.jsx:61-63 | an empty search shows every file in order |
| Dashboard.NameMatchesIgnoresQueryCase | frontend/src/components/DashboardPage.jsx:62 | the search does not depend on the case of the query |
| Dashboard.PrefixMatches | frontend/src/components/DashboardPage.jsx:62 | a name that starts with the query matches it |
| Dashboard.MissingFirstLetter | frontend/src/components/DashboardPage.jsx:62 | a name without the query's first letter, in either case, does not match |
| Dashboard.BudgetFileMatches | frontend/src/utils/mockData.js:22 | the fixture "Budget Spreadsheet.xlsx" matches the search "budget" |
| Dashboard.OtherFilesMiss | frontend/src/utils/mockData.js:3-52 | none of the other five fixture names matches "budget" |
| Dashboard.FilterBudget | frontend/src/components/DashboardPage.jsx:61-63 | searching the six fixture files for "budget" shows the spreadsheet alone |
| Dashboard.StoragePercentage | frontend/src/components/DashboardPage.jsx:59 | used over limit times 100, or 0 with no user; the lemmas below state its values |
| Dashboard.AvailableText | frontend/src/components/DashboardPage.jsx:104 | `(100 - storagePercentage).toFixed(1)`; the lemmas below state its values |
| Dashboard.Divide | frontend/src/components/DashboardPage.jsx:59 | exact quotient for a non-zero limit; NaN, Infinity or -Infinity by the sign of the usage for a zero limit |
| Dashboard.PercentageWithinLimit | frontend/src/components/DashboardPage.jsx:59 | within the limit the percentage is in [0, 100] and the percentage and its "available" figure sum to 100 |
| Dashboard.PercentageNotClamped | frontend/src/components/DashboardPage.jsx:59 | past the limit the percentage exceeds 100 and the available text is negative |
| Dashboard.PercentageZeroLimit | frontend/src/components/DashboardPage.jsx:59 | a zero limit gives NaN or an infinity, and the available text "NaN", "-Infinity" or "Infinity" |
| Dashboard.TenthsRounding | frontend/src/components/DashboardPage.jsx:104 | toFixed(1) picks the integer within half a unit of 10v, the larger on a tie |
| Dashboard.ToFixed1ReadsBack | frontend/src/components/DashboardPage.jsx:104 | the one-decimal text of a non-negative value reads back as its rounded tenths |
| Dashboard.DemoFigures | frontend/src/components/DashboardPage.jsx:59 | the demo account is 48.828125 percent full with "51.2" percent available |
| Dashboard.NoUserFigures | frontend/src/components/DashboardPage.jsx:59 | with no user the percentage is 0 and "100.0" percent is available |
| Dashboard.DashboardPage.constructor | frontend/src/components/DashboardPage.jsx:14-17 | no user, no files, no stats, empty search |
| Dashboard.DashboardPage.Enter | frontend/src/components/DashboardPage.jsx:21-33 | without a token go to /login and load nothing; with one take the current user and the fixtures, and stay on "Loading..." exactly when no user entry is stored |
| Dashboard.DashboardPage.SetSearchQuery | frontend/src/components/DashboardPage.jsx:156 | the query changes and nothing else does |
| Dashboard.DashboardPage.Logout | frontend/src/components/DashboardPage.jsx:35-42 | the session entries are cleared, nobody is signed in, and the page goes to / |
| Contact.FieldOfInput | frontend/src/components/ContactPage.jsx:24-29 | an element name selects the field with that name |
| Contact.FieldOfInputName | frontend/src/components/ContactPage.jsx:24-29 | each field is selected by its own element name |
| Contact.InputNameInjective | frontend/src/components/ContactPage.jsx:24-29 | distinct fields have distinct element names |
| Contact.WithField | frontend/src/components/ContactPage.jsx:24-29 | the spread update sets the named field and leaves every other field unchanged |
| Contact.WithFieldTwice | frontend/src/components/ContactPage.jsx:24-29 | the later of two writes to a field wins |
| Contact.WithFieldCommutes | frontend/src/components/ContactPage.jsx:24-29 | writes to different fields commute |
| Contact.WithFieldSameValue | frontend/src/components/ContactPage.jsx:24-29 | writing a field's current value changes nothing |
| Contact.EmptyFormIsEmpty | frontend/src/components/ContactPage.jsx:14-20 | the initial form is empty in all five fields |
| Contact.ButtonLabel | frontend/src/components/ContactPage.jsx:187 | "Sending..." exactly while submitting, "Send Message" otherwise |
| Contact.ContactPage.constructor | frontend/src/components/ContactPage.jsx:14-21 | empty form, not submitting, no reset pending |
| Contact.ContactPage.HandleInputChange | frontend/src/components/ContactPage.jsx:24-29 | only the named field changes, the flag stays |
| Contact.ContactPage.HandleCategoryChange | frontend/src/components/ContactPage.jsx:31-36 | only the category changes |
| Contact.ContactPage.HandleSubmit | frontend/src/components/ContactPage.jsx:38-41 | the flag goes up and one reset is scheduled; the form is kept |
| Contact.ContactPage.SubmitTimerFires | frontend/src/components/ContactPage.jsx:43-59 | the scheduled reset empties all five fields and drops the flag |
| Contact.ContactPage.SubmitLabel | frontend/src/components/ContactPage.jsx:185-187 | the label reads "Sending..." exactly while the button is disabled |

## Left out

- HTTP transport is not modelled. This covers axios, multipart encoding, the response Blob and the download link in `fileAPI.download`.
- The frontend's origin (`REACT_APP_BACKEND_URL`) is a parameter.
- MongoDB and Motor are replaced by a map of users and a sequence of file records.
- Disk I/O, uuid generation and timestamps (`created_at`, `updated_at`, `uploaded_at`) are parameters or are dropped. FileResponse therefore has no `uploaded_at`.
- The `auth` module is not part of this model. Password hashing and checking, token creation and `get_current_user` arrive as parameters; the caller is an existing user id.
- `EmailStr` is a parameter: a function that rejects a text or gives its normal form. Which texts it accepts, and how it normalises them, is not modelled.
- `ObjectId.is_valid` is a parameter. The unhandled exception that `ObjectId(file_id)` raises on a malformed id is modelled as the generic 500 answer. `ObjectId(v)` on a valid text is modelled as lower-casing its ASCII letters, which is what it does on 24 hexadecimal digits.
- Fresh ObjectIds arrive as parameters. bson prints every id in lower case; the model does not impose that on the ids it is given.
- Concurrency is not modelled. `upload_file`'s read-check-then-`$inc` can race between requests; each handler is one atomic step.
- `delete_file` deletes by id alone, while the model removes the record it found by id and owner. With distinct ids (part of the invariant) these are the same record.
- Floating point is not modelled. `Math.log` ratios and `toFixed` are computed exactly, with no claims about .005 ties in floating point. `toFixed(1)`'s exponent notation for magnitudes of 1e21 and above is also not modelled. The storage percentage is a real number, not an IEEE double.
- `Path` is modelled as a POSIX path: '/' is the only separator.
- `toLowerCase` is modelled on ASCII letters only; Unicode case mapping is not modelled.
- The mock store keeps the user entry as a record, not as JSON text. Entries written under `terabox_user` by anything but `mockLogin` (non-JSON text) are excluded by the store's invariant.
- Timers and toasts are left out. The one-second delays of `mockLogin`/`mockRegister` and the contact form's reset are modelled as before and after states; a pending reset is a counter.
- Browser-side `required` validation of the contact form is not modelled, and neither is what the uncontrolled category `Select` displays after a reset.
- Rendering, routing, and the marketing pages (constant arrays mapped to JSX) are not modelled.
