# Job capture app: the in-memory API and the list and form helpers

This project models two parts of a field-service web app in Dafny. The app
lets trade managers schedule jobs at client sites. Engineers then take
"pre" and "post" photos of each area of a job's inspection template.

**The in-memory back end** (`src/lib/mockApi.ts`) is a set of module-level
tables:
- users and login tokens;
- sites;
- templates and their areas;
- jobs with their photo captures.

It also keeps one id counter per table. Each HTTP route reads or changes
those tables. The model is the class `MockApi.Store`, whose fields are the
tables and counters, with one method per route. Each route method states
its whole new state, including on every error path. Each also preserves a
store invariant (`Store.Valid`):
- ids ascend and stay below their counter;
- every login token belongs to a stored user;
- every job is at a stored site;
- no capture has a post image without a pre image;
- each template's area list agrees with the shared area table, which holds
  no orphaned areas.

The rules the routes apply are pure functions, with lemmas about them:
- `JobRules`: the job list filter, the creation checks, job references,
  capture snapshots, the completion percentage, the field-by-field update
  and the photo upload.
- `DirectoryRules`: login, setup, users, sites, templates and areas.

Time is passed in as a `Clock`:
- an instant in milliseconds;
- a day number for date-only comparisons;
- the `yyyymmdd` stamp used in references.

Image URLs are opaque values passed in with the upload body.

**The front-end helpers**, one module each:
- `Pagination`: the page-number window of the page bar, its render guard,
  the Previous/Next rules and the two-digit labels.
- `MultiSelect`: the checkbox toggle and the button text.
- `FilterModal`: the filter object, its per-field update and clear, and the
  selected count.
- `LocationModal`: the add/edit location dialog. It covers the duplicate
  postcode check, change detection, the Save-button rule, and the
  validation and normalisation in `handleSave`.

Shared pieces:
- `Text`: JavaScript's `trim`, ASCII `toLowerCase`, decimal printing,
  `padStart`, `split`/`replace` and `join`.
- `Wrappers`: `Option`, `Result` and the three-way request-body `Field`
  (absent, null or given).
- `Entities`: the records.

## Model

| member | source | states |
|---|---|---|
| MockApi.Store.constructor | src/lib/mockApi.ts:19-354 | The seed state: no users or tokens, two sites, one template with one area, four jobs, counters at 1, 3, 2, 3, 5 and 5; the store invariant holds |
| MockApi.SeedSitesOk | src/lib/mockApi.ts:84-118 | The seed sites satisfy the site invariant and have ids 1 and 2 |
| MockApi.SeedTemplatesOk | src/lib/mockApi.ts:119-147 | The seed template agrees with the seed area table |
| MockApi.SeedJobsOk | src/lib/mockApi.ts:148-354 | The seed jobs ascend by id below 5, sit at seed sites, and have no post image without a pre image |
| MockApi.Store.Login | src/lib/mockApi.ts:403-424 | Missing email or password: error and nothing changes. Known email: the existing user, no new user. Unknown email: a new active trade manager under the next id with the display name derived from the email. The token is mapped to the user in both cases |
| MockApi.Store.AddUser | src/lib/mockApi.ts:410-419 | A user stored under the counter's id is appended and the counter moves on; the user invariant holds |
| MockApi.Store.IssueToken | src/lib/mockApi.ts:421-422 | The token is mapped to the stored user and no other token changes |
| MockApi.Store.Setup | src/lib/mockApi.ts:445-462 | Fails once any user exists or when a field is missing, storing nothing; otherwise stores one super admin as the only user |
| MockApi.Store.ListJobs | src/lib/mockApi.ts:473-483 | The rows are the job list for the status filter and the engineer scope; an engineer sees only jobs assigned to them |
| MockApi.Store.CreateJob | src/lib/mockApi.ts:486-569 | A failed check stores nothing and moves no counter. A passed check stores the new job under the next job id, with one capture per template area numbered from the capture counter |
| MockApi.Store.SnapshotAreas | src/lib/mockApi.ts:549-565 | The capture loop returns the template's capture snapshot and advances the capture counter by the number of areas |
| MockApi.Store.StorePlanned | src/lib/mockApi.ts:527-568 | The stored job is the new job built from the checked plan under the next id; it is appended and both counters move on |
| MockApi.Store.AppendJob | src/lib/mockApi.ts:528-566 | A job under the counter's id at a stored site is appended and the counter moves on |
| MockApi.Store.UpdateJob | src/lib/mockApi.ts:579-636 | Unknown id: not found, nothing changes. Otherwise the stored job becomes the result of the field-by-field patch, including the writes made before a failing check, and the route returns the job or the error |
| MockApi.Store.WriteJob | src/lib/mockApi.ts:594-634 | The job at the position is replaced by its updated form; nothing else changes |
| MockApi.Store.DeleteJob | src/lib/mockApi.ts:637-642 | Unknown id: not found, nothing changes; otherwise exactly that job is removed and no job with the id remains |
| MockApi.Store.Approve | src/lib/mockApi.ts:644-651 | A known job's status becomes approved whatever it was; an unknown id changes nothing |
| MockApi.Store.Reject | src/lib/mockApi.ts:653-665 | A known job becomes rejected, with the trimmed reason (null when blank or absent) and the review time; an unknown id changes nothing |
| MockApi.Store.ListCaptures | src/lib/mockApi.ts:667-679 | Unknown id: not found. Otherwise the job's captures and their completion percentage: the share of captures with a post image as a percentage rounded half up (bounded on both sides), 0 when there are no captures |
| MockApi.Store.UploadCapture | src/lib/mockApi.ts:681-747 | Unknown job: not found, nothing changes. Otherwise the job, the capture counter and the result are those of the upload rules applied to that job |
| MockApi.Store.CreateSite | src/lib/mockApi.ts:827-849 | Stores the site under the next id when the four required fields are filled; otherwise an error and nothing changes |
| MockApi.Store.UpdateSite | src/lib/mockApi.ts:785-813 | Unknown id: not found. Otherwise the site at its position is replaced by its patched form and returned |
| MockApi.Store.DeleteSite | src/lib/mockApi.ts:814-825 | Unknown id: not found, nothing changes. Otherwise the site and every job at it are removed, and no job at that site remains |
| MockApi.Store.KeepJobsNotAt | src/lib/mockApi.ts:819-823 | The job loop leaves exactly the jobs at other sites, in order |
| MockApi.Store.DropJobsAt | src/lib/mockApi.ts:819-823 | Dropping the site's jobs keeps the store invariant |
| MockApi.Store.DropSiteRow | src/lib/mockApi.ts:818 | Once no job is at the site, the site row is removed and the store invariant holds |
| MockApi.Store.RemoveAreasOf | src/lib/mockApi.ts:917-944 | The backwards splice loop leaves the area table without the template's areas, the others in order |
| MockApi.Store.PushAreas | src/lib/mockApi.ts:955-967 | The area loop returns the numbered areas, appends them to the area table and advances the area counter by their number |
| MockApi.Store.CreateTemplate | src/lib/mockApi.ts:948-979 | Missing name or areas array: error and nothing changes. Otherwise an active template under the next id, with its numbered areas appended to the area table |
| MockApi.Store.AddTemplate | src/lib/mockApi.ts:953-977 | The template is appended under the next id with its numbered areas, which also go to the area table |
| MockApi.Store.UpdateTemplate | src/lib/mockApi.ts:886-934 | Unknown id: not found, nothing changes. Otherwise the template is patched in place. A sent areas array replaces the template's areas in the area table and advances the area counter |
| MockApi.Store.ReplaceAreas | src/lib/mockApi.ts:917-924 | The template is replaced and its areas in the table become the new ones, after the other templates' areas |
| MockApi.Store.DeleteTemplate | src/lib/mockApi.ts:935-946 | Unknown id: not found, nothing changes. Otherwise the template and all of its areas are removed |
| MockApi.Store.RemoveTemplate | src/lib/mockApi.ts:939-944 | The template row and every area of it are removed |
| MockApi.Store.ListUsers | src/lib/mockApi.ts:982-1000 | The rows are the user list for the viewer and the filters; a trade manager sees only engineers |
| MockApi.Store.CreateUser | src/lib/mockApi.ts:1079-1114 | A failed check stores nothing. Otherwise the new user is stored under the next id, created by the caller. A trade manager can only create engineers |
| MockApi.Store.RefreshAssignments | src/lib/mockApi.ts:1041-1049 | The job loop leaves the jobs equal to the engineer cascade of the updated user |
| MockApi.Store.UpdateUser | src/lib/mockApi.ts:1021-1062 | Unknown id: not found, nothing changes. Otherwise the user is patched in place and every job assigned to them is refreshed |
| MockApi.Store.StoreUser | src/lib/mockApi.ts:1034-1049 | The user is replaced at the position and the job cascade is applied for them |
| MockApi.Store.RevokeTokens | src/lib/mockApi.ts:1069-1071 | The token loop removes exactly the tokens issued to the user |
| MockApi.Store.ClearAssignments | src/lib/mockApi.ts:1073-1075 | The job loop clears the engineer of exactly the jobs assigned to the user |
| MockApi.Store.DeleteUser | src/lib/mockApi.ts:1063-1077 | Unknown id: not found, nothing changes. Otherwise the user, every token issued to them and every assignment to them are gone |
| MockApi.Store.DropUser | src/lib/mockApi.ts:1067-1075 | The user row, their tokens and their assignments go |
| MockApi.WriteHead | src/lib/mockApi.ts:594-601 | The title, description and status writes of an update, one by one, equal the head patch |
| MockApi.WriteEngineer | src/lib/mockApi.ts:616-632 | The engineer write and its schedule checks equal the engineer patch |
| MockApi.ApplyJobPatch | src/lib/mockApi.ts:594-634 | The writes of an update in the route's order equal the job patch |
| MockApi.UploadSteps | src/lib/mockApi.ts:688-746 | The upload steps on a found job equal the upload rules |
| StoreInvariant.UserAppended | src/lib/mockApi.ts:1093-1104 | A user stored under the counter's id keeps the user invariant once the counter moves on |
| StoreInvariant.UserRemoved | src/lib/mockApi.ts:1067-1071 | Removing a user together with their tokens keeps the user invariant |
| StoreInvariant.TokenIssued | src/lib/mockApi.ts:422 | Mapping a token to a stored user keeps the user invariant |
| StoreInvariant.UserReplaced | src/lib/mockApi.ts:1034-1039 | Replacing a user by a record with the same id keeps the user invariant |
| StoreInvariant.SiteRemoved | src/lib/mockApi.ts:818 | Removing a site keeps the site invariant and removes exactly its id |
| StoreInvariant.SiteAppended | src/lib/mockApi.ts:847 | A site under the counter's id with its required fields keeps the site invariant and adds its id |
| StoreInvariant.SiteReplaced | src/lib/mockApi.ts:801-811 | Replacing a site by a filled record with the same id keeps the site invariant and the ids |
| StoreInvariant.JobAppended | src/lib/mockApi.ts:528-532 | A job stored under the counter's id, at a stored site, keeps the job invariant |
| StoreInvariant.JobReplaced | src/lib/mockApi.ts:594-634 | Replacing a job by one with the same id and site, and no post image without a pre image, keeps the job invariant |
| StoreInvariant.JobRemoved | src/lib/mockApi.ts:639-640 | Removing a job keeps the job invariant |
| StoreInvariant.SiteJobsRemoved | src/lib/mockApi.ts:819-823 | Dropping a site's jobs keeps the job invariant without that site |
| StoreInvariant.EngineersChanged | src/lib/mockApi.ts:1041-1075 | Changing only the engineers of jobs keeps the job invariant |
| StoreInvariant.TemplateAdded | src/lib/mockApi.ts:953-977 | A new template with a fresh id and its own areas appended to the table keeps the template invariant |
| StoreInvariant.TemplateReplaced | src/lib/mockApi.ts:917-924 | Replacing a template's areas, in the template and in the table, keeps the template invariant |
| StoreInvariant.TemplateRenamed | src/lib/mockApi.ts:898-900 | Changing a template's name, description or flag keeps the template invariant |
| StoreInvariant.TemplateRemoved | src/lib/mockApi.ts:939-944 | Removing a template together with its areas keeps the template invariant |
| JobRules.JobList | src/lib/mockApi.ts:356-383 | Every row matches the status and engineer filters and comes from a stored job; every matching job appears |
| JobRules.ListScope | src/lib/mockApi.ts:477-480 | An engineer is scoped to their own id; other roles use the requested engineer id |
| JobRules.EngineerSeesOwnJobs | src/lib/mockApi.ts:477-481 | An engineer's job list holds only jobs assigned to that engineer |
| JobRules.CheckNewJob | src/lib/mockApi.ts:498-525 | Rejects exactly when a creation check fails, in the route's order, with each error implying its cause. On success it names the stored site, the stored template and the resolved engineer. An assigned engineer implies a start not in the past and an end after the start |
| JobRules.ResolveEngineer | src/lib/mockApi.ts:511-514 | A resolved engineer is a stored engineer with the requested id |
| JobRules.ReferenceRoundTrip | src/lib/mockApi.ts:529 | A reference is `JOB-`, the date stamp and `-`, then at least four digits that read back as the job id |
| JobRules.ReferencesDistinct | src/lib/mockApi.ts:529 | Different job ids give different references |
| JobRules.SnapshotCaptures | src/lib/mockApi.ts:530-565 | One capture per template area, in order, numbered from the counter, copying name, order and guidance, with no images |
| JobRules.NewJob | src/lib/mockApi.ts:527-566 | The stored job: status assigned exactly when an engineer resolved, otherwise draft; the request's schedule; both timestamps the creation time; no review data |
| JobRules.CompletionPercentage | src/lib/mockApi.ts:673-677 | At most 100, the share of captures with a post image rounded half up, 0 with no captures or none done, 100 when all are done |
| JobRules.RoundDiv | src/lib/mockApi.ts:677 | The quotient rounded half up: the nearest whole number, ties upward |
| JobRules.PercentBound | src/lib/mockApi.ts:677 | A rounded percentage of done out of total is at most 100, 0 when none is done and 100 when all are |
| JobRules.RoundHalfUp | src/lib/mockApi.ts:677 | The rounded quotient is the integer quotient plus one exactly when the remainder is at least half the divisor, so halves round up rather than down |
| JobRules.PatchHead | src/lib/mockApi.ts:594-601 | Title trimmed unless blank, description as sent or null, status as sent, submission time set when the status becomes submitted |
| JobRules.PatchDate | src/lib/mockApi.ts:602-607 | Only the scheduled date changes: to null, to the sent date, or kept when absent |
| JobRules.PatchTimes | src/lib/mockApi.ts:608-614 | Only the scheduled start and end change, each to null, to the sent value, or kept when absent |
| JobRules.PatchEngineer | src/lib/mockApi.ts:616-634 | An absent engineer keeps the assignment and null clears it. A resolved engineer requires a start and an end, with the end after the start. The update time is set only on success |
| JobRules.PatchJobWrites | src/lib/mockApi.ts:594-634 | The head writes take effect whatever happens later; the update time changes only on success |
| JobRules.PatchJobChecks | src/lib/mockApi.ts:602-632 | Each error implies its cause. A success means the sent date and start are not in the past, and an assigned engineer has an ordered schedule |
| JobRules.PatchNotAtomic | src/lib/mockApi.ts:596-605 | A status sent with a past scheduled date is stored although the update fails |
| JobRules.Upload | src/lib/mockApi.ts:688-746 | An engineer may upload only to their own job. An unknown area first gets a fresh capture, which is kept on error. Errors leave the existing captures and the update time as they were |
| JobRules.PostNeedsPre | src/lib/mockApi.ts:718-720 | A post image before a pre image fails, and no existing capture changes |
| JobRules.UploadTouchesOneSide | src/lib/mockApi.ts:734-745 | A successful upload sets url, thumbnail and time on one side of one capture and changes nothing else |
| JobRules.UploadKeepsPreBeforePost | src/lib/mockApi.ts:718-745 | Uploads never produce a post image without a pre image |
| DirectoryRules.FindUserByEmail | src/lib/mockApi.ts:406 | The first stored user with that email, as `find` returns it; none exactly when no user has it |
| Entities.IndexOf | src/lib/mockApi.ts:816 | The index of the first record with the key, or none exactly when no record has it |
| DirectoryRules.DisplayNameFromEmail | src/lib/mockApi.ts:412 | The display name is never empty and has no `@` or `.` |
| DirectoryRules.DisplayNameOfAddress | src/lib/mockApi.ts:412 | For `local@domain` the name is the local part with dots as spaces, or "User" when it is empty |
| DirectoryRules.LoginUser | src/lib/mockApi.ts:409-418 | The user login creates: an active trade manager with the derived display name |
| DirectoryRules.CheckSetup | src/lib/mockApi.ts:446-459 | Fails once users exist or when a field is missing; otherwise an active super admin |
| DirectoryRules.UserList | src/lib/mockApi.ts:985-999 | Every row comes from a visible user; every visible user appears |
| DirectoryRules.TradeManagerSeesOnlyEngineers | src/lib/mockApi.ts:995 | A trade manager's user list holds only engineers |
| DirectoryRules.CheckNewUser | src/lib/mockApi.ts:1082-1090 | Missing fields fail first. The role defaults to engineer. A trade manager may create only engineers |
| DirectoryRules.NewUser | src/lib/mockApi.ts:1092-1103 | The stored user is active, created by the caller, with trimmed phone and address |
| DirectoryRules.PatchUser | src/lib/mockApi.ts:1034-1039 | Email and name trimmed unless blank, the flag as sent, phone and address trimmed or null; id, role and creation kept |
| DirectoryRules.RefreshLeavesCurrentName | src/lib/mockApi.ts:1041-1049 | After the cascade a job still assigned to the user shows an active engineer with the current name; other jobs are unchanged |
| DirectoryRules.ClearLeavesNoAssignment | src/lib/mockApi.ts:1073-1075 | After clearing, no job is assigned to the user; other jobs are unchanged |
| DirectoryRules.TokensWithout | src/lib/mockApi.ts:1069-1071 | A token remains exactly when it was issued to another user, with its user unchanged |
| DirectoryRules.CheckNewSite | src/lib/mockApi.ts:830-846 | Succeeds exactly when the four required fields are filled, giving a site under the id with them filled |
| DirectoryRules.PatchSite | src/lib/mockApi.ts:801-811 | Required fields trimmed unless blank, so they stay filled; optional fields as sent or null; id and creation kept |
| DirectoryRules.JobsWithoutSiteMembers | src/lib/mockApi.ts:819-823 | A job remains exactly when it was stored and is at another site |
| DirectoryRules.JobsWithoutSiteAscending | src/lib/mockApi.ts:819-823 | Removing jobs keeps the ids ascending |
| DirectoryRules.NewAreas | src/lib/mockApi.ts:955-967 | One area per entry, numbered from the counter; a missing name becomes "Area <position>", a missing order its position |
| DirectoryRules.NamedInputs | src/lib/mockApi.ts:903 | Keeps exactly the entries with a non-blank name |
| DirectoryRules.NamedInputsAppend | src/lib/mockApi.ts:903 | Filtering a concatenation filters each part, so kept entries stay in input order |
| DirectoryRules.NamedInputsSingle | src/lib/mockApi.ts:903 | A single entry is kept exactly when its name is non-blank |
| DirectoryRules.NamedInputsCount | src/lib/mockApi.ts:903 | Each named entry is kept as many times as it occurs, and no other entry is kept |
| DirectoryRules.NormalisedAreas | src/lib/mockApi.ts:902-915 | One area per kept entry, in order, numbered from the counter: the name is the entry's trimmed name (non-empty), the order its positive order or else its position among the kept entries, the guidance its trimmed guidance or null |
| DirectoryRules.AreasWithoutMembers | src/lib/mockApi.ts:917-921 | An area remains exactly when it belongs to another template |
| DirectoryRules.AreasOfWithout | src/lib/mockApi.ts:917-944 | Removing one template's areas leaves every other template's areas as they were |
| DirectoryRules.AreasOfAppend | src/lib/mockApi.ts:955-967 | The areas of a template in a table with areas appended are its old ones followed by the appended ones |
| Text.DecimalRoundTrip | src/lib/mockApi.ts:529 | The decimal text of a number is all digits and reads back as the number |
| Text.PaddedDecimalValue | src/lib/mockApi.ts:529 | Zero-padding the decimal text keeps it all digits and keeps its value |
| Text.TrimIdempotent | src/lib/mockApi.ts:830-846 | Trimming twice is trimming once |
| Text.BlankIffAllWhitespace | src/lib/mockApi.ts:830-846 | A string is blank exactly when every character is whitespace |
| DirectoryRules.PatchTemplate | src/lib/mockApi.ts:898-924 | Name trimmed unless blank, description and flag as sent. Sent areas replace the list by their normalised form; otherwise areas and count are kept |
| Pagination.GetPageNumbers | src/app/components/Pagination.tsx:24-57 | The pushed entries equal the page window |
| Pagination.FewPagesAllShown | src/app/components/Pagination.tsx:27-31 | With at most seven pages the bar is exactly 1..totalPages |
| Pagination.FirstAndLast | src/app/components/Pagination.tsx:21-53 | A rendered bar starts at page 1 and ends at the last page |
| Pagination.WindowLayout | src/app/components/Pagination.tsx:33-53 | Where each entry of a long bar sits: page 1, an optional "...", the neighbours of the current page, an optional "...", the last page |
| Pagination.EllipsisPlacement | src/app/components/Pagination.tsx:36-50 | The leading "..." appears exactly when currentPage > 3, the trailing one exactly when currentPage < totalPages - 2, and none elsewhere |
| Pagination.WindowShape | src/app/components/Pagination.tsx:40-53 | Page numbers rise strictly, lie in 1..totalPages and include the current page; at most seven entries |
| Pagination.WindowGaps | src/app/components/Pagination.tsx:27-53 | Adjacent page buttons are consecutive; each "..." stands between pages with at least one skipped |
| Pagination.NavigationStaysInRange | src/app/components/Pagination.tsx:69-108 | Previous is disabled exactly when page-1 is out of range; Next exactly when page+1 is |
| Pagination.PageLabelValue | src/app/components/Pagination.tsx:98 | A page label has at least two digits and reads back as the page number |
| MultiSelect.ToggleMembership | src/app/components/MultiSelect.tsx:53-57 | The option is selected afterwards exactly when it was not before; every other value's membership is kept |
| MultiSelect.ToggleAppends | src/app/components/MultiSelect.tsx:56 | Selecting appends the option after the kept selection |
| MultiSelect.ToggleRemoves | src/app/components/MultiSelect.tsx:55 | Deselecting removes every occurrence and keeps the other values with their multiplicity and order |
| MultiSelect.ToggleTwiceRestores | src/app/components/MultiSelect.tsx:54-56 | Checking and unchecking an unselected option restores the selection |
| MultiSelect.WithoutCounts | src/app/components/MultiSelect.tsx:55 | The filter drops exactly the occurrences of the value |
| MultiSelect.WithoutIsSubsequence | src/app/components/MultiSelect.tsx:55 | The filter keeps the order of what it keeps |
| MultiSelect.DisplayTextCount | src/app/components/MultiSelect.tsx:67-68 | The placeholder for an empty selection; otherwise a decimal count that reads back as the selection size, followed by " selected" |
| FilterModal.FilterPopover.constructor | src/app/components/FilterModal.tsx:33 | The local filters start as the parent's filter object |
| FilterModal.FilterPopover.ReceiveConfig | src/app/components/FilterModal.tsx:41-43 | A new filter object from the parent replaces the local copy |
| FilterModal.FilterPopover.HandleFilterChange | src/app/components/FilterModal.tsx:78-82 | The local filters become the old ones with the field assigned; the result is reported |
| FilterModal.FilterPopover.HandleClearFilters | src/app/components/FilterModal.tsx:85-92 | The loop builds the cleared object for the field names; it is stored and reported |
| FilterModal.AssignSelf | src/app/components/FilterModal.tsx:79 | The assigned field reads back as the new list |
| FilterModal.AssignOther | src/app/components/FilterModal.tsx:79 | Every other field, present or missing, is unchanged |
| FilterModal.AssignExisting | src/app/components/FilterModal.tsx:79 | Assigning a present field keeps every key in place |
| FilterModal.AssignNew | src/app/components/FilterModal.tsx:79 | Assigning a missing field appends it last |
| FilterModal.AssignUnique | src/app/components/FilterModal.tsx:79 | Assignment keeps the keys unique |
| FilterModal.ClearedKeys | src/app/components/FilterModal.tsx:85-89 | The cleared object's keys are exactly the field names, once each, each mapped to [] |
| FilterModal.ClearedEmpty | src/app/components/FilterModal.tsx:88 | Every list of the cleared object is empty |
| FilterModal.SelectedIffCount | src/app/components/FilterModal.tsx:99-105 | Some field has a selection exactly when the count of selected values is positive |
| FilterModal.AssignCount | src/app/components/FilterModal.tsx:79-105 | Assigning a field trades its old list's length for the new list's |
| FilterModal.ClearedCountsNothing | src/app/components/FilterModal.tsx:85-105 | After a clear the count is 0 and nothing is selected |
| LocationModal.TransformRefusesBlank | src/app/components/AddNewLocationModal.tsx:213-222 | Saving is refused with "Please fill in all required fields" exactly when label, first line, town or postcode is missing or blank |
| LocationModal.TransformTrims | src/app/components/AddNewLocationModal.tsx:232-239 | Saved postcode, label and town are the trimmed, non-empty inputs; the county is trimmed, and "" when absent |
| LocationModal.StreetShape | src/app/components/AddNewLocationModal.tsx:224-230 | The street is the trimmed non-blank lines joined by ", "; a saved street starts with the first line |
| LocationModal.DuplicateIgnoresCaseAndPadding | src/app/components/AddNewLocationModal.tsx:66-73 | Postcodes equal after trim and lower-casing get the same duplicate verdict |
| LocationModal.MatchingCachedIsDuplicate | src/app/components/AddNewLocationModal.tsx:53-82 | A cached location with a matching postcode makes a non-blank postcode a duplicate when adding, never when editing |
| LocationModal.ChangesIffDifferent | src/app/components/AddNewLocationModal.tsx:91-106 | A change is reported exactly in edit mode with both locations present and different |
| LocationModal.SaveEnabledIff | src/app/components/AddNewLocationModal.tsx:190-208 | Save is enabled exactly when not saving, no validation message is non-empty and, when editing, something changed; an unchanged edit cannot be saved |
| LocationModal.FailureMessageNonEmpty | src/app/components/AddNewLocationModal.tsx:250-252 | A failed save shows the thrown message, or "Failed to save location" when it has none |
| LocationModal.Dialog.constructor | src/app/components/AddNewLocationModal.tsx:38-130 | Opening: an edit starts from the initial location with no changes, an add with none; no error, no warnings |
| LocationModal.Dialog.CheckDuplicatePostcode | src/app/components/AddNewLocationModal.tsx:51-88 | Returns and records the duplicate verdict; a duplicate shows the warning naming the postcode, otherwise the error line is kept |
| LocationModal.Dialog.RefreshChanges | src/app/components/AddNewLocationModal.tsx:159-164 | In edit mode the change flag becomes the change check |
| LocationModal.Dialog.HandleSave | src/app/components/AddNewLocationModal.tsx:210-256 | No location: nothing happens. A missing required field only shows the required-fields message. Otherwise the normalised address goes to the save handler. The dialog closes on success and shows the failure message on rejection. The saving flag ends cleared |

## Left out

- Fake JWT encoding and decoding, and `getUserForToken`, are not modelled. A session token is an opaque string mapped to a user id. The route methods take the caller as an `Actor`, so the 401 guard for unauthenticated calls is left out too.
- `mockApiFetch`, URL and query parsing, and JSON/`FormData` decoding are not modelled. Each route method takes its parsed body. An upload body is an optional image token, plus a flag saying whether the body was multipart.
- `URL.createObjectURL` is not modelled. Image URLs are opaque tokens supplied with the body.
- The read-only routes `GET /jobs/:id`, `GET /sites`, `GET /sites/:id`, `GET /templates`, `GET /templates/:id`, `GET /users/:id` and `GET /auth/me` are left out. They only look up or project stored records.
- Wall-clock time becomes a `Clock` parameter. Date strings that do not parse (NaN comparisons) are not modelled: schedule values are integers.
- MockApi.Store.Login: the `"detail" in body` choice of error message is not modelled. Every missing-credential case returns one error.
- JobRules.CompletionPercentage: `Math.round` on a floating-point quotient is modelled as exact round-half-up on rationals. Float rounding artefacts are not captured.
- Text.ToLower: only ASCII letters are lower-cased. JavaScript's full Unicode case mapping is not modelled.
- Job records hold a value copy of their site. The route stores a reference to the mutable site object, so a later `PUT /sites/:id` in the source also shows through jobs created by `POST /jobs`. The seed jobs hold their own site copies, as here.
- Role and status strings outside the enumerations cannot be represented. `order_index` values are integers: fractional orders and `Math.floor` on them are not modelled.
- In `PUT /jobs/:id`, a scheduled date, start or end sent as the empty string is stored as null. The model treats only an explicit null that way.
- MockApi.Store.CreateTemplate returns the whole stored template. The route returns only `{id, name, areas}`.
- MockApi.Store.UpdateTemplate returns the whole stored template with its areas. The route returns only `{id, name, description, area_count, is_active, created_at}`.
- MockApi.Store.UpdateUser returns the whole stored user. The route's reply leaves out `created_by`.
- MockApi.Store.CreateUser returns the whole stored user. The route's reply leaves out `created_by`, `created_at` and `updated_at`.
- MockApi.Store.DeleteSite removes the site's jobs before the site itself, the reverse of the route's order. The state it leaves is the same.
- MockApi.Store.CreateJob advances the job counter after the capture loop, where the route does so before it. The ids and the final state are the same.
- FilterModal: a filter object is an insertion-ordered list of keys. JavaScript lists integer-like keys first, in ascending order; that is not modelled.
- LocationModal.LocationData carries only the six address fields the dialog reads. The rest of the form's location record is not part of this model.
- The dialog's effects run when React schedules them. The model exposes them as methods (`CheckDuplicatePostcode`, `RefreshChanges`) and leaves out the effect that clears the duplicate warning. Backdrop clicks, `handleAddressSelect` and `handleFieldChange`, popover positioning, timers and rendering are left out.
- `handleSave` awaits the parent's save handler. The model takes that handler's outcome as a parameter and does not model interleaving with other events.
- Pagination.EllipsisPlacement and Pagination.WindowShape are stated for 1 ≤ currentPage ≤ totalPages only. For a current page outside that range the bar can include pages beyond the ends.
