# Fleet management core, modelled in Dafny

This project models the rules of a fleet-management web application. The
application keeps two tables:

- `vehicles`: number, plate, brand, model, year, current mileage, status.
- `maintenances`: completed services and scheduled ones.

The model covers the parts of the application that decide something:

- **Notification panel** (`Notifications`): date alerts 0 to 7 days ahead and mileage alerts 0 to 500 km ahead, for maintenances with status "Agendado".
- **Dashboard** (`Dashboard`): vehicle count, km of the active vehicles, cost of the last 30 days, and two count-by-key groupings with their colours.
- **Vehicle list search** (`VehicleSearch`): a case-insensitive substring search over number, plate, brand and model.
- **Maintenance list tabs** (`MaintenanceLists`): the completed and the scheduled tab.
- **New-vehicle form** (`VehicleDialog`): a duplicate check on the vehicle number, then an insert.
- **Maintenance form** (`MaintenanceDialog`): the two validation schemas and the per-field error record. Also the confirmation asked for a mileage below the vehicle's current one, and the payloads sent to the store.
- **Chat relay endpoint** (`ChatFleet`):
  - the CORS preflight and the configuration guards;
  - the `atualizar km <plate|number> <digits>` command, which updates one vehicle's mileage;
  - the mapping of the AI gateway's HTTP status to the relay's response.

Some support modules are shared:

- `Wrappers`: `Option` and `Result`.
- `Seqs`: `filter`, `find`, sums, and grouping by key with the record's insertion order.
- `Text`: JavaScript white space, `trim`, `toLowerCase`, `includes`, decimal digits.
- `Fleet`: the two row types and the status strings.
- `Store`: the `vehicles` table as a class with an insert and an update by id.

## Conventions

- **Component state.** React component state is a `class`. Its fields are the `useState` variables, and each handler is a method that reassigns them.
- **The store.** Each read of the data store is a parameter. `None` stands for a query that returned no data. Each write outcome is a boolean parameter (`insertOk`, `rpcOk`, `updateFails`).
- **Dates.** A date is an integer day number. "Today" is a parameter.
- **Money.** Costs are integer cents.
- **Validators.** Zod's UUID and URL validators are function parameters (`isUuid`, `isUrl`).
- **Text and numbers.**
  - Strings are sequences of code points.
  - Integers are unbounded.
  - `parseInt` of a digit run is its decimal value.

## Model

| member | source | states |
|---|---|---|
| Seqs.Grouping | src/pages/Dashboard.tsx:61-65 | the record built by counting lists each distinct key once, with a count equal to its number of occurrences (and above 0) |
| Seqs.DistinctFirstOccurrence | src/pages/Dashboard.tsx:61-65 | the distinct keys are listed in order of first occurrence, the key order of a record filled by `forEach` |
| Seqs.GroupingFirstOccurrence | src/pages/Dashboard.tsx:61-65 | a key listed earlier in the grouping first occurs earlier among the keys grouped |
| Seqs.GroupingTotal | src/pages/Dashboard.tsx:61-65 | the counts of a grouping add up to the number of keys grouped |
| Seqs.KeyCountIsFilterLength | src/pages/Dashboard.tsx:61-65 | a key's count equals the number of rows whose projection is that key |
| Seqs.SumFilter | src/pages/Dashboard.tsx:56-57 | summing over the filtered rows equals summing over the rows that satisfy the filter |
| Seqs.FilterDisjointLength | src/pages/Maintenances.tsx:63-64 | two filters with mutually exclusive predicates keep at most the input length between them |
| Text.Trim | supabase/functions/chat-fleet/index.ts:50 | the result is empty iff the input is all white space; otherwise it neither starts nor ends with white space |
| Text.TrimStripsEnds | supabase/functions/chat-fleet/index.ts:50 | the result is the input with a white-space prefix and a white-space suffix removed and the rest kept in place |
| Text.LowerIdempotent | src/pages/Vehicles.tsx:46-49 | lower-casing twice is lower-casing once |
| Text.ContainsIff | src/pages/Vehicles.tsx:46-49 | `includes` holds iff the needle occurs at some index of the haystack |
| Text.DecimalRoundTrip | supabase/functions/chat-fleet/index.ts:132 | the decimal rendering of a number reads back as that number |
| Store.SetKmWhere | supabase/functions/chat-fleet/index.ts:62-65 | every row carrying the id gets the new `km_current`; every other row and the row count are unchanged |
| Store.SetKmWhereOne | supabase/functions/chat-fleet/index.ts:62-65 | with unique ids the update changes exactly the row at the id's index |
| Store.SetKmKeepsIds | supabase/functions/chat-fleet/index.ts:62-65 | the update keeps ids unique |
| Store.VehicleTable.Insert | src/components/VehicleDialog.tsx:47 | the insert appends exactly the new row and keeps ids unique |
| Store.VehicleTable.SetKm | supabase/functions/chat-fleet/index.ts:62-65 | the table becomes the update-by-id of the old rows |
| Notifications.ScheduledQuery | src/components/NotificationsPanel.tsx:38-52 | the query returns an order-preserving subsequence, holding exactly the rows with status "Agendado", with their multiplicities |
| Notifications.AlertsFor | src/components/NotificationsPanel.tsx:59-96 | one maintenance yields at most two alerts |
| Notifications.AlertsForMeaning | src/components/NotificationsPanel.tsx:59-96 | see the note after this table |
| Notifications.Alerts | src/components/NotificationsPanel.tsx:56-97 | at most two alerts per row; every alert comes from one of the rows |
| Notifications.AlertThresholds | src/components/NotificationsPanel.tsx:63-95 | due today and in 7 days alert, due in 8 days or overdue do not; 500 km ahead alerts, 501 km does not; a missing or zero current mileage never alerts |
| Notifications.AlertsAppend | src/components/NotificationsPanel.tsx:59-97 | the scan of a concatenation is the concatenation of the scans (alerts follow row order) |
| Notifications.OnlyScheduledAlert | src/components/NotificationsPanel.tsx:52-97 | every alert of the panel comes from a row with status "Agendado" and carries its id and service type |
| Notifications.BuildAlerts | src/components/NotificationsPanel.tsx:56-97 | the `forEach`/`push` loop produces exactly the specified scan |
| Notifications.NotificationsPanel.constructor | src/components/NotificationsPanel.tsx:22 | the panel starts with no notifications |
| Notifications.NotificationsPanel.FetchNotifications | src/components/NotificationsPanel.tsx:38-100 | no data leaves the list as it was; otherwise the list becomes the scan of the "Agendado" rows, independent of the previous list |
| MaintenanceLists.CompletedMaintenances | src/pages/Maintenances.tsx:63 | an order-preserving subsequence holding exactly the "Concluído" rows, with their multiplicities |
| MaintenanceLists.ScheduledMaintenances | src/pages/Maintenances.tsx:64 | an order-preserving subsequence holding exactly the "Agendado" rows, with their multiplicities |
| MaintenanceLists.TabsPartition | src/pages/Maintenances.tsx:63-64 | the tabs share no row, together hold at most all rows, and a row with any other status is in neither |
| VehicleSearch.SearchFilter | src/pages/Vehicles.tsx:43-55 | an empty term keeps the list; otherwise an order-preserving subsequence holding exactly the vehicles whose number, plate, brand or model contains the term, ignoring case |
| VehicleSearch.SearchIgnoresCase | src/pages/Vehicles.tsx:45-50 | two terms equal up to letter case select the same list |
| VehicleSearch.VehiclesPage.constructor | src/pages/Vehicles.tsx:24-26 | the page starts with empty lists and an empty term |
| VehicleSearch.VehiclesPage.FetchVehicles | src/pages/Vehicles.tsx:57-67 | data replaces both the list and the filtered list; no data changes nothing |
| VehicleSearch.VehiclesPage.ApplySearch | src/pages/Vehicles.tsx:43-55 | the filtered list becomes the search of the list by the term |
| VehicleSearch.VehiclesPage.SetSearchTerm | src/pages/Vehicles.tsx:43-55 | the term is stored and the filtered list recomputed from it |
| Dashboard.CountedMaintenances | src/pages/Dashboard.tsx:42-50 | no data counts nothing; otherwise exactly the completed rows dated on or after 30 days ago, in table order, with their multiplicities |
| Dashboard.TotalKm | src/pages/Dashboard.tsx:56-57 | the total km sums the active vehicles only, a missing mileage counting 0 |
| Dashboard.MaintenanceCost | src/pages/Dashboard.tsx:58 | the cost sums the rows that carry a cost; a row without one adds nothing |
| Dashboard.CostWindowOnly | src/pages/Dashboard.tsx:42-58 | the cost sums the completed rows of the last 30 days only, a missing cost counting 0 |
| Dashboard.CostWindowBoundary | src/pages/Dashboard.tsx:43-50 | a service exactly 30 days old is counted, one 31 days old is not |
| Dashboard.StatusColor | src/pages/Dashboard.tsx:73-82 | the three status colours; the grey default exactly for every other status |
| Dashboard.ComputeStats | src/pages/Dashboard.tsx:55-91 | the statistics hold the vehicle count, the active km total, the cost total, the type groups of the counted rows and the status slices of the vehicles (both in first-occurrence order), with type counts adding up to the counted rows and status counts adding up to the vehicle count |
| Dashboard.Slices | src/pages/Dashboard.tsx:79-83 | each group becomes a slice with its status, count and colour |
| Dashboard.TypeGroupsSpec | src/pages/Dashboard.tsx:60-65 | see the note after this table |
| Dashboard.StatusGroupsSpec | src/pages/Dashboard.tsx:67-83 | the status slices list each status of the vehicles exactly once, only those, with its colour, and the counts add up to the vehicle count |
| Dashboard.SlicesKeepCounts | src/pages/Dashboard.tsx:79-83 | colouring the groups keeps the total count |
| Dashboard.CountKeys | src/pages/Dashboard.tsx:61-64 | the `forEach` leaves a record holding exactly the keys seen, each with its number of occurrences, with the keys in first-insertion order |
| Dashboard.GroupCounts | src/pages/Dashboard.tsx:61-65 | the record's entries are exactly the specified grouping |
| Dashboard.DashboardPage.constructor | src/pages/Dashboard.tsx:16-22 | the initial statistics are zeros and empty lists |
| Dashboard.DashboardPage.FetchDashboardData | src/pages/Dashboard.tsx:38-92 | no vehicle data leaves the statistics as they were; otherwise they become the statistics of the snapshot |
| VehicleDialog.ExistingAsWritten | src/components/VehicleDialog.tsx:35-45 | the check as written reports an existing vehicle iff exactly one row carries the number |
| VehicleDialog.SubmitRowsAsWritten | src/components/VehicleDialog.tsx:35-47 | with the check as written, exactly one matching row blocks the insert; none or several let the form's row be appended when the insert succeeds |
| VehicleDialog.AsWrittenAdmitsDuplicate | src/components/VehicleDialog.tsx:35-47 | with two rows numbered "V001", the check as written lets a third "V001" in |
| VehicleDialog.AsWrittenAgreesWhenUnique | src/components/VehicleDialog.tsx:35-47 | on a table with unique numbers the check as written and the intended one give the same rows |
| VehicleDialog.ExistingVehicle | src/components/VehicleDialog.tsx:35-45 | an existing vehicle is reported iff some row has the number, and the reported row has it |
| VehicleDialog.SubmitRows | src/components/VehicleDialog.tsx:35-47 | a number already taken leaves the rows unchanged; a free number appends exactly the form's row when the insert succeeds and nothing when it fails |
| VehicleDialog.SubmitKeepsNumbersUnique | src/components/VehicleDialog.tsx:35-47 | a submit never creates two rows with the same vehicle number |
| VehicleDialog.VehicleDialogForm.constructor | src/components/VehicleDialog.tsx:17-25 | the form starts empty, this year, 0 km, "Ativo" |
| VehicleDialog.VehicleDialogForm.HandleSubmit | src/components/VehicleDialog.tsx:29-68 | see the note after this table |
| MaintenanceDialog.NullIfEmpty | src/components/MaintenanceDialog.tsx:134-135 | `|| null` on text never yields an empty string and reads back as the input |
| MaintenanceDialog.NullIfZero | src/components/MaintenanceDialog.tsx:132-133 | `|| null` on a number never yields 0 and reads back as the input |
| MaintenanceDialog.CompletedFieldIssuesIff | src/components/MaintenanceDialog.tsx:14-21 | no field issue iff the vehicle id is a UUID, the service type is not blank, km and cost are not negative, and the URL is empty or valid |
| MaintenanceDialog.CompletedIssues | src/components/MaintenanceDialog.tsx:14-33 | the issues name each field at most once, each with that field's message, and they name exactly the fields whose completed-tab rule fails (vehicle id not a UUID, blank service type, negative km, negative cost, a non-empty URL that is not valid, a service date after today); at most six issues |
| MaintenanceDialog.CompletedIssuesIff | src/components/MaintenanceDialog.tsx:14-33 | no issue iff the completed-tab rules hold (the field rules and a date not in the future); a future date puts the date issue last |
| MaintenanceDialog.ScheduledFieldIssuesIff | src/components/MaintenanceDialog.tsx:35-40 | no field issue iff the vehicle id is a UUID, the service type is not blank and the scheduled km is not negative |
| MaintenanceDialog.ScheduledIssues | src/components/MaintenanceDialog.tsx:35-46 | the issues name each field at most once, each with that field's message, and they name exactly the fields whose scheduled-tab rule fails (vehicle id not a UUID, blank service type, negative scheduled km, and `scheduled_date` when there is neither a date nor a km target); at most four issues |
| MaintenanceDialog.ScheduledIssuesIff | src/components/MaintenanceDialog.tsx:35-46 | no issue iff the scheduled-tab rules hold (the field rules and a date or a non-zero km); neither puts the `scheduled_date` issue last |
| MaintenanceDialog.ErrorMap | src/components/MaintenanceDialog.tsx:109-116 | the record is empty iff there are no issues, and the last issue's message is always recorded for its field |
| MaintenanceDialog.ErrorMapKeys | src/components/MaintenanceDialog.tsx:109-116 | a field has an error entry iff some issue names it |
| MaintenanceDialog.ErrorMapLastWins | src/components/MaintenanceDialog.tsx:109-116 | a field's entry is the message of the last issue naming it |
| MaintenanceDialog.ErrorMapOfWellFormed | src/components/MaintenanceDialog.tsx:109-116 | for issues naming each field once with its message, the error record has an entry exactly for the named fields, holding that field's message; with the two parses above, the record the user sees lists exactly the failing rules' fields and messages |
| MaintenanceDialog.FieldErrors | src/components/MaintenanceDialog.tsx:110-115 | the `forEach` filling the record computes the specified error map |
| MaintenanceDialog.RpcPayloadOf | src/components/MaintenanceDialog.tsx:128-136 | the payload has no empty text and no zero number, and reads back as the form's completed-tab fields (service type untrimmed) |
| MaintenanceDialog.ScheduledInsertOf | src/components/MaintenanceDialog.tsx:167-175 | see the note after this table |
| MaintenanceDialog.NeedsKmConfirmation | src/components/MaintenanceDialog.tsx:99-105 | the warning needs a positive entered mileage and a vehicle with the selected id |
| MaintenanceDialog.NeedsKmConfirmationIff | src/components/MaintenanceDialog.tsx:99-105 | the warning is raised iff the first vehicle with the selected id has a current mileage above the entered positive mileage |
| MaintenanceDialog.MaintenanceDialogForm.constructor | src/components/MaintenanceDialog.tsx:55-70 | the dialog starts with no vehicles, no flags, no errors and an empty form |
| MaintenanceDialog.MaintenanceDialogForm.FetchVehicles | src/components/MaintenanceDialog.tsx:78-81 | data replaces the vehicle list; no data changes nothing |
| MaintenanceDialog.MaintenanceDialogForm.ResetForm | src/components/MaintenanceDialog.tsx:201-214 | the form is empty and the error record cleared |
| MaintenanceDialog.MaintenanceDialogForm.PerformMaintenanceSubmit | src/components/MaintenanceDialog.tsx:123-150 | exactly one registration call with the form's payload; the form is reset on success and kept on failure; loading and pending end false |
| MaintenanceDialog.MaintenanceDialogForm.HandleSubmitCompleted | src/components/MaintenanceDialog.tsx:83-121 | see the note after this table |
| MaintenanceDialog.MaintenanceDialogForm.ConfirmKmWarning | src/components/MaintenanceDialog.tsx:420-433 | confirming closes the warning and registers exactly once; success resets the form and clears the errors, failure keeps both; the vehicle list is unchanged |
| MaintenanceDialog.MaintenanceDialogForm.CancelKmWarning | src/components/MaintenanceDialog.tsx:420-430 | cancelling closes the warning, clears the pending flag and writes nothing |
| MaintenanceDialog.MaintenanceDialogForm.InsertScheduledRow | src/components/MaintenanceDialog.tsx:167-183 | exactly one insert of the scheduled row built from the form; a successful insert resets the form and clears the errors, a failed one leaves them |
| MaintenanceDialog.MaintenanceDialogForm.HandleSubmitScheduled | src/components/MaintenanceDialog.tsx:152-199 | errors are the issues of the scheduled schema; invalid data writes nothing; valid data inserts exactly one scheduled row and resets the form on success |
| ChatFleet.SpanEnd | supabase/functions/chat-fleet/index.ts:53 | the end of the longest run of the class starting at a position |
| ChatFleet.MatchAt | supabase/functions/chat-fleet/index.ts:53 | a match captures a non-empty token and a non-empty run of digits |
| ChatFleet.MatchAtSound | supabase/functions/chat-fleet/index.ts:53 | a match is a split of the pattern (prefix, spaces, token, spaces, digits) whose digit run cannot be extended |
| ChatFleet.MatchAtComplete | supabase/functions/chat-fleet/index.ts:53 | wherever any split of the pattern exists, the engine matches, with that split's token and a digit run extending its digits |
| ChatFleet.LeftmostStart | supabase/functions/chat-fleet/index.ts:53 | the position returned is the first one at or after the start where the pattern matches, and it lies past the end of the message only when no position matches |
| ChatFleet.MatchFrom | supabase/functions/chat-fleet/index.ts:53 | the match is the one at the leftmost start position where the pattern matches; none means no position matches |
| ChatFleet.CommandOf | supabase/functions/chat-fleet/index.ts:50-54 | a recognised command has a non-empty token and a non-empty run of decimal digits |
| ChatFleet.CommandRecognisedIff | supabase/functions/chat-fleet/index.ts:50-54 | a command is recognised iff the lower-cased, trimmed message holds "atualizar km", white space, a non-space token, white space and a digit |
| ChatFleet.TargetOf | supabase/functions/chat-fleet/index.ts:55-59 | the target is the first vehicle whose plate or number equals the token, ignoring case; none means no vehicle does |
| ChatFleet.TargetIgnoresCase | supabase/functions/chat-fleet/index.ts:56-59 | the token matches whatever case it is written in |
| ChatFleet.ConfirmationNames | supabase/functions/chat-fleet/index.ts:68 | the confirmation names the vehicle's number, its plate and the new mileage's digits |
| ChatFleet.UpdateOf | supabase/functions/chat-fleet/index.ts:53-65 | an update is planned iff a command is found and it names a vehicle; the planned row is `TargetOf`'s first match for the command's token; the new mileage is the decimal value of the captured digits |
| ChatFleet.UpdateTouchesOnlyTarget | supabase/functions/chat-fleet/index.ts:61-65 | the update sets the target's mileage, even downwards, and leaves every other vehicle unchanged |
| ChatFleet.UpdateExample | supabase/functions/chat-fleet/index.ts:49-69 | "ATUALIZAR KM V001 12345" targets vehicle V001 with mileage 12345 |
| ChatFleet.ExampleCommand | supabase/functions/chat-fleet/index.ts:50-55 | "ATUALIZAR KM V001 12345" yields the token "v001" and the digits "12345" |
| ChatFleet.UpstreamResponse | supabase/functions/chat-fleet/index.ts:110-141 | a success status gives 200 with the reply; 429 and 402 pass through with their messages; any other status gives 500 with an error naming the status |
| ChatFleet.UpstreamStatusMapping | supabase/functions/chat-fleet/index.ts:110-133 | the relay's status is 200, 402, 429 or 500; it is 200, 429 or 402 exactly when the gateway's is a success, 429 or 402 |
| ChatFleet.ResponseFor | supabase/functions/chat-fleet/index.ts:9-147 | a preflight gets 200 with the CORS headers and no body; a missing or empty key gives 500 "LOVABLE_API_KEY is not configured"; a reply only when every guard passed; once every guard passes, a successful gateway answer becomes exactly its upstream response and a network failure a 500 with its message; every other status carries an error body |
| ChatFleet.ReplyIff | supabase/functions/chat-fleet/index.ts:14-141 | the relay replies iff every guard passes and the gateway answers with a success status |
| ChatFleet.ApplyKmCommand | supabase/functions/chat-fleet/index.ts:48-70 | when the message names a vehicle and the update succeeds, the table becomes the update-by-id of the old rows with the parsed mileage and the confirmation names that vehicle; otherwise the table is unchanged and there is no confirmation |
| ChatFleet.HandleRequest | supabase/functions/chat-fleet/index.ts:9-147 | see the note after this table |

Notes for the longer rows:

- **Notifications.AlertsForMeaning**:
  - Each alert carries the row's id, service type, number and plate.
  - A date alert appears iff the due date is 0 to 7 days ahead; its days-until is the difference.
  - A km alert appears iff both mileages are truthy and the due km is 0 to 500 ahead; its km-until is the difference.
  - When both appear, the date alert comes first.
- **Dashboard.TypeGroupsSpec**: the type groups list each service type of the counted rows exactly once, and only those. Each count is that type's number of rows, and the counts add up to the row count.
- **VehicleDialog.VehicleDialogForm.HandleSubmit**: the handler uses the intended duplicate check of the row under "## Findings" (any row with the number blocks the insert), not the `.single()` check as written. `VehicleDialog.AsWrittenAgreesWhenUnique` shows the two give the same rows whenever the table's numbers are unique.
  - A row is inserted iff no row has the number and the insert succeeds.
  - The table becomes `SubmitRows` of the old table, so ids stay unique.
  - The form is reset exactly when a row was inserted.
  - Loading ends false.
- **MaintenanceDialog.ScheduledInsertOf**: the inserted row has status "Agendado", is flagged as scheduled, carries the trimmed service type, and has no zero km and no empty description. Its fields read back as the form's.
- **MaintenanceDialog.MaintenanceDialogForm.HandleSubmitCompleted**:
  - The errors are the issues of the completed schema, and invalid data changes nothing else.
  - Valid data with a retroactive mileage only raises the warning and the pending flag.
  - Any other valid data registers exactly once.
- **ChatFleet.HandleRequest**:
  - The response is `ResponseFor`.
  - When the guards pass, a command names a vehicle and the update succeeds, only that vehicle's mileage changes, and the confirmation names the vehicle and the digits. Otherwise nothing changes and there is no confirmation.
  - The update stays applied whatever the gateway answers.

## Left out

- The user interface: JSX, dialogs opening and closing, `onSuccess`/`onClose` callbacks, toasts and the message texts of failed writes.
- Realtime subscriptions (the channels that re-run the fetches on any table change) and effects re-running after a fetch: every fetch is a method taking a snapshot, and nothing schedules it.
- Concurrency: the gap between the duplicate check and the insert in the vehicle form, and between the relay's fetch and its update, is not modelled; each handler runs to completion on one snapshot.
- The atomic registration procedure's body (insert the maintenance and set the vehicle's mileage) runs in the database and is not part of this model; the model records the call and its arguments.
- Server-side ordering (`order("created_at")`) is not modelled: the tables are given in the order the query returns them.
- Dates: time of day, time zones, `new Date` parsing and `differenceInDays` rounding are not modelled; dates are whole day numbers and "30 days ago" is `today - 30`.
- Costs are integer cents; `parseFloat` on non-numeric text and floating-point sums are not modelled.
- Text.Lower: lower-cases only ASCII and Latin-1 capitals, not the full Unicode case mapping of `toLowerCase`.
- Strings are sequences of code points, not UTF-16 code units.
- ChatFleet.UpdateOf: `parseInt` is exact, without the loss of precision above 2^53.
- The prompt, its JSON serialisation of the fleet data, the gateway call and the parsing of its JSON answer are not modelled. The gateway's answer is a parameter: a status and the first choice's content, or a network error message. A malformed answer, which makes the handler answer 500, is not modelled.
- A request body that is valid JSON without a string `message` is not modelled (the relay answers 500 with the resulting type error).
- The relay reads SUPABASE_URL and SUPABASE_SERVICE_ROLE_KEY with non-null assertions; when either is missing, creating the client throws and the relay answers 500. The model assumes both are set.
- ChatFleet.ResponseFor: the data store's errors are thrown as plain objects and answered with "Unknown error"; the model assumes they are not `Error` instances.
- MaintenanceDialog.ErrorMap: the guard on an empty issue path is not modelled, because every issue of these schemas is reported on a named field. The record is keyed by field; the order of `Object.entries` is not observable here.
- The grouping records on the dashboard list keys in insertion order. JavaScript lists integer-like keys (for example a service type "10") first, in numeric order; that reordering is not modelled.
- Dashboard.GroupCounts: the records are plain JavaScript objects, so a key naming an `Object.prototype` member behaves differently from the model. With "constructor" or "toString" as a service type or status, the first count reads the inherited function and stores text, not 1. With "__proto__", assigning a number is ignored and the key is not listed. The model, `Dashboard.CountKeys` included, treats every key as an ordinary key.
- Dashboard.StatusColor: for a status naming an `Object.prototype` member (such as "toString"), `statusColors[status]` yields the inherited member, which is truthy, not the grey default. The model gives such a status the default colour.
- The joined vehicle of a notification row is assumed present; a row whose vehicle is missing (which makes the panel's callback throw) is not modelled.
- The list pages' display cards and the chat page (`src/pages/Chat.tsx`) carry no rules and are not part of this model.

## Findings

| source | as written | input that shows it | evidently intended | confidence | as-written member | corrected member |
|---|---|---|---|---|---|---|
| src/components/VehicleDialog.tsx:35-45 | the duplicate check uses `.single()`, which returns data only when exactly one row matches; with two or more rows carrying the number it returns no data and the insert goes ahead | a table with two rows numbered "V001" and a form for "V001": a third "V001" row is inserted | refuse the insert whenever any row carries the number | not executed; medium (needs a table that already holds a duplicate) | VehicleDialog.AsWrittenAdmitsDuplicate | VehicleDialog.SubmitKeepsNumbersUnique |
