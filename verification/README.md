# Hostel allocation backend — a Dafny model

This project models the service layer of a hostel-management backend. It covers:

- the **room-allocation solver**. It splits eligible students into level cohorts, binds each cohort to its blocks, and places students greedily into the best-scoring room that still has space.
- the **allocation run controller**. This is the module-level status record and the last result. It covers the single-flight start, the progress checkpoints, room resolution by `block-roomNumber` key, persistence with skip-duplicates, and the failed-run record. It also covers the CSV/PDF report guard and the pre-allocation capacity check.
- the **document rules**: upload as an upsert by type, the two review operations, and the delete guards with the storage public id. It also covers the admin overview, which has the type mapping, the tri-state verified flag and the overall status.
- the **room table**: create with its uniqueness guard, the listing's capacity fields, delete with its guards, the overall summary, and the per-block summary sorted by name.
- the **combined report**: filter building, block occupancy and registration trends (both built in dictionaries), the per-level distribution, and the format dispatch of the report file.

Modules, one per file:

| file | module | what it holds |
|---|---|---|
| common.dfy | `Common` | `Option`/`Result`, room rows, decimal rendering of integers, `split`/`join` |
| grouping.dfy | `Grouping` | group-by-key sums: keys in first-seen order, per-key totals, and proof that the totals add up |
| solver_spec.dfy | `SolverSpec` | the solver as functions: eligibility, cohorts, score, best room, greedy placement, the result counts |
| allocation_solver.dfy | `AllocationSolver` | the solver as written: `RoomState` objects whose occupant lists are pushed in place, shared between the per-block lists and the room table; each method is proved equal to its `SolverSpec` function |
| precheck.dfy | `AllocationPrecheck` | the pre-allocation check: free-space sums, the block-availability accumulator, the warnings |
| allocation_service.dfy | `AllocationService` | the run controller as a class over the status and the last result, room resolution, persistence and the CSV report |
| documents.dfy | `Documents` | type mapping, verified flag, overall status, the admin overview, statistics, the storage public id |
| document_store.dfy | `DocumentStore` | the document table as a class: upload, review by id and by type, delete |
| rooms.dfy | `Rooms` | the room table as a class, the listing, the overall summary and the per-block summary |
| reports.dfy | `Reports` | `parseInt`, the date range, the filters, block occupancy, trends, the level distribution, the report file |

Database queries are replaced by their inputs: the rows a query would return, in table order. The solver's eligibility query and the report filters are kept as predicates over those rows.

## Model

| member | source | states |
|---|---|---|
| SolverSpec.EligibleStudents | src/services/allocation.solver.ts:20-40 | A student is listed iff it is the selected view (id, names, matric number, level, preferred block) of a directory record that passes the eligibility predicate: registration status "SUBMITTED" or "submitted", some verified document, no allocation. The list is empty exactly when no record passes, and every listed student can be found again by id. |
| SolverSpec.CohortsDisjoint | src/services/allocation.solver.ts:6-6 | No level is in two of the cohorts (level 100, level ≥ 400, 100 < level < 400). A level is in some cohort iff it is at least 100. |
| SolverSpec.CohortsPartition | src/services/allocation.solver.ts:63-65 | The three cohorts and the students below level 100 split the eligible students exactly, as a multiset of ids, and their sizes add up to the total. |
| SolverSpec.BlocksDisjoint | src/services/allocation.solver.ts:70-80 | Two different cohorts share no block: freshmen get A, finalists D, returning students B and C. |
| SolverSpec.AvailableForBlock | src/services/allocation.solver.ts:196-200 | A room is a candidate for a block iff it is in that block and holds fewer occupants than its capacity. |
| SolverSpec.BestIsFirstMaximum | src/services/allocation.solver.ts:159-193 | No room is chosen iff every non-full room scores below 0. Otherwise the chosen room is non-full, scores at least as much as every non-full room, and strictly more than every non-full room before it. Score is 100 + 20 for the preferred block + 10 per same-level occupant − 5 per occupant. |
| SolverSpec.BestNoneOnlyWhenFull | src/services/allocation.solver.ts:161-189 | With capacities of at most 21, no room is chosen exactly when every room is full. |
| SolverSpec.PlaceAllRespectsCapacity | src/services/allocation.solver.ts:135-150 | Placement keeps each room's id, block and capacity. A room that gained occupants ends within its capacity, and a room table within capacity stays within capacity. |
| SolverSpec.PlaceAllAccounts | src/services/allocation.solver.ts:135-150 | Every student placed in order yields exactly one assignment or one conflict. The assigned and conflicting ids together are the students' ids as a multiset. |
| SolverSpec.PlaceAllTargets | src/services/allocation.solver.ts:138-149 | Every assignment names a room of the pool. Every conflict from the loop is "Could not find a suitable room matching constraints." |
| SolverSpec.EmptyPoolAllConflicts | src/services/allocation.solver.ts:124-133 | With no candidate rooms, no student is assigned. Every student gets the conflict "No available rooms in designated block(s).", in input order. |
| SolverSpec.CohortAccounts | src/services/allocation.solver.ts:117-151 | Per cohort, assignments + conflicts = cohort size. Ids are preserved as a multiset, and every assignment targets a pool room. |
| SolverSpec.CohortConfinedToBlocks | src/services/allocation.solver.ts:70-80 | Every assignment of a cohort is for a member of that cohort, into a room of the table that lies in one of the cohort's blocks. |
| SolverSpec.CohortResolvable | src/services/allocation.solver.ts:84-99 | Every assigned student and room can be found again by id, so the result's student and room names exist. |
| SolverSpec.RunPartitionsStudents | src/services/allocation.solver.ts:69-80 | Over the whole run, the assigned ids, the conflicting ids and the ids below level 100 are exactly the eligible ids, as a multiset. |
| SolverSpec.SolveCounts | src/services/allocation.solver.ts:42-44 | The run fails with "No eligible students found for allocation." iff nobody is eligible. Otherwise: totalStudents is the eligible count; studentsAllocated is the number of allocations; studentsUnallocated is total − allocated, which equals the conflicts plus the students below level 100; the status is "completed" iff there are no conflicts; errors is empty. |
| SolverSpec.AllocationsView | src/services/allocation.solver.ts:84-99 | One view row per assignment, in assignment order. Each row is `ViewOf` that assignment: the assigned student's id, "first last" name and matric number from a directory record with that id, and the block and room number of a room with the assigned room id. |
| AllocationSolver.AvailableRoomsAgree | src/services/allocation.solver.ts:196-200 | The room objects selected for a block have exactly the values of `SolverSpec.AvailableForBlock` on the table's values. |
| AllocationSolver.FindBestRoomForStudent | src/services/allocation.solver.ts:159-193 | The scoring loop returns null iff `SolverSpec.Best` chooses nothing, and otherwise the room object at the chosen index. |
| AllocationSolver.ProcessStudentCategory | src/services/allocation.solver.ts:117-151 | After the loop, the room objects hold the occupants `SolverSpec.ProcessCohort` computes, and the assignment and conflict lists are extended by its output. |
| AllocationSolver.BuildRoomStates | src/services/allocation.solver.ts:47-59 | One fresh, distinct room object per row, holding that row's values. |
| AllocationSolver.CohortRoomsAgree | src/services/allocation.solver.ts:70-80 | A cohort's candidate objects are distinct and carry the values of `SolverSpec.Pool`, provided its blocks are untouched so far. |
| AllocationSolver.AllocateCohorts | src/services/allocation.solver.ts:69-80 | Processing the three cohorts in turn over the shared room objects gives the assignments and conflicts of the specification. |
| AllocationSolver.RunAllocationSolver | src/services/allocation.solver.ts:13-112 | The imperative run returns exactly `SolverSpec.Solve`. |
| AllocationPrecheck.ClampedFree | src/services/allocationService.ts:56-60 | A room's clamped free space is non-negative and at least its unclamped free space. |
| AllocationPrecheck.SumMonotone | src/services/allocationService.ts:44-60 | A pointwise smaller list has a smaller sum, and equal sums force equal lists. |
| AllocationPrecheck.BlockAvailability | src/services/allocationService.ts:50-71 | The reduce gives one entry per distinct block, in first-seen order. Each entry holds the sum of max(0, capacity − count) over that block's rooms. |
| AllocationPrecheck.BlockAvailabilityTotals | src/services/allocationService.ts:44-71 | The block entries are non-negative and add up to the clamped total. The unclamped `availableSpaces` is at most that total, and equal to it iff no room is over-full. |
| AllocationPrecheck.Warnings | src/services/allocationService.ts:83-94 | Each warning is present iff its condition holds: approved > available, approved = 0, available = 0. Nothing else is present. |
| AllocationPrecheck.GetPreAllocationCheck | src/services/allocationService.ts:19-104 | The approved count is the eligible count. `availableSpaces` is Σ(capacity − count), unclamped. `canAllocateAll` holds iff approved ≤ availableSpaces. The warnings and the block entries are as above. |
| AllocationService.RoomKeyMap | src/services/allocationService.ts:145-147 | The map's keys are exactly the `block-roomNumber` keys of the rooms. When several rooms share a key, the last of them wins, as in the `Map` constructor: each key maps to the id of the last room carrying it. |
| AllocationService.ResolveRooms | src/services/allocationService.ts:149-159 | Resolution succeeds iff every allocation's key is in the map with a non-zero id, and then gives one (student, room id) row per allocation. Otherwise it fails with "Room not found: <block> <roomNumber>" for the first allocation that does not resolve. |
| AllocationService.InsertSkipDuplicates | src/services/allocationService.ts:161-164 | Insertion keeps the existing rows as a prefix and adds only given rows. Afterwards every given student has a row, and distinct student ids stay distinct. |
| AllocationService.InsertIdempotent | src/services/allocationService.ts:161-164 | Inserting the same rows twice is the same as inserting them once. |
| AllocationService.PersistOutcome | src/services/allocationService.ts:140-164 | Persisting fails iff some allocation does not resolve, and then nothing is written. On success the old rows are kept and every allocated student has a row. With no allocations the table is unchanged. |
| AllocationService.CsvLines | src/services/allocationService.ts:212-220 | The report splits back into the fixed header line followed by exactly one line per allocation. |
| AllocationService.AllocationController.constructor | src/services/allocationService.ts:9-17 | The controller starts idle with no last result. |
| AllocationService.AllocationController.GetAllocationStatus | src/services/allocationService.ts:107-109 | Returns the current status. |
| AllocationService.AllocationController.GetLastAllocationResult | src/services/allocationService.ts:187-189 | Returns the last result. |
| AllocationService.AllocationController.StartAllocationProcess | src/services/allocationService.ts:111-127 | While running, the call fails with "Allocation process is already running." and the status is unchanged. Otherwise it returns the fixed message, and the status becomes running, at progress 0, "Initializing...", with the given start time. The last result is untouched either way. |
| AllocationService.AllocationController.RecordFailure | src/services/allocationService.ts:170-184 | On failure: not running, the step is "Failed: " + message, and progress is kept. The last result becomes a failed record with zero counts, empty lists and the message as its only error. |
| AllocationService.AllocationController.RunAndFinalizeAllocation | src/services/allocationService.ts:129-185 | A failed solve fails at progress 10, and a failed resolution at progress 85; neither writes any row. A success ends at progress 100, "Completed", with the solver's result stored and the allocation table as persisted. The run always ends not running, and the start time is kept. |
| AllocationService.AllocationController.GenerateCsvReport | src/services/allocationService.ts:212-221 | Fails with "Allocation result not found" iff there is no last result or its id differs. Otherwise returns the CSV of its allocations. |
| AllocationService.AllocationController.GeneratePdfReport | src/services/allocationService.ts:223-227 | The same guard. On success, returns the stored result with that id. |
| Documents.MapDocumentType | src/services/documentService.ts:321-329 | Exactly "passport photo", "fee receipt" and "hall dues" are mapped, onto the three screen names. |
| Documents.MapDocumentTypeInjective | src/services/documentService.ts:321-329 | Two types mapped to the same screen name are the same type. |
| Documents.VerifiedFlag | src/services/documentService.ts:338-338 | The flag is true iff the status is "verified", false iff it is "rejected", and null for any other status. |
| Documents.DocumentsByType | src/services/documentService.ts:332-344 | The `forEach` fills the dictionary as the specification function `ByType` describes. |
| Documents.ByTypeKeys | src/services/documentService.ts:332-344 | A screen name has an entry iff some document maps to it. |
| Documents.ByTypeLast | src/services/documentService.ts:332-344 | The entry of a screen name comes from the latest document of that type. |
| Documents.NoKnownDocumentsPending | src/services/documentService.ts:351-354 | A student with no document of a known type is "pending". |
| Documents.AllKnownVerified | src/services/documentService.ts:351-354 | A student with at least one known document, all of them verified, is "verified". |
| Documents.VerifiedMeansLatestVerified | src/services/documentService.ts:351-354 | An overall "verified" means the latest document of each known type is verified. |
| Documents.LatestRejectedMeansRejected | src/services/documentService.ts:351-354 | A rejected latest document of a known type makes the student "rejected". |
| Documents.PendingDocuments | src/services/documentService.ts:299-374 | One entry per student with documents. Each entry's documents are the type dictionary, its overall status is derived from that dictionary, and its submission date is that of the first document. |
| Documents.StatsAddUp | src/services/documentService.ts:275-296 | pending + verified + rejected ≤ total, with equality iff every document has one of the three statuses. |
| Documents.StripExtension | src/services/documentService.ts:245-245 | A trailing `.ext` with no '/' or '.' after the dot is stripped. A name without one is unchanged. |
| Documents.PublicIdOfStoredFile | src/services/documentService.ts:241-246 | For a URL `<prefix>/<folder>/<name>.<ext>`, the public id is `<folder>/<name>`. |
| Documents.PublicIdOneSlash | src/services/documentService.ts:243-244 | A public id has at most one '/', since it is at most two segments. |
| DocumentStore.FindFirst | src/services/documentService.ts:22-27 | Finds the first row with this student and type, and none exactly when no row matches. |
| DocumentStore.DocumentById | src/services/documentService.ts:112-126 | Succeeds with the row of that id, which belongs to the given student when a non-zero student id is given. Otherwise fails with "Document not found". |
| DocumentStore.UploadAllCovers | src/services/documentService.ts:42-66 | After an upload, every uploaded type has a pending document of that student. |
| DocumentStore.UploadAllFrame | src/services/documentService.ts:42-66 | Rows belonging to other students or other types are untouched. |
| DocumentStore.ApplyReview | src/services/documentService.ts:129-151 | The status is set. `verifiedAt` is set only on verification. The reason is written only on a rejection with a non-empty reason. No other field changes. |
| DocumentStore.ApplyReviewByType | src/services/documentService.ts:174-197 | The same, except that `verifiedAt` is never written. |
| DocumentStore.DeleteGuards | src/services/documentService.ts:233-239 | "Document not found." iff no row has the id. "Cannot delete verified documents." iff that row is verified. A refused deletion changes nothing. |
| DocumentStore.DeleteRemoves | src/services/documentService.ts:253-265 | An accepted deletion returns the receipt and removes exactly the row with that id. Verified rows always survive, and ids stay unique. |
| DocumentStore.DeleteDestroys | src/services/documentService.ts:241-251 | Storage is asked to destroy the public id of the removed row's URL, and nothing when the URL is empty. |
| DocumentStore.DocumentTable.UploadDocuments | src/services/documentService.ts:15-90 | An empty list fails with "No documents provided for upload." and changes nothing. Otherwise the table and the counter are those of `UploadAll`: each upload, in list order, rewrites the student's existing document of that type or creates one, always as pending. |
| DocumentStore.UploadAllUpserts | src/services/documentService.ts:22-66 | An upload whose type the student already had (when the call began) rewrites that row and keeps its id. Any other upload appends a row with the next fresh id. The table and the id counter grow by exactly the number of such appends. |
| DocumentStore.DocumentTable.UpdateDocumentStatus | src/services/documentService.ts:129-151 | A missing id fails without change. Otherwise only that row changes, as `ApplyReview` states. |
| DocumentStore.DocumentTable.UpdateDocumentStatusByType | src/services/documentService.ts:174-197 | No document of that student and type fails with "Document not found". Otherwise only the first match changes, as `ApplyReviewByType` states. |
| DocumentStore.DocumentTable.DeleteDocument | src/services/documentService.ts:220-272 | The table, result and destroyed public id are those of the deletion function. |
| Rooms.RoomTable.CreateRoom | src/services/roomService.ts:4-18 | A taken (block, room number) pair fails with "Room already exists in this block" without change. Otherwise the room is appended with the next id, and unique keys stay unique. |
| Rooms.RoomTable.UpdateRoom | src/services/roomService.ts:50-58 | A missing id fails. Otherwise the given fields are overwritten, the others kept, and no other row changes. |
| Rooms.RoomTable.DeleteRoom | src/services/roomService.ts:61-75 | A missing room fails with "Room not found". A room with allocations fails with "Cannot delete room with existing allocations". Otherwise exactly that room is removed, and allocations still point at existing rooms. |
| Rooms.GetAllRooms | src/services/roomService.ts:21-47 | One view per room: occupied capacity is the number of its students, and available capacity is capacity − occupied. Occupants are listed as "first last". |
| Rooms.AvailableCapacitySign | src/services/roomService.ts:37-38 | The available capacity is negative exactly for an over-full room; it is not clamped. |
| Rooms.SummaryMatchesListing | src/services/roomService.ts:78-94 | The summary's room count is the listing's length. Its `availableSpaces` (total capacity − allocation rows) equals the listing's available capacities added up, when every allocation points at one room. |
| Rooms.AddRoomToBlock | src/services/roomService.ts:108-115 | One step of the `forEach` keeps every block's accumulator equal to the sums over the rooms seen so far. |
| Rooms.GetBlockSummary | src/services/roomService.ts:97-123 | The dictionary loop and the conversion give the per-block entries sorted by name. |
| Rooms.BlockSummaryProperties | src/services/roomService.ts:106-122 | The summary is sorted by name, and a block has an entry iff some room is in it. Each entry's rooms, capacity and occupancy are sums over that block's rooms, with available = capacity − occupied. The room counts add up to the number of rooms, and the capacities to the total capacity. |
| Rooms.SortSorted | src/services/roomService.ts:122-122 | Sorting by a strict total order on names gives a sorted list with the same entries. |
| Reports.ParseInt | src/services/reportService.ts:45-45 | `parseInt` yields a number iff, after leading white space and an optional sign, at least one digit follows. |
| Reports.ParseIntToString | src/services/reportService.ts:45-45 | `parseInt` reads back any integer written in decimal. |
| Reports.GetDateRange | src/services/reportService.ts:14-30 | A start exists iff the period is "custom" with a start date or a preset period. The range then starts there, or `today − days` for a preset. It ends today unless a custom end date is given. "all" gives no start. |
| Reports.BuildWheres | src/services/reportService.ts:35-49 | Drafts are always excluded. The date filters apply iff the range has a start. The level filter applies iff a level other than "all" is given, and holds `parseInt` of it. The block filter likewise. |
| Reports.AllMeansUnfiltered | src/services/reportService.ts:35-49 | With "all" everywhere, every room and every non-draft registered student passes. |
| Reports.LevelFilterSelects | src/services/reportService.ts:44-46 | A level filter holding a level's decimal text keeps exactly the students of that level. |
| Reports.TallyRoom | src/services/reportService.ts:60-68 | One step of the occupancy loop keeps every block's accumulator equal to its sums over the rooms seen so far, and the block order first-seen. |
| Reports.BlockOccupancyReport | src/services/reportService.ts:59-76 | The loop and the two conversions give the per-block occupancy rows. The allocation summary lists the same blocks with the same allocated and capacity values. |
| Reports.OccupancyAddsUp | src/services/reportService.ts:59-73 | Each room is counted once, in its own block. Σ totalRooms = number of rooms, and capacities and allocations add up likewise. |
| Reports.OccupancyBounds | src/services/reportService.ts:66-71 | There is one row per distinct block, and a block has a row iff it has a room. 0 ≤ occupiedRooms ≤ totalRooms, and availableRooms = total − occupied ≥ 0. |
| Reports.TrackRegistration | src/services/reportService.ts:96-103 | One step of the trend loop keeps every date's counters equal to its counts over the registrations seen so far. |
| Reports.RegistrationTrendsReport | src/services/reportService.ts:95-104 | The loop gives one trend per date, in first-seen order. |
| Reports.StatusCountsBounded | src/services/reportService.ts:99-102 | The counts are non-negative, and pending + approved + rejected ≤ total. |
| Reports.TrendProperties | src/services/reportService.ts:95-104 | A date has a trend iff some registration was made on it, and dates are distinct. The bound above holds, and the totals add up to the number of registrations. |
| Reports.LevelKeys | src/services/reportService.ts:78-83 | The grouped levels are ascending, distinct, and exactly the levels present. |
| Reports.LevelCountsProperties | src/services/reportService.ts:78-84 | The rows are strictly ascending by level, and a level has a row iff some student has it. `totalStudents` equals the number of students counted. |
| Reports.LevelShareReadsBack | src/services/reportService.ts:85-88 | Each share's level text reads back, through `parseInt`, to its row's level, with the same count. |
| Reports.GetCombinedReport | src/services/reportService.ts:32-122 | The filters are built as `BuildWheres` of the date range. Each part of the report is its specification function over the rows those filters select. |
| Reports.GenerateReportFile | src/services/reportService.ts:124-151 | Succeeds iff the format is "csv" or "pdf", and otherwise fails with "Unsupported format". "csv" gives text/csv with the occupancy rows; "pdf" gives application/pdf with the occupancy and level rows. |
| Grouping.GroupTotals | src/services/roomService.ts:106-115 | Per-key totals over the distinct keys add up to the sum of all weights: grouping loses and duplicates nothing. |
| Common.JoinSplit | src/services/documentService.ts:243-244 | Joining the '/'-separated parts of a string gives the string back. |

## Left out

- Database access is not modelled. Each query becomes the list of rows it returns, in table order, or a predicate over the rows. `orderBy level` is `Reports.SortLevels`. The trend query's `orderBy createdAt` is not modelled: registrations are taken in the order given, and the trends come out in first-seen order of that input, with nothing proved about date order. `groupBy` is modelled by `Reports.LevelCounts`.
- Clocks are not modelled: `Date.now`, `new Date()`, `toISOString` and `toLocaleString` become parameters. Dates are day numbers. Parsing a date parameter is the function parameter `parseDay`, and rendering a day as `yyyy-MM-dd` is a field of the registration. Invalid dates are not modelled.
- Floating point is not modelled: `estimatedStudents`, `occupancyRate`, `percentage` and `averageFileSize`, together with the other file-size aggregates.
- The monthly registrations and allocations (src/services/reportService.ts:106-119) are not modelled. They are date-fns grouping and date sorting.
- The bodies of json2csv and pdfkit are not modelled. The PDF body of `generatePDFReport` is not modelled either; only its guard is.
- Reports.GenerateReportFile returns which rows each format serialises. It does not model json2csv's own errors: a `Parser` without `fields` refuses an empty list, so a block filter that matches no room would make the CSV path throw where the model succeeds.
- Cloudinary upload and destroy are not modelled. An upload's secure URL is an input, and `DocumentStore.Delete` reports which public id would be destroyed. A failed destroy is only logged, so it never changes the outcome.
- Notifications, `console` output and every fire-and-forget `.catch` are not modelled.
- Concurrency is not modelled. `runAndFinalizeAllocation` is a separate sequential method called after the start.
- DocumentStore.UploadAll applies the uploads of one call in list order, but every upload looks its type up in the table as it stood when the call began, as `Promise.all` issues all the `findFirst` queries before any write. Two uploads in one call of a type the student does not yet have therefore create two rows (counted twice by `NewUploads`), so the table can hold two rows of one type for one student. Two uploads of a type the student already has both rewrite the same row, and the later one wins. The interleaving of the writes themselves is not modelled.
- `localeCompare` is not modelled as a collation; it is an abstract strict total order `before`.
- Object key order is not modelled fully. `Object.keys`, `Object.entries` and `Object.values` are modelled as insertion order. JavaScript lists integer-like keys first, in numeric order; a block or date that looks like an integer is therefore out of scope.
- `mapDocumentType` looks keys up in a plain object. Prototype keys such as "constructor" are not modelled.
- Reports.GetDateRange does not model a period that names an `Object.prototype` member ("constructor", "toString", "__proto__"). `periodMap[period]` is then a truthy function, so the source computes an invalid start date, which the database refuses. The model gives such a period no start.
- Reports.BlockOccupancyReport does not model a block named after an `Object.prototype` member. The source's `!blockOccupancyMap[room.block]` test finds the inherited member, so that block never gets its own entry; the model gives it a normal one.
- Rooms.GetBlockSummary does not model a block named after an `Object.prototype` member either, for the same reason (`!blockData[room.block]`).
- Reports.LevelMatches takes a non-numeric level filter (`parseInt` gives NaN) to match no student, so the report has no level rows and no trends. What the database client does with a NaN filter is not part of this model; it may refuse the query instead.
- AllocationService.AllocationController.RunAndFinalizeAllocation does not model a database error during the insert. It does not model the "An unknown error occurred." message for a thrown non-`Error` value either. It requires distinct room ids, so that a room object found by id is the one the solver updated.
- DocumentStore.DocumentTable.DeleteDocument does not model the race in which the row vanishes between the lookup and the delete (Prisma error P2025, which the service turns into "Document not found.").
- `getStudentAllocation`, `getAllAllocations` and `getStudentDocuments` are not modelled. They are single queries with no logic.
- Rooms.RoomTable.UpdateRoom does not model the database's unique constraint on (block, room number). The service itself makes no check, so the model allows duplicates, as the code does.
- Reports.ParseInt does not model precision loss for integers beyond 2^53.
- The report's `room.allocations.length` and `_count.allocations` use the same filter, so they are modelled as one count.
- SolverSpec.BestNoneOnlyWhenFull requires capacities of at most 21. With more than 20 occupants, a room can still have space yet score below 0, and then the solver reports a conflict.
- The solver's status `"partial"` follows the code: it is used whenever some conflict exists. `errors` is never appended.
- The system's own documentation describes eligibility as a case-insensitive status match. The model follows the code, which accepts exactly "SUBMITTED" or "submitted".
