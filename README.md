# StudySync free-time matcher in Dafny

This project models the core of StudySync, a study-group planner, and proves properties of the model.

The central part is the backend's free-time matcher. Students register assignments and free-time windows. For each assignment of a student, the matcher:

- finds the other students registered for the same assignment;
- fetches everyone's free windows that end by the due date;
- sweeps those windows once per group size, from the number of students down to 2, and returns the first of the longest windows that the first successful sweep closes while that many windows are open.

Around the matcher sit three smaller parts:

- the backend `User` record;
- the front end's group-creation form, which validates e-mails, derives display names, adds and removes members, and assembles a group;
- the group view's string builders: the Google Calendar link for a meeting the next day at 15:00, the mock member e-mails and their `mailto:` list, and the friend badge.

## How the model is built

The model follows the source's form, module by module:

- `Wrappers`: `Option` and `Result`.
- `Text`: helpers with JavaScript semantics.
  - `trim`, and `split`/`join` on one character.
  - ASCII case mapping.
  - Decimal rendering of integers.
- `Models`: the `User` class of `backend/models.py`.
  - Its lists are sequence fields that its methods reassign.
  - `to_dict` is a function that reads the object.
- `CommonBlock`: `find_largest_common_block`. It is a method with:
  - the timeline appends;
  - the sort;
  - the sweep loop;
  - the retry with a smaller group size.

  The method is proved equal to a specification function, and the meaning of that function is established by lemmas.
- `FreeTime`: covers the following.
  - `get_overlap_minutes`.
  - The nested loops of `get_overlaps_between_users` and `fetch_user_free_times_before_due`, each a method proved equal to a recursive specification.
  - `get_overlapping_users_for_assignment`.
  - The store.
- `Sync`: `send_user`. It is a method whose result is the store after the writes, the log of writes, and any exception that stopped it half-way.
- `Suggestions`: `get_suggestions`. It is a method that calls the fetch and search methods, and it is proved equal to a specification function.
- `CreateGroup`: the form of `CreateStudyGroupModal.js`. It is a class with one field per state variable; the handlers are methods.
- `StudyGroup`: the helpers of `StudyGroupModal.js`. This module includes a `Date` class, mutated by `AdvanceDay` and `SetHours` as the component mutates its `Date` objects.

How the source's data is represented:

- **Instants.** Instants are `int` seconds (`Models.Time`). A Python value is `Null`, `Str` or `When` (a `datetime`), and a dictionary is `map<string, Value>`.
- **The store.** The Firestore database is a value, `FreeTime.Store`:
  - the "users" documents, keyed by e-mail, each reduced to its `free_time` list;
  - the "assignments" documents, keyed by slug, each reduced to its `students` list.

  A missing field reads as the empty list.
- **Library hooks.** The backend's library functions are parameters, bundled in `FreeTime.Hooks`:
  - `datetime.fromisoformat`: `parse`, which returns `None` where Python raises;
  - `datetime.isoformat`: `iso`;
  - `slugify(f"{title}_{due}")`: `slug`.
- **Front-end hooks.** `encodeURIComponent`, the clock and `Date.now()` are parameters of the front-end members.
- **Sorting.** `timeline.sort()` is a verified insertion sort over Python's tuple order. The tags sort as the strings "end" < "start" do, so an end comes before a start at the same instant.

Four observations follow from the proofs; none of them is a defect that the model corrects:

- **Slots, not students.** The sweep counts covering slots, not distinct students: `CommonBlock.LargestCommonBlockMeaning` is stated in terms of `Covering`, the number of slots that contain an instant. Two overlapping windows of one student already form a "common" block of size 2.
- **Touching windows split.** At equal instants an end event sorts before a start event, and every end event closes the open window. So a stretch covered throughout can come back in pieces, and only the first longest piece is returned. `CommonBlock.TouchingWindowsSplit` shows this for the slots `(0, 10)`, `(0, 5)` and `(5, 10)`: two slots are open at every instant of `[0, 10)`, yet the result is `[0, 5)`.
- **The e-mail check.** In `handleAddMember`, an e-mail that contains '@' is never blank. The `trim()` test is therefore implied by the '@' test (`CreateGroup.EmailAcceptedIffAt`).
- **Three fallback rules.** The backend reads an assignment's title and due date in three different ways:
  - `to_dict` falls back from "title" to "summary" (and from "due" to "end") only when the first key is absent;
  - `send_user` falls back whenever the first value is falsy;
  - `get_suggestions` does not fall back at all.

  Each is modelled as written.

## Model

| member | source | states |
|---|---|---|
| Text.TrimStartShape | frontend/src/Components/CreateStudyGroupModal.js:25 | the leading part `trim` removes is white space, and what is left is a suffix that starts with a non-space |
| Text.TrimEndShape | frontend/src/Components/CreateStudyGroupModal.js:25 | the trailing part `trim` removes is white space, and what is left is a prefix that ends with a non-space |
| Text.TrimEmptyIffBlank | frontend/src/Components/CreateStudyGroupModal.js:25 | `!s.trim()` holds exactly when every character is white space |
| Text.TrimIsInnerSlice | frontend/src/Components/CreateStudyGroupModal.js:54-60 | the trimmed text is a contiguous piece of the input whose two end characters are not white space |
| Text.Split | frontend/src/Components/CreateStudyGroupModal.js:31-34 | `split` on one character yields at least one piece, and no piece contains the separator |
| Text.JoinSplit | frontend/src/Components/CreateStudyGroupModal.js:33-36 | joining the pieces of a split with the same separator gives back the text |
| Text.SplitJoin | frontend/src/Components/StudyGroupModal.js:122 | splitting a join of separator-free pieces gives back the pieces |
| Text.SplitNoSeparator | frontend/src/Components/CreateStudyGroupModal.js:31 | text without the separator splits into itself alone |
| Text.SplitPrefix | frontend/src/Components/CreateStudyGroupModal.js:31 | the first piece ends at the first separator and the rest splits independently |
| Text.SplitFirst | frontend/src/Components/CreateStudyGroupModal.js:31 | `split('@')[0]` is the longest prefix without '@', followed by '@' when shorter than the text |
| Text.ReplaceChar | frontend/src/Components/CreateStudyGroupModal.js:31 | `replace(/[.]/g, ' ')` keeps the length and replaces exactly the dots |
| Text.LowerCase | frontend/src/Components/StudyGroupModal.js:132 | `toLowerCase` maps each character by itself and keeps the length |
| Text.NatToString | frontend/src/Components/StudyGroupModal.js:115 | the decimal rendering of a number is a non-empty string of digits |
| Text.IntToString | frontend/src/Components/CreateStudyGroupModal.js:73 | every integer renders as a non-empty string |
| Text.DigitsRoundTrip | frontend/src/Components/StudyGroupModal.js:109-115 | reading the digits of a rendered number gives back the number |
| Text.NatToStringLength | frontend/src/Components/StudyGroupModal.js:107-115 | numbers below 10 have one digit, those in 10..99 two, four-digit years four |
| Models.Get | backend/models.py:26 | `d.get(key, default)` is the value under the key when present and the default otherwise |
| Models.SerializeTime | backend/models.py:11-14 | a `datetime` becomes its ISO text, every other value is returned unchanged, and no `datetime` is left |
| Models.NormalizeFreeTime | backend/models.py:16-20 | a 2-tuple becomes `{start, end}` with its two components, a dictionary passes through |
| Models.AssignmentToRecord | backend/models.py:26 | the title falls back to "summary" and the due value to "end" only when the key is absent, and the due value is serialized |
| Models.SlotToRecord | backend/models.py:31-32 | an entry without "start" or "end" is the `KeyError` case; otherwise both values are serialized |
| Models.AssignmentRecords | backend/models.py:25-28 | one record per assignment, same length and order |
| Models.SlotRecords | backend/models.py:29-34 | defined exactly when every entry has both keys, then one record per entry in order |
| Models.FreeTimeFromBlocks | backend/models.py:57 | one `{start, end}` entry per pair, same length and order |
| Models.User.constructor | backend/models.py:4-8 | name and e-mail are stored and a missing list starts empty |
| Models.User.ToDict | backend/models.py:10-35 | fails exactly on the `KeyError` case; otherwise keeps name, e-mail, and the length and order of both lists, each entry converted |
| Models.User.AddAssignment | backend/models.py:43-47 | exactly one `{title, due}` is appended at the end, and the other fields are unchanged |
| Models.User.AddFreeTime | backend/models.py:49-53 | exactly one `{start, end}` is appended at the end, and the other fields are unchanged |
| Models.User.SetFreeTimeFromBlocks | backend/models.py:55-57 | free time becomes one entry per pair in order, and the other fields are unchanged |
| Models.AddAssignmentShowsInDict | backend/models.py:43-47 | after `add_assignment`, `to_dict` lists the old assignments and then the new one with the given title and serialized due |
| Models.AddFreeTimeShowsInDict | backend/models.py:49-53 | after `add_free_time`, `to_dict` still succeeds exactly when it did before and lists the new window last |
| Models.BlocksRoundTrip | backend/models.py:55-57 | `to_dict` after `set_free_time_from_blocks` gives back the pairs, serialized, in order |
| CommonBlock.Timeline | backend/db_utils.py:204-208 | the timeline has one start and one end event per slot |
| CommonBlock.InsertPermutes | backend/db_utils.py:208 | inserting into the sorted list adds exactly the inserted event to the multiset |
| CommonBlock.InsertSorted | backend/db_utils.py:208 | inserting into a sorted list keeps it sorted in Python's tuple order |
| CommonBlock.SortedUnique | backend/db_utils.py:208 | two sorted lists with the same events are equal, so the sorted timeline is the one Python's sort gives |
| CommonBlock.SortEvents | backend/db_utils.py:208 | `timeline.sort()` gives a sorted permutation of the timeline |
| CommonBlock.InsertBounded | backend/db_utils.py:208 | a lower bound of a list and of the inserted event bounds the list after the insertion |
| CommonBlock.BuildTimeline | backend/db_utils.py:204-208 | the append loop builds the timeline, one start and one end event per slot in order |
| CommonBlock.Sweep | backend/db_utils.py:212-225 | the sweep loop computes the first longest window that one pass closes |
| CommonBlock.FindLargestCommonBlock | backend/db_utils.py:198-233 | the method (appends, sort, sweep, retry) computes the search function, and returns nothing below group size 2 |
| CommonBlock.ActiveIffAbove | backend/db_utils.py:214-225 | during the sweep `active_start` is set exactly when the open count is at least the group size |
| CommonBlock.OverlapIsNet | backend/db_utils.py:216-225 | the open count is the number of starts minus the number of ends seen |
| CommonBlock.BestIsFirstLongest | backend/db_utils.py:220-222 | the strictly-longer replacement rule keeps the first of the longest closed windows |
| CommonBlock.ActiveRun | backend/db_utils.py:218-219 | an active window began at a start event, after which the count never fell below the group size |
| CommonBlock.WindowWitness | backend/db_utils.py:214-225 | every closed window runs from a start event to a later end event with the group size reached all along |
| CommonBlock.ClosedOnceDeactivated | backend/db_utils.py:220-224 | a window that was active and is no longer active has been closed and recorded |
| CommonBlock.NetAppend | backend/db_utils.py:214-225 | event counts add up over concatenated timelines |
| CommonBlock.NetByAllBefore | backend/db_utils.py:214-225 | counting to an instant after every event counts every event |
| CommonBlock.NetByAllAfter | backend/db_utils.py:214-225 | counting to an instant before every event counts nothing |
| CommonBlock.InsertNet | backend/db_utils.py:208 | insertion does not change event counts |
| CommonBlock.SortKeepsNet | backend/db_utils.py:208 | sorting does not change how many slots are open at any instant |
| CommonBlock.TimelineNet | backend/db_utils.py:204-208 | for well-formed slots, the events up to an instant count the slots covering it, and the whole timeline counts zero |
| CommonBlock.Cut | backend/db_utils.py:214 | the first events of a timeline, up to an instant |
| CommonBlock.CutOfSorted | backend/db_utils.py:208-214 | in a sorted timeline the events after the cut are all later than the instant |
| CommonBlock.PrefixNet | backend/db_utils.py:214-225 | the sweep's count after the events up to an instant is their net count |
| CommonBlock.OpenCountIsCoverage | backend/db_utils.py:204-225 | after the events up to an instant, the open count equals the number of slots covering that instant |
| CommonBlock.TimelineOrigin | backend/db_utils.py:206-208 | every event is the start or the end of one of the slots |
| CommonBlock.ClosedWindowShape | backend/db_utils.py:214-225 | a closed window is non-empty, starts at a slot's start, ends at a slot's end, and is covered throughout by at least the group size |
| CommonBlock.CoveredImpliesFound | backend/db_utils.py:214-227 | if some instant is covered by at least the group size, one pass finds a block |
| CommonBlock.BestAtMeaning | backend/db_utils.py:220-230 | the block one pass returns is the first longest of the windows it closed |
| CommonBlock.FoundLevel | backend/db_utils.py:227-233 | the search answers at the largest group size, from `group_size` down to 2, at which a pass finds a block |
| CommonBlock.NothingFound | backend/db_utils.py:200-202 | when the search finds nothing, no pass from 2 to `group_size` finds anything |
| CommonBlock.LargestCommonBlockMeaning | backend/db_utils.py:198-233 | the result is a non-empty window from a slot's start to a slot's end, covered by k >= 2 slots throughout; if k is below `group_size`, nothing is ever covered more than k times |
| CommonBlock.TouchingWindowsSplit | backend/db_utils.py:204-230 | for `(0, 10)`, `(0, 5)`, `(5, 10)` at group size 2, every instant of `[0, 10)` is covered twice, yet the result is `[0, 5)` |
| CommonBlock.LargestCommonBlockNone | backend/db_utils.py:198-233 | for well-formed slots, the search returns nothing exactly when `group_size` < 2 or no instant is covered twice |
| FreeTime.OverlapMinutes | backend/db_utils.py:83-93 | none exactly when `min(end1,end2) <= max(start1,start2)`; otherwise the window from the later start to the earlier end, inside both inputs, with the floor of its minutes |
| FreeTime.OverlapSymmetric | backend/db_utils.py:83-93 | swapping the two intervals gives the same result |
| FreeTime.ParseBlock | backend/db_utils.py:109-113 | a block yields a window exactly when both "start" and "end" are texts that parse |
| FreeTime.RowOverlaps | backend/db_utils.py:115-124 | the inner loop emits at most one overlap per block of the second user |
| FreeTime.AppendRowOverlaps | backend/db_utils.py:115-124 | the inner loop appends exactly the overlaps of one block with the second user's blocks, in order |
| FreeTime.OverlapsBetweenUsers | backend/db_utils.py:96-125 | empty when a user document is missing; otherwise the first-user-major list of overlaps of the parseable block pairs |
| FreeTime.PairOverlapsBound | backend/db_utils.py:108-124 | at most one overlap per pair of blocks |
| FreeTime.RowOrigin | backend/db_utils.py:115-124 | each overlap of the inner loop comes from a parseable block of the second user |
| FreeTime.PairOrigin | backend/db_utils.py:108-124 | each overlap comes from a parseable block of each user, is non-empty, and lies in both |
| FreeTime.RowComplete | backend/db_utils.py:115-124 | every parseable block of the second user that overlaps the given block contributes its overlap |
| FreeTime.PairComplete | backend/db_utils.py:108-124 | every pair of parseable blocks, one of each user, with a positive overlap contributes that overlap |
| FreeTime.ColumnIsRow | backend/db_utils.py:108-124 | the overlaps of a fixed block against a list are the same whichever side the fixed block is on |
| FreeTime.PairAddColumn | backend/db_utils.py:108-124 | one more block of the second user adds exactly its column of overlaps |
| FreeTime.PairOverlapsNone | backend/db_utils.py:115 | a second user without blocks contributes no overlaps |
| FreeTime.PairOverlapsSymmetric | backend/db_utils.py:96-125 | the overlaps of two users are the same multiset whichever user is named first |
| FreeTime.AssignmentKey | backend/db_utils.py:129-131 | a `datetime` due is rendered in ISO form before the slug is taken |
| FreeTime.Without | backend/db_utils.py:139 | the students other than the given e-mail, never longer than the list |
| FreeTime.WithoutAppend | backend/db_utils.py:139 | the filter distributes over concatenation, so the kept students stay in order |
| FreeTime.OtherStudents | backend/db_utils.py:128-139 | empty when the assignment document is missing; otherwise its students without the given e-mail, which never occurs |
| FreeTime.UserFreeBefore | backend/db_utils.py:185-193 | one user's kept windows all end by the due instant and are at most as many as the blocks |
| FreeTime.FreeTimesBefore | backend/db_utils.py:180-193 | every fetched window ends by the due instant |
| FreeTime.AppendUserFreeBefore | backend/db_utils.py:185-193 | the inner loop appends exactly one user's parseable blocks that end by the due instant, in order |
| FreeTime.FetchUserFreeTimesBeforeDue | backend/db_utils.py:176-195 | the nested loops compute the fetch function, e-mail order first and block order second |
| FreeTime.UserFreeBeforeMembers | backend/db_utils.py:185-193 | a window is kept exactly when it is the parse of one of the user's blocks and ends by the due instant |
| FreeTime.FreeTimesBeforeMembers | backend/db_utils.py:179-193 | a window is fetched exactly when it is kept for one of the listed users who has a document |
| Sync.Or | backend/db_utils.py:150-151 | Python's `a or b` is the first value when truthy, else the second |
| Sync.Instant | backend/db_utils.py:156-157 | a `datetime` is used as is; a text is parsed, and the exception carries the text |
| Sync.AssignmentFields | backend/db_utils.py:149-157 | skipped exactly when the title or the due value is falsy after the fallbacks; raises exactly when the due text does not parse |
| Sync.BlockWindow | backend/db_utils.py:161-171 | a tuple raises, a falsy start or end is skipped, and otherwise both instants are read |
| Sync.AssignmentWrite | backend/db_utils.py:148-159 | an assignment leads to an assignment write or to none |
| Sync.AssignmentWrites | backend/db_utils.py:148-159 | one outcome per assignment, in order |
| Sync.BlockWrite | backend/db_utils.py:161-173 | a free-time entry leads to a free-time write or to none |
| Sync.BlockWrites | backend/db_utils.py:161-173 | one outcome per free-time entry, in order |
| Sync.Union | backend/db_utils.py:51 | `ArrayUnion` leaves the list containing exactly its old elements and the new one |
| Sync.Perform | backend/db_utils.py:24-65 | a write is logged at the end and the exception state is kept |
| Sync.Advance | backend/db_utils.py:148-173 | one entry adds at most one write, and nothing once an exception was raised |
| Sync.Replay | backend/db_utils.py:148-173 | a loop that has already raised does nothing more, and it only adds writes, at most one per entry |
| Sync.ReplayStopsAtFault | backend/db_utils.py:156-157 | the first exception ends the loop |
| Sync.ReplayNext | backend/db_utils.py:148-173 | a loop over one more entry is the loop so far followed by that entry |
| Sync.CopyAssignments | backend/db_utils.py:148-159 | the assignment loop computes its replay, stopping at the first exception |
| Sync.CopyFreeTime | backend/db_utils.py:161-173 | the free-time loop computes its replay, stopping at the first exception |
| Sync.SendUser | backend/db_utils.py:142-173 | the method (creation, then the two loops, the second skipped after an exception) computes the `send_user` specification |
| Sync.ReplayKeeps | backend/db_utils.py:41-65 | later writes never undo the effect of an earlier one |
| Sync.ReplayEffect | backend/db_utils.py:148-173 | when a loop completes, every write it issued shows in the store |
| Sync.SendUserCreates | backend/db_utils.py:143-146 | the user document exists afterwards, even after an exception; it was created first exactly when it was missing; at most one write per entry |
| Sync.ReplayWritesFrom | backend/db_utils.py:148-173 | the loops never create a user |
| Sync.SentAssignmentIsShared | backend/db_utils.py:142-159 | after a complete `send_user`, every other student's `get_overlapping_users_for_assignment` with the same title and due instant lists this user |
| Sync.StoredIsFetched | backend/db_utils.py:179-193 | a stored block that parses to a window ending by the due instant is fetched |
| Sync.SentFreeTimeIsStored | backend/db_utils.py:161-173 | after a complete `send_user`, each copied window is stored in the user's document as its `isoformat` texts |
| Sync.SentFreeTimeIsFetched | backend/db_utils.py:161-195 | after a complete `send_user`, each copied window is fetched back for any due instant it ends by, if `fromisoformat` reads `isoformat` back |
| Suggestions.ReadDue | backend/db_utils.py:240-242 | a due text is parsed or raises; any other value is kept |
| Suggestions.DueInstant | backend/db_utils.py:177 | a `datetime` is used as is; `None` is parsed from the text "None" |
| Suggestions.SuggestionsNext | backend/db_utils.py:238-263 | the loop over one more assignment is the loop so far followed by that assignment's outcome |
| Suggestions.SuggestFor | backend/db_utils.py:239-261 | the loop body computes one assignment's outcome: an exception (including `isoformat` on a missing due date), a skip, or the suggestion |
| Suggestions.GetSuggestions | backend/db_utils.py:236-263 | the method, which calls the fetch and search methods, computes the suggestions specification |
| Suggestions.CollectOk | backend/db_utils.py:239-261 | an iteration that does not raise follows iterations that did not, and adds at most its own suggestion |
| Suggestions.SuggestionsKeepFault | backend/db_utils.py:236-263 | an exception for one assignment ends the whole call |
| Suggestions.SuggestionsFault | backend/db_utils.py:236-263 | the call raises exactly when some assignment raises, and then with the first such exception |
| Suggestions.SuggestionsFollowAssignments | backend/db_utils.py:238-263 | at most one suggestion per assignment, in the order of `user.assignments`, each being that assignment's outcome |
| Suggestions.SuggestionForMeaning | backend/db_utils.py:240-261 | a suggestion has other students, the assignment's title and due instant, and a non-empty window that ends by the due instant; the level `k` it was found at lies between 2 and the number of students, the window is covered by `k` slots throughout, and below the top level no instant is covered by more than `k`; the assignment has a due date |
| Suggestions.NullDueRaises | backend/db_utils.py:241-258 | an assignment without a due date that still has a common block raises at `due.isoformat()`, whatever the parse hook makes of "None" |
| Suggestions.SuggestionForNone | backend/db_utils.py:244-251 | no other students means no suggestion; otherwise, for well-formed windows, no suggestion exactly when no instant is covered twice |
| CreateGroup.Capitalize | frontend/src/Components/CreateStudyGroupModal.js:35 | the first character is upper-cased and the rest kept |
| CreateGroup.CapitalizeAll | frontend/src/Components/CreateStudyGroupModal.js:35 | every word is capitalized, in order |
| CreateGroup.TitleCase | frontend/src/Components/CreateStudyGroupModal.js:32-36 | a character is upper-cased exactly when it starts the text or follows a space |
| CreateGroup.JoinHeadChar | frontend/src/Components/CreateStudyGroupModal.js:36 | a character in front of the first word stays in front of the join |
| CreateGroup.RenderLeadingSpace | frontend/src/Components/CreateStudyGroupModal.js:33-36 | a leading space makes an empty first word |
| CreateGroup.RenderLeadingLetter | frontend/src/Components/CreateStudyGroupModal.js:33-36 | any other first character belongs to the first word |
| CreateGroup.RenderIsTitleCase | frontend/src/Components/CreateStudyGroupModal.js:33-36 | split, capitalize each word, join equals the character-level rule |
| CreateGroup.DisplayNameChars | frontend/src/Components/CreateStudyGroupModal.js:31-36 | the display name is, letter by letter, the part before the first '@', dots as spaces, upper-cased at each word start |
| CreateGroup.EmailAcceptedIffAt | frontend/src/Components/CreateStudyGroupModal.js:25 | the e-mail is accepted exactly when it contains '@' |
| CreateGroup.ValidationErrors | frontend/src/Components/CreateStudyGroupModal.js:52-64 | an error is recorded for exactly a blank group name, a blank class code and an empty member list, each with its message |
| CreateGroup.ValidationPasses | frontend/src/Components/CreateStudyGroupModal.js:52-69 | no error exactly when the name and code are not blank and there is a member |
| CreateGroup.NewGroup | frontend/src/Components/CreateStudyGroupModal.js:72-79 | the name is `classCode + ' ' + groupName`, and the members are 'You' then each member's name in order |
| CreateGroup.SpliceStart | frontend/src/Components/CreateStudyGroupModal.js:45 | `splice` starts at the index, counted from the end when negative, clamped to the list |
| CreateGroup.RemoveAt | frontend/src/Components/CreateStudyGroupModal.js:44-45 | exactly the element at the position is removed and the others keep their order |
| CreateGroup.RemoveAtPermutes | frontend/src/Components/CreateStudyGroupModal.js:43-46 | the removed member and those left are together the old members |
| CreateGroup.RemoveUndoesAppend | frontend/src/Components/CreateStudyGroupModal.js:38-46 | removing the member just added, by its index or by -1, restores the list |
| CreateGroup.Form.constructor | frontend/src/Components/CreateStudyGroupModal.js:4-11 | every input is empty, there are no members and no errors |
| CreateGroup.Form.Edit | frontend/src/Components/CreateStudyGroupModal.js:198 | an input's `onChange` sets its own state variable only |
| CreateGroup.AddMemberStepMeaning | frontend/src/Components/CreateStudyGroupModal.js:24-40 | without '@': only the e-mail error is set; with '@': the error is cleared, one member with the display name is appended and the input is cleared; nothing else changes |
| CreateGroup.Form.AddMember | frontend/src/Components/CreateStudyGroupModal.js:24-40 | the handler changes the form's state as the add-member step says |
| CreateGroup.Form.RemoveMember | frontend/src/Components/CreateStudyGroupModal.js:43-47 | members lose exactly the element where `splice` starts, and nothing else changes |
| CreateGroup.CreateGroupStepMeaning | frontend/src/Components/CreateStudyGroupModal.js:50-83 | with a blank name, a blank code or no member the errors are replaced and no group is made; otherwise the state is untouched and the group is assembled from it |
| CreateGroup.Form.CreateGroup | frontend/src/Components/CreateStudyGroupModal.js:50-83 | the handler changes the form's state and returns the group as the create-group step says |
| StudyGroup.DaysInMonth | frontend/src/Components/StudyGroupModal.js:99 | Gregorian month lengths, from 28 to 31 |
| StudyGroup.Tomorrow | frontend/src/Components/StudyGroupModal.js:99 | `setDate(getDate() + 1)` gives a valid date with the clock kept |
| StudyGroup.YearEnd | frontend/src/Components/StudyGroupModal.js:99 | the months add up to the year and years follow each other on the day count |
| StudyGroup.TomorrowIsNextDay | frontend/src/Components/StudyGroupModal.js:99 | the next date is exactly one day later, across month and year ends |
| StudyGroup.Date.constructor | frontend/src/Components/StudyGroupModal.js:97-98 | a new `Date` holds the given fields |
| StudyGroup.Date.AdvanceDay | frontend/src/Components/StudyGroupModal.js:99 | the object moves to the next date |
| StudyGroup.Date.SetHours | frontend/src/Components/StudyGroupModal.js:100 | the clock fields are set and the date kept |
| StudyGroup.Pad | frontend/src/Components/StudyGroupModal.js:107 | below 10 a leading '0' is added, otherwise the plain number; two digits for 0..99 |
| StudyGroup.PadReadsBack | frontend/src/Components/StudyGroupModal.js:107 | a number in 0..99 pads to two digits that read back as itself |
| StudyGroup.YearReadsBack | frontend/src/Components/StudyGroupModal.js:109 | a four-digit year renders as four digits that read back as itself |
| StudyGroup.FormatLayout | frontend/src/Components/StudyGroupModal.js:115 | in `YYYYMMDDTHHMM00` each piece sits at its fixed position |
| StudyGroup.FormatGCalReadsBack | frontend/src/Components/StudyGroupModal.js:106-116 | for four-digit years, 15 characters, year, month + 1, day, 'T', hours, minutes and "00", each reading back |
| StudyGroup.MeetingStart | frontend/src/Components/StudyGroupModal.js:97-100 | the meeting start is a valid date |
| StudyGroup.MeetingEnd | frontend/src/Components/StudyGroupModal.js:102-103 | the meeting end is a valid date |
| StudyGroup.MeetingWindow | frontend/src/Components/StudyGroupModal.js:96-103 | the meeting is on the day after now, later than now, and lasts one hour |
| StudyGroup.NoAmpersandInBase | frontend/src/Components/StudyGroupModal.js:122 | the base of the link contains no '&' |
| StudyGroup.NoSeparatorInConcat | frontend/src/Components/StudyGroupModal.js:122 | a separator is in neither part, so it is not in their concatenation |
| StudyGroup.CalendarUrlFields | frontend/src/Components/StudyGroupModal.js:122 | with '&'-free encoded texts the link splits back into its base and three parameters in that order |
| StudyGroup.CreateEvent | frontend/src/Components/StudyGroupModal.js:92-126 | the link opened holds the encoded title, the formatted meeting start and end 15:00-16:00 the next day, and the encoded description |
| StudyGroup.CollapseSpaces | frontend/src/Components/StudyGroupModal.js:132 | `replace(/\s+/g, '.')` leaves no white space and never lengthens |
| StudyGroup.TrimStartBlankPrefix | frontend/src/Components/StudyGroupModal.js:132 | the rest of a run is skipped up to the next character that is not white space |
| StudyGroup.CollapseRun | frontend/src/Components/StudyGroupModal.js:132 | a word, a white-space run and the following text: the word is kept and the run becomes exactly one '.' |
| StudyGroup.WordsAndRunsOf | frontend/src/Components/StudyGroupModal.js:132 | every text can be written as words separated by non-empty white-space runs |
| StudyGroup.CollapseWords | frontend/src/Components/StudyGroupModal.js:132 | a text written as words and white-space runs becomes its words joined by single dots |
| StudyGroup.CollapseKeepsSpaceless | frontend/src/Components/StudyGroupModal.js:132 | a text without white space is left alone |
| StudyGroup.CollapseIdempotent | frontend/src/Components/StudyGroupModal.js:132 | collapsing twice is collapsing once |
| StudyGroup.MockEmail | frontend/src/Components/StudyGroupModal.js:131-133 | a mock e-mail ends with "@example.com" and contains no white space |
| StudyGroup.LowerWords | frontend/src/Components/StudyGroupModal.js:132 | each word lower-cased, in order |
| StudyGroup.LowerInterleave | frontend/src/Components/StudyGroupModal.js:132 | `toLowerCase` lower-cases the words and leaves the white-space runs alone |
| StudyGroup.MockEmailOfWords | frontend/src/Components/StudyGroupModal.js:131-133 | the mock address of a name is its lower-cased words joined by single dots, then "@example.com" |
| StudyGroup.MockEmailExample | frontend/src/Components/StudyGroupModal.js:132 | "Ann  Lee" gets "ann.lee@example.com" |
| StudyGroup.MockEmailOfPlainName | frontend/src/Components/StudyGroupModal.js:381 | a lower-case name without white space keeps its text before "@example.com" |
| StudyGroup.MockEmails | frontend/src/Components/StudyGroupModal.js:131-133 | one mock e-mail per member, in order |
| StudyGroup.GroupMailtoRecipients | frontend/src/Components/StudyGroupModal.js:129-138 | the link starts with `mailto:?bcc=` and, for names without ',', splits back into one e-mail per member in order |
| StudyGroup.NoCommaInMockEmail | frontend/src/Components/StudyGroupModal.js:132 | a name without ',' gives an e-mail without ',' |
| StudyGroup.NoCommaLower | frontend/src/Components/StudyGroupModal.js:132 | lower-casing adds no ',' |
| StudyGroup.NoCommaCollapse | frontend/src/Components/StudyGroupModal.js:132 | collapsing white space adds no ',' |
| StudyGroup.FriendLabel | frontend/src/Components/StudyGroupModal.js:391-400 | the badge reads "Friend" exactly when the name is in the fixed friends list, and "Add Friend" otherwise |

## Left out

- Firestore, Flask and Google:
  - the store is a value, and reads and writes are functions over it;
  - network failures and concurrent writers are not modelled;
  - the user document's own "assignments" field, its "name" and "email", and the assignment document's "title" and "due" are not kept, because nothing in the model reads them.
- `slugify`, `fromisoformat`, `isoformat` and `encodeURIComponent` are abstract parameters:
  - slug collisions are not modelled;
  - an ISO text that reads back differently is not modelled;
  - the '&'-freedom of encoded texts is a requirement of `StudyGroup.CalendarUrlFields`.
- Instants as text:
  - `get_overlap_minutes`, `find_largest_common_block` and `get_suggestions` return ISO texts, which the model keeps as instants;
  - time zones and microseconds are not modelled: instants are whole seconds on one local timeline, and the front end's dates are local fields without daylight-saving gaps.
- `Models.NormalizeFreeTime`: tuples of any length other than 2 are not representable, so the `len(f) == 2` check has no false case here.
- `Models.User.constructor`: the source keeps the caller's list object, so later appends are visible to the caller; this aliasing is not modelled, because the lists are values.
- `__repr__`, `to_json` and `print`: only produce text output.
- `get_users_with_same_assignment`: this repeats the document lookup of `get_overlapping_users_for_assignment`, without the filter; it is not called by the modelled code.
- `Sync.Apply`: a `create_user_firestore` on an existing document would reset its free time. `send_user` only creates missing documents, so the model writes a fresh document.
- `StudyGroup.Date.SetHours`: accepts only in-range arguments, as the component passes 15 or 16 and zeros; JavaScript's roll-over of out-of-range arguments is not modelled.
- `StudyGroup.Date.AdvanceDay`: models `setDate(getDate() + 1)` as a whole; other arguments of `setDate` are not modelled.
- `Text.LowerCase` and `CreateGroup.Capitalize`: only ASCII letters change case; JavaScript's full Unicode case mapping is not modelled.
- `StudyGroup.FormatGCalReadsBack`: stated for four-digit years only, with the fields in their ranges.
- Rendering, styling, `window.open`, `onClose` and the `isOpen` early returns: these are user-interface plumbing with no logic to state.
- Not called by the core, so not part of this model: the OAuth flow, HTTP routes, the Google Calendar API, the front-end services, the calendar page, the sidebars and the static pages.
