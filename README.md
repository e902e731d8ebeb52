# MyDatabase: a verified model of the student portal's data-access object

The student portal (courses, timetables, assignments, announcements, chat,
attendance, feedback) keeps all of its data in a hierarchical key/value
store. A single Kotlin object, `MyDatabase`, reads and writes that store on
behalf of every screen. It generates human-readable ids from a shared
counter, writes records under their natural keys, appends pushed children,
filters collections by a field value, joins a day name to its timetable
entries, decodes and skips records, and folds the feedback ratings into an
average.

This project models that object in Dafny and proves what it promises:

- `store.dfy`: the store as an in-memory tree. A map goes from collection
  path to an ordered sequence of (key, document) children with distinct keys.
  It defines the three primitives `setValue`, `removeValue` and
  `push().setValue`.
- `records.dfy`: the record classes and how a document reads as one.
  - An absent property keeps the declared default.
  - A property of the wrong type fails.
  - Extra properties are ignored.
  - For every record, encoding then decoding gives back the record.
- `identifiers.dfy`: the `Code` counter step, with Kotlin `Int` wrap-around.
  It also holds the id text `<prefix><code><year>`, with its injectivity and
  the distinctness of successive ids.
- `queries.dfy`: every read, as a function of the snapshot the read delivers:
  - decode-and-skip list reads;
  - equality filters (`orderByChild(f).equalTo(v)`);
  - first-match lookups;
  - the two-step day/timetable join;
  - the rating average, with the loop that computes it;
  - the scan `deleteItem` performs.
- `database.dfy`: the class `MyDatabase`. It holds the store, the counter
  node and the year. It has one method per write, delete, push and id
  generator. Each method states the new store exactly, through the `Store`
  functions, and states what a following read returns.

Every outcome of the store SDK is a boolean parameter of the method that
waits for it: a read that is cancelled, a write or delete that fails. What
the Kotlin code hands to its callback is what the Dafny method or function
returns. A callback that is never invoked is `None`.

Two behaviours of the code that a reader might expect to be otherwise, and
that the model follows as written:

- **Average rating.** Averaging only the rated feedback would give ratings
  3, 4 and 5 plus one feedback without a rating an average of 4.0. The code
  decodes the fourth feedback with `rating` defaulting to 0 and counts it,
  which gives 3.0. See `Queries.MissingRatingCountsAsZero`.
- **Counter update.** The counter is not updated atomically: the code reads
  the node and then writes it back. The model is that sequential
  read-then-write.

## Model

| member | source | states |
|---|---|---|
| Store.SetChild | app/src/main/java/com/mike/myclass/Database.kt:404-412 | `setValue` at a key fully replaces that key's document. A new key is added after the others. Every other key reads as before, and distinct keys stay distinct. |
| Store.RemoveChild | app/src/main/java/com/mike/myclass/Database.kt:586-594 | `removeValue` at a key removes that key and only it. An absent key leaves the collection unchanged. |
| Store.RemoveChildAt | app/src/main/java/com/mike/myclass/Database.kt:457 | Removing the key of child `i` (`child.ref.removeValue()`) removes exactly that child and keeps the order of the rest. |
| Store.PushKey | app/src/main/java/com/mike/myclass/Database.kt:287 | The key `push()` allocates is not the key of any existing child. |
| Store.Put | app/src/main/java/com/mike/myclass/Database.kt:404-412 | After `child(p).child(k).setValue(d)`, a get at `k` returns `d`. Other keys and other collections are untouched, and well-formedness is kept. |
| Store.Remove | app/src/main/java/com/mike/myclass/Database.kt:700-704 | After `child(p).child(k).removeValue()`, `k` is absent. Other keys and other collections are untouched. |
| Store.Append | app/src/main/java/com/mike/myclass/Database.kt:286-290 | `push().setValue(d)` adds one child under a fresh key after the existing ones. Nothing else changes. |
| Store.DistinctIndexOf | app/src/main/java/com/mike/myclass/Database.kt:451-466 | In a collection with distinct keys, every child is the first with its key. |
| Records.SectionNamesDistinct | app/src/main/java/com/mike/myclass/Database.kt:40-42 | Distinct sections give distinct path segments (`Section.name`). |
| Database.ResourcesPathInjective | app/src/main/java/com/mike/myclass/Database.kt:429 | `Course Resources/courseId/section.name` differs for every other course or section, so the items of one never land in another. |
| Records.EncodeUser | app/src/main/java/com/mike/myclass/Database.kt:22-29 | A stored `User` reads back as the same user. |
| Records.EncodeGridItem | app/src/main/java/com/mike/myclass/Database.kt:31-37 | A stored `GridItem` reads back equal, including the `fileType` default "image". |
| Records.EncodeAccountDeletion | app/src/main/java/com/mike/myclass/Database.kt:44-46 | A stored `AccountDeletion` reads back equal. |
| Records.EncodeMessage | app/src/main/java/com/mike/myclass/Database.kt:48-56 | A stored `Message` reads back equal. |
| Records.DecodeTimetable | app/src/main/java/com/mike/myclass/Database.kt:59-67 | A decoded entry's `dayId` is the stored `dayId` string, or "" when it is absent. |
| Records.EncodeTimetable | app/src/main/java/com/mike/myclass/Database.kt:59-67 | A stored `Timetable` reads back equal. |
| Records.DecodeFeedback | app/src/main/java/com/mike/myclass/Database.kt:69-75 | A decoded rating is the stored number, or 0 when `rating` is absent. |
| Records.EncodeFeedback | app/src/main/java/com/mike/myclass/Database.kt:69-75 | A stored `Feedback` reads back equal. |
| Records.EncodeAttendanceRecord | app/src/main/java/com/mike/myclass/Database.kt:82-87 | A stored record holds `studentId`, `dayOfWeek` and `lesson` under their names and the flag under `present` (the mapper drops the `is` of the getter `isPresent()`); there is no child `isPresent`. |
| Records.EncodeAttendanceState | app/src/main/java/com/mike/myclass/Database.kt:89-93 | A stored `AttendanceState` reads back equal. |
| Records.DecodeAssignment | app/src/main/java/com/mike/myclass/Database.kt:96-102 | A decoded assignment's `courseCode` is the stored string, or "" when it is absent. |
| Records.EncodeAssignment | app/src/main/java/com/mike/myclass/Database.kt:96-102 | A stored `Assignment` reads back equal. |
| Records.EncodeDay | app/src/main/java/com/mike/myclass/Database.kt:104-107 | A stored `Day` reads back equal, and its `name` field holds the day name. |
| Records.EncodeAnnouncement | app/src/main/java/com/mike/myclass/Database.kt:109-115 | A stored `Announcement` reads back equal. |
| Records.EncodeFcm | app/src/main/java/com/mike/myclass/Database.kt:117-120 | A stored `Fcm` token reads back equal. |
| Records.EncodeCourse | app/src/main/java/com/mike/myclass/Database.kt:122-126 | A stored `Course` reads back equal, including its `visits` count. |
| Records.EncodeScreenTime | app/src/main/java/com/mike/myclass/Database.kt:129-131 | A stored `ScreenTime` reads back equal. |
| Records.EncodeScreens | app/src/main/java/com/mike/myclass/Database.kt:133-136 | A stored `Screens` reads back equal. |
| Records.EncodeChat | app/src/main/java/com/mike/myclass/Database.kt:139-146 | A stored `Chat` reads back equal. |
| Records.DecodeMyCode | app/src/main/java/com/mike/myclass/Database.kt:148-151 | A counter node without `code` reads as 0. One without `id` gets the fresh random id. |
| Records.EncodeMyCode | app/src/main/java/com/mike/myclass/Database.kt:148-151 | A stored counter reads back equal, whatever fresh id the mapper would supply. |
| Records.EncodeUserPreferences | app/src/main/java/com/mike/myclass/Database.kt:153-160 | Stored preferences read back equal, including the "disabled" defaults. |
| Identifiers.PrefixesDistinct | app/src/main/java/com/mike/myclass/Database.kt:169-252 | The twelve id prefixes are two letters each and pairwise distinct. |
| Identifiers.NatToStringRoundTrip | app/src/main/java/com/mike/myclass/Database.kt:171 | The decimal text of a counter value reads back as that value. |
| Identifiers.IntToString | app/src/main/java/com/mike/myclass/Database.kt:171 | `Int` to text in a string template: non-empty, and parsing gives back the number, negative ones included. |
| Identifiers.FormatId | app/src/main/java/com/mike/myclass/Database.kt:169-252 | An id starts with the kind's prefix and ends with the year. The counter value reads back from the text between them. |
| Identifiers.FormatIdInjective | app/src/main/java/com/mike/myclass/Database.kt:169-252 | Within one year, equal ids mean the same kind and the same counter value. |
| Identifiers.ReportedCodesAscend | app/src/main/java/com/mike/myclass/Database.kt:261-284 | Until the largest `Int` is reached, call `i` of the counter reports the start value plus `i + 1`. An absent node counts as 0, so the first call reports 1. |
| Identifiers.SuccessiveIdsDistinct | app/src/main/java/com/mike/myclass/Database.kt:169-284 | Successive successful calls of one generator in one year report pairwise distinct ids, as long as the counter does not pass the largest `Int`. |
| Identifiers.CounterWrapsAtMaxInt | app/src/main/java/com/mike/myclass/Database.kt:268 | `myCode.code += 1` on a 32-bit `Int` wraps from the largest value to the smallest. |
| Queries.MapNotNull | app/src/main/java/com/mike/myclass/Database.kt:295 | `children.mapNotNull { getValue(..) }` yields exactly the records some child reads as, no more than there are children. |
| Queries.MapNotNullAppend | app/src/main/java/com/mike/myclass/Database.kt:295 | Output order follows child order: the records of two runs of children are concatenated. |
| Queries.FetchChats | app/src/main/java/com/mike/myclass/Database.kt:292-303 | The readable chats are returned. On cancel the callback is never invoked. |
| Queries.FetchUserToUserMessages | app/src/main/java/com/mike/myclass/Database.kt:311-322 | The readable messages at the path are returned. On cancel nothing is reported. |
| Queries.FetchCourses | app/src/main/java/com/mike/myclass/Database.kt:414-426 | The readable courses are returned, or the empty list on cancel. |
| Queries.ReadItems | app/src/main/java/com/mike/myclass/Database.kt:438-449 | The readable items of the section are returned, or the empty list on cancel. |
| Queries.GetUsers | app/src/main/java/com/mike/myclass/Database.kt:606-617 | The readable users are returned, or null on cancel. |
| Queries.GetDays | app/src/main/java/com/mike/myclass/Database.kt:713-724 | The readable days are returned, or null on cancel. |
| Queries.GetAnnouncements | app/src/main/java/com/mike/myclass/Database.kt:767-779 | The readable announcements are returned, or null on cancel. |
| Queries.GetAllScreenTimes | app/src/main/java/com/mike/myclass/Database.kt:527-539 | The loop collects exactly the readable screen times in child order. A failed read gives the empty list. |
| Queries.LoadCourseAndAssignments | app/src/main/java/com/mike/myclass/Database.kt:785-803 | The result holds exactly the readable courses with a non-empty name. A failed read gives null. |
| Queries.LoadStudents | app/src/main/java/com/mike/myclass/Database.kt:805-822 | A student is returned exactly when some child has both `id` and `firstName` as strings. Cancel gives null. |
| Queries.LoadAttendanceRecordsBy | app/src/main/java/com/mike/myclass/Database.kt:824-845 | For a given name of the flag's child: a record is returned exactly when some child has all four fields present, never more records than children. Cancel gives null. |
| Queries.LoadAttendanceRecords | app/src/main/java/com/mike/myclass/Database.kt:824-845 | As written: a record is returned exactly when some child has `studentId`, `dayOfWeek`, `isPresent` and `lesson`. Cancel gives null. |
| Queries.SavedRecordUnreadable | app/src/main/java/com/mike/myclass/Database.kt:831 | A record as `saveAttendanceRecords` stores it has no `isPresent` child, so `loadAttendanceRecords` reads it as no record at all. |
| Queries.LoadAttendanceRecordsIntended | app/src/main/java/com/mike/myclass/Database.kt:824-845 | The same loader reading the flag from `present`: a record is returned exactly when some child has the four fields. |
| Queries.AttendanceRecordRoundTrip | app/src/main/java/com/mike/myclass/Database.kt:824-845 | With the flag read from `present`, a record as `saveAttendanceRecords` stores it reads back as the same record. |
| Queries.EqualTo | app/src/main/java/com/mike/myclass/Database.kt:645 | `orderByChild(f).equalTo(v)` keeps exactly the children whose `f` is the string `v`. It is empty exactly when none matches, and its first child is the first match. |
| Queries.EqualToAppend | app/src/main/java/com/mike/myclass/Database.kt:645 | The filter keeps child order: filtering two runs of children gives the two runs' matches one after the other. |
| Queries.EqualToSingle | app/src/main/java/com/mike/myclass/Database.kt:645 | A single child is kept exactly when its field `f` holds `v`; with `EqualToAppend` this fixes the result as the in-order run of matches. |
| Queries.EqualToDecodes | app/src/main/java/com/mike/myclass/Database.kt:645-649 | Among the kept children, a record is read exactly when some matching child of the whole collection reads as it. |
| Queries.ListWhere | app/src/main/java/com/mike/myclass/Database.kt:644-657 | A filtered read returns exactly the readable records of matching children, or null on cancel. |
| Queries.GetTimetable | app/src/main/java/com/mike/myclass/Database.kt:644-657 | The result holds exactly the readable entries whose `dayId` is the argument, and every one of them has that `dayId`. Cancel gives null. |
| Queries.GetAssignments | app/src/main/java/com/mike/myclass/Database.kt:733-746 | The result holds exactly the readable assignments of the course, and every one has that `courseCode`. Cancel gives null. |
| Queries.GetDayIdByName | app/src/main/java/com/mike/myclass/Database.kt:870-883 | The result is the key, not the `id` field, of the first day with that name. It is null exactly when no day has the name, and null on cancel. |
| Queries.GetCurrentDayTimetable | app/src/main/java/com/mike/myclass/Database.kt:659-690 | An unknown day name gives null whatever the timetable holds, so the second query is never issued. Otherwise the result is exactly the readable entries whose `dayId` is the first matching day's key, or null if that read is cancelled. |
| Queries.CurrentDayFindsStoredDay | app/src/main/java/com/mike/myclass/Database.kt:659-690 | A day written by `writeDays` that is the first with its name resolves to its key, and the timetable entries filed under that key come back. |
| Queries.FetchUserDataByEmail | app/src/main/java/com/mike/myclass/Database.kt:325-361 | The user is built from the first child whose `email` equals the argument, with missing strings defaulted to "". The result is null exactly when no child matches, and null on cancel. |
| Queries.FetchByEmailRoundTrip | app/src/main/java/com/mike/myclass/Database.kt:325-361 | A user written by `writeUsers` that is the first with its email reads back whole. |
| Queries.FetchUserDataByAdmissionNumber | app/src/main/java/com/mike/myclass/Database.kt:363-400 | As written: the first child whose `id` matches, with the email taken from the field "Email". The result is null exactly when no child matches. |
| Queries.AdmissionLookupLosesEmail | app/src/main/java/com/mike/myclass/Database.kt:371 | A user written by `writeUsers` comes back with its email replaced by "". A user with a non-empty email does not come back as written. |
| Queries.FetchUserDataByAdmissionNumberIntended | app/src/main/java/com/mike/myclass/Database.kt:363-400 | The same lookup with the email read from `email`. |
| Queries.AdmissionLookupIntendedRoundTrip | app/src/main/java/com/mike/myclass/Database.kt:363-400 | With the intended field name, a user written by `writeUsers` reads back whole by admission number. |
| Queries.FetchPreferences | app/src/main/java/com/mike/myclass/Database.kt:482-491 | An absent node or a failed read gives null. A node holding stored preferences reads back as exactly those preferences. |
| Queries.GetScreenTime | app/src/main/java/com/mike/myclass/Database.kt:513-525 | A missing node or a failed read gives null. A node holding a stored screen time reads back as exactly that screen time. |
| Queries.GetScreenDetails | app/src/main/java/com/mike/myclass/Database.kt:541-553 | A missing node or a failed read gives null. A node holding stored screen details reads back as exactly those details. |
| Queries.FetchAttendanceState | app/src/main/java/com/mike/myclass/Database.kt:853-867 | An absent node or a cancelled read gives null. A node holding a stored attendance state reads back as exactly that state. |
| Queries.RatingsOf | app/src/main/java/com/mike/myclass/Database.kt:567-573 | One entry per child: none exactly when the child is not readable feedback; the stored rating when it has one; 0 for readable feedback without a rating, which still counts. |
| Queries.FetchAverageRating | app/src/main/java/com/mike/myclass/Database.kt:561-581 | The loop's total divided by its count is the mean of the ratings of every readable feedback. It is 0 when there is none and 0 on a failed read. |
| Queries.SumBounds | app/src/main/java/com/mike/myclass/Database.kt:564-573 | If every counted rating lies in [lo, hi], the total lies between lo·count and hi·count. |
| Queries.CountPositive | app/src/main/java/com/mike/myclass/Database.kt:575 | The count is positive exactly when some child yields a rating. |
| Queries.MeanBounds | app/src/main/java/com/mike/myclass/Database.kt:575 | The mean of ratings in [lo, hi] lies in [lo, hi]. |
| Queries.AverageWithinBounds | app/src/main/java/com/mike/myclass/Database.kt:561-581 | If some feedback is readable and all ratings lie in [lo, hi], the average lies in [lo, hi]. |
| Queries.MissingRatingCountsAsZero | app/src/main/java/com/mike/myclass/Database.kt:71 | Ratings 3, 4, 5 and one missing rating: four are counted and the average is 3.0. |
| Queries.RemoveFirstSpec | app/src/main/java/com/mike/myclass/Database.kt:451-466 | Only the first match is removed and every other child stays in order. With no match nothing changes. |
| Queries.RemoveFirstRemovesOne | app/src/main/java/com/mike/myclass/Database.kt:451-466 | One call removes exactly one child if some child matches, and none otherwise. |
| Queries.FindItem | app/src/main/java/com/mike/myclass/Database.kt:455-465 | The scan with `break` finds the first child that reads as an item equal to `item`, or reports that none does. |
| Database.CounterAfter | app/src/main/java/com/mike/myclass/Database.kt:261-284 | An absent counter becomes a new record at 1. A stored one is written back with the next value (`NextCode`). An unreadable one is not written. |
| Database.PushAllAppends | app/src/main/java/com/mike/myclass/Database.kt:885-891 | A batch of pushes adds exactly the successfully written documents after the existing children, in order, and touches no other collection. |
| Database.WrittenContains | app/src/main/java/com/mike/myclass/Database.kt:885-891 | A record whose push succeeded is among the documents written. |
| Database.PushAllUnreadable | app/src/main/java/com/mike/myclass/Database.kt:885-891 | A batch of pushes of documents that do not read as a record type leaves a whole-collection read of that type unchanged. |
| Database.SavedAttendanceNeverLoaded | app/src/main/java/com/mike/myclass/Database.kt:885-891 | As written, saving any batch of attendance records leaves what `loadAttendanceRecords` returns unchanged: none of the saved records is ever loaded. |
| Database.SavedAttendanceIsLoaded | app/src/main/java/com/mike/myclass/Database.kt:885-891 | With the loader reading the flag from `present`, every record of a saved batch whose write succeeded is loaded. |
| Database.MyDatabase.constructor | app/src/main/java/com/mike/myclass/Database.kt:163-166 | A new object has an empty store, no counter node, and the given year. |
| Database.MyDatabase.UpdateAndGetCode | app/src/main/java/com/mike/myclass/Database.kt:261-284 | A value is reported only when the read and the write succeed. It is the stored code plus one, or 1 for an absent node, and the node then holds it. Otherwise nothing changes and nothing is reported. |
| Database.MyDatabase.GenerateId | app/src/main/java/com/mike/myclass/Database.kt:169-252 | The reported id is the kind's prefix, the counter's new value and the year. It is reported exactly when the counter update is. |
| Database.MyDatabase.WriteAccountDeletionData | app/src/main/java/com/mike/myclass/Database.kt:254-260 | The record is put at `Account Deletion/id`, and success is reported only when the write succeeds. |
| Database.MyDatabase.WriteCourse | app/src/main/java/com/mike/myclass/Database.kt:404-412 | The course is put at `Courses/courseCode` and `fetchCourses` then returns it. A failed write changes nothing. |
| Database.MyDatabase.WritePreferences | app/src/main/java/com/mike/myclass/Database.kt:475-480 | The preferences are put at `" User Preferences"/studentID` (leading space). `fetchPreferences` for that student then returns them. |
| Database.MyDatabase.SaveScreenTime | app/src/main/java/com/mike/myclass/Database.kt:493-504 | The screen time is put at `ScreenTime/id` and `getScreenTime` then returns it. |
| Database.MyDatabase.WriteScreen | app/src/main/java/com/mike/myclass/Database.kt:506-511 | The screen is put at `Screens/screenId` and `getScreenDetails` then returns it. |
| Database.MyDatabase.WriteUsers | app/src/main/java/com/mike/myclass/Database.kt:596-604 | The user is put at `Users/id` and `getUsers` then returns it. The reported flag is the write's outcome. |
| Database.MyDatabase.DeleteUser | app/src/main/java/com/mike/myclass/Database.kt:586-594 | Only `Users/userId` is removed, and only when the delete succeeds. |
| Database.MyDatabase.WriteFeedback | app/src/main/java/com/mike/myclass/Database.kt:619-628 | The feedback is put at `Feedback/id`. The outcome is reported. |
| Database.MyDatabase.WriteFcmToken | app/src/main/java/com/mike/myclass/Database.kt:632-634 | The token is put at `FCM/id`, and no outcome is reported. |
| Database.MyDatabase.WriteTimetable | app/src/main/java/com/mike/myclass/Database.kt:637-642 | The entry is put at `Timetable/id` and `getTimetable` for its `dayId` then returns it. |
| Database.MyDatabase.EditTimetable | app/src/main/java/com/mike/myclass/Database.kt:693-698 | The same full overwrite as `writeTimetable`. |
| Database.MyDatabase.DeleteTimetable | app/src/main/java/com/mike/myclass/Database.kt:700-704 | Only `Timetable/timetableId` is removed. |
| Database.MyDatabase.WriteDays | app/src/main/java/com/mike/myclass/Database.kt:707-711 | The day is put at `Days/id` and `getDays` then returns it. |
| Database.MyDatabase.WriteAssignment | app/src/main/java/com/mike/myclass/Database.kt:726-731 | The assignment is put at `Assignments/id` and `getAssignments` for its course then returns it. |
| Database.MyDatabase.EditAssignment | app/src/main/java/com/mike/myclass/Database.kt:755-760 | The same full overwrite as `writeAssignment`. |
| Database.MyDatabase.DeleteAssignment | app/src/main/java/com/mike/myclass/Database.kt:748-753 | Only `Assignments/assignmentId` is removed. |
| Database.MyDatabase.WriteAnnouncement | app/src/main/java/com/mike/myclass/Database.kt:763-765 | The announcement is put at `Announcements/id` and `getAnnouncements` then returns it. |
| Database.MyDatabase.DeleteAnnouncement | app/src/main/java/com/mike/myclass/Database.kt:781-783 | Only `Announcements/announcementId` is removed. |
| Database.MyDatabase.SaveAttendanceState | app/src/main/java/com/mike/myclass/Database.kt:847-850 | The state is put at `AttendanceStates/courseID` and `fetchAttendanceState` then returns it. |
| Database.MyDatabase.SendMessage | app/src/main/java/com/mike/myclass/Database.kt:286-290 | The chat is pushed under a fresh key at the end of `Group Discussions`, and `fetchChats` then returns it. |
| Database.MyDatabase.SendUserToUserMessage | app/src/main/java/com/mike/myclass/Database.kt:305-309 | The message is pushed at the conversation path, and `fetchUserToUserMessages` then returns it. |
| Database.MyDatabase.WriteItem | app/src/main/java/com/mike/myclass/Database.kt:428-436 | The item is pushed into `Course Resources/courseId/section`, and `readItems` then returns it. |
| Database.MyDatabase.DeleteItem | app/src/main/java/com/mike/myclass/Database.kt:451-473 | The section loses exactly its first child that reads as `item`, when the read and the delete succeed. Otherwise nothing changes. |
| Database.MyDatabase.SaveAttendanceRecords | app/src/main/java/com/mike/myclass/Database.kt:885-891 | One push per record, in order. A failed push adds nothing, and no completion is reported. |

## Left out

- The application's screens (`MainActivity.kt`): GUI composition, navigation and permission dialogs, with no data logic.
- The store SDK itself: listeners, tasks, the network and permissions. Its outcomes are the boolean parameters. Concurrent callers, and the race between the counter's read and its write, are not modelled; every operation runs to completion before the next.
- `UUID.randomUUID()` for the counter node's `id`, and `Calendar.getInstance()` for the year. Both are parameters (`freshId`, and `year` given to the constructor).
- `fetchAverageRating`'s `Double` arithmetic and its `"%.1f"` formatting. The average is an exact `real`.
- `updatePassword`: a call into the authentication service.
- `Log.e` logging.
- Type mismatches: the mapper throws on a property of the wrong type, and the model reads such a child as unreadable and skips it instead. The same goes for every decoder in `records.dfy`. `updateAndGetCode` likewise reports nothing for an unreadable counter node, where the source fails inside its callback.
- The mapper's renaming of a Boolean `isX` property to `x` is modelled for `AttendanceRecord`, the only record with such a property; other naming rules of the mapper (annotations, public fields) do not arise in this object.
- Store.PushKey: the store's time-and-random push keys are abstracted to a key longer than any present one, so it is fresh. The new child goes last, as push keys sort by creation time.
- Store.SetChild: the store orders children by key. The model keeps insertion order, which is the order of push keys but not of arbitrary natural keys.
- Keys with characters the store forbids (`.`, `#`, `$`, `[`, `]`) and empty keys are not modelled. A key is any string. A path passed to `sendUserToUserMessage` and `fetchUserToUserMessages` is a single segment, even when it contains `/`.
- Collections are independent entries of a map from path. The store's nesting, where a key of one collection is the parent of another path, is not modelled.
- The `Students` collection is only ever read. No operation of the object writes it.
- The filtered reads (`orderByChild(f).equalTo(v)`) match string values only, which is what every caller passes.

## Findings

| source | as written | input that shows it | evidently intended | confidence | as-written member | corrected member |
|---|---|---|---|---|---|---|
| app/src/main/java/com/mike/myclass/Database.kt:371 | `fetchUserDataByAdmissionNumber` reads the email from the child `"Email"`, while `writeUsers` stores the field `email` | a user with id "CP12024" and email "a@b.c" written by `writeUsers`, then looked up by "CP12024": the result has email "" | read the email from `email`, as `fetchUserDataByEmail` does, so a stored user reads back whole | high (proved on the model; not executed) | Queries.AdmissionLookupLosesEmail | Queries.AdmissionLookupIntendedRoundTrip |
| app/src/main/java/com/mike/myclass/Database.kt:831 | `loadAttendanceRecords` reads the flag from the child `"isPresent"`, while `saveAttendanceRecords` (line 889) stores the whole `AttendanceRecord`, whose getter `isPresent()` the mapper writes as `present` | `saveAttendanceRecords([AttendanceRecord("S1", "Mon", true, "L1")])`, then `loadAttendanceRecords`: the saved record is skipped and the result is `[]` on an empty collection | read the flag from `present` (or name the stored property `isPresent`), so saved records load | medium (depends on the mapper's getter naming; proved on the model; not executed) | Database.SavedAttendanceNeverLoaded | Database.SavedAttendanceIsLoaded |
