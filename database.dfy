/**
 * The data-access object itself: one shared store reference, the current
 * year, and an operation per read or write of the application. The store is
 * the object's state; every SDK completion (a write that succeeds or fails,
 * a read that is cancelled) is a boolean parameter, and the callbacks become
 * what the methods return.
 */
module Database {
  import opened Wrappers
  import opened Store
  import opened Records
  import opened Identifiers
  import opened Queries

  // ---------------------------------------------------------------------
  // The collections the object reads and writes

  const UsersPath: Path := ["Users"]
  const CoursesPath: Path := ["Courses"]
  const PreferencesPath: Path := [" User Preferences"]
  const ScreenTimePath: Path := ["ScreenTime"]
  const ScreensPath: Path := ["Screens"]
  const FeedbackPath: Path := ["Feedback"]
  const FcmPath: Path := ["FCM"]
  const TimetablePath: Path := ["Timetable"]
  const DaysPath: Path := ["Days"]
  const AssignmentsPath: Path := ["Assignments"]
  const AnnouncementsPath: Path := ["Announcements"]
  const AttendanceStatesPath: Path := ["AttendanceStates"]
  const AttendanceRecordsPath: Path := ["attendanceRecords"]
  const StudentsPath: Path := ["Students"]
  const GroupDiscussionsPath: Path := ["Group Discussions"]
  const AccountDeletionPath: Path := ["Account Deletion"]

  /** Where the items of one section of one course live. */
  function ResourcesPath(courseId: string, section: Section): Path {
    ["Course Resources", courseId, SectionName(section)]
  }

  /** Each course and section has a collection of its own: items of one never land in another. */
  lemma ResourcesPathInjective(c1: string, s1: Section, c2: string, s2: Section)
    ensures ResourcesPath(c1, s1) == ResourcesPath(c2, s2) ==> c1 == c2 && s1 == s2
  {
    if ResourcesPath(c1, s1) == ResourcesPath(c2, s2) {
      assert SectionName(s1) == ResourcesPath(c1, s1)[2] == SectionName(s2);
      SectionNamesDistinct(s1, s2);
    }
  }

  // ---------------------------------------------------------------------
  // The shared counter

  /** The counter value stored in the `Code` node; None when there is no node or it does not read. */
  function StoredCode(node: Option<Doc>): Option<Int32> {
    match node
    case None => None
    case Some(d) =>
      match DecodeMyCode(d, "")
      case Some(c) => Some(c.code)
      case None => None
  }

  /**
   * The counter record `updateAndGetCode` writes back: a new one at 1 when
   * the node is absent, the stored one incremented otherwise; None when the
   * stored node does not read as a counter (the source fails there).
   */
  function CounterAfter(node: Option<Doc>, freshId: string): (r: Option<MyCode>)
    ensures node.None? ==> r == Some(MyCode(freshId, 1))
    ensures r.Some? ==> r.value.code == NextCode(StoredCode(node))
    ensures node.Some? ==> (r.Some? <==> StoredCode(node).Some?)
  {
    match node
    case None => Some(MyCode(freshId, 1))
    case Some(d) =>
      match DecodeMyCode(d, freshId)
      case Some(c) =>
        assert DecodeMyCode(d, "").Some?;
        Some(c.(code := WrappingInc(c.code)))
      case None =>
        assert DecodeMyCode(d, "").None?;
        None
  }

  // ---------------------------------------------------------------------
  // A batch of pushes

  /** The documents of a collection's children, in order. */
  function Docs(cs: seq<Child>): (ds: seq<Doc>)
    ensures |ds| == |cs| && forall i :: 0 <= i < |cs| ==> ds[i] == cs[i].doc
  {
    seq(|cs|, i requires 0 <= i < |cs| => cs[i].doc)
  }

  /** The documents whose write succeeded, in order. */
  function Written(docs: seq<Doc>, oks: seq<bool>): seq<Doc>
    requires |oks| == |docs|
  {
    if |docs| == 0 then []
    else Written(docs[..|docs| - 1], oks[..|oks| - 1]) + (if oks[|oks| - 1] then [docs[|docs| - 1]] else [])
  }

  /** One `push().setValue` per document, in order; a failed write leaves the store as it was. */
  function PushAll(nodes: map<Path, seq<Child>>, p: Path, docs: seq<Doc>, oks: seq<bool>): map<Path, seq<Child>>
    requires |oks| == |docs|
  {
    if |docs| == 0 then nodes
    else
      var before := PushAll(nodes, p, docs[..|docs| - 1], oks[..|oks| - 1]);
      if oks[|oks| - 1] then Append(before, p, docs[|docs| - 1]) else before
  }

  /**
   * A batch of pushes adds exactly the successfully written documents after
   * the existing children, in order, and touches no other collection.
   */
  lemma {:induction false} PushAllAppends(nodes: map<Path, seq<Child>>, p: Path, docs: seq<Doc>, oks: seq<bool>)
    requires |oks| == |docs|
    ensures Docs(ChildrenAt(PushAll(nodes, p, docs, oks), p)) == Docs(ChildrenAt(nodes, p)) + Written(docs, oks)
    ensures |ChildrenAt(PushAll(nodes, p, docs, oks), p)| == |ChildrenAt(nodes, p)| + |Written(docs, oks)|
    ensures forall q :: q != p ==> ChildrenAt(PushAll(nodes, p, docs, oks), q) == ChildrenAt(nodes, q)
    ensures WellFormed(nodes) ==> WellFormed(PushAll(nodes, p, docs, oks))
  {
    if |docs| > 0 {
      var n := |docs| - 1;
      PushAllAppends(nodes, p, docs[..n], oks[..n]);
      var before := PushAll(nodes, p, docs[..n], oks[..n]);
      if oks[n] {
        var cs := ChildrenAt(before, p);
        assert Docs(cs + [Child(PushKey(cs), docs[n])]) == Docs(cs) + [docs[n]];
      }
    }
  }

  /** A document whose write succeeded is among those written. */
  lemma {:induction false} WrittenContains(docs: seq<Doc>, oks: seq<bool>, i: nat)
    requires |oks| == |docs| && i < |docs| && oks[i]
    ensures docs[i] in Written(docs, oks)
  {
    var n := |docs| - 1;
    if i < n {
      WrittenContains(docs[..n], oks[..n], i);
    }
  }

  /** The documents of the attendance records a batch saves, one per record. */
  function AttendanceDocs(records: seq<AttendanceRecord>): (ds: seq<Doc>)
    ensures |ds| == |records| && forall i :: 0 <= i < |records| ==> ds[i] == EncodeAttendanceRecord(records[i])
  {
    seq(|records|, i requires 0 <= i < |records| => EncodeAttendanceRecord(records[i]))
  }

  /**
   * A batch of pushes of documents that none reads as a record leaves a
   * whole-collection read of that record type as it was.
   */
  lemma {:induction false} PushAllUnreadable<T(!new)>(nodes: map<Path, seq<Child>>, p: Path, docs: seq<Doc>,
                                                      oks: seq<bool>, decode: Doc -> Option<T>)
    requires |oks| == |docs|
    requires forall i :: 0 <= i < |docs| ==> decode(docs[i]).None?
    ensures MapNotNull(ChildrenAt(PushAll(nodes, p, docs, oks), p), decode) == MapNotNull(ChildrenAt(nodes, p), decode)
  {
    if |docs| > 0 {
      var n := |docs| - 1;
      PushAllUnreadable(nodes, p, docs[..n], oks[..n], decode);
      var before := PushAll(nodes, p, docs[..n], oks[..n]);
      if oks[n] {
        var cs := ChildrenAt(before, p);
        MapNotNullAppend(cs, [Child(PushKey(cs), docs[n])], decode);
      }
    }
  }

  /**
   * As written, saving attendance records changes nothing `loadAttendanceRecords`
   * reports: each record is stored with its flag under `present`, and the
   * loader skips every child without an `isPresent` flag.
   */
  lemma SavedAttendanceNeverLoaded(nodes: map<Path, seq<Child>>, records: seq<AttendanceRecord>, oks: seq<bool>)
    requires |oks| == |records|
    ensures var after := PushAll(nodes, AttendanceRecordsPath, AttendanceDocs(records), oks);
      LoadAttendanceRecords(Loaded(ChildrenAt(after, AttendanceRecordsPath)))
        == LoadAttendanceRecords(Loaded(ChildrenAt(nodes, AttendanceRecordsPath)))
  {
    var docs := AttendanceDocs(records);
    forall i | 0 <= i < |docs| ensures AttendanceDecoder("isPresent")(docs[i]).None? {
      SavedRecordUnreadable(records[i]);
    }
    PushAllUnreadable(nodes, AttendanceRecordsPath, docs, oks, AttendanceDecoder("isPresent"));
  }

  /**
   * With the loader reading the flag from `present`, every record of a batch
   * whose write succeeded is read back.
   */
  lemma SavedAttendanceIsLoaded(nodes: map<Path, seq<Child>>, records: seq<AttendanceRecord>, oks: seq<bool>, i: nat)
    requires |oks| == |records| && i < |records| && oks[i]
    ensures var after := PushAll(nodes, AttendanceRecordsPath, AttendanceDocs(records), oks);
      records[i] in LoadAttendanceRecordsIntended(Loaded(ChildrenAt(after, AttendanceRecordsPath))).value
  {
    var docs := AttendanceDocs(records);
    var before := ChildrenAt(nodes, AttendanceRecordsPath);
    var cs := ChildrenAt(PushAll(nodes, AttendanceRecordsPath, docs, oks), AttendanceRecordsPath);
    PushAllAppends(nodes, AttendanceRecordsPath, docs, oks);
    WrittenContains(docs, oks, i);
    var w := Written(docs, oks);
    var j :| 0 <= j < |w| && w[j] == docs[i];
    assert Docs(cs)[|before| + j] == docs[i];
    AttendanceRecordRoundTrip(records[i]);
    assert HoldsAttendance(cs[|before| + j].doc, records[i], "present");
  }

  /** A record put under key `k` is among those a whole-collection read returns. */
  lemma StoredIsRead<T>(cs: seq<Child>, k: string, d: Doc, decode: Doc -> Option<T>, x: T)
    requires Lookup(cs, k) == Some(d) && decode(d) == Some(x)
    ensures Decodes(cs, decode, x)
  {
    var i :| 0 <= i < |cs| && cs[i] == Child(k, d);
  }

  /** A record put under key `k` whose field `f` holds `v` is among those a filtered read returns. */
  lemma StoredIsReadWhere<T>(cs: seq<Child>, k: string, d: Doc, f: string, v: string, decode: Doc -> Option<T>, x: T)
    requires Lookup(cs, k) == Some(d) && decode(d) == Some(x) && FieldIs(d, f, v)
    ensures DecodesWhere(cs, f, v, decode, x)
  {
    var i :| 0 <= i < |cs| && cs[i] == Child(k, d);
  }

  class MyDatabase {
    /** The calendar year when the object is created; it ends every generated id. */
    const year: Int32
    /** Every collection of the store, by path. */
    var nodes: map<Path, seq<Child>>
    /** The `Code` counter node at the root, if it exists. */
    var code: Option<Doc>

    ghost predicate Valid()
      reads this
    {
      WellFormed(nodes)
    }

    constructor(year: Int32)
      ensures Valid()
      ensures this.year == year && nodes == map[] && code == None
    {
      this.year := year;
      nodes := map[];
      code := None;
    }

    /** The children under `p` now. */
    function Children(p: Path): seq<Child>
      reads this
    {
      ChildrenAt(nodes, p)
    }

    /** What a single-value read of collection `p` delivers. */
    function Snapshot(p: Path, readOk: bool): Fetch<seq<Child>>
      reads this
    {
      if readOk then Loaded(Children(p)) else Cancelled
    }

    /** What a single-value read of node `k` of collection `p` delivers. */
    function NodeSnapshot(p: Path, k: string, readOk: bool): Fetch<Option<Doc>>
      reads this
    {
      if readOk then Loaded(Lookup(Children(p), k)) else Cancelled
    }

    // -------------------------------------------------------------------
    // The three store primitives

    /** `child(p).child(k).setValue(d)`: applied when the write succeeds. */
    method SetValue(p: Path, k: string, d: Doc, writeOk: bool)
      requires Valid()
      modifies this
      ensures Valid() && code == old(code)
      ensures nodes == if writeOk then Put(old(nodes), p, k, d) else old(nodes)
    {
      if writeOk {
        nodes := Put(nodes, p, k, d);
      }
    }

    /** `child(p).child(k).removeValue()`: applied when the delete succeeds. */
    method RemoveValue(p: Path, k: string, deleteOk: bool)
      requires Valid()
      modifies this
      ensures Valid() && code == old(code)
      ensures nodes == if deleteOk then Remove(old(nodes), p, k) else old(nodes)
    {
      if deleteOk {
        nodes := Remove(nodes, p, k);
      }
    }

    /** `child(p).push().setValue(d)`: applied when the write succeeds. */
    method PushValue(p: Path, d: Doc, writeOk: bool)
      requires Valid()
      modifies this
      ensures Valid() && code == old(code)
      ensures nodes == if writeOk then Append(old(nodes), p, d) else old(nodes)
    {
      if writeOk {
        nodes := Append(nodes, p, d);
      }
    }

    // -------------------------------------------------------------------
    // Ids

    /**
     * `updateAndGetCode`: reads the counter, writes back the incremented
     * record and reports the new value once the write succeeds. A cancelled
     * read, a failed write or an unreadable counter report nothing.
     */
    method UpdateAndGetCode(readOk: bool, writeOk: bool, freshId: string) returns (reported: Option<Int32>)
      modifies this
      ensures nodes == old(nodes)
      ensures reported.Some? <==> readOk && writeOk && CounterAfter(old(code), freshId).Some?
      ensures reported.Some? ==> code == Some(EncodeMyCode(CounterAfter(old(code), freshId).value))
      ensures reported.None? ==> code == old(code)
      ensures reported.Some? ==> reported.value == NextCode(StoredCode(old(code))) && StoredCode(code) == reported
    {
      reported := None;
      if !readOk {
        return;
      }
      var next := CounterAfter(code, freshId);
      if next.Some? && writeOk {
        code := Some(EncodeMyCode(next.value));
        reported := Some(next.value.code);
        assert DecodeMyCode(code.value, "") == Some(next.value);
      }
    }

    /**
     * The twelve `generate...ID` functions: the counter's new value between
     * the kind's prefix and the year, reported when the counter update is.
     */
    method GenerateId(kind: IdKind, readOk: bool, writeOk: bool, freshId: string) returns (id: Option<string>)
      modifies this
      ensures nodes == old(nodes)
      ensures id.Some? <==> readOk && writeOk && CounterAfter(old(code), freshId).Some?
      ensures id.Some? ==> id.value == FormatId(kind, NextCode(StoredCode(old(code))), year)
      ensures id.Some? ==> StoredCode(code) == Some(NextCode(StoredCode(old(code))))
      ensures id.None? ==> code == old(code)
    {
      var reported := UpdateAndGetCode(readOk, writeOk, freshId);
      id := match reported
        case Some(newCode) => Some(FormatId(kind, newCode, year))
        case None => None;
    }

    // -------------------------------------------------------------------
    // Keyed writes: the record's own id is its key

    /** `writeAccountDeletionData`: `onSuccess` runs only when the write succeeds. */
    method WriteAccountDeletionData(a: AccountDeletion, writeOk: bool) returns (notified: bool)
      requires Valid()
      modifies this
      ensures Valid() && code == old(code) && notified == writeOk
      ensures nodes == if writeOk then Put(old(nodes), AccountDeletionPath, a.id, EncodeAccountDeletion(a)) else old(nodes)
      ensures writeOk ==> Lookup(Children(AccountDeletionPath), a.id) == Some(EncodeAccountDeletion(a))
    {
      SetValue(AccountDeletionPath, a.id, EncodeAccountDeletion(a), writeOk);
      notified := writeOk;
    }

    /** `writeCourse`: keyed by the course code; `onSuccess` runs only on success. */
    method WriteCourse(course: Course, writeOk: bool) returns (notified: bool)
      requires Valid()
      modifies this
      ensures Valid() && code == old(code) && notified == writeOk
      ensures nodes == if writeOk then Put(old(nodes), CoursesPath, course.courseCode, EncodeCourse(course)) else old(nodes)
      ensures writeOk ==> course in FetchCourses(Snapshot(CoursesPath, true))
    {
      SetValue(CoursesPath, course.courseCode, EncodeCourse(course), writeOk);
      notified := writeOk;
      if writeOk {
        StoredIsRead(Children(CoursesPath), course.courseCode, EncodeCourse(course), DecodeCourse, course);
      }
    }

    /** `writePreferences`: keyed by the student id; `onSuccess` runs only on success. */
    method WritePreferences(preferences: UserPreferences, writeOk: bool) returns (notified: bool)
      requires Valid()
      modifies this
      ensures Valid() && code == old(code) && notified == writeOk
      ensures nodes == if writeOk then Put(old(nodes), PreferencesPath, preferences.studentID, EncodeUserPreferences(preferences))
                       else old(nodes)
      ensures writeOk ==> FetchPreferences(NodeSnapshot(PreferencesPath, preferences.studentID, true)) == Some(preferences)
    {
      SetValue(PreferencesPath, preferences.studentID, EncodeUserPreferences(preferences), writeOk);
      notified := writeOk;
    }

    /** `saveScreenTime`: keyed by the screen-time id; reports success or failure. */
    method SaveScreenTime(screenTime: ScreenTime, writeOk: bool) returns (success: bool)
      requires Valid()
      modifies this
      ensures Valid() && code == old(code) && success == writeOk
      ensures nodes == if writeOk then Put(old(nodes), ScreenTimePath, screenTime.id, EncodeScreenTime(screenTime)) else old(nodes)
      ensures writeOk ==> GetScreenTime(NodeSnapshot(ScreenTimePath, screenTime.id, true)) == Some(screenTime)
    {
      SetValue(ScreenTimePath, screenTime.id, EncodeScreenTime(screenTime), writeOk);
      success := writeOk;
    }

    /** `writeScren`: keyed by the screen id; `onSuccess` runs only on success. */
    method WriteScreen(screen: Screens, writeOk: bool) returns (notified: bool)
      requires Valid()
      modifies this
      ensures Valid() && code == old(code) && notified == writeOk
      ensures nodes == if writeOk then Put(old(nodes), ScreensPath, screen.screenId, EncodeScreens(screen)) else old(nodes)
      ensures writeOk ==> GetScreenDetails(NodeSnapshot(ScreensPath, screen.screenId, true)) == Some(screen)
    {
      SetValue(ScreensPath, screen.screenId, EncodeScreens(screen), writeOk);
      notified := writeOk;
    }

    /** `writeUsers`: keyed by the user id; reports true on success, false on failure. */
    method WriteUsers(user: User, writeOk: bool) returns (success: bool)
      requires Valid()
      modifies this
      ensures Valid() && code == old(code) && success == writeOk
      ensures nodes == if writeOk then Put(old(nodes), UsersPath, user.id, EncodeUser(user)) else old(nodes)
      ensures writeOk ==> user in GetUsers(Snapshot(UsersPath, true)).value
    {
      SetValue(UsersPath, user.id, EncodeUser(user), writeOk);
      success := writeOk;
      if writeOk {
        StoredIsRead(Children(UsersPath), user.id, EncodeUser(user), DecodeUser, user);
      }
    }

    /** `deleteUser`: removes the user's node; reports success or failure. */
    method DeleteUser(userId: string, deleteOk: bool) returns (success: bool)
      requires Valid()
      modifies this
      ensures Valid() && code == old(code) && success == deleteOk
      ensures nodes == if deleteOk then Remove(old(nodes), UsersPath, userId) else old(nodes)
      ensures deleteOk ==> Lookup(Children(UsersPath), userId) == None
    {
      RemoveValue(UsersPath, userId, deleteOk);
      success := deleteOk;
    }

    /** `writeFeedback`: keyed by the feedback id; reports success or failure. */
    method WriteFeedback(feedback: Feedback, writeOk: bool) returns (success: bool)
      requires Valid()
      modifies this
      ensures Valid() && code == old(code) && success == writeOk
      ensures nodes == if writeOk then Put(old(nodes), FeedbackPath, feedback.id, EncodeFeedback(feedback)) else old(nodes)
      ensures writeOk ==> Lookup(Children(FeedbackPath), feedback.id) == Some(EncodeFeedback(feedback))
    {
      SetValue(FeedbackPath, feedback.id, EncodeFeedback(feedback), writeOk);
      success := writeOk;
    }

    /** `writeFcmToken`: keyed by the token id; no one is told the outcome. */
    method WriteFcmToken(token: Fcm, writeOk: bool)
      requires Valid()
      modifies this
      ensures Valid() && code == old(code)
      ensures nodes == if writeOk then Put(old(nodes), FcmPath, token.id, EncodeFcm(token)) else old(nodes)
    {
      SetValue(FcmPath, token.id, EncodeFcm(token), writeOk);
    }

    /** `writeTimetable`: keyed by the entry id; reports whether the write succeeded. */
    method WriteTimetable(timetable: Timetable, writeOk: bool) returns (success: bool)
      requires Valid()
      modifies this
      ensures Valid() && code == old(code) && success == writeOk
      ensures nodes == if writeOk then Put(old(nodes), TimetablePath, timetable.id, EncodeTimetable(timetable)) else old(nodes)
      ensures writeOk ==> timetable in GetTimetable(Snapshot(TimetablePath, true), timetable.dayId).value
    {
      SetValue(TimetablePath, timetable.id, EncodeTimetable(timetable), writeOk);
      success := writeOk;
      if writeOk {
        StoredIsReadWhere(Children(TimetablePath), timetable.id, EncodeTimetable(timetable),
                          "dayId", timetable.dayId, DecodeTimetable, timetable);
      }
    }

    /** `editTimetable`: the same full overwrite as `writeTimetable`. */
    method EditTimetable(timetable: Timetable, writeOk: bool) returns (success: bool)
      requires Valid()
      modifies this
      ensures Valid() && code == old(code) && success == writeOk
      ensures nodes == if writeOk then Put(old(nodes), TimetablePath, timetable.id, EncodeTimetable(timetable)) else old(nodes)
      ensures writeOk ==> timetable in GetTimetable(Snapshot(TimetablePath, true), timetable.dayId).value
    {
      success := WriteTimetable(timetable, writeOk);
    }

    /** `deleteTimetable`: removes one entry; reports whether the delete succeeded. */
    method DeleteTimetable(timetableId: string, deleteOk: bool) returns (success: bool)
      requires Valid()
      modifies this
      ensures Valid() && code == old(code) && success == deleteOk
      ensures nodes == if deleteOk then Remove(old(nodes), TimetablePath, timetableId) else old(nodes)
      ensures deleteOk ==> Lookup(Children(TimetablePath), timetableId) == None
    {
      RemoveValue(TimetablePath, timetableId, deleteOk);
      success := deleteOk;
    }

    /** `writeDays`: keyed by the day id; reports whether the write succeeded. */
    method WriteDays(day: Day, writeOk: bool) returns (success: bool)
      requires Valid()
      modifies this
      ensures Valid() && code == old(code) && success == writeOk
      ensures nodes == if writeOk then Put(old(nodes), DaysPath, day.id, EncodeDay(day)) else old(nodes)
      ensures writeOk ==> day in GetDays(Snapshot(DaysPath, true)).value
    {
      SetValue(DaysPath, day.id, EncodeDay(day), writeOk);
      success := writeOk;
      if writeOk {
        StoredIsRead(Children(DaysPath), day.id, EncodeDay(day), DecodeDay, day);
      }
    }

    /** `writeAssignment`: keyed by the assignment id; reports whether the write succeeded. */
    method WriteAssignment(assignment: Assignment, writeOk: bool) returns (success: bool)
      requires Valid()
      modifies this
      ensures Valid() && code == old(code) && success == writeOk
      ensures nodes == if writeOk then Put(old(nodes), AssignmentsPath, assignment.id, EncodeAssignment(assignment))
                       else old(nodes)
      ensures writeOk ==> assignment in GetAssignments(Snapshot(AssignmentsPath, true), assignment.courseCode).value
    {
      SetValue(AssignmentsPath, assignment.id, EncodeAssignment(assignment), writeOk);
      success := writeOk;
      if writeOk {
        StoredIsReadWhere(Children(AssignmentsPath), assignment.id, EncodeAssignment(assignment),
                          "courseCode", assignment.courseCode, DecodeAssignment, assignment);
      }
    }

    /** `editAssignment`: the same full overwrite as `writeAssignment`. */
    method EditAssignment(assignment: Assignment, writeOk: bool) returns (success: bool)
      requires Valid()
      modifies this
      ensures Valid() && code == old(code) && success == writeOk
      ensures nodes == if writeOk then Put(old(nodes), AssignmentsPath, assignment.id, EncodeAssignment(assignment))
                       else old(nodes)
      ensures writeOk ==> assignment in GetAssignments(Snapshot(AssignmentsPath, true), assignment.courseCode).value
    {
      success := WriteAssignment(assignment, writeOk);
    }

    /** `deleteAssignment`: removes one assignment; reports whether the delete succeeded. */
    method DeleteAssignment(assignmentId: string, deleteOk: bool) returns (success: bool)
      requires Valid()
      modifies this
      ensures Valid() && code == old(code) && success == deleteOk
      ensures nodes == if deleteOk then Remove(old(nodes), AssignmentsPath, assignmentId) else old(nodes)
      ensures deleteOk ==> Lookup(Children(AssignmentsPath), assignmentId) == None
    {
      RemoveValue(AssignmentsPath, assignmentId, deleteOk);
      success := deleteOk;
    }

    /** `writeAnnouncement`: keyed by the announcement id; no one is told the outcome. */
    method WriteAnnouncement(announcement: Announcement, writeOk: bool)
      requires Valid()
      modifies this
      ensures Valid() && code == old(code)
      ensures nodes == if writeOk then Put(old(nodes), AnnouncementsPath, announcement.id, EncodeAnnouncement(announcement))
                       else old(nodes)
      ensures writeOk ==> announcement in GetAnnouncements(Snapshot(AnnouncementsPath, true)).value
    {
      SetValue(AnnouncementsPath, announcement.id, EncodeAnnouncement(announcement), writeOk);
      if writeOk {
        StoredIsRead(Children(AnnouncementsPath), announcement.id, EncodeAnnouncement(announcement),
                     DecodeAnnouncement, announcement);
      }
    }

    /** `deleteAnnouncement`: removes one announcement; no one is told the outcome. */
    method DeleteAnnouncement(announcementId: string, deleteOk: bool)
      requires Valid()
      modifies this
      ensures Valid() && code == old(code)
      ensures nodes == if deleteOk then Remove(old(nodes), AnnouncementsPath, announcementId) else old(nodes)
      ensures deleteOk ==> Lookup(Children(AnnouncementsPath), announcementId) == None
    {
      RemoveValue(AnnouncementsPath, announcementId, deleteOk);
    }

    /** `saveAttendanceState`: keyed by the course id; no one is told the outcome. */
    method SaveAttendanceState(state: AttendanceState, writeOk: bool)
      requires Valid()
      modifies this
      ensures Valid() && code == old(code)
      ensures nodes == if writeOk then Put(old(nodes), AttendanceStatesPath, state.courseID, EncodeAttendanceState(state))
                       else old(nodes)
      ensures writeOk ==> FetchAttendanceState(NodeSnapshot(AttendanceStatesPath, state.courseID, true)) == Some(state)
    {
      SetValue(AttendanceStatesPath, state.courseID, EncodeAttendanceState(state), writeOk);
    }

    // -------------------------------------------------------------------
    // Pushes: the store allocates the key

    /** `sendMessage`: one new child of the group discussion; reports whether the write succeeded. */
    method SendMessage(chat: Chat, writeOk: bool) returns (success: bool)
      requires Valid()
      modifies this
      ensures Valid() && code == old(code) && success == writeOk
      ensures nodes == if writeOk then Append(old(nodes), GroupDiscussionsPath, EncodeChat(chat)) else old(nodes)
      ensures writeOk ==> chat in FetchChats(Snapshot(GroupDiscussionsPath, true)).value
    {
      PushValue(GroupDiscussionsPath, EncodeChat(chat), writeOk);
      success := writeOk;
      if writeOk {
        var cs := Children(GroupDiscussionsPath);
        assert cs[|cs| - 1].doc == EncodeChat(chat);
      }
    }

    /** `sendUserToUserMessage`: one new child of the conversation at `path`; reports whether the write succeeded. */
    method SendUserToUserMessage(message: Message, path: string, writeOk: bool) returns (success: bool)
      requires Valid()
      modifies this
      ensures Valid() && code == old(code) && success == writeOk
      ensures nodes == if writeOk then Append(old(nodes), [path], EncodeMessage(message)) else old(nodes)
      ensures writeOk ==> message in FetchUserToUserMessages(Snapshot([path], true)).value
    {
      PushValue([path], EncodeMessage(message), writeOk);
      success := writeOk;
      if writeOk {
        var cs := Children([path]);
        assert cs[|cs| - 1].doc == EncodeMessage(message);
      }
    }

    /** `writeItem`: one new item in a course section; no one is told the outcome. */
    method WriteItem(courseId: string, section: Section, item: GridItem, writeOk: bool)
      requires Valid()
      modifies this
      ensures Valid() && code == old(code)
      ensures nodes == if writeOk then Append(old(nodes), ResourcesPath(courseId, section), EncodeGridItem(item)) else old(nodes)
      ensures writeOk ==> item in ReadItems(Snapshot(ResourcesPath(courseId, section), true))
    {
      PushValue(ResourcesPath(courseId, section), EncodeGridItem(item), writeOk);
      if writeOk {
        var cs := Children(ResourcesPath(courseId, section));
        assert cs[|cs| - 1].doc == EncodeGridItem(item);
      }
    }

    /**
     * `deleteItem`: reads the section, then removes the first child that
     * reads as a record equal to `item`; nothing happens when the read is
     * cancelled, no child matches, or the delete fails.
     */
    method DeleteItem(courseId: string, section: Section, item: GridItem, readOk: bool, deleteOk: bool)
      requires Valid()
      modifies this
      ensures Valid() && code == old(code)
      ensures var p := ResourcesPath(courseId, section);
        nodes == if readOk && deleteOk && p in old(nodes) then old(nodes)[p := RemoveFirst(old(nodes)[p], IsItem(item))]
                 else old(nodes)
    {
      if !readOk {
        return;
      }
      var p := ResourcesPath(courseId, section);
      var cs := Children(p);
      var found := FindItem(cs, item);
      RemoveFirstSpec(cs, IsItem(item));
      match found
      case None =>
        if p in nodes {
          assert nodes == nodes[p := RemoveFirst(nodes[p], IsItem(item))];
        }
      case Some(i) =>
        RemoveChildAt(cs, i);
        RemoveValue(p, cs[i].key, deleteOk);
    }

    /**
     * `saveAttendanceRecords`: one push per record, in order. Each write
     * succeeds or fails on its own, and `onComplete` is never called.
     */
    method SaveAttendanceRecords(records: seq<AttendanceRecord>, oks: seq<bool>)
      requires Valid()
      requires |oks| == |records|
      modifies this
      ensures Valid() && code == old(code)
      ensures nodes == PushAll(old(nodes), AttendanceRecordsPath, AttendanceDocs(records), oks)
    {
      ghost var docs := AttendanceDocs(records);
      for i := 0 to |records|
        invariant Valid() && code == old(code)
        invariant nodes == PushAll(old(nodes), AttendanceRecordsPath, docs[..i], oks[..i])
      {
        assert docs[..i + 1][..i] == docs[..i] && oks[..i + 1][..i] == oks[..i];
        PushValue(AttendanceRecordsPath, EncodeAttendanceRecord(records[i]), oks[i]);
      }
      assert docs[..|records|] == docs && oks[..|records|] == oks;
    }
  }
}
