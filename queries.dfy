/**
 * The read side of the data-access layer: each read gets one snapshot of a
 * collection (or of one node) from the store, or is cancelled, and turns it
 * into typed records. A child that does not read as the record is skipped;
 * equality filters, first-match lookups, the day-to-timetable join and the
 * rating average are built on that.
 */
module Queries {
  import opened Wrappers
  import opened Store
  import opened Records

  // ---------------------------------------------------------------------
  // Decode and skip: `snapshot.children.mapNotNull { ... }`

  /** Some child of `cs` reads as `x`. */
  ghost predicate Decodes<T>(cs: seq<Child>, decode: Doc -> Option<T>, x: T) {
    exists i :: 0 <= i < |cs| && decode(cs[i].doc) == Some(x)
  }

  /** The records the children read as, in child order, unreadable children skipped. */
  function MapNotNull<T(!new)>(cs: seq<Child>, decode: Doc -> Option<T>): (r: seq<T>)
    ensures |r| <= |cs|
    ensures forall x :: x in r <==> Decodes(cs, decode, x)
  {
    if |cs| == 0 then []
    else
      var head := match decode(cs[0].doc) case Some(x) => [x] case None => [];
      var rest := MapNotNull(cs[1..], decode);
      forall x ensures x in head + rest <==> Decodes(cs, decode, x) {
        if Decodes(cs, decode, x) {
          var i :| 0 <= i < |cs| && decode(cs[i].doc) == Some(x);
          if i > 0 { assert decode(cs[1..][i - 1].doc) == Some(x); }
        }
        if x in rest {
          var i :| 0 <= i < |cs[1..]| && decode(cs[1..][i].doc) == Some(x);
          assert decode(cs[i + 1].doc) == Some(x);
        }
      }
      head + rest
  }

  /** Reading a collection in two parts gives the two parts' records one after the other: order follows child order. */
  lemma {:induction false} MapNotNullAppend<T(!new)>(a: seq<Child>, b: seq<Child>, decode: Doc -> Option<T>)
    ensures MapNotNull(a + b, decode) == MapNotNull(a, decode) + MapNotNull(b, decode)
  {
    if |a| > 0 {
      assert (a + b)[1..] == a[1..] + b;
      MapNotNullAppend(a[1..], b, decode);
    } else {
      assert a + b == b;
    }
  }

  /** A read of a whole collection: null (no records) when the read is cancelled. */
  function ListAll<T(!new)>(snap: Fetch<seq<Child>>, decode: Doc -> Option<T>): (r: Option<seq<T>>)
    ensures r.None? <==> snap.Cancelled?
    ensures r.Some? ==> forall x :: x in r.value <==> Decodes(snap.value, decode, x)
  {
    match snap
    case Cancelled => None
    case Loaded(cs) => Some(MapNotNull(cs, decode))
  }

  /** `fetchChats`: on cancel the callback is never invoked (None). */
  function FetchChats(snap: Fetch<seq<Child>>): (r: Option<seq<Chat>>)
    ensures r.None? <==> snap.Cancelled?
    ensures r.Some? ==> forall c :: c in r.value <==> Decodes(snap.value, DecodeChat, c)
  {
    ListAll(snap, DecodeChat)
  }

  /** `fetchUserToUserMessages`: on cancel the callback is never invoked (None). */
  function FetchUserToUserMessages(snap: Fetch<seq<Child>>): (r: Option<seq<Message>>)
    ensures r.None? <==> snap.Cancelled?
    ensures r.Some? ==> forall m :: m in r.value <==> Decodes(snap.value, DecodeMessage, m)
  {
    ListAll(snap, DecodeMessage)
  }

  /** `fetchCourses`: a cancelled read reports the empty list. */
  function FetchCourses(snap: Fetch<seq<Child>>): (r: seq<Course>)
    ensures snap.Cancelled? ==> r == []
    ensures snap.Loaded? ==> forall c :: c in r <==> Decodes(snap.value, DecodeCourse, c)
  {
    ListAll(snap, DecodeCourse).GetOr([])
  }

  /** `readItems`: a cancelled read reports the empty list. */
  function ReadItems(snap: Fetch<seq<Child>>): (r: seq<GridItem>)
    ensures snap.Cancelled? ==> r == []
    ensures snap.Loaded? ==> forall g :: g in r <==> Decodes(snap.value, DecodeGridItem, g)
  {
    ListAll(snap, DecodeGridItem).GetOr([])
  }

  /** `getUsers`: null when the read is cancelled. */
  function GetUsers(snap: Fetch<seq<Child>>): (r: Option<seq<User>>)
    ensures r.None? <==> snap.Cancelled?
    ensures r.Some? ==> forall u :: u in r.value <==> Decodes(snap.value, DecodeUser, u)
  {
    ListAll(snap, DecodeUser)
  }

  /** `getDays`: null when the read is cancelled. */
  function GetDays(snap: Fetch<seq<Child>>): (r: Option<seq<Day>>)
    ensures r.None? <==> snap.Cancelled?
    ensures r.Some? ==> forall d :: d in r.value <==> Decodes(snap.value, DecodeDay, d)
  {
    ListAll(snap, DecodeDay)
  }

  /** `getAnnouncements`: null when the read is cancelled. */
  function GetAnnouncements(snap: Fetch<seq<Child>>): (r: Option<seq<Announcement>>)
    ensures r.None? <==> snap.Cancelled?
    ensures r.Some? ==> forall a :: a in r.value <==> Decodes(snap.value, DecodeAnnouncement, a)
  {
    ListAll(snap, DecodeAnnouncement)
  }

  /** `getAllScreenTimes`: collects the readable children in a loop; a failed read reports the empty list. */
  method GetAllScreenTimes(snap: Fetch<seq<Child>>) returns (screenTimes: seq<ScreenTime>)
    ensures snap.Cancelled? ==> screenTimes == []
    ensures snap.Loaded? ==> screenTimes == MapNotNull(snap.value, DecodeScreenTime)
  {
    screenTimes := [];
    if snap.Cancelled? {
      return;
    }
    var cs := snap.value;
    for i := 0 to |cs|
      invariant screenTimes == MapNotNull(cs[..i], DecodeScreenTime)
    {
      MapNotNullAppend(cs[..i], [cs[i]], DecodeScreenTime);
      assert cs[..i + 1] == cs[..i] + [cs[i]];
      match DecodeScreenTime(cs[i].doc)
      case Some(st) =>
        screenTimes := screenTimes + [st];
      case None =>
    }
    assert cs[..|cs|] == cs;
  }

  // ---------------------------------------------------------------------
  // Reads that check fields one by one

  /** `loadCourseAndAssignments`: a course whose name is missing or empty is dropped. */
  function DecodeNamedCourse(d: Doc): Option<Course> {
    match DecodeCourse(d)
    case Some(c) => if c.courseName == "" then None else Some(c)
    case None => None
  }

  function LoadCourseAndAssignments(snap: Fetch<seq<Child>>): (r: Option<seq<Course>>)
    ensures r.None? <==> snap.Cancelled?
    ensures r.Some? ==> forall c :: c in r.value <==> c.courseName != "" && Decodes(snap.value, DecodeCourse, c)
  {
    match snap
    case Cancelled => None
    case Loaded(cs) =>
      var r := MapNotNull(cs, DecodeNamedCourse);
      forall c ensures c in r <==> c.courseName != "" && Decodes(cs, DecodeCourse, c) {
        if c.courseName != "" && Decodes(cs, DecodeCourse, c) {
          var i :| 0 <= i < |cs| && DecodeCourse(cs[i].doc) == Some(c);
          assert DecodeNamedCourse(cs[i].doc) == Some(c);
        }
      }
      Some(r)
  }

  /** What `loadStudents` requires of a child to read it as `s`: both fields hold strings. */
  predicate HoldsStudent(d: Doc, s: Student) {
    StrChild(d, "id") == Some(s.id) && StrChild(d, "firstName") == Some(s.firstName)
  }

  function DecodeStudent(d: Doc): Option<Student> {
    match (StrChild(d, "id"), StrChild(d, "firstName"))
    case (Some(id), Some(firstName)) => Some(Student(id, firstName))
    case _ => None
  }

  /** `loadStudents`: one student per child whose `id` and `firstName` both read as strings. */
  function LoadStudents(snap: Fetch<seq<Child>>): (r: Option<seq<Student>>)
    ensures r.None? <==> snap.Cancelled?
    ensures r.Some? ==> |r.value| <= |snap.value|
    ensures r.Some? ==>
      forall s :: s in r.value <==> exists i :: 0 <= i < |snap.value| && HoldsStudent(snap.value[i].doc, s)
  {
    match snap
    case Cancelled => None
    case Loaded(cs) =>
      var r := MapNotNull(cs, DecodeStudent);
      forall s ensures s in r <==> exists i :: 0 <= i < |cs| && HoldsStudent(cs[i].doc, s) {
        if exists i :: 0 <= i < |cs| && HoldsStudent(cs[i].doc, s) {
          var i :| 0 <= i < |cs| && HoldsStudent(cs[i].doc, s);
          assert DecodeStudent(cs[i].doc) == Some(s);
        }
      }
      Some(r)
  }

  /**
   * What a loader that reads the attendance flag from the child `presentKey`
   * requires of a child to read it as `a`: all four fields present.
   */
  predicate HoldsAttendance(d: Doc, a: AttendanceRecord, presentKey: string) {
    && StrChild(d, "studentId") == Some(a.studentId)
    && StrChild(d, "dayOfWeek") == Some(a.dayOfWeek)
    && BoolChild(d, presentKey) == Some(a.isPresent)
    && StrChild(d, "lesson") == Some(a.lesson)
  }

  /** Reads the four fields of one child by name, the flag from `presentKey`. */
  function AttendanceDecoder(presentKey: string): Doc -> Option<AttendanceRecord> {
    d =>
      match (StrChild(d, "studentId"), StrChild(d, "dayOfWeek"), BoolChild(d, presentKey), StrChild(d, "lesson"))
      case (Some(studentId), Some(dayOfWeek), Some(isPresent), Some(lesson)) =>
        Some(AttendanceRecord(studentId, dayOfWeek, isPresent, lesson))
      case _ => None
  }

  /** One record per child whose four fields all read, the flag from `presentKey`; null when cancelled. */
  function LoadAttendanceRecordsBy(snap: Fetch<seq<Child>>, presentKey: string): (r: Option<seq<AttendanceRecord>>)
    ensures r.None? <==> snap.Cancelled?
    ensures r.Some? ==> |r.value| <= |snap.value|
    ensures r.Some? ==>
      forall a :: a in r.value <==> exists i :: 0 <= i < |snap.value| && HoldsAttendance(snap.value[i].doc, a, presentKey)
  {
    match snap
    case Cancelled => None
    case Loaded(cs) =>
      var r := MapNotNull(cs, AttendanceDecoder(presentKey));
      forall a ensures a in r <==> exists i :: 0 <= i < |cs| && HoldsAttendance(cs[i].doc, a, presentKey) {
        if exists i :: 0 <= i < |cs| && HoldsAttendance(cs[i].doc, a, presentKey) {
          var i :| 0 <= i < |cs| && HoldsAttendance(cs[i].doc, a, presentKey);
          assert AttendanceDecoder(presentKey)(cs[i].doc) == Some(a);
        }
      }
      Some(r)
  }

  /** `loadAttendanceRecords`, as written: the flag is read from the child "isPresent". */
  function LoadAttendanceRecords(snap: Fetch<seq<Child>>): (r: Option<seq<AttendanceRecord>>)
    ensures r.None? <==> snap.Cancelled?
    ensures r.Some? ==>
      forall a :: a in r.value <==> exists i :: 0 <= i < |snap.value| && HoldsAttendance(snap.value[i].doc, a, "isPresent")
  {
    LoadAttendanceRecordsBy(snap, "isPresent")
  }

  /** `loadAttendanceRecords` as evidently intended: the flag is read from "present", where it is stored. */
  function LoadAttendanceRecordsIntended(snap: Fetch<seq<Child>>): (r: Option<seq<AttendanceRecord>>)
    ensures r.None? <==> snap.Cancelled?
    ensures r.Some? ==>
      forall a :: a in r.value <==> exists i :: 0 <= i < |snap.value| && HoldsAttendance(snap.value[i].doc, a, "present")
  {
    LoadAttendanceRecordsBy(snap, "present")
  }

  /** A record as `saveAttendanceRecords` stores it never reads as a record under "isPresent". */
  lemma SavedRecordUnreadable(a: AttendanceRecord)
    ensures AttendanceDecoder("isPresent")(EncodeAttendanceRecord(a)).None?
    ensures forall b :: !HoldsAttendance(EncodeAttendanceRecord(a), b, "isPresent")
  {
    assert "isPresent" !in EncodeAttendanceRecord(a);
  }

  /** Reading the flag from "present", a stored record reads back unchanged. */
  lemma AttendanceRecordRoundTrip(a: AttendanceRecord)
    ensures HoldsAttendance(EncodeAttendanceRecord(a), a, "present")
    ensures AttendanceDecoder("present")(EncodeAttendanceRecord(a)) == Some(a)
  {
  }

  // ---------------------------------------------------------------------
  // Equality filters: `orderByChild(f).equalTo(v)`

  /** The child `f` of a document holds the string `v`. */
  predicate FieldIs(d: Doc, f: string, v: string) {
    f in d && d[f] == Str(v)
  }

  /** `i` is the first child whose field `f` holds `v`. */
  predicate FirstWith(cs: seq<Child>, f: string, v: string, i: int) {
    0 <= i < |cs| && FieldIs(cs[i].doc, f, v) && forall j :: 0 <= j < i ==> !FieldIs(cs[j].doc, f, v)
  }

  /** No child's field `f` holds `v`. */
  predicate NoneWith(cs: seq<Child>, f: string, v: string) {
    forall i :: 0 <= i < |cs| ==> !FieldIs(cs[i].doc, f, v)
  }

  /** The children the filter keeps, in child order. */
  function EqualTo(cs: seq<Child>, f: string, v: string): (r: seq<Child>)
    ensures forall c :: c in r <==> c in cs && FieldIs(c.doc, f, v)
    ensures |r| == 0 <==> NoneWith(cs, f, v)
    ensures |r| > 0 ==> exists i :: FirstWith(cs, f, v, i) && r[0] == cs[i]
  {
    if |cs| == 0 then []
    else
      var rest := EqualTo(cs[1..], f, v);
      assert forall c :: c in cs <==> c == cs[0] || c in cs[1..];
      assert forall i :: 1 <= i < |cs| ==> cs[i] == cs[1..][i - 1];
      if FieldIs(cs[0].doc, f, v) then
        assert FirstWith(cs, f, v, 0);
        [cs[0]] + rest
      else
        if |rest| > 0 then
          var i :| FirstWith(cs[1..], f, v, i) && rest[0] == cs[1..][i];
          assert FirstWith(cs, f, v, i + 1);
          rest
        else
          rest
  }

  /** Filtering a collection in two parts keeps the two parts' matches one after the other: order is kept. */
  lemma {:induction false} EqualToAppend(a: seq<Child>, b: seq<Child>, f: string, v: string)
    ensures EqualTo(a + b, f, v) == EqualTo(a, f, v) + EqualTo(b, f, v)
  {
    if |a| > 0 {
      assert (a + b)[1..] == a[1..] + b;
      EqualToAppend(a[1..], b, f, v);
    } else {
      assert a + b == b;
    }
  }

  /** A single child is kept exactly when its field `f` holds `v`. */
  lemma EqualToSingle(c: Child, f: string, v: string)
    ensures EqualTo([c], f, v) == if FieldIs(c.doc, f, v) then [c] else []
  {
    assert [c][1..] == [];
  }

  /** Some child whose field `f` holds `v` reads as `x`. */
  ghost predicate DecodesWhere<T>(cs: seq<Child>, f: string, v: string, decode: Doc -> Option<T>, x: T) {
    exists i :: 0 <= i < |cs| && FieldIs(cs[i].doc, f, v) && decode(cs[i].doc) == Some(x)
  }

  /** Every child the filter keeps is a matching child of the collection. */
  lemma KeptIsMatch(cs: seq<Child>, f: string, v: string, j: int)
    requires 0 <= j < |EqualTo(cs, f, v)|
    ensures exists i :: 0 <= i < |cs| && cs[i] == EqualTo(cs, f, v)[j] && FieldIs(cs[i].doc, f, v)
  {
    var m := EqualTo(cs, f, v);
    assert m[j] in m;
    var i :| 0 <= i < |cs| && cs[i] == m[j];
  }

  /** Every matching child of the collection is kept by the filter. */
  lemma MatchIsKept(cs: seq<Child>, f: string, v: string, i: int)
    requires 0 <= i < |cs| && FieldIs(cs[i].doc, f, v)
    ensures exists j :: 0 <= j < |EqualTo(cs, f, v)| && EqualTo(cs, f, v)[j] == cs[i]
  {
    var m := EqualTo(cs, f, v);
    assert cs[i] in m;
  }

  /** A child the filter keeps reads as `x` exactly when some child matching the filter does. */
  lemma EqualToDecodes<T>(cs: seq<Child>, f: string, v: string, decode: Doc -> Option<T>, x: T)
    ensures Decodes(EqualTo(cs, f, v), decode, x) <==> DecodesWhere(cs, f, v, decode, x)
  {
    var m := EqualTo(cs, f, v);
    if Decodes(m, decode, x) {
      var j :| 0 <= j < |m| && decode(m[j].doc) == Some(x);
      KeptIsMatch(cs, f, v, j);
      var i :| 0 <= i < |cs| && cs[i] == m[j] && FieldIs(cs[i].doc, f, v);
      assert decode(cs[i].doc) == Some(x);
    }
    if DecodesWhere(cs, f, v, decode, x) {
      var i :| 0 <= i < |cs| && FieldIs(cs[i].doc, f, v) && decode(cs[i].doc) == Some(x);
      MatchIsKept(cs, f, v, i);
      var j :| 0 <= j < |m| && m[j] == cs[i];
      assert decode(m[j].doc) == Some(x);
    }
  }

  /** A filtered read of a collection: the readable children among those the filter keeps. */
  function ListWhere<T(!new)>(snap: Fetch<seq<Child>>, f: string, v: string, decode: Doc -> Option<T>)
    : (r: Option<seq<T>>)
    ensures r.None? <==> snap.Cancelled?
    ensures r.Some? ==> forall x :: x in r.value <==> DecodesWhere(snap.value, f, v, decode, x)
  {
    match snap
    case Cancelled => None
    case Loaded(cs) =>
      var m := EqualTo(cs, f, v);
      var r := MapNotNull(m, decode);
      forall x ensures x in r <==> DecodesWhere(cs, f, v, decode, x) {
        EqualToDecodes(cs, f, v, decode, x);
      }
      Some(r)
  }

  /** `getTimetable`: the readable entries whose `dayId` is `dayId`; null when cancelled. */
  function GetTimetable(snap: Fetch<seq<Child>>, dayId: string): (r: Option<seq<Timetable>>)
    ensures r.None? <==> snap.Cancelled?
    ensures r.Some? ==> forall t :: t in r.value ==> t.dayId == dayId
    ensures r.Some? ==> forall t :: t in r.value <==> DecodesWhere(snap.value, "dayId", dayId, DecodeTimetable, t)
  {
    var r := ListWhere(snap, "dayId", dayId, DecodeTimetable);
    assert r.Some? ==> forall t :: t in r.value ==> t.dayId == dayId by {
      if r.Some? {
        forall t | t in r.value ensures t.dayId == dayId {
          var i :| 0 <= i < |snap.value| && FieldIs(snap.value[i].doc, "dayId", dayId)
            && DecodeTimetable(snap.value[i].doc) == Some(t);
        }
      }
    }
    r
  }

  /** `getAssignments`: the readable assignments of course `courseCode`; null when cancelled. */
  function GetAssignments(snap: Fetch<seq<Child>>, courseCode: string): (r: Option<seq<Assignment>>)
    ensures r.None? <==> snap.Cancelled?
    ensures r.Some? ==> forall a :: a in r.value ==> a.courseCode == courseCode
    ensures r.Some? ==>
      forall a :: a in r.value <==> DecodesWhere(snap.value, "courseCode", courseCode, DecodeAssignment, a)
  {
    var r := ListWhere(snap, "courseCode", courseCode, DecodeAssignment);
    assert r.Some? ==> forall a :: a in r.value ==> a.courseCode == courseCode by {
      if r.Some? {
        forall a | a in r.value ensures a.courseCode == courseCode {
          var i :| 0 <= i < |snap.value| && FieldIs(snap.value[i].doc, "courseCode", courseCode)
            && DecodeAssignment(snap.value[i].doc) == Some(a);
        }
      }
    }
    r
  }

  // ---------------------------------------------------------------------
  // Resolve a day name, then query the timetable by the resolved key

  /** `getDayIdByName`: the key (not the `id` field) of the first day named `dayName`. */
  function GetDayIdByName(days: Fetch<seq<Child>>, dayName: string): (r: Option<string>)
    ensures days.Cancelled? ==> r.None?
    ensures days.Loaded? ==> (r.None? <==> NoneWith(days.value, "name", dayName))
    ensures r.Some? ==> exists i :: FirstWith(days.value, "name", dayName, i) && days.value[i].key == r.value
  {
    match days
    case Cancelled => None
    case Loaded(cs) =>
      var m := EqualTo(cs, "name", dayName);
      if |m| == 0 then None else Some(m[0].key)
  }

  /**
   * `getCurrentDayTimetable`: when no day is named `dayName` (or the first
   * read is cancelled) the answer is null whatever the timetable holds, as
   * the second query is never issued; otherwise it is the timetable read
   * filtered by the first matching day's key.
   */
  function GetCurrentDayTimetable(days: Fetch<seq<Child>>, timetable: Fetch<seq<Child>>, dayName: string)
    : (r: Option<seq<Timetable>>)
    ensures GetDayIdByName(days, dayName).None? ==> r.None?
    ensures GetDayIdByName(days, dayName).Some? ==> (r.None? <==> timetable.Cancelled?)
    ensures r.Some? ==>
      exists i :: FirstWith(days.value, "name", dayName, i) &&
        forall t :: t in r.value <==> DecodesWhere(timetable.value, "dayId", days.value[i].key, DecodeTimetable, t)
  {
    match GetDayIdByName(days, dayName)
    case None => None
    case Some(dayId) => GetTimetable(timetable, dayId)
  }

  /** A day stored under key `k` with name `n` is found by `n` when it is the first so named, and its entries come back. */
  lemma CurrentDayFindsStoredDay(days: seq<Child>, i: nat, day: Day, timetable: seq<Child>, t: Timetable)
    requires i < |days| && days[i].doc == EncodeDay(day)
    requires forall j :: 0 <= j < i ==> !FieldIs(days[j].doc, "name", day.name)
    requires t.dayId == days[i].key && DecodesWhere(timetable, "dayId", t.dayId, DecodeTimetable, t)
    ensures GetDayIdByName(Loaded(days), day.name) == Some(days[i].key)
    ensures var r := GetCurrentDayTimetable(Loaded(days), Loaded(timetable), day.name); r.Some? && t in r.value
  {
    assert FieldIs(days[i].doc, "name", day.name);
    var k := GetDayIdByName(Loaded(days), day.name).value;
    var i' :| FirstWith(days, "name", day.name, i') && days[i'].key == k;
    assert i' == i;
  }

  // ---------------------------------------------------------------------
  // First-match user lookups

  function StrChildOrEmpty(d: Doc, f: string): string {
    StrChild(d, f).GetOr("")
  }

  /** The user `fetchUserDataByEmail` builds from a matching child: missing strings become "". */
  function UserFoundByEmail(d: Doc, email: string): User {
    User(StrChildOrEmpty(d, "id"), StrChildOrEmpty(d, "firstName"), StrChildOrEmpty(d, "lastName"),
         email, StrChildOrEmpty(d, "phoneNumber"), StrChildOrEmpty(d, "gender"))
  }

  /**
   * `fetchUserDataByEmail`: built from the first child whose `email` string
   * equals `email`; null when none does or the read is cancelled.
   */
  function FetchUserDataByEmail(users: Fetch<seq<Child>>, email: string): (r: Option<User>)
    ensures users.Cancelled? ==> r.None?
    ensures users.Loaded? ==> (r.None? <==> NoneWith(users.value, "email", email))
    ensures r.Some? ==> r.value.email == email
    ensures r.Some? ==>
      exists i :: FirstWith(users.value, "email", email, i) && r.value == UserFoundByEmail(users.value[i].doc, email)
  {
    match users
    case Cancelled => None
    case Loaded(cs) =>
      var m := EqualTo(cs, "email", email);
      if |m| == 0 then None else Some(UserFoundByEmail(m[0].doc, email))
  }

  /** A user written by `writeUsers` reads back whole by email when it is the first with that email. */
  lemma FetchByEmailRoundTrip(cs: seq<Child>, u: User, i: nat)
    requires i < |cs| && cs[i].doc == EncodeUser(u)
    requires forall j :: 0 <= j < i ==> !FieldIs(cs[j].doc, "email", u.email)
    ensures FetchUserDataByEmail(Loaded(cs), u.email) == Some(u)
  {
    assert FieldIs(cs[i].doc, "email", u.email);
    var r := FetchUserDataByEmail(Loaded(cs), u.email);
    var j :| FirstWith(cs, "email", u.email, j) && r.value == UserFoundByEmail(cs[j].doc, u.email);
    assert j == i;
  }

  /**
   * The user `fetchUserDataByAdmissionNumber` builds from a matching child:
   * the `id` is the admission number, and the email is read from the child
   * named "Email" (capital E), not "email".
   */
  function UserFoundByAdmissionNumber(d: Doc, admissionNumber: string): User {
    User(admissionNumber, StrChildOrEmpty(d, "firstName"), StrChildOrEmpty(d, "lastName"),
         StrChildOrEmpty(d, "Email"), StrChildOrEmpty(d, "phoneNumber"), StrChildOrEmpty(d, "gender"))
  }

  /** `fetchUserDataByAdmissionNumber`, as written: matches on `id`, takes the email from "Email". */
  function FetchUserDataByAdmissionNumber(users: Fetch<seq<Child>>, admissionNumber: string): (r: Option<User>)
    ensures users.Cancelled? ==> r.None?
    ensures users.Loaded? ==> (r.None? <==> NoneWith(users.value, "id", admissionNumber))
    ensures r.Some? ==> r.value.id == admissionNumber
    ensures r.Some? ==>
      exists i :: FirstWith(users.value, "id", admissionNumber, i) &&
        r.value == UserFoundByAdmissionNumber(users.value[i].doc, admissionNumber)
  {
    match users
    case Cancelled => None
    case Loaded(cs) =>
      var m := EqualTo(cs, "id", admissionNumber);
      if |m| == 0 then None else Some(UserFoundByAdmissionNumber(m[0].doc, admissionNumber))
  }

  /**
   * A user stored the way `writeUsers` stores it comes back from
   * `fetchUserDataByAdmissionNumber` with its email replaced by "": the
   * document has `email`, never `Email`.
   */
  lemma AdmissionLookupLosesEmail(cs: seq<Child>, u: User, i: nat)
    requires i < |cs| && cs[i].doc == EncodeUser(u)
    requires forall j :: 0 <= j < i ==> !FieldIs(cs[j].doc, "id", u.id)
    ensures FetchUserDataByAdmissionNumber(Loaded(cs), u.id) == Some(u.(email := ""))
    ensures u.email != "" ==> FetchUserDataByAdmissionNumber(Loaded(cs), u.id) != Some(u)
  {
    assert FieldIs(cs[i].doc, "id", u.id);
    var r := FetchUserDataByAdmissionNumber(Loaded(cs), u.id);
    var j :| FirstWith(cs, "id", u.id, j) && r.value == UserFoundByAdmissionNumber(cs[j].doc, u.id);
    assert j == i;
    assert "Email" !in EncodeUser(u);
  }

  /** The lookup by admission number as evidently intended: the email comes from `email`. */
  function UserFoundByAdmissionNumberIntended(d: Doc, admissionNumber: string): User {
    User(admissionNumber, StrChildOrEmpty(d, "firstName"), StrChildOrEmpty(d, "lastName"),
         StrChildOrEmpty(d, "email"), StrChildOrEmpty(d, "phoneNumber"), StrChildOrEmpty(d, "gender"))
  }

  function FetchUserDataByAdmissionNumberIntended(users: Fetch<seq<Child>>, admissionNumber: string)
    : (r: Option<User>)
    ensures users.Cancelled? ==> r.None?
    ensures users.Loaded? ==> (r.None? <==> NoneWith(users.value, "id", admissionNumber))
    ensures r.Some? ==> r.value.id == admissionNumber
    ensures r.Some? ==>
      exists i :: FirstWith(users.value, "id", admissionNumber, i) &&
        r.value == UserFoundByAdmissionNumberIntended(users.value[i].doc, admissionNumber)
  {
    match users
    case Cancelled => None
    case Loaded(cs) =>
      var m := EqualTo(cs, "id", admissionNumber);
      if |m| == 0 then None else Some(UserFoundByAdmissionNumberIntended(m[0].doc, admissionNumber))
  }

  /** With the intended field name, a user written by `writeUsers` reads back whole by admission number. */
  lemma AdmissionLookupIntendedRoundTrip(cs: seq<Child>, u: User, i: nat)
    requires i < |cs| && cs[i].doc == EncodeUser(u)
    requires forall j :: 0 <= j < i ==> !FieldIs(cs[j].doc, "id", u.id)
    ensures FetchUserDataByAdmissionNumberIntended(Loaded(cs), u.id) == Some(u)
  {
    assert FieldIs(cs[i].doc, "id", u.id);
    var r := FetchUserDataByAdmissionNumberIntended(Loaded(cs), u.id);
    var j :| FirstWith(cs, "id", u.id, j) && r.value == UserFoundByAdmissionNumberIntended(cs[j].doc, u.id);
    assert j == i;
  }

  // ---------------------------------------------------------------------
  // Single-node reads: `child(p).child(k).get()`

  /** `fetchPreferences`: null when the node is absent or the read fails. */
  function FetchPreferences(node: Fetch<Option<Doc>>): (r: Option<UserPreferences>)
    ensures node.Cancelled? || node == Loaded(None) ==> r.None?
    ensures forall p :: node == Loaded(Some(EncodeUserPreferences(p))) ==> r == Some(p)
  {
    match node
    case Loaded(Some(d)) => DecodeUserPreferences(d)
    case _ => None
  }

  /** `getScreenTime`: null when the node does not exist or the read fails. */
  function GetScreenTime(node: Fetch<Option<Doc>>): (r: Option<ScreenTime>)
    ensures node.Cancelled? || node == Loaded(None) ==> r.None?
    ensures forall st :: node == Loaded(Some(EncodeScreenTime(st))) ==> r == Some(st)
  {
    match node
    case Loaded(Some(d)) => DecodeScreenTime(d)
    case _ => None
  }

  /** `getScreenDetails`: null when the node does not exist or the read fails. */
  function GetScreenDetails(node: Fetch<Option<Doc>>): (r: Option<Screens>)
    ensures node.Cancelled? || node == Loaded(None) ==> r.None?
    ensures forall sc :: node == Loaded(Some(EncodeScreens(sc))) ==> r == Some(sc)
  {
    match node
    case Loaded(Some(d)) => DecodeScreens(d)
    case _ => None
  }

  /** `fetchAttendanceState`: null when the node is absent or the read is cancelled. */
  function FetchAttendanceState(node: Fetch<Option<Doc>>): (r: Option<AttendanceState>)
    ensures node.Cancelled? || node == Loaded(None) ==> r.None?
    ensures forall a :: node == Loaded(Some(EncodeAttendanceState(a))) ==> r == Some(a)
  {
    match node
    case Loaded(Some(d)) => DecodeAttendanceState(d)
    case _ => None
  }

  // ---------------------------------------------------------------------
  // Average rating

  /** The rating a child contributes: every readable feedback counts, a missing rating as 0. */
  function RatingOf(d: Doc): Option<int> {
    match DecodeFeedback(d)
    case Some(f) => Some(f.rating as int)
    case None => None
  }

  /** The ratings of the children, in order; None for a child that does not read as feedback. */
  function RatingsOf(cs: seq<Child>): (rs: seq<Option<int>>)
    ensures |rs| == |cs|
    ensures forall i :: 0 <= i < |cs| ==> (rs[i].None? <==> DecodeFeedback(cs[i].doc).None?)
    ensures forall i :: 0 <= i < |cs| && "rating" in cs[i].doc && rs[i].Some? ==> cs[i].doc["rating"] == Num(rs[i].value)
    ensures forall i :: 0 <= i < |cs| && "rating" !in cs[i].doc && DecodeFeedback(cs[i].doc).Some? ==> rs[i] == Some(0)
  {
    seq(|cs|, i requires 0 <= i < |cs| => RatingOf(cs[i].doc))
  }

  /** Sum of the present ratings. */
  function Sum(rs: seq<Option<int>>): int {
    if |rs| == 0 then 0 else Sum(rs[..|rs| - 1]) + rs[|rs| - 1].GetOr(0)
  }

  /** Number of present ratings. */
  function Count(rs: seq<Option<int>>): nat {
    if |rs| == 0 then 0 else Count(rs[..|rs| - 1]) + (if rs[|rs| - 1].Some? then 1 else 0)
  }

  /** The mean of the present ratings, 0 when there is none. */
  function Mean(rs: seq<Option<int>>): real {
    if Count(rs) == 0 then 0.0 else Sum(rs) as real / Count(rs) as real
  }

  /** The average `fetchAverageRating` reports, before formatting: 0 when nothing counts or the read fails. */
  function AverageRating(snap: Fetch<seq<Child>>): real {
    match snap
    case Cancelled => 0.0
    case Loaded(cs) => Mean(RatingsOf(cs))
  }

  /** `fetchAverageRating`'s loop: accumulates the total and the count over the children. */
  method FetchAverageRating(snap: Fetch<seq<Child>>) returns (average: real)
    ensures average == AverageRating(snap)
  {
    if snap.Cancelled? {
      return 0.0;
    }
    var cs := snap.value;
    ghost var rs := RatingsOf(cs);
    var totalRating: real := 0.0;
    var count: nat := 0;
    for i := 0 to |cs|
      invariant totalRating == Sum(rs[..i]) as real
      invariant count == Count(rs[..i])
    {
      assert rs[..i + 1][..i] == rs[..i];
      match RatingOf(cs[i].doc)
      case Some(rating) =>
        totalRating := totalRating + rating as real;
        count := count + 1;
      case None =>
    }
    assert rs[..|cs|] == rs;
    average := if count > 0 then totalRating / count as real else 0.0;
  }

  /** Sum and count bound each other the way every present rating is bounded. */
  lemma {:induction false} SumBounds(rs: seq<Option<int>>, lo: int, hi: int)
    requires forall i :: 0 <= i < |rs| && rs[i].Some? ==> lo <= rs[i].value <= hi
    ensures lo * Count(rs) <= Sum(rs) <= hi * Count(rs)
  {
    if |rs| > 0 {
      var n := |rs| - 1;
      var init := rs[..n];
      assert forall i :: 0 <= i < |init| ==> init[i] == rs[i];
      SumBounds(init, lo, hi);
      if rs[n].Some? {
        assert lo <= rs[n].value <= hi;
        ScaleStep(lo, Count(init));
        ScaleStep(hi, Count(init));
      }
    }
  }

  /** One more summand of `x`: the distributive step the bounds need. */
  lemma ScaleStep(x: int, n: int)
    ensures x * (n + 1) == x * n + x
  {
  }

  /** The mean of ratings that all lie in [lo, hi] lies in [lo, hi] too, once one is present. */
  lemma MeanBounds(rs: seq<Option<int>>, lo: int, hi: int)
    requires exists i :: 0 <= i < |rs| && rs[i].Some?
    requires forall i :: 0 <= i < |rs| && rs[i].Some? ==> lo <= rs[i].value <= hi
    ensures lo as real <= Mean(rs) <= hi as real
  {
    SumBounds(rs, lo, hi);
    CountPositive(rs);
    QuotientBounds(Sum(rs), Count(rs), lo, hi);
  }

  lemma QuotientBounds(s: int, n: int, lo: int, hi: int)
    requires n > 0 && lo * n <= s <= hi * n
    ensures lo as real <= s as real / n as real <= hi as real
  {
    assert lo as real * n as real <= s as real <= hi as real * n as real;
  }

  /** When every readable rating lies in [lo, hi] and at least one counts, so does the average. */
  lemma AverageWithinBounds(cs: seq<Child>, lo: int, hi: int)
    requires exists i :: 0 <= i < |cs| && RatingOf(cs[i].doc).Some?
    requires forall i :: 0 <= i < |cs| && RatingOf(cs[i].doc).Some? ==> lo <= RatingOf(cs[i].doc).value <= hi
    ensures lo as real <= AverageRating(Loaded(cs)) <= hi as real
  {
    var rs := RatingsOf(cs);
    var i :| 0 <= i < |cs| && RatingOf(cs[i].doc).Some?;
    assert rs[i].Some?;
    MeanBounds(rs, lo, hi);
  }

  /** A present rating makes the count positive. */
  lemma {:induction false} CountPositive(rs: seq<Option<int>>)
    ensures Count(rs) > 0 <==> exists i :: 0 <= i < |rs| && rs[i].Some?
  {
    if |rs| > 0 {
      var init := rs[..|rs| - 1];
      CountPositive(init);
      assert forall i :: 0 <= i < |init| ==> init[i] == rs[i];
    }
  }

  /**
   * Ratings 3, 4 and 5 plus one feedback without a rating average 3.0: the
   * feedback without a rating reads with rating 0 and counts.
   */
  lemma MissingRatingCountsAsZero()
    ensures var cs := [Child("a", map["rating" := Num(3)]), Child("b", map["rating" := Num(4)]),
                       Child("c", map["rating" := Num(5)]), Child("d", map["message" := Str("ok")])];
      Count(RatingsOf(cs)) == 4 && AverageRating(Loaded(cs)) == 3.0
  {
    var cs := [Child("a", map["rating" := Num(3)]), Child("b", map["rating" := Num(4)]),
               Child("c", map["rating" := Num(5)]), Child("d", map["message" := Str("ok")])];
    assert RatingOf(cs[0].doc) == Some(3);
    assert RatingOf(cs[1].doc) == Some(4);
    assert RatingOf(cs[2].doc) == Some(5);
    assert RatingOf(cs[3].doc) == Some(0);
    var rs := RatingsOf(cs);
    assert rs == [Some(3), Some(4), Some(5), Some(0)];
    assert rs[..3] == [Some(3), Some(4), Some(5)];
    assert rs[..3][..2] == [Some(3), Some(4)];
    assert rs[..3][..2][..1] == [Some(3)];
    assert rs[..3][..2][..1][..0] == [];
    assert Count(rs[..3][..2][..1]) == 1 && Sum(rs[..3][..2][..1]) == 3;
    assert Count(rs[..3][..2]) == 2 && Sum(rs[..3][..2]) == 7;
    assert Count(rs[..3]) == 3 && Sum(rs[..3]) == 12;
    assert Count(rs) == 4 && Sum(rs) == 12;
  }

  // ---------------------------------------------------------------------
  // Find and delete by value: `deleteItem`'s scan

  /** `i` is the first child whose document satisfies `p`. */
  predicate FirstSuch(cs: seq<Child>, p: Doc -> bool, i: int) {
    0 <= i < |cs| && p(cs[i].doc) && forall j :: 0 <= j < i ==> !p(cs[j].doc)
  }

  /** The children with the first one satisfying `p` left out. */
  function RemoveFirst(cs: seq<Child>, p: Doc -> bool): seq<Child> {
    if |cs| == 0 then []
    else if p(cs[0].doc) then cs[1..]
    else [cs[0]] + RemoveFirst(cs[1..], p)
  }

  /** Exactly the first match goes, every other child stays in order; with no match nothing changes. */
  lemma {:induction false} RemoveFirstSpec(cs: seq<Child>, p: Doc -> bool)
    ensures (forall j :: 0 <= j < |cs| ==> !p(cs[j].doc)) ==> RemoveFirst(cs, p) == cs
    ensures forall i :: FirstSuch(cs, p, i) ==> RemoveFirst(cs, p) == cs[..i] + cs[i + 1..]
  {
    if |cs| > 0 {
      RemoveFirstSpec(cs[1..], p);
      if !p(cs[0].doc) {
        forall i | FirstSuch(cs, p, i) ensures RemoveFirst(cs, p) == cs[..i] + cs[i + 1..] {
          assert FirstSuch(cs[1..], p, i - 1);
          assert [cs[0]] + (cs[1..][..i - 1] + cs[1..][i..]) == cs[..i] + cs[i + 1..];
        }
        if forall j :: 0 <= j < |cs| ==> !p(cs[j].doc) {
          assert forall j :: 0 <= j < |cs[1..]| ==> cs[1..][j] == cs[j + 1];
          assert [cs[0]] + cs[1..] == cs;
        }
      }
    }
  }

  /** One call removes one child when some child matches, none otherwise. */
  lemma {:induction false} RemoveFirstRemovesOne(cs: seq<Child>, p: Doc -> bool)
    ensures |RemoveFirst(cs, p)| == |cs| - (if exists j :: 0 <= j < |cs| && p(cs[j].doc) then 1 else 0)
  {
    if |cs| > 0 {
      RemoveFirstRemovesOne(cs[1..], p);
      if !p(cs[0].doc) {
        if exists j :: 0 <= j < |cs| && p(cs[j].doc) {
          var j :| 0 <= j < |cs| && p(cs[j].doc);
          assert p(cs[1..][j - 1].doc);
        }
        if exists j :: 0 <= j < |cs[1..]| && p(cs[1..][j].doc) {
          var j :| 0 <= j < |cs[1..]| && p(cs[1..][j].doc);
          assert p(cs[j + 1].doc);
        }
      }
    }
  }

  /** The test `deleteItem` applies to each child: it reads as a record equal to `item`. */
  function IsItem(item: GridItem): Doc -> bool {
    d => DecodeGridItem(d) == Some(item)
  }

  /** `deleteItem`'s loop: the position of the first child that reads as `item`, scanning in order. */
  method FindItem(cs: seq<Child>, item: GridItem) returns (found: Option<nat>)
    ensures found.Some? ==> FirstSuch(cs, IsItem(item), found.value)
    ensures found.None? ==> forall j :: 0 <= j < |cs| ==> DecodeGridItem(cs[j].doc) != Some(item)
  {
    for i := 0 to |cs|
      invariant forall j :: 0 <= j < i ==> DecodeGridItem(cs[j].doc) != Some(item)
    {
      if DecodeGridItem(cs[i].doc) == Some(item) {
        return Some(i);
      }
    }
    return None;
  }
}
