/**
 * The record classes the data-access layer stores, and how a record is
 * written to and read from a document. Writing stores every property under
 * its declared name. Reading a whole record maps the document back property
 * by property: a missing property keeps its declared default, extra fields
 * are ignored, and a value of the wrong type makes the record unreadable.
 */
module Records {
  import opened Wrappers
  import opened Store

  /** Kotlin `Int`. */
  newtype Int32 = x: int | -0x8000_0000 <= x < 0x8000_0000

  /** Kotlin `Long`. */
  newtype Int64 = x: int | -0x8000_0000_0000_0000 <= x < 0x8000_0000_0000_0000

  // ---------------------------------------------------------------------
  // Reading one property

  /** A `String` property: absent keeps `default`, a non-string fails. */
  function StrProp(d: Doc, f: string, default: string): Option<string> {
    if f !in d then Some(default)
    else match d[f]
      case Str(s) => Some(s)
      case _ => None
  }

  /** An `Int` property: absent keeps `default`; a number outside 32 bits or a non-number fails. */
  function IntProp(d: Doc, f: string, default: Int32): Option<Int32> {
    if f !in d then Some(default)
    else match d[f]
      case Num(n) => if -0x8000_0000 <= n < 0x8000_0000 then Some(n as Int32) else None
      case _ => None
  }

  /** A `Long` property: absent keeps `default`; a number outside 64 bits or a non-number fails. */
  function LongProp(d: Doc, f: string, default: Int64): Option<Int64> {
    if f !in d then Some(default)
    else match d[f]
      case Num(n) => if -0x8000_0000_0000_0000 <= n < 0x8000_0000_0000_0000 then Some(n as Int64) else None
      case _ => None
  }

  /** A `Boolean` property: absent keeps `default`, a non-boolean fails. */
  function BoolProp(d: Doc, f: string, default: bool): Option<bool> {
    if f !in d then Some(default)
    else match d[f]
      case Bool(b) => Some(b)
      case _ => None
  }

  /** `child(f).getValue(String::class.java)`: the string stored under `f`, or null. */
  function StrChild(d: Doc, f: string): Option<string> {
    if f in d && d[f].Str? then Some(d[f].s) else None
  }

  /** `child(f).getValue(Boolean::class.java)`: the boolean stored under `f`, or null. */
  function BoolChild(d: Doc, f: string): Option<bool> {
    if f in d && d[f].Bool? then Some(d[f].b) else None
  }

  // ---------------------------------------------------------------------
  // The record classes

  datatype User = User(id: string, firstName: string, lastName: string, email: string,
                       phoneNumber: string, gender: string)

  datatype GridItem = GridItem(title: string, description: string, thumbnail: string,
                               link: string, fileType: string)

  datatype Section = NOTES | PAST_PAPERS | RESOURCES

  datatype AccountDeletion = AccountDeletion(id: string, admissionNumber: string, email: string)

  datatype Message = Message(id: string, message: string, senderName: string, senderID: string,
                             time: string, date: string, recipientID: string)

  datatype Timetable = Timetable(id: string, startTime: string, endTime: string, unitName: string,
                                 venue: string, lecturer: string, dayId: string)

  datatype Feedback = Feedback(id: string, rating: Int32, message: string, sender: string,
                               admissionNumber: string)

  datatype Student = Student(id: string, firstName: string)

  datatype AttendanceRecord = AttendanceRecord(studentId: string, dayOfWeek: string,
                                               isPresent: bool, lesson: string)

  datatype AttendanceState = AttendanceState(courseID: string, courseName: string, state: bool)

  datatype Assignment = Assignment(id: string, name: string, description: string,
                                   dueDate: string, courseCode: string)

  datatype Day = Day(id: string, name: string)

  datatype Announcement = Announcement(id: string, date: string, title: string,
                                       description: string, author: string)

  datatype Fcm = Fcm(id: string, token: string)

  datatype Course = Course(courseCode: string, courseName: string, visits: Int32)

  datatype ScreenTime = ScreenTime(id: string, screenName: string, time: Int64)

  datatype Screens = Screens(screenId: string, screenName: string)

  datatype Chat = Chat(id: string, message: string, senderName: string, senderID: string,
                       time: string, date: string)

  /** The shared counter node. */
  datatype MyCode = MyCode(id: string, code: Int32)

  datatype UserPreferences = UserPreferences(studentID: string, id: string, profileImageLink: string,
                                             biometrics: string, darkMode: string,
                                             notifications: string)

  /** `Section.name`, the path segment of a course-resource section. */
  function SectionName(s: Section): string {
    match s
    case NOTES => "NOTES"
    case PAST_PAPERS => "PAST_PAPERS"
    case RESOURCES => "RESOURCES"
  }

  /** The three sections live under three different paths. */
  lemma SectionNamesDistinct(s: Section, t: Section)
    ensures SectionName(s) == SectionName(t) ==> s == t
  {
  }

  // ---------------------------------------------------------------------
  // Writing and reading each record; every write reads back as itself.

  function DecodeUser(d: Doc): Option<User> {
    var id :- StrProp(d, "id", "");
    var firstName :- StrProp(d, "firstName", "");
    var lastName :- StrProp(d, "lastName", "");
    var email :- StrProp(d, "email", "");
    var phoneNumber :- StrProp(d, "phoneNumber", "");
    var gender :- StrProp(d, "gender", "");
    Some(User(id, firstName, lastName, email, phoneNumber, gender))
  }

  function EncodeUser(u: User): (d: Doc)
    ensures DecodeUser(d) == Some(u)
  {
    map["id" := Str(u.id), "firstName" := Str(u.firstName), "lastName" := Str(u.lastName),
        "email" := Str(u.email), "phoneNumber" := Str(u.phoneNumber), "gender" := Str(u.gender)]
  }

  function DecodeGridItem(d: Doc): Option<GridItem> {
    var title :- StrProp(d, "title", "");
    var description :- StrProp(d, "description", "");
    var thumbnail :- StrProp(d, "thumbnail", "");
    var link :- StrProp(d, "link", "");
    var fileType :- StrProp(d, "fileType", "image");
    Some(GridItem(title, description, thumbnail, link, fileType))
  }

  function EncodeGridItem(g: GridItem): (d: Doc)
    ensures DecodeGridItem(d) == Some(g)
  {
    map["title" := Str(g.title), "description" := Str(g.description), "thumbnail" := Str(g.thumbnail),
        "link" := Str(g.link), "fileType" := Str(g.fileType)]
  }

  function DecodeAccountDeletion(d: Doc): Option<AccountDeletion> {
    var id :- StrProp(d, "id", "");
    var admissionNumber :- StrProp(d, "admissionNumber", "");
    var email :- StrProp(d, "email", "");
    Some(AccountDeletion(id, admissionNumber, email))
  }

  function EncodeAccountDeletion(a: AccountDeletion): (d: Doc)
    ensures DecodeAccountDeletion(d) == Some(a)
  {
    map["id" := Str(a.id), "admissionNumber" := Str(a.admissionNumber), "email" := Str(a.email)]
  }

  function DecodeMessage(d: Doc): Option<Message> {
    var id :- StrProp(d, "id", "");
    var message :- StrProp(d, "message", "");
    var senderName :- StrProp(d, "senderName", "");
    var senderID :- StrProp(d, "senderID", "");
    var time :- StrProp(d, "time", "");
    var date :- StrProp(d, "date", "");
    var recipientID :- StrProp(d, "recipientID", "");
    Some(Message(id, message, senderName, senderID, time, date, recipientID))
  }

  function EncodeMessage(m: Message): (d: Doc)
    ensures DecodeMessage(d) == Some(m)
  {
    map["id" := Str(m.id), "message" := Str(m.message), "senderName" := Str(m.senderName),
        "senderID" := Str(m.senderID), "time" := Str(m.time), "date" := Str(m.date),
        "recipientID" := Str(m.recipientID)]
  }

  /** A readable timetable entry carries the document's `dayId`, or "" when it has none. */
  function DecodeTimetable(d: Doc): (r: Option<Timetable>)
    ensures r.Some? && "dayId" in d ==> d["dayId"] == Str(r.value.dayId)
    ensures r.Some? && "dayId" !in d ==> r.value.dayId == ""
  {
    var id :- StrProp(d, "id", "");
    var startTime :- StrProp(d, "startTime", "");
    var endTime :- StrProp(d, "endTime", "");
    var unitName :- StrProp(d, "unitName", "");
    var venue :- StrProp(d, "venue", "");
    var lecturer :- StrProp(d, "lecturer", "");
    var dayId :- StrProp(d, "dayId", "");
    Some(Timetable(id, startTime, endTime, unitName, venue, lecturer, dayId))
  }

  function EncodeTimetable(t: Timetable): (d: Doc)
    ensures DecodeTimetable(d) == Some(t)
  {
    map["id" := Str(t.id), "startTime" := Str(t.startTime), "endTime" := Str(t.endTime),
        "unitName" := Str(t.unitName), "venue" := Str(t.venue), "lecturer" := Str(t.lecturer),
        "dayId" := Str(t.dayId)]
  }

  /** A readable feedback whose document has no `rating` has rating 0: it is not unreadable. */
  function DecodeFeedback(d: Doc): (r: Option<Feedback>)
    ensures r.Some? && "rating" in d ==> d["rating"] == Num(r.value.rating as int)
    ensures r.Some? && "rating" !in d ==> r.value.rating == 0
  {
    var id :- StrProp(d, "id", "");
    var rating :- IntProp(d, "rating", 0);
    var message :- StrProp(d, "message", "");
    var sender :- StrProp(d, "sender", "");
    var admissionNumber :- StrProp(d, "admissionNumber", "");
    Some(Feedback(id, rating, message, sender, admissionNumber))
  }

  function EncodeFeedback(f: Feedback): (d: Doc)
    ensures DecodeFeedback(d) == Some(f)
  {
    map["id" := Str(f.id), "rating" := Num(f.rating as int), "message" := Str(f.message),
        "sender" := Str(f.sender), "admissionNumber" := Str(f.admissionNumber)]
  }

  /**
   * Writing an attendance record. The mapper names each property after its
   * getter; the getter of the Boolean property `isPresent` is `isPresent()`,
   * whose `is` prefix the mapper drops, so the flag is stored as `present`
   * and there is no child named `isPresent`.
   */
  function EncodeAttendanceRecord(a: AttendanceRecord): (d: Doc)
    ensures StrChild(d, "studentId") == Some(a.studentId) && StrChild(d, "dayOfWeek") == Some(a.dayOfWeek)
    ensures BoolChild(d, "present") == Some(a.isPresent) && StrChild(d, "lesson") == Some(a.lesson)
    ensures "isPresent" !in d
  {
    map["studentId" := Str(a.studentId), "dayOfWeek" := Str(a.dayOfWeek),
        "present" := Bool(a.isPresent), "lesson" := Str(a.lesson)]
  }

  function DecodeAttendanceState(d: Doc): Option<AttendanceState> {
    var courseID :- StrProp(d, "courseID", "");
    var courseName :- StrProp(d, "courseName", "");
    var state :- BoolProp(d, "state", false);
    Some(AttendanceState(courseID, courseName, state))
  }

  function EncodeAttendanceState(a: AttendanceState): (d: Doc)
    ensures DecodeAttendanceState(d) == Some(a)
  {
    map["courseID" := Str(a.courseID), "courseName" := Str(a.courseName), "state" := Bool(a.state)]
  }

  /** A readable assignment carries the document's `courseCode`, or "" when it has none. */
  function DecodeAssignment(d: Doc): (r: Option<Assignment>)
    ensures r.Some? && "courseCode" in d ==> d["courseCode"] == Str(r.value.courseCode)
    ensures r.Some? && "courseCode" !in d ==> r.value.courseCode == ""
  {
    var id :- StrProp(d, "id", "");
    var name :- StrProp(d, "name", "");
    var description :- StrProp(d, "description", "");
    var dueDate :- StrProp(d, "dueDate", "");
    var courseCode :- StrProp(d, "courseCode", "");
    Some(Assignment(id, name, description, dueDate, courseCode))
  }

  function EncodeAssignment(a: Assignment): (d: Doc)
    ensures DecodeAssignment(d) == Some(a)
  {
    map["id" := Str(a.id), "name" := Str(a.name), "description" := Str(a.description),
        "dueDate" := Str(a.dueDate), "courseCode" := Str(a.courseCode)]
  }

  function DecodeDay(d: Doc): Option<Day> {
    var id :- StrProp(d, "id", "");
    var name :- StrProp(d, "name", "");
    Some(Day(id, name))
  }

  function EncodeDay(day: Day): (d: Doc)
    ensures DecodeDay(d) == Some(day)
    ensures StrChild(d, "name") == Some(day.name)
  {
    map["id" := Str(day.id), "name" := Str(day.name)]
  }

  function DecodeAnnouncement(d: Doc): Option<Announcement> {
    var id :- StrProp(d, "id", "");
    var date :- StrProp(d, "date", "");
    var title :- StrProp(d, "title", "");
    var description :- StrProp(d, "description", "");
    var author :- StrProp(d, "author", "");
    Some(Announcement(id, date, title, description, author))
  }

  function EncodeAnnouncement(a: Announcement): (d: Doc)
    ensures DecodeAnnouncement(d) == Some(a)
  {
    map["id" := Str(a.id), "date" := Str(a.date), "title" := Str(a.title),
        "description" := Str(a.description), "author" := Str(a.author)]
  }

  function DecodeFcm(d: Doc): Option<Fcm> {
    var id :- StrProp(d, "id", "");
    var token :- StrProp(d, "token", "");
    Some(Fcm(id, token))
  }

  function EncodeFcm(f: Fcm): (d: Doc)
    ensures DecodeFcm(d) == Some(f)
  {
    map["id" := Str(f.id), "token" := Str(f.token)]
  }

  function DecodeCourse(d: Doc): Option<Course> {
    var courseCode :- StrProp(d, "courseCode", "");
    var courseName :- StrProp(d, "courseName", "");
    var visits :- IntProp(d, "visits", 0);
    Some(Course(courseCode, courseName, visits))
  }

  function EncodeCourse(c: Course): (d: Doc)
    ensures DecodeCourse(d) == Some(c)
  {
    map["courseCode" := Str(c.courseCode), "courseName" := Str(c.courseName), "visits" := Num(c.visits as int)]
  }

  function DecodeScreenTime(d: Doc): Option<ScreenTime> {
    var id :- StrProp(d, "id", "");
    var screenName :- StrProp(d, "screenName", "");
    var time :- LongProp(d, "time", 0);
    Some(ScreenTime(id, screenName, time))
  }

  function EncodeScreenTime(s: ScreenTime): (d: Doc)
    ensures DecodeScreenTime(d) == Some(s)
  {
    map["id" := Str(s.id), "screenName" := Str(s.screenName), "time" := Num(s.time as int)]
  }

  function DecodeScreens(d: Doc): Option<Screens> {
    var screenId :- StrProp(d, "screenId", "");
    var screenName :- StrProp(d, "screenName", "");
    Some(Screens(screenId, screenName))
  }

  function EncodeScreens(s: Screens): (d: Doc)
    ensures DecodeScreens(d) == Some(s)
  {
    map["screenId" := Str(s.screenId), "screenName" := Str(s.screenName)]
  }

  function DecodeChat(d: Doc): Option<Chat> {
    var id :- StrProp(d, "id", "");
    var message :- StrProp(d, "message", "");
    var senderName :- StrProp(d, "senderName", "");
    var senderID :- StrProp(d, "senderID", "");
    var time :- StrProp(d, "time", "");
    var date :- StrProp(d, "date", "");
    Some(Chat(id, message, senderName, senderID, time, date))
  }

  function EncodeChat(c: Chat): (d: Doc)
    ensures DecodeChat(d) == Some(c)
  {
    map["id" := Str(c.id), "message" := Str(c.message), "senderName" := Str(c.senderName),
        "senderID" := Str(c.senderID), "time" := Str(c.time), "date" := Str(c.date)]
  }

  /**
   * Reading the counter node. `MyCode`'s `id` defaults to a random UUID,
   * which the model takes as the parameter `freshId`.
   */
  function DecodeMyCode(d: Doc, freshId: string): (r: Option<MyCode>)
    ensures r.Some? && "code" !in d ==> r.value.code == 0
    ensures r.Some? && "id" !in d ==> r.value.id == freshId
  {
    var id :- StrProp(d, "id", freshId);
    var code :- IntProp(d, "code", 0);
    Some(MyCode(id, code))
  }

  function EncodeMyCode(c: MyCode): (d: Doc)
    ensures forall freshId :: DecodeMyCode(d, freshId) == Some(c)
  {
    map["id" := Str(c.id), "code" := Num(c.code as int)]
  }

  function DecodeUserPreferences(d: Doc): Option<UserPreferences> {
    var studentID :- StrProp(d, "studentID", "");
    var id :- StrProp(d, "id", "");
    var profileImageLink :- StrProp(d, "profileImageLink", "");
    var biometrics :- StrProp(d, "biometrics", "disabled");
    var darkMode :- StrProp(d, "darkMode", "disabled");
    var notifications :- StrProp(d, "notifications", "disabled");
    Some(UserPreferences(studentID, id, profileImageLink, biometrics, darkMode, notifications))
  }

  function EncodeUserPreferences(p: UserPreferences): (d: Doc)
    ensures DecodeUserPreferences(d) == Some(p)
  {
    map["studentID" := Str(p.studentID), "id" := Str(p.id), "profileImageLink" := Str(p.profileImageLink),
        "biometrics" := Str(p.biometrics), "darkMode" := Str(p.darkMode),
        "notifications" := Str(p.notifications)]
  }
}
