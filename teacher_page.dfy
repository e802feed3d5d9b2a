/**
 * components/pages/TeacherPage.js: the class sessions with their scanner
 * switches, the filtered attendance table, the overview statistics and the
 * choice between the page, a student's detail page and the profile page.
 */
module TeacherPage {
  import opened Wrappers
  import opened Text
  import opened Sequences

  datatype ClassSession = ClassSession(
    id: string, subject: string, time: string, room: string,
    totalStudents: int, presentStudents: int, scannerEnabled: bool)

  datatype AttendanceRecord = AttendanceRecord(
    id: string, studentName: string, studentId: string,
    date: string, time: string, status: string, subject: string)

  /** The dates the "today" and "yesterday" filters stand for. */
  const Today := "2024-01-20"
  const Yesterday := "2024-01-19"

  /** The sessions the page starts with. */
  const InitialSessions: seq<ClassSession> := [
    ClassSession("1", "Mathematics", "10:00 AM", "Room 301", 35, 28, false),
    ClassSession("2", "Physics", "11:30 AM", "Lab 201", 30, 25, false),
    ClassSession("3", "Chemistry", "2:00 PM", "Lab 105", 28, 22, false)
  ]

  /** The attendance table the page filters. */
  const AttendanceRecords: seq<AttendanceRecord> := [
    AttendanceRecord("1", "Alice Johnson", "ST001", "2024-01-20", "09:15", "present", "Mathematics"),
    AttendanceRecord("2", "Bob Smith", "ST002", "2024-01-20", "09:18", "present", "Mathematics"),
    AttendanceRecord("3", "Carol Davis", "ST003", "2024-01-20", "09:22", "present", "Mathematics"),
    AttendanceRecord("4", "David Wilson", "ST004", "2024-01-20", "-", "absent", "Mathematics"),
    AttendanceRecord("5", "Emma Brown", "ST005", "2024-01-20", "09:25", "present", "Mathematics"),
    AttendanceRecord("6", "Frank Miller", "ST006", "2024-01-19", "11:35", "present", "Physics"),
    AttendanceRecord("7", "Grace Lee", "ST007", "2024-01-19", "11:40", "present", "Physics"),
    AttendanceRecord("8", "Henry Clark", "ST008", "2024-01-19", "-", "absent", "Physics")
  ]

  // ---------------------------------------------------------------- toggles

  /**
   * `handleGlobalScannerToggle`'s new list: every session with its switch set
   * to `enabled`; length, order and every other field are kept.
   */
  function WithAllScanners(sessions: seq<ClassSession>, enabled: bool): (r: seq<ClassSession>)
    ensures |r| == |sessions|
    ensures forall i :: 0 <= i < |sessions| ==>
      r[i].scannerEnabled == enabled && r[i].(scannerEnabled := sessions[i].scannerEnabled) == sessions[i]
  {
    seq(|sessions|, i requires 0 <= i < |sessions| => sessions[i].(scannerEnabled := enabled))
  }

  /**
   * `handleClassScannerToggle`'s new list: the sessions with id `classId` get
   * the switch value, the others are kept as they were.
   */
  function WithClassScanner(sessions: seq<ClassSession>, classId: string, enabled: bool): (r: seq<ClassSession>)
    ensures |r| == |sessions|
    ensures forall i :: 0 <= i < |sessions| && sessions[i].id != classId ==> r[i] == sessions[i]
    ensures forall i :: 0 <= i < |sessions| && sessions[i].id == classId ==>
      r[i].scannerEnabled == enabled && r[i].(scannerEnabled := sessions[i].scannerEnabled) == sessions[i]
  {
    seq(|sessions|, i requires 0 <= i < |sessions| =>
      if sessions[i].id == classId then sessions[i].(scannerEnabled := enabled) else sessions[i])
  }

  /** Switching a class nobody has leaves the list as it was. */
  lemma ClassToggleUnknownId(sessions: seq<ClassSession>, classId: string, enabled: bool)
    requires forall s :: s in sessions ==> s.id != classId
    ensures WithClassScanner(sessions, classId, enabled) == sessions
  {
    var r := WithClassScanner(sessions, classId, enabled);
    forall i | 0 <= i < |sessions| ensures r[i] == sessions[i] {
      assert sessions[i] in sessions;
    }
  }

  // ------------------------------------------------------------------ stats

  /** How many sessions have their scanner on; never more than there are sessions. */
  function CountEnabled(sessions: seq<ClassSession>): (n: nat)
    ensures n <= |sessions|
  {
    if |sessions| == 0 then 0
    else (if sessions[0].scannerEnabled then 1 else 0) + CountEnabled(sessions[1..])
  }

  /** The `reduce` over the sessions' total students; no session with a negative count, no negative sum. */
  function SumTotal(sessions: seq<ClassSession>): (n: int)
    ensures (forall i :: 0 <= i < |sessions| ==> sessions[i].totalStudents >= 0) ==> n >= 0
  {
    if |sessions| == 0 then 0 else sessions[0].totalStudents + SumTotal(sessions[1..])
  }

  /** The `reduce` over the sessions' present students; no session with a negative count, no negative sum. */
  function SumPresent(sessions: seq<ClassSession>): (n: int)
    ensures (forall i :: 0 <= i < |sessions| ==> sessions[i].presentStudents >= 0) ==> n >= 0
  {
    if |sessions| == 0 then 0 else sessions[0].presentStudents + SumPresent(sessions[1..])
  }

  datatype Stats = Stats(totalClasses: nat, activeClasses: nat, totalStudents: int, presentStudents: int)

  /** `overallStats`; in every state there are no more active classes than classes. */
  function OverallStats(sessions: seq<ClassSession>): (st: Stats)
    ensures st.activeClasses <= st.totalClasses
  {
    Stats(|sessions|, CountEnabled(sessions), SumTotal(sessions), SumPresent(sessions))
  }

  /** After the global switch, either every class is active or none is; the student sums stay. */
  lemma {:induction false} StatsAfterGlobalToggle(sessions: seq<ClassSession>, enabled: bool)
    ensures OverallStats(WithAllScanners(sessions, enabled)).totalClasses == |sessions|
    ensures OverallStats(WithAllScanners(sessions, enabled)).activeClasses == if enabled then |sessions| else 0
    ensures OverallStats(WithAllScanners(sessions, enabled)).totalStudents == SumTotal(sessions)
    ensures OverallStats(WithAllScanners(sessions, enabled)).presentStudents == SumPresent(sessions)
    decreases |sessions|
  {
    if |sessions| > 0 {
      StatsAfterGlobalToggle(sessions[1..], enabled);
      assert WithAllScanners(sessions, enabled)[1..] == WithAllScanners(sessions[1..], enabled);
    }
  }

  /** A class switch leaves the student sums as they were. */
  lemma {:induction false} SumsAfterClassToggle(sessions: seq<ClassSession>, classId: string, enabled: bool)
    ensures SumTotal(WithClassScanner(sessions, classId, enabled)) == SumTotal(sessions)
    ensures SumPresent(WithClassScanner(sessions, classId, enabled)) == SumPresent(sessions)
    decreases |sessions|
  {
    if |sessions| > 0 {
      SumsAfterClassToggle(sessions[1..], classId, enabled);
      assert WithClassScanner(sessions, classId, enabled)[1..] == WithClassScanner(sessions[1..], classId, enabled);
    }
  }

  /** If no session has more present than enrolled students, neither has the whole. */
  lemma {:induction false} PresentAtMostTotal(sessions: seq<ClassSession>)
    requires forall s :: s in sessions ==> s.presentStudents <= s.totalStudents
    ensures SumPresent(sessions) <= SumTotal(sessions)
    decreases |sessions|
  {
    if |sessions| > 0 {
      assert sessions[0] in sessions;
      assert forall s :: s in sessions[1..] ==> s in sessions;
      PresentAtMostTotal(sessions[1..]);
    }
  }

  /** The figures the page opens with. */
  lemma InitialStats()
    ensures OverallStats(InitialSessions) == Stats(3, 0, 93, 75)
  {
    assert InitialSessions[1..][1..][1..] == [];
  }

  // ----------------------------------------------------------------- filter

  /** The search box matches the student's name or id, both sides lower-cased. */
  predicate MatchesSearch(r: AttendanceRecord, term: string) {
    Contains(ToLower(r.studentName), ToLower(term)) || Contains(ToLower(r.studentId), ToLower(term))
  }

  predicate MatchesClass(r: AttendanceRecord, selectedClass: string) {
    selectedClass == "all" || r.subject == selectedClass
  }

  /** "all", "today" and "yesterday" are the only date choices that let a record through. */
  predicate MatchesDate(r: AttendanceRecord, selectedDate: string) {
    || selectedDate == "all"
    || (selectedDate == "today" && r.date == Today)
    || (selectedDate == "yesterday" && r.date == Yesterday)
  }

  predicate Matches(r: AttendanceRecord, term: string, selectedClass: string, selectedDate: string) {
    MatchesSearch(r, term) && MatchesClass(r, selectedClass) && MatchesDate(r, selectedDate)
  }

  /** `filteredRecords`: the table's `filter` by `Matches`. */
  function FilterRecords(records: seq<AttendanceRecord>, term: string, selectedClass: string, selectedDate: string)
    : (r: seq<AttendanceRecord>)
    ensures |r| <= |records|
    ensures forall i :: 0 <= i < |r| ==> Matches(r[i], term, selectedClass, selectedDate)
    decreases |records|
  {
    if |records| == 0 then []
    else
      var rest := FilterRecords(records[1..], term, selectedClass, selectedDate);
      if Matches(records[0], term, selectedClass, selectedDate) then [records[0]] + rest else rest
  }

  /**
   * The filtered table holds the matching records, in table order, each as
   * often as in the table, and nothing else.
   */
  lemma {:induction false} FilterSpec(records: seq<AttendanceRecord>, term: string,
                                      selectedClass: string, selectedDate: string)
    ensures IsSubsequence(FilterRecords(records, term, selectedClass, selectedDate), records)
    ensures forall x :: x in FilterRecords(records, term, selectedClass, selectedDate) <==>
      x in records && Matches(x, term, selectedClass, selectedDate)
    ensures forall x :: (multiset(FilterRecords(records, term, selectedClass, selectedDate))[x] ==
      if Matches(x, term, selectedClass, selectedDate) then multiset(records)[x] else 0)
    decreases |records|
  {
    if |records| > 0 {
      var rest := FilterRecords(records[1..], term, selectedClass, selectedDate);
      FilterSpec(records[1..], term, selectedClass, selectedDate);
      assert records == [records[0]] + records[1..];
      if Matches(records[0], term, selectedClass, selectedDate) {
        assert ([records[0]] + rest)[1..] == rest;
      }
    }
  }

  /** With an empty search, a record matches exactly when its class and date do. */
  lemma MatchesEmptySearch(x: AttendanceRecord, selectedClass: string, selectedDate: string)
    ensures Matches(x, "", selectedClass, selectedDate) <==>
      MatchesClass(x, selectedClass) && MatchesDate(x, selectedDate)
  {
    ContainsEmpty(ToLower(x.studentName));
  }

  /** A table whose every record matches is shown whole. */
  lemma {:induction false} FilterKeepsMatching(records: seq<AttendanceRecord>, term: string,
                                               selectedClass: string, selectedDate: string)
    requires forall x :: x in records ==> Matches(x, term, selectedClass, selectedDate)
    ensures FilterRecords(records, term, selectedClass, selectedDate) == records
    decreases |records|
  {
    if |records| > 0 {
      assert records[0] in records;
      assert forall x :: x in records[1..] ==> x in records;
      FilterKeepsMatching(records[1..], term, selectedClass, selectedDate);
    }
  }

  /** A table none of whose records matches shows nothing. */
  lemma {:induction false} FilterDropsUnmatched(records: seq<AttendanceRecord>, term: string,
                                                selectedClass: string, selectedDate: string)
    requires forall x :: x in records ==> !Matches(x, term, selectedClass, selectedDate)
    ensures FilterRecords(records, term, selectedClass, selectedDate) == []
    decreases |records|
  {
    if |records| > 0 {
      assert records[0] in records;
      assert forall x :: x in records[1..] ==> x in records;
      FilterDropsUnmatched(records[1..], term, selectedClass, selectedDate);
    }
  }

  /** One step of the filter: the first record if it matches, then the filtered rest. */
  lemma FilterStep(records: seq<AttendanceRecord>, term: string, selectedClass: string, selectedDate: string)
    requires |records| > 0
    ensures FilterRecords(records, term, selectedClass, selectedDate)
         == (if Matches(records[0], term, selectedClass, selectedDate) then [records[0]] else [])
            + FilterRecords(records[1..], term, selectedClass, selectedDate)
  {
  }

  /** Filtering a concatenation filters each part. */
  lemma {:induction false} FilterAppend(a: seq<AttendanceRecord>, b: seq<AttendanceRecord>, term: string,
                                        selectedClass: string, selectedDate: string)
    ensures FilterRecords(a + b, term, selectedClass, selectedDate)
         == FilterRecords(a, term, selectedClass, selectedDate) + FilterRecords(b, term, selectedClass, selectedDate)
    decreases |a|
  {
    if |a| > 0 {
      var head := if Matches(a[0], term, selectedClass, selectedDate) then [a[0]] else [];
      calc {
        FilterRecords(a + b, term, selectedClass, selectedDate);
      == { assert (a + b)[0] == a[0] && (a + b)[1..] == a[1..] + b;
           FilterStep(a + b, term, selectedClass, selectedDate); }
        head + FilterRecords(a[1..] + b, term, selectedClass, selectedDate);
      == { FilterAppend(a[1..], b, term, selectedClass, selectedDate); }
        head + (FilterRecords(a[1..], term, selectedClass, selectedDate)
                + FilterRecords(b, term, selectedClass, selectedDate));
      == { FilterStep(a, term, selectedClass, selectedDate); }
        FilterRecords(a, term, selectedClass, selectedDate) + FilterRecords(b, term, selectedClass, selectedDate);
      }
    } else {
      assert a + b == b;
    }
  }

  /** With an empty search and "all" for class and date, every record is shown. */
  lemma FilterShowsAll(records: seq<AttendanceRecord>)
    ensures FilterRecords(records, "", "all", "all") == records
  {
    forall x | x in records ensures Matches(x, "", "all", "all") {
      MatchesEmptySearch(x, "all", "all");
    }
    FilterKeepsMatching(records, "", "all", "all");
  }

  /** A date choice other than "all", "today" and "yesterday" shows nothing. */
  lemma FilterUnknownDate(records: seq<AttendanceRecord>, term: string, selectedClass: string, selectedDate: string)
    requires selectedDate !in {"all", "today", "yesterday"}
    ensures FilterRecords(records, term, selectedClass, selectedDate) == []
  {
    FilterDropsUnmatched(records, term, selectedClass, selectedDate);
  }

  /** The search ignores case: typing the term in lower case changes nothing. */
  lemma {:induction false} FilterIgnoresCase(records: seq<AttendanceRecord>, term: string,
                                             selectedClass: string, selectedDate: string)
    ensures FilterRecords(records, ToLower(term), selectedClass, selectedDate)
         == FilterRecords(records, term, selectedClass, selectedDate)
    decreases |records|
  {
    ToLowerIdempotent(term);
    if |records| > 0 {
      FilterIgnoresCase(records[1..], term, selectedClass, selectedDate);
    }
  }

  /** The page opens on today's records. */
  lemma DefaultFilter()
    ensures FilterRecords(AttendanceRecords, "", "all", "today") == AttendanceRecords[..5]
  {
    var rs := AttendanceRecords;
    forall x | x in rs[..5] ensures Matches(x, "", "all", "today") {
      MatchesEmptySearch(x, "all", "today");
    }
    FilterKeepsMatching(rs[..5], "", "all", "today");
    forall x | x in rs[5..] ensures !Matches(x, "", "all", "today") {
      MatchesEmptySearch(x, "all", "today");
    }
    FilterDropsUnmatched(rs[5..], "", "all", "today");
    assert rs == rs[..5] + rs[5..];
    FilterAppend(rs[..5], rs[5..], "", "all", "today");
  }

  // ------------------------------------------------------------------- view

  datatype TeacherView = StudentDetail(studentId: string) | ProfileView | SessionsView

  /** What the page renders: a selected student first, then the profile, else the page itself. */
  function CurrentView(selectedStudentId: Option<string>, showProfile: bool): (v: TeacherView)
    ensures v.StudentDetail? <==> selectedStudentId.Some? && selectedStudentId.value != ""
    ensures v.StudentDetail? ==> v.studentId == selectedStudentId.value
    ensures v == ProfileView <==> showProfile && (selectedStudentId.None? || selectedStudentId.value == "")
    ensures v == SessionsView <==> !showProfile && (selectedStudentId.None? || selectedStudentId.value == "")
  {
    if selectedStudentId.Some? && selectedStudentId.value != "" then StudentDetail(selectedStudentId.value)
    else if showProfile then ProfileView
    else SessionsView
  }

  /** The page component's state. */
  class TeacherPageState {
    var globalScannerEnabled: bool
    var selectedClass: string
    var selectedDate: string
    var searchTerm: string
    var selectedStudentId: Option<string>
    var showProfile: bool
    var classSessions: seq<ClassSession>

    /** The page as first rendered. */
    constructor ()
      ensures !globalScannerEnabled && selectedClass == "all" && selectedDate == "today" && searchTerm == ""
      ensures selectedStudentId == None && !showProfile && classSessions == InitialSessions
    {
      globalScannerEnabled := false;
      selectedClass := "all";
      selectedDate := "today";
      searchTerm := "";
      selectedStudentId := None;
      showProfile := false;
      classSessions := InitialSessions;
    }

    function Stats(): Stats
      reads this
    {
      OverallStats(classSessions)
    }

    function FilteredRecords(): seq<AttendanceRecord>
      reads this
    {
      FilterRecords(AttendanceRecords, searchTerm, selectedClass, selectedDate)
    }

    function View(): TeacherView
      reads this
    {
      CurrentView(selectedStudentId, showProfile)
    }

    /** `handleGlobalScannerToggle`: the flag and every session's switch follow `enabled`. */
    method GlobalScannerToggle(enabled: bool)
      modifies this
      ensures globalScannerEnabled == enabled
      ensures classSessions == WithAllScanners(old(classSessions), enabled)
      ensures Stats().activeClasses == if enabled then Stats().totalClasses else 0
      ensures Stats().totalStudents == old(Stats().totalStudents)
      ensures Stats().presentStudents == old(Stats().presentStudents)
      ensures selectedClass == old(selectedClass) && selectedDate == old(selectedDate)
      ensures searchTerm == old(searchTerm)
      ensures selectedStudentId == old(selectedStudentId) && showProfile == old(showProfile)
    {
      StatsAfterGlobalToggle(classSessions, enabled);
      globalScannerEnabled := enabled;
      classSessions := WithAllScanners(classSessions, enabled);
    }

    /** `handleClassScannerToggle`: only the sessions with that id change. */
    method ClassScannerToggle(classId: string, enabled: bool)
      modifies this
      ensures classSessions == WithClassScanner(old(classSessions), classId, enabled)
      ensures Stats().totalStudents == old(Stats().totalStudents)
      ensures Stats().presentStudents == old(Stats().presentStudents)
      ensures globalScannerEnabled == old(globalScannerEnabled)
      ensures selectedClass == old(selectedClass) && selectedDate == old(selectedDate)
      ensures searchTerm == old(searchTerm)
      ensures selectedStudentId == old(selectedStudentId) && showProfile == old(showProfile)
    {
      SumsAfterClassToggle(classSessions, classId, enabled);
      classSessions := WithClassScanner(classSessions, classId, enabled);
    }

    /** The search box. */
    method SetSearchTerm(term: string)
      modifies this`searchTerm
      ensures searchTerm == term
    {
      searchTerm := term;
    }

    /** The class selector. */
    method SetSelectedClass(choice: string)
      modifies this`selectedClass
      ensures selectedClass == choice
    {
      selectedClass := choice;
    }

    /** The date selector. */
    method SetSelectedDate(choice: string)
      modifies this`selectedDate
      ensures selectedDate == choice
    {
      selectedDate := choice;
    }

    /** `handleStudentClick`: the student's detail page is shown next (for a non-empty id). */
    method StudentClick(studentId: string)
      modifies this`selectedStudentId
      ensures selectedStudentId == Some(studentId)
      ensures studentId != "" ==> View() == StudentDetail(studentId)
    {
      selectedStudentId := Some(studentId);
    }

    /** The "View Profile" button. */
    method OpenProfile()
      modifies this`showProfile
      ensures showProfile
      ensures selectedStudentId.None? || selectedStudentId.value == "" ==> View() == ProfileView
      ensures selectedStudentId.Some? && selectedStudentId.value != "" ==> View() == StudentDetail(selectedStudentId.value)
    {
      showProfile := true;
    }

    /** `handleBackToTeacherPage`: both the student and the profile are dismissed. */
    method BackToTeacherPage()
      modifies this`selectedStudentId, this`showProfile
      ensures selectedStudentId == None && !showProfile
      ensures View() == SessionsView
    {
      selectedStudentId := None;
      showProfile := false;
    }
  }
}
