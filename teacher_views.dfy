/** The pure parts of the teacher dashboard: choosing the slot and subject
    of a new session, building the session from the server's reply and
    refreshing its roster, the request lists a decision filters, the slot
    form's validation and reset, the sorted slot table and the avatar
    initials. */
module TeacherViews {
  import opened Common
  import opened GeoMark

  // ------------------------------------------------------------- sessions

  /** One of the teacher's subjects; `id` and `mongoId` (`_id`) are both
      optional, absence being the empty string. */
  datatype Subject = Subject(id: string, mongoId: string, subjectCode: string, subjectName: string)

  /** One of today's slots in the overview; `id` is compared as a string. */
  datatype TodaySlot = TodaySlot(id: string, section: string, start: string, end: string, room: string)

  datatype StartForm = StartForm(subjectCode: string, slotId: string)

  const EmptyStartForm := StartForm("", "")

  /** The JSON body of `POST /teacher/start-session`; `None` coordinates
      are absent (undefined) fields. */
  datatype StartBody = StartBody(subjectId: string, section: string, roomNumber: string, lat: Option<real>, lng: Option<real>)

  datatype Student = Student(id: string, name: string)

  /** The fields of the start-session reply the dashboard reads. */
  datatype StartReply = StartReply(mongoId: string, sessionCode: string, presentStudents: Option<seq<Student>>)

  /** The live session card. */
  datatype Session = Session(
    id: string, subjectCode: string, subjectName: string,
    start: string, end: string, room: string, qrToken: string,
    present: int, total: int, presentStudents: seq<Student>)

  /** The fields of `GET /teacher/session/<id>` the refresh reads. */
  datatype RosterReply = RosterReply(presentCount: int, presentStudents: Option<seq<Student>>)

  /** The slot whose id is the chosen one and the subject whose code is
      the chosen one (each the first such), or nothing when either is
      missing. */
  function Selection(slots: seq<TodaySlot>, subjects: seq<Subject>, form: StartForm): (r: Option<(TodaySlot, Subject)>)
    ensures r.None? <==>
              (forall i :: 0 <= i < |slots| ==> slots[i].id != form.slotId)
              || (forall i :: 0 <= i < |subjects| ==> subjects[i].subjectCode != form.subjectCode)
    ensures r.Some? ==> r.value.0 in slots && r.value.0.id == form.slotId
    ensures r.Some? ==> r.value.1 in subjects && r.value.1.subjectCode == form.subjectCode
    ensures forall i ::
              (0 <= i < |slots| && slots[i].id == form.slotId
               && forall j :: 0 <= j < i ==> slots[j].id != form.slotId)
              ==> r.None? || r.value.0 == slots[i]
    ensures forall i ::
              (0 <= i < |subjects| && subjects[i].subjectCode == form.subjectCode
               && forall j :: 0 <= j < i ==> subjects[j].subjectCode != form.subjectCode)
              ==> r.None? || r.value.1 == subjects[i]
  {
    var slot := Find(slots, (t: TodaySlot) => t.id == form.slotId);
    var subj := Find(subjects, (s: Subject) => s.subjectCode == form.subjectCode);
    if slot.None? || subj.None? then None else Some((slot.value, subj.value))
  }

  /** `subj.id || subj._id`. */
  function SubjectKey(s: Subject): (k: string)
    ensures s.id != "" ==> k == s.id
    ensures s.id == "" ==> k == s.mongoId
  {
    FirstNonEmpty([s.id], s.mongoId)
  }

  /** The request body: the subject's key, the slot's section and room,
      and coordinates only with a position fix. A missing geolocation API
      and a refused or failed lookup both just omit them. */
  function StartRequest(slot: TodaySlot, subj: Subject, geo: Geo): (b: StartBody)
    ensures b.subjectId == SubjectKey(subj) && b.section == slot.section && b.roomNumber == slot.room
    ensures b.lat.Some? <==> geo.Located?
    ensures b.lng.Some? <==> geo.Located?
    ensures geo.Located? ==> b.lat == Some(geo.lat) && b.lng == Some(geo.lng)
  {
    match geo
    case Located(lat, lng) => StartBody(SubjectKey(subj), slot.section, slot.room, Some(lat), Some(lng))
    case _ => StartBody(SubjectKey(subj), slot.section, slot.room, None, None)
  }

  /** The capacity every new session card shows. */
  const SessionCapacity := 60

  /** The session card built from a successful start: names from the
      subject, times and room from the slot, the QR token is the returned
      session code, the count is the number of students the reply lists
      (0 without a list), the roster starts empty, capacity 60. */
  function NewSession(reply: StartReply, slot: TodaySlot, subj: Subject): (s: Session)
    ensures s.id == reply.mongoId && s.qrToken == reply.sessionCode
    ensures s.subjectCode == subj.subjectCode && s.subjectName == subj.subjectName
    ensures s.start == slot.start && s.end == slot.end && s.room == slot.room
    ensures s.present == if reply.presentStudents.Some? then |reply.presentStudents.value| else 0
    ensures s.presentStudents == [] && s.total == SessionCapacity
  {
    Session(reply.mongoId, subj.subjectCode, subj.subjectName, slot.start, slot.end, slot.room,
      reply.sessionCode, if reply.presentStudents.Some? then |reply.presentStudents.value| else 0,
      SessionCapacity, [])
  }

  /** A roster refresh: only the count and the roster change. */
  function Refreshed(s: Session, reply: RosterReply): (r: Session)
    ensures r.present == reply.presentCount
    ensures r.presentStudents == reply.presentStudents.GetOr([])
    ensures r.(present := s.present, presentStudents := s.presentStudents) == s
  {
    s.(present := reply.presentCount, presentStudents := reply.presentStudents.GetOr([]))
  }

  /** Refreshing never touches what identifies the session: its QR token,
      subject, times and room stay those it was started with, however many
      refreshes follow; only the last refresh's roster is shown. */
  lemma {:induction false} RefreshesKeepIdentity(s: Session, replies: seq<RosterReply>)
    requires replies != []
    ensures var r := RefreshAll(s, replies);
      r.(present := s.present, presentStudents := s.presentStudents) == s
      && r == Refreshed(s, replies[|replies| - 1])
    decreases |replies|
  {
    if |replies| > 1 {
      RefreshesKeepIdentity(Refreshed(s, replies[0]), replies[1..]);
      assert replies[1..][|replies[1..]| - 1] == replies[|replies| - 1];
    }
  }

  function RefreshAll(s: Session, replies: seq<RosterReply>): Session
    decreases |replies|
  {
    if replies == [] then s else RefreshAll(Refreshed(s, replies[0]), replies[1..])
  }

  // ------------------------------------------------------------- requests

  /** A pending self-study claim, keyed by `id`. `studentName` is `None`
      when the reply has no student. */
  datatype SelfStudyClaim = SelfStudyClaim(id: string, studentName: Option<string>, subjectCode: string, date: string)

  /** A pending attendance-correction request, keyed by `_id || id`.
      `studentName` is `None` when the reply has no student. */
  datatype CorrectionClaim = CorrectionClaim(mongoId: string, id: string, studentName: Option<string>, reason: string)

  function ClaimId(c: SelfStudyClaim): string {
    c.id
  }

  /** `r._id || r.id`. */
  function RequestKey(r: CorrectionClaim): (k: string)
    ensures r.mongoId != "" ==> k == r.mongoId
    ensures r.mongoId == "" ==> k == r.id
  {
    FirstNonEmpty([r.mongoId], r.id)
  }

  /** The list after a successful decision on `decided`: every request
      with the same key is dropped. */
  function AfterCorrectionDecision(reqs: seq<CorrectionClaim>, decided: CorrectionClaim): (r: seq<CorrectionClaim>)
    ensures forall i :: 0 <= i < |r| ==> RequestKey(r[i]) != RequestKey(decided)
    ensures forall x :: RequestKey(x) != RequestKey(decided) ==> multiset(r)[x] == multiset(reqs)[x]
  {
    forall x | RequestKey(x) != RequestKey(decided)
      ensures multiset(Without(reqs, RequestKey, RequestKey(decided)))[x] == multiset(reqs)[x]
    {
      WithoutKeepsOthers(reqs, RequestKey, RequestKey(decided), x);
    }
    Without(reqs, RequestKey, RequestKey(decided))
  }

  /** The self-study list after a successful decision on `decided`. */
  function AfterSelfStudyDecision(claims: seq<SelfStudyClaim>, decided: SelfStudyClaim): (r: seq<SelfStudyClaim>)
    ensures forall i :: 0 <= i < |r| ==> r[i].id != decided.id
    ensures forall x: SelfStudyClaim :: x.id != decided.id ==> multiset(r)[x] == multiset(claims)[x]
  {
    forall x: SelfStudyClaim | x.id != decided.id
      ensures multiset(Without(claims, ClaimId, decided.id))[x] == multiset(claims)[x]
    {
      WithoutKeepsOthers(claims, ClaimId, decided.id, x);
    }
    Without(claims, ClaimId, decided.id)
  }

  /** With unique keys, deciding the request at index `n` cuts out exactly
      that request and keeps the others in their order. */
  lemma DecisionCutsOne(reqs: seq<CorrectionClaim>, n: nat)
    requires n < |reqs| && UniqueKeys(reqs, RequestKey)
    ensures AfterCorrectionDecision(reqs, reqs[n]) == reqs[..n] + reqs[n + 1..]
  {
    WithoutSingle(reqs, RequestKey, n);
  }

  /** Removing the decided request of the list leaves any request decided
      next removable in the same way: decisions on different requests
      commute. */
  lemma DecisionsCommute(claims: seq<SelfStudyClaim>, a: SelfStudyClaim, b: SelfStudyClaim)
    ensures AfterSelfStudyDecision(AfterSelfStudyDecision(claims, a), b)
         == AfterSelfStudyDecision(AfterSelfStudyDecision(claims, b), a)
  {
    WithoutCommutes(claims, ClaimId, a.id, b.id);
  }

  /** The banner after a decision on a self-study claim; a claim without a
      student names "undefined", as a template literal does. */
  function SelfStudyDecisionToast(approve: bool, ok: bool, studentName: Option<string>): (t: string)
    ensures ok && approve ==> t == "Approved self\U{2011}study for " + studentName.GetOr("undefined") + "."
    ensures ok && !approve ==> t == "Rejected self\U{2011}study for " + studentName.GetOr("undefined") + "."
    ensures !ok && approve ==> t == "Failed to approve self\U{2011}study."
    ensures !ok && !approve ==> t == "Failed to reject self\U{2011}study."
  {
    var name := studentName.GetOr("undefined");
    if ok && approve then "Approved self\U{2011}study for " + name + "."
    else if ok then "Rejected self\U{2011}study for " + name + "."
    else if approve then "Failed to approve self\U{2011}study."
    else "Failed to reject self\U{2011}study."
  }

  /** The banner after a decision on an attendance request; a request
      without a student names "undefined", as a template literal does. */
  function CorrectionDecisionToast(approve: bool, ok: bool, studentName: Option<string>): (t: string)
    ensures ok && approve ==> t == "Approved attendance request for " + studentName.GetOr("undefined") + "."
    ensures ok && !approve ==> t == "Rejected attendance request for " + studentName.GetOr("undefined") + "."
    ensures !ok && approve ==> t == "Failed to approve attendance request."
    ensures !ok && !approve ==> t == "Failed to reject attendance request."
  {
    var name := studentName.GetOr("undefined");
    if ok && approve then "Approved attendance request for " + name + "."
    else if ok then "Rejected attendance request for " + name + "."
    else if approve then "Failed to approve attendance request."
    else "Failed to reject attendance request."
  }

  // ------------------------------------------------------------ slot form

  datatype SlotForm = SlotForm(
    subjectCode: string, section: string, dayOfWeek: int,
    startTime: string, endTime: string, roomNumber: string)

  const EmptySlotForm := SlotForm("", "", 1, "", "", "")

  /** The JSON body of `POST /teacher/timetable/slot`. */
  datatype SlotBody = SlotBody(
    teacherId: string, subjectCode: string, section: string, dayOfWeek: int,
    startTime: string, endTime: string, roomNumber: string)

  /** Subject, section, start and end are required; the room is not. */
  predicate MissingRequired(f: SlotForm) {
    f.subjectCode == "" || f.section == "" || f.startTime == "" || f.endTime == ""
  }

  /** The request a submit sends: none while a required field is empty,
      otherwise the form's fields verbatim. */
  function SlotRequest(teacherId: string, f: SlotForm): (b: Option<SlotBody>)
    ensures b.None? <==> MissingRequired(f)
    ensures b.Some? ==> b.value.subjectCode == f.subjectCode && b.value.section == f.section
                        && b.value.dayOfWeek == f.dayOfWeek && b.value.startTime == f.startTime
                        && b.value.endTime == f.endTime && b.value.roomNumber == f.roomNumber
                        && b.value.teacherId == teacherId
  {
    if MissingRequired(f) then None
    else Some(SlotBody(teacherId, f.subjectCode, f.section, f.dayOfWeek, f.startTime, f.endTime, f.roomNumber))
  }

  /** The form after a slot is created: subject and day are kept for the
      next slot, the rest is emptied, so it cannot be sent again as is. */
  function ClearedSlotForm(f: SlotForm): (r: SlotForm)
    ensures r.subjectCode == f.subjectCode && r.dayOfWeek == f.dayOfWeek
    ensures r.section == "" && r.startTime == "" && r.endTime == "" && r.roomNumber == ""
    ensures SlotRequest("", r).None?
  {
    f.(section := "", startTime := "", endTime := "", roomNumber := "")
  }

  /** The conflicts a failed create reports: the reply's list, empty or
      not, on a 409 that carries one. */
  function SlotConflicts(f: Failure): (r: Option<seq<TimetableSlot>>)
    ensures r.Some? <==> f.Rejected? && f.status == 409 && f.conflicts.Some?
    ensures r.Some? ==> r == f.conflicts
  {
    if f.Rejected? && f.status == 409 then f.conflicts else None
  }

  const SlotCreated := "Timetable slot created."
  const SlotConflictToast := "Slot conflict: please choose a different time or section."
  const MissingSlotFields := "Please fill all required fields."
  const SlotCreateFailed := "Failed to create timetable slot."

  // ------------------------------------------------------------ slot table

  /** The comparator passed to `sort`: the day difference when the days
      differ, else -1 or 1 by start time. It never reports a tie. */
  function SlotCompare(a: TimetableSlot, b: TimetableSlot): (c: int)
    ensures c != 0
    ensures a.dayOfWeek == b.dayOfWeek && a.startTime == b.startTime ==> c == 1
  {
    if a.dayOfWeek != b.dayOfWeek then a.dayOfWeek - b.dayOfWeek
    else if Less(a.startTime, b.startTime) then -1 else 1
  }

  /** The table's order: by day, then by start time as JavaScript compares
      strings; exactly the pairs the comparator puts first. */
  predicate SlotBefore(a: TimetableSlot, b: TimetableSlot)
    ensures SlotBefore(a, b) <==> SlotCompare(a, b) < 0
  {
    a.dayOfWeek < b.dayOfWeek || (a.dayOfWeek == b.dayOfWeek && Less(a.startTime, b.startTime))
  }

  predicate SlotAtMost(a: TimetableSlot, b: TimetableSlot) {
    !SlotBefore(b, a)
  }

  predicate Sorted(s: seq<TimetableSlot>) {
    forall i, j :: 0 <= i < j < |s| ==> SlotAtMost(s[i], s[j])
  }

  lemma SlotTotal(a: TimetableSlot, b: TimetableSlot)
    ensures SlotAtMost(a, b) || SlotAtMost(b, a)
  {
    LessTrichotomy(a.startTime, b.startTime);
  }

  lemma SlotAtMostTransitive(a: TimetableSlot, b: TimetableSlot, c: TimetableSlot)
    requires SlotAtMost(a, b) && SlotAtMost(b, c)
    ensures SlotAtMost(a, c)
  {
    if a.dayOfWeek == c.dayOfWeek && Less(c.startTime, a.startTime) {
      LessTrichotomy(a.startTime, b.startTime);
      if Less(a.startTime, b.startTime) {
        LessTransitive(c.startTime, a.startTime, b.startTime);
      }
      assert false;
    }
  }

  /** `x` placed before the first slot it does not follow. */
  function Insert(x: TimetableSlot, s: seq<TimetableSlot>): (r: seq<TimetableSlot>)
    ensures multiset(r) == multiset(s) + multiset{x}
    decreases |s|
  {
    if s == [] then [x]
    else if SlotAtMost(x, s[0]) then [x] + s
    else
      assert s == [s[0]] + s[1..];
      [s[0]] + Insert(x, s[1..])
  }

  lemma {:induction false} InsertSorted(x: TimetableSlot, s: seq<TimetableSlot>)
    requires Sorted(s)
    ensures Sorted(Insert(x, s))
    decreases |s|
  {
    if s != [] && SlotAtMost(x, s[0]) {
      var r := [x] + s;
      forall i, j | 0 <= i < j < |r| ensures SlotAtMost(r[i], r[j]) {
        if i == 0 {
          if j > 1 { SlotAtMostTransitive(x, s[0], s[j - 1]); }
        } else {
          assert r[i] == s[i - 1] && r[j] == s[j - 1];
        }
      }
    } else if s != [] {
      assert Sorted(s[1..]) by {
        forall i, j | 0 <= i < j < |s[1..]| ensures SlotAtMost(s[1..][i], s[1..][j]) {
          assert s[1..][i] == s[i + 1] && s[1..][j] == s[j + 1];
        }
      }
      InsertSorted(x, s[1..]);
      var tail := Insert(x, s[1..]);
      SlotTotal(x, s[0]);
      forall k | 0 <= k < |tail| ensures SlotAtMost(s[0], tail[k]) {
        assert tail[k] in multiset(tail);
        if tail[k] != x {
          assert tail[k] in multiset(s[1..]);
          var m :| 0 <= m < |s[1..]| && s[1..][m] == tail[k];
          assert s[m + 1] == tail[k];
        }
      }
      var r := [s[0]] + tail;
      forall i, j | 0 <= i < j < |r| ensures SlotAtMost(r[i], r[j]) {
        if i == 0 {
          assert r[j] == tail[j - 1];
        } else {
          assert r[i] == tail[i - 1] && r[j] == tail[j - 1];
        }
      }
    }
  }

  /** The rows of the slot table: a sorted copy of the stored slots. */
  function SortForTable(s: seq<TimetableSlot>): (r: seq<TimetableSlot>)
    ensures multiset(r) == multiset(s)
    decreases |s|
  {
    if s == [] then []
    else
      assert s == [s[0]] + s[1..];
      Insert(s[0], SortForTable(s[1..]))
  }

  /** The table lists every stored slot, as often as it is stored, ordered
      by day and then start time. */
  lemma {:induction false} SlotTableSorted(s: seq<TimetableSlot>)
    ensures Sorted(SortForTable(s))
    decreases |s|
  {
    if s != [] {
      SlotTableSorted(s[1..]);
      InsertSorted(s[0], SortForTable(s[1..]));
    }
  }

  // -------------------------------------------------------------- initials

  /** `s.split(" ")`: the pieces between single spaces, empty pieces
      included; there is always at least one. */
  function Split(s: string): (parts: seq<string>)
    ensures |parts| >= 1
    ensures forall i :: 0 <= i < |parts| ==> ' ' !in parts[i]
    decreases |s|
  {
    if s == [] then [""]
    else
      var rest := Split(s[1..]);
      if s[0] == ' ' then [""] + rest
      else [[s[0]] + rest[0]] + rest[1..]
  }

  /** `parts.join(" ")`. */
  function Join(parts: seq<string>): string
    decreases |parts|
  {
    if parts == [] then ""
    else if |parts| == 1 then parts[0]
    else parts[0] + " " + Join(parts[1..])
  }

  /** Splitting loses nothing: joining the pieces back gives the name. */
  lemma {:induction false} SplitJoin(s: string)
    ensures Join(Split(s)) == s
    decreases |s|
  {
    if s != [] {
      SplitJoin(s[1..]);
      var rest := Split(s[1..]);
      assert s == [s[0]] + s[1..];
      if s[0] == ' ' {
        assert ([""] + rest)[1..] == rest;
      } else {
        var parts := [[s[0]] + rest[0]] + rest[1..];
        if |rest| > 1 {
          assert parts[1..] == rest[1..];
          assert Join(parts) == ([s[0]] + rest[0]) + " " + Join(rest[1..]);
          assert Join(rest) == rest[0] + " " + Join(rest[1..]);
        }
      }
    }
  }

  /** A word followed by a space is the first piece. */
  lemma {:induction false} SplitWord(w: string, t: string)
    requires ' ' !in w
    ensures Split(w + " " + t) == [w] + Split(t)
    decreases |w|
  {
    if w == [] {
      assert w + " " + t == [' '] + t;
      assert ([' '] + t)[1..] == t;
    } else {
      SplitWord(w[1..], t);
      assert (w + " " + t)[1..] == w[1..] + " " + t;
      assert [w[0]] + w[1..] == w;
    }
  }

  /** A name with no space is one piece. */
  lemma {:induction false} SplitSingle(w: string)
    requires ' ' !in w
    ensures Split(w) == [w]
    decreases |w|
  {
    if w != [] {
      SplitSingle(w[1..]);
      assert [w[0]] + w[1..] == w;
    }
  }

  /** `.map(p => p[0]).join("")`: the first character of each non-empty
      piece (an empty piece contributes nothing). */
  function Heads(parts: seq<string>): (r: string)
    ensures |r| <= |parts|
    decreases |parts|
  {
    if parts == [] then []
    else (if parts[0] == [] then [] else [parts[0][0]]) + Heads(parts[1..])
  }

  /** The reference: every character that is not a space and comes first
      or right after a space, read left to right; `atStart` says whether
      the previous character was a space (or there was none). */
  function WordStarts(s: string, atStart: bool): string
    decreases |s|
  {
    if s == [] then []
    else if s[0] == ' ' then WordStarts(s[1..], true)
    else (if atStart then [s[0]] else []) + WordStarts(s[1..], false)
  }

  /** The split-and-take-heads pipeline yields exactly the word starts. */
  lemma {:induction false} HeadsAreWordStarts(s: string)
    ensures Heads(Split(s)) == WordStarts(s, true)
    ensures Heads(Split(s)[1..]) == WordStarts(s, false)
    decreases |s|
  {
    if s != [] {
      HeadsAreWordStarts(s[1..]);
      var rest := Split(s[1..]);
      if s[0] == ' ' {
        assert Split(s) == [""] + rest;
        assert Split(s)[1..] == rest;
      } else {
        var first := [s[0]] + rest[0];
        assert Split(s) == [first] + rest[1..];
        assert Split(s)[1..] == rest[1..];
        assert Heads(Split(s)) == [s[0]] + Heads(rest[1..]);
      }
    }
  }

  /** `toUpperCase` on one character, for ASCII letters. */
  function Upper(c: char): (u: char)
    ensures !('a' <= u <= 'z')
    ensures 'a' <= c <= 'z' ==> u as int == c as int - ('a' as int - 'A' as int)
    ensures !('a' <= c <= 'z') ==> u == c
  {
    if 'a' <= c <= 'z' then (c as int - 32) as char else c
  }

  function UpperAll(s: string): (r: string)
    ensures |r| == |s| && forall i :: 0 <= i < |s| ==> r[i] == Upper(s[i])
  {
    seq(|s|, i requires 0 <= i < |s| => Upper(s[i]))
  }

  /** The avatar initials: the first characters of the name's words,
      upper-cased, at most two. */
  function Initials(name: string): (r: string)
    ensures |r| <= 2
    ensures forall i :: 0 <= i < |r| ==> !('a' <= r[i] <= 'z')
  {
    var u := UpperAll(Heads(Split(name)));
    if |u| <= 2 then u else u[..2]
  }

  /** The initials are the upper-cased starts of the first two words; the
      first initial is the name's first character when it is no space. */
  lemma InitialsAreWordStarts(name: string)
    ensures var w := UpperAll(WordStarts(name, true));
      Initials(name) == if |w| <= 2 then w else w[..2]
    ensures name != [] && name[0] != ' ' ==> Initials(name) != [] && Initials(name)[0] == Upper(name[0])
  {
    HeadsAreWordStarts(name);
  }

  /** "Ada Lovelace" gives "AL": a first and a last name give their two
      upper-cased first letters. */
  lemma TwoWordInitials(first: string, last: string)
    requires first != [] && last != []
    requires ' ' !in first && ' ' !in last
    ensures Initials(first + " " + last) == [Upper(first[0]), Upper(last[0])]
  {
    SplitWord(first, last);
    SplitSingle(last);
    assert Split(first + " " + last) == [first, last];
    assert Heads([first, last]) == [first[0]] + Heads([last]);
  }
}
