/** The pure list and value transformations of the student dashboard: the
    attendance colour band, the notification badge and "mark all read",
    the entries a correction or self-study submission prepends, the class
    running now, the label of a scan, and the timetable cache fallback. */
module StudentViews {
  import opened Common
  import opened Toasts

  /** One subject of the overview payload (percentages are server values). */
  datatype SubjectSummary = SubjectSummary(subjectId: string, subjectCode: string, subjectName: string, percentage: Option<real>)

  /** One class of today's schedule; `start` and `end` are "HH:MM" strings. */
  datatype ScheduleEntry = ScheduleEntry(subjectCode: string, subjectName: string, start: string, end: string, room: string)

  /** The parts of the server-computed overview the core reads. */
  datatype Overview = Overview(studentId: string, section: string, subjects: seq<SubjectSummary>, todaySchedule: seq<ScheduleEntry>)

  datatype Notification = Notification(id: string, isRead: bool, title: string, message: string)

  // ---------------------------------------------------------------- band

  /** `getBandClass`: red below 75 %, green from 75 % up, no class when the
      percentage is missing or not a number (`None`). */
  function BandClass(p: Option<real>): (r: string)
    ensures r == "" <==> p.None?
    ensures r == "cs-attn-red" <==> p.Some? && p.value < 75.0
    ensures r == "cs-attn-green" <==> p.Some? && p.value >= 75.0
  {
    match p
    case None => ""
    case Some(v) => if v < 75.0 then "cs-attn-red" else "cs-attn-green"
  }

  // ---------------------------------------------------------- notifications

  /** The positions of the unread notifications; their number is the
      source's `unreadCount`. */
  ghost function UnreadAt(ns: seq<Notification>): set<int> {
    set i | 0 <= i < |ns| && !ns[i].isRead
  }

  /** Dropping the last notification drops at most its own position. */
  lemma UnreadAtLast(ns: seq<Notification>)
    requires ns != []
    ensures |UnreadAt(ns)| == |UnreadAt(ns[..|ns| - 1])| + (if ns[|ns| - 1].isRead then 0 else 1)
  {
    var n := |ns| - 1;
    var front := UnreadAt(ns[..n]);
    assert front == UnreadAt(ns) - {n} by {
      forall i ensures i in front <==> i in UnreadAt(ns) - {n} {
        if 0 <= i < n { assert ns[..n][i] == ns[i]; }
      }
    }
    if ns[n].isRead {
      assert UnreadAt(ns) == front;
    } else {
      assert UnreadAt(ns) == front + {n};
      assert n !in front;
    }
  }

  /** `notifications.filter(n => !n.isRead).map(n => n.id)`: one id per
      unread notification, so its length is the unread count. */
  function UnreadIds(ns: seq<Notification>): (ids: seq<string>)
    ensures |ids| == |UnreadAt(ns)| <= |ns|
    ensures forall i :: 0 <= i < |ns| && !ns[i].isRead ==> ns[i].id in ids
    ensures forall id :: id in ids ==> exists i :: 0 <= i < |ns| && !ns[i].isRead && ns[i].id == id
    decreases |ns|
  {
    if ns == [] then []
    else
      var front := ns[..|ns| - 1];
      var last := ns[|ns| - 1];
      var rest := UnreadIds(front);
      assert forall i :: 0 <= i < |front| ==> front[i] == ns[i];
      UnreadAtLast(ns);
      if last.isRead then rest else rest + [last.id]
  }

  /** The ids are taken notification by notification, in order: the ids of
      a concatenation are the ids of its parts, concatenated. */
  lemma {:induction false} UnreadIdsConcat(a: seq<Notification>, b: seq<Notification>)
    ensures UnreadIds(a + b) == UnreadIds(a) + UnreadIds(b)
    decreases |b|
  {
    if b == [] {
      assert a + b == a;
    } else {
      var front, last := b[..|b| - 1], b[|b| - 1];
      var tail := if last.isRead then [] else [last.id];
      UnreadIdsConcat(a, front);
      assert (a + b)[..|a + b| - 1] == a + front;
      assert (a + b)[|a + b| - 1] == last;
      assert UnreadIds(a + b) == UnreadIds(a + front) + tail;
      assert UnreadIds(b) == UnreadIds(front) + tail;
      calc {
        UnreadIds(a + b);
        (UnreadIds(a) + UnreadIds(front)) + tail;
        UnreadIds(a) + (UnreadIds(front) + tail);
      }
    }
  }

  /** Hence each unread notification contributes its own id, once, at its
      own place: a single notification gives its id exactly when unread. */
  lemma UnreadIdsSingle(n: Notification)
    ensures UnreadIds([n]) == if n.isRead then [] else [n.id]
  {
    assert [n][..0] == [];
  }

  /** The local update after a successful mark-read call: every notification
      whose id was sent gets `isRead` set. */
  function MarkRead(ns: seq<Notification>, ids: seq<string>): (r: seq<Notification>)
    ensures |r| == |ns|
    ensures forall i :: 0 <= i < |ns| ==> r[i].isRead == (ns[i].isRead || ns[i].id in ids)
    ensures forall i :: 0 <= i < |ns| ==> r[i].(isRead := ns[i].isRead) == ns[i]
  {
    seq(|ns|, i requires 0 <= i < |ns| => if ns[i].id in ids then ns[i].(isRead := true) else ns[i])
  }

  /** "Mark all read" touches only `isRead`, and only on the notifications
      that were unread: afterwards all are read, and those already read are
      exactly as before. */
  lemma MarkAllReadEffect(ns: seq<Notification>)
    ensures var r := MarkRead(ns, UnreadIds(ns));
      forall i :: 0 <= i < |ns| ==> r[i] == ns[i].(isRead := true) && (ns[i].isRead ==> r[i] == ns[i])
  {
    var ids := UnreadIds(ns);
    forall i | 0 <= i < |ns|
      ensures MarkRead(ns, ids)[i] == ns[i].(isRead := true)
    {
      if !ns[i].isRead {
        assert ns[i].id in ids;
      }
    }
  }

  /** The request is sent only when something is unread. */
  lemma NothingUnreadSendsNothing(ns: seq<Notification>)
    ensures UnreadIds(ns) == [] <==> forall i :: 0 <= i < |ns| ==> ns[i].isRead
  {
    if UnreadIds(ns) != [] {
      var id := UnreadIds(ns)[0];
      assert id in UnreadIds(ns);
    }
  }

  /** The bell badge: hidden with nothing unread, "9+" above nine,
      otherwise the count as one digit. */
  function Badge(unread: nat): (r: Option<string>)
    ensures r.None? <==> unread == 0
    ensures r == Some("9+") <==> unread > 9
    ensures r.Some? && unread <= 9 ==> |r.value| == 1 && r.value[0] as int - '0' as int == unread
  {
    if unread == 0 then None
    else if unread > 9 then Some("9+")
    else Some([(unread + '0' as int) as char])
  }

  // ------------------------------------------------------ correction request

  datatype CorrectionForm = CorrectionForm(kind: string, subjectCode: string, date: string, notes: string)

  /** The form after every submit, successful or not. */
  const EmptyCorrectionForm := CorrectionForm("medical", "", "", "")

  /** The JSON body of `POST /student/attendance-request`; `None` is an
      absent (undefined) field. */
  datatype CorrectionBody = CorrectionBody(
    studentId: string, subjectId: Option<string>, kind: string, reason: string,
    dateFrom: Option<string>, dateTo: Option<string>)

  /** The fields of the server's reply the dashboard reads. */
  datatype CorrectionReply = CorrectionReply(id: string, kind: string, reason: string, status: string)

  /** A row of the student's correction-request list. */
  datatype Correction = Correction(
    id: string, kind: string, typeLabel: string, subjectCode: string,
    date: string, notes: string, status: string)

  /** The label shown for a request type. */
  function TypeLabel(kind: string): (r: string)
    ensures r == "Medical" <==> kind == "medical"
    ensures r == "Event" <==> kind == "event"
    ensures r == "General" <==> kind != "medical" && kind != "event"
  {
    if kind == "medical" then "Medical"
    else if kind == "event" then "Event"
    else "General"
  }

  /** The subject a correction is filed against: the first one whose code
      is the form's, else the first subject, else none. */
  function PickSubject(subjects: seq<SubjectSummary>, code: string): (r: Option<SubjectSummary>)
    ensures r.None? <==> subjects == []
    ensures (exists i :: 0 <= i < |subjects| && subjects[i].subjectCode == code) ==> r.Some? && r.value.subjectCode == code
    ensures (forall i :: 0 <= i < |subjects| ==> subjects[i].subjectCode != code) && subjects != [] ==> r == Some(subjects[0])
    ensures r.Some? ==> r.value in subjects
    ensures forall i ::
              (0 <= i < |subjects| && subjects[i].subjectCode == code
               && forall j :: 0 <= j < i ==> subjects[j].subjectCode != code)
              ==> r == Some(subjects[i])
  {
    match Find(subjects, (s: SubjectSummary) => s.subjectCode == code)
    case Some(s) => Some(s)
    case None => if subjects == [] then None else Some(subjects[0])
  }

  /** The request body: the picked subject's id, the form's type and notes,
      and the date (absent when empty) as both ends of the range. */
  function CorrectionRequest(studentId: string, subjects: seq<SubjectSummary>, form: CorrectionForm): (b: CorrectionBody)
    ensures b.studentId == studentId && b.kind == form.kind && b.reason == form.notes
    ensures b.dateFrom == b.dateTo
    ensures b.dateFrom.None? <==> form.date == ""
    ensures b.dateFrom.Some? ==> b.dateFrom.value == form.date
    ensures b.subjectId.None? <==> subjects == []
    ensures subjects != [] ==> b.subjectId == Some(PickSubject(subjects, form.subjectCode).value.subjectId)
  {
    var subj := PickSubject(subjects, form.subjectCode);
    var date := if form.date == "" then None else Some(form.date);
    CorrectionBody(studentId, if subj.Some? then Some(subj.value.subjectId) else None, form.kind, form.notes, date, date)
  }

  /** The entry prepended after a successful correction submit. Its status
      defaults to "Pending" (capitalised) when the reply has none. */
  function CorrectionEntry(reply: CorrectionReply, subjects: seq<SubjectSummary>, form: CorrectionForm): (c: Correction)
    ensures c.id == reply.id && c.kind == reply.kind && c.notes == reply.reason && c.date == form.date
    ensures c.typeLabel == TypeLabel(reply.kind)
    ensures reply.status == "" ==> c.status == "Pending"
    ensures reply.status != "" ==> c.status == reply.status
    ensures subjects == [] ==> c.subjectCode == ""
    ensures subjects != [] ==> c.subjectCode == PickSubject(subjects, form.subjectCode).value.subjectCode
  {
    var subj := PickSubject(subjects, form.subjectCode);
    Correction(reply.id, reply.kind, TypeLabel(reply.kind),
      if subj.Some? then subj.value.subjectCode else "",
      form.date, reply.reason, FirstNonEmpty([reply.status], "Pending"))
  }

  // ------------------------------------------------------------ self-study

  datatype SelfStudyForm = SelfStudyForm(subjectCode: string, date: string, description: string, fileUrl: string)

  /** The JSON body of `POST /student/self-study`. */
  datatype SelfStudyBody = SelfStudyBody(studentId: string, subjectCode: string, date: string, description: string, fileUrl: string)

  datatype SelfStudyReply = SelfStudyReply(id: string, status: string)

  /** A row of the student's self-study list. */
  datatype SelfStudy = SelfStudy(
    id: string, subjectCode: string, subjectName: string, date: string,
    description: string, fileUrl: string, status: string, teacherNote: string)

  /** A self-study submit sends a request only when both subject and date
      are filled in. */
  function SelfStudyRequest(studentId: string, form: SelfStudyForm): (r: Option<SelfStudyBody>)
    ensures r.None? <==> form.subjectCode == "" || form.date == ""
    ensures r.Some? ==> r.value == SelfStudyBody(studentId, form.subjectCode, form.date, form.description, form.fileUrl)
  {
    if form.subjectCode == "" || form.date == "" then None
    else Some(SelfStudyBody(studentId, form.subjectCode, form.date, form.description, form.fileUrl))
  }

  /** The entry prepended after a successful self-study submit. Its status
      defaults to "pending" (lower case) when the reply has none. */
  function SelfStudyEntry(reply: SelfStudyReply, form: SelfStudyForm): (s: SelfStudy)
    ensures s.id == reply.id && s.subjectCode == form.subjectCode && s.date == form.date
    ensures s.description == form.description && s.fileUrl == form.fileUrl
    ensures s.subjectName == "" && s.teacherNote == ""
    ensures reply.status == "" ==> s.status == "pending"
    ensures reply.status != "" ==> s.status == reply.status
  {
    SelfStudy(reply.id, form.subjectCode, "", form.date, form.description, form.fileUrl,
      FirstNonEmpty([reply.status], "pending"), "")
  }

  /** The two submit handlers disagree on the default status: a reply
      without a status shows as "Pending" in one list and "pending" in the
      other. */
  lemma StatusDefaultsDiffer(cid: string, kind: string, reason: string, subjects: seq<SubjectSummary>,
                             cform: CorrectionForm, sid: string, sform: SelfStudyForm)
    ensures CorrectionEntry(CorrectionReply(cid, kind, reason, ""), subjects, cform).status
         != SelfStudyEntry(SelfStudyReply(sid, ""), sform).status
  {
    assert "Pending"[0] != "pending"[0];
  }

  // ------------------------------------------------------------- schedule

  predicate RunsAt(c: ScheduleEntry, now: string) {
    AtMost(c.start, now) && AtMost(now, c.end)
  }

  /** The class running now: the first of today's classes whose start is at
      most `now` and whose end is at least `now` (string comparison of
      "HH:MM"). */
  function RunningClass(todays: seq<ScheduleEntry>, now: string): (r: Option<ScheduleEntry>)
    ensures r.None? <==> forall i :: 0 <= i < |todays| ==> !RunsAt(todays[i], now)
    ensures r.Some? ==> exists i :: 0 <= i < |todays| && todays[i] == r.value && RunsAt(r.value, now)
                                    && forall j :: 0 <= j < i ==> !RunsAt(todays[j], now)
  {
    Find(todays, (c: ScheduleEntry) => RunsAt(c, now))
  }

  /** The subject a scan is recorded for: the running class's, else the one
      chosen in the modal. */
  function ScanSubject(currentClass: Option<ScheduleEntry>, markSubject: string): (code: string)
    ensures currentClass.Some? ==> code == currentClass.value.subjectCode
    ensures currentClass.None? ==> code == markSubject
  {
    if currentClass.Some? then currentClass.value.subjectCode else markSubject
  }

  /** The label in the success banner and toast: the first subject with
      that code, by its name when the name is non-empty, else the code. */
  function ScanLabel(subjects: seq<SubjectSummary>, code: string): (shown: string)
    ensures shown == code || exists i :: 0 <= i < |subjects| && subjects[i].subjectCode == code && subjects[i].subjectName == shown
    ensures (forall i :: 0 <= i < |subjects| ==> subjects[i].subjectCode != code) ==> shown == code
    ensures code != "" ==> shown != ""
    ensures forall i ::
              (0 <= i < |subjects| && subjects[i].subjectCode == code
               && forall j :: 0 <= j < i ==> subjects[j].subjectCode != code)
              ==> shown == FirstNonEmpty([subjects[i].subjectName], code)
  {
    match Find(subjects, (s: SubjectSummary) => s.subjectCode == code)
    case Some(s) => FirstNonEmpty([s.subjectName], code)
    case None => code
  }

  // ------------------------------------------------------- timetable cache

  /** The weekly timetable: day of week to that day's slots. */
  type Timetable = map<int, seq<TimetableSlot>>

  const CachePrefix := "cs_timetable_cache_"

  /** The browser-storage key of a section's cached timetable. */
  function CacheKey(section: string): (k: string)
    ensures |k| == |CachePrefix| + |section|
    ensures k[..|CachePrefix|] == CachePrefix && k[|CachePrefix|..] == section
  {
    CachePrefix + section
  }

  const OfflineNotice := Notice(Some(Info), "Offline timetable", "Showing last saved timetable copy.")
  const TimetableErrorNotice := Notice(Some(Error), "Timetable error", "Could not load timetable for your section.")

  /** What one fetch of a (non-empty) section's timetable leaves behind:
      the timetable shown, the storage, and the toast pushed, if any. */
  datatype Fetched = Fetched(shown: Option<Timetable>, storage: map<string, Timetable>, notice: Option<Notice>)

  /** The cache-with-fallback: a reply (`None` for an empty body, shown as
      an empty timetable) is shown and stored under the section's key; on a
      failure the stored copy is shown with an info toast, or nothing with
      an error toast. Storage changes only on success, and only that key. */
  function FetchTimetable(section: string, storage: map<string, Timetable>, reply: Outcome<Option<Timetable>>): (r: Fetched)
    ensures reply.Done? ==>
              r.shown == Some(reply.value.GetOr(map[])) && r.notice.None?
              && r.storage == storage[CacheKey(section) := reply.value.GetOr(map[])]
    ensures reply.Failed? ==> r.storage == storage
    ensures reply.Failed? && CacheKey(section) in storage ==> r.shown == Some(storage[CacheKey(section)]) && r.notice == Some(OfflineNotice)
    ensures reply.Failed? && CacheKey(section) !in storage ==> r.shown.None? && r.notice == Some(TimetableErrorNotice)
  {
    var key := CacheKey(section);
    match reply
    case Done(d) =>
      var data := d.GetOr(map[]);
      Fetched(Some(data), storage[key := data], None)
    case Failed(_) =>
      if key in storage then Fetched(Some(storage[key]), storage, Some(OfflineNotice))
      else Fetched(None, storage, Some(TimetableErrorNotice))
  }

  /** After a successful fetch, a failed one for the same section shows the
      same timetable, with an informational (not an error) toast. */
  lemma FallbackShowsLastGoodCopy(section: string, storage: map<string, Timetable>, data: Option<Timetable>, f: Failure)
    ensures var first := FetchTimetable(section, storage, Done(data));
      var second := FetchTimetable(section, first.storage, Failed(f));
      second.shown == first.shown && second.notice == Some(OfflineNotice)
  {
  }

  /** A fetch for one section leaves every other section's copy alone. */
  lemma OtherSectionsUntouched(section: string, other: string, storage: map<string, Timetable>, reply: Outcome<Option<Timetable>>)
    requires other != section
    ensures var r := FetchTimetable(section, storage, reply);
      (CacheKey(other) in r.storage <==> CacheKey(other) in storage)
      && (CacheKey(other) in storage ==> r.storage[CacheKey(other)] == storage[CacheKey(other)])
  {
    assert CacheKey(other) != CacheKey(section) by {
      assert CacheKey(other)[|CachePrefix|..] == other;
    }
  }
}
