/** The teacher dashboard's event handlers as one object whose fields are the
    component's state. Each handler that awaits a request takes the request's
    outcome (and, for starting a session, the geolocation result) as a
    parameter and applies the state writes the handler makes after it. */
module TeacherDashboard {
  import opened Common
  import opened GeoMark
  import opened TeacherViews

  const SessionStarted := "Session started and QR generated."
  const StartFailed := "Failed to start session."
  const RefreshFailed := "Failed to refresh live list."
  const SessionEnded := "Session ended."

  class Dashboard {
    /** `teacher.id` from the overview. */
    const teacherId: string
    /** `teacher.subjects` and `todaySlots` from the overview. */
    const subjects: seq<Subject>
    const todaySlots: seq<TodaySlot>

    /** The banner text (`toast`); empty hides it. */
    var toast: string
    var showStartClass: bool
    var startForm: StartForm
    var activeSession: Option<Session>

    var selfStudyRequests: seq<SelfStudyClaim>
    var attendanceRequests: seq<CorrectionClaim>

    var teacherSlots: seq<TimetableSlot>
    var newSlotForm: SlotForm
    var slotConflicts: seq<TimetableSlot>

    constructor (teacherId: string, subjects: seq<Subject>, todaySlots: seq<TodaySlot>,
                 selfStudy: seq<SelfStudyClaim>, requests: seq<CorrectionClaim>, slots: seq<TimetableSlot>)
      ensures this.teacherId == teacherId && this.subjects == subjects && this.todaySlots == todaySlots
      ensures selfStudyRequests == selfStudy && attendanceRequests == requests && teacherSlots == slots
      ensures toast == "" && !showStartClass && startForm == EmptyStartForm && activeSession.None?
      ensures newSlotForm == EmptySlotForm && slotConflicts == []
    {
      this.teacherId := teacherId;
      this.subjects := subjects;
      this.todaySlots := todaySlots;
      selfStudyRequests := selfStudy;
      attendanceRequests := requests;
      teacherSlots := slots;
      toast := "";
      showStartClass := false;
      startForm := EmptyStartForm;
      activeSession := None;
      newSlotForm := EmptySlotForm;
      slotConflicts := [];
    }

    /** The start-class form's submit. Nothing happens unless the chosen
        slot and subject both exist. Otherwise the request is sent (with
        coordinates only when a position was obtained); its success makes
        the new session live, closes the modal and empties the form, and its
        failure only sets the banner, leaving any live session as it was. */
    method StartSession(geo: Geo, reply: Outcome<StartReply>) returns (sent: Option<StartBody>)
      modifies this`toast, this`showStartClass, this`startForm, this`activeSession
      ensures sent.None? <==> Selection(todaySlots, subjects, old(startForm)).None?
      ensures sent.None? ==>
                toast == old(toast) && showStartClass == old(showStartClass)
                && startForm == old(startForm) && activeSession == old(activeSession)
      ensures sent.Some? ==>
                var (slot, subj) := Selection(todaySlots, subjects, old(startForm)).value;
                sent.value == StartRequest(slot, subj, geo)
                && (reply.Done? ==>
                      activeSession == Some(NewSession(reply.value, slot, subj)) && toast == SessionStarted
                      && !showStartClass && startForm == EmptyStartForm)
                && (reply.Failed? ==>
                      activeSession == old(activeSession) && toast == StartFailed
                      && showStartClass == old(showStartClass) && startForm == old(startForm))
    {
      var chosen := Selection(todaySlots, subjects, startForm);
      if chosen.None? {
        return None;
      }
      var (slot, subj) := chosen.value;
      sent := Some(StartRequest(slot, subj, geo));
      match reply
      case Done(created) =>
        activeSession := Some(NewSession(created, slot, subj));
        toast := SessionStarted;
        showStartClass := false;
        startForm := EmptyStartForm;
      case Failed(_) =>
        toast := StartFailed;
    }

    /** "View live list" (shown only with a live session): its success
        overwrites the count and the roster and nothing else; its failure
        leaves the session and sets the banner. */
    method RefreshLiveList(reply: Outcome<RosterReply>) returns (sessionId: string)
      requires activeSession.Some?
      modifies this`activeSession, this`toast
      ensures activeSession.Some?
      ensures sessionId == old(activeSession).value.id
      ensures reply.Done? ==> activeSession == Some(Refreshed(old(activeSession).value, reply.value)) && toast == old(toast)
      ensures reply.Failed? ==> activeSession == old(activeSession) && toast == RefreshFailed
    {
      sessionId := activeSession.value.id;
      match reply
      case Done(roster) =>
        activeSession := Some(Refreshed(activeSession.value, roster));
      case Failed(_) =>
        toast := RefreshFailed;
    }

    /** The CSV button opens the export of the live session in a new
        window; the dashboard's state is untouched. */
    method ExportRoster() returns (sessionId: string)
      requires activeSession.Some?
      ensures sessionId == activeSession.value.id
    {
      sessionId := activeSession.value.id;
    }

    /** "End session" is local only: the card goes away, no request is
        sent. */
    method EndSession()
      modifies this`activeSession, this`toast
      ensures activeSession.None? && toast == SessionEnded
    {
      activeSession := None;
      toast := SessionEnded;
    }

    /** Approve or reject a self-study claim: on success every claim with
        that id leaves the list; on failure the list stays. */
    method DecideSelfStudy(claim: SelfStudyClaim, approve: bool, reply: Outcome<()>)
      modifies this`selfStudyRequests, this`toast
      ensures reply.Done? ==> selfStudyRequests == AfterSelfStudyDecision(old(selfStudyRequests), claim)
      ensures reply.Failed? ==> selfStudyRequests == old(selfStudyRequests)
      ensures toast == SelfStudyDecisionToast(approve, reply.Done?, claim.studentName)
    {
      if reply.Done? {
        selfStudyRequests := AfterSelfStudyDecision(selfStudyRequests, claim);
      }
      toast := SelfStudyDecisionToast(approve, reply.Done?, claim.studentName);
    }

    /** Approve or reject an attendance request: on success every request
        with its key leaves the list; on failure the list stays. */
    method DecideAttendanceRequest(request: CorrectionClaim, approve: bool, reply: Outcome<()>)
      modifies this`attendanceRequests, this`toast
      ensures reply.Done? ==> attendanceRequests == AfterCorrectionDecision(old(attendanceRequests), request)
      ensures reply.Failed? ==> attendanceRequests == old(attendanceRequests)
      ensures toast == CorrectionDecisionToast(approve, reply.Done?, request.studentName)
    {
      if reply.Done? {
        attendanceRequests := AfterCorrectionDecision(attendanceRequests, request);
      }
      toast := CorrectionDecisionToast(approve, reply.Done?, request.studentName);
    }

    /** The new-slot form's submit. Earlier conflicts are cleared first. A
        missing required field sends nothing. A created slot is appended
        and the form keeps only subject and day; a 409 with a conflict list
        shows exactly that list; any other failure shows the server's
        error or a generic message. */
    method CreateSlot(reply: Outcome<TimetableSlot>) returns (sent: Option<SlotBody>)
      modifies this`slotConflicts, this`toast, this`teacherSlots, this`newSlotForm
      ensures sent == SlotRequest(teacherId, old(newSlotForm))
      ensures sent.None? ==>
                toast == MissingSlotFields && slotConflicts == []
                && teacherSlots == old(teacherSlots) && newSlotForm == old(newSlotForm)
      ensures sent.Some? && reply.Done? ==>
                teacherSlots == old(teacherSlots) + [reply.value] && toast == SlotCreated
                && newSlotForm == ClearedSlotForm(old(newSlotForm)) && slotConflicts == []
      ensures sent.Some? && reply.Failed? ==>
                teacherSlots == old(teacherSlots) && newSlotForm == old(newSlotForm)
                && (SlotConflicts(reply.failure).Some? ==>
                      slotConflicts == SlotConflicts(reply.failure).value && toast == SlotConflictToast)
                && (SlotConflicts(reply.failure).None? ==>
                      slotConflicts == [] && toast == ServerErrorOr(reply.failure, SlotCreateFailed))
    {
      slotConflicts := [];
      sent := SlotRequest(teacherId, newSlotForm);
      if sent.None? {
        toast := MissingSlotFields;
        return;
      }
      match reply
      case Done(created) =>
        teacherSlots := teacherSlots + [created];
        toast := SlotCreated;
        newSlotForm := ClearedSlotForm(newSlotForm);
      case Failed(f) =>
        var conflicts := SlotConflicts(f);
        if conflicts.Some? {
          slotConflicts := conflicts.value;
          toast := SlotConflictToast;
        } else {
          toast := ServerErrorOr(f, SlotCreateFailed);
        }
    }

    /** The rows of the "Manage timetable" table: every stored slot, ordered
        by day and start time, computed on a copy so the stored list keeps
        its order. */
    function SlotTable(): (rows: seq<TimetableSlot>)
      reads this
      ensures multiset(rows) == multiset(teacherSlots)
      ensures Sorted(rows)
    {
      SlotTableSorted(teacherSlots);
      SortForTable(teacherSlots)
    }
  }
}
