/** The student dashboard's event handlers as one object whose fields are the
    component's state (and the browser storage it writes). Each asynchronous
    handler whose awaited results matter is one method taking those results
    as parameters; the scan handler is split at its first suspension into
    `OnScan` (the gate) and `SettleScan` (the mark request and its outcome),
    so that scanner callbacks arriving while a submission is in flight are
    events of their own. */
module StudentDashboard {
  import opened Common
  import opened Toasts
  import opened GeoMark
  import opened ScanGuard
  import opened StudentViews

  /** A submission started by an accepted scan: the token, and the subject
      label computed when the scan was accepted (the handler's closure). */
  datatype Attempt = Attempt(sessionCode: string, subjectLabel: string)

  const ScannerErrorNotice := Notice(Some(Error), "Scanner error", "Could not access camera.")
  const CorrectionSentNotice := Notice(Some(Success), "Request submitted", "Attendance correction request created.")
  const MissingFieldsNotice := Notice(Some(Error), "Missing fields", "Please select subject and date for self\U{2011}study.")
  const SelfStudySentNotice := Notice(Some(Success), "Submitted", "Self\U{2011}study submission sent to your teacher.")

  function MarkedNotice(subjectLabel: string): Notice {
    Notice(Some(Success), "Attendance marked", subjectLabel + " marked as present.")
  }

  function ErrorNotice(message: string): Notice {
    Notice(Some(Error), "Error", message)
  }

  /** The failure that ends a scan's submission, if any: the mark request's,
      else (the mark having succeeded) the overview refetch's. */
  function SettleFailure(mark: Outcome<()>, refetch: Outcome<Overview>): (f: Option<Failure>)
    ensures f.None? <==> mark.Done? && refetch.Done?
    ensures mark.Failed? ==> f == Some(mark.failure)
    ensures mark.Done? && refetch.Failed? ==> f == Some(refetch.failure)
  {
    if mark.Failed? then Some(mark.failure)
    else if refetch.Failed? then Some(refetch.failure)
    else None
  }

  class Dashboard {
    /** `user.id` from the stored login, used for marking attendance. */
    const userId: string
    var overview: Overview
    var toasts: seq<Toast>
    /** Stands in for `Date.now() + Math.random()` as a source of toast ids. */
    var nextToastId: nat

    var showMark: bool
    var scanning: bool
    var scanInProgress: bool
    /** The set of raw tokens already submitted (`window.__csUsedQrTokens`). */
    var usedTokens: set<string>
    var markMessage: string
    var markSubject: string
    var currentClass: Option<ScheduleEntry>

    var weeklyTimetable: Option<Timetable>
    var timetableLoading: bool
    /** The browser's local storage, as far as the timetable cache uses it. */
    var storage: map<string, Timetable>

    var notifications: seq<Notification>
    var showNotifications: bool

    var showCorrection: bool
    var correctionForm: CorrectionForm
    var correctionRequests: seq<Correction>

    var showSelfStudy: bool
    var selfStudyForm: SelfStudyForm
    var selfStudyList: seq<SelfStudy>

    /** Toast ids are unique, and all below the next id to hand out; and
        the token set is empty whenever the scanner is shown with nothing in
        flight. */
    ghost predicate Valid()
      reads this
    {
      && UniqueIds(toasts)
      && (forall i :: 0 <= i < |toasts| ==> toasts[i].id < nextToastId)
      && Consistent(Gate())
    }

    /** The scan gate's part of the state. */
    function Gate(): Guard
      reads this
    {
      Guard(usedTokens, scanInProgress, scanning)
    }

    /** The dashboard right after its initial load: the subject pickers
        start on the first subject, and the class running at `now`, if any,
        becomes the current class and the subject to mark. */
    constructor (userId: string, overview: Overview, now: string, storage: map<string, Timetable>,
                 notifications: seq<Notification>, corrections: seq<Correction>, selfStudies: seq<SelfStudy>)
      ensures Valid()
      ensures this.userId == userId && this.overview == overview && this.storage == storage
      ensures this.notifications == notifications && correctionRequests == corrections && selfStudyList == selfStudies
      ensures toasts == [] && !showMark && !scanning && !scanInProgress && usedTokens == {} && markMessage == ""
      ensures currentClass == RunningClass(overview.todaySchedule, now)
      ensures currentClass.Some? ==> markSubject == currentClass.value.subjectCode
      ensures currentClass.None? && overview.subjects != [] ==> markSubject == overview.subjects[0].subjectCode
      ensures currentClass.None? && overview.subjects == [] ==> markSubject == ""
      ensures selfStudyForm.subjectCode == (if overview.subjects != [] then overview.subjects[0].subjectCode else "")
      ensures weeklyTimetable.None? && !timetableLoading && !showNotifications && !showCorrection && !showSelfStudy
      ensures correctionForm == EmptyCorrectionForm
    {
      this.userId := userId;
      this.overview := overview;
      this.storage := storage;
      this.notifications := notifications;
      correctionRequests := corrections;
      selfStudyList := selfStudies;
      toasts := [];
      nextToastId := 0;
      showMark, scanning, scanInProgress := false, false, false;
      usedTokens := {};
      markMessage := "";
      var first := if overview.subjects != [] then overview.subjects[0].subjectCode else "";
      selfStudyForm := SelfStudyForm(first, "", "", "");
      var running := RunningClass(overview.todaySchedule, now);
      currentClass := running;
      markSubject := if running.Some? then running.value.subjectCode else first;
      weeklyTimetable := None;
      timetableLoading := false;
      showNotifications, showCorrection, showSelfStudy := false, false, false;
      correctionForm := EmptyCorrectionForm;
      new;
      assert Gate() == Guard({}, false, false);
    }

    /** `pushToast`: append one toast with a fresh id. */
    method PushToast(n: Notice)
      requires Valid()
      modifies this`toasts, this`nextToastId
      ensures Valid()
      ensures toasts == Push(old(toasts), old(nextToastId), n)
      ensures nextToastId == old(nextToastId) + 1
    {
      toasts := Push(toasts, nextToastId, n);
      nextToastId := nextToastId + 1;
    }

    /** The close button of a toast. */
    method DismissToast(id: nat)
      requires Valid()
      modifies this`toasts
      ensures Valid()
      ensures toasts == Remove(old(toasts), id)
    {
      RemoveKeepsUnique(toasts, id);
      toasts := Remove(toasts, id);
    }

    /** The 5-second timer of toast `id` firing. */
    method ExpireToast(id: nat)
      requires Valid()
      modifies this`toasts
      ensures Valid()
      ensures toasts == Remove(old(toasts), id)
    {
      RemoveKeepsUnique(toasts, id);
      toasts := Remove(toasts, id);
    }

    // ------------------------------------------------------------ scan modal

    /** The "Mark Attendance" quick action. */
    method OpenMark()
      requires Valid()
      modifies this`showMark
      ensures Valid()
      ensures showMark
    {
      showMark := true;
    }

    /** "Start QR scan": a new scanning session with an empty token set. The
        button is inside the modal and disabled while scanning. */
    method StartScan()
      requires Valid() && showMark && !scanning
      ensures Valid()
      modifies this`scanning, this`scanInProgress, this`usedTokens
      ensures scanning
      ensures Gate() == Step(old(Gate()), Event.StartScan).0
      ensures usedTokens == {} && !scanInProgress
    {
      scanning := true;
      scanInProgress := false;
      usedTokens := {};
    }

    /** The backdrop click and the Cancel button: the modal closes, the
        token set is kept. */
    method CloseMark()
      requires Valid()
      ensures Valid()
      modifies this`showMark, this`scanning, this`scanInProgress
      ensures !showMark && !scanning
      ensures Gate() == Step(old(Gate()), Close).0
      ensures usedTokens == old(usedTokens)
    {
      showMark := false;
      scanning := false;
      scanInProgress := false;
    }

    /** A scanner callback up to its first suspension: dropped, or its token
        recorded and the in-flight flag set, before any request is made. The
        scanner, and so this callback, exists only while scanning. With one
        event at a time the token set never drops a scan: a first value with
        nothing in flight is always submitted. */
    method OnScan(results: seq<ScanResult>) returns (attempt: Option<Attempt>)
      requires Valid() && scanning
      modifies this`usedTokens, this`scanInProgress
      ensures Valid()
      ensures results != [] && !old(scanInProgress) && results[0].rawValue != "" ==> attempt.Some?
      ensures Gate() == Step(old(Gate()), Scan(results)).0
      ensures attempt.None? <==> Step(old(Gate()), Scan(results)).1.None?
      ensures attempt.Some? ==> attempt.value.sessionCode == Step(old(Gate()), Scan(results)).1.value
      ensures attempt.Some? ==> attempt.value.subjectLabel == ScanLabel(overview.subjects, ScanSubject(currentClass, markSubject))
    {
      NeverDroppedAsUsed(Gate(), results);
      if results == [] || scanInProgress {
        return None;
      }
      var raw := results[0].rawValue;
      if raw == "" || raw in usedTokens {
        return None;
      }
      usedTokens := usedTokens + {raw};
      scanInProgress := true;
      var shown := ScanLabel(overview.subjects, ScanSubject(currentClass, markSubject));
      attempt := Some(Attempt(raw, shown));
    }

    /** The rest of an accepted scan: the mark request is sent (with the
        coordinates exactly when a fix was obtained); on its success the
        overview is refetched. Success replaces the overview, sets the
        banner, pushes one success toast and closes scanner and modal; a
        failure of either request pushes one error toast and stops the
        scanner only. The in-flight flag is cleared on every path. */
    method SettleScan(a: Attempt, geo: Geo, mark: Outcome<()>, refetch: Outcome<Overview>) returns (sent: MarkBody)
      requires Valid()
      modifies this`overview, this`markMessage, this`toasts, this`nextToastId, this`scanning, this`showMark, this`scanInProgress
      ensures Valid()
      ensures sent == DashboardBody(userId, a.sessionCode, geo)
      ensures !scanInProgress && !scanning
      ensures Gate() == Step(old(Gate()), Settle).0
      ensures SettleFailure(mark, refetch).None? ==>
                overview == refetch.value && markMessage == "Attendance marked for " + a.subjectLabel + "."
                && toasts == Push(old(toasts), old(nextToastId), MarkedNotice(a.subjectLabel)) && !showMark
      ensures SettleFailure(mark, refetch).Some? ==>
                overview == old(overview) && markMessage == old(markMessage) && showMark == old(showMark)
                && toasts == Push(old(toasts), old(nextToastId),
                                  ErrorNotice(ErrorText(SettleFailure(mark, refetch).value, "Failed to mark attendance.")))
    {
      sent := DashboardBody(userId, a.sessionCode, geo);
      var failure := SettleFailure(mark, refetch);
      if failure.None? {
        overview := refetch.value;
        markMessage := "Attendance marked for " + a.subjectLabel + ".";
        PushToast(MarkedNotice(a.subjectLabel));
        scanning := false;
        showMark := false;
      } else {
        PushToast(ErrorNotice(ErrorText(failure.value, "Failed to mark attendance.")));
        scanning := false;
      }
      scanInProgress := false;
    }

    /** The scanner's error callback. */
    method OnScannerError()
      requires Valid()
      modifies this`toasts, this`nextToastId, this`scanning, this`scanInProgress
      ensures Valid()
      ensures toasts == Push(old(toasts), old(nextToastId), ScannerErrorNotice)
      ensures !scanning && Gate() == Step(old(Gate()), ScannerError).0
    {
      PushToast(ScannerErrorNotice);
      scanning := false;
      scanInProgress := false;
    }

    // ------------------------------------------------------------- timetable

    /** `fetchWeeklyTimetable`: nothing without a section; otherwise the
        reply (or the cached copy on failure) is shown, the storage and the
        toasts change as `FetchTimetable` says, and loading ends false. */
    method FetchWeeklyTimetable(reply: Outcome<Option<Timetable>>) returns (requested: bool)
      requires Valid()
      modifies this`weeklyTimetable, this`timetableLoading, this`storage, this`toasts, this`nextToastId
      ensures Valid()
      ensures requested <==> overview.section != ""
      ensures !requested ==>
                weeklyTimetable == old(weeklyTimetable) && timetableLoading == old(timetableLoading)
                && storage == old(storage) && toasts == old(toasts)
      ensures requested ==>
                var f := FetchTimetable(overview.section, old(storage), reply);
                weeklyTimetable == f.shown && storage == f.storage && !timetableLoading
                && toasts == (if f.notice.Some? then Push(old(toasts), old(nextToastId), f.notice.value) else old(toasts))
    {
      if overview.section == "" {
        return false;
      }
      requested := true;
      var key := CacheKey(overview.section);
      timetableLoading := true;
      match reply {
        case Done(d) =>
          var data := d.GetOr(map[]);
          weeklyTimetable := Some(data);
          storage := storage[key := data];
        case Failed(_) =>
          if key in storage {
            weeklyTimetable := Some(storage[key]);
            PushToast(OfflineNotice);
          } else {
            weeklyTimetable := None;
            PushToast(TimetableErrorNotice);
          }
      }
      timetableLoading := false;
    }

    // --------------------------------------------------------- notifications

    /** "Mark all read & close": the ids of the unread notifications are
        sent (nothing is sent when none is unread); on success exactly those
        are marked read; the panel closes whatever happens. */
    method MarkAllRead(reply: Outcome<()>) returns (sent: Option<seq<string>>)
      requires Valid()
      modifies this`notifications, this`showNotifications
      ensures Valid()
      ensures reply.Done? ==> BellBadge().None?
      ensures sent.None? <==> UnreadIds(old(notifications)) == []
      ensures sent.Some? ==> sent.value == UnreadIds(old(notifications))
      ensures notifications == if sent.Some? && reply.Done? then MarkRead(old(notifications), sent.value) else old(notifications)
      ensures !showNotifications
    {
      var ids := UnreadIds(notifications);
      if ids != [] {
        sent := Some(ids);
        if reply.Done? {
          notifications := MarkRead(notifications, ids);
        }
      } else {
        sent := None;
      }
      showNotifications := false;
    }

    /** The bell's badge for the current notifications: hidden exactly
        when every notification is read, "9+" above nine unread, otherwise
        the unread count as one digit. */
    function BellBadge(): (r: Option<string>)
      reads this
      ensures r.None? <==> forall i :: 0 <= i < |notifications| ==> notifications[i].isRead
      ensures r == Some("9+") <==> |UnreadAt(notifications)| > 9
      ensures r.Some? && |UnreadAt(notifications)| <= 9 ==>
                |r.value| == 1 && r.value[0] as int - '0' as int == |UnreadAt(notifications)|
    {
      NothingUnreadSendsNothing(notifications);
      Badge(|UnreadIds(notifications)|)
    }

    // ------------------------------------------------------------ corrections

    /** The correction form's submit: the request is always sent; on success
        one mapped entry is prepended and a success toast pushed, on failure
        an error toast; either way the modal closes and the form resets. */
    method SubmitCorrection(reply: Outcome<CorrectionReply>) returns (body: CorrectionBody)
      requires Valid()
      modifies this`correctionRequests, this`toasts, this`nextToastId, this`showCorrection, this`correctionForm
      ensures Valid()
      ensures body == CorrectionRequest(overview.studentId, overview.subjects, old(correctionForm))
      ensures reply.Done? ==>
                correctionRequests == [CorrectionEntry(reply.value, overview.subjects, old(correctionForm))] + old(correctionRequests)
                && toasts == Push(old(toasts), old(nextToastId), CorrectionSentNotice)
      ensures reply.Failed? ==>
                correctionRequests == old(correctionRequests)
                && toasts == Push(old(toasts), old(nextToastId),
                                  ErrorNotice(ServerErrorOr(reply.failure, "Failed to submit correction request.")))
      ensures !showCorrection && correctionForm == EmptyCorrectionForm
    {
      body := CorrectionRequest(overview.studentId, overview.subjects, correctionForm);
      match reply {
        case Done(r) =>
          correctionRequests := [CorrectionEntry(r, overview.subjects, correctionForm)] + correctionRequests;
          PushToast(CorrectionSentNotice);
        case Failed(f) =>
          PushToast(ErrorNotice(ServerErrorOr(f, "Failed to submit correction request.")));
      }
      showCorrection := false;
      correctionForm := EmptyCorrectionForm;
    }

    // ------------------------------------------------------------- self-study

    /** The self-study form's submit: with subject or date missing only an
        error toast; otherwise the request is sent, and on success one entry
        is prepended, a success toast pushed, the form cleared except for the
        subject, and the modal closed; on failure only an error toast. */
    method SubmitSelfStudy(reply: Outcome<SelfStudyReply>) returns (body: Option<SelfStudyBody>)
      requires Valid()
      modifies this`selfStudyList, this`toasts, this`nextToastId, this`showSelfStudy, this`selfStudyForm
      ensures Valid()
      ensures body == SelfStudyRequest(overview.studentId, old(selfStudyForm))
      ensures body.None? ==>
                toasts == Push(old(toasts), old(nextToastId), MissingFieldsNotice)
                && selfStudyList == old(selfStudyList) && selfStudyForm == old(selfStudyForm) && showSelfStudy == old(showSelfStudy)
      ensures body.Some? && reply.Done? ==>
                selfStudyList == [SelfStudyEntry(reply.value, old(selfStudyForm))] + old(selfStudyList)
                && toasts == Push(old(toasts), old(nextToastId), SelfStudySentNotice)
                && selfStudyForm == SelfStudyForm(old(selfStudyForm).subjectCode, "", "", "") && !showSelfStudy
      ensures body.Some? && reply.Failed? ==>
                toasts == Push(old(toasts), old(nextToastId), ErrorNotice(ServerErrorOr(reply.failure, "Failed to submit self\U{2011}study.")))
                && selfStudyList == old(selfStudyList) && selfStudyForm == old(selfStudyForm) && showSelfStudy == old(showSelfStudy)
    {
      body := SelfStudyRequest(overview.studentId, selfStudyForm);
      if body.None? {
        PushToast(MissingFieldsNotice);
        return;
      }
      match reply {
        case Done(s) =>
          selfStudyList := [SelfStudyEntry(s, selfStudyForm)] + selfStudyList;
          PushToast(SelfStudySentNotice);
          var first := if overview.subjects != [] then overview.subjects[0].subjectCode else "";
          selfStudyForm := SelfStudyForm(FirstNonEmpty([selfStudyForm.subjectCode, first], ""), "", "", "");
          showSelfStudy := false;
        case Failed(f) =>
          PushToast(ErrorNotice(ServerErrorOr(f, "Failed to submit self\U{2011}study.")));
      }
    }
  }
}
