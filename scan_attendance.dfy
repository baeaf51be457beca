/** The standalone "Scan class QR" screen: a second version of the scan
    gate with an in-flight flag only (no set of used tokens), and a status
    line that reports the mark attempt. */
module ScanAttendance {
  import opened Common
  import opened GeoMark
  import ScanGuard

  const Locating := "Getting your location..."
  const Marked := "Attendance marked."
  const ScannerFault := "Scanner error."
  const MarkFailed := "Failed to mark attendance."

  /** Scanner callback, settling of the attempt it started, scanner error. */
  datatype ScreenEvent = Scan(results: seq<ScanGuard.ScanResult>) | Settle | ScannerError

  /** One event: the new in-flight flag and the token sent for marking.
      The raw value is not checked: an empty one is submitted too. */
  function ScreenStep(busy: bool, e: ScreenEvent): (r: (bool, Option<string>))
    ensures r.1.Some? <==> e.Scan? && e.results != [] && !busy
    ensures r.1.Some? ==> r.1.value == e.results[0].rawValue && r.0
    ensures !e.Scan? ==> !r.0
    ensures e.Scan? && r.1.None? ==> r.0 == busy
  {
    match e
    case Scan(results) =>
      if results == [] || busy then (busy, None) else (true, Some(results[0].rawValue))
    case Settle => (false, None)
    case ScannerError => (false, None)
  }

  function ScreenRun(busy: bool, es: seq<ScreenEvent>): (bool, seq<string>)
    decreases |es|
  {
    if es == [] then (busy, [])
    else
      var (b1, sent) := ScreenStep(busy, es[0]);
      var (b2, rest) := ScreenRun(b1, es[1..]);
      (b2, (if sent.Some? then [sent.value] else []) + rest)
  }

  /** Each token scanned once, each scan settling before the next. */
  function Rounds(tokens: seq<string>): (es: seq<ScreenEvent>)
    ensures |es| == 2 * |tokens|
    decreases |tokens|
  {
    if tokens == [] then []
    else [Scan([ScanGuard.ScanResult(tokens[0])]), Settle] + Rounds(tokens[1..])
  }

  /** Without a set of used tokens, every scan made after the previous
      attempt settled is submitted, repeats included: scanning the same
      code twice marks twice. */
  lemma {:induction false} EveryRoundSubmitted(tokens: seq<string>)
    ensures ScreenRun(false, Rounds(tokens)) == (false, tokens)
    decreases |tokens|
  {
    if tokens != [] {
      var es := Rounds(tokens);
      assert es[1..][1..] == Rounds(tokens[1..]);
      EveryRoundSubmitted(tokens[1..]);
      assert es[1..][0] == Settle;
      assert ScreenStep(true, Settle) == (false, None);
      var tail := ScreenRun(false, es[1..][1..]);
      assert tail == (false, tokens[1..]);
      assert ScreenRun(true, es[1..]) == (tail.0, [] + tail.1);
      assert [] + tokens[1..] == tokens[1..];
      assert tokens == [tokens[0]] + tokens[1..];
    }
  }

  /** While an attempt is in flight every scanner callback is dropped. */
  lemma {:induction false} BusyDropsScans(busy: bool, es: seq<ScreenEvent>)
    requires busy
    requires forall i :: 0 <= i < |es| ==> es[i].Scan?
    ensures ScreenRun(busy, es) == (true, [])
    decreases |es|
  {
    if es != [] {
      assert forall i :: 0 <= i < |es[1..]| ==> es[1..][i] == es[i + 1];
      BusyDropsScans(busy, es[1..]);
      assert ScreenStep(busy, es[0]) == (true, None);
      var r := ScreenRun(busy, es);
      var none: seq<string> := [];
      assert r.0 && r.1 == none + none;
      assert none + none == none;
    }
  }

  /** The status once the attempt settles. Without a geolocation API no
      request is sent, yet the status claims success. */
  function FinalStatus(geo: Geo, post: Outcome<()>): (s: string)
    ensures geo.Unavailable? ==> s == Marked
    ensures post.Done? ==> s == Marked
    ensures !geo.Unavailable? && post.Failed? ==> s == ErrorText(post.failure, MarkFailed)
  {
    if geo.Unavailable? || post.Done? then Marked
    else ErrorText(post.failure, MarkFailed)
  }

  class Screen {
    /** `user.id` from the stored login. */
    const studentId: string
    var status: string
    var scanInProgress: bool

    constructor (studentId: string)
      ensures this.studentId == studentId && status == "" && !scanInProgress
    {
      this.studentId := studentId;
      status := "";
      scanInProgress := false;
    }

    /** `handleScan` up to its first suspension: dropped with no results or
        while busy; otherwise the flag is set, the status says the location
        is being obtained, and the raw value is the code to mark. */
    method HandleScan(results: seq<ScanGuard.ScanResult>) returns (code: Option<string>)
      modifies this`status, this`scanInProgress
      ensures (scanInProgress, code) == ScreenStep(old(scanInProgress), Scan(results))
      ensures code.Some? ==> status == Locating
      ensures code.None? ==> status == old(status)
    {
      if results == [] || scanInProgress {
        return None;
      }
      scanInProgress := true;
      code := Some(results[0].rawValue);
      status := Locating;
    }

    /** The rest of `markWithCode` and `handleScan`: the request (none
        without a geolocation API, coordinates only with a fix), the final
        status, and the flag cleared on every path since every error is
        caught. */
    method FinishMark(code: string, geo: Geo, post: Outcome<()>) returns (sent: Option<MarkBody>)
      modifies this`status, this`scanInProgress
      ensures sent == ScreenRequest(studentId, code, geo)
      ensures sent.Some? ==> Paired(sent.value)
      ensures status == FinalStatus(geo, post)
      ensures (scanInProgress, None) == ScreenStep(old(scanInProgress), Settle)
    {
      sent := ScreenRequest(studentId, code, geo);
      if sent.None? || post.Done? {
        status := Marked;
      } else {
        status := ErrorText(post.failure, MarkFailed);
      }
      scanInProgress := false;
    }

    /** The scanner's error callback. */
    method OnScannerError()
      modifies this`status, this`scanInProgress
      ensures status == ScannerFault
      ensures (scanInProgress, None) == ScreenStep(old(scanInProgress), ScannerError)
    {
      status := ScannerFault;
      scanInProgress := false;
    }
  }
}
