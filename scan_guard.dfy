/** The scan gate of the student dashboard's "Mark attendance" modal: a set
    of raw token strings already submitted in this scanning session, a flag
    that is set while one submission is in flight, and whether the scanner
    is shown at all. A scanner callback is either dropped or submits its
    token; while the scanner is not shown there is no callback. */
module ScanGuard {
  import opened Common

  /** One decoded QR code as the scanner reports it (`""` when it has no
      `rawValue`). */
  datatype ScanResult = ScanResult(rawValue: string)

  /** `window.__csUsedQrTokens`, `scanInProgress` and `scanning` (the
      scanner component is rendered only while `scanning` holds). */
  datatype Guard = Guard(used: set<string>, inFlight: bool, scanning: bool)

  /** Why `onScan` returned early, in the order its checks run. */
  datatype Drop = NoResults | Busy | EmptyValue | AlreadyUsed

  datatype Verdict = Dropped(reason: Drop) | Accepted(token: string)

  /** The events that touch the gate: a scanner callback; the settling of
      the submission it started (its `finally`); "Start QR scan"; closing
      the modal (backdrop or Cancel); and a scanner error. */
  datatype Event = Scan(results: seq<ScanResult>) | Settle | StartScan | Close | ScannerError

  /** The early returns of `onScan`. */
  function Check(g: Guard, results: seq<ScanResult>): (v: Verdict)
    ensures v.Accepted? <==> results != [] && !g.inFlight && results[0].rawValue != "" && results[0].rawValue !in g.used
    ensures v.Accepted? ==> v.token == results[0].rawValue
    ensures v == Dropped(Busy) ==> g.inFlight
    ensures v == Dropped(AlreadyUsed) ==> results != [] && results[0].rawValue in g.used
    ensures results == [] ==> v == Dropped(NoResults)
    ensures results != [] && g.inFlight ==> v == Dropped(Busy)
    ensures results != [] && !g.inFlight && results[0].rawValue == "" ==> v == Dropped(EmptyValue)
    ensures results != [] && !g.inFlight && results[0].rawValue != "" && results[0].rawValue in g.used ==> v == Dropped(AlreadyUsed)
  {
    if results == [] then Dropped(NoResults)
    else if g.inFlight then Dropped(Busy)
    else if results[0].rawValue == "" then Dropped(EmptyValue)
    else if results[0].rawValue in g.used then Dropped(AlreadyUsed)
    else Accepted(results[0].rawValue)
  }

  /** One event: the new gate state and the token submitted, if any. An
      accepted token is recorded before the request is made. A settled
      attempt, successful or not, stops the scanner, as do closing the modal
      and a scanner error; only "Start QR scan" starts it again. */
  function Step(g: Guard, e: Event): (r: (Guard, Option<string>))
    ensures r.1.Some? <==> e.Scan? && g.scanning && Check(g, e.results).Accepted?
    ensures r.1.Some? ==> r == (Guard(g.used + {r.1.value}, true, true), Some(Check(g, e.results).token))
    ensures e.Scan? && r.1.None? ==> r.0 == g
    ensures e.StartScan? ==> r.0 == Guard({}, false, true)
    ensures e.Settle? || e.Close? || e.ScannerError? ==> r.0 == Guard(g.used, false, false) && r.1.None?
  {
    match e
    case Scan(results) =>
      if !g.scanning then (g, None)
      else
        (match Check(g, results)
         case Accepted(t) => (Guard(g.used + {t}, true, true), Some(t))
         case Dropped(_) => (g, None))
    case Settle => (Guard(g.used, false, false), None)
    case StartScan => (Guard({}, false, true), None)
    case Close => (Guard(g.used, false, false), None)
    case ScannerError => (Guard(g.used, false, false), None)
  }

  /** A run of events: the final gate state and the tokens submitted, in
      order. */
  function Run(g: Guard, es: seq<Event>): (r: (Guard, seq<string>))
    decreases |es|
  {
    if es == [] then (g, [])
    else
      var (g1, sent) := Step(g, es[0]);
      var (g2, rest) := Run(g1, es[1..]);
      (g2, (if sent.Some? then [sent.value] else []) + rest)
  }

  predicate NoRestart(es: seq<Event>) {
    forall i :: 0 <= i < |es| ==> !es[i].StartScan?
  }

  predicate Distinct(ts: seq<string>) {
    forall i, j :: 0 <= i < j < |ts| ==> ts[i] != ts[j]
  }

  /** Within one scanning session (no "Start QR scan" in between), however
      often the scanner reports a value, each token is submitted at most
      once, none that was already used is submitted, and every submitted
      token is remembered. */
  lemma {:induction false} AtMostOncePerSession(g: Guard, es: seq<Event>)
    requires NoRestart(es)
    ensures Distinct(Run(g, es).1)
    ensures forall i :: 0 <= i < |Run(g, es).1| ==> Run(g, es).1[i] !in g.used
    ensures g.used + (set i | 0 <= i < |Run(g, es).1| :: Run(g, es).1[i]) <= Run(g, es).0.used
    decreases |es|
  {
    if es != [] {
      var (g1, sent) := Step(g, es[0]);
      assert g.used <= g1.used;
      assert sent.Some? ==> sent.value !in g.used && sent.value in g1.used;
      assert NoRestart(es[1..]) by {
        forall i | 0 <= i < |es[1..]| ensures !es[1..][i].StartScan? {
          assert es[1..][i] == es[i + 1];
        }
      }
      AtMostOncePerSession(g1, es[1..]);
      var rest := Run(g1, es[1..]).1;
      var ts := Run(g, es).1;
      assert ts == (if sent.Some? then [sent.value] else []) + rest;
      if sent.Some? {
        assert forall i :: 0 <= i < |rest| ==> rest[i] != sent.value;
        forall i | 0 <= i < |ts| ensures ts[i] !in g.used {
          if i > 0 { assert ts[i] == rest[i - 1]; }
        }
        forall t | t in (set i | 0 <= i < |ts| :: ts[i]) ensures t in Run(g, es).0.used {
          var i :| 0 <= i < |ts| && ts[i] == t;
          if i > 0 { assert rest[i - 1] == t; }
        }
      } else {
        forall t | t in (set i | 0 <= i < |ts| :: ts[i]) ensures t in Run(g, es).0.used {
          var i :| 0 <= i < |ts| && ts[i] == t;
          assert rest[i] == t;
        }
      }
    }
  }

  /** In a sequential run the used set is empty whenever the scanner is
      shown and idle: "Start QR scan" empties it, and every accepted token
      keeps the attempt in flight until it settles, which stops the
      scanner. */
  predicate Consistent(g: Guard) {
    g.scanning && !g.inFlight ==> g.used == {}
  }

  lemma StepKeepsConsistent(g: Guard, e: Event)
    requires Consistent(g)
    ensures Consistent(Step(g, e).0)
  {
  }

  lemma {:induction false} RunKeepsConsistent(g: Guard, es: seq<Event>)
    requires Consistent(g)
    ensures Consistent(Run(g, es).0)
    decreases |es|
  {
    if es != [] {
      StepKeepsConsistent(g, es[0]);
      RunKeepsConsistent(Step(g, es[0]).0, es[1..]);
    }
  }

  /** Hence, one event at a time, no scan is ever dropped as a duplicate: a
      repeat arriving while its attempt is in flight is dropped as busy, and
      after it settles the scanner is gone until a restart empties the set.
      The set only matters for callbacks that overlap. */
  lemma NeverDroppedAsUsed(g: Guard, results: seq<ScanResult>)
    requires Consistent(g) && g.scanning
    ensures Check(g, results) != Dropped(AlreadyUsed)
  {
  }

  /** The same code reported twice by the scanner while its attempt is in
      flight is submitted once. */
  lemma RepeatedScanSubmitsOnce(g: Guard, token: string)
    requires token != ""
    ensures Run(g, [StartScan, Scan([ScanResult(token)]), Scan([ScanResult(token)])]).1 == [token]
  {
    var scan := Scan([ScanResult(token)]);
    var es := [StartScan, scan, scan];
    var g0 := Guard({}, false, true);
    var g1 := Guard({token}, true, true);
    assert Step(g, StartScan) == (g0, None);
    assert [ScanResult(token)][0].rawValue == token;
    assert Check(g0, [ScanResult(token)]) == Accepted(token);
    assert Step(g0, scan).1 == Some(token);
    assert g0.used + {token} == g1.used;
    assert Step(g0, scan) == (g1, Some(token));
    assert Step(g1, scan) == (g1, None);
    assert es[1..] == [scan, scan] && es[1..][1..] == [scan] && [scan][1..] == [];
    assert Run(g1, []) == (g1, []);
    assert Run(g1, [scan]).1 == [];
    assert Run(g0, [scan, scan]).1 == [token];
  }

  /** A code scanned again in a new scanning session, after the first
      attempt settled and "Start QR scan" was pressed again, is submitted a
      second time. */
  lemma RescanInNewSessionSubmitsAgain(g: Guard, token: string)
    requires token != ""
    ensures Run(g, [StartScan, Scan([ScanResult(token)]), Settle, StartScan, Scan([ScanResult(token)])]).1 == [token, token]
  {
    var scan := Scan([ScanResult(token)]);
    var es := [StartScan, scan, Settle, StartScan, scan];
    var g0 := Guard({}, false, true);
    var g1 := Guard({token}, true, true);
    var g2 := Guard({token}, false, false);
    var g3 := Guard({token}, true, true);
    assert Step(g, StartScan) == (g0, None);
    assert [ScanResult(token)][0].rawValue == token;
    assert Check(g0, [ScanResult(token)]) == Accepted(token);
    assert Step(g0, scan).1 == Some(token);
    assert g0.used + {token} == g1.used;
    assert Step(g0, scan) == (g1, Some(token));
    assert Step(g1, Settle) == (g2, None);
    assert Step(g2, StartScan) == (g0, None);
    assert es[1..] == [scan, Settle, StartScan, scan];
    assert es[1..][1..] == [Settle, StartScan, scan];
    assert es[1..][1..][1..] == [StartScan, scan];
    assert es[1..][1..][1..][1..] == [scan] && [scan][1..] == [];
    assert Run(g3, []) == (g3, []);
    assert Run(g0, [scan]).1 == [token];
    assert Run(g2, [StartScan, scan]).1 == [token];
    assert Run(g1, [Settle, StartScan, scan]).1 == [token];
    assert Run(g0, [scan, Settle, StartScan, scan]).1 == [token, token];
  }

  /** "Start QR scan" empties the set, clears the flag and shows the
      scanner, so any non-empty token is accepted. */
  lemma RestartAcceptsAnyToken(g: Guard, token: string)
    requires token != ""
    ensures Step(Step(g, StartScan).0, Scan([ScanResult(token)])).1 == Some(token)
  {
  }

  /** Closing the modal stops the scanner and clears the flag but keeps
      the set; no scan is taken until "Start QR scan", which empties it. */
  lemma CloseStopsScanner(g: Guard, results: seq<ScanResult>)
    ensures Step(g, Close).0 == Guard(g.used, false, false)
    ensures Step(Step(g, Close).0, Scan(results)).1 == None
  {
  }
}
