/** The print-job state machine of the state store: it opens a job when the
    printer starts printing and closes it, emitting one history record, when
    the print completes, is cancelled, fails or drops back to standby. */
module JobTracker {
  import opened Wrappers
  import opened Json

  /** The open job (id and start time, each possibly absent) and the last
      print state the tracker saw. */
  datatype Tracker = Tracker(jobId: Option<string>, jobStart: Option<real>, last: Value)

  /** One job-history record, as handed to the job sink. */
  datatype JobRecord = JobRecord(
    jobId: string,
    filename: Value,
    startTime: Option<real>,
    endTime: real,
    totalDuration: real,
    status: Value,
    filamentUsed: Value)

  const Idle := Tracker(None, None, Str("standby"))

  /** A job is open when its id is present and non-empty (Python truthiness). */
  predicate IsOpen(t: Tracker) {
    t.jobId.Some? && t.jobId.value != ""
  }

  /** Id and start time are set and cleared together. */
  predicate Paired(t: Tracker) {
    t.jobId.Some? <==> t.jobStart.Some?
  }

  /** end - start, or 0 when the start time is absent or zero (falsy). */
  function Duration(start: Option<real>, now: real): (d: real)
    ensures start.Some? && start.value != 0.0 ==> d == now - start.value
    ensures start.None? || start.value == 0.0 ==> d == 0.0
  {
    if start.Some? && start.value != 0.0 then now - start.value else 0.0
  }

  predicate IsTerminal(s: Value) {
    s == Str("cancelled") || s == Str("error") || s == Str("standby")
  }

  /** One call of the state-change handler with the new print state, the
      current filename and filament figure, the clock and a fresh id. */
  function Step(t: Tracker, newState: Value, filename: Value, filament: Value, now: real, freshId: string)
    : (r: (Tracker, Option<JobRecord>))
    ensures r.0.last == newState
    ensures r.1.Some? ==> IsOpen(t) && r.0.jobId.None? && r.0.jobStart.None?
    ensures r.1.Some? ==>
      && r.1.value.jobId == t.jobId.value && r.1.value.startTime == t.jobStart
      && r.1.value.endTime == now && r.1.value.totalDuration == Duration(t.jobStart, now)
      && r.1.value.filename == filename && r.1.value.filamentUsed == filament
    ensures newState == Str("printing") && t.last != Str("printing") ==> r.0.jobId == Some(freshId) && r.0.jobStart == Some(now)
    ensures r.1.None? && !(newState == Str("printing") && t.last != Str("printing")) ==> r.0 == t.(last := newState)
  {
    if newState == Str("printing") && t.last != Str("printing") then
      (Tracker(Some(freshId), Some(now), newState), None)
    else if newState == Str("complete") && IsOpen(t) then
      (Tracker(None, None, newState),
       Some(JobRecord(t.jobId.value, filename, t.jobStart, now, Duration(t.jobStart, now), Str("completed"), filament)))
    else if IsTerminal(newState) && IsOpen(t) then
      var status := if newState == Str("cancelled") || newState == Str("error") then newState else Str("cancelled");
      (Tracker(None, None, newState),
       Some(JobRecord(t.jobId.value, filename, t.jobStart, now, Duration(t.jobStart, now), status, filament)))
    else
      (t.(last := newState), None)
  }

  /** Entering "printing" from any other state opens a fresh job, replacing
      whatever job was open (for example when resuming from "paused"). */
  lemma StartOpensFreshJob(t: Tracker, filename: Value, filament: Value, now: real, freshId: string)
    requires t.last != Str("printing")
    ensures Step(t, Str("printing"), filename, filament, now, freshId)
      == (Tracker(Some(freshId), Some(now), Str("printing")), None)
  {
  }

  /** Staying in "printing" keeps the open job as it is. */
  lemma StayingInPrintingKeepsJob(t: Tracker, filename: Value, filament: Value, now: real, freshId: string)
    requires t.last == Str("printing")
    ensures Step(t, Str("printing"), filename, filament, now, freshId) == (t, None)
  {
  }

  /** Pausing leaves the open job as it was and records nothing. */
  lemma PauseKeepsJob(t: Tracker, filename: Value, filament: Value, now: real, freshId: string)
    ensures Step(t, Str("paused"), filename, filament, now, freshId) == (t.(last := Str("paused")), None)
  {
  }

  /** Which records are emitted, and with which status: "completed" for
      complete, the state itself for cancelled and error, "cancelled" for
      standby; nothing without an open job or for any other state. */
  lemma RecordStatus(t: Tracker, s: Value, filename: Value, filament: Value, now: real, freshId: string)
    ensures var r := Step(t, s, filename, filament, now, freshId);
      && (r.1.Some? <==> IsOpen(t) && (s == Str("complete") || IsTerminal(s)))
      && (r.1.Some? && s == Str("complete") ==> r.1.value.status == Str("completed"))
      && (r.1.Some? && (s == Str("cancelled") || s == Str("error")) ==> r.1.value.status == s)
      && (r.1.Some? && s == Str("standby") ==> r.1.value.status == Str("cancelled"))
  {
  }

  /** The handler keeps id and start time paired. */
  lemma StepKeepsPairing(t: Tracker, s: Value, filename: Value, filament: Value, now: real, freshId: string)
    requires Paired(t)
    ensures Paired(Step(t, s, filename, filament, now, freshId).0)
  {
  }

  /** A print-state event as the handler receives it. */
  datatype Event = Event(state: Value, filename: Value, filament: Value, now: real, freshId: string)

  /** The tracker after a sequence of events, and the records they emitted, in order. */
  function Run(t: Tracker, evs: seq<Event>): (Tracker, seq<JobRecord>)
    decreases |evs|
  {
    if |evs| == 0 then (t, [])
    else
      var prev := Run(t, evs[..|evs| - 1]);
      var e := evs[|evs| - 1];
      var r := Step(prev.0, e.state, e.filename, e.filament, e.now, e.freshId);
      (r.0, prev.1 + (if r.1.Some? then [r.1.value] else []))
  }

  /** How many events report "printing". */
  function CountPrinting(evs: seq<Event>): nat
    decreases |evs|
  {
    if |evs| == 0 then 0
    else CountPrinting(evs[..|evs| - 1]) + (if evs[|evs| - 1].state == Str("printing") then 1 else 0)
  }

  /** Every record closes a job that some "printing" event opened, or the job
      open at the start: records plus a still-open job never outnumber those. */
  lemma {:induction false} RecordsNeedStarts(t: Tracker, evs: seq<Event>)
    ensures var r := Run(t, evs);
      |r.1| + (if IsOpen(r.0) then 1 else 0) <= (if IsOpen(t) then 1 else 0) + CountPrinting(evs)
    decreases |evs|
  {
    if |evs| > 0 {
      RecordsNeedStarts(t, evs[..|evs| - 1]);
    }
  }

  /** Nothing is recorded for a run that starts idle and never prints. */
  lemma NoPrintNoRecord(evs: seq<Event>)
    requires CountPrinting(evs) == 0
    ensures Run(Idle, evs).1 == []
  {
    RecordsNeedStarts(Idle, evs);
  }

  /** Running one more event is one more Step. */
  lemma RunSnoc(t: Tracker, evs: seq<Event>, e: Event)
    ensures var prev := Run(t, evs);
      var r := Step(prev.0, e.state, e.filename, e.filament, e.now, e.freshId);
      Run(t, evs + [e]) == (r.0, prev.1 + (if r.1.Some? then [r.1.value] else []))
  {
    assert (evs + [e])[..|evs|] == evs;
  }

  /** A print that starts at 10 and completes at 70 leaves one "completed"
      record lasting 60, and no open job. */
  lemma PrintThenComplete(name: Value, filament: Value, id: string)
    requires id != ""
    ensures var r := Run(Idle, [Event(Str("printing"), name, filament, 10.0, id),
                                Event(Str("complete"), name, filament, 70.0, "unused")]);
      && r.1 == [JobRecord(id, name, Some(10.0), 70.0, 60.0, Str("completed"), filament)]
      && !IsOpen(r.0) && r.0.last == Str("complete")
  {
    var e0 := Event(Str("printing"), name, filament, 10.0, id);
    var e1 := Event(Str("complete"), name, filament, 70.0, "unused");
    RunSnoc(Idle, [], e0);
    assert [] + [e0] == [e0];
    var t1 := Tracker(Some(id), Some(10.0), Str("printing"));
    assert Run(Idle, []) == (Idle, []);
    assert Step(Idle, e0.state, e0.filename, e0.filament, e0.now, e0.freshId) == (t1, None);
    var none: seq<JobRecord> := [];
    assert none + [] == [];
    assert Run(Idle, [e0]).0 == t1 && Run(Idle, [e0]).1 == [];
    RunSnoc(Idle, [e0], e1);
    assert [e0] + [e1] == [e0, e1];
    var rec := JobRecord(id, name, Some(10.0), 70.0, 60.0, Str("completed"), filament);
    assert Step(t1, e1.state, e1.filename, e1.filament, e1.now, e1.freshId) == (Tracker(None, None, Str("complete")), Some(rec));
    assert none + [rec] == [rec];
  }

  /** After an error closes the job, a later "complete" records nothing. */
  lemma ErrorThenCompleteRecordsOnce(name: Value, filament: Value, id: string)
    requires id != ""
    ensures var r := Run(Idle, [Event(Str("printing"), name, filament, 1.0, id),
                                Event(Str("error"), name, filament, 5.0, "x"),
                                Event(Str("complete"), name, filament, 9.0, "y")]);
      |r.1| == 1 && r.1[0].status == Str("error") && r.1[0].totalDuration == 4.0
  {
    var e0 := Event(Str("printing"), name, filament, 1.0, id);
    var e1 := Event(Str("error"), name, filament, 5.0, "x");
    var e2 := Event(Str("complete"), name, filament, 9.0, "y");
    RunSnoc(Idle, [], e0);
    assert [] + [e0] == [e0];
    var t1 := Tracker(Some(id), Some(1.0), Str("printing"));
    assert Run(Idle, []) == (Idle, []);
    assert Step(Idle, e0.state, e0.filename, e0.filament, e0.now, e0.freshId) == (t1, None);
    var none: seq<JobRecord> := [];
    assert none + [] == [];
    assert Run(Idle, [e0]).0 == t1 && Run(Idle, [e0]).1 == [];
    RunSnoc(Idle, [e0], e1);
    assert [e0] + [e1] == [e0, e1];
    var rec := JobRecord(id, name, Some(1.0), 5.0, 4.0, Str("error"), filament);
    assert Step(t1, e1.state, e1.filename, e1.filament, e1.now, e1.freshId) == (Tracker(None, None, Str("error")), Some(rec));
    assert none + [rec] == [rec];
    assert Run(Idle, [e0, e1]).0 == Tracker(None, None, Str("error")) && Run(Idle, [e0, e1]).1 == [rec];
    assert [rec] + [] == [rec];
    RunSnoc(Idle, [e0, e1], e2);
    assert [e0, e1] + [e2] == [e0, e1, e2];
  }
}
