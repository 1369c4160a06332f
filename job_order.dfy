/** What the control flow of `do_one` (yt_auto_download.py:141-177)
    guarantees about any run, whatever the tools, the uploads and the
    directory do: the steps come in order, yt-dlp runs exactly when ytarchive
    raised, the local file is deleted only right after a successful upload,
    the sweep only follows that delete, and exactly one status record is
    written, which says uploaded exactly when the job does not raise. */
module JobOrder {

  import opened Wrappers
  import opened Events
  import opened Directory
  import opened Names
  import opened Capture
  import opened Upload
  import opened Retention
  import opened Job

  predicate IsArchiveAttempt(e: Event) { e == Attempting(Ytarchive) }
  predicate IsDlpAttempt(e: Event) { e == Attempting(Ytdlp) }
  predicate IsStatusRecord(e: Event) { e.StatusWritten? }
  predicate IsLocalDelete(e: Event) { e.IsDelete() }

  lemma SamePhase(log: seq<Event>, p: nat)
    requires PhasesWithin(log, p, p)
    ensures PhaseOrdered(log)
  {
  }

  lemma CountOne(e: Event, p: Event -> bool)
    ensures Count([e], p) == if p(e) then 1 else 0
  {
    assert [e][1..] == [];
  }

  lemma CountTwo(e1: Event, e2: Event, p: Event -> bool)
    ensures Count([e1, e2], p) == (if p(e1) then 1 else 0) + (if p(e2) then 1 else 0)
  {
    assert [e1, e2][1..] == [e2];
    CountOne(e2, p);
  }

  /** No event of a block of phases in [lo, hi] satisfies `p` when no event of
      those phases can. */
  lemma CountNone(log: seq<Event>, p: Event -> bool, lo: nat, hi: nat)
    requires PhasesWithin(log, lo, hi)
    requires forall i :: 0 <= i < |log| && lo <= log[i].Phase() <= hi ==> !p(log[i])
    ensures Count(log, p) == 0
  {
    CountZero(log, p);
  }

  /** The capture step logs only capture events: ytarchive's attempt first,
      and yt-dlp's attempt exactly when ytarchive raised. */
  lemma CaptureEvents(url: string, w: World, entries: map<string, Entry>)
    ensures var ev := CaptureStage(url, w, entries).events;
            && PhasesWithin(ev, 0, 0)
            && |ev| > 0 && ev[0] == Attempting(Ytarchive)
            && Count(ev, IsArchiveAttempt) == 1
            && Count(ev, IsDlpAttempt) == if ArchiveResult(url, w, entries).Err? then 1 else 0
  {
    ArchiveLog(w.archive.run);
    var a := ArchiveResult(url, w, entries);
    if a.Err? {
      FallbackLog(w.archive.run, a.error, w.dlp.run);
    }
  }

  /** ytarchive's own lines: its attempt, then how it ended. */
  lemma ArchiveLog(r1: ToolRun)
    ensures var t1 := ToolLog(Ytarchive, r1);
            && PhasesWithin(t1, 0, 0) && t1[0] == Attempting(Ytarchive)
            && Count(t1, IsArchiveAttempt) == 1 && Count(t1, IsDlpAttempt) == 0
  {
    var t1 := ToolLog(Ytarchive, r1);
    assert t1 == [t1[0], t1[1]];
    CountTwo(t1[0], t1[1], IsArchiveAttempt);
    CountTwo(t1[0], t1[1], IsDlpAttempt);
  }

  /** ytarchive's lines, the fallback warning and yt-dlp's lines. */
  lemma FallbackLog(r1: ToolRun, f: Failure, r2: ToolRun)
    ensures var t1 := ToolLog(Ytarchive, r1);
            var ev := t1 + [FallingBack(f)] + ToolLog(Ytdlp, r2);
            && PhasesWithin(ev, 0, 0) && ev[0] == Attempting(Ytarchive)
            && Count(ev, IsArchiveAttempt) == 1 && Count(ev, IsDlpAttempt) == 1
  {
    ArchiveLog(r1);
    var t1 := ToolLog(Ytarchive, r1);
    var t2 := ToolLog(Ytdlp, r2);
    assert t2 == [t2[0], t2[1]];
    CountTwo(t2[0], t2[1], IsArchiveAttempt);
    CountTwo(t2[0], t2[1], IsDlpAttempt);
    CountOne(FallingBack(f), IsArchiveAttempt);
    CountOne(FallingBack(f), IsDlpAttempt);
    CountAppend(t1, [FallingBack(f)], IsArchiveAttempt);
    CountAppend(t1 + [FallingBack(f)], t2, IsArchiveAttempt);
    CountAppend(t1, [FallingBack(f)], IsDlpAttempt);
    CountAppend(t1 + [FallingBack(f)], t2, IsDlpAttempt);
  }

  /** The events of the status step. */
  lemma FinishEvents(url: string, w: World, entries: map<string, Entry>, outcome: Result<string, Failure>)
    ensures var f := Finish(url, w, entries, outcome);
            && PhasesWithin(f.events, 5, 5)
            && Count(f.events, IsStatusRecord) == 1
            && (forall j :: 0 <= j < |f.events| && f.events[j].StatusWritten? ==>
                  f.events[j].status == f.status &&
                  f.events[j].file == StatusFile(!f.raised, w.statusStamp))
            && (f.status.Uploaded? <==> !f.raised) && (f.raised <==> outcome.Err?)
            && f.status.url == url
            && (outcome.Ok? ==> f.status == Uploaded(url, outcome.value, w.statusTime))
            && (outcome.Err? ==> f.status == NotUploaded(url, outcome.error, w.statusTime))
  {
    var f := Finish(url, w, entries, outcome);
    assert f.events == [f.events[0], f.events[1]];
    CountTwo(f.events[0], f.events[1], IsStatusRecord);
  }

  /** The upload step's events: "Recorded file", then the retries; the last
      one is "Upload OK" when the upload succeeded. */
  lemma UploadEvents(path: string, rclone: nat -> int)
    ensures var up := [RecordedFile(path)] + RetryLog(rclone, Attempts(rclone));
            && PhaseOrdered(up) && PhasesWithin(up, 1, 2)
            && (rclone(Attempts(rclone)) == 0 ==> up[|up| - 1] == UploadOk)
  {
    var n := Attempts(rclone);
    RetryLogPhase(rclone, n);
    SamePhase(RetryLog(rclone, n), 2);
    AppendPhases([RecordedFile(path)], RetryLog(rclone, n), 1, 1, 2);
    AttemptsCharacterised(rclone);
    RetryLogShape(rclone, n);
  }

  /** A delete event followed by the sweep's events. */
  lemma DeleteThenSweep(del: Event, victims: seq<string>, fails: set<string>)
    requires del.IsDelete()
    ensures var ev := [del] + SweepLog(victims, fails);
            && PhaseOrdered(ev) && PhasesWithin(ev, 3, 4)
            && Count(ev, IsLocalDelete) == 1 && Count(ev, IsStatusRecord) == 0
  {
    var sweep := SweepLog(victims, fails);
    SamePhase(sweep, 4);
    AppendPhases([del], sweep, 3, 3, 4);
    CountOne(del, IsLocalDelete);
    CountOne(del, IsStatusRecord);
    CountNone(sweep, IsLocalDelete, 4, 4);
    CountNone(sweep, IsStatusRecord, 4, 4);
    CountAppend([del], sweep, IsLocalDelete);
    CountAppend([del], sweep, IsStatusRecord);
  }

  /** The cleanup step's events: the delete, then one event per victim. */
  lemma CleanupEvents(cfg: Config, w: World, entries: map<string, Entry>, name: string, path: string)
    ensures var ev := CleanupStage(cfg, w, entries, name, path).events;
            && PhaseOrdered(ev) && PhasesWithin(ev, 3, 4)
            && |ev| > 0 && ev[0].IsDelete()
            && Count(ev, IsLocalDelete) == 1 && Count(ev, IsStatusRecord) == 0
  {
    var e1 := if Deletes(entries, name, w.removeFails) then entries - {name} else entries;
    var victims := Victims(e1, w.order(e1.Keys), cfg.keepN);
    var del := DeleteEvent(entries, name, path, w.removeFails);
    assert CleanupStage(cfg, w, entries, name, path).events == [del] + SweepLog(victims, w.sweepFails);
    DeleteThenSweep(del, victims, w.sweepFails);
  }

  /** When the head is the one event counted, no later event is. */
  lemma CountOnlyHead(log: seq<Event>, p: Event -> bool)
    requires log != [] && p(log[0]) && Count(log, p) == 1
    ensures forall j :: 0 < j < |log| ==> !p(log[j])
  {
    CountZero(log[1..], p);
    assert forall j :: 0 < j < |log| ==> log[j] == log[1..][j - 1];
  }

  /** The upload's events (ending in "Upload OK") followed by the cleanup's
      (starting with the delete). */
  lemma UploadThenCleanup(up: seq<Event>, cl: seq<Event>)
    requires PhaseOrdered(up) && PhasesWithin(up, 1, 2) && |up| > 0 && up[|up| - 1] == UploadOk
    requires PhaseOrdered(cl) && PhasesWithin(cl, 3, 4) && |cl| > 0 && cl[0].IsDelete()
    requires Count(cl, IsLocalDelete) == 1
    ensures var ev := up + cl;
            && PhaseOrdered(ev) && PhasesWithin(ev, 1, 4)
            && (forall j :: 0 <= j < |ev| && ev[j].IsDelete() ==> 0 < j && ev[j - 1] == UploadOk)
            && Count(ev, IsLocalDelete) == 1
  {
    var ev := up + cl;
    var k := |up|;
    AppendPhases(up, cl, 1, 2, 4);
    CountOnlyHead(cl, IsLocalDelete);
    assert ev[k - 1] == up[k - 1] && ev[k] == cl[0];
    assert forall j :: 0 <= j < |ev| && ev[j].IsDelete() ==> j == k;
    CountNone(up, IsLocalDelete, 1, 2);
    CountAppend(up, cl, IsLocalDelete);
  }

  /** Events of earlier phases followed by the status step: the status
      record is the last step's, and the only one. */
  lemma ThenFinish(pre: seq<Event>, url: string, w: World, entries: map<string, Entry>,
                   outcome: Result<string, Failure>)
    requires PhaseOrdered(pre) && PhasesWithin(pre, 1, 4)
    ensures var r := After(pre, Finish(url, w, entries, outcome));
            && PhaseOrdered(r.events) && PhasesWithin(r.events, 1, 5)
            && (r.raised <==> outcome.Err?)
            && Count(r.events, IsStatusRecord) == 1 && StatusKept(r, w)
            && (r.status.Uploaded? <==> !r.raised) && r.status.url == url
            && Count(r.events, IsLocalDelete) == Count(pre, IsLocalDelete)
            && (forall j :: 0 <= j < |r.events| && (r.events[j].IsDelete() || r.events[j].IsCleanup()) ==>
                  j < |pre| && r.events[j] == pre[j])
  {
    var f := Finish(url, w, entries, outcome);
    FinishEvents(url, w, entries, outcome);
    SamePhase(f.events, 5);
    AppendPhases(pre, f.events, 1, 4, 5);
    StatusOnlyAtEnd(pre, f.events, 1);
    CountNone(pre, IsStatusRecord, 1, 4);
    CountNone(f.events, IsLocalDelete, 5, 5);
    CountAppend(pre, f.events, IsStatusRecord);
    CountAppend(pre, f.events, IsLocalDelete);
  }

  /** A status record after events of earlier phases is the only one. */
  lemma StatusOnlyAtEnd(pre: seq<Event>, st: seq<Event>, lo: nat)
    requires PhasesWithin(pre, lo, 4)
    ensures forall j :: 0 <= j < |pre + st| && (pre + st)[j].StatusWritten? ==>
              |pre| <= j && (pre + st)[j] == st[j - |pre|]
  {
  }

  /** Whether the job gets as far as a successful upload. */
  function Uploads(w: World, c: Captured): bool
  {
    c.recorded.Ok? && w.rclone(Attempts(w.rclone)) == 0
  }

  /** Every status record of the run is the run's own, in the file its
      outcome names. */
  ghost predicate StatusKept(r: Run, w: World)
  {
    forall j :: 0 <= j < |r.events| && r.events[j].StatusWritten? ==>
      r.events[j].status == r.status && r.events[j].file == StatusFile(!r.raised, w.statusStamp)
  }

  /** What every part of the job after the capture step guarantees. */
  ghost predicate WellOrdered(r: Run, w: World, url: string)
  {
    && PhaseOrdered(r.events) && PhasesWithin(r.events, 1, 5)
    && Count(r.events, IsStatusRecord) == 1 && StatusKept(r, w)
    && (r.status.Uploaded? <==> !r.raised) && r.status.url == url
    && Count(r.events, IsLocalDelete) == (if r.raised then 0 else 1)
    && (forall j :: 0 <= j < |r.events| && r.events[j].IsDelete() ==>
          0 < j && r.events[j - 1] == UploadOk)
    && (forall j :: 0 <= j < |r.events| && r.events[j].IsCleanup() ==> !r.raised)
  }

  /** Delivery of a recording whose upload succeeds. */
  lemma SuccessEvents(cfg: Config, url: string, w: World, entries: map<string, Entry>, name: string)
    requires w.rclone(Attempts(w.rclone)) == 0
    ensures WellOrdered(Deliver(cfg, url, w, entries, name), w, url)
    ensures !Deliver(cfg, url, w, entries, name).raised
  {
    var path := JoinPath(cfg.outputDir, name);
    var up := [RecordedFile(path)] + RetryLog(w.rclone, Attempts(w.rclone));
    var s := CleanupStage(cfg, w, entries, name, path);
    UploadEvents(path, w.rclone);
    CleanupEvents(cfg, w, entries, name, path);
    UploadThenCleanup(up, s.events);
    assert Deliver(cfg, url, w, entries, name) == After(up + s.events, Finish(url, w, s.entries, Ok(RemotePath(cfg.remote, path))));
    ThenFinish(up + s.events, url, w, s.entries, Ok(RemotePath(cfg.remote, path)));
  }

  /** Delivery of a recording whose upload gives up: no delete, no cleanup. */
  lemma GaveUpEvents(cfg: Config, url: string, w: World, entries: map<string, Entry>, name: string)
    requires w.rclone(Attempts(w.rclone)) != 0
    ensures WellOrdered(Deliver(cfg, url, w, entries, name), w, url)
    ensures Deliver(cfg, url, w, entries, name).raised
  {
    var path := JoinPath(cfg.outputDir, name);
    var up := [RecordedFile(path)] + RetryLog(w.rclone, Attempts(w.rclone));
    UploadEvents(path, w.rclone);
    var outcome := Err(UploadGaveUp(w.rclone(Attempts(w.rclone))));
    FailedThenFinish(up, url, w, entries, outcome);
    assert Deliver(cfg, url, w, entries, name) == After(up, Finish(url, w, entries, outcome));
  }

  /** Upload events followed by a failure's status record. */
  lemma FailedThenFinish(pre: seq<Event>, url: string, w: World, entries: map<string, Entry>,
                         outcome: Result<string, Failure>)
    requires PhaseOrdered(pre) && PhasesWithin(pre, 1, 2) && outcome.Err?
    ensures WellOrdered(After(pre, Finish(url, w, entries, outcome)), w, url)
    ensures After(pre, Finish(url, w, entries, outcome)).raised
  {
    var r := After(pre, Finish(url, w, entries, outcome));
    CountNone(pre, IsLocalDelete, 1, 2);
    ThenFinish(pre, url, w, entries, outcome);
    assert forall j :: 0 <= j < |r.events| ==> !r.events[j].IsDelete() && !r.events[j].IsCleanup();
  }

  /** Everything after the capture step. */
  lemma AfterCaptureEvents(cfg: Config, url: string, w: World, c: Captured)
    ensures WellOrdered(AfterCapture(cfg, url, w, c), w, url)
    ensures AfterCapture(cfg, url, w, c).raised <==> !Uploads(w, c)
  {
    match c.recorded
    case Err(e) =>
      FailedThenFinish([], url, w, c.entries, Err(e));
      assert AfterCapture(cfg, url, w, c) == After([], Finish(url, w, c.entries, Err(e)));
    case Ok(name) =>
      if w.rclone(Attempts(w.rclone)) == 0 {
        SuccessEvents(cfg, url, w, c.entries, name);
      } else {
        GaveUpEvents(cfg, url, w, c.entries, name);
      }
  }

  /** Capture events followed by the rest of the job: the properties of the
      rest carry over to the whole log, shifted past the capture events. */
  lemma CaptureThenRest(a: seq<Event>, r: Run, w: World, url: string)
    requires PhasesWithin(a, 0, 0) && WellOrdered(r, w, url)
    ensures var ev := a + r.events;
            && PhaseOrdered(ev)
            && Count(ev, IsStatusRecord) == 1
            && Count(ev, IsLocalDelete) == (if r.raised then 0 else 1)
            && (forall j :: 0 <= j < |ev| && ev[j].StatusWritten? ==>
                  ev[j].status == r.status && ev[j].file == StatusFile(!r.raised, w.statusStamp))
            && (forall j :: 0 <= j < |ev| && ev[j].IsDelete() ==> 0 < j && ev[j - 1] == UploadOk)
            && (forall j :: 0 <= j < |ev| && ev[j].IsCleanup() ==> !r.raised)
            && (forall i, j :: 0 <= i < |ev| && 0 <= j < |ev| && ev[i].IsDelete() && ev[j].IsCleanup() ==> i < j)
  {
    CaptureThenRestCounts(a, r, w, url);
    CaptureThenRestPlaces(a, r, w, url);
    DeleteBeforeCleanup(a + r.events);
  }

  lemma CaptureThenRestCounts(a: seq<Event>, r: Run, w: World, url: string)
    requires PhasesWithin(a, 0, 0) && WellOrdered(r, w, url)
    ensures var ev := a + r.events;
            && PhaseOrdered(ev)
            && Count(ev, IsStatusRecord) == 1
            && Count(ev, IsLocalDelete) == (if r.raised then 0 else 1)
  {
    SamePhase(a, 0);
    AppendPhases(a, r.events, 0, 1, 5);
    CountNone(a, IsStatusRecord, 0, 0);
    CountNone(a, IsLocalDelete, 0, 0);
    CountAppend(a, r.events, IsStatusRecord);
    CountAppend(a, r.events, IsLocalDelete);
  }

  lemma CaptureThenRestPlaces(a: seq<Event>, r: Run, w: World, url: string)
    requires PhasesWithin(a, 0, 0) && WellOrdered(r, w, url)
    ensures var ev := a + r.events;
            && (forall j :: 0 <= j < |ev| && ev[j].StatusWritten? ==>
                  ev[j].status == r.status && ev[j].file == StatusFile(!r.raised, w.statusStamp))
            && (forall j :: 0 <= j < |ev| && ev[j].IsDelete() ==> 0 < j && ev[j - 1] == UploadOk)
            && (forall j :: 0 <= j < |ev| && ev[j].IsCleanup() ==> !r.raised)
  {
    var ev := a + r.events;
    ShiftPast(a, r.events);
    forall j | 0 <= j < |ev| && ev[j].IsDelete()
      ensures 0 < j && ev[j - 1] == UploadOk
    {
      assert ev[j - 1] == r.events[j - |a| - 1];
    }
  }

  /** In a log whose phases never go back, every delete precedes every
      cleanup line. */
  lemma DeleteBeforeCleanup(ev: seq<Event>)
    requires PhaseOrdered(ev)
    ensures forall i, j :: 0 <= i < |ev| && 0 <= j < |ev| && ev[i].IsDelete() && ev[j].IsCleanup() ==> i < j
  {
  }

  /** In `a + b` with `a` all capture events, a later event sits at its
      place in `b` shifted by `|a|`. */
  lemma ShiftPast(a: seq<Event>, b: seq<Event>)
    requires PhasesWithin(a, 0, 0)
    ensures forall j :: 0 <= j < |a + b| && (a + b)[j].Phase() >= 1 ==> |a| <= j && (a + b)[j] == b[j - |a|]
  {
  }

  /** The job's run is the capture step's events followed by the rest. */
  lemma JobEvents(cfg: Config, url: string, w: World, entries: map<string, Entry>)
    ensures var c := CaptureStage(url, w, entries);
            var r := AfterCapture(cfg, url, w, c);
            var run := JobSpec(cfg, url, w, entries);
            && run == Run(r.entries, c.events + r.events, r.status, r.raised)
            && PhasesWithin(c.events, 0, 0) && WellOrdered(r, w, url)
            && (r.raised <==> !Uploads(w, c))
  {
    var c := CaptureStage(url, w, entries);
    CaptureEvents(url, w, entries);
    AfterCaptureEvents(cfg, url, w, c);
  }


  /** The steps of `do_one` happen in order, starting with ytarchive:
      capture, "Recorded file", upload, local delete, cleanup, status. */
  lemma StepsInOrder(cfg: Config, url: string, w: World, entries: map<string, Entry>)
    ensures PhaseOrdered(JobSpec(cfg, url, w, entries).events)
    ensures |JobSpec(cfg, url, w, entries).events| > 0
    ensures JobSpec(cfg, url, w, entries).events[0] == Attempting(Ytarchive)
  {
    var c := CaptureStage(url, w, entries);
    var r := AfterCapture(cfg, url, w, c);
    JobEvents(cfg, url, w, entries);
    CaptureEvents(url, w, entries);
    CaptureThenRest(c.events, r, w, url);
  }

  /** Later phases hold no tool attempt. */
  lemma AttemptsOnlyInCapture(a: seq<Event>, b: seq<Event>)
    requires PhasesWithin(b, 1, 5)
    ensures Count(a + b, IsArchiveAttempt) == Count(a, IsArchiveAttempt)
    ensures Count(a + b, IsDlpAttempt) == Count(a, IsDlpAttempt)
  {
    CountNone(b, IsArchiveAttempt, 1, 5);
    CountNone(b, IsDlpAttempt, 1, 5);
    CountAppend(a, b, IsArchiveAttempt);
    CountAppend(a, b, IsDlpAttempt);
  }

  /** ytarchive is attempted exactly once, and yt-dlp exactly once if
      ytarchive raised and never otherwise. */
  lemma FallbackExactlyOnce(cfg: Config, url: string, w: World, entries: map<string, Entry>)
    ensures Count(JobSpec(cfg, url, w, entries).events, IsArchiveAttempt) == 1
    ensures Count(JobSpec(cfg, url, w, entries).events, IsDlpAttempt) ==
            if ArchiveResult(url, w, entries).Err? then 1 else 0
  {
    var c := CaptureStage(url, w, entries);
    var r := AfterCapture(cfg, url, w, c);
    JobEvents(cfg, url, w, entries);
    CaptureEvents(url, w, entries);
    AttemptsOnlyInCapture(c.events, r.events);
  }

  /** The local recording is deleted (or its delete attempted) exactly once
      if the upload succeeded and never otherwise, right after "Upload OK";
      cleanup events come only after that delete. */
  lemma DeleteOnlyAfterUpload(cfg: Config, url: string, w: World, entries: map<string, Entry>)
    ensures var ev := JobSpec(cfg, url, w, entries).events;
            && Count(ev, IsLocalDelete) == (if Uploads(w, CaptureStage(url, w, entries)) then 1 else 0)
            && (forall j :: 0 <= j < |ev| && ev[j].IsDelete() ==> 0 < j && ev[j - 1] == UploadOk)
            && (forall j :: 0 <= j < |ev| && ev[j].IsCleanup() ==> Uploads(w, CaptureStage(url, w, entries)))
            && (forall i, j :: 0 <= i < |ev| && 0 <= j < |ev| && ev[i].IsDelete() && ev[j].IsCleanup() ==> i < j)
  {
    var c := CaptureStage(url, w, entries);
    var r := AfterCapture(cfg, url, w, c);
    JobEvents(cfg, url, w, entries);
    CaptureThenRest(c.events, r, w, url);
  }

  /** Each job writes exactly one status record: it is the job's, in the
      file its outcome names, and it says uploaded exactly when the job does
      not raise, which is exactly when the upload succeeded. */
  lemma OneStatusRecord(cfg: Config, url: string, w: World, entries: map<string, Entry>)
    ensures var run := JobSpec(cfg, url, w, entries);
            var c := CaptureStage(url, w, entries);
            && Count(run.events, IsStatusRecord) == 1
            && (forall j :: 0 <= j < |run.events| && run.events[j].StatusWritten? ==>
                  run.events[j].status == run.status &&
                  run.events[j].file == StatusFile(!run.raised, w.statusStamp))
            && (run.status.Uploaded? <==> !run.raised)
            && (run.raised <==> !Uploads(w, c))
            && run.status.url == url
  {
    var c := CaptureStage(url, w, entries);
    var r := AfterCapture(cfg, url, w, c);
    JobEvents(cfg, url, w, entries);
    CaptureThenRest(c.events, r, w, url);
  }
}
