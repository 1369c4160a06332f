/** One recording job, `do_one` (yt_auto_download.py:141-177), run to
    completion: ytarchive, then yt-dlp if ytarchive raised, then the upload
    with retries, the local delete, the retention sweep and the status
    record. Any exception of those steps ends in a failure status, after
    which the job re-raises. */
module Job {

  import opened Wrappers
  import opened Events
  import opened Directory
  import opened Names
  import opened Capture
  import opened Upload
  import opened Retention

  /** `OUTPUT_DIR` (as `str(Path(...))` prints it), `RCLONE_REMOTE` and
      `KEEP_LAST_N`. */
  datatype Config = Config(outputDir: string, remote: string, keepN: int)

  /** The configuration when no environment variable is set. */
  const Defaults := Config("recordings", "gdrive:yt_backups", 5)

  /** Everything a job takes from outside: how each tool run ends and what it
      writes, the yt-dlp timestamp, the exit status of each rclone attempt,
      whether `os.remove` fails, which unlinks of the sweep fail, the clock
      readings of the status record and the enumeration order of the
      directory. */
  datatype World = World(
    archive: ToolEffect,
    dlpStamp: string,
    dlp: ToolEffect,
    rclone: nat -> int,
    removeFails: bool,
    sweepFails: set<string>,
    statusStamp: string,
    statusTime: string,
    statusMtime: int,
    order: set<string> -> seq<string>)

  /** `order` lists every set of names as a directory enumeration would. */
  ghost predicate Enumerates(order: set<string> -> seq<string>)
  {
    forall s :: IsEnumeration(order(s), s)
  }

  /** The entries, the events appended to the log, the status record and
      whether `do_one` raises. */
  datatype Run = Run(entries: map<string, Entry>, events: seq<Event>, status: JobStatus, raised: bool)

  /** After the capture step: the directory, its events and the recording or
      the exception. */
  datatype Captured = Captured(entries: map<string, Entry>, events: seq<Event>, recorded: Result<string, Failure>)

  /** ytarchive's outcome in the directory its run leaves. */
  function ArchiveResult(url: string, w: World, entries: map<string, Entry>): Result<string, Failure>
  {
    var e1 := entries + w.archive.writes;
    ArchiveOutcome(url, w.archive.run, e1, w.order(e1.Keys))
  }

  /** Lines 145-149: ytarchive, and yt-dlp when ytarchive raised. */
  function CaptureStage(url: string, w: World, entries: map<string, Entry>): Captured
  {
    var e1 := entries + w.archive.writes;
    var a := ArchiveResult(url, w, entries);
    if a.Ok? then Captured(e1, ToolLog(Ytarchive, w.archive.run), a)
    else
      var e2 := e1 + w.dlp.writes;
      Captured(e2, ToolLog(Ytarchive, w.archive.run) + [FallingBack(a.error)] + ToolLog(Ytdlp, w.dlp.run),
               DlpOutcome(url, w.dlpStamp, w.dlp.run, e2))
  }

  /** `os.remove` succeeds on an existing regular file unless it fails for an
      outside reason; it refuses a directory and a missing name. */
  function Deletes(entries: map<string, Entry>, name: string, fails: bool): bool
  {
    name in entries && entries[name].isFile && !fails
  }

  function DeleteEvent(entries: map<string, Entry>, name: string, path: string, fails: bool): Event
  {
    if Deletes(entries, name, fails) then LocalDeleted(path) else LocalDeleteFailed(path)
  }

  /** `status_<stamp>.json` or `status_fail_<stamp>.json`. */
  function StatusFile(uploaded: bool, stamp: string): string
  {
    (if uploaded then "status_" else "status_fail_") + stamp + ".json"
  }

  /** Lines 161-177: the status record written into `entries`, and the
      re-raise on failure; `events` are the events of this last step. */
  function Finish(url: string, w: World, entries: map<string, Entry>, outcome: Result<string, Failure>): Run
  {
    match outcome
    case Ok(remote) =>
      var st := Uploaded(url, remote, w.statusTime);
      var f := StatusFile(true, w.statusStamp);
      Run(entries[f := Entry(true, w.statusMtime)], [StatusWritten(f, st), JobComplete], st, false)
    case Err(e) =>
      var st := NotUploaded(url, e, w.statusTime);
      var f := StatusFile(false, w.statusStamp);
      Run(entries[f := Entry(true, w.statusMtime)], [JobFailed(e), StatusWritten(f, st)], st, true)
  }

  /** The run that `before` events lead into. */
  function After(before: seq<Event>, r: Run): Run
  {
    Run(r.entries, before + r.events, r.status, r.raised)
  }

  /** The directory and the events after a step. */
  datatype Stage = Stage(entries: map<string, Entry>, events: seq<Event>)

  /** Lines 158-160 once the upload succeeded: the delete, then the sweep
      over the directory the delete leaves. */
  function CleanupStage(cfg: Config, w: World, entries: map<string, Entry>, name: string, path: string): Stage
  {
    var e1 := if Deletes(entries, name, w.removeFails) then entries - {name} else entries;
    var victims := Victims(e1, w.order(e1.Keys), cfg.keepN);
    Stage(e1 - Removed(victims, w.sweepFails),
          [DeleteEvent(entries, name, path, w.removeFails)] + SweepLog(victims, w.sweepFails))
  }

  /** Lines 150-177 for the recorded file `name`. */
  function Deliver(cfg: Config, url: string, w: World, entries: map<string, Entry>, name: string): Run
  {
    var path := JoinPath(cfg.outputDir, name);
    var n := Attempts(w.rclone);
    var up := [RecordedFile(path)] + RetryLog(w.rclone, n);
    if w.rclone(n) != 0 then After(up, Finish(url, w, entries, Err(UploadGaveUp(w.rclone(n)))))
    else
      var s := CleanupStage(cfg, w, entries, name, path);
      After(up + s.events, Finish(url, w, s.entries, Ok(RemotePath(cfg.remote, path))))
  }

  /** Lines 150-177, after the capture step. */
  function AfterCapture(cfg: Config, url: string, w: World, c: Captured): Run
  {
    match c.recorded
    case Err(e) => Finish(url, w, c.entries, Err(e))
    case Ok(name) => Deliver(cfg, url, w, c.entries, name)
  }

  /** The whole job on a directory holding `entries`. */
  function JobSpec(cfg: Config, url: string, w: World, entries: map<string, Entry>): Run
  {
    var c := CaptureStage(url, w, entries);
    var r := AfterCapture(cfg, url, w, c);
    Run(r.entries, c.events + r.events, r.status, r.raised)
  }

  /** `rclone_delete_local` (yt_auto_download.py:75-80): the error of
      `os.remove` is logged, never raised. */
  method RemoveLocal(d: OutputDir, path: string, name: string, fails: bool)
    modifies d
    ensures d.entries == if Deletes(old(d.entries), name, fails) then old(d.entries) - {name} else old(d.entries)
    ensures d.log == old(d.log) + [DeleteEvent(old(d.entries), name, path, fails)]
  {
    if name in d.entries && d.entries[name].isFile && !fails {
      d.entries := d.entries - {name};
      d.log := d.log + [LocalDeleted(path)];
    } else {
      d.log := d.log + [LocalDeleteFailed(path)];
    }
  }

  /** `json.dump` of a status record into a new or truncated file. */
  method WriteStatus(d: OutputDir, file: string, status: JobStatus, mtime: int)
    modifies d
    ensures d.entries == old(d.entries)[file := Entry(true, mtime)]
    ensures d.log == old(d.log) + [StatusWritten(file, status)]
  {
    d.entries := d.entries[file := Entry(true, mtime)];
    d.log := d.log + [StatusWritten(file, status)];
  }

  /** The end of `do_one`: the status record, then "Job complete" or,
      after "Job failed", the re-raise. */
  method Conclude(d: OutputDir, url: string, w: World, outcome: Result<string, Failure>) returns (status: JobStatus, raised: bool)
    modifies d
    ensures d.entries == Finish(url, w, old(d.entries), outcome).entries
    ensures d.log == old(d.log) + Finish(url, w, old(d.entries), outcome).events
    ensures status == Finish(url, w, old(d.entries), outcome).status
    ensures raised == Finish(url, w, old(d.entries), outcome).raised
  {
    match outcome {
      case Ok(remote) =>
        status := Uploaded(url, remote, w.statusTime);
        WriteStatus(d, StatusFile(true, w.statusStamp), status, w.statusMtime);
        d.log := d.log + [JobComplete];
        raised := false;
      case Err(e) =>
        d.log := d.log + [JobFailed(e)];
        status := NotUploaded(url, e, w.statusTime);
        WriteStatus(d, StatusFile(false, w.statusStamp), status, w.statusMtime);
        raised := true;
    }
  }

  /** Lines 145-149: the inner `try` that falls back to yt-dlp. */
  method Record(d: OutputDir, url: string, w: World) returns (recorded: Result<string, Failure>)
    modifies d
    ensures d.entries == CaptureStage(url, w, old(d.entries)).entries
    ensures d.log == old(d.log) + CaptureStage(url, w, old(d.entries)).events
    ensures recorded == CaptureStage(url, w, old(d.entries)).recorded
  {
    recorded := RecordWithYtarchive(d, url, w.archive, w.order);
    if recorded.Err? {
      d.log := d.log + [FallingBack(recorded.error)];
      recorded := RecordWithYtdlp(d, url, w.dlpStamp, w.dlp);
    }
  }

  /** Lines 158-160: delete, then sweep. */
  method DeleteAndSweep(d: OutputDir, cfg: Config, w: World, name: string, path: string)
    requires Enumerates(w.order)
    modifies d
    ensures d.entries == CleanupStage(cfg, w, old(d.entries), name, path).entries
    ensures d.log == old(d.log) + CleanupStage(cfg, w, old(d.entries), name, path).events
  {
    ghost var e0, log0 := d.entries, d.log;
    RemoveLocal(d, path, name, w.removeFails);
    ghost var e1, log1 := d.entries, d.log;
    CleanupKeepLast(d, cfg.keepN, w.order(d.entries.Keys), w.sweepFails);
    ghost var sweep := SweepLog(Victims(e1, w.order(e1.Keys), cfg.keepN), w.sweepFails);
    AppendAssoc(log0, [DeleteEvent(e0, name, path, w.removeFails)], sweep);
  }

  /** Lines 150-155: "Recorded file", then the upload with retries. */
  method UploadRecording(d: OutputDir, w: World, path: string) returns (ok: bool, lastCode: int)
    modifies d
    ensures d.entries == old(d.entries)
    ensures d.log == old(d.log) + ([RecordedFile(path)] + RetryLog(w.rclone, Attempts(w.rclone)))
    ensures lastCode == w.rclone(Attempts(w.rclone)) && (ok <==> lastCode == 0)
  {
    d.log := d.log + [RecordedFile(path)];
    var attempts, delays, retryLog;
    ok, attempts, delays, retryLog := CopyWithRetry(w.rclone);
    d.log := d.log + retryLog;
    AppendAssoc(old(d.log), [RecordedFile(path)], retryLog);
    lastCode := w.rclone(attempts);
  }

  /** Regrouping the log appends of consecutive steps. */
  lemma AppendAssoc(a: seq<Event>, b: seq<Event>, c: seq<Event>)
    ensures a + b + c == a + (b + c)
  {
  }

  /** Lines 150-177 for a recorded file `name`. */
  method DeliverRecording(d: OutputDir, cfg: Config, url: string, w: World, name: string) returns (status: JobStatus, raised: bool)
    requires Enumerates(w.order)
    modifies d
    ensures d.entries == Deliver(cfg, url, w, old(d.entries), name).entries
    ensures d.log == old(d.log) + Deliver(cfg, url, w, old(d.entries), name).events
    ensures status == Deliver(cfg, url, w, old(d.entries), name).status
    ensures raised == Deliver(cfg, url, w, old(d.entries), name).raised
  {
    ghost var e0, log0 := d.entries, d.log;
    var path := JoinPath(cfg.outputDir, name);
    var ok, lastCode := UploadRecording(d, w, path);
    ghost var up := [RecordedFile(path)] + RetryLog(w.rclone, Attempts(w.rclone));
    ghost var log1 := d.log;
    if !ok {
      ghost var f := Finish(url, w, e0, Err(UploadGaveUp(lastCode)));
      assert Deliver(cfg, url, w, e0, name) == After(up, f);
      status, raised := Conclude(d, url, w, Err(UploadGaveUp(lastCode)));
      AppendAssoc(log0, up, f.events);
      return;
    }
    var remotePath := RemotePath(cfg.remote, path);
    ghost var s := CleanupStage(cfg, w, e0, name, path);
    ghost var f := Finish(url, w, s.entries, Ok(remotePath));
    assert Deliver(cfg, url, w, e0, name) == After(up + s.events, f);
    DeleteAndSweep(d, cfg, w, name, path);
    AppendAssoc(log0, up, s.events);
    status, raised := Conclude(d, url, w, Ok(remotePath));
    AppendAssoc(log0, up + s.events, f.events);
  }

  /** `do_one(url)`. */
  method DoOne(d: OutputDir, cfg: Config, url: string, w: World) returns (status: JobStatus, raised: bool)
    requires Enumerates(w.order)
    modifies d
    ensures d.entries == JobSpec(cfg, url, w, old(d.entries)).entries
    ensures d.log == old(d.log) + JobSpec(cfg, url, w, old(d.entries)).events
    ensures status == JobSpec(cfg, url, w, old(d.entries)).status
    ensures raised == JobSpec(cfg, url, w, old(d.entries)).raised
  {
    ghost var log0 := d.log;
    var recorded := Record(d, url, w);
    ghost var log1 := d.log;
    if recorded.Err? {
      status, raised := Conclude(d, url, w, recorded);
    } else {
      status, raised := DeliverRecording(d, cfg, url, w, recorded.value);
    }
    AppendAssoc(log0, log1[|log0|..], d.log[|log1|..]);
  }
}
