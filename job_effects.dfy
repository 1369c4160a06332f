/** What a run of `do_one` (yt_auto_download.py:141-177) leaves in the
    output directory and in its status record. */
module JobEffects {

  import opened Wrappers
  import opened Events
  import opened Directory
  import opened Names
  import opened Capture
  import opened Upload
  import opened Retention
  import opened Job
  import opened JobOrder
  import Glob

  /** The status record carries the remote path `<remote>/<file name>` on
      success and the exception on failure, and its file is afterwards a
      regular file of the directory. */
  lemma StatusContents(cfg: Config, url: string, w: World, entries: map<string, Entry>)
    ensures var run := JobSpec(cfg, url, w, entries);
            var c := CaptureStage(url, w, entries);
            && StatusFile(!run.raised, w.statusStamp) in run.entries
            && run.entries[StatusFile(!run.raised, w.statusStamp)] == Entry(true, w.statusMtime)
            && run.status.time == w.statusTime
            && (run.status.Uploaded? ==>
                  c.recorded.Ok? &&
                  run.status.remotePath == RemotePath(cfg.remote, JoinPath(cfg.outputDir, c.recorded.value)))
            && (run.status.NotUploaded? ==>
                  run.status.error == if c.recorded.Err? then c.recorded.error
                                      else UploadGaveUp(w.rclone(Attempts(w.rclone))))
  {
  }

  /** The name the capture step records is a file the directory holds. */
  lemma RecordedIsEntry(url: string, w: World, entries: map<string, Entry>)
    requires Enumerates(w.order)
    ensures var c := CaptureStage(url, w, entries);
            c.recorded.Ok? ==> c.recorded.value in c.entries
  {
    var e1 := entries + w.archive.writes;
    assert IsEnumeration(w.order(e1.Keys), e1.Keys);
    ArchiveOutcomeCases(url, w.archive.run, e1, w.order(e1.Keys));
    DlpOutcomeCases(url, w.dlpStamp, w.dlp.run, e1 + w.dlp.writes);
  }

  /** A job that raises removes nothing: every entry the capture step left,
      the recording included, is still there. */
  lemma FailureKeepsFiles(cfg: Config, url: string, w: World, entries: map<string, Entry>)
    requires Enumerates(w.order)
    ensures var run := JobSpec(cfg, url, w, entries);
            var c := CaptureStage(url, w, entries);
            run.raised ==>
              && (forall n :: n in c.entries ==> n in run.entries)
              && (c.recorded.Ok? ==> c.recorded.value in run.entries)
  {
    RecordedIsEntry(url, w, entries);
    JobEvents(cfg, url, w, entries);
  }

  /** After a successful upload whose local delete succeeds, the recording
      is gone: the sweep never brings it back, and the status file has
      another name. */
  lemma SuccessRemovesRecording(cfg: Config, url: string, w: World, entries: map<string, Entry>)
    ensures var run := JobSpec(cfg, url, w, entries);
            var c := CaptureStage(url, w, entries);
            Uploads(w, c) && Deletes(c.entries, c.recorded.value, w.removeFails) ==>
              c.recorded.value !in run.entries
  {
    var c := CaptureStage(url, w, entries);
    if Uploads(w, c) && Deletes(c.entries, c.recorded.value, w.removeFails) {
      var name := c.recorded.value;
      var f := StatusFile(true, w.statusStamp);
      assert f[|f| - 5..] == ".json";
      var e1 := entries + w.archive.writes;
      if ArchiveResult(url, w, entries).Ok? {
        ArchiveRecordingIsMkv(url, w.archive.run, e1, w.order(e1.Keys));
      } else {
        DlpRecordingIsMp4(url, w.dlpStamp, w.dlp.run, e1 + w.dlp.writes);
      }
      assert name[|name| - 1] != f[|f| - 1];
      var path := JoinPath(cfg.outputDir, name);
      var st := CleanupStage(cfg, w, c.entries, name, path);
      assert name !in st.entries;
      assert JobSpec(cfg, url, w, entries).entries
          == Finish(url, w, st.entries, Ok(RemotePath(cfg.remote, path))).entries;
    }
  }

  /** When ytarchive exits 0 having written the file it was told to write,
      and no class can open in the stem, that run yields the recording and
      yt-dlp is never tried. */
  lemma OwnFileMeansNoFallback(cfg: Config, url: string, w: World, entries: map<string, Entry>, stamp: string)
    requires Glob.ClassFree(SafeName(url)) && !Glob.HasDoubleStar(SafeName(url))
    requires Enumerates(w.order)
    requires w.archive.run == Finished(0)
    requires FileName(SafeName(url), stamp, Mkv) in w.archive.writes
    ensures ArchiveResult(url, w, entries).Ok?
    ensures Count(JobSpec(cfg, url, w, entries).events, IsDlpAttempt) == 0
  {
    var e1 := entries + w.archive.writes;
    assert IsEnumeration(w.order(e1.Keys), e1.Keys);
    ArchiveFindsOwnFile(url, stamp, e1, w.order(e1.Keys));
    FallbackExactlyOnce(cfg, url, w, entries);
  }

  /** With the default configuration, a job for `https://[::1]:8080/live`
      in an empty directory whose ytarchive run exits 0 having written its
      recording still falls back to yt-dlp: the class `[__1]` in the glob
      rejects the recording's own name. */
  lemma BracketedHostFallsBack(url: string, w: World, stamp: string, e: Entry)
    requires url == "https://[::1]:8080/live"
    requires Enumerates(w.order)
    requires w.archive == ToolEffect(Finished(0), map[FileName(SafeName(url), stamp, Mkv) := e])
    ensures ArchiveResult(url, w, map[]).Err?
    ensures Count(JobSpec(Defaults, url, w, map[]).events, IsDlpAttempt) == 1
  {
    var name := FileName(SafeName(url), stamp, Mkv);
    var e1 := map[] + w.archive.writes;
    assert e1 == map[name := e];
    BracketedHostMissesOwnFile(url, stamp, e);
    assert IsEnumeration(w.order(e1.Keys), e1.Keys);
    ArchiveOutcomeCases(url, Finished(0), e1, w.order(e1.Keys));
    FallbackExactlyOnce(Defaults, url, w, map[]);
  }

  /** A stem holding `**` makes every ytarchive run that exits 0 raise the
      `ValueError` of `Path.glob`, whatever it wrote, so the job falls back
      to yt-dlp exactly once. */
  lemma DoubleStarStemFallsBack(cfg: Config, url: string, w: World, entries: map<string, Entry>)
    requires Glob.HasDoubleStar(SafeName(url))
    requires Enumerates(w.order)
    requires w.archive.run == Finished(0)
    ensures ArchiveResult(url, w, entries) == Err(InvalidPattern)
    ensures Count(JobSpec(cfg, url, w, entries).events, IsDlpAttempt) == 1
  {
    var e1 := entries + w.archive.writes;
    assert IsEnumeration(w.order(e1.Keys), e1.Keys);
    ArchiveOutcomeCases(url, Finished(0), e1, w.order(e1.Keys));
    FallbackExactlyOnce(cfg, url, w, entries);
  }

  /** Writing one file adds at most one regular file. */
  lemma FilesAfterWrite(m: map<string, Entry>, f: string, e: Entry)
    ensures |Files(m[f := e])| <= |Files(m)| + 1
  {
    var grown := Files(m) + {f};
    assert Files(m[f := e]) <= grown;
    SubsetCard(Files(m[f := e]), grown);
  }

  lemma {:induction false} SubsetCard(a: set<string>, b: set<string>)
    requires a <= b
    ensures |a| <= |b|
    decreases |b|
  {
    if a != {} {
      var x :| x in a;
      SubsetCard(a - {x}, b - {x});
    }
  }

  /** With no failed unlink and `keep_n >= 0`, a successful job leaves at
      most `keep_n + 1` regular files: the sweep runs before the status file
      is written, so that file is never among the ones it counts. */
  lemma SuccessLeavesAtMostOneMore(cfg: Config, url: string, w: World, entries: map<string, Entry>)
    requires Enumerates(w.order)
    requires cfg.keepN >= 0 && w.sweepFails == {}
    ensures var run := JobSpec(cfg, url, w, entries);
            !run.raised ==> |Files(run.entries)| <= cfg.keepN + 1
  {
    var c := CaptureStage(url, w, entries);
    JobEvents(cfg, url, w, entries);
    if Uploads(w, c) {
      var name := c.recorded.value;
      var e1 := if Deletes(c.entries, name, w.removeFails) then c.entries - {name} else c.entries;
      var listing := w.order(e1.Keys);
      assert IsEnumeration(listing, e1.Keys);
      SweepLeavesAtMost(e1, listing, cfg.keepN);
      var after := e1 - Removed(Victims(e1, listing, cfg.keepN), {});
      assert CleanupStage(cfg, w, c.entries, name, JoinPath(cfg.outputDir, name)).entries == after;
      FilesAfterWrite(after, StatusFile(true, w.statusStamp), Entry(true, w.statusMtime));
    }
  }
}
