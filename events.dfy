/** What one recording job can observe and report: the tools it runs, the
    ways a step fails, the status record it writes, and the events of its
    trace: the lines it logs, the waits it sleeps between uploads and the
    status-file write. */
module Events {

  /** The two capture tools, in the order they are tried. */
  datatype Tool = Ytarchive | Ytdlp

  /** The exception a step raises. */
  datatype Failure =
    | TimedOut(tool: Tool)             // asyncio.TimeoutError after the process is killed
    | ExitStatus(tool: Tool, code: int) // RuntimeError "... failed: <stderr>" on a non-zero exit
    | NoOutputFile(tool: Tool)          // RuntimeError "... didn't produce expected file"
    | InvalidPattern                    // ValueError of Path.glob for a '**' inside a pattern component
    | UploadGaveUp(lastCode: int)       // tenacity's RetryError around the last CalledProcessError

  /** The record a job writes to its `status_*.json` file. */
  datatype JobStatus =
    | Uploaded(url: string, remotePath: string, time: string)
    | NotUploaded(url: string, error: Failure, time: string)

  datatype Event =
    | Attempting(tool: Tool)               // "Attempting <tool> for <url>"
    | ToolTimedOut(tool: Tool)             // "<tool> timed out after ... seconds"
    | ToolExited(tool: Tool, code: int)    // "<tool> exit <rc> for <url>"
    | FallingBack(reason: Failure)         // "ytarchive failed ...: Falling back to yt-dlp."
    | RecordedFile(path: string)           // "Recorded file: <path>"
    | Uploading(attempt: nat)              // the attempt-th "Uploading <local> -> <remote>"
    | RcloneFailed(attempt: nat, code: int) // "rclone failed: ..."
    | Waited(seconds: int)                 // tenacity's sleep before the next attempt
    | UploadOk                             // "Upload OK: <local>"
    | LocalDeleted(path: string)           // "Deleted local file: <path>"
    | LocalDeleteFailed(path: string)      // "Failed to delete local file ..."
    | CleanupRemoved(name: string)         // "Cleanup removed old file: ..."
    | CleanupFailed(name: string)          // "Cleanup failed for ..."
    | StatusWritten(file: string, status: JobStatus) // the status file is written (not a log line)
    | JobComplete                          // "Job complete for <url>"
    | JobFailed(reason: Failure)           // "Job failed for <url>: <e>"
  {
    predicate IsDelete() { LocalDeleted? || LocalDeleteFailed? }
    predicate IsCleanup() { CleanupRemoved? || CleanupFailed? }

    /** The step of `do_one` an event belongs to: capture, "Recorded file",
        upload, local delete, cleanup, status. */
    function Phase(): nat
    {
      match this
      case Attempting(_) => 0
      case ToolTimedOut(_) => 0
      case ToolExited(_, _) => 0
      case FallingBack(_) => 0
      case RecordedFile(_) => 1
      case Uploading(_) => 2
      case RcloneFailed(_, _) => 2
      case Waited(_) => 2
      case UploadOk => 2
      case LocalDeleted(_) => 3
      case LocalDeleteFailed(_) => 3
      case CleanupRemoved(_) => 4
      case CleanupFailed(_) => 4
      case StatusWritten(_, _) => 5
      case JobComplete => 5
      case JobFailed(_) => 5
    }
  }

  /** The events of a log come phase by phase, never going back. */
  ghost predicate PhaseOrdered(log: seq<Event>)
  {
    forall i, j :: 0 <= i <= j < |log| ==> log[i].Phase() <= log[j].Phase()
  }

  /** Every event of `log` belongs to a phase in [lo, hi]. */
  ghost predicate PhasesWithin(log: seq<Event>, lo: nat, hi: nat)
  {
    forall i :: 0 <= i < |log| ==> lo <= log[i].Phase() <= hi
  }

  /** Appending a block of later phases keeps a log phase-ordered. */
  lemma AppendPhases(a: seq<Event>, b: seq<Event>, lo: nat, mid: nat, hi: nat)
    requires lo <= mid <= hi
    requires PhaseOrdered(a) && PhasesWithin(a, lo, mid)
    requires PhaseOrdered(b) && PhasesWithin(b, mid, hi)
    ensures PhaseOrdered(a + b) && PhasesWithin(a + b, lo, hi)
  {
    var ab := a + b;
    forall i, j | 0 <= i <= j < |ab|
      ensures ab[i].Phase() <= ab[j].Phase()
    {
      if j < |a| {
        assert ab[i] == a[i] && ab[j] == a[j];
      } else if i >= |a| {
        assert ab[i] == b[i - |a|] && ab[j] == b[j - |a|];
      } else {
        assert ab[i] == a[i] && ab[j] == b[j - |a|];
      }
    }
    forall i | 0 <= i < |ab|
      ensures lo <= ab[i].Phase() <= hi
    {
      if i < |a| {
        assert ab[i] == a[i];
      } else {
        assert ab[i] == b[i - |a|];
      }
    }
  }

  /** How many events of a log satisfy `p`. */
  function Count(log: seq<Event>, p: Event -> bool): (n: nat)
    ensures n <= |log|
  {
    if log == [] then 0 else (if p(log[0]) then 1 else 0) + Count(log[1..], p)
  }

  lemma {:induction false} CountAppend(a: seq<Event>, b: seq<Event>, p: Event -> bool)
    ensures Count(a + b, p) == Count(a, p) + Count(b, p)
  {
    if a == [] {
      assert a + b == b;
    } else {
      CountAppend(a[1..], b, p);
      assert (a + b)[1..] == a[1..] + b;
    }
  }

  /** No event of the log satisfies `p` exactly when its count is zero. */
  lemma {:induction false} CountZero(log: seq<Event>, p: Event -> bool)
    ensures Count(log, p) == 0 <==> forall i :: 0 <= i < |log| ==> !p(log[i])
  {
    if log != [] {
      CountZero(log[1..], p);
      assert forall i :: 1 <= i < |log| ==> log[i] == log[1..][i - 1];
    }
  }
}
