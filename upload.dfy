/** The upload retry policy of `rclone_copy_with_retry`
    (yt_auto_download.py:63-73): tenacity's `stop_after_attempt(5)` and
    `wait_exponential(multiplier=2, min=2, max=30)`, over the exit statuses
    the successive `rclone copyto` runs would return. */
module Upload {

  import opened Events

  const MaxAttempts: nat := 5
  const Multiplier: int := 2
  const WaitMin: int := 2
  const WaitMax: int := 30

  function Pow2(e: nat): (r: nat)
    ensures r >= 1
  {
    if e == 0 then 1 else 2 * Pow2(e - 1)
  }

  lemma {:induction false} Pow2Monotone(a: nat, b: nat)
    requires a <= b
    ensures Pow2(a) <= Pow2(b)
    decreases b
  {
    if a < b {
      Pow2Monotone(a, b - 1);
    }
  }

  function Max(a: int, b: int): int { if a >= b then a else b }
  function Min(a: int, b: int): int { if a <= b then a else b }

  /** The sleep after failed attempt `k`:
      `max(max(0, min), min(multiplier * 2 ** (k - 1), max))`. */
  function Wait(k: nat): int
    requires k >= 1
  {
    Max(Max(0, WaitMin), Min(Multiplier * Pow2(k - 1), WaitMax))
  }

  /** Every wait lies in [2, 30] and later waits are never shorter. */
  lemma WaitBoundedMonotone(k: nat, m: nat)
    requires 1 <= k <= m
    ensures WaitMin <= Wait(k) <= WaitMax
    ensures Wait(k) <= Wait(m)
  {
    Pow2Monotone(k - 1, m - 1);
  }

  /** The waits after attempts 1 to 4 are 2, 4, 8 and 16 seconds. */
  lemma FirstWaits()
    ensures Wait(1) == 2 && Wait(2) == 4 && Wait(3) == 8 && Wait(4) == 16
    ensures forall k :: k >= 5 ==> Wait(k) == WaitMax
  {
    forall k | k >= 5 ensures Wait(k) == WaitMax {
      Pow2Monotone(4, k - 1);
    }
  }

  /** How many attempts are made starting from attempt `k`. */
  function AttemptsFrom(rclone: nat -> int, k: nat): (n: nat)
    requires 1 <= k <= MaxAttempts
    ensures k <= n <= MaxAttempts
    ensures rclone(n) == 0 || n == MaxAttempts
    ensures forall j :: k <= j < n ==> rclone(j) != 0
    decreases MaxAttempts - k
  {
    if rclone(k) == 0 || k == MaxAttempts then k else AttemptsFrom(rclone, k + 1)
  }

  /** The number of `rclone` runs: up to the first success, at most five. */
  function Attempts(rclone: nat -> int): (n: nat)
    ensures 1 <= n <= MaxAttempts
  {
    AttemptsFrom(rclone, 1)
  }

  /** The waits slept in a call that makes `n` attempts. */
  function Delays(n: nat): seq<int>
  {
    seq(if n == 0 then 0 else n - 1, i requires 0 <= i => Wait(i + 1))
  }

  /** What attempt `k` logs (and sleeps afterwards). */
  function AttemptLog(rclone: nat -> int, k: nat): seq<Event>
    requires k >= 1
  {
    [Uploading(k)] +
    if rclone(k) == 0 then [UploadOk]
    else [RcloneFailed(k, rclone(k))] + if k < MaxAttempts then [Waited(Wait(k))] else []
  }

  /** What the first `n` attempts log. */
  function RetryLog(rclone: nat -> int, n: nat): seq<Event>
  {
    if n == 0 then [] else RetryLog(rclone, n - 1) + AttemptLog(rclone, n)
  }

  /** The call succeeds exactly when some attempt up to the fifth succeeds. */
  lemma AttemptsCharacterised(rclone: nat -> int)
    ensures (rclone(Attempts(rclone)) == 0) <==> exists k :: 1 <= k <= MaxAttempts && rclone(k) == 0
    ensures forall k :: 1 <= k < Attempts(rclone) ==> rclone(k) != 0
    ensures rclone(Attempts(rclone)) != 0 ==> Attempts(rclone) == MaxAttempts
  {
  }

  /** The sequence of waits never decreases and stays within [2, 30]; when
      every attempt fails it is 2, 4, 8, 16: no wait follows the last. */
  lemma DelaysShape(n: nat)
    requires n <= MaxAttempts
    ensures |Delays(n)| == if n == 0 then 0 else n - 1
    ensures forall i :: 0 <= i < |Delays(n)| ==> WaitMin <= Delays(n)[i] <= WaitMax
    ensures forall i, j :: 0 <= i <= j < |Delays(n)| ==> Delays(n)[i] <= Delays(n)[j]
    ensures n == MaxAttempts ==> Delays(n) == [2, 4, 8, 16]
  {
    forall i, j | 0 <= i <= j < |Delays(n)|
      ensures WaitMin <= Delays(n)[i] <= WaitMax && Delays(n)[i] <= Delays(n)[j]
    {
      WaitBoundedMonotone(i + 1, j + 1);
    }
    FirstWaits();
  }

  predicate IsUploading(e: Event) { e.Uploading? }
  predicate IsUploadOk(e: Event) { e.UploadOk? }

  /** `n` attempts log `n` "Uploading" lines, and "Upload OK" at most once,
      as the very last line, exactly when attempt `n` succeeded. */
  lemma {:induction false} RetryLogShape(rclone: nat -> int, n: nat)
    requires n <= MaxAttempts
    requires forall k :: 1 <= k < n ==> rclone(k) != 0
    ensures Count(RetryLog(rclone, n), IsUploading) == n
    ensures Count(RetryLog(rclone, n), IsUploadOk) == if n > 0 && rclone(n) == 0 then 1 else 0
    ensures n > 0 && rclone(n) == 0 ==> RetryLog(rclone, n)[|RetryLog(rclone, n)| - 1] == UploadOk
  {
    if n > 0 {
      RetryLogShape(rclone, n - 1);
      AttemptLogShape(rclone, n);
      CountAppend(RetryLog(rclone, n - 1), AttemptLog(rclone, n), IsUploading);
      CountAppend(RetryLog(rclone, n - 1), AttemptLog(rclone, n), IsUploadOk);
    }
  }

  /** One attempt logs one "Uploading" line, and ends with "Upload OK"
      exactly when it succeeds. */
  lemma AttemptLogShape(rclone: nat -> int, k: nat)
    requires k >= 1
    ensures Count(AttemptLog(rclone, k), IsUploading) == 1
    ensures Count(AttemptLog(rclone, k), IsUploadOk) == if rclone(k) == 0 then 1 else 0
    ensures rclone(k) == 0 ==> AttemptLog(rclone, k)[|AttemptLog(rclone, k)| - 1] == UploadOk
  {
    var a := AttemptLog(rclone, k);
    if rclone(k) == 0 {
      assert a == [Uploading(k), UploadOk];
      assert Count(a, IsUploading) == 1 + Count([UploadOk], IsUploading);
    } else {
      assert a[0] == Uploading(k);
      assert forall i :: 1 <= i < |a| ==> a[i].RcloneFailed? || a[i].Waited?;
      CountZero(a[1..], IsUploading);
      CountZero(a[1..], IsUploadOk);
    }
  }

  /** The retry log holds upload events only. */
  lemma {:induction false} RetryLogPhase(rclone: nat -> int, n: nat)
    ensures PhasesWithin(RetryLog(rclone, n), 2, 2)
  {
    if n > 0 {
      RetryLogPhase(rclone, n - 1);
      var a := RetryLog(rclone, n - 1);
      var b := AttemptLog(rclone, n);
      assert PhasesWithin(b, 2, 2);
      assert forall i :: 0 <= i < |a + b| ==> (a + b)[i] == if i < |a| then a[i] else b[i - |a|];
    }
  }

  /** `rclone_copy_with_retry`: runs `rclone` (exit status `rclone(k)` on
      attempt `k`) until it exits 0 or five attempts are spent, sleeping the
      exponential wait between attempts. */
  method CopyWithRetry(rclone: nat -> int) returns (ok: bool, attempts: nat, delays: seq<int>, log: seq<Event>)
    ensures attempts == Attempts(rclone)
    ensures ok <==> rclone(attempts) == 0
    ensures delays == Delays(attempts)
    ensures log == RetryLog(rclone, attempts)
  {
    var k: nat := 1;
    delays, log := [], [];
    while true
      invariant 1 <= k <= MaxAttempts
      invariant forall j :: 1 <= j < k ==> rclone(j) != 0
      invariant Attempts(rclone) == AttemptsFrom(rclone, k)
      invariant delays == Delays(k)
      invariant log == RetryLog(rclone, k - 1)
      decreases MaxAttempts - k
    {
      ghost var before := log;
      log := log + [Uploading(k)];
      var rc := rclone(k);
      if rc == 0 {
        log := log + [UploadOk];
        AttemptStep(before, rclone, k);
        return true, k, delays, log;
      }
      log := log + [RcloneFailed(k, rc)];
      if k >= MaxAttempts {
        // stop_after_attempt(5): tenacity raises RetryError without sleeping
        AttemptStep(before, rclone, k);
        return false, k, delays, log;
      }
      delays := delays + [Wait(k)];
      log := log + [Waited(Wait(k))];
      DelaysStep(k);
      AttemptStep(before, rclone, k);
      k := k + 1;
    }
  }

  /** The lines of one attempt, appended one at a time, are that attempt's
      log. */
  lemma AttemptStep(before: seq<Event>, rclone: nat -> int, k: nat)
    requires k >= 1
    ensures rclone(k) == 0 ==> before + [Uploading(k)] + [UploadOk] == before + AttemptLog(rclone, k)
    ensures rclone(k) != 0 && k >= MaxAttempts ==>
              before + [Uploading(k)] + [RcloneFailed(k, rclone(k))] == before + AttemptLog(rclone, k)
    ensures rclone(k) != 0 && k < MaxAttempts ==>
              before + [Uploading(k)] + [RcloneFailed(k, rclone(k))] + [Waited(Wait(k))] == before + AttemptLog(rclone, k)
  {
  }

  /** One more failed attempt adds its wait to the waits slept. */
  lemma DelaysStep(k: nat)
    requires k >= 1
    ensures Delays(k) + [Wait(k)] == Delays(k + 1)
  {
  }
}
