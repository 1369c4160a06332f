/** The two capture attempts, `record_with_ytarchive`
    (yt_auto_download.py:91-116) and `record_with_ytdlp` (:118-139). The run
    of the tool itself is an input: how it ended (its exit status, or killed
    at the deadline) and the entries it left in the output directory. What
    the model keeps is each tool's rule for turning that into a recorded
    file or an exception. */
module Capture {

  import opened Wrappers
  import opened Events
  import opened Directory
  import opened Names
  import Glob

  /** How a tool process ended: with an exit status, or killed when
      `asyncio.wait_for` ran out of `max_runtime`. */
  datatype ToolRun = Finished(code: int) | Killed

  /** One run of a capture tool: how it ended and the entries it created or
      rewrote in the output directory (partial output included). */
  datatype ToolEffect = ToolEffect(run: ToolRun, writes: map<string, Entry>)

  /** The glob `f"{safe_name}_*.mkv"` (yt_auto_download.py:113). */
  function ArchivePattern(url: string): string
  {
    SafeName(url) + "_*.mkv"
  }

  /** The names of `listing` that match `pat`, in listing order. */
  function MatchingNames(listing: seq<string>, pat: string): (r: seq<string>)
    ensures multiset(r) <= multiset(listing)
    ensures forall n :: n in r <==> n in listing && Glob.Matches(pat, n)
  {
    if listing == [] then []
    else
      var rest := MatchingNames(listing[1..], pat);
      assert listing == [listing[0]] + listing[1..];
      assert forall m :: m in rest ==> m in multiset(rest);
      (if Glob.Matches(pat, listing[0]) then [listing[0]] else []) + rest
  }

  /** `created = sorted(outdir.glob(pat), key=mtime, reverse=True)`, then
      `created[0]` if there is one. */
  function Newest(entries: map<string, Entry>, listing: seq<string>, pat: string): Option<string>
  {
    var created := SortByMtime(entries, MatchingNames(listing, pat));
    if created == [] then None else Some(created[0])
  }

  /** The newest match is a matching entry no other match is newer than;
      there is none exactly when no entry matches. */
  lemma NewestIsNewest(entries: map<string, Entry>, listing: seq<string>, pat: string)
    requires IsEnumeration(listing, entries.Keys)
    ensures Newest(entries, listing, pat).None? <==> forall m :: m in entries ==> !Glob.Matches(pat, m)
    ensures Newest(entries, listing, pat).Some? ==>
              var n := Newest(entries, listing, pat).value;
              && n in entries && Glob.Matches(pat, n)
              && forall m :: m in entries && Glob.Matches(pat, m) ==> MTime(entries, m) <= MTime(entries, n)
  {
    var matches := MatchingNames(listing, pat);
    SortByMtimeCorrect(entries, matches);
    var created := SortByMtime(entries, matches);
    if created == [] {
      forall m | m in entries
        ensures !Glob.Matches(pat, m)
      {
        assert m in listing;
        assert m !in created;
      }
    } else {
      var n := created[0];
      assert n in created && n in matches && n in listing;
      DescendingHead(entries, created);
      forall m | m in entries && Glob.Matches(pat, m)
        ensures MTime(entries, m) <= MTime(entries, n)
      {
        assert m in listing;
        assert m in created;
      }
    }
  }

  /** What a tool logs: "Attempting ...", then its exit status or its
      timeout. */
  function ToolLog(tool: Tool, run: ToolRun): seq<Event>
  {
    [Attempting(tool)] + match run
      case Killed => [ToolTimedOut(tool)]
      case Finished(rc) => [ToolExited(tool, rc)]
  }

  /** ytarchive's rule: a timeout or a non-zero exit raises; so does a glob
      `Path.glob` refuses, when the consumption of its results by `sorted`
      starts; otherwise the newest entry matching the glob is the recording,
      and none raises. */
  function ArchiveOutcome(url: string, run: ToolRun, entries: map<string, Entry>, listing: seq<string>): Result<string, Failure>
  {
    match run
    case Killed => Err(TimedOut(Ytarchive))
    case Finished(rc) =>
      if rc != 0 then Err(ExitStatus(Ytarchive, rc))
      else if Glob.InvalidComponent(ArchivePattern(url)) then Err(InvalidPattern)
      else match Newest(entries, listing, ArchivePattern(url))
        case None => Err(NoOutputFile(Ytarchive))
        case Some(n) => Ok(n)
  }

  /** yt-dlp's rule: a timeout or a non-zero exit raises; otherwise the
      exact output file must exist. */
  function DlpOutcome(url: string, stamp: string, run: ToolRun, entries: map<string, Entry>): Result<string, Failure>
  {
    match run
    case Killed => Err(TimedOut(Ytdlp))
    case Finished(rc) =>
      if rc != 0 then Err(ExitStatus(Ytdlp, rc))
      else if FileName(SafeName(url), stamp, Mp4) in entries then Ok(FileName(SafeName(url), stamp, Mp4))
      else Err(NoOutputFile(Ytdlp))
  }

  /** `record_with_ytarchive`: the tool writes `effect.writes`; the glob is
      read in the order `order` enumerates the directory. */
  method RecordWithYtarchive(d: OutputDir, url: string, effect: ToolEffect, order: set<string> -> seq<string>)
    returns (r: Result<string, Failure>)
    modifies d
    ensures d.entries == old(d.entries) + effect.writes
    ensures d.log == old(d.log) + ToolLog(Ytarchive, effect.run)
    ensures r == ArchiveOutcome(url, effect.run, d.entries, order(d.entries.Keys))
  {
    d.log := d.log + [Attempting(Ytarchive)];
    d.entries := d.entries + effect.writes;
    match effect.run {
      case Killed =>
        d.log := d.log + [ToolTimedOut(Ytarchive)];
        return Err(TimedOut(Ytarchive));
      case Finished(rc) =>
        d.log := d.log + [ToolExited(Ytarchive, rc)];
        if rc != 0 {
          return Err(ExitStatus(Ytarchive, rc));
        }
        if Glob.InvalidComponent(ArchivePattern(url)) {
          return Err(InvalidPattern);
        }
        var created := Newest(d.entries, order(d.entries.Keys), ArchivePattern(url));
        if created.None? {
          return Err(NoOutputFile(Ytarchive));
        }
        return Ok(created.value);
    }
  }

  /** `record_with_ytdlp`, with output file `FileName(SafeName(url), stamp, Mp4)`. */
  method RecordWithYtdlp(d: OutputDir, url: string, stamp: string, effect: ToolEffect)
    returns (r: Result<string, Failure>)
    modifies d
    ensures d.entries == old(d.entries) + effect.writes
    ensures d.log == old(d.log) + ToolLog(Ytdlp, effect.run)
    ensures r == DlpOutcome(url, stamp, effect.run, d.entries)
  {
    var outfile := FileName(SafeName(url), stamp, Mp4);
    d.log := d.log + [Attempting(Ytdlp)];
    d.entries := d.entries + effect.writes;
    match effect.run {
      case Killed =>
        d.log := d.log + [ToolTimedOut(Ytdlp)];
        return Err(TimedOut(Ytdlp));
      case Finished(rc) =>
        d.log := d.log + [ToolExited(Ytdlp, rc)];
        if rc != 0 {
          return Err(ExitStatus(Ytdlp, rc));
        }
        if outfile !in d.entries {
          return Err(NoOutputFile(Ytdlp));
        }
        return Ok(outfile);
    }
  }

  /** The ytarchive glob is refused exactly when the stem holds `**`: the
      `_` after the stem keeps a final `*` of the stem apart from the glob's
      own `*`. */
  lemma ArchivePatternInvalid(url: string)
    ensures Glob.InvalidComponent(ArchivePattern(url)) <==> Glob.HasDoubleStar(SafeName(url))
  {
    var stem := SafeName(url);
    var p := ArchivePattern(url);
    assert p == stem + "_*.mkv";
    assert p != "**" by {
      assert p[|p| - 1] == 'v';
    }
    if Glob.HasDoubleStar(stem) {
      var i :| 0 <= i < |stem| - 1 && stem[i] == '*' && stem[i + 1] == '*';
      assert p[i] == stem[i] && p[i + 1] == stem[i + 1];
    }
    if Glob.HasDoubleStar(p) {
      var i :| 0 <= i < |p| - 1 && p[i] == '*' && p[i + 1] == '*';
      assert p[|stem|..] == "_*.mkv";
      if i + 1 < |stem| {
        assert stem[i] == p[i] && stem[i + 1] == p[i + 1];
      } else {
        assert p[i + 1] == "_*.mkv"[i + 1 - |stem|];
      }
    }
  }

  /** ytarchive raises exactly on a timeout, on a non-zero exit, on a stem
      holding `**`, or when no entry matches the glob; when it returns, it
      returns the newest matching entry. */
  lemma ArchiveOutcomeCases(url: string, run: ToolRun, entries: map<string, Entry>, listing: seq<string>)
    requires IsEnumeration(listing, entries.Keys)
    ensures ArchiveOutcome(url, run, entries, listing).Err? <==>
              run.Killed? || run.code != 0 || Glob.HasDoubleStar(SafeName(url)) ||
              forall m :: m in entries ==> !Glob.Matches(ArchivePattern(url), m)
    ensures run == Finished(0) && Glob.HasDoubleStar(SafeName(url)) ==>
              ArchiveOutcome(url, run, entries, listing) == Err(InvalidPattern)
    ensures ArchiveOutcome(url, run, entries, listing).Ok? ==>
              var n := ArchiveOutcome(url, run, entries, listing).value;
              && n in entries && Glob.Matches(ArchivePattern(url), n)
              && forall m :: m in entries && Glob.Matches(ArchivePattern(url), m) ==>
                   MTime(entries, m) <= MTime(entries, n)
  {
    ArchivePatternInvalid(url);
    NewestIsNewest(entries, listing, ArchivePattern(url));
  }

  /** When no class can open in the stem, the file ytarchive is told to
      write matches the glob, so a run that exits 0 and writes it yields a
      recording, unless a `**` in the stem makes `Path.glob` raise. */
  lemma ArchiveFindsOwnFile(url: string, stamp: string, entries: map<string, Entry>, listing: seq<string>)
    requires Glob.ClassFree(SafeName(url)) && !Glob.HasDoubleStar(SafeName(url))
    requires IsEnumeration(listing, entries.Keys)
    requires FileName(SafeName(url), stamp, Mkv) in entries
    ensures Glob.Matches(ArchivePattern(url), FileName(SafeName(url), stamp, Mkv))
    ensures ArchiveOutcome(url, Finished(0), entries, listing).Ok?
  {
    var stem := SafeName(url);
    assert Glob.ClassFree(stem + "_") && Glob.ClassFree(".mkv");
    Glob.StarInfix(stem + "_", stamp, ".mkv");
    assert ArchivePattern(url) == (stem + "_") + "*" + ".mkv";
    assert FileName(stem, stamp, Mkv) == (stem + "_") + stamp + ".mkv";
    ArchivePatternInvalid(url);
    NewestIsNewest(entries, listing, ArchivePattern(url));
  }

  /** The glob accepts any timestamp: after a run that exits 0 without
      writing anything, an earlier recording of the same URL is returned
      (when no class can open in its stem and it holds no `**`). */
  lemma ArchiveAcceptsEarlierRecording(url: string, earlier: string, e: Entry)
    requires Glob.ClassFree(SafeName(url)) && !Glob.HasDoubleStar(SafeName(url))
    ensures var name := FileName(SafeName(url), earlier, Mkv);
            ArchiveOutcome(url, Finished(0), map[name := e], [name]) == Ok(name)
  {
    var name := FileName(SafeName(url), earlier, Mkv);
    var entries := map[name := e];
    ArchiveFindsOwnFile(url, earlier, entries, [name]);
    assert multiset([name])[name] == 1;
    NewestIsNewest(entries, [name], ArchivePattern(url));
  }

  /** A stem that opens with a class not accepting `[` makes the glob miss
      the file ytarchive is told to write, since that name begins with the
      stem's own `[`: a run that exits 0 having written only that file
      raises. The stem of `https://[::1]:8080/live` is `[__1]_8080_live`,
      whose class `[__1]` accepts only `_` and `1`. */
  lemma ClassStemMissesOwnFile(url: string, stamp: string, e: Entry)
    requires var stem := SafeName(url);
             && stem != [] && stem[0] == '[' && Glob.ClassClose(stem, 1) < |stem|
             && !Glob.InClass(stem[1..Glob.ClassClose(stem, 1)], '[')
             && !Glob.HasDoubleStar(stem)
    ensures !Glob.Matches(ArchivePattern(url), FileName(SafeName(url), stamp, Mkv))
    ensures var name := FileName(SafeName(url), stamp, Mkv);
            ArchiveOutcome(url, Finished(0), map[name := e], [name]) == Err(NoOutputFile(Ytarchive))
  {
    var stem := SafeName(url);
    var name := FileName(stem, stamp, Mkv);
    assert name == stem + ("_" + stamp + ".mkv") && name[0] == '[';
    assert ArchivePattern(url) == stem + "_*.mkv";
    Glob.ClassRejects(stem, "_*.mkv", name);
    ArchiveNoMatch(url, map[name := e], [name]);
  }

  /** An exit 0 that leaves no matching entry raises when the glob is
      accepted. */
  lemma ArchiveNoMatch(url: string, entries: map<string, Entry>, listing: seq<string>)
    requires IsEnumeration(listing, entries.Keys) && !Glob.HasDoubleStar(SafeName(url))
    requires forall m :: m in entries ==> !Glob.Matches(ArchivePattern(url), m)
    ensures ArchiveOutcome(url, Finished(0), entries, listing) == Err(NoOutputFile(Ytarchive))
  {
    ArchivePatternInvalid(url);
    NewestIsNewest(entries, listing, ArchivePattern(url));
  }

  /** ytarchive raises for `https://[::1]:8080/live` after exiting 0 with
      its recording written. */
  lemma BracketedHostMissesOwnFile(url: string, stamp: string, e: Entry)
    requires url == "https://[::1]:8080/live"
    ensures !Glob.Matches(ArchivePattern(url), FileName(SafeName(url), stamp, Mkv))
    ensures var name := FileName(SafeName(url), stamp, Mkv);
            ArchiveOutcome(url, Finished(0), map[name := e], [name]) == Err(NoOutputFile(Ytarchive))
  {
    var stem := "[__1]_8080_live";
    SafeNameBracketedHost(url);
    assert Glob.ScanClose(stem, 4) == 4;
    assert Glob.ClassClose(stem, 1) == 4;
    assert stem[1..4] == "__1";
    Glob.SmallClass();
    assert !Glob.HasDoubleStar(stem) by {
      assert forall i :: 0 <= i < |stem| ==> stem[i] != '*';
    }
    ClassStemMissesOwnFile(url, stamp, e);
  }

  /** For `https://example.com/a**b`, ytarchive raises although it exited
      0 with its recording written, and although `fnmatch` would accept
      that name: `Path.glob` refuses the pattern `example.com_a**b_*.mkv`. */
  lemma DoubleStarUrlRaises(url: string, stamp: string, e: Entry)
    requires url == "https://example.com/a**b"
    ensures var name := FileName(SafeName(url), stamp, Mkv);
            && Glob.Matches(ArchivePattern(url), name)
            && ArchiveOutcome(url, Finished(0), map[name := e], [name]) == Err(InvalidPattern)
  {
    var stem := "example.com_a**b";
    SafeNameDoubleStar(url);
    assert stem[13] == '*' && stem[14] == '*';
    assert forall i :: 0 <= i < |stem| ==> stem[i] != '[';
    DoubleStarStemRaises(url, stamp, e);
  }

  /** A class-free stem holding `**` matches the file ytarchive is told to
      write under `fnmatch`, yet an exit 0 with that file written raises. */
  lemma DoubleStarStemRaises(url: string, stamp: string, e: Entry)
    requires Glob.ClassFree(SafeName(url)) && Glob.HasDoubleStar(SafeName(url))
    ensures var name := FileName(SafeName(url), stamp, Mkv);
            && Glob.Matches(ArchivePattern(url), name)
            && ArchiveOutcome(url, Finished(0), map[name := e], [name]) == Err(InvalidPattern)
  {
    var stem := SafeName(url);
    var name := FileName(stem, stamp, Mkv);
    ArchivePatternInvalid(url);
    assert ArchivePattern(url) == (stem + "_") + "*" + ".mkv";
    assert name == (stem + "_") + stamp + ".mkv";
    assert Glob.ClassFree(stem + "_") && Glob.ClassFree(".mkv");
    Glob.StarInfix(stem + "_", stamp, ".mkv");
  }

  /** yt-dlp returns exactly its own output file, and raises exactly on a
      timeout, a non-zero exit, or a missing output file. */
  lemma DlpOutcomeCases(url: string, stamp: string, run: ToolRun, entries: map<string, Entry>)
    ensures DlpOutcome(url, stamp, run, entries).Ok? ==>
              DlpOutcome(url, stamp, run, entries).value == FileName(SafeName(url), stamp, Mp4) &&
              FileName(SafeName(url), stamp, Mp4) in entries
    ensures DlpOutcome(url, stamp, run, entries).Err? <==>
              run.Killed? || run.code != 0 || FileName(SafeName(url), stamp, Mp4) !in entries
  {
  }

  /** Whatever the listing, the name `Newest` picks from a pattern that ends
      in literal text ends in that text. */
  lemma NewestEndsWith(entries: map<string, Entry>, listing: seq<string>, q: string, lit: string)
    requires Glob.Literal(lit)
    requires Newest(entries, listing, q + lit).Some?
    ensures var n := Newest(entries, listing, q + lit).value;
            |lit| <= |n| && n[|n| - |lit|..] == lit
  {
    NewestMatches(entries, listing, q + lit);
    Glob.MatchesEndsWith(q, lit, Newest(entries, listing, q + lit).value);
  }

  /** Whatever the listing, the name `Newest` picks is listed and matches. */
  lemma NewestMatches(entries: map<string, Entry>, listing: seq<string>, pat: string)
    requires Newest(entries, listing, pat).Some?
    ensures var n := Newest(entries, listing, pat).value;
            n in listing && Glob.Matches(pat, n)
  {
    var matches := MatchingNames(listing, pat);
    var created := SortByMtime(entries, matches);
    SortByMtimeCorrect(entries, matches);
    assert created[0] in created;
  }

  /** A recording ytarchive returns is the newest glob match. */
  lemma ArchiveOkIsNewest(url: string, run: ToolRun, entries: map<string, Entry>, listing: seq<string>)
    requires ArchiveOutcome(url, run, entries, listing).Ok?
    ensures Newest(entries, listing, ArchivePattern(url)) == Some(ArchiveOutcome(url, run, entries, listing).value)
  {
  }

  /** A recording ytarchive returns is an `.mkv` file. */
  lemma ArchiveRecordingIsMkv(url: string, run: ToolRun, entries: map<string, Entry>, listing: seq<string>)
    requires ArchiveOutcome(url, run, entries, listing).Ok?
    ensures var n := ArchiveOutcome(url, run, entries, listing).value;
            |n| >= 4 && n[|n| - 4..] == ".mkv"
  {
    var q := SafeName(url) + "_*";
    var lit := ".mkv";
    var pat := ArchivePattern(url);
    ArchiveOkIsNewest(url, run, entries, listing);
    assert Glob.Literal(lit);
    assert pat == q + lit;
    NewestEndsWith(entries, listing, q, lit);
  }

  /** A recording yt-dlp returns is an `.mp4` file. */
  lemma DlpRecordingIsMp4(url: string, stamp: string, run: ToolRun, entries: map<string, Entry>)
    requires DlpOutcome(url, stamp, run, entries).Ok?
    ensures var n := DlpOutcome(url, stamp, run, entries).value;
            |n| >= 4 && n[|n| - 4..] == ".mp4"
  {
    var n := DlpOutcome(url, stamp, run, entries).value;
    assert n == (SafeName(url) + "_" + stamp) + ".mp4";
  }
}
