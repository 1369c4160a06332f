/** The retention sweep `cleanup_keep_last` (yt_auto_download.py:82-89): the
    regular files of the output directory, newest first, lose every file
    past the first `keep_n`; a failed unlink is logged and the sweep goes
    on. */
module Retention {

  import opened Events
  import opened Directory

  /** Where Python's slice `files[keep_n:]` starts in a list of length `n`;
      a negative `keep_n` counts from the end. */
  function Cut(n: nat, keepN: int): (c: nat)
    ensures c <= n
    ensures keepN >= 0 ==> c == (if keepN <= n then keepN else n)
    ensures keepN < 0 ==> n - c == (if -keepN <= n then -keepN else n)
  {
    if keepN >= 0 then (if keepN <= n then keepN else n)
    else if -keepN <= n then n + keepN else 0
  }

  /** `[p for p in output_dir.iterdir() if p.is_file()]`, in the order the
      directory was enumerated. */
  function RegularFiles(entries: map<string, Entry>, listing: seq<string>): (r: seq<string>)
    ensures multiset(r) <= multiset(listing)
    ensures forall n :: n in r <==> n in listing && n in entries && entries[n].isFile
  {
    if listing == [] then []
    else
      var n := listing[0];
      var rest := RegularFiles(entries, listing[1..]);
      assert listing == [n] + listing[1..];
      assert forall m :: m in rest ==> m in multiset(rest);
      (if n in entries && entries[n].isFile then [n] else []) + rest
  }

  /** The regular files sorted by mtime, newest first. */
  function Ordered(entries: map<string, Entry>, listing: seq<string>): seq<string>
  {
    SortByMtime(entries, RegularFiles(entries, listing))
  }

  /** `files[:keep_n]`: the files the sweep leaves alone. */
  function Survivors(entries: map<string, Entry>, listing: seq<string>, keepN: int): seq<string>
  {
    var o := Ordered(entries, listing);
    o[..Cut(|o|, keepN)]
  }

  /** `files[keep_n:]`: the files the sweep tries to unlink, in order. */
  function Victims(entries: map<string, Entry>, listing: seq<string>, keepN: int): seq<string>
  {
    var o := Ordered(entries, listing);
    o[Cut(|o|, keepN)..]
  }

  /** The names the sweep does remove: victims whose unlink succeeds. */
  function Removed(victims: seq<string>, fails: set<string>): set<string>
  {
    set v | v in victims && v !in fails
  }

  function SweepEvent(v: string, fails: set<string>): Event
  {
    if v in fails then CleanupFailed(v) else CleanupRemoved(v)
  }

  /** One log line per victim, in order. */
  function SweepLog(victims: seq<string>, fails: set<string>): seq<Event>
  {
    seq(|victims|, i requires 0 <= i < |victims| => SweepEvent(victims[i], fails))
  }

  /** The sweep over a directory that `listing` enumerates; unlinking a name
      in `fails` raises, which is caught and logged. */
  method CleanupKeepLast(d: OutputDir, keepN: int, listing: seq<string>, fails: set<string>)
    requires IsEnumeration(listing, d.entries.Keys)
    modifies d
    ensures d.entries == old(d.entries) - Removed(Victims(old(d.entries), listing, keepN), fails)
    ensures d.log == old(d.log) + SweepLog(Victims(old(d.entries), listing, keepN), fails)
  {
    // sorted([p for p in output_dir.iterdir() if p.is_file()], ...)[keep_n:]
    var victims := Victims(d.entries, listing, keepN);
    ghost var e0, l0 := d.entries, d.log;
    var i := 0;
    while i < |victims|
      invariant 0 <= i <= |victims|
      invariant d.entries == e0 - Removed(victims[..i], fails)
      invariant d.log == l0 + SweepLog(victims[..i], fails)
    {
      var f := victims[i];
      SweepStep(e0, l0, victims, i, fails);
      if f in fails {
        d.log := d.log + [CleanupFailed(f)];
      } else {
        d.entries := d.entries - {f};
        d.log := d.log + [CleanupRemoved(f)];
      }
      i := i + 1;
    }
    assert victims[..i] == victims;
  }

  /** One more victim: unlinked unless it is in `fails`, and logged. */
  lemma SweepStep(e0: map<string, Entry>, l0: seq<Event>, victims: seq<string>, i: nat, fails: set<string>)
    requires i < |victims|
    ensures var f := victims[i];
            e0 - Removed(victims[..i + 1], fails) ==
              if f in fails then e0 - Removed(victims[..i], fails) else (e0 - Removed(victims[..i], fails)) - {f}
    ensures l0 + SweepLog(victims[..i + 1], fails) == (l0 + SweepLog(victims[..i], fails)) + [SweepEvent(victims[i], fails)]
  {
    var pre := victims[..i];
    assert victims[..i + 1] == pre + [victims[i]];
    assert Removed(victims[..i + 1], fails) ==
           Removed(pre, fails) + (if victims[i] in fails then {} else {victims[i]});
    assert SweepLog(victims[..i + 1], fails) == SweepLog(pre, fails) + [SweepEvent(victims[i], fails)];
  }

  /** The ordered regular files of an enumerated directory are its regular
      files, each once. */
  lemma OrderedFiles(entries: map<string, Entry>, listing: seq<string>)
    requires IsEnumeration(listing, entries.Keys)
    ensures Distinct(Ordered(entries, listing))
    ensures Descending(entries, Ordered(entries, listing))
    ensures forall n :: n in Ordered(entries, listing) <==> n in entries && entries[n].isFile
  {
    var files := RegularFiles(entries, listing);
    assert Distinct(files) by {
      forall x ensures multiset(files)[x] <= 1 {
        assert multiset(files)[x] <= multiset(listing)[x];
      }
    }
    SortByMtimeCorrect(entries, files);
  }

  /** Survivors and victims split the ordered files, and no name is both. */
  lemma SplitDisjoint(entries: map<string, Entry>, listing: seq<string>, keepN: int)
    requires IsEnumeration(listing, entries.Keys)
    ensures forall n :: n in Survivors(entries, listing, keepN) ==> n !in Victims(entries, listing, keepN)
    ensures forall n :: n in Ordered(entries, listing) <==>
              n in Survivors(entries, listing, keepN) || n in Victims(entries, listing, keepN)
  {
    OrderedFiles(entries, listing);
    var o := Ordered(entries, listing);
    DistinctSplit(o, Cut(|o|, keepN));
  }

  /** Cutting a sequence without repeats gives two parts with no common
      name that together hold its names. */
  lemma DistinctSplit(o: seq<string>, c: nat)
    requires Distinct(o) && c <= |o|
    ensures forall n :: n in o[..c] ==> n !in o[c..]
    ensures forall n :: n in o <==> n in o[..c] || n in o[c..]
  {
    assert o == o[..c] + o[c..];
    assert multiset(o) == multiset(o[..c]) + multiset(o[c..]);
    forall n | n in o[..c]
      ensures n !in o[c..]
    {
      assert multiset(o)[n] <= 1;
      assert n in multiset(o[..c]);
    }
  }

  /** Whatever fails, every file the sweep keeps is at least as new as every
      file it tries to remove. */
  lemma SurvivorsNotOlder(entries: map<string, Entry>, listing: seq<string>, keepN: int)
    ensures forall i, j :: 0 <= i < |Survivors(entries, listing, keepN)| &&
                           0 <= j < |Victims(entries, listing, keepN)| ==>
              MTime(entries, Survivors(entries, listing, keepN)[i]) >=
              MTime(entries, Victims(entries, listing, keepN)[j])
  {
    var o := Ordered(entries, listing);
    SortByMtimeCorrect(entries, RegularFiles(entries, listing));
    DescendingSplit(entries, o, Cut(|o|, keepN));
  }

  /** Each name before a cut of a newest-first sequence is at least as new as
      each name after it. */
  lemma DescendingSplit(entries: map<string, Entry>, o: seq<string>, c: nat)
    requires Descending(entries, o) && c <= |o|
    ensures forall i, j :: 0 <= i < |o[..c]| && 0 <= j < |o[c..]| ==>
              MTime(entries, o[..c][i]) >= MTime(entries, o[c..][j])
  {
    forall i, j | 0 <= i < |o[..c]| && 0 <= j < |o[c..]|
      ensures MTime(entries, o[..c][i]) >= MTime(entries, o[c..][j])
    {
      assert o[..c][i] == o[i] && o[c..][j] == o[c + j];
    }
  }

  /** A victim whose unlink succeeds is gone, one whose unlink fails is
      still there, and an entry that is no victim is untouched. */
  lemma SweepOutcome(entries: map<string, Entry>, victims: seq<string>, fails: set<string>)
    ensures var after := entries - Removed(victims, fails);
            && (forall v :: v in victims && v !in fails ==> v !in after)
            && (forall v :: v in victims && v in fails && v in entries ==> v in after && after[v] == entries[v])
            && (forall n :: n in entries && n !in victims ==> n in after && after[n] == entries[n])
  {
  }

  /** Directories and other entries that are not regular files are never
      touched, whatever `keep_n` is and whichever unlinks fail. */
  lemma SweepSparesNonFiles(entries: map<string, Entry>, listing: seq<string>, keepN: int, fails: set<string>)
    requires IsEnumeration(listing, entries.Keys)
    ensures var after := entries - Removed(Victims(entries, listing, keepN), fails);
            forall n :: n in entries && !entries[n].isFile ==> n in after && after[n] == entries[n]
  {
    OrderedFiles(entries, listing);
    SplitDisjoint(entries, listing, keepN);
  }

  /** With no failed unlink and `keep_n >= 0`, the regular files left are
      exactly the first `keep_n` of the newest-first order. */
  lemma SweepKeepsNewest(entries: map<string, Entry>, listing: seq<string>, keepN: int)
    requires IsEnumeration(listing, entries.Keys)
    requires keepN >= 0
    ensures var after := entries - Removed(Victims(entries, listing, keepN), {});
            forall n :: n in after && after[n].isFile <==> n in Survivors(entries, listing, keepN)
    ensures |Survivors(entries, listing, keepN)| <= keepN
  {
    var victims := Victims(entries, listing, keepN);
    var after := entries - Removed(victims, {});
    var kept := Survivors(entries, listing, keepN);
    OrderedFiles(entries, listing);
    SplitDisjoint(entries, listing, keepN);
    forall n ensures n in after && after[n].isFile <==> n in kept {
      assert n in after <==> n in entries && n !in victims;
    }
  }

  /** ... so at most `keep_n` regular files remain. */
  lemma SweepLeavesAtMost(entries: map<string, Entry>, listing: seq<string>, keepN: int)
    requires IsEnumeration(listing, entries.Keys)
    requires keepN >= 0
    ensures var after := entries - Removed(Victims(entries, listing, keepN), {});
            |Files(after)| == |Survivors(entries, listing, keepN)| <= keepN
  {
    var after := entries - Removed(Victims(entries, listing, keepN), {});
    var kept := Survivors(entries, listing, keepN);
    SweepKeepsNewest(entries, listing, keepN);
    OrderedFiles(entries, listing);
    var o := Ordered(entries, listing);
    DistinctPrefix(o, Cut(|o|, keepN));
    DistinctCard(kept);
    var left := Files(after);
    assert left == (set n | n in kept) by {
      forall n ensures n in left <==> n in kept {
      }
    }
  }

  /** A negative `keep_n` is a Python slice from the end: the sweep removes
      the `-keep_n` oldest regular files (or all, if there are fewer). */
  lemma NegativeKeepRemovesOldest(entries: map<string, Entry>, listing: seq<string>, keepN: int)
    requires keepN < 0
    ensures var n := |Ordered(entries, listing)|;
            |Victims(entries, listing, keepN)| == (if -keepN <= n then -keepN else n)
    ensures Victims(entries, listing, keepN) ==
            Ordered(entries, listing)[|Survivors(entries, listing, keepN)|..]
  {
  }

  /** Sweeping again after a sweep without failures removes nothing, in
      whatever order the directory is enumerated the second time. */
  lemma SweepIdempotent(entries: map<string, Entry>, listing: seq<string>, keepN: int,
                        listing2: seq<string>)
    requires IsEnumeration(listing, entries.Keys)
    requires keepN >= 0
    requires IsEnumeration(listing2, (entries - Removed(Victims(entries, listing, keepN), {})).Keys)
    ensures Victims(entries - Removed(Victims(entries, listing, keepN), {}), listing2, keepN) == []
  {
    var after := entries - Removed(Victims(entries, listing, keepN), {});
    SweepLeavesAtMost(entries, listing, keepN);
    OrderedFiles(after, listing2);
    var o2 := Ordered(after, listing2);
    DistinctCard(o2);
    assert (set n | n in o2) == (set n | n in after && after[n].isFile);
  }
}
