/** The output directory: its entries, the trace of what the job does, and
    the order `sorted(..., key=st_mtime, reverse=True)` puts names
    in. */
module Directory {

  import opened Events

  /** What `is_file()` and `stat().st_mtime` report for an entry. */
  datatype Entry = Entry(isFile: bool, mtime: int)

  /** The output directory, updated in place by the capture tools, the
      upload step's local delete, the retention sweep and the status write.
      `log` is the job's trace: one event per line `log()` writes, plus the
      sleeps between upload attempts (`Waited`, which tenacity does not log)
      and the status-file write (`StatusWritten`). Writing `recording.log`
      itself leaves `entries` unchanged. */
  class OutputDir {
    var entries: map<string, Entry>
    var log: seq<Event>

    constructor (entries: map<string, Entry>)
      ensures this.entries == entries && log == []
    {
      this.entries := entries;
      log := [];
    }
  }

  /** No name occurs twice. */
  ghost predicate Distinct(s: seq<string>)
  {
    forall x :: multiset(s)[x] <= 1
  }

  /** `listing` is an order in which the operating system may enumerate a
      directory holding exactly the names `keys`. */
  ghost predicate IsEnumeration(listing: seq<string>, keys: set<string>)
  {
    Distinct(listing) && (forall n :: n in listing <==> n in keys)
  }

  /** The names of the regular files among `entries`. */
  function Files(entries: map<string, Entry>): set<string>
  {
    set n | n in entries && entries[n].isFile
  }

  function MTime(entries: map<string, Entry>, n: string): int
  {
    if n in entries then entries[n].mtime else 0
  }

  /** Newest first. */
  ghost predicate Descending(entries: map<string, Entry>, s: seq<string>)
  {
    forall i, j :: 0 <= i < j < |s| ==> MTime(entries, s[i]) >= MTime(entries, s[j])
  }

  /** Places `x` before the first name that is not newer than it, so that
      `x` stays ahead of the names of equal mtime it preceded. */
  function Insert(entries: map<string, Entry>, x: string, t: seq<string>): (r: seq<string>)
    ensures multiset(r) == multiset(t) + multiset{x}
    ensures |r| == |t| + 1
  {
    if t == [] || MTime(entries, x) >= MTime(entries, t[0]) then [x] + t
    else
      assert t == [t[0]] + t[1..];
      [t[0]] + Insert(entries, x, t[1..])
  }

  /** A name newer than every name of a descending sequence can lead it. */
  lemma ConsDescending(entries: map<string, Entry>, x: string, t: seq<string>)
    requires Descending(entries, t)
    requires forall k :: 0 <= k < |t| ==> MTime(entries, x) >= MTime(entries, t[k])
    ensures Descending(entries, [x] + t)
  {
    var r := [x] + t;
    forall i, j | 0 <= i < j < |r|
      ensures MTime(entries, r[i]) >= MTime(entries, r[j])
    {
      assert r[j] == t[j - 1];
      if i > 0 {
        assert r[i] == t[i - 1];
      }
    }
  }

  lemma {:induction false} InsertDescending(entries: map<string, Entry>, x: string, t: seq<string>)
    requires Descending(entries, t)
    ensures Descending(entries, Insert(entries, x, t))
  {
    if t == [] || MTime(entries, x) >= MTime(entries, t[0]) {
      ConsDescending(entries, x, t);
    } else {
      var rest := Insert(entries, x, t[1..]);
      assert Descending(entries, t[1..]) by {
        forall i, j | 0 <= i < j < |t[1..]|
          ensures MTime(entries, t[1..][i]) >= MTime(entries, t[1..][j])
        {
          assert t[1..][i] == t[i + 1] && t[1..][j] == t[j + 1];
        }
      }
      InsertDescending(entries, x, t[1..]);
      forall k | 0 <= k < |rest|
        ensures MTime(entries, t[0]) >= MTime(entries, rest[k])
      {
        assert rest[k] in multiset(rest);
        if rest[k] != x {
          assert rest[k] in multiset(t[1..]);
          var m :| 0 <= m < |t[1..]| && t[1..][m] == rest[k];
          assert t[m + 1] == rest[k];
        }
      }
      ConsDescending(entries, t[0], rest);
    }
  }

  /** Python's stable `sorted(names, key=mtime, reverse=True)`. */
  function SortByMtime(entries: map<string, Entry>, s: seq<string>): (r: seq<string>)
    ensures multiset(r) == multiset(s)
    ensures |r| == |s|
  {
    if s == [] then []
    else
      assert s == [s[0]] + s[1..];
      Insert(entries, s[0], SortByMtime(entries, s[1..]))
  }

  /** The sorted names are the given names, each as often, newest first. */
  lemma {:induction false} SortByMtimeCorrect(entries: map<string, Entry>, s: seq<string>)
    ensures multiset(SortByMtime(entries, s)) == multiset(s)
    ensures Descending(entries, SortByMtime(entries, s))
    ensures Distinct(s) ==> Distinct(SortByMtime(entries, s))
    ensures forall n :: n in SortByMtime(entries, s) <==> n in s
  {
    if s != [] {
      SortByMtimeCorrect(entries, s[1..]);
      InsertDescending(entries, s[0], SortByMtime(entries, s[1..]));
    }
    var r := SortByMtime(entries, s);
    forall n ensures n in r <==> n in s {
      assert n in r <==> n in multiset(r);
      assert n in s <==> n in multiset(s);
    }
  }

  /** The names of `s` whose mtime is `t`, in their order in `s`. */
  function WithMTime(entries: map<string, Entry>, s: seq<string>, t: int): (r: seq<string>)
    ensures forall k :: 0 <= k < |r| ==> MTime(entries, r[k]) == t
  {
    if s == [] then []
    else (if MTime(entries, s[0]) == t then [s[0]] else []) + WithMTime(entries, s[1..], t)
  }

  /** Insertion puts `x` after every name of its mtime that it found in
      front of it and before no one else of that mtime. */
  lemma {:induction false} InsertKeepsTies(entries: map<string, Entry>, x: string, u: seq<string>, t: int)
    ensures WithMTime(entries, Insert(entries, x, u), t)
         == (if MTime(entries, x) == t then [x] else []) + WithMTime(entries, u, t)
  {
    var r := Insert(entries, x, u);
    if u == [] || MTime(entries, x) >= MTime(entries, u[0]) {
      assert r[0] == x && r[1..] == u;
    } else {
      InsertKeepsTies(entries, x, u[1..], t);
      assert r[0] == u[0] && r[1..] == Insert(entries, x, u[1..]);
    }
  }

  /** The sort is stable: for every mtime, the names carrying it keep
      their order. */
  lemma {:induction false} SortByMtimeStable(entries: map<string, Entry>, s: seq<string>, t: int)
    ensures WithMTime(entries, SortByMtime(entries, s), t) == WithMTime(entries, s, t)
  {
    if s != [] {
      SortByMtimeStable(entries, s[1..], t);
      InsertKeepsTies(entries, s[0], SortByMtime(entries, s[1..]), t);
    }
  }

  /** The head of a newest-first sequence is as new as any of its names. */
  lemma DescendingHead(entries: map<string, Entry>, s: seq<string>)
    requires Descending(entries, s) && s != []
    ensures forall m :: m in s ==> MTime(entries, m) <= MTime(entries, s[0])
  {
    forall m | m in s
      ensures MTime(entries, m) <= MTime(entries, s[0])
    {
      var k :| 0 <= k < |s| && s[k] == m;
      if k > 0 {
        assert MTime(entries, s[0]) >= MTime(entries, s[k]);
      }
    }
  }

  lemma DistinctPrefix(s: seq<string>, c: nat)
    requires Distinct(s) && c <= |s|
    ensures Distinct(s[..c])
  {
    assert s == s[..c] + s[c..];
    assert multiset(s) == multiset(s[..c]) + multiset(s[c..]);
    forall x ensures multiset(s[..c])[x] <= 1 {
      assert multiset(s)[x] <= 1;
    }
  }

  /** A duplicate-free sequence has as many distinct elements as entries. */
  lemma {:induction false} DistinctCard(s: seq<string>)
    requires Distinct(s)
    ensures |set n | n in s| == |s|
  {
    if s != [] {
      assert s == [s[0]] + s[1..];
      assert multiset(s) == multiset{s[0]} + multiset(s[1..]);
      assert Distinct(s[1..]) by {
        forall x ensures multiset(s[1..])[x] <= 1 {
          assert multiset(s)[x] <= 1;
        }
      }
      DistinctCard(s[1..]);
      assert (set n | n in s) == {s[0]} + (set n | n in s[1..]);
      assert multiset(s)[s[0]] <= 1;
      assert s[0] !in multiset(s[1..]);
      assert s[0] !in (set n | n in s[1..]);
    }
  }
}
