/** Names and paths of recordings: the sanitised stem derived from a URL, the
    file name built from stem, timestamp and extension, the base name of a
    path and the remote path an upload goes to. */
module Names {

  import opened Wrappers

  /** Python's `str.replace(pat, rep)`: every non-overlapping occurrence of
      `pat`, scanning from the left, is replaced by `rep`. */
  function ReplaceAll(s: string, pat: string, rep: string): string
    requires |pat| > 0
    decreases |s|
  {
    if |s| < |pat| then s
    else if s[..|pat|] == pat then rep + ReplaceAll(s[|pat|..], pat, rep)
    else [s[0]] + ReplaceAll(s[1..], pat, rep)
  }

  /** Replacing a one-character pattern by a one-character replacement maps
      the string character by character. */
  lemma {:induction false} ReplaceCharAt(s: string, c: char, d: char)
    ensures |ReplaceAll(s, [c], [d])| == |s|
    ensures forall i :: 0 <= i < |s| ==>
              ReplaceAll(s, [c], [d])[i] == (if s[i] == c then d else s[i])
  {
    if |s| > 0 {
      ReplaceCharAt(s[1..], c, d);
      if s[..1] == [c] {
        assert s[0] == c;
      } else {
        assert s[0] != c;
      }
    }
  }

  /** `pat` occurs in `s` at position `i`. */
  predicate OccursAt(s: string, pat: string, i: int)
  {
    0 <= i && i + |pat| <= |s| && s[i..i + |pat|] == pat
  }

  ghost predicate Occurs(s: string, pat: string)
  {
    exists i :: OccursAt(s, pat, i)
  }

  /** A string with no occurrence of `pat` is left unchanged. */
  lemma {:induction false} ReplaceAbsent(s: string, pat: string, rep: string)
    requires |pat| > 0
    requires !Occurs(s, pat)
    ensures ReplaceAll(s, pat, rep) == s
  {
    if |s| >= |pat| {
      assert !OccursAt(s, pat, 0);
      assert s[..|pat|] == s[0..|pat|];
      forall i | OccursAt(s[1..], pat, i)
        ensures false
      {
        assert s[1..][i..i + |pat|] == s[i + 1..i + 1 + |pat|];
        assert OccursAt(s, pat, i + 1);
      }
      ReplaceAbsent(s[1..], pat, rep);
    }
  }

  const Scheme: string := "https://"

  /** The file name stem of a URL (yt_auto_download.py:94 and :121):
      `url.replace("https://", "").replace("/", "_").replace(":", "_")`. */
  function SafeName(url: string): string
  {
    ReplaceAll(ReplaceAll(ReplaceAll(url, Scheme, ""), "/", "_"), ":", "_")
  }

  /** The stem of a URL never contains a path separator or a colon. */
  lemma SafeNameHasNoSeparator(url: string)
    ensures '/' !in SafeName(url) && ':' !in SafeName(url)
    ensures |SafeName(url)| <= |url|
  {
    var a := ReplaceAll(url, Scheme, "");
    ReplaceShrinks(url, Scheme);
    var b := ReplaceAll(a, "/", "_");
    ReplaceCharAt(a, '/', '_');
    ReplaceCharAt(b, ':', '_');
    var c := ReplaceAll(b, ":", "_");
    assert forall i :: 0 <= i < |c| ==> c[i] != '/' && c[i] != ':';
  }

  /** Removing a pattern never makes a string longer. */
  lemma {:induction false} ReplaceShrinks(s: string, pat: string)
    requires |pat| > 0
    ensures |ReplaceAll(s, pat, "")| <= |s|
  {
    if |s| >= |pat| {
      if s[..|pat|] == pat {
        ReplaceShrinks(s[|pat|..], pat);
      } else {
        ReplaceShrinks(s[1..], pat);
      }
    }
  }

  /** Sanitising a URL with no "https://" in it keeps its length and
      replaces exactly the `/` and `:` characters by `_`. */
  lemma SafeNamePointwise(url: string)
    requires !Occurs(url, Scheme)
    ensures |SafeName(url)| == |url|
    ensures forall i :: 0 <= i < |url| ==>
              SafeName(url)[i] == (if url[i] == '/' || url[i] == ':' then '_' else url[i])
  {
    ReplaceAbsent(url, Scheme, "");
    var b := ReplaceAll(url, "/", "_");
    ReplaceCharAt(url, '/', '_');
    ReplaceCharAt(b, ':', '_');
  }

  /** A leading "https://" contributes nothing to the stem. */
  lemma SafeNameDropsScheme(rest: string)
    ensures SafeName(Scheme + rest) == SafeName(rest)
  {
    var s := Scheme + rest;
    assert s[..|Scheme|] == Scheme;
    assert s[|Scheme|..] == rest;
    assert ReplaceAll(s, Scheme, "") == ReplaceAll(rest, Scheme, "");
  }

  /** The stem of a URL whose host is a bracketed IPv6 literal opens with
      the bracket. */
  lemma SafeNameBracketedHost(url: string)
    requires url == "https://[::1]:8080/live"
    ensures SafeName(url) == "[__1]_8080_live"
  {
    StemAfterScheme(url, "[::1]:8080/live", "[__1]_8080_live");
  }

  /** The stem of `https://` followed by text without `h` is that text with
      `/` and `:` turned into `_`. */
  /** The stem of `https://example.com/a**b` keeps its `**`. */
  lemma SafeNameDoubleStar(url: string)
    requires url == "https://example.com/a**b"
    ensures SafeName(url) == "example.com_a**b"
  {
    StemAfterScheme(url, "example.com/a**b", "example.com_a**b");
  }

  lemma StemAfterScheme(url: string, rest: string, stem: string)
    requires url == Scheme + rest
    requires forall i :: 0 <= i < |rest| ==> rest[i] != 'h'
    requires |stem| == |rest|
    requires forall i :: 0 <= i < |rest| ==>
               stem[i] == (if rest[i] == '/' || rest[i] == ':' then '_' else rest[i])
    ensures SafeName(url) == stem
  {
    SafeNameDropsScheme(rest);
    AbsentWithoutHead(rest, Scheme);
    SafeNamePointwise(rest);
  }

  /** A string without the first character of `pat` holds no occurrence of
      `pat`. */
  lemma AbsentWithoutHead(s: string, pat: string)
    requires |pat| > 0 && forall i :: 0 <= i < |s| ==> s[i] != pat[0]
    ensures !Occurs(s, pat)
  {
    forall i | 0 <= i < |s|
      ensures !OccursAt(s, pat, i)
    {
      if i + |pat| <= |s| {
        assert s[i..i + |pat|][0] == s[i];
      }
    }
  }

  /** Two different URLs can share a stem, so stems do not identify URLs. */
  lemma SafeNameCollides()
    ensures SafeName("a/b") == SafeName("a:b") == SafeName("a_b")
  {
    SafeNamePointwise("a/b");
    SafeNamePointwise("a:b");
    SafeNamePointwise("a_b");
  }

  /** The media container a capture tool writes. */
  datatype Ext = Mkv | Mp4
  {
    function Suffix(): string
    {
      match this
      case Mkv => ".mkv"
      case Mp4 => ".mp4"
    }
  }

  /** `strftime("%Y%m%d_%H%M%S")` of a four-digit year: eight digits, an
      underscore, six digits. */
  predicate IsTimestamp(t: string)
  {
    |t| == 15 && t[8] == '_' &&
    forall i :: 0 <= i < 15 && i != 8 ==> '0' <= t[i] <= '9'
  }

  /** `f"{safe_name}_{timestamp}{ext}"` (yt_auto_download.py:95 and :122). */
  function FileName(stem: string, stamp: string, ext: Ext): string
  {
    stem + "_" + stamp + ext.Suffix()
  }

  /** Splits a file name built by FileName back into stem and timestamp. */
  function ParseFileName(name: string, ext: Ext): (r: Option<(string, string)>)
    ensures r.Some? ==> FileName(r.value.0, r.value.1, ext) == name
  {
    var n := |name|;
    if n < 20 then None
    else
      var stem := name[..n - 20];
      var stamp := name[n - 19..n - 4];
      if name[n - 20] == '_' && IsTimestamp(stamp) && name[n - 4..] == ext.Suffix() then
        assert name == stem + "_" + stamp + ext.Suffix();
        Some((stem, stamp))
      else None
  }

  /** Parsing recovers stem and timestamp from every valid file name, so
      FileName is injective on well-formed timestamps. */
  lemma ParseFileNameRoundTrip(stem: string, stamp: string, ext: Ext)
    requires IsTimestamp(stamp)
    ensures ParseFileName(FileName(stem, stamp, ext), ext) == Some((stem, stamp))
  {
    var name := FileName(stem, stamp, ext);
    var n := |name|;
    assert n == |stem| + 20;
    assert name[..n - 20] == stem;
    assert name[n - 19..n - 4] == stamp;
    assert name[n - 4..] == ext.Suffix();
  }

  /** A file name built from a stem and a timestamp is a single path
      component, and it carries its extension at the end. */
  lemma FileNameShape(url: string, stamp: string, ext: Ext)
    requires IsTimestamp(stamp)
    ensures '/' !in FileName(SafeName(url), stamp, ext)
    ensures |FileName(SafeName(url), stamp, ext)| == |SafeName(url)| + 20
    ensures FileName(SafeName(url), stamp, ext)[|SafeName(url)| + 16..] == ext.Suffix()
  {
    SafeNameHasNoSeparator(url);
    var name := FileName(SafeName(url), stamp, ext);
    forall i | 0 <= i < |name| ensures name[i] != '/' {
      if i < |SafeName(url)| {
        assert name[i] == SafeName(url)[i];
      } else if i > |SafeName(url)| && i < |SafeName(url)| + 16 {
        assert name[i] == stamp[i - |SafeName(url)| - 1];
      }
    }
  }

  /** `os.path.basename`: what follows the last `/` (all of it when there
      is none). */
  function Basename(path: string): (b: string)
    ensures '/' !in b
    ensures |b| <= |path| && path[|path| - |b|..] == b
    ensures |b| < |path| ==> path[|path| - |b| - 1] == '/'
  {
    if path == [] then []
    else if path[|path| - 1] == '/' then []
    else Basename(path[..|path| - 1]) + [path[|path| - 1]]
  }

  /** `str.rstrip(c)`: the string without its trailing run of `c`. */
  function RStrip(s: string, c: char): (r: string)
    ensures |r| <= |s| && s[..|r|] == r
    ensures forall i :: |r| <= i < |s| ==> s[i] == c
    ensures r == [] || r[|r| - 1] != c
  {
    if s == [] || s[|s| - 1] != c then s else RStrip(s[..|s| - 1], c)
  }

  /** `str(Path(dir) / name)` for a single-component name, where `dir` is
      the text of a `Path`: `.` for the current directory, and without a
      trailing `/` unless it is the root. */
  function JoinPath(dir: string, name: string): string
  {
    DirPrefix(dir) + name
  }

  /** What `Path` puts before a child's name: nothing for `.`, the
      directory itself when it ends in `/` (the root), otherwise the
      directory and one `/`. */
  function DirPrefix(dir: string): (p: string)
    ensures p == [] || p[|p| - 1] == '/'
  {
    if dir == "." then []
    else if dir != [] && dir[|dir| - 1] == '/' then dir
    else dir + "/"
  }

  lemma BasenameOfJoin(dir: string, name: string)
    requires '/' !in name
    ensures Basename(JoinPath(dir, name)) == name
  {
    var p := JoinPath(dir, name);
    assert p[|p| - |name|..] == name;
    if DirPrefix(dir) != [] {
      assert p[|p| - |name| - 1] == '/';
    }
  }

  /** `f"{RCLONE_REMOTE.rstrip('/')}/{os.path.basename(recorded)}"`
      (yt_auto_download.py:152-153). */
  function RemotePath(remote: string, recorded: string): (r: string)
  {
    RStrip(remote, '/') + "/" + Basename(recorded)
  }

  /** The remote path is the remote root without its trailing slashes, one
      `/`, and the file name of the local path (by `BasenameOfJoin`, the
      recording's own name). */
  lemma RemotePathShape(remote: string, path: string)
    ensures var name := Basename(path);
            var r := RemotePath(remote, path);
            var root := r[..|r| - |name| - 1];
            && |r| > |name|
            && r[|r| - |name|..] == name
            && r[|r| - |name| - 1] == '/'
            && (root == [] || root[|root| - 1] != '/')
            && remote[..|root|] == root
            && forall i :: |root| <= i < |remote| ==> remote[i] == '/'
  {
    var name := Basename(path);
    var root := RStrip(remote, '/');
    var r := root + "/" + name;
    assert RemotePath(remote, path) == r;
    assert |r| - |name| - 1 == |root|;
    assert r[..|root|] == root;
    assert r[|r| - |name|..] == name;
  }
}
