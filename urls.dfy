/** The list of URLs a run processes (yt_auto_download.py:181-187): the
    command-line arguments when there are any, otherwise the lines of the URL
    file, stripped, without blank lines and without lines that begin with
    `#`. */
module Urls {

  import opened Wrappers
  import Names

  /** The characters Python's `str.strip()` removes (`str.isspace`). */
  predicate IsSpace(c: char)
  {
    ('\t' <= c <= '\r') || ('\U{1c}' <= c <= ' ') || c == '\U{85}' || c == '\U{a0}' ||
    c == '\U{1680}' || ('\U{2000}' <= c <= '\U{200a}') || c == '\U{2028}' || c == '\U{2029}' ||
    c == '\U{202f}' || c == '\U{205f}' || c == '\U{3000}'
  }

  function TrimLeft(s: string): string
  {
    if s != [] && IsSpace(s[0]) then TrimLeft(s[1..]) else s
  }

  function TrimRight(s: string): string
  {
    if s != [] && IsSpace(s[|s| - 1]) then TrimRight(s[..|s| - 1]) else s
  }

  /** `TrimLeft` drops a prefix of whitespace and stops at the first other
      character. */
  lemma {:induction false} TrimLeftShape(s: string)
    ensures var r := TrimLeft(s);
            && |r| <= |s| && r == s[|s| - |r|..]
            && (forall k :: 0 <= k < |s| - |r| ==> IsSpace(s[k]))
            && (r == [] || !IsSpace(r[0]))
  {
    if s != [] && IsSpace(s[0]) {
      TrimLeftShape(s[1..]);
      var r := TrimLeft(s);
      forall k | 1 <= k < |s| - |r| ensures IsSpace(s[k]) {
        assert s[k] == s[1..][k - 1];
      }
    }
  }

  /** `TrimRight` drops a suffix of whitespace and stops at the last other
      character. */
  lemma {:induction false} TrimRightShape(s: string)
    ensures var r := TrimRight(s);
            && |r| <= |s| && r == s[..|r|]
            && (forall k :: |r| <= k < |s| ==> IsSpace(s[k]))
            && (r == [] || !IsSpace(r[|r| - 1]))
  {
    if s != [] && IsSpace(s[|s| - 1]) {
      var t := s[..|s| - 1];
      TrimRightShape(t);
      var r := TrimRight(s);
      assert r == t[..|r|];
      forall k | |r| <= k < |s| - 1 ensures IsSpace(s[k]) {
        assert s[k] == t[k];
      }
    }
  }

  /** `str.strip()`. */
  function Strip(s: string): string
  {
    TrimLeft(TrimRight(s))
  }

  /** Stripping cuts a run of whitespace from each end and nothing else;
      what remains neither begins nor ends with whitespace. */
  lemma StripIsTrim(s: string)
    ensures var r := Strip(s);
            var i := |TrimRight(s)| - |r|;
            && 0 <= i && i + |r| <= |s| && s[i..i + |r|] == r
            && (forall k :: 0 <= k < i ==> IsSpace(s[k]))
            && (forall k :: i + |r| <= k < |s| ==> IsSpace(s[k]))
            && (r == [] || (!IsSpace(r[0]) && !IsSpace(r[|r| - 1])))
  {
    TrimRightShape(s);
    TrimLeftShape(TrimRight(s));
    CutBothEnds(s, TrimRight(s), Strip(s));
  }

  /** Whitespace cut from the end of `s`, giving `t`, then from the front of
      `t`, giving `r`: `r` sits in `s` between the two cuts. */
  lemma CutBothEnds(s: string, t: string, r: string)
    requires |t| <= |s| && t == s[..|t|] && (forall k :: |t| <= k < |s| ==> IsSpace(s[k]))
    requires t == [] || !IsSpace(t[|t| - 1])
    requires |r| <= |t| && r == t[|t| - |r|..] && (forall k :: 0 <= k < |t| - |r| ==> IsSpace(t[k]))
    requires r == [] || !IsSpace(r[0])
    ensures var i := |t| - |r|;
            && 0 <= i && i + |r| <= |s| && s[i..i + |r|] == r
            && (forall k :: 0 <= k < i ==> IsSpace(s[k]))
            && (forall k :: i + |r| <= k < |s| ==> IsSpace(s[k]))
            && (r == [] || (!IsSpace(r[0]) && !IsSpace(r[|r| - 1])))
  {
    var i := |t| - |r|;
    assert s[i..i + |r|] == r;
    forall k | 0 <= k < i ensures IsSpace(s[k]) {
      assert s[k] == t[k];
    }
    if r != [] {
      assert r[|r| - 1] == t[|t| - 1];
    }
  }

  /** A line is blank exactly when it is all whitespace. */
  lemma StripEmptyIff(s: string)
    ensures Strip(s) == [] <==> forall k :: 0 <= k < |s| ==> IsSpace(s[k])
  {
    StripIsTrim(s);
    var r := Strip(s);
    var i := |TrimRight(s)| - |r|;
    if r != [] {
      assert s[i] == r[0];
    }
  }

  /** Stripping twice is stripping once. */
  lemma StripIdempotent(s: string)
    ensures Strip(Strip(s)) == Strip(s)
  {
    StripIsTrim(s);
    var r := Strip(s);
    if r != [] {
      assert TrimRight(r) == r;
      assert TrimLeft(r) == r;
    }
  }

  /** Universal-newline reading: `\r\n` and a lone `\r` become `\n`. */
  function Translate(text: string): string
  {
    Names.ReplaceAll(Names.ReplaceAll(text, "\r\n", "\n"), "\r", "\n")
  }

  /** The length of the first line, its `\n` included. */
  function LineLength(t: string): (k: nat)
    ensures t != [] ==> 0 < k <= |t|
    ensures t == [] ==> k == 0
    ensures forall i :: 0 <= i < k - 1 ==> t[i] != '\n'
    ensures k < |t| ==> t[k - 1] == '\n'
  {
    if t == [] then 0 else if t[0] == '\n' then 1 else 1 + LineLength(t[1..])
  }

  /** The lines a text file yields when iterated, each with its `\n`. */
  function Lines(t: string): seq<string>
    decreases |t|
  {
    if t == [] then [] else
      var k := LineLength(t);
      [t[..k]] + Lines(t[k..])
  }

  function Concat(ls: seq<string>): string
  {
    if ls == [] then [] else ls[0] + Concat(ls[1..])
  }

  /** Splitting into lines loses nothing, every line is non-empty, holds no
      `\n` except as its last character, and all but the last end in `\n`. */
  lemma LinesSplit(t: string)
    ensures Concat(Lines(t)) == t
    ensures forall j :: 0 <= j < |Lines(t)| ==> Lines(t)[j] != []
    ensures forall j, i :: 0 <= j < |Lines(t)| && 0 <= i < |Lines(t)[j]| - 1 ==> Lines(t)[j][i] != '\n'
    ensures forall j :: 0 <= j < |Lines(t)| - 1 ==> Lines(t)[j][|Lines(t)[j]| - 1] == '\n'
  {
    LinesConcat(t);
    LinesShape(t);
  }

  lemma {:induction false} LinesConcat(t: string)
    ensures Concat(Lines(t)) == t
    decreases |t|
  {
    if t != [] {
      var k := LineLength(t);
      var head, tail := t[..k], t[k..];
      LinesConcat(tail);
      LinesCons(t);
      ConcatCons(head, Lines(tail));
      assert head + tail == t;
    }
  }

  lemma LinesCons(t: string)
    requires t != []
    ensures Lines(t) == [t[..LineLength(t)]] + Lines(t[LineLength(t)..])
  {
  }

  lemma ConcatCons(x: string, rest: seq<string>)
    ensures Concat([x] + rest) == x + Concat(rest)
  {
    assert ([x] + rest)[1..] == rest;
  }

  lemma {:induction false} LinesShape(t: string)
    ensures forall j :: 0 <= j < |Lines(t)| ==> Lines(t)[j] != []
    ensures forall j, i :: 0 <= j < |Lines(t)| && 0 <= i < |Lines(t)[j]| - 1 ==> Lines(t)[j][i] != '\n'
    ensures forall j :: 0 <= j < |Lines(t)| - 1 ==> Lines(t)[j][|Lines(t)[j]| - 1] == '\n'
    decreases |t|
  {
    if t != [] {
      var k := LineLength(t);
      LinesShape(t[k..]);
      var ls := Lines(t);
      var rest := Lines(t[k..]);
      assert ls == [t[..k]] + rest;
      assert forall j :: 0 < j < |ls| ==> ls[j] == rest[j - 1];
      if |ls| > 1 {
        assert rest != [];
        assert k < |t|;
      }
    }
  }

  /** The comprehension's condition: `line.strip() and not line.startswith("#")`.
      The `#` test is on the raw line, so an indented comment is kept. */
  predicate Keep(line: string)
  {
    Strip(line) != [] && !(|line| > 0 && line[0] == '#')
  }

  /** What one line contributes to the list. */
  function KeptPart(line: string): seq<string>
  {
    if Keep(line) then [Strip(line)] else []
  }

  /** `[line.strip() for line in lines if Keep(line)]`. */
  function FilterLines(lines: seq<string>): seq<string>
  {
    if lines == [] then [] else KeptPart(lines[0]) + FilterLines(lines[1..])
  }

  /** Filtering works line by line and keeps the order of the lines. */
  lemma {:induction false} FilterLinesAppend(a: seq<string>, b: seq<string>)
    ensures FilterLines(a + b) == FilterLines(a) + FilterLines(b)
  {
    if a == [] {
      assert a + b == b;
    } else {
      FilterLinesAppend(a[1..], b);
      FilterLinesHead(a, b);
      FilterLinesHead(a, []);
      assert KeptPart(a[0]) + (FilterLines(a[1..]) + FilterLines(b))
          == (KeptPart(a[0]) + FilterLines(a[1..])) + FilterLines(b);
    }
  }

  lemma FilterLinesHead(a: seq<string>, b: seq<string>)
    requires a != []
    ensures FilterLines(a + b) == KeptPart(a[0]) + FilterLines(a[1..] + b)
  {
    assert (a + b)[0] == a[0] && (a + b)[1..] == a[1..] + b;
  }

  /** `x` is the stripped text of a kept line. */
  ghost predicate FromKeptLine(lines: seq<string>, x: string)
  {
    exists i :: 0 <= i < |lines| && Keep(lines[i]) && Strip(lines[i]) == x
  }

  /** Every URL read from a file is the stripped text of a kept line, and
      it is non-empty and has no surrounding whitespace. */
  lemma {:induction false} FilterLinesSound(lines: seq<string>, x: string)
    requires x in FilterLines(lines)
    ensures FromKeptLine(lines, x)
    ensures x != [] && Strip(x) == x
  {
    assert lines != [];
    if Keep(lines[0]) && x == Strip(lines[0]) {
      StripIdempotent(lines[0]);
    } else {
      FilterLinesSound(lines[1..], x);
      var i :| 0 <= i < |lines[1..]| && Keep(lines[1..][i]) && Strip(lines[1..][i]) == x;
      assert lines[i + 1] == lines[1..][i];
    }
  }

  /** Every kept line contributes its stripped text. */
  lemma {:induction false} FilterLinesComplete(lines: seq<string>, i: nat)
    requires i < |lines| && Keep(lines[i])
    ensures Strip(lines[i]) in FilterLines(lines)
  {
    if i > 0 {
      FilterLinesComplete(lines[1..], i - 1);
      assert lines[1..][i - 1] == lines[i];
    }
  }

  lemma {:induction false} FilterLinesShorter(lines: seq<string>)
    ensures |FilterLines(lines)| <= |lines|
  {
    if lines != [] {
      FilterLinesShorter(lines[1..]);
    }
  }

  /** The URLs from a file are exactly the stripped kept lines. */
  lemma FilterLinesMembers(lines: seq<string>)
    ensures |FilterLines(lines)| <= |lines|
    ensures forall x :: x in FilterLines(lines) <==> FromKeptLine(lines, x)
    ensures forall x :: x in FilterLines(lines) ==> x != [] && Strip(x) == x
  {
    FilterLinesShorter(lines);
    forall x | x in FilterLines(lines)
      ensures FromKeptLine(lines, x) && x != [] && Strip(x) == x
    {
      FilterLinesSound(lines, x);
    }
    forall x | FromKeptLine(lines, x)
      ensures x in FilterLines(lines)
    {
      var i :| 0 <= i < |lines| && Keep(lines[i]) && Strip(lines[i]) == x;
      FilterLinesComplete(lines, i);
    }
  }

  datatype ReadError = UrlsFileMissing

  /** The URL list of a run, given `sys.argv` and the URL file's text
      (None when the file does not exist, which ends the run). */
  function ReadUrls(argv: seq<string>, file: Option<string>): (r: Result<seq<string>, ReadError>)
    ensures |argv| > 1 ==> r == Ok(argv[1..])
    ensures |argv| <= 1 ==> (r.Err? <==> file.None?)
  {
    if |argv| > 1 then Ok(argv[1..])
    else if file.None? then Err(UrlsFileMissing)
    else Ok(FilterLines(Lines(Translate(file.value))))
  }

  /** Read from the file, the URLs are the stripped non-blank lines whose
      raw text does not begin with `#`, in file order and nothing else. */
  lemma ReadUrlsFromFile(argv: seq<string>, text: string)
    requires |argv| <= 1
    ensures var lines := Lines(Translate(text));
            && ReadUrls(argv, Some(text)) == Ok(FilterLines(lines))
            && (forall x :: x in FilterLines(lines) <==> FromKeptLine(lines, x))
            && (forall x :: x in FilterLines(lines) ==> x != [] && Strip(x) == x)
  {
    FilterLinesMembers(Lines(Translate(text)));
  }

  /** The `#` test looks at the raw line: an indented comment is kept. */
  lemma IndentedCommentKept()
    ensures Keep(" #x") && Strip(" #x") == "#x"
    ensures !Keep("#x")
  {
    assert TrimRight(" #x") == " #x";
    assert TrimLeft(" #x") == "#x" by {
      assert " #x"[1..] == "#x";
    }
  }
}
