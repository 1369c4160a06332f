/** Matching of one directory entry name against a single-component glob
    pattern, as `Path.glob` does it on a POSIX system through Python's
    `fnmatch.translate`: `*` matches any run of characters, `?` any single
    character, `[...]` one character of a class (`[!...]` one character
    outside it), and every other character itself. A `[` that no `]` closes
    is an ordinary character. */
module Glob {

  /** The first `]` of `pat` at or after `j`, or `|pat|` when there is none. */
  function ScanClose(pat: string, j: nat): (k: nat)
    requires j <= |pat|
    ensures j <= k <= |pat|
    ensures k < |pat| ==> pat[k] == ']'
    ensures forall m :: j <= m < k ==> pat[m] != ']'
    decreases |pat| - j
  {
    if j == |pat| || pat[j] == ']' then j else ScanClose(pat, j + 1)
  }

  /** Where the class whose `[` stands just before `pat[i]` ends: a leading
      `!` negates it, a `]` right after the opening (or after the `!`) is a
      member, and the class runs to the next `]`. `|pat|` when no `]` closes
      it. */
  function ClassClose(pat: string, i: nat): (j: nat)
    requires i <= |pat|
    ensures i <= j <= |pat|
    ensures j < |pat| ==> pat[j] == ']'
  {
    var j1 := if i < |pat| && pat[i] == '!' then i + 1 else i;
    var j2 := if j1 < |pat| && pat[j1] == ']' then j1 + 1 else j1;
    ScanClose(pat, j2)
  }

  /** The first `-` of `s` at or after `k`, or `|s|`. */
  function Hyphen(s: string, k: nat): (h: nat)
    ensures h == |s| || (k <= h < |s| && s[h] == '-')
    decreases |s| - k
  {
    if k >= |s| then |s| else if s[k] == '-' then k else Hyphen(s, k + 1)
  }

  /** The split of a class body at its range hyphens: the search for a
      hyphen starts `k` characters into the rest, and two characters past
      the start of each later chunk, so a hyphen that opens a chunk or
      follows a range's upper end is an ordinary member. */
  function Split(s: string, k: nat): (cs: seq<string>)
    ensures |cs| >= 1
    decreases |s|
  {
    var h := Hyphen(s, k);
    if h >= |s| then [s] else [s[..h]] + Split(s[h + 1..], 2)
  }

  /** The chunks of a class body: the first search skips the first member
      (and a leading `!`), and a hyphen that ends the body is a member of
      the last chunk. */
  function Chunks(body: string): seq<string>
  {
    var cs := Split(body, if body != [] && body[0] == '!' then 2 else 1);
    if |cs| >= 2 && cs[|cs| - 1] == [] then cs[..|cs| - 2] + [cs[|cs| - 2] + "-"] else cs
  }

  /** The removal of empty ranges, from the last chunk to the first: when
      the range between two neighbouring chunks is reversed, both of its
      ends are dropped and the two chunks become one. (The chunks compared
      are never empty; the guard only keeps the function total.) */
  function Prune(cs: seq<string>): seq<string>
    decreases |cs|
  {
    if |cs| <= 1 then cs
    else
      var prev, last := cs[|cs| - 2], cs[|cs| - 1];
      if prev != [] && last != [] && prev[|prev| - 1] > last[0] then
        Prune(cs[..|cs| - 2] + [prev[..|prev| - 1] + last[1..]])
      else Prune(cs[..|cs| - 1]) + [last]
  }

  /** The regular-expression set the chunks become: the characters of the
      chunks, each taken literally, with a range hyphen between neighbours. */
  datatype Token = Lit(c: char) | Dash

  function TokenChar(t: Token): char
  {
    if t.Lit? then t.c else '-'
  }

  function Lits(s: string): (r: seq<Token>)
    ensures |r| == |s|
    ensures forall i :: 0 <= i < |s| ==> r[i] == Lit(s[i])
  {
    if s == [] then [] else [Lit(s[0])] + Lits(s[1..])
  }

  function Tokens(cs: seq<string>): seq<Token>
  {
    if cs == [] then []
    else Lits(cs[0]) + if |cs| == 1 then [] else [Dash] + Tokens(cs[1..])
  }

  /** Membership in the set as Python's regular-expression parser reads it:
      a character followed by a range hyphen and another character is a
      range, and a hyphen that ends the set is a member. */
  function Members(ts: seq<Token>, c: char): bool
    decreases |ts|
  {
    if ts == [] then false
    else if |ts| >= 3 && ts[1] == Dash then
      (TokenChar(ts[0]) <= c <= TokenChar(ts[2])) || Members(ts[3..], c)
    else if |ts| == 2 && ts[1] == Dash then c == TokenChar(ts[0]) || c == '-'
    else c == TokenChar(ts[0]) || Members(ts[1..], c)
  }

  /** Whether `c` is one of the characters the class with body `body` (the
      text between `[` and `]`) accepts. A body left empty by the removal of
      empty ranges accepts nothing; a lone `!` left by it accepts every
      character. */
  function InClass(body: string, c: char): bool
  {
    var ts := Tokens(Prune(Chunks(body)));
    if ts == [] then false
    else if ts == [Lit('!')] then true
    else if ts[0] == Lit('!') then !Members(ts[1..], c)
    else Members(ts, c)
  }

  function Matches(pat: string, name: string): bool
    decreases |pat| + |name|, 1
  {
    if pat == [] then name == []
    else if pat[0] == '*' then Matches(pat[1..], name) || (name != [] && Matches(pat, name[1..]))
    else if name == [] then false
    else if pat[0] == '[' && ClassClose(pat, 1) < |pat| then MatchesClass(pat, name)
    else (pat[0] == '?' || pat[0] == name[0]) && Matches(pat[1..], name[1..])
  }

  /** A name against a pattern that opens with a closed class: the class
      accepts the first character and the rest of the pattern matches the
      rest of the name. */
  function MatchesClass(pat: string, name: string): bool
    requires pat != [] && name != [] && pat[0] == '[' && ClassClose(pat, 1) < |pat|
    decreases |pat| + |name|, 0
  {
    var j := ClassClose(pat, 1);
    InClass(pat[1..j], name[0]) && Matches(pat[j + 1..], name[1..])
  }

  /** A pattern in which no class can open. */
  predicate ClassFree(s: string)
  {
    forall i :: 0 <= i < |s| ==> s[i] != '['
  }

  /** A lone `*` matches every name. */
  lemma {:induction false} StarMatchesAll(name: string)
    ensures Matches("*", name)
  {
    if name != [] {
      StarMatchesAll(name[1..]);
    }
  }

  /** Every class-free string matches itself read as a pattern: a wildcard
      character in it matches that character too. */
  lemma {:induction false} MatchesItself(s: string)
    requires ClassFree(s)
    ensures Matches(s, s)
  {
    if s != [] {
      MatchesItself(s[1..]);
      if s[0] == '*' {
        assert Matches(s[1..], s[1..]);
        assert Matches(s, s[1..]);
      }
    }
  }

  /** Matching is compatible with concatenation when no class opens in the
      first pattern. */
  lemma {:induction false} MatchesConcat(p1: string, s1: string, p2: string, s2: string)
    requires ClassFree(p1)
    requires Matches(p1, s1) && Matches(p2, s2)
    ensures Matches(p1 + p2, s1 + s2)
    decreases |p1| + |s1|, 1
  {
    if p1 == [] {
      assert p1 + p2 == p2 && s1 + s2 == s2;
    } else if p1[0] == '*' {
      ConcatStar(p1, s1, p2, s2);
    } else {
      ConcatPlain(p1, s1, p2, s2);
    }
  }

  /** The `*` case of `MatchesConcat`. */
  lemma {:induction false} ConcatStar(p1: string, s1: string, p2: string, s2: string)
    requires ClassFree(p1) && p1 != [] && p1[0] == '*'
    requires Matches(p1, s1) && Matches(p2, s2)
    ensures Matches(p1 + p2, s1 + s2)
    decreases |p1| + |s1|, 0
  {
    var p := p1 + p2;
    assert p[0] == '*' && p[1..] == p1[1..] + p2;
    ClassFreeTail(p1);
    if Matches(p1[1..], s1) {
      MatchesConcat(p1[1..], s1, p2, s2);
    } else {
      MatchesConcat(p1, s1[1..], p2, s2);
      assert (s1 + s2)[1..] == s1[1..] + s2;
    }
  }

  /** The case of `MatchesConcat` where `p1` starts with `?` or a literal. */
  lemma {:induction false} ConcatPlain(p1: string, s1: string, p2: string, s2: string)
    requires ClassFree(p1) && p1 != [] && p1[0] != '*'
    requires Matches(p1, s1) && Matches(p2, s2)
    ensures Matches(p1 + p2, s1 + s2)
    decreases |p1| + |s1|, 0
  {
    var p := p1 + p2;
    assert p[0] == p1[0] && p[1..] == p1[1..] + p2;
    ClassFreeTail(p1);
    MatchesPlain(p1, s1);
    MatchesConcat(p1[1..], s1[1..], p2, s2);
    assert (s1 + s2)[0] == s1[0] && (s1 + s2)[1..] == s1[1..] + s2;
    MatchesPlain(p, s1 + s2);
  }

  lemma ClassFreeTail(s: string)
    requires s != [] && ClassFree(s)
    ensures s[0] != '[' && ClassFree(s[1..])
  {
    assert forall i :: 0 <= i < |s[1..]| ==> s[1..][i] == s[i + 1];
  }

  /** Matching at a pattern character other than `*` and `[` consumes one
      name character: `?` any, every other character itself. */
  lemma MatchesPlain(pat: string, name: string)
    requires pat != [] && pat[0] != '*' && pat[0] != '['
    ensures Matches(pat, name) <==>
              name != [] && (pat[0] == '?' || pat[0] == name[0]) && Matches(pat[1..], name[1..])
  {
  }

  /** A `*` between two class-free parts matches any text in between:
      `a*b` matches `a + x + b`. */
  lemma StarInfix(a: string, x: string, b: string)
    requires ClassFree(a) && ClassFree(b)
    ensures Matches(a + "*" + b, a + x + b)
  {
    MatchesItself(a);
    MatchesItself(b);
    StarMatchesAll(x);
    MatchesConcat(a, a, "*", x);
    assert ClassFree(a + "*");
    MatchesConcat(a + "*", a + x, b, b);
  }

  /** `'**' in s`. */
  predicate HasDoubleStar(s: string)
  {
    exists i :: 0 <= i < |s| - 1 && s[i] == '*' && s[i + 1] == '*'
  }

  /** A pattern component that `Path.glob` of Python 3.9 to 3.12 refuses
      with a `ValueError` before it lists anything: one holding `**`
      without being the recursive wildcard `**` itself. */
  predicate InvalidComponent(pat: string)
  {
    pat != "**" && HasDoubleStar(pat)
  }

  /** A pattern without wildcards, classes or class ends. */
  predicate Literal(s: string)
  {
    forall i :: 0 <= i < |s| ==> s[i] !in "*?[]"
  }

  /** A literal pattern matches exactly itself. */
  lemma {:induction false} LiteralMatchesOnlyItself(lit: string, name: string)
    requires Literal(lit)
    ensures Matches(lit, name) <==> name == lit
    decreases |lit|
  {
    if lit != [] && name != [] {
      assert lit[0] !in "*?[]";
      LiteralMatchesOnlyItself(lit[1..], name[1..]);
      if name == lit {
        assert name[1..] == lit[1..];
      }
      if name[0] == lit[0] && name[1..] == lit[1..] {
        assert name == [name[0]] + name[1..] && lit == [lit[0]] + lit[1..];
      }
    }
  }

  /** A name matching a pattern that ends in literal text ends in that text,
      whatever wildcards and classes come before it: a class cannot close
      inside text without `]`. */
  lemma {:induction false} MatchesEndsWith(q: string, lit: string, name: string)
    requires Literal(lit) && Matches(q + lit, name)
    ensures |lit| <= |name| && name[|name| - |lit|..] == lit
    decreases |q| + |name|, 1
  {
    var p := q + lit;
    if q == [] {
      assert p == lit;
      LiteralMatchesOnlyItself(lit, name);
    } else if q[0] == '*' {
      EndsWithStar(q, lit, name);
    } else if q[0] == '[' && ClassClose(p, 1) < |p| {
      EndsWithClass(q, lit, name);
    } else {
      assert p[0] == q[0] && p[1..] == q[1..] + lit;
      MatchesEndsWith(q[1..], lit, name[1..]);
      EndsWithTail(lit, name);
    }
  }

  lemma {:induction false} EndsWithStar(q: string, lit: string, name: string)
    requires Literal(lit) && Matches(q + lit, name)
    requires q != [] && q[0] == '*'
    ensures |lit| <= |name| && name[|name| - |lit|..] == lit
    decreases |q| + |name|, 0
  {
    var p := q + lit;
    assert p[0] == '*' && p[1..] == q[1..] + lit;
    if Matches(q[1..] + lit, name) {
      MatchesEndsWith(q[1..], lit, name);
    } else {
      MatchesEndsWith(q, lit, name[1..]);
      EndsWithTail(lit, name);
    }
  }

  lemma {:induction false} EndsWithClass(q: string, lit: string, name: string)
    requires Literal(lit) && Matches(q + lit, name)
    requires q != [] && q[0] == '[' && ClassClose(q + lit, 1) < |q + lit|
    ensures |lit| <= |name| && name[|name| - |lit|..] == lit
    decreases |q| + |name|, 0
  {
    var p := q + lit;
    var j := ClassClose(p, 1);
    ClassBeforeLiteral(q, lit);
    assert MatchesClass(p, name);
    MatchesEndsWith(q[j + 1..], lit, name[1..]);
    EndsWithTail(lit, name);
  }

  /** A class that closes in `q + lit` closes inside `q`, since `lit` has
      no `]`. */
  lemma ClassBeforeLiteral(q: string, lit: string)
    requires q != [] && Literal(lit) && ClassClose(q + lit, 1) < |q + lit|
    ensures var j := ClassClose(q + lit, 1);
            j < |q| && (q + lit)[j + 1..] == q[j + 1..] + lit
  {
    var p := q + lit;
    var j := ClassClose(p, 1);
    assert forall k :: |q| <= k < |p| ==> p[k] == lit[k - |q|];
    assert p[j] == ']';
  }

  lemma EndsWithTail(lit: string, name: string)
    requires name != [] && |lit| <= |name[1..]| && name[1..][|name[1..]| - |lit|..] == lit
    ensures |lit| <= |name| && name[|name| - |lit|..] == lit
  {
    assert name[1..][|name[1..]| - |lit|..] == name[|name| - |lit|..];
  }

  /** A class closed inside `s` closes at the same place in any extension
      of `s`. */
  lemma ClassCloseExtends(s: string, t: string, i: nat)
    requires i <= |s| && ClassClose(s, i) < |s|
    ensures ClassClose(s + t, i) == ClassClose(s, i)
  {
    var j1 := if i < |s| && s[i] == '!' then i + 1 else i;
    var j2 := if j1 < |s| && s[j1] == ']' then j1 + 1 else j1;
    ScanCloseExtends(s, t, j2);
  }

  lemma {:induction false} ScanCloseExtends(s: string, t: string, j: nat)
    requires j <= |s| && ScanClose(s, j) < |s|
    ensures ScanClose(s + t, j) == ScanClose(s, j)
    decreases |s| - j
  {
    assert (s + t)[j] == s[j];
    if s[j] != ']' {
      ScanCloseExtends(s, t, j + 1);
    }
  }

  /** A pattern that opens with a class rejects every name whose first
      character the class does not accept. */
  lemma ClassRejects(s: string, t: string, name: string)
    requires s != [] && s[0] == '[' && ClassClose(s, 1) < |s|
    requires name != [] && !InClass(s[1..ClassClose(s, 1)], name[0])
    ensures !Matches(s + t, name)
  {
    ClassCloseExtends(s, t, 1);
    var j := ClassClose(s, 1);
    assert (s + t)[0] == '[' && (s + t)[1..j] == s[1..j];
  }

  /** The class `[__1]` accepts `_` and `1`, and not `[`. */
  lemma SmallClass()
    ensures InClass("__1", '_') && InClass("__1", '1') && !InClass("__1", '[')
  {
    assert Hyphen("__1", 1) == 3;
    assert Chunks("__1") == ["__1"];
    assert Tokens(["__1"]) == [Lit('_'), Lit('_'), Lit('1')];
  }
}
