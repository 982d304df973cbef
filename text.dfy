/** The Python `str` operations the pipeline relies on, over `seq<char>`:
    `isspace`, `strip`, `split()`, `join`, `replace`, ASCII `title`, and the
    code-point order that both Python's `sorted()` and SQLite's default
    (BINARY) collation use to compare text. */
module Text {

  /** Python's `str.isspace()`, which is what `strip()` and `split()` remove. */
  predicate IsSpace(c: char)
  {
    || c == ' '
    || '\t' <= c <= '\r'
    || '\U{1C}' <= c <= '\U{1F}'
    || c == '\U{85}' || c == '\U{A0}' || c == '\U{1680}'
    || '\U{2000}' <= c <= '\U{200A}'
    || c == '\U{2028}' || c == '\U{2029}' || c == '\U{202F}' || c == '\U{205F}' || c == '\U{3000}'
  }

  predicate AllSpace(s: string)
  {
    forall i :: 0 <= i < |s| ==> IsSpace(s[i])
  }

  predicate NoSpace(s: string)
  {
    forall i :: 0 <= i < |s| ==> !IsSpace(s[i])
  }

  /** Neither end of `s` is whitespace: what `strip()` returns. */
  predicate IsStripped(s: string)
  {
    s == [] || (!IsSpace(s[0]) && !IsSpace(s[|s| - 1]))
  }

  /** `s.lstrip()` */
  function StripLeft(s: string): (r: string)
    ensures |r| <= |s| && r == s[|s| - |r|..]
    ensures AllSpace(s[..|s| - |r|])
    ensures r == [] || !IsSpace(r[0])
  {
    if s != [] && IsSpace(s[0]) then
      var r := StripLeft(s[1..]);
      var n := |s| - |r|;
      assert AllSpace(s[..n]) by {
        forall i | 0 <= i < n
          ensures IsSpace(s[..n][i])
        {
          if i > 0 {
            assert s[..n][i] == s[1..][..n - 1][i - 1];
          }
        }
      }
      r
    else
      s
  }

  /** `s.rstrip()` */
  function StripRight(s: string): (r: string)
    ensures |r| <= |s| && r == s[..|r|]
    ensures AllSpace(s[|r|..])
    ensures r == [] || !IsSpace(r[|r| - 1])
  {
    if s != [] && IsSpace(s[|s| - 1]) then
      var r := StripRight(s[..|s| - 1]);
      assert AllSpace(s[|r|..]) by {
        forall i | 0 <= i < |s| - |r|
          ensures IsSpace(s[|r|..][i])
        {
          if i < |s| - 1 - |r| {
            assert s[|r|..][i] == s[..|s| - 1][|r|..][i];
          }
        }
      }
      r
    else
      s
  }

  /** `s.strip()` */
  function Strip(s: string): (r: string)
    ensures IsStripped(r) && |r| <= |s|
  {
    var t := StripLeft(s);
    var r := StripRight(t);
    assert r != [] ==> r[0] == t[0];
    r
  }

  /** `s.strip()` is empty exactly when `s` is all whitespace (or empty). */
  lemma StripEmptyIff(s: string)
    ensures Strip(s) == [] <==> AllSpace(s)
  {
    if AllSpace(s) {
      AllSpaceStripLeft(s);
    } else {
      var k :| 0 <= k < |s| && !IsSpace(s[k]);
      StripKeeps(s, k);
    }
  }

  /** A non-whitespace character survives `strip()`. */
  lemma StripKeeps(s: string, k: nat)
    requires k < |s| && !IsSpace(s[k])
    ensures Strip(s) != []
  {
    var t := StripLeft(s);
    StripLeftKeeps(s, k);
    var j := k + |t| - |s|;
    assert 0 <= j < |t| && !IsSpace(t[j]);
    StripRightKeeps(t, j);
    assert Strip(s) == StripRight(t);
  }

  /** `lstrip()` keeps every character from the first non-whitespace one on. */
  lemma StripLeftKeeps(s: string, k: nat)
    requires k < |s| && !IsSpace(s[k])
    ensures |s| - |StripLeft(s)| <= k && !IsSpace(StripLeft(s)[k + |StripLeft(s)| - |s|])
  {
    var t := StripLeft(s);
    var p := |s| - |t|;
    forall i | 0 <= i < p
      ensures IsSpace(s[i])
    {
      assert s[..p][i] == s[i];
    }
    assert t[k - p] == s[p..][k - p];
  }

  /** `rstrip()` keeps every character up to the last non-whitespace one. */
  lemma StripRightKeeps(t: string, j: nat)
    requires j < |t| && !IsSpace(t[j])
    ensures j < |StripRight(t)|
  {
    var r := StripRight(t);
    forall i | |r| <= i < |t|
      ensures IsSpace(t[i])
    {
      assert t[|r|..][i - |r|] == t[i];
    }
  }

  lemma {:induction false} AllSpaceStripLeft(s: string)
    requires AllSpace(s)
    ensures StripLeft(s) == []
  {
    if s != [] {
      AllSpaceStripLeft(s[1..]);
    }
  }

  /** `strip()` leaves an already stripped string alone. */
  lemma StripStripped(s: string)
    requires IsStripped(s)
    ensures Strip(s) == s
  {
  }

  /** Length of the run of non-whitespace characters that starts `t`. */
  function WordLength(t: string): (n: nat)
    ensures n <= |t| && NoSpace(t[..n])
    ensures n == |t| || IsSpace(t[n])
    ensures t != [] && !IsSpace(t[0]) ==> n > 0
  {
    if t == [] || IsSpace(t[0]) then 0
    else
      var n := 1 + WordLength(t[1..]);
      assert t[..n] == [t[0]] + t[1..][..n - 1];
      n
  }

  /** Python's `s.split()` with no argument: the maximal runs of
      non-whitespace characters, in order. */
  function Words(s: string): (ws: seq<string>)
    ensures forall w :: w in ws ==> w != [] && NoSpace(w)
    decreases |s|
  {
    var t := StripLeft(s);
    if t == [] then []
    else
      var n := WordLength(t);
      var rest := Words(t[n..]);
      assert forall w :: w in [t[..n]] + rest ==> w == t[..n] || w in rest;
      [t[..n]] + rest
  }

  /** `sep.join(parts)` */
  function Join(sep: string, parts: seq<string>): string
  {
    if parts == [] then ""
    else if |parts| == 1 then parts[0]
    else parts[0] + sep + Join(sep, parts[1..])
  }

  /** Splitting words joined by one space gives the words back. */
  lemma {:induction false} WordsOfJoined(ws: seq<string>)
    requires forall w :: w in ws ==> w != [] && NoSpace(w)
    ensures Words(Join(" ", ws)) == ws
  {
    if ws == [] {
    } else if |ws| == 1 {
      assert ws[0] in ws;
      WordsCons(ws[0], "");
      assert ws[0] + "" == ws[0];
    } else {
      var w, rest := ws[0], ws[1..];
      assert ws == [w] + rest;
      assert w in ws;
      assert forall v :: v in rest ==> v in ws;
      WordsOfJoinedStep(w, rest);
      WordsOfJoined(rest);
    }
  }

  lemma WordsOfJoinedStep(w: string, rest: seq<string>)
    requires w != [] && NoSpace(w) && rest != []
    ensures Words(Join(" ", [w] + rest)) == [w] + Words(Join(" ", rest))
  {
    var tail := Join(" ", rest);
    assert ([w] + rest)[1..] == rest;
    assert Join(" ", [w] + rest) == w + (" " + tail);
    WordsCons(w, " " + tail);
    WordsAfterSpace(tail);
  }

  lemma WordsAfterSpace(x: string)
    ensures Words(" " + x) == Words(x)
  {
    assert (" " + x)[1..] == x;
    assert StripLeft(" " + x) == StripLeft(x);
  }

  /** A leading word followed by whitespace (or nothing) is split off. */
  lemma WordsCons(w: string, tail: string)
    requires w != [] && NoSpace(w)
    requires tail == [] || IsSpace(tail[0])
    ensures Words(w + tail) == [w] + Words(tail)
  {
    var s := w + tail;
    assert s[0] == w[0];
    assert StripLeft(s) == s;
    WordLengthOfWord(w, tail);
    assert s[..|w|] == w;
    assert s[|w|..] == tail;
  }

  lemma {:induction false} WordLengthOfWord(w: string, tail: string)
    requires NoSpace(w)
    requires tail == [] || IsSpace(tail[0])
    ensures WordLength(w + tail) == |w|
  {
    if w != [] {
      assert (w + tail)[1..] == w[1..] + tail;
      WordLengthOfWord(w[1..], tail);
    } else {
      assert w + tail == tail;
    }
  }

  /** Joining space-free, non-empty words with a single space leaves no
      whitespace at either end and no whitespace other than those spaces. */
  lemma {:induction false} JoinedWordsShape(ws: seq<string>)
    requires forall w :: w in ws ==> w != [] && NoSpace(w)
    ensures var s := Join(" ", ws);
      && IsStripped(s)
      && (forall i :: 0 <= i < |s| && IsSpace(s[i]) ==> s[i] == ' ')
      && (forall i :: 0 <= i < |s| - 1 && s[i] == ' ' ==> s[i + 1] != ' ')
  {
    if |ws| == 1 {
      assert ws[0] in ws;
    } else if |ws| > 1 {
      var w := ws[0];
      assert w in ws;
      assert forall v :: v in ws[1..] ==> v in ws;
      var rest := Join(" ", ws[1..]);
      JoinedWordsShape(ws[1..]);
      JoinNonEmpty(ws[1..]);
      var s := w + " " + rest;
      assert s == Join(" ", ws);
      assert s[|s| - 1] == rest[|rest| - 1];
      forall i | 0 <= i < |s| && IsSpace(s[i])
        ensures s[i] == ' '
      {
        if i > |w| {
          assert s[i] == rest[i - |w| - 1];
        }
      }
      forall i | 0 <= i < |s| - 1 && s[i] == ' '
        ensures s[i + 1] != ' '
      {
        if i > |w| {
          assert s[i] == rest[i - |w| - 1];
          assert s[i + 1] == rest[i + 1 - |w| - 1];
        }
      }
    }
  }

  lemma JoinNonEmpty(ws: seq<string>)
    requires ws != [] && forall w :: w in ws ==> w != []
    ensures ws[0] != [] && Join(" ", ws) != [] && Join(" ", ws)[0] == ws[0][0]
  {
    assert ws[0] in ws;
  }

  /** Code-point order on text: Python's `<=` on `str` and SQLite's BINARY
      collation on UTF-8 text agree with it. */
  predicate LexLe(a: string, b: string)
  {
    a == [] || (b != [] && (a[0] < b[0] || (a[0] == b[0] && LexLe(a[1..], b[1..]))))
  }

  predicate LexLt(a: string, b: string)
  {
    LexLe(a, b) && a != b
  }

  lemma {:induction false} LexLeTotal(a: string, b: string)
    ensures LexLe(a, b) || LexLe(b, a)
  {
    if a != [] && b != [] && a[0] == b[0] {
      LexLeTotal(a[1..], b[1..]);
    }
  }

  lemma {:induction false} LexLeTrans(a: string, b: string, c: string)
    requires LexLe(a, b) && LexLe(b, c)
    ensures LexLe(a, c)
  {
    if a != [] && b != [] && c != [] && a[0] == b[0] == c[0] {
      LexLeTrans(a[1..], b[1..], c[1..]);
    }
  }

  lemma {:induction false} LexLeAntisym(a: string, b: string)
    requires LexLe(a, b) && LexLe(b, a)
    ensures a == b
  {
    if a != [] && b != [] {
      LexLeAntisym(a[1..], b[1..]);
      assert a == [a[0]] + a[1..];
      assert b == [b[0]] + b[1..];
    }
  }

  lemma LexLeRefl(a: string)
    ensures LexLe(a, a)
  {
  }

  /** Does `pat` occur in `s` starting at `i`? */
  predicate OccursAt(s: string, pat: string, i: nat)
  {
    i + |pat| <= |s| && s[i..i + |pat|] == pat
  }

  /** Python's `s.replace(pat, rep)`: every occurrence of `pat`, found left to
      right without overlap, is replaced by `rep`. */
  function Replace(s: string, pat: string, rep: string): string
    requires pat != []
    decreases |s|
  {
    if |s| < |pat| then s
    else if s[..|pat|] == pat then rep + Replace(s[|pat|..], pat, rep)
    else [s[0]] + Replace(s[1..], pat, rep)
  }

  lemma Assoc<T>(a: seq<T>, b: seq<T>, c: seq<T>)
    ensures a + (b + c) == a + b + c
  {
  }

  /** Text without any occurrence of the pattern is left as it is. */
  lemma {:induction false} ReplaceAbsent(s: string, pat: string, rep: string)
    requires pat != [] && forall i :: 0 <= i <= |s| ==> !OccursAt(s, pat, i)
    ensures Replace(s, pat, rep) == s
    decreases |s|
  {
    if |s| >= |pat| {
      assert !OccursAt(s, pat, 0);
      forall i | 0 <= i <= |s| - 1
        ensures !OccursAt(s[1..], pat, i)
      {
        assert !OccursAt(s, pat, i + 1);
        if i + |pat| <= |s| - 1 {
          assert s[1..][i..i + |pat|] == s[i + 1..i + 1 + |pat|];
        }
      }
      ReplaceAbsent(s[1..], pat, rep);
      assert [s[0]] + s[1..] == s;
    }
  }

  /** Text in which the pattern's first character never appears holds no
      match. */
  lemma NoFirstChar(s: string, pat: string)
    requires pat != [] && pat[0] !in s
    ensures forall i :: 0 <= i <= |s| ==> !OccursAt(s, pat, i)
  {
    forall i | 0 <= i <= |s|
      ensures !OccursAt(s, pat, i)
    {
      if i + |pat| <= |s| {
        assert s[i..i + |pat|][0] == s[i];
      }
    }
  }

  lemma ReplaceSkip(s: string, pat: string, rep: string)
    requires pat != [] && |s| >= |pat| && s[0] != pat[0]
    ensures Replace(s, pat, rep) == [s[0]] + Replace(s[1..], pat, rep)
  {
    assert s[..|pat|][0] == s[0];
  }

  lemma ReplaceHit(s: string, pat: string, rep: string)
    requires pat != [] && |s| >= |pat| && s[..|pat|] == pat
    ensures Replace(s, pat, rep) == rep + Replace(s[|pat|..], pat, rep)
  {
  }

  /** Up to the first match, the text is copied unchanged: `x` is any text
      inside which no occurrence of the pattern starts. */
  lemma {:induction false} ReplaceUpToMatch(x: string, pat: string, rep: string, rest: string)
    requires pat != [] && forall j :: 0 <= j < |x| ==> !OccursAt(x + pat + rest, pat, j)
    ensures Replace(x + pat + rest, pat, rep) == x + rep + Replace(rest, pat, rep)
    decreases |x|
  {
    if x == [] {
      ReplaceAtStart(pat, rep, rest);
    } else {
      var y, tail := x[1..], Replace(rest, pat, rep);
      var s := x + pat + rest;
      ConsSplit(x, pat, rest);
      forall j | 0 <= j < |y|
        ensures !OccursAt(y + pat + rest, pat, j)
      {
        assert !OccursAt(s, pat, j + 1);
        assert s[1..] == y + pat + rest;
        assert s[1..][j..j + |pat|] == s[j + 1..j + 1 + |pat|];
      }
      ReplaceUpToMatch(y, pat, rep, rest);
      assert !OccursAt(s, pat, 0);
      ReplaceMiss(s, pat, rep);
      assert s[1..] == y + pat + rest;
      ConsSplit(x, rep, tail);
    }
  }

  lemma ReplaceMiss(s: string, pat: string, rep: string)
    requires pat != [] && |s| >= |pat| && !OccursAt(s, pat, 0)
    ensures Replace(s, pat, rep) == [s[0]] + Replace(s[1..], pat, rep)
  {
  }

  lemma ReplaceAtStart(pat: string, rep: string, rest: string)
    requires pat != []
    ensures Replace([] + pat + rest, pat, rep) == [] + rep + Replace(rest, pat, rep)
  {
    var s := pat + rest;
    assert [] + pat + rest == s && [] + rep + Replace(rest, pat, rep) == rep + Replace(rest, pat, rep);
    assert s[..|pat|] == pat && s[|pat|..] == rest;
    ReplaceHit(s, pat, rep);
  }

  lemma ConsSplit<T>(x: seq<T>, a: seq<T>, b: seq<T>)
    requires x != []
    ensures x + a + b == [x[0]] + (x[1..] + a + b)
  {
    assert x == [x[0]] + x[1..];
  }

  /** A first character that cannot start a match is copied. */
  lemma ReplaceCons(ch: char, y: string, pat: string, rep: string)
    requires pat != [] && ch != pat[0]
    ensures Replace([ch] + y, pat, rep) == [ch] + Replace(y, pat, rep)
  {
    var s := [ch] + y;
    assert s[1..] == y;
    if |s| >= |pat| {
      ReplaceSkip(s, pat, rep);
    }
  }

  lemma ReplaceShort(s: string, pat: string, rep: string)
    requires pat != [] && |s| < |pat|
    ensures Replace(s, pat, rep) == s
  {
  }

  /** A text that is exactly the pattern becomes the replacement. */
  lemma ReplaceWhole(pat: string, rep: string)
    requires pat != []
    ensures Replace(pat, pat, rep) == rep
  {
    ReplaceShort([], pat, rep);
    ReplaceUpToMatch([], pat, rep, []);
    assert [] + pat + [] == pat;
  }

  predicate IsUpper(c: char) { 'A' <= c <= 'Z' }

  predicate IsLower(c: char) { 'a' <= c <= 'z' }

  predicate IsLetter(c: char) { IsUpper(c) || IsLower(c) }

  function ToUpper(c: char): char { if IsLower(c) then (c as int - 32) as char else c }

  function ToLower(c: char): char { if IsUpper(c) then (c as int + 32) as char else c }

  /** Python's `str.title()` restricted to ASCII letters: a letter that
      follows a letter is lowered, any other letter is raised. */
  function Title(s: string): string
  {
    TitleAfter(s, false)
  }

  function TitleAfter(s: string, prevCased: bool): (r: string)
    ensures |r| == |s|
  {
    if s == [] then []
    else
      var c := s[0];
      var c' := if !IsLetter(c) then c else if prevCased then ToLower(c) else ToUpper(c);
      [c'] + TitleAfter(s[1..], IsLetter(c))
  }

  /** What `Title` does at each position: non-letters are kept; a letter is
      upper case exactly when it starts the text or follows a non-letter. */
  lemma {:induction false} TitleAt(s: string, prevCased: bool, i: nat)
    requires i < |s|
    ensures var r := TitleAfter(s, prevCased);
      var startsWord := if i == 0 then !prevCased else !IsLetter(s[i - 1]);
      && (!IsLetter(s[i]) ==> r[i] == s[i])
      && (IsLetter(s[i]) ==> IsLetter(r[i]) && (IsUpper(r[i]) <==> startsWord))
      && (IsLetter(s[i]) ==> ToLower(r[i]) == ToLower(s[i]))
  {
    if i > 0 {
      TitleAt(s[1..], IsLetter(s[0]), i - 1);
    }
  }

  /** Text that `TitleAfter` leaves as it is: every letter is upper case
      exactly when it starts a word. */
  predicate TitleCased(s: string, prevCased: bool)
  {
    s == [] || ((IsLetter(s[0]) ==> (IsUpper(s[0]) <==> !prevCased)) && TitleCased(s[1..], IsLetter(s[0])))
  }

  lemma {:induction false} TitleFixed(s: string, prevCased: bool)
    requires TitleCased(s, prevCased)
    ensures TitleAfter(s, prevCased) == s
  {
    if s != [] {
      TitleFixed(s[1..], IsLetter(s[0]));
    }
  }

  lemma {:induction false} TitleIsCased(s: string, prevCased: bool)
    ensures TitleCased(TitleAfter(s, prevCased), prevCased)
  {
    if s != [] {
      var r := TitleAfter(s, prevCased);
      TitleIsCased(s[1..], IsLetter(s[0]));
      assert r[1..] == TitleAfter(s[1..], IsLetter(s[0]));
    }
  }

  /** Title-casing twice is title-casing once. */
  lemma TitleIdempotent(s: string)
    ensures Title(Title(s)) == Title(s)
  {
    TitleIsCased(s, false);
    TitleFixed(Title(s), false);
  }
}
