/**
 * The last step of reading a page section aloud: `textContent.replace(/\s+/g, ' ').trim()`.
 * Every maximal run of whitespace becomes one space, then whitespace is removed at both ends.
 * The result is characterised independently as the words of the input joined by single spaces.
 */
module Whitespace {

  /** The characters that `\s` matches and that `trim` removes (they are the same set):
      tab, line feed, vertical tab, form feed, carriage return, space, no-break space,
      the other space separators, line and paragraph separators and the byte-order mark. */
  predicate IsWs(c: char) {
    c == '\t' || c == '\n' || c == '\U{000B}' || c == '\U{000C}' || c == '\r' || c == ' '
    || c == '\U{00A0}' || c == '\U{1680}' || ('\U{2000}' <= c <= '\U{200A}')
    || c == '\U{2028}' || c == '\U{2029}' || c == '\U{202F}' || c == '\U{205F}'
    || c == '\U{3000}' || c == '\U{FEFF}'
  }

  predicate AllWs(s: string) {
    forall i :: 0 <= i < |s| ==> IsWs(s[i])
  }

  predicate NoWs(s: string) {
    forall i :: 0 <= i < |s| ==> !IsWs(s[i])
  }

  /** No whitespace at the start or the end. */
  predicate Trimmed(s: string) {
    s == [] || (!IsWs(s[0]) && !IsWs(s[|s| - 1]))
  }

  /** No two adjacent whitespace characters. */
  predicate NoAdjacentWs(s: string) {
    forall i :: 0 <= i < |s| - 1 ==> !(IsWs(s[i]) && IsWs(s[i + 1]))
  }

  /** The only whitespace character present is the plain space. */
  predicate OnlySpaces(s: string) {
    forall i :: 0 <= i < |s| ==> IsWs(s[i]) ==> s[i] == ' '
  }

  /** What remains after dropping the leading whitespace run. */
  function SkipWs(s: string): (r: string)
    ensures |r| <= |s|
    ensures r == [] || !IsWs(r[0])
    ensures s != [] && IsWs(s[0]) ==> |r| < |s|
  {
    if s != [] && IsWs(s[0]) then SkipWs(s[1..]) else s
  }

  /** The longest prefix free of whitespace. */
  function TakeWord(s: string): (w: string)
    ensures |w| <= |s|
    ensures NoWs(w)
    ensures s != [] && !IsWs(s[0]) ==> w != []
  {
    if s != [] && !IsWs(s[0]) then [s[0]] + TakeWord(s[1..]) else []
  }

  /** `replace(/\s+/g, ' ')`: copy each non-whitespace run, replace each whitespace run by one space. */
  function Collapse(s: string): string
    decreases |s|
  {
    if s == [] then []
    else if IsWs(s[0]) then " " + Collapse(SkipWs(s))
    else
      var w := TakeWord(s);
      w + Collapse(s[|w|..])
  }

  /** Drop trailing whitespace. */
  function TrimEnd(s: string): string
  {
    if s != [] && IsWs(s[|s| - 1]) then TrimEnd(s[..|s| - 1]) else s
  }

  /** `String.prototype.trim`. */
  function Trim(s: string): string {
    TrimEnd(SkipWs(s))
  }

  /** The text handed to the speech engine. */
  function Normalize(s: string): string {
    Trim(Collapse(s))
  }

  // ----- The reference definition: words joined by single spaces -----

  /** The maximal whitespace-free runs of `s`, left to right. */
  function Words(s: string): seq<string>
    decreases |s|
  {
    var t := SkipWs(s);
    if t == [] then []
    else
      var w := TakeWord(t);
      [w] + Words(t[|w|..])
  }

  function Join(ws: seq<string>): string {
    if |ws| == 0 then []
    else if |ws| == 1 then ws[0]
    else ws[0] + " " + Join(ws[1..])
  }

  predicate IsWord(w: string) {
    w != [] && NoWs(w)
  }

  predicate AllWords(ws: seq<string>) {
    forall i :: 0 <= i < |ws| ==> IsWord(ws[i])
  }

  lemma {:induction false} WordsAreWords(s: string)
    ensures AllWords(Words(s))
    decreases |s|
  {
    var t := SkipWs(s);
    if t != [] {
      var w := TakeWord(t);
      WordsAreWords(t[|w|..]);
    }
  }

  /** `SkipWs` drops a whitespace prefix and keeps the rest as it is. */
  lemma {:induction false} SkipWsIsSuffix(s: string)
    ensures SkipWs(s) == s[|s| - |SkipWs(s)|..]
    ensures AllWs(s[..|s| - |SkipWs(s)|])
  {
    if s != [] && IsWs(s[0]) {
      SkipWsIsSuffix(s[1..]);
      var k := |s| - |SkipWs(s)|;
      assert s[1..][..k - 1] == s[1..k];
    }
  }

  /** `TakeWord` keeps a prefix and stops at whitespace. */
  lemma {:induction false} TakeWordIsPrefix(s: string)
    ensures TakeWord(s) == s[..|TakeWord(s)|]
    ensures |TakeWord(s)| < |s| ==> IsWs(s[|TakeWord(s)|])
  {
    if s != [] && !IsWs(s[0]) {
      TakeWordIsPrefix(s[1..]);
    }
  }

  lemma WordsEmptyIffAllWs(s: string)
    ensures Words(s) == [] <==> AllWs(s)
  {
    var t := SkipWs(s);
    SkipWsIsSuffix(s);
    assert Words(s) == [] <==> t == [];
    if t == [] {
      assert s[..|s| - |t|] == s;
    } else {
      assert s[|s| - |t|] == t[0];
    }
  }

  lemma SkipWsOfTrimmedStart(s: string)
    requires s == [] || !IsWs(s[0])
    ensures SkipWs(s) == s
  {
  }

  lemma {:induction false} JoinShape(ws: seq<string>)
    requires AllWords(ws)
    ensures ws != [] ==> Join(ws) != [] && !IsWs(Join(ws)[0]) && !IsWs(Join(ws)[|Join(ws)| - 1])
    ensures Join(ws) == [] <==> ws == []
    ensures NoAdjacentWs(Join(ws)) && OnlySpaces(Join(ws))
  {
    if |ws| >= 2 {
      JoinShape(ws[1..]);
      var j := Join(ws[1..]);
      var r := ws[0] + " " + j;
      assert r == Join(ws);
      forall i | 0 <= i < |r| - 1
        ensures !(IsWs(r[i]) && IsWs(r[i + 1]))
      {
        if i + 1 < |ws[0]| {
          assert r[i] == ws[0][i];
        } else if i + 1 == |ws[0]| {
          assert r[i] == ws[0][i];
        } else if i == |ws[0]| {
          assert r[i + 1] == j[0];
        } else {
          assert r[i] == j[i - |ws[0]| - 1] && r[i + 1] == j[i + 1 - |ws[0]| - 1];
        }
      }
      forall i | 0 <= i < |r|
        ensures IsWs(r[i]) ==> r[i] == ' '
      {
        if i < |ws[0]| {
          assert r[i] == ws[0][i];
        } else if i > |ws[0]| {
          assert r[i] == j[i - |ws[0]| - 1];
        }
      }
    } else if |ws| == 1 {
      assert Join(ws) == ws[0];
    }
  }

  function Lead(s: string): string {
    if s != [] && IsWs(s[0]) then " " else ""
  }

  function Trail(s: string): string {
    if !AllWs(s) && IsWs(s[|s| - 1]) then " " else ""
  }

  lemma WordsAfterSkip(s: string)
    ensures Words(s) == Words(SkipWs(s))
  {
    SkipWsOfTrimmedStart(SkipWs(s));
  }

  lemma WordsOfWordStart(s: string)
    requires s != [] && !IsWs(s[0])
    ensures Words(s) == [TakeWord(s)] + Words(s[|TakeWord(s)|..])
  {
    SkipWsOfTrimmedStart(s);
  }

  lemma JoinCons(w: string, ws: seq<string>)
    requires ws != []
    ensures Join([w] + ws) == w + " " + Join(ws)
  {
    assert ([w] + ws)[1..] == ws;
  }

  lemma TrailAfterSkip(s: string)
    ensures Trail(s) == Trail(SkipWs(s))
  {
    var d := SkipWs(s);
    WordsAfterSkip(s);
    SkipWsIsSuffix(s);
    if d != [] {
      assert s[|s| - 1] == d[|d| - 1];
    }
  }

  function Padded(s: string): string {
    Lead(s) + Join(Words(s)) + Trail(s)
  }

  lemma PaddedOfWsStart(s: string)
    requires s != [] && IsWs(s[0])
    ensures Padded(s) == " " + Padded(SkipWs(s))
  {
    var d := SkipWs(s);
    WordsAfterSkip(s);
    TrailAfterSkip(s);
    LeadOfTrimmedStart(d);
    PaddedJoin(" ", Join(Words(d)), Trail(d));
  }

  lemma LeadOfTrimmedStart(s: string)
    requires s == [] || !IsWs(s[0])
    ensures Padded(s) == Join(Words(s)) + Trail(s)
  {
    assert Lead(s) == "";
  }

  lemma PaddedJoin(l: string, j: string, t: string)
    ensures l + j + t == l + (j + t)
  {
  }

  lemma TrailOfWordThen(w: string, rest: string)
    requires IsWord(w)
    ensures Trail(w + rest) == (if rest == [] then "" else if AllWs(rest) then " " else Trail(rest))
  {
    var s := w + rest;
    assert s[0] == w[0];
    if rest != [] {
      assert s[|s| - 1] == rest[|rest| - 1];
      if AllWs(rest) {
        assert IsWs(rest[|rest| - 1]);
      } else {
        var i :| 0 <= i < |rest| && !IsWs(rest[i]);
        assert s[|w| + i] == rest[i];
      }
    } else {
      assert s[|s| - 1] == w[|w| - 1];
    }
  }

  lemma PaddedOfWordStart(s: string)
    requires s != [] && !IsWs(s[0])
    ensures Padded(s) == TakeWord(s) + Padded(s[|TakeWord(s)|..])
  {
    var w := TakeWord(s);
    TakeWordIsPrefix(s);
    assert s == w + s[|w|..];
    PaddedOfWordThen(w, s[|w|..]);
  }

  lemma PaddedOfWordThen(w: string, rest: string)
    requires IsWord(w)
    requires rest == [] || IsWs(rest[0])
    ensures Padded(w + rest) == w + Padded(rest)
  {
    WordsOfWordThen(w, rest);
    TrailOfWordThen(w, rest);
    assert Lead(w + rest) == "" by { assert (w + rest)[0] == w[0]; }
    var ws := Words(rest);
    WordsEmptyIffAllWs(rest);
    if rest == [] {
      assert Join([w] + ws) == w;
    } else if ws == [] {
      assert Lead(rest) == " " && Trail(rest) == "";
      assert Join([w] + ws) == w;
    } else {
      assert Lead(rest) == " ";
      PaddedOfWordThenWords(w, ws, Trail(rest));
    }
  }

  lemma PaddedOfWordThenWords(w: string, ws: seq<string>, t: string)
    requires ws != []
    ensures "" + Join([w] + ws) + t == w + (" " + Join(ws) + t)
  {
    JoinCons(w, ws);
  }

  lemma CollapseOfWsStart(s: string)
    requires s != [] && IsWs(s[0])
    ensures Collapse(s) == " " + Collapse(SkipWs(s))
  {
  }

  lemma CollapseOfWordStart(s: string)
    requires s != [] && !IsWs(s[0])
    ensures Collapse(s) == TakeWord(s) + Collapse(s[|TakeWord(s)|..])
  {
  }

  /** The scan that `replace` performs leaves a space for a leading run and for a trailing run. */
  lemma {:induction false} CollapseIsPaddedJoin(s: string)
    ensures Collapse(s) == Padded(s)
    decreases |s|
  {
    if s == [] {
    } else if IsWs(s[0]) {
      CollapseIsPaddedJoin(SkipWs(s));
      CollapseOfWsStart(s);
      PaddedOfWsStart(s);
    } else {
      CollapseIsPaddedJoin(s[|TakeWord(s)|..]);
      CollapseOfWordStart(s);
      PaddedOfWordStart(s);
    }
  }

  lemma {:induction false} TrimEndOfTrimmedEnd(s: string)
    requires s == [] || !IsWs(s[|s| - 1])
    ensures TrimEnd(s) == s
  {
  }

  lemma SkipWsAfterSpace(s: string)
    ensures SkipWs(" " + s) == SkipWs(s)
  {
    assert (" " + s)[1..] == s;
  }

  lemma TrimEndAfterSpace(s: string)
    requires s == [] || !IsWs(s[|s| - 1])
    ensures TrimEnd(s + " ") == s
  {
    assert (s + " ")[..|s|] == s;
  }

  /** Reference characterisation: the normalised text is the words of the input joined by single spaces. */
  lemma NormalizeIsJoinOfWords(s: string)
    ensures Normalize(s) == Join(Words(s))
  {
    CollapseIsPaddedJoin(s);
    WordsAreWords(s);
    JoinShape(Words(s));
    var j := Join(Words(s));
    var t := Trail(s);
    assert Collapse(s) == Lead(s) + j + t;
    if j == [] {
      assert Trail(s) == "";
      assert Collapse(s) == Lead(s);
      SkipWsAfterSpace("");
    } else {
      SkipWsAfterSpace(j + t);
      SkipWsOfTrimmedStart(j + t);
      assert Lead(s) + j + t == Lead(s) + (j + t);
      assert SkipWs(Collapse(s)) == j + t;
      if t == " " {
        TrimEndAfterSpace(j);
      } else {
        assert j + t == j;
        TrimEndOfTrimmedEnd(j);
      }
    }
  }

  lemma WordsOfWordThen(w: string, rest: string)
    requires IsWord(w)
    requires rest == [] || IsWs(rest[0])
    ensures Words(w + rest) == [w] + Words(rest)
  {
    TakeWordOfWord(w, rest);
    WordsOfWordStart(w + rest);
    assert (w + rest)[|w|..] == rest;
  }

  lemma WordsAfterSpace(s: string)
    ensures Words(" " + s) == Words(s)
  {
    WordsAfterSkip(" " + s);
    SkipWsAfterSpace(s);
    WordsAfterSkip(s);
  }

  /** Splitting a join of words gives the words back. */
  lemma {:induction false} WordsOfJoin(ws: seq<string>)
    requires AllWords(ws)
    ensures Words(Join(ws)) == ws
  {
    if |ws| == 1 {
      assert Join(ws) == ws[0] + [];
      WordsOfWordThen(ws[0], []);
    } else if |ws| >= 2 {
      var tail := ws[1..];
      assert AllWords(tail) by {
        forall i | 0 <= i < |tail|
          ensures IsWord(tail[i])
        {
          assert tail[i] == ws[i + 1];
        }
      }
      WordsOfJoin(tail);
      JoinSplit(ws);
      WordsOfWordSpace(ws[0], Join(tail));
    }
  }

  /** A join of two or more words: the first word, a space, and the join of the rest. */
  lemma JoinSplit(ws: seq<string>)
    requires |ws| >= 2
    ensures Join(ws) == ws[0] + (" " + Join(ws[1..]))
  {
    assert ws[0] + " " + Join(ws[1..]) == ws[0] + (" " + Join(ws[1..]));
  }

  /** The words of a word, a space and a text: the word, then the text's words. */
  lemma WordsOfWordSpace(w: string, j: string)
    requires IsWord(w)
    ensures Words(w + (" " + j)) == [w] + Words(j)
  {
    assert IsWs((" " + j)[0]);
    WordsOfWordThen(w, " " + j);
    WordsAfterSpace(j);
  }

  lemma {:induction false} TakeWordOfWord(w: string, rest: string)
    requires NoWs(w)
    requires rest == [] || IsWs(rest[0])
    ensures TakeWord(w + rest) == w
  {
    if w != [] {
      assert (w + rest)[1..] == w[1..] + rest;
      TakeWordOfWord(w[1..], rest);
    }
  }

  /** What the utterance receives: no whitespace at either end, no two whitespace characters side by side,
      only plain spaces inside, and nothing at all exactly when the section holds only whitespace. */
  lemma NormalizeShape(s: string)
    ensures Trimmed(Normalize(s))
    ensures NoAdjacentWs(Normalize(s)) && OnlySpaces(Normalize(s))
    ensures Normalize(s) == [] <==> AllWs(s)
  {
    NormalizeIsJoinOfWords(s);
    WordsAreWords(s);
    JoinShape(Words(s));
    WordsEmptyIffAllWs(s);
  }

  /** Normalising twice changes nothing more than normalising once. */
  lemma NormalizeIdempotent(s: string)
    ensures Normalize(Normalize(s)) == Normalize(s)
  {
    NormalizeIsJoinOfWords(s);
    WordsAreWords(s);
    WordsOfJoin(Words(s));
    NormalizeIsJoinOfWords(Normalize(s));
  }
}
