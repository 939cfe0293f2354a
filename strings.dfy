/** The JavaScript string operations the scoreboard's validators and helpers rely on:
    `trim`, `startsWith`, `split(" ")` and upper-casing one character. */
module Strings {

  /** The characters `String.prototype.trim` removes: ECMAScript's WhiteSpace (tab, vertical
      tab, form feed, space, no-break space, byte-order mark and the other space separators)
      and its LineTerminators (line feed, carriage return, line and paragraph separators). */
  predicate IsWhitespace(c: char)
  {
    || c == '\t' || c == '\U{000B}' || c == '\U{000C}' || c == ' ' || c == '\U{00A0}'
    || c == '\U{FEFF}' || c == '\U{1680}' || ('\U{2000}' <= c <= '\U{200A}')
    || c == '\U{202F}' || c == '\U{205F}' || c == '\U{3000}'
    || c == '\n' || c == '\r' || c == '\U{2028}' || c == '\U{2029}'
  }

  predicate AllWhitespace(s: string)
  {
    forall i :: 0 <= i < |s| ==> IsWhitespace(s[i])
  }

  function TrimStart(s: string): (r: string)
    ensures |r| <= |s| && r == s[|s| - |r|..]
    ensures r == [] || !IsWhitespace(r[0])
    ensures AllWhitespace(s[..|s| - |r|])
  {
    if s != [] && IsWhitespace(s[0]) then TrimStart(s[1..]) else s
  }

  function TrimEnd(s: string): (r: string)
    ensures |r| <= |s| && r == s[..|r|]
    ensures r == [] || !IsWhitespace(r[|r| - 1])
    ensures AllWhitespace(s[|r|..])
  {
    if s != [] && IsWhitespace(s[|s| - 1]) then TrimEnd(s[..|s| - 1]) else s
  }

  /** The text without the whitespace at either end. */
  function Trim(s: string): (r: string)
    ensures |r| <= |s|
    ensures r == [] || (!IsWhitespace(r[0]) && !IsWhitespace(r[|r| - 1]))
  {
    TrimEnd(TrimStart(s))
  }

  /** The trimmed text is the text with some whitespace cut off at each end and nothing else
      changed. */
  lemma TrimIsSlice(s: string)
    ensures exists i, j :: 0 <= i <= j <= |s| && Trim(s) == s[i..j] && AllWhitespace(s[..i]) && AllWhitespace(s[j..])
  {
    var t := TrimStart(s);
    var r := TrimEnd(t);
    var i := |s| - |t|;
    assert r == s[i..i + |r|] && s[i + |r|..] == t[|r|..];
  }

  /** `s.trim().length == 0` holds exactly of the strings made of whitespace only. */
  lemma TrimEmptyIffAllWhitespace(s: string)
    ensures Trim(s) == [] <==> AllWhitespace(s)
  {
    var t := TrimStart(s);
    assert s == s[..|s| - |t|] + t;
    if Trim(s) == [] {
      assert AllWhitespace(t[0..]);
    }
  }

  /** The text is empty once trimmed. */
  predicate Blank(s: string)
  {
    |Trim(s)| == 0
  }

  lemma {:induction false} TrimStartSkipsPadding(w: string, s: string)
    requires AllWhitespace(w)
    ensures TrimStart(w + s) == TrimStart(s)
  {
    if w != [] {
      assert (w + s)[1..] == w[1..] + s;
      TrimStartSkipsPadding(w[1..], s);
    } else {
      assert w + s == s;
    }
  }

  lemma {:induction false} TrimEndSkipsPadding(s: string, w: string)
    requires AllWhitespace(w)
    ensures TrimEnd(s + w) == TrimEnd(s)
    decreases |w|
  {
    if w != [] {
      assert (s + w)[..|s + w| - 1] == s + w[..|w| - 1];
      TrimEndSkipsPadding(s, w[..|w| - 1]);
    } else {
      assert s + w == s;
    }
  }

  /** Trimming a string that still holds something keeps the trailing padding in place. */
  lemma {:induction false} TrimStartOfPadded(s: string, w: string)
    requires !AllWhitespace(s)
    ensures TrimStart(s + w) == TrimStart(s) + w
  {
    if IsWhitespace(s[0]) {
      assert (s + w)[1..] == s[1..] + w;
      TrimStartOfPadded(s[1..], w);
    }
  }

  lemma TrimStartOfWhitespace(s: string)
    requires AllWhitespace(s)
    ensures TrimStart(s) == []
  {
  }

  /** Leading and trailing whitespace never changes what `trim` returns. */
  lemma {:induction false} TrimIgnoresPadding(w1: string, s: string, w2: string)
    requires AllWhitespace(w1) && AllWhitespace(w2)
    ensures Trim(w1 + s + w2) == Trim(s)
  {
    assert w1 + s + w2 == w1 + (s + w2);
    TrimStartSkipsPadding(w1, s + w2);
    if AllWhitespace(s) {
      assert AllWhitespace(s + w2);
      TrimStartOfWhitespace(s + w2);
      TrimStartOfWhitespace(s);
    } else {
      TrimStartOfPadded(s, w2);
      TrimEndSkipsPadding(TrimStart(s), w2);
    }
  }

  /** The text begins with `prefix`. */
  predicate StartsWith(s: string, prefix: string)
  {
    |prefix| <= |s| && s[..|prefix|] == prefix
  }

  /** `s.split(" ")`: the pieces between single spaces; an empty string gives one empty piece
      and consecutive spaces give empty pieces. */
  function Split(s: string): (r: seq<string>)
    ensures |r| >= 1
  {
    if s == [] then [[]]
    else
      var rest := Split(s[1..]);
      if s[0] == ' ' then [[]] + rest
      else [[s[0]] + rest[0]] + rest[1..]
  }

  /** The pieces put back together with one space between neighbours. */
  function Join(parts: seq<string>): (s: string)
    requires |parts| >= 1
    decreases |parts|
  {
    if |parts| == 1 then parts[0] else parts[0] + " " + Join(parts[1..])
  }

  /** Splitting at spaces loses nothing: joining the pieces with single spaces gives the text
      back, and no piece holds a space. */
  lemma {:induction false} SplitJoin(s: string)
    ensures Join(Split(s)) == s
    ensures forall k, i :: 0 <= k < |Split(s)| && 0 <= i < |Split(s)[k]| ==> Split(s)[k][i] != ' '
  {
    if s != [] {
      var rest := Split(s[1..]);
      SplitJoin(s[1..]);
      if s[0] == ' ' {
        assert Split(s)[1..] == rest;
        assert s == " " + s[1..];
      } else {
        var parts := Split(s);
        assert parts[1..] == rest[1..];
        if |rest| == 1 {
          assert Join(parts) == [s[0]] + Join(rest);
        } else {
          assert Join(rest) == rest[0] + " " + Join(rest[1..]);
          assert Join(parts) == [s[0]] + rest[0] + " " + Join(rest[1..]);
        }
        assert s == [s[0]] + s[1..];
        forall k, i | 0 <= k < |parts| && 0 <= i < |parts[k]| ensures parts[k][i] != ' ' {
          if k == 0 && i > 0 {
            assert parts[0][i] == rest[0][i - 1];
          } else if k > 0 {
            assert parts[k] == rest[k];
          }
        }
      }
    }
  }

  /** `c.toUpperCase()` for the Latin letters a to z; every other character is kept. */
  function ToUpper(c: char): (u: char)
    ensures 'a' <= c <= 'z' ==> 'A' <= u <= 'Z' && u as int - c as int == 'A' as int - 'a' as int
    ensures !('a' <= c <= 'z') ==> u == c
  {
    if 'a' <= c <= 'z' then (c as int - 'a' as int + 'A' as int) as char else c
  }
}
