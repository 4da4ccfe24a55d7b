/** String helpers shared by the browser client and the Python server:
    whitespace trimming in both languages' senses, the two split
    operations the code uses, and ASCII case mapping. */
module Text {

  /** Which runtime's notion of "whitespace" applies. JavaScript's
      `String.prototype.trim` and Python's `str.strip()` / `str.split()`
      disagree on a handful of code points. */
  datatype Flavor = JavaScript | Python

  /** The whitespace set of each runtime. Both accept TAB..CR, SPACE,
      NO-BREAK SPACE and the Unicode space separators; only Python accepts
      the information separators U+001C..U+001F and NEXT LINE; only
      JavaScript accepts the byte-order mark. */
  predicate IsSpace(f: Flavor, c: char)
  {
    || ('\t' <= c <= '\r')
    || c == ' '
    || c == '\U{A0}'
    || c == '\U{1680}'
    || ('\U{2000}' <= c <= '\U{200A}')
    || c == '\U{2028}'
    || c == '\U{2029}'
    || c == '\U{202F}'
    || c == '\U{205F}'
    || c == '\U{3000}'
    || (f == Python && (('\U{1C}' <= c <= '\U{1F}') || c == '\U{85}'))
    || (f == JavaScript && c == '\U{FEFF}')
  }

  predicate AllSpace(f: Flavor, s: string)
  {
    forall k :: 0 <= k < |s| ==> IsSpace(f, s[k])
  }

  predicate NoSpace(f: Flavor, s: string)
  {
    forall k :: 0 <= k < |s| ==> !IsSpace(f, s[k])
  }

  /** `s` neither starts nor ends with whitespace. */
  predicate Trimmed(f: Flavor, s: string)
  {
    s == [] || (!IsSpace(f, s[0]) && !IsSpace(f, s[|s| - 1]))
  }

  /** Dropping the first character of a string without whitespace leaves
      one without whitespace. */
  lemma NoSpaceTail(f: Flavor, w: string)
    requires w != [] && NoSpace(f, w)
    ensures NoSpace(f, w[1..])
  {
    assert forall k :: 0 <= k < |w| - 1 ==> w[1..][k] == w[k + 1];
  }

  /** Leading whitespace removed: the result is a suffix of `s`, and what
      was dropped is all whitespace. */
  function TrimStart(f: Flavor, s: string): (r: string)
    ensures |r| <= |s| && r == s[|s| - |r|..]
    ensures r == [] || !IsSpace(f, r[0])
    ensures AllSpace(f, s[..|s| - |r|])
  {
    if s != [] && IsSpace(f, s[0]) then
      var r := TrimStart(f, s[1..]);
      var d := |s| - |r|;
      assert s[1..][d - 1..] == s[d..];
      AllSpaceCons(f, s, d);
      r
    else
      s
  }

  /** A whitespace character followed by a whitespace run is a longer run. */
  lemma AllSpaceCons(f: Flavor, s: string, d: nat)
    requires 0 < d <= |s| && IsSpace(f, s[0]) && AllSpace(f, s[1..][..d - 1])
    ensures AllSpace(f, s[..d])
  {
    forall k | 0 < k < d ensures IsSpace(f, s[k]) {
      assert s[k] == s[1..][..d - 1][k - 1];
    }
  }

  /** Trailing whitespace removed: the result is a prefix of `s`, and what
      was dropped is all whitespace. */
  function TrimEnd(f: Flavor, s: string): (r: string)
    ensures |r| <= |s| && r == s[..|r|]
    ensures r == [] || !IsSpace(f, r[|r| - 1])
    ensures AllSpace(f, s[|r|..])
  {
    if s != [] && IsSpace(f, s[|s| - 1]) then
      var n := |s| - 1;
      var r := TrimEnd(f, s[..n]);
      assert s[..n][..|r|] == s[..|r|];
      assert AllSpace(f, s[|r|..]) by {
        forall k | |r| <= k < |s| ensures IsSpace(f, s[k]) {
          if k < n { assert s[k] == s[..n][|r|..][k - |r|]; }
        }
      }
      r
    else
      assert s[|s|..] == [];
      s
  }

  /** `String.prototype.trim` (f == JavaScript) or `str.strip()` with no
      argument (f == Python). */
  function Trim(f: Flavor, s: string): (r: string)
    ensures |r| <= |s|
    ensures Trimmed(f, r)
    ensures r == [] <==> AllSpace(f, s)
  {
    var t := TrimStart(f, s);
    var r := TrimEnd(f, t);
    var d := |s| - |t|;
    if r == [] then
      assert t[0..] == t;
      assert t == [];
      assert s[..d] == s;
      r
    else
      assert r[0] == t[0] == s[d];
      r
  }

  /** Padding on either side is exactly what trimming removes. */
  lemma {:induction false} TrimPadded(f: Flavor, pre: string, x: string, post: string)
    requires AllSpace(f, pre) && AllSpace(f, post) && Trimmed(f, x)
    ensures Trim(f, pre + x + post) == x
  {
    var s := pre + x + post;
    if x == [] {
      assert s == pre + post;
      assert AllSpace(f, s) by {
        forall k | 0 <= k < |s| ensures IsSpace(f, s[k]) {
          if k < |pre| { assert s[k] == pre[k]; } else { assert s[k] == post[k - |pre|]; }
        }
      }
    } else {
      assert pre + (x + post) == s;
      assert (x + post)[0] == x[0];
      TrimStartPadded(f, pre, x + post);
      TrimEndPadded(f, x, post);
      assert Trim(f, s) == TrimEnd(f, TrimStart(f, s));
    }
  }

  lemma {:induction false} TrimStartPadded(f: Flavor, pre: string, rest: string)
    requires AllSpace(f, pre)
    requires rest == [] || !IsSpace(f, rest[0])
    ensures TrimStart(f, pre + rest) == rest
  {
    if pre != [] {
      var s := pre + rest;
      assert s[0] == pre[0];
      assert s[1..] == pre[1..] + rest;
      assert AllSpace(f, pre[1..]) by {
        forall k | 0 <= k < |pre| - 1 ensures IsSpace(f, pre[1..][k]) {
          assert pre[1..][k] == pre[k + 1];
        }
      }
      TrimStartPadded(f, pre[1..], rest);
    } else {
      assert pre + rest == rest;
    }
  }

  lemma {:induction false} TrimEndPadded(f: Flavor, x: string, post: string)
    requires AllSpace(f, post) && Trimmed(f, x)
    ensures TrimEnd(f, x + post) == x
  {
    if post != [] {
      var s := x + post;
      assert s[..|s| - 1] == x + post[..|post| - 1];
      TrimEndPadded(f, x, post[..|post| - 1]);
    } else {
      assert x + post == x;
      if x != [] { assert !IsSpace(f, x[|x| - 1]); }
    }
  }

  /** Trimming a string with whitespace at either end shortens it. */
  lemma TrimShrinks(f: Flavor, s: string)
    requires !Trimmed(f, s)
    ensures |Trim(f, s)| < |s|
  {
    if IsSpace(f, s[0]) {
      assert TrimStart(f, s) == TrimStart(f, s[1..]);
    } else {
      assert TrimStart(f, s) == s;
      assert TrimEnd(f, s) == TrimEnd(f, s[..|s| - 1]);
    }
  }

  /** A string without whitespace at either end is left as it is. */
  lemma TrimTrimmed(f: Flavor, x: string)
    requires Trimmed(f, x)
    ensures Trim(f, x) == x
  {
    assert TrimStart(f, x) == x;
    assert TrimEnd(f, x) == x;
  }

  /** Trimming is idempotent. */
  lemma TrimIdempotent(f: Flavor, s: string)
    ensures Trim(f, Trim(f, s)) == Trim(f, s)
  {
    TrimTrimmed(f, Trim(f, s));
  }

  /** ASCII lower-casing; every other code point maps to itself. */
  function Lower(c: char): char
  {
    if 'A' <= c <= 'Z' then (c as int + 32) as char else c
  }

  /** ASCII upper-casing, the part of `toUpperCase` this model keeps. */
  function Upper(c: char): (u: char)
    ensures !('a' <= u <= 'z')
  {
    if 'a' <= c <= 'z' then (c as int - 32) as char else c
  }

  /** `p` occurs in `s` at offset `i`, comparing letters without case. */
  predicate MatchesAt(s: string, p: string, i: int)
  {
    0 <= i && i + |p| <= |s| &&
    forall k :: 0 <= k < |p| ==> Lower(s[i + k]) == Lower(p[k])
  }

  /** `/p/i.test(s)` for a pattern `p` of literal ASCII characters. */
  function ContainsIgnoringCase(s: string, p: string): (b: bool)
    ensures b <==> exists i :: MatchesAt(s, p, i)
    decreases |s|
  {
    if |p| > |s| then
      assert forall i :: !MatchesAt(s, p, i);
      false
    else if MatchesAt(s, p, 0) then true
    else
      var b := ContainsIgnoringCase(s[1..], p);
      assert b ==> exists i :: MatchesAt(s, p, i) by {
        if b {
          var i :| MatchesAt(s[1..], p, i);
          assert MatchesAt(s, p, i + 1) by {
            forall k | 0 <= k < |p| ensures Lower(s[i + 1 + k]) == Lower(p[k]) {
              assert s[1..][i + k] == s[i + 1 + k];
            }
          }
        }
      }
      assert (exists i :: MatchesAt(s, p, i)) ==> b by {
        if exists i :: MatchesAt(s, p, i) {
          var i :| MatchesAt(s, p, i);
          assert i != 0;
          assert MatchesAt(s[1..], p, i - 1) by {
            forall k | 0 <= k < |p| ensures Lower(s[1..][i - 1 + k]) == Lower(p[k]) {
              assert s[1..][i - 1 + k] == s[i + k];
            }
          }
        }
      }
      b
  }

  /** Index of the first occurrence of `c`. */
  function IndexOf(s: string, c: char): (i: nat)
    requires c in s
    ensures i < |s| && s[i] == c && c !in s[..i]
  {
    if s[0] == c then 0 else 1 + IndexOf(s[1..], c)
  }

  /** The first occurrence of `c` is right after a prefix without it. */
  lemma {:induction false} IndexOfAfter(p: string, c: char, rest: string)
    requires c !in p
    ensures c in p + [c] + rest && IndexOf(p + [c] + rest, c) == |p|
  {
    var s := p + [c] + rest;
    assert s[|p|] == c;
    if p != [] {
      assert s[1..] == p[1..] + [c] + rest;
      IndexOfAfter(p[1..], c, rest);
    }
  }

  /** The pieces of `s` between single spaces: JavaScript's `s.split(" ")`.
      Joining them back with single spaces gives `s`. */
  function SplitOnSpace(s: string): (pieces: seq<string>)
    ensures |pieces| >= 1
    ensures forall i :: 0 <= i < |pieces| ==> ' ' !in pieces[i]
    ensures JoinWithSpace(pieces) == s
    decreases |s|
  {
    if ' ' !in s then [s]
    else
      var i := IndexOf(s, ' ');
      var rest := SplitOnSpace(s[i + 1..]);
      assert s == s[..i] + " " + s[i + 1..];
      [s[..i]] + rest
  }

  /** JavaScript's `pieces.join(" ")`. */
  function JoinWithSpace(pieces: seq<string>): string
    requires |pieces| >= 1
  {
    if |pieces| == 1 then pieces[0] else pieces[0] + " " + JoinWithSpace(pieces[1..])
  }

  /** Splitting undoes joining, for pieces without a space. */
  lemma {:induction false} SplitJoin(pieces: seq<string>)
    requires |pieces| >= 1
    requires forall i :: 0 <= i < |pieces| ==> ' ' !in pieces[i]
    ensures SplitOnSpace(JoinWithSpace(pieces)) == pieces
  {
    var p := pieces[0];
    if |pieces| == 1 {
    } else {
      var rest := JoinWithSpace(pieces[1..]);
      var s := p + " " + rest;
      IndexOfAfter(p, ' ', rest);
      var i := IndexOf(s, ' ');
      assert s[..i] == p;
      assert s[i + 1..] == rest;
      SplitJoin(pieces[1..]);
    }
  }

  /** Index of the first whitespace character, or |s| if there is none. */
  function FirstSpace(f: Flavor, s: string): (i: nat)
    ensures i <= |s| && NoSpace(f, s[..i])
    ensures i < |s| ==> IsSpace(f, s[i])
  {
    if s == [] || IsSpace(f, s[0]) then 0
    else
      var j := FirstSpace(f, s[1..]);
      assert s[..j + 1] == [s[0]] + s[1..][..j];
      1 + j
  }

  /** The first whitespace comes right after a prefix without any. */
  lemma {:induction false} FirstSpaceAfter(f: Flavor, w: string, t: string)
    requires NoSpace(f, w)
    requires t == [] || IsSpace(f, t[0])
    ensures FirstSpace(f, w + t) == |w|
  {
    if w == [] {
      assert w + t == t;
    } else {
      assert (w + t)[1..] == w[1..] + t;
      FirstSpaceAfter(f, w[1..], t);
    }
  }

  /** `split(maxsplit=1)` of a string that starts with a non-space: the
      word up to the first whitespace and, if anything but whitespace
      follows, the rest after the whitespace run. */
  function SplitWord(t: string): (parts: seq<string>)
    requires t != [] && !IsSpace(Python, t[0])
    ensures 1 <= |parts| <= 2
    ensures forall i :: 0 <= i < |parts| ==> parts[i] != []
    ensures NoSpace(Python, parts[0])
    ensures |parts| == 2 ==> !IsSpace(Python, parts[1][0])
  {
    var i := FirstSpace(Python, t);
    assert i != 0;
    var rest := TrimStart(Python, t[i..]);
    if rest == [] then [t[..i]] else [t[..i], rest]
  }

  /** Dropping leading whitespace keeps a last character that is not
      whitespace. */
  lemma {:induction false} TrimStartKeepsLast(f: Flavor, s: string)
    requires s != [] && !IsSpace(f, s[|s| - 1])
    ensures var r := TrimStart(f, s); r != [] && r[|r| - 1] == s[|s| - 1]
  {
    if IsSpace(f, s[0]) {
      assert |s| > 1;
      assert s[1..][|s| - 2] == s[|s| - 1];
      TrimStartKeepsLast(f, s[1..]);
    }
  }

  /** For a stripped string, splitting off the first word leaves a single
      part exactly when there is no whitespace, and a second part is
      itself stripped. */
  lemma SplitWordOfTrimmed(m: string)
    requires m != [] && Trimmed(Python, m)
    ensures |SplitWord(m)| < 2 <==> NoSpace(Python, m)
    ensures |SplitWord(m)| == 2 ==> Trimmed(Python, SplitWord(m)[1])
  {
    var i := FirstSpace(Python, m);
    var tail := m[i..];
    if i < |m| {
      assert IsSpace(Python, m[i]);
      assert tail[|tail| - 1] == m[|m| - 1];
      TrimStartKeepsLast(Python, tail);
    } else {
      assert m[..i] == m;
    }
  }

  /** Python's `s.split(maxsplit=1)`: nothing for a blank string, else the
      first whitespace-delimited word and, if anything but whitespace
      follows it, the rest of the string after the whitespace run
      (trailing whitespace kept). */
  function SplitOnce(s: string): (parts: seq<string>)
    ensures |parts| <= 2
    ensures parts == [] <==> AllSpace(Python, s)
    ensures forall i :: 0 <= i < |parts| ==> parts[i] != []
    ensures |parts| >= 1 ==> NoSpace(Python, parts[0])
    ensures |parts| == 2 ==> !IsSpace(Python, parts[1][0])
  {
    var t := TrimStart(Python, s);
    var d := |s| - |t|;
    if t == [] then
      assert s[..d] == s;
      []
    else
      assert s[d] == t[0];
      SplitWord(t)
  }

  /** A word followed by a whitespace gap and a remainder that starts with
      a non-space splits into exactly that word and remainder. */
  lemma SplitOnceWord(word: string, gap: string, rest: string)
    requires word != [] && NoSpace(Python, word)
    requires gap != [] && AllSpace(Python, gap)
    requires rest != [] && !IsSpace(Python, rest[0])
    ensures SplitOnce(word + gap + rest) == [word, rest]
  {
    var s := word + gap + rest;
    assert [] + s == s;
    TrimStartPadded(Python, [], s);
    assert s == word + (gap + rest);
    FirstSpaceAfter(Python, word, gap + rest);
    var i := FirstSpace(Python, s);
    assert s[..i] == word;
    assert s[i..] == gap + rest;
    TrimStartPadded(Python, gap, rest);
  }

  /** A string without whitespace is a single word. */
  lemma SplitOnceSingleWord(s: string)
    requires s != [] && NoSpace(Python, s)
    ensures SplitOnce(s) == [s]
  {
    assert [] + s == s;
    TrimStartPadded(Python, [], s);
    assert s + [] == s;
    FirstSpaceAfter(Python, s, []);
    var i := FirstSpace(Python, s);
    assert s[..i] == s;
  }
}
