/** The Python string operations the crawler and the search engine use:
    `startswith`, `endswith`, `in`, `replace`, `lower`, `strip`, `split()`,
    `" ".join(...)` and `str(int)`.  Case mapping is modelled on ASCII; the
    whitespace set is Python's `str.isspace` set. */
module Strings {

  predicate StartsWith(s: string, prefix: string) {
    |prefix| <= |s| && s[..|prefix|] == prefix
  }

  predicate EndsWith(s: string, suffix: string) {
    |suffix| <= |s| && s[|s| - |suffix|..] == suffix
  }

  /** Python's `p in s` on strings: `p` occurs somewhere in `s`. */
  predicate Contains(s: string, p: string)
    decreases |s|
  {
    StartsWith(s, p) || (|s| > 0 && Contains(s[1..], p))
  }

  // ---------------------------------------------------------------------
  // str.replace
  // ---------------------------------------------------------------------

  /** `s.replace(pat, rep)`: every non-overlapping occurrence of `pat`,
      scanning left to right, is replaced by `rep`. */
  function ReplaceAll(s: string, pat: string, rep: string): string
    requires |pat| > 0
    decreases |s|
  {
    if |s| < |pat| then s
    else if s[..|pat|] == pat then rep + ReplaceAll(s[|pat|..], pat, rep)
    else [s[0]] + ReplaceAll(s[1..], pat, rep)
  }

  /** Removing a pattern never lengthens a string and never introduces a
      character that was not already there. */
  lemma {:induction false} RemoveAllShrinks(s: string, pat: string)
    requires |pat| > 0
    ensures |ReplaceAll(s, pat, "")| <= |s|
    ensures forall c :: c in ReplaceAll(s, pat, "") ==> c in s
    decreases |s|
  {
    if |s| < |pat| {
    } else if s[..|pat|] == pat {
      RemoveAllShrinks(s[|pat|..], pat);
      assert ReplaceAll(s, pat, "") == ReplaceAll(s[|pat|..], pat, "");
      forall c | c in ReplaceAll(s, pat, "") ensures c in s {
        var k :| 0 <= k < |s[|pat|..]| && s[|pat|..][k] == c;
        assert s[|pat| + k] == c;
      }
    } else {
      RemoveAllShrinks(s[1..], pat);
      forall c | c in ReplaceAll(s, pat, "") ensures c in s {
        if c != s[0] {
          assert c in ReplaceAll(s[1..], pat, "");
          var k :| 0 <= k < |s[1..]| && s[1..][k] == c;
          assert s[1 + k] == c;
        }
      }
    }
  }

  /** Removing every occurrence of a one-character pattern leaves none. */
  lemma {:induction false} RemoveCharLeavesNone(s: string, c: char)
    ensures c !in ReplaceAll(s, [c], "")
    decreases |s|
  {
    if |s| < 1 {
    } else if s[..1] == [c] {
      RemoveCharLeavesNone(s[1..], c);
    } else {
      assert s[0] != c by { assert s[..1] == [s[0]]; }
      RemoveCharLeavesNone(s[1..], c);
    }
  }

  /** An occurrence at the front is replaced, and the scan goes on after it. */
  lemma ReplaceAtFront(pat: string, rest: string, rep: string)
    requires |pat| > 0
    ensures ReplaceAll(pat + rest, pat, rep) == rep + ReplaceAll(rest, pat, rep)
  {
    assert (pat + rest)[..|pat|] == pat;
    assert (pat + rest)[|pat|..] == rest;
  }

  /** A stretch that does not contain the first character of the pattern is
      copied unchanged. */
  lemma {:induction false} ReplaceSkipsFree(a: string, rest: string, pat: string, rep: string)
    requires |pat| > 0 && pat[0] !in a
    ensures ReplaceAll(a + rest, pat, rep) == a + ReplaceAll(rest, pat, rep)
    decreases |a|
  {
    if a == [] {
      assert a + rest == rest;
    } else {
      var s := a + rest;
      assert s[0] == a[0];
      assert s[1..] == a[1..] + rest;
      assert pat[0] !in a[1..];
      ReplaceSkipsFree(a[1..], rest, pat, rep);
      if |s| < |pat| {
        assert ReplaceAll(rest, pat, rep) == rest;
      } else {
        assert s[..|pat|][0] == a[0];
        assert s[..|pat|] != pat;
        assert ReplaceAll(s, pat, rep) == [a[0]] + (a[1..] + ReplaceAll(rest, pat, rep));
        assert a == [a[0]] + a[1..];
      }
    }
  }

  /** A prefix free of the pattern's first character adds no occurrence. */
  lemma {:induction false} ContainsSkipsFree(c: string, a: string, pat: string)
    requires |pat| > 0 && pat[0] !in c
    ensures Contains(c + a, pat) == Contains(a, pat)
    decreases |c|
  {
    if c != [] {
      var s := c + a;
      assert !StartsWith(s, pat) by {
        if |pat| <= |s| {
          assert s[..|pat|][0] == c[0];
        }
      }
      assert s[1..] == c[1..] + a;
      assert pat[0] !in c[1..];
      ContainsSkipsFree(c[1..], a, pat);
    } else {
      assert c + a == a;
    }
  }

  /** A stretch with no occurrence of the pattern, followed by a character the
      pattern has only at its start, is copied unchanged: no occurrence starts
      in it, not even one that runs on into what follows. */
  lemma {:induction false} ReplaceSkipsUnmatched(a: string, rest: string, pat: string, rep: string)
    requires |pat| > 0 && !Contains(a, pat)
    requires rest == [] || rest[0] !in pat[1..]
    ensures ReplaceAll(a + rest, pat, rep) == a + ReplaceAll(rest, pat, rep)
    decreases |a|
  {
    if a == [] {
      assert a + rest == rest;
    } else {
      var s := a + rest;
      assert s[1..] == a[1..] + rest;
      ReplaceSkipsUnmatched(a[1..], rest, pat, rep);
      if |s| < |pat| {
        assert ReplaceAll(rest, pat, rep) == rest;
      } else {
        NoMatchAtFront(a, rest, pat);
        assert ReplaceAll(s, pat, rep) == [a[0]] + (a[1..] + ReplaceAll(rest, pat, rep));
        assert a == [a[0]] + a[1..];
      }
    }
  }

  /** The step of `ReplaceSkipsUnmatched`: no occurrence starts at the front. */
  lemma NoMatchAtFront(a: string, rest: string, pat: string)
    requires |pat| > 0 && a != [] && !StartsWith(a, pat)
    requires rest == [] || rest[0] !in pat[1..]
    requires |pat| <= |a + rest|
    ensures (a + rest)[..|pat|] != pat
  {
    var s := a + rest;
    if |pat| <= |a| {
      assert s[..|pat|] == a[..|pat|];
    } else {
      assert s[|a|] == rest[0];
      assert pat[1..][|a| - 1] == pat[|a|];
      assert s[..|pat|][|a|] == s[|a|];
    }
  }

  /** A string that lacks some character of the pattern has no occurrence of
      it and is left unchanged. */
  lemma {:induction false} ReplaceAbsent(s: string, pat: string, rep: string, j: nat)
    requires j < |pat| && pat[j] !in s
    ensures ReplaceAll(s, pat, rep) == s
    decreases |s|
  {
    if |s| >= |pat| {
      assert s[..|pat|][j] == s[j];
      assert s[..|pat|] != pat;
      assert pat[j] !in s[1..];
      ReplaceAbsent(s[1..], pat, rep, j);
      assert s == [s[0]] + s[1..];
    }
  }

  // ---------------------------------------------------------------------
  // str.lower (ASCII)
  // ---------------------------------------------------------------------

  predicate IsUpper(c: char) {
    'A' <= c <= 'Z'
  }

  function LowerChar(c: char): (r: char)
    ensures !IsUpper(r)
    ensures !IsUpper(c) ==> r == c
  {
    if IsUpper(c) then (c as int + 32) as char else c
  }

  /** `s.lower()` on ASCII letters; every other character is kept. */
  function Lower(s: string): (r: string)
    ensures |r| == |s|
    ensures forall i :: 0 <= i < |s| ==> r[i] == LowerChar(s[i])
  {
    seq(|s|, i requires 0 <= i < |s| => LowerChar(s[i]))
  }

  // ---------------------------------------------------------------------
  // Whitespace, strip, split and join
  // ---------------------------------------------------------------------

  /** Python's `str.isspace` for one character. */
  predicate IsSpace(c: char) {
    var n := c as int;
    (9 <= n <= 13) || (28 <= n <= 32) || n == 0x85 || n == 0xA0 || n == 0x1680
    || (0x2000 <= n <= 0x200A) || n == 0x2028 || n == 0x2029 || n == 0x202F
    || n == 0x205F || n == 0x3000
  }

  /** A token of `str.split()`: non-empty and free of whitespace. */
  predicate IsToken(w: string) {
    |w| > 0 && forall i :: 0 <= i < |w| ==> !IsSpace(w[i])
  }

  /** Leading whitespace removed (`lstrip()`). */
  function DropSpaces(s: string): (r: string)
    ensures |r| <= |s| && r == s[|s| - |r|..]
    ensures r == [] || !IsSpace(r[0])
    ensures (s == [] || !IsSpace(s[0])) ==> r == s
  {
    if s != [] && IsSpace(s[0]) then DropSpaces(s[1..]) else s
  }

  /** Trailing whitespace removed (`rstrip()`). */
  function DropTrailingSpaces(s: string): (r: string)
    ensures |r| <= |s| && r == s[..|r|]
    ensures r == [] || !IsSpace(r[|r| - 1])
    ensures (s == [] || !IsSpace(s[|s| - 1])) ==> r == s
  {
    if s != [] && IsSpace(s[|s| - 1]) then DropTrailingSpaces(s[..|s| - 1]) else s
  }

  /** `s.strip()`. */
  function Strip(s: string): (r: string)
    ensures r == [] || (!IsSpace(r[0]) && !IsSpace(r[|r| - 1]))
  {
    DropTrailingSpaces(DropSpaces(s))
  }

  /** The longest prefix of `s` that holds no whitespace. */
  function LeadingWord(s: string): (w: string)
    ensures |w| <= |s| && w == s[..|w|]
    ensures forall i :: 0 <= i < |w| ==> !IsSpace(w[i])
    ensures |w| == |s| || IsSpace(s[|w|])
    ensures (s != [] && !IsSpace(s[0])) ==> |w| > 0
  {
    if s == [] || IsSpace(s[0]) then [] else [s[0]] + LeadingWord(s[1..])
  }

  /** `s.split()`: the maximal runs of non-whitespace, in order. */
  function Words(s: string): seq<string>
    decreases |s|
  {
    if s == [] then []
    else if IsSpace(s[0]) then Words(s[1..])
    else
      var w := LeadingWord(s);
      [w] + Words(s[|w|..])
  }

  /** `sep.join(ws)`. */
  function Join(ws: seq<string>, sep: string): string {
    if |ws| == 0 then ""
    else if |ws| == 1 then ws[0]
    else ws[0] + sep + Join(ws[1..], sep)
  }

  /** Every element of `s.split()` is a token. */
  lemma {:induction false} WordsAreTokens(s: string)
    ensures forall j :: 0 <= j < |Words(s)| ==> IsToken(Words(s)[j])
    decreases |s|
  {
    if s != [] {
      if IsSpace(s[0]) {
        WordsAreTokens(s[1..]);
      } else {
        WordsAreTokens(s[|LeadingWord(s)|..]);
      }
    }
  }

  /** A character property that holds all over `s` holds all over each
      element of `s.split()`. */
  lemma {:induction false} WordsKeep(s: string, P: char -> bool)
    requires forall i :: 0 <= i < |s| ==> P(s[i])
    ensures forall j, i :: 0 <= j < |Words(s)| && 0 <= i < |Words(s)[j]| ==> P(Words(s)[j][i])
    decreases |s|
  {
    if s != [] {
      if IsSpace(s[0]) {
        WordsKeep(s[1..], P);
      } else {
        var w := LeadingWord(s);
        WordsKeep(s[|w|..], P);
        var ws := Words(s);
        assert ws == [w] + Words(s[|w|..]);
        forall j, i | 0 <= j < |ws| && 0 <= i < |ws[j]| ensures P(ws[j][i]) {
          if j == 0 {
            assert ws[0][i] == s[i];
          } else {
            assert ws[j] == Words(s[|w|..])[j - 1];
          }
        }
      }
    }
  }

  /** A token followed by nothing or by whitespace is read back whole. */
  lemma {:induction false} LeadingWordOfToken(w: string, x: string)
    requires IsToken(w)
    requires x == [] || IsSpace(x[0])
    ensures LeadingWord(w + x) == w
    decreases |w|
  {
    assert (w + x)[0] == w[0];
    if |w| == 1 {
      assert (w + x)[1..] == x;
    } else {
      assert (w + x)[1..] == w[1..] + x;
      LeadingWordOfToken(w[1..], x);
      assert [w[0]] + w[1..] == w;
    }
  }

  /** Leading whitespace does not change the split. */
  lemma WordsSkipSpace(c: char, x: string)
    requires IsSpace(c)
    ensures Words([c] + x) == Words(x)
  {
    assert ([c] + x)[1..] == x;
  }

  lemma JoinStartsWith(ws: seq<string>, sep: string)
    requires |ws| > 0
    ensures StartsWith(Join(ws, sep), ws[0])
  {
    if |ws| > 1 {
      assert Join(ws, sep) == ws[0] + (sep + Join(ws[1..], sep));
    }
  }

  /** A token followed by whitespace or nothing is the first word. */
  lemma WordsOfTokenThen(w: string, x: string)
    requires IsToken(w)
    requires x == [] || IsSpace(x[0])
    ensures Words(w + x) == [w] + Words(x)
  {
    LeadingWordOfToken(w, x);
    var s := w + x;
    assert s[0] == w[0];
    assert s[|w|..] == x;
  }

  /** Splitting a space-separated join of tokens gives the tokens back. */
  lemma {:induction false} WordsOfJoin(ws: seq<string>)
    requires forall j :: 0 <= j < |ws| ==> IsToken(ws[j])
    ensures Words(Join(ws, " ")) == ws
  {
    if |ws| == 1 {
      WordsOfTokenThen(ws[0], []);
      assert ws[0] + [] == ws[0];
      assert Join(ws, " ") == ws[0];
    } else if |ws| > 1 {
      var w := ws[0];
      var j := Join(ws[1..], " ");
      WordsOfJoin(ws[1..]);
      assert Join(ws, " ") == w + (" " + j);
      WordsOfTokenThen(w, " " + j);
      WordsSkipSpace(' ', j);
      assert [' '] + j == " " + j;
      assert ws == [w] + ws[1..];
    }
  }

  /** Whitespace in `s` is only single `' '` characters strictly between two
      non-whitespace characters: no leading, trailing or repeated space. */
  predicate SingleSpaced(s: string) {
    forall i :: 0 <= i < |s| && IsSpace(s[i]) ==>
      s[i] == ' ' && 0 < i < |s| - 1 && !IsSpace(s[i + 1])
  }

  lemma {:induction false} JoinSingleSpaced(ws: seq<string>)
    requires forall j :: 0 <= j < |ws| ==> IsToken(ws[j])
    ensures SingleSpaced(Join(ws, " "))
  {
    if |ws| == 1 {
      assert Join(ws, " ") == ws[0];
    } else if |ws| > 1 {
      var w := ws[0];
      var j := Join(ws[1..], " ");
      JoinSingleSpaced(ws[1..]);
      JoinStartsWith(ws[1..], " ");
      var s := Join(ws, " ");
      assert s == w + " " + j;
      assert !IsSpace(j[0]) by { assert j[0] == ws[1][0]; }
      forall i | 0 <= i < |w| ensures !IsSpace(s[i]) {
        assert s[i] == w[i];
      }
      assert s[|w|] == ' ' && s[|w| + 1] == j[0];
      forall i | |w| < i < |s| ensures s[i] == j[i - |w| - 1] {}
    }
  }

  /** A character property that holds all over each joined string and all
      over the separator holds all over the join. */
  lemma {:induction false} JoinKeeps(ws: seq<string>, sep: string, P: char -> bool)
    requires forall j, i :: 0 <= j < |ws| && 0 <= i < |ws[j]| ==> P(ws[j][i])
    requires forall i :: 0 <= i < |sep| ==> P(sep[i])
    ensures forall i :: 0 <= i < |Join(ws, sep)| ==> P(Join(ws, sep)[i])
  {
    if |ws| > 1 {
      var rest := Join(ws[1..], sep);
      JoinKeeps(ws[1..], sep, P);
      var s := Join(ws, sep);
      assert s == ws[0] + sep + rest;
      forall i | 0 <= i < |s| ensures P(s[i]) {
        if i < |ws[0]| {
          assert s[i] == ws[0][i];
        } else if i < |ws[0]| + |sep| {
          assert s[i] == sep[i - |ws[0]|];
        } else {
          assert s[i] == rest[i - |ws[0]| - |sep|];
        }
      }
    }
  }

  // ---------------------------------------------------------------------
  // str(int)
  // ---------------------------------------------------------------------

  function DigitChar(d: nat): (c: char)
    requires d < 10
    ensures '0' <= c <= '9'
  {
    "0123456789"[d]
  }

  /** The decimal rendering of a natural number, without leading zeros. */
  function NatToString(n: nat): (r: string)
    ensures |r| > 0
    ensures n >= 10 ==> |r| >= 2
    ensures forall i :: 0 <= i < |r| ==> '0' <= r[i] <= '9'
  {
    if n < 10 then [DigitChar(n)] else NatToString(n / 10) + [DigitChar(n % 10)]
  }

  /** `str(i)` for a Python int. */
  function IntToString(i: int): (r: string)
    ensures |r| > 0
  {
    if i < 0 then "-" + NatToString(-i) else NatToString(i)
  }

  /** Different numbers have different decimal renderings. */
  lemma {:induction false} NatToStringInjective(a: nat, b: nat)
    requires NatToString(a) == NatToString(b)
    ensures a == b
  {
    var sa, sb := NatToString(a), NatToString(b);
    if a < 10 && b < 10 {
      assert "0123456789"[a] == sa[0] == "0123456789"[b];
    } else if a >= 10 && b >= 10 {
      assert sa[|sa| - 1] == DigitChar(a % 10) && sb[|sb| - 1] == DigitChar(b % 10);
      assert a % 10 == b % 10;
      assert sa[..|sa| - 1] == NatToString(a / 10);
      assert sb[..|sb| - 1] == NatToString(b / 10);
      NatToStringInjective(a / 10, b / 10);
    }
  }

  /** `str(i)` starts with a minus sign exactly for negative numbers. */
  lemma IntToStringSign(i: int)
    ensures IntToString(i)[0] == '-' <==> i < 0
  {
    if i >= 0 {
      assert '0' <= NatToString(i)[0] <= '9';
    }
  }

  lemma IntToStringInjective(a: int, b: int)
    requires IntToString(a) == IntToString(b)
    ensures a == b
  {
    IntToStringSign(a);
    IntToStringSign(b);
    if a < 0 {
      assert b < 0;
      var na, nb := NatToString(-a), NatToString(-b);
      assert IntToString(a) == "-" + na && IntToString(b) == "-" + nb;
      assert na == ("-" + na)[1..];
      assert nb == ("-" + nb)[1..];
      NatToStringInjective(-a, -b);
    } else {
      assert b >= 0;
      NatToStringInjective(a, b);
    }
  }
}
