/**
 * The two string splits of the query parser: `text.split(/AND/i)` into
 * clauses, and `chunk.split(/\s+/).filter(Boolean)` into tokens, together
 * with `String.prototype.trim`.
 */
module Lexer {

  /** The characters `\s` matches (and `trim` strips): ECMAScript WhiteSpace
      and LineTerminator. */
  predicate IsSpace(c: char) {
    var n := c as int;
    n == 0x09 || n == 0x0A || n == 0x0B || n == 0x0C || n == 0x0D || n == 0x20
    || n == 0xA0 || n == 0x1680 || (0x2000 <= n <= 0x200A) || n == 0x2028
    || n == 0x2029 || n == 0x202F || n == 0x205F || n == 0x3000 || n == 0xFEFF
  }

  predicate SpaceFree(s: string) {
    forall i :: 0 <= i < |s| ==> !IsSpace(s[i])
  }

  predicate AllSpace(s: string) {
    forall i :: 0 <= i < |s| ==> IsSpace(s[i])
  }

  // ---------------------------------------------------------------------
  // Tokens

  /** `s.split(/\s+/)`: the pieces between maximal runs of whitespace.  A
      leading or trailing run yields an empty first or last piece, and the
      empty string yields one empty piece. */
  function SplitOnWhitespace(s: string): (pieces: seq<string>)
    ensures |pieces| >= 1
    ensures forall i :: 0 <= i < |pieces| ==> SpaceFree(pieces[i])
    ensures pieces[0] == [] <==> s == [] || IsSpace(s[0])
    decreases |s|
  {
    if s == [] then [""]
    else if IsSpace(s[0]) then
      if |s| > 1 && IsSpace(s[1]) then SplitOnWhitespace(s[1..])
      else [""] + SplitOnWhitespace(s[1..])
    else
      var rest := SplitOnWhitespace(s[1..]);
      [[s[0]] + rest[0]] + rest[1..]
  }

  /** `.filter(Boolean)` on strings: drops the empty ones, keeps the order. */
  function NonEmpty(pieces: seq<string>): (r: seq<string>)
    ensures |r| <= |pieces|
    ensures forall i :: 0 <= i < |r| ==> r[i] != [] && r[i] in pieces
    ensures forall w :: w in pieces && w != [] ==> w in r
    ensures forall w :: multiset(r)[w] == if w == [] then 0 else multiset(pieces)[w]
  {
    if pieces == [] then []
    else
      assert pieces == [pieces[0]] + pieces[1..];
      if pieces[0] == [] then NonEmpty(pieces[1..])
      else [pieces[0]] + NonEmpty(pieces[1..])
  }

  /** `.filter(Boolean)` keeps the order: filtering a concatenation is
      concatenating the filtered parts. */
  lemma {:induction false} NonEmptyAppend(a: seq<string>, b: seq<string>)
    ensures NonEmpty(a + b) == NonEmpty(a) + NonEmpty(b)
    decreases |a|
  {
    if a != [] {
      assert (a + b)[0] == a[0] && (a + b)[1..] == a[1..] + b;
      NonEmptyAppend(a[1..], b);
    } else {
      assert a + b == b;
    }
  }

  /** `s.split(/\s+/).filter(Boolean)`: the whitespace-separated words of `s`. */
  function Tokens(s: string): (r: seq<string>)
    ensures forall i :: 0 <= i < |r| ==> r[i] != [] && SpaceFree(r[i])
  {
    NonEmpty(SplitOnWhitespace(s))
  }

  /** How `Tokens` unfolds on a first character: whitespace is skipped, */
  lemma TokensSkip(x: char, t: string)
    requires IsSpace(x)
    ensures Tokens([x] + t) == Tokens(t)
  {
    var s := [x] + t;
    assert s[1..] == t;
    if !(|s| > 1 && IsSpace(s[1])) {
      var rest := SplitOnWhitespace(t);
      assert NonEmpty([""] + rest) == NonEmpty(rest);
    }
  }

  /** a non-space character joins the word that follows it, */
  lemma TokensExtend(x: char, t: string)
    requires !IsSpace(x) && t != [] && !IsSpace(t[0])
    ensures Tokens(t) != [] && Tokens([x] + t) == [[x] + Tokens(t)[0]] + Tokens(t)[1..]
  {
    var s := [x] + t;
    assert s[1..] == t;
    var rest := SplitOnWhitespace(t);
    assert SplitOnWhitespace(s) == [[x] + rest[0]] + rest[1..];
    assert rest == [rest[0]] + rest[1..];
    assert NonEmpty(rest) == [rest[0]] + NonEmpty(rest[1..]);
  }

  /** and a non-space character before whitespace (or the end) is a word. */
  lemma TokensStart(x: char, t: string)
    requires !IsSpace(x) && (t == [] || IsSpace(t[0]))
    ensures Tokens([x] + t) == [[x]] + Tokens(t)
  {
    var s := [x] + t;
    assert s[1..] == t;
    var rest := SplitOnWhitespace(t);
    assert SplitOnWhitespace(s) == [[x] + rest[0]] + rest[1..];
    assert rest == [""] + rest[1..];
    assert NonEmpty(rest) == NonEmpty(rest[1..]);
    var pieces := [[x] + rest[0]] + rest[1..];
    assert pieces[0] == [x] && pieces[1..] == rest[1..];
    assert NonEmpty(pieces) == [[x]] + NonEmpty(rest[1..]);
  }

  /** A whitespace character separates: the words of `a + [c] + b` are the
      words of `a` followed by the words of `b`. */
  lemma {:induction false} TokensSeparate(a: string, c: char, b: string)
    requires IsSpace(c)
    ensures Tokens(a + [c] + b) == Tokens(a) + Tokens(b)
    decreases |a|
  {
    if a == [] {
      assert a + [c] + b == [c] + b;
      TokensSkip(c, b);
      assert Tokens(a) == NonEmpty([""]) == [];
    } else {
      TokensSeparate(a[1..], c, b);
      TokensSeparateStep(a, c, b);
    }
  }

  // The inductive step of TokensSeparate, for a non-empty `a`.
  lemma TokensSeparateStep(a: string, c: char, b: string)
    requires IsSpace(c) && a != []
    requires Tokens(a[1..] + [c] + b) == Tokens(a[1..]) + Tokens(b)
    ensures Tokens(a + [c] + b) == Tokens(a) + Tokens(b)
  {
    var x, a' := a[0], a[1..];
    assert a + [c] + b == [x] + (a' + [c] + b);
    assert a == [x] + a';
    if IsSpace(x) {
      SkipStep(x, a', c, b);
    } else if a' != [] && !IsSpace(a'[0]) {
      ExtendStep(x, a', c, b);
    } else {
      StartStep(x, a', c, b);
    }
  }

  lemma SkipStep(x: char, a': string, c: char, b: string)
    requires IsSpace(x)
    requires Tokens(a' + [c] + b) == Tokens(a') + Tokens(b)
    ensures Tokens([x] + (a' + [c] + b)) == Tokens([x] + a') + Tokens(b)
  {
    TokensSkip(x, a' + [c] + b);
    TokensSkip(x, a');
  }

  lemma StartStep(x: char, a': string, c: char, b: string)
    requires IsSpace(c) && !IsSpace(x) && (a' == [] || IsSpace(a'[0]))
    requires Tokens(a' + [c] + b) == Tokens(a') + Tokens(b)
    ensures Tokens([x] + (a' + [c] + b)) == Tokens([x] + a') + Tokens(b)
  {
    var t := a' + [c] + b;
    assert t[0] == (if a' == [] then c else a'[0]);
    TokensStart(x, t);
    TokensStart(x, a');
    ConsConcat([x], Tokens(a'), Tokens(b));
  }

  lemma ExtendStep(x: char, a': string, c: char, b: string)
    requires IsSpace(c) && !IsSpace(x) && a' != [] && !IsSpace(a'[0])
    requires Tokens(a' + [c] + b) == Tokens(a') + Tokens(b)
    ensures Tokens([x] + (a' + [c] + b)) == Tokens([x] + a') + Tokens(b)
  {
    var t := a' + [c] + b;
    assert t[0] == a'[0];
    TokensExtend(x, t);
    TokensExtend(x, a');
    var u, v := Tokens(a'), Tokens(b);
    ConsConcat([x] + u[0], u[1..], v);
    assert u + v == [u[0]] + u[1..] + v;
    ConsConcat(u[0], u[1..], v);
  }

  // Re-association of a sequence of words after its head.
  lemma ConsConcat(w: string, u: seq<string>, v: seq<string>)
    ensures ([w] + u + v)[0] == w && ([w] + u + v)[1..] == u + v
    ensures [w] + (u + v) == [w] + u + v
  {
  }

  /** A non-empty word without whitespace is a single token. */
  lemma {:induction false} TokensOfWord(w: string)
    requires w != [] && SpaceFree(w)
    ensures Tokens(w) == [w]
    decreases |w|
  {
    assert w == [w[0]] + w[1..];
    if |w| > 1 {
      TokensExtend(w[0], w[1..]);
      TokensOfWord(w[1..]);
    } else {
      TokensStart(w[0], w[1..]);
      assert Tokens(w[1..]) == NonEmpty([""]) == [];
    }
  }

  /** Text made only of whitespace (or nothing) has no tokens, and only such
      text has none. */
  lemma {:induction false} TokensOfBlank(s: string)
    ensures Tokens(s) == [] <==> AllSpace(s)
    decreases |s|
  {
    if s == [] {
      assert Tokens(s) == NonEmpty([""]) == [];
    } else {
      assert s == [s[0]] + s[1..];
      if IsSpace(s[0]) {
        TokensSkip(s[0], s[1..]);
      } else if s[1..] != [] && !IsSpace(s[1..][0]) {
        TokensExtend(s[0], s[1..]);
      } else {
        TokensStart(s[0], s[1..]);
      }
      TokensOfBlank(s[1..]);
      if AllSpace(s) {
        assert AllSpace(s[1..]);
      } else if AllSpace(s[1..]) {
        assert !IsSpace(s[0]);
      }
    }
  }

  /** The words joined by single spaces. */
  function JoinSpaced(words: seq<string>): string {
    if words == [] then ""
    else if |words| == 1 then words[0]
    else words[0] + " " + JoinSpaced(words[1..])
  }

  /** Splitting undoes joining: the tokens of words joined by spaces are
      those words. */
  lemma {:induction false} TokensOfJoin(words: seq<string>)
    requires forall i :: 0 <= i < |words| ==> words[i] != [] && SpaceFree(words[i])
    ensures Tokens(JoinSpaced(words)) == words
    decreases |words|
  {
    if words == [] {
      assert Tokens("") == NonEmpty([""]) == [];
    } else if |words| == 1 {
      TokensOfWord(words[0]);
    } else {
      TokensSeparate(words[0], ' ', JoinSpaced(words[1..]));
      assert JoinSpaced(words) == words[0] + [' '] + JoinSpaced(words[1..]);
      TokensOfWord(words[0]);
      TokensOfJoin(words[1..]);
      assert words == [words[0]] + words[1..];
    }
  }

  /** Surrounding whitespace does not change the tokens: padding words
      joined by spaces with blanks on either side still gives those words. */
  lemma {:induction false} TokensOfPadded(pre: string, words: seq<string>, post: string)
    requires AllSpace(pre) && AllSpace(post)
    requires forall i :: 0 <= i < |words| ==> words[i] != [] && SpaceFree(words[i])
    ensures Tokens(pre + JoinSpaced(words) + post) == words
    decreases |pre|
  {
    if pre != [] {
      assert pre + JoinSpaced(words) + post == [pre[0]] + (pre[1..] + JoinSpaced(words) + post);
      TokensSkip(pre[0], pre[1..] + JoinSpaced(words) + post);
      TokensOfPadded(pre[1..], words, post);
    } else if post != [] {
      assert pre + JoinSpaced(words) + post == JoinSpaced(words) + [post[0]] + post[1..];
      TokensSeparate(JoinSpaced(words), post[0], post[1..]);
      TokensOfJoin(words);
      TokensOfBlank(post[1..]);
    } else {
      assert pre + JoinSpaced(words) + post == JoinSpaced(words);
      TokensOfJoin(words);
    }
  }

  /** `String.prototype.trim`: strips leading and trailing whitespace. */
  function Trim(s: string): (r: string)
    decreases |s|
  {
    if s == [] then s
    else if IsSpace(s[0]) then Trim(s[1..])
    else if IsSpace(s[|s| - 1]) then Trim(s[..|s| - 1])
    else s
  }

  /** Trimming leaves a word without whitespace as it is, */
  lemma TrimOfWord(s: string)
    requires SpaceFree(s)
    ensures Trim(s) == s
  {
  }

  /** what is left neither starts nor ends with whitespace, */
  lemma {:induction false} TrimEnds(s: string)
    ensures Trim(s) != [] ==> !IsSpace(Trim(s)[0]) && !IsSpace(Trim(s)[|Trim(s)| - 1])
    decreases |s|
  {
    if s == [] {
    } else if IsSpace(s[0]) {
      TrimEnds(s[1..]);
    } else if IsSpace(s[|s| - 1]) {
      TrimEnds(s[..|s| - 1]);
    }
  }

  /** and it is a slice of the input with only whitespace cut off either side. */
  lemma {:induction false} TrimStrips(s: string) returns (i: nat, j: nat)
    ensures i <= j <= |s| && Trim(s) == s[i..j]
    ensures forall k :: 0 <= k < i ==> IsSpace(s[k])
    ensures forall k :: j <= k < |s| ==> IsSpace(s[k])
    decreases |s|
  {
    if s == [] {
      i, j := 0, 0;
    } else if IsSpace(s[0]) {
      var i', j' := TrimStrips(s[1..]);
      i, j := i' + 1, j' + 1;
      assert s[1..][i'..j'] == s[i..j];
    } else if IsSpace(s[|s| - 1]) {
      var s' := s[..|s| - 1];
      i, j := TrimStrips(s');
      assert s'[i..j] == s[i..j];
    } else {
      i, j := 0, |s|;
    }
  }

  // ---------------------------------------------------------------------
  // Clauses

  /** `/AND/i` matches `s` at position `i`. */
  predicate MatchAt(s: string, i: int) {
    0 <= i && i + 3 <= |s|
    && (s[i] == 'A' || s[i] == 'a') && (s[i + 1] == 'N' || s[i + 1] == 'n') && (s[i + 2] == 'D' || s[i + 2] == 'd')
  }

  /** A separator: `AND` in any letter case. */
  predicate IsAnd(w: string) {
    |w| == 3 && MatchAt(w, 0)
  }

  /** `s` contains no match of `/AND/i` anywhere. */
  predicate AndFree(s: string) {
    forall i :: 0 <= i <= |s| - 3 ==> !MatchAt(s, i)
  }

  /** `s.split(/AND/i)`: the pieces between the leftmost non-overlapping
      matches of `AND` in any letter case.  The match is on the substring,
      not on whole words. */
  function SplitAnd(s: string): (chunks: seq<string>)
    ensures |chunks| >= 1
    ensures chunks[0] <= s
    ensures forall i :: 0 <= i < |chunks| ==> AndFree(chunks[i])
    decreases |s|
  {
    if |s| < 3 then [s]
    else if MatchAt(s, 0) then [""] + SplitAnd(s[3..])
    else
      var rest := SplitAnd(s[1..]);
      var first := [s[0]] + rest[0];
      assert AndFree(first) by {
        forall i | 0 <= i <= |first| - 3 ensures !MatchAt(first, i) {
          if i > 0 {
            assert !MatchAt(rest[0], i - 1);
          }
        }
      }
      [first] + rest[1..]
  }

  /** The clauses joined back with the upper-case separator. */
  function JoinAnd(chunks: seq<string>): string
    requires |chunks| >= 1
  {
    if |chunks| == 1 then chunks[0] else chunks[0] + "AND" + JoinAnd(chunks[1..])
  }

  /** Text without a separator is one clause. */
  lemma {:induction false} SplitAndWhole(s: string)
    requires AndFree(s)
    ensures SplitAnd(s) == [s]
    decreases |s|
  {
    if |s| >= 3 {
      assert !MatchAt(s, 0);
      assert AndFree(s[1..]) by {
        forall i | 0 <= i <= |s[1..]| - 3 ensures !MatchAt(s[1..], i) {
          assert !MatchAt(s, i + 1);
        }
      }
      SplitAndWhole(s[1..]);
      assert [s[0]] + s[1..] == s;
    }
  }

  /** The first separator after a separator-free prefix cuts there, whatever
      the letter case of the separator. */
  lemma {:induction false} SplitAndAt(x: string, sep: string, y: string)
    requires AndFree(x) && IsAnd(sep)
    ensures SplitAnd(x + sep + y) == [x] + SplitAnd(y)
    decreases |x|
  {
    var s := x + sep + y;
    if x == [] {
      assert MatchAt(s, 0) && s[3..] == y;
    } else {
      assert !MatchAt(s, 0) by {
        if |x| >= 3 {
          assert !MatchAt(x, 0);
        } else if |x| == 2 {
          assert s[2] == sep[0];
        } else {
          assert s[1] == sep[0];
        }
      }
      assert AndFree(x[1..]) by {
        forall i | 0 <= i <= |x[1..]| - 3 ensures !MatchAt(x[1..], i) {
          assert !MatchAt(x, i + 1);
        }
      }
      assert s[1..] == x[1..] + sep + y;
      SplitAndAt(x[1..], sep, y);
      assert [x[0]] + x[1..] == x;
    }
  }

  /** Splitting undoes joining: separator-free clauses joined with `AND`
      split back into the same clauses. */
  lemma {:induction false} SplitAndOfJoin(chunks: seq<string>)
    requires |chunks| >= 1
    requires forall i :: 0 <= i < |chunks| ==> AndFree(chunks[i])
    ensures SplitAnd(JoinAnd(chunks)) == chunks
    decreases |chunks|
  {
    if |chunks| == 1 {
      SplitAndWhole(chunks[0]);
    } else {
      SplitAndAt(chunks[0], "AND", JoinAnd(chunks[1..]));
      SplitAndOfJoin(chunks[1..]);
      assert chunks == [chunks[0]] + chunks[1..];
    }
  }

  /** A separator cannot straddle whitespace, so two separator-free texts
      that meet at a whitespace character (or where one of them is empty) join
      into a separator-free text. */
  lemma AndFreeJoin(a: string, b: string)
    requires AndFree(a) && AndFree(b)
    requires a == [] || b == [] || IsSpace(a[|a| - 1]) || IsSpace(b[0])
    ensures AndFree(a + b)
  {
    var s := a + b;
    forall i | 0 <= i <= |s| - 3 ensures !MatchAt(s, i) {
      if i + 3 <= |a| {
        assert !MatchAt(a, i);
      } else if i >= |a| {
        assert !MatchAt(b, i - |a|);
      } else if IsSpace(a[|a| - 1]) {
        assert s[|a| - 1] == a[|a| - 1];
      } else {
        assert s[|a|] == b[0];
      }
    }
  }

  /** Whitespace never takes part in a separator, so a whitespace-only text
      is a single clause. */
  lemma BlankIsAndFree(s: string)
    requires AllSpace(s)
    ensures AndFree(s)
  {
    forall i | 0 <= i <= |s| - 3 ensures !MatchAt(s, i) {
      assert IsSpace(s[i]);
    }
  }
}
