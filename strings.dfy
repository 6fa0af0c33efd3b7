/** Text primitives shared by the readers and the splitter: literal prefixes and
    splitting a string on a set of separator characters. */
module Strings {

  /** Literal prefix test on the unmodified text: no trimming, no case folding. */
  predicate StartsWith(s: string, prefix: string)
    ensures StartsWith(s, prefix) <==>
      |prefix| <= |s| && forall i :: 0 <= i < |prefix| ==> s[i] == prefix[i]
  {
    |prefix| <= |s| && s[..|prefix|] == prefix
  }

  /** A one-character prefix test looks at the first character only. */
  lemma StartsWithChar(s: string, c: char)
    ensures StartsWith(s, [c]) <==> |s| > 0 && s[0] == c
  {
  }

  /** `a` is `b` with some elements left out, the rest kept in order. */
  predicate IsSubsequence<T(==)>(a: seq<T>, b: seq<T>)
    decreases |b|
  {
    if b == [] then a == []
    else (a != [] && a[0] == b[0] && IsSubsequence(a[1..], b[1..])) || IsSubsequence(a, b[1..])
  }

  /** The separator characters of `s`, in order. */
  function Separators(s: string, seps: set<char>): (r: string) {
    if s == [] then "" else (if s[0] in seps then [s[0]] else "") + Separators(s[1..], seps)
  }

  /** `s` with every separator character removed. */
  function Without(s: string, seps: set<char>): (r: string) {
    if s == [] then "" else (if s[0] in seps then "" else [s[0]]) + Without(s[1..], seps)
  }

  /** String splitting on a character pattern: the pieces between consecutive
      separator occurrences, left to right, empty pieces included. The empty
      string splits into one empty piece. */
  function SplitOn(s: string, seps: set<char>): (r: seq<string>)
    ensures |r| >= 1
    ensures s == [] ==> r == [""]
  {
    if s == [] then [""] else SplitStep(s[0], SplitOn(s[1..], seps), seps)
  }

  /** The pieces of `[c] + t` from the pieces of `t`: a separator opens a new
      empty piece, any other character joins the first piece. */
  function SplitStep(c: char, rest: seq<string>, seps: set<char>): (r: seq<string>)
    requires |rest| >= 1
    ensures |r| >= 1
  {
    if c in seps then [""] + rest else [[c] + rest[0]] + rest[1..]
  }

  /** The pieces glued back together, with `cs[i]` between `pieces[i]` and `pieces[i + 1]`. */
  function Interleave(pieces: seq<string>, cs: string): (r: string)
    requires |pieces| == |cs| + 1
  {
    if cs == [] then pieces[0] else pieces[0] + [cs[0]] + Interleave(pieces[1..], cs[1..])
  }

  /** The pieces glued back together with nothing between them. */
  function Concat(pieces: seq<string>): (r: string) {
    if pieces == [] then "" else pieces[0] + Concat(pieces[1..])
  }

  /** There is one piece more than there are separator occurrences. */
  lemma {:induction false} SplitOnCount(s: string, seps: set<char>)
    ensures |SplitOn(s, seps)| == |Separators(s, seps)| + 1
  {
    if s != [] {
      SplitOnCount(s[1..], seps);
    }
  }

  /** Every character of every piece comes from `s` and is not a separator. */
  lemma {:induction false} SplitOnPieces(s: string, seps: set<char>)
    ensures forall i, k :: 0 <= i < |SplitOn(s, seps)| && 0 <= k < |SplitOn(s, seps)[i]| ==>
      SplitOn(s, seps)[i][k] !in seps && SplitOn(s, seps)[i][k] in s
  {
    if s != [] {
      SplitOnPieces(s[1..], seps);
      var rest := SplitOn(s[1..], seps);
      var r := SplitOn(s, seps);
      forall i, k | 0 <= i < |r| && 0 <= k < |r[i]|
        ensures r[i][k] !in seps && r[i][k] in s
      {
        if s[0] in seps {
          assert r[i] == rest[i - 1];
          assert rest[i - 1][k] in s[1..];
        } else if i == 0 && k == 0 {
          assert r[0][0] == s[0];
        } else if i == 0 {
          assert r[0][k] == rest[0][k - 1];
          assert rest[0][k - 1] in s[1..];
        } else {
          assert r[i] == rest[i];
          assert rest[i][k] in s[1..];
        }
      }
    }
  }

  /** Splitting loses nothing: putting the separators back between the pieces
      gives back the original string. */
  lemma {:induction false} SplitInterleave(s: string, seps: set<char>)
    ensures |SplitOn(s, seps)| == |Separators(s, seps)| + 1
    ensures Interleave(SplitOn(s, seps), Separators(s, seps)) == s
  {
    SplitOnCount(s, seps);
    if s != [] {
      SplitInterleave(s[1..], seps);
      var rest := SplitOn(s[1..], seps);
      var cs := Separators(s[1..], seps);
      var r := SplitOn(s, seps);
      if s[0] in seps {
        assert r[1..] == rest;
        assert Separators(s, seps) == [s[0]] + cs;
        assert ([s[0]] + cs)[1..] == cs;
      } else {
        assert Separators(s, seps) == cs;
        assert r[0] == [s[0]] + rest[0];
        if cs != [] {
          assert r[1..] == rest[1..];
          assert Interleave(rest, cs) == rest[0] + [cs[0]] + Interleave(rest[1..], cs[1..]);
        }
      }
    }
  }

  /** Conversely, separator-free pieces glued with separators split back into
      exactly those pieces. */
  lemma {:induction false} InterleaveSplit(pieces: seq<string>, cs: string, seps: set<char>)
    requires |pieces| == |cs| + 1
    requires forall i :: 0 <= i < |cs| ==> cs[i] in seps
    requires forall i, k :: 0 <= i < |pieces| && 0 <= k < |pieces[i]| ==> pieces[i][k] !in seps
    ensures SplitOn(Interleave(pieces, cs), seps) == pieces
  {
    if cs == [] {
      SplitOnNone(pieces[0], seps);
    } else {
      InterleaveSplit(pieces[1..], cs[1..], seps);
      SplitOnPrefix(pieces[0], cs[0], Interleave(pieces[1..], cs[1..]), seps);
      assert [pieces[0]] + pieces[1..] == pieces;
    }
  }

  /** Concatenating the pieces gives the string with its separators removed. */
  lemma {:induction false} SplitConcat(s: string, seps: set<char>)
    ensures Concat(SplitOn(s, seps)) == Without(s, seps)
  {
    if s != [] {
      SplitConcat(s[1..], seps);
      var rest := SplitOn(s[1..], seps);
      var r := SplitOn(s, seps);
      if s[0] in seps {
        assert r[1..] == rest;
      } else {
        assert r[1..] == rest[1..];
        assert Concat(rest) == rest[0] + Concat(rest[1..]);
      }
    }
  }

  /** A separator-free prefix followed by a separator is split off as one piece. */
  lemma {:induction false} SplitOnPrefix(p: string, d: char, t: string, seps: set<char>)
    requires d in seps
    requires forall k :: 0 <= k < |p| ==> p[k] !in seps
    ensures SplitOn(p + [d] + t, seps) == [p] + SplitOn(t, seps)
  {
    if p == [] {
      assert ([d] + t)[1..] == t;
    } else {
      SplitOnPrefix(p[1..], d, t, seps);
      assert (p + [d] + t)[1..] == p[1..] + [d] + t;
      assert [p[0]] + p[1..] == p;
    }
  }

  /** A string with no separator is a single piece. */
  lemma {:induction false} SplitOnNone(s: string, seps: set<char>)
    requires forall k :: 0 <= k < |s| ==> s[k] !in seps
    ensures SplitOn(s, seps) == [s]
  {
    if s != [] {
      SplitOnNone(s[1..], seps);
      assert [s[0]] + s[1..] == s;
    }
  }
}
