/** split_line_into_streams: a data line is split on the stream delimiter into
    streams, and every stream is split on commas and spaces into its tokens;
    empty fragments are dropped, but a stream left with no tokens stays. */
module StreamSplitter {
  import opened Strings

  /** The characters that separate the tokens of one stream. */
  const FieldSeparators: set<char> := {',', ' '}

  /** The non-empty pieces, in order. */
  function NonEmpty(pieces: seq<string>): (r: seq<string>)
    ensures |r| <= |pieces|
  {
    if pieces == [] then []
    else
      var rest := NonEmpty(pieces[1..]);
      if |pieces[0]| == 0 then rest else [pieces[0]] + rest
  }

  /** Every kept piece is non-empty and is one of the input pieces. */
  lemma {:induction false} NonEmptyPieces(pieces: seq<string>)
    ensures forall i :: 0 <= i < |NonEmpty(pieces)| ==>
      |NonEmpty(pieces)[i]| > 0 && NonEmpty(pieces)[i] in pieces
  {
    if pieces != [] {
      NonEmptyPieces(pieces[1..]);
    }
  }

  /** The kept pieces appear among the input pieces in the same order. */
  lemma {:induction false} NonEmptyIsSubsequence(pieces: seq<string>)
    ensures IsSubsequence(NonEmpty(pieces), pieces)
  {
    if pieces != [] {
      var rest := NonEmpty(pieces[1..]);
      NonEmptyIsSubsequence(pieces[1..]);
      if |pieces[0]| > 0 {
        assert ([pieces[0]] + rest)[1..] == rest;
      } else {
        assert NonEmpty(pieces) == rest;
      }
    }
  }

  /** Every non-empty piece is kept as often as it occurs, and no empty piece
      is kept. Together with NonEmptyIsSubsequence this determines the kept
      pieces completely. */
  lemma {:induction false} NonEmptyCounts(pieces: seq<string>, x: string)
    ensures multiset(NonEmpty(pieces))[x] == if |x| > 0 then multiset(pieces)[x] else 0
  {
    if pieces != [] {
      var head := if |pieces[0]| == 0 then [] else [pieces[0]];
      NonEmptyCounts(pieces[1..], x);
      assert pieces == [pieces[0]] + pieces[1..];
      assert multiset(pieces) == multiset([pieces[0]]) + multiset(pieces[1..]);
      assert multiset(NonEmpty(pieces)) == multiset(head) + multiset(NonEmpty(pieces[1..]));
    }
  }

  /** Dropping empty pieces does not change what they glue to. */
  lemma {:induction false} NonEmptyConcat(pieces: seq<string>)
    ensures Concat(NonEmpty(pieces)) == Concat(pieces)
  {
    if pieces != [] {
      var x, rest := pieces[0], pieces[1..];
      NonEmptyConcat(rest);
      assert Concat(pieces) == x + Concat(rest);
      if |x| > 0 {
        var kept := [x] + NonEmpty(rest);
        assert NonEmpty(pieces) == kept;
        assert kept[0] == x && kept[1..] == NonEmpty(rest);
        assert Concat(kept) == x + Concat(NonEmpty(rest));
      } else {
        assert NonEmpty(pieces) == NonEmpty(rest);
        assert x == [];
      }
    }
  }

  /** One step of dropping empty pieces: an empty head goes, any other stays. */
  lemma NonEmptyCons(x: string, rest: seq<string>)
    ensures NonEmpty([x] + rest) == (if |x| == 0 then [] else [x]) + NonEmpty(rest)
  {
  }

  /** Dropping empty pieces distributes over concatenation of piece lists. */
  lemma {:induction false} NonEmptyAppend(p: seq<string>, q: seq<string>)
    ensures NonEmpty(p + q) == NonEmpty(p) + NonEmpty(q)
  {
    if p == [] {
      assert p + q == q;
    } else {
      var x, p' := p[0], p[1..];
      var head := if |x| == 0 then [] else [x];
      assert p == [x] + p';
      assert p + q == [x] + (p' + q);
      NonEmptyCons(x, p' + q);
      NonEmptyCons(x, p');
      NonEmptyAppend(p', q);
      assert head + (NonEmpty(p') + NonEmpty(q)) == (head + NonEmpty(p')) + NonEmpty(q);
    }
  }

  /** The tokens of one stream segment: there are at most one more than the
      segment has commas and spaces. */
  function Tokens(segment: string): (r: seq<string>)
    ensures |r| <= |Separators(segment, FieldSeparators)| + 1
  {
    SplitOnCount(segment, FieldSeparators);
    NonEmpty(SplitOn(segment, FieldSeparators))
  }

  /** One token list per stream: there is one stream more than the line has
      delimiter occurrences, so empty streams are kept. */
  function SplitLineIntoStreams(d: char, line: string): (r: seq<seq<string>>)
    ensures |r| == |Separators(line, {d})| + 1
  {
    SplitOnCount(line, {d});
    var segments := SplitOn(line, {d});
    seq(|segments|, i requires 0 <= i < |segments| => Tokens(segments[i]))
  }

  /** The tokens of a segment are exactly its non-empty fragments between
      commas and spaces: in order, and each as often as it occurs. */
  lemma TokensExactly(segment: string, x: string)
    ensures IsSubsequence(Tokens(segment), SplitOn(segment, FieldSeparators))
    ensures multiset(Tokens(segment))[x] ==
            if |x| > 0 then multiset(SplitOn(segment, FieldSeparators))[x] else 0
  {
    NonEmptyIsSubsequence(SplitOn(segment, FieldSeparators));
    NonEmptyCounts(SplitOn(segment, FieldSeparators), x);
  }

  /** Every token is non-empty and holds no comma, no space and no stream
      delimiter; its characters come from the segment it was cut from. */
  lemma TokensAreClean(segment: string)
    ensures forall j, k :: 0 <= j < |Tokens(segment)| && 0 <= k < |Tokens(segment)[j]| ==>
      Tokens(segment)[j][k] !in FieldSeparators && Tokens(segment)[j][k] in segment
    ensures forall j :: 0 <= j < |Tokens(segment)| ==> |Tokens(segment)[j]| > 0
  {
    var pieces := SplitOn(segment, FieldSeparators);
    var t := Tokens(segment);
    SplitOnPieces(segment, FieldSeparators);
    NonEmptyPieces(pieces);
    forall j, k | 0 <= j < |t| && 0 <= k < |t[j]|
      ensures t[j][k] !in FieldSeparators && t[j][k] in segment
    {
      var p :| p in pieces && p == t[j];
      var i :| 0 <= i < |pieces| && pieces[i] == p;
      assert t[j][k] == pieces[i][k];
    }
  }

  /** The shape of the result: one stream per delimiter occurrence plus one,
      a stream's tokens glue back to its segment without separators, and every
      token is non-empty and free of ',', ' ' and the delimiter. */
  lemma SplitLineShape(d: char, line: string)
    ensures var r := SplitLineIntoStreams(d, line);
      && |r| == |Separators(line, {d})| + 1
      && (forall i :: 0 <= i < |r| ==>
            Concat(r[i]) == Without(SplitOn(line, {d})[i], FieldSeparators))
      && (forall i, j :: 0 <= i < |r| && 0 <= j < |r[i]| ==>
            |r[i][j]| > 0 && ',' !in r[i][j] && ' ' !in r[i][j] && d !in r[i][j])
  {
    var segments := SplitOn(line, {d});
    var r := SplitLineIntoStreams(d, line);
    SplitOnCount(line, {d});
    SplitOnPieces(line, {d});
    forall i | 0 <= i < |r|
      ensures Concat(r[i]) == Without(segments[i], FieldSeparators)
    {
      SplitConcat(segments[i], FieldSeparators);
      NonEmptyConcat(SplitOn(segments[i], FieldSeparators));
    }
    forall i, j | 0 <= i < |r| && 0 <= j < |r[i]|
      ensures |r[i][j]| > 0 && ',' !in r[i][j] && ' ' !in r[i][j] && d !in r[i][j]
    {
      TokensAreClean(segments[i]);
      var t := r[i][j];
      assert t == Tokens(segments[i])[j];
      forall k | 0 <= k < |t| ensures t[k] != ',' && t[k] != ' ' && t[k] != d {
        var q :| 0 <= q < |segments[i]| && segments[i][q] == t[k];
        assert segments[i][q] != d;
      }
    }
  }

  /** A segment made only of separators is still present, as a stream with no tokens. */
  lemma SeparatorsOnlyGiveEmptyStream(d: char, line: string, i: nat)
    requires i < |SplitOn(line, {d})|
    requires forall k :: 0 <= k < |SplitOn(line, {d})[i]| ==> SplitOn(line, {d})[i][k] in FieldSeparators
    ensures i < |SplitLineIntoStreams(d, line)| && SplitLineIntoStreams(d, line)[i] == []
  {
    var segment := SplitOn(line, {d})[i];
    WithoutAllSeparators(segment, FieldSeparators);
    SplitConcat(segment, FieldSeparators);
    NonEmptyConcat(SplitOn(segment, FieldSeparators));
    NonEmptyPieces(SplitOn(segment, FieldSeparators));
  }

  lemma {:induction false} WithoutAllSeparators(s: string, seps: set<char>)
    requires forall k :: 0 <= k < |s| ==> s[k] in seps
    ensures Without(s, seps) == ""
  {
    if s != [] {
      WithoutAllSeparators(s[1..], seps);
    }
  }
}
