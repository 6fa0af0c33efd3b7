/** The concrete scenarios of the library's own tests, stated as methods and
    lemmas whose contracts pin down the exact results. Fixture files are
    replaced by in-memory line lists with the same lines. */
module Examples {
  import opened Lines
  import opened Strings
  import opened Readers
  import opened CommentFilter
  import opened StreamSplitter

  lemma BlockOfThree(a: string, b: string, c: string)
    ensures Block([Ok(a), Ok(b), Ok(c)]) == a + "\n" + b + "\n" + c + "\n"
  {
    assert [Ok(a), Ok(b), Ok(c)][..2] == [Ok(a), Ok(b)];
    assert [Ok(a), Ok(b)][..1] == [Ok(a)];
    assert [Ok(a)][..0] == [];
    assert Block([Ok(a)]) == a + "\n";
    assert Block([Ok(a), Ok(b)]) == a + "\n" + b + "\n";
  }

  lemma BlockOfFour(a: string, b: string, c: string, d: string)
    ensures Block([Ok(a), Ok(b), Ok(c), Ok(d)]) == a + "\n" + b + "\n" + c + "\n" + d + "\n"
  {
    assert [Ok(a), Ok(b), Ok(c), Ok(d)][..3] == [Ok(a), Ok(b), Ok(c)];
    BlockOfThree(a, b, c);
  }

  /** One filter step: a kept head survives, a comment head is dropped. */
  lemma FilterStep(c: char, x: Item, rest: seq<Item>)
    ensures FilterOutCommentLines(c, [x] + rest) ==
            (if Kept(c, x) then [x] else []) + FilterOutCommentLines(c, rest)
  {
    assert ([x] + rest)[1..] == rest;
  }

  /** Six lines of which the second and the fifth are comments. */
  lemma FilterOfSix(c: char, a: Item, b: Item, d: Item, e: Item, f: Item, g: Item)
    requires Kept(c, a) && !Kept(c, b) && Kept(c, d)
    requires Kept(c, e) && !Kept(c, f) && Kept(c, g)
    ensures FilterOutCommentLines(c, [a, b, d, e, f, g]) == [a, d, e, g]
  {
    FilterStep(c, g, []);
    FilterStep(c, f, [g]);
    assert [f] + [g] == [f, g];
    FilterStep(c, e, [f, g]);
    assert [e] + [f, g] == [e, f, g];
    FilterStep(c, d, [e, f, g]);
    assert [d] + [e, f, g] == [d, e, f, g];
    FilterStep(c, b, [d, e, f, g]);
    assert [b] + [d, e, f, g] == [b, d, e, f, g];
    FilterStep(c, a, [b, d, e, f, g]);
    assert [a] + [b, d, e, f, g] == [a, b, d, e, f, g];
  }

  /** Four lines that are not marker lines, then a marker line. */
  lemma MarkerIsFifth(marker: string, a: string, b: string, c: string, d: string, m: string, x: string)
    requires !IsMarker(marker, Ok(a)) && !IsMarker(marker, Ok(b))
    requires !IsMarker(marker, Ok(c)) && !IsMarker(marker, Ok(d)) && IsMarker(marker, Ok(m))
    ensures FirstIndex([Ok(a), Ok(b), Ok(c), Ok(d), Ok(m), Ok(x)], StopsAt(marker)) == 4
  {
    var items := [Ok(a), Ok(b), Ok(c), Ok(d), Ok(m), Ok(x)];
    assert StopsAt(marker)(items[4]);
  }

  /** The first three of four lines: none is a failure, and their block. */
  lemma FirstThreeOfFour(a: string, b: string, c: string, d: string)
    ensures FirstIndex([Ok(a), Ok(b), Ok(c), Ok(d)][..3], IsErr) == 3
    ensures Block([Ok(a), Ok(b), Ok(c), Ok(d)][..3]) == a + "\n" + b + "\n" + c + "\n"
  {
    var items := [Ok(a), Ok(b), Ok(c)];
    assert [Ok(a), Ok(b), Ok(c), Ok(d)][..3] == items;
    assert !IsErr(items[0]) && !IsErr(items[1]) && !IsErr(items[2]);
    BlockOfThree(a, b, c);
  }

  /** All of four lines: none is a failure, and their block. */
  lemma AllOfFour(a: string, b: string, c: string, d: string)
    ensures FirstIndex([Ok(a), Ok(b), Ok(c), Ok(d)], IsErr) == 4
    ensures Block([Ok(a), Ok(b), Ok(c), Ok(d)]) == a + "\n" + b + "\n" + c + "\n" + d + "\n"
  {
    var items := [Ok(a), Ok(b), Ok(c), Ok(d)];
    assert !IsErr(items[0]) && !IsErr(items[1]) && !IsErr(items[2]) && !IsErr(items[3]);
    BlockOfFour(a, b, c, d);
  }

  /** Reading three of four lines returns them, and the fourth is next. */
  method ReadThreeOf(a: string, b: string, c: string, d: string)
    returns (r: IoResult<string>, next: Option<Item>)
    ensures r == Ok(a + "\n" + b + "\n" + c + "\n")
    ensures next == Some(Ok(d))
  {
    var items := [Ok(a), Ok(b), Ok(c), Ok(d)];
    var src := new LineSource(items);
    assert src.Remaining() == items;
    r := ReadNLines(3, src);
    FirstThreeOfFour(a, b, c, d);
    next := src.Next();
  }

  method ReadThreeOfFour() returns (r: IoResult<string>, next: Option<Item>)
    ensures r == Ok("1\n2\n3\n")
    ensures next == Some(Ok("4"))
  {
    r, next := ReadThreeOf("1", "2", "3", "4");
    assert "1" + "\n" + "2" + "\n" + "3" + "\n" == "1\n2\n3\n";
  }

  /** Asking for six of four lines is not an error: all four come back. */
  method ReadSixOf(a: string, b: string, c: string, d: string) returns (r: IoResult<string>)
    ensures r == Ok(a + "\n" + b + "\n" + c + "\n" + d + "\n")
  {
    var items := [Ok(a), Ok(b), Ok(c), Ok(d)];
    var src := new LineSource(items);
    assert src.Remaining() == items;
    r := ReadNLines(6, src);
    AllOfFour(a, b, c, d);
    assert items[..4] == items;
  }

  method ReadTooManyLines() returns (r: IoResult<string>)
    ensures r == Ok("1\n2\n3\n4\n")
  {
    r := ReadSixOf("1", "2", "3", "4");
    assert "1" + "\n" + "2" + "\n" + "3" + "\n" + "4" + "\n" == "1\n2\n3\n4\n";
  }

  /** A failure among the requested lines is the result; the lines before it
      are lost and the cursor sits just past the failure. */
  method ReadIntoFailure() returns (r: IoResult<string>, next: Option<Item>)
    ensures r == Err(IoError(5))
    ensures next == Some(Ok("3"))
  {
    var items := [Ok("1"), Err(IoError(5)), Ok("3")];
    var src := new LineSource(items);
    r := ReadNLines(3, src);
    assert items[..3] == items;
    assert FirstIndex(items, IsErr) == 1;
    next := src.Next();
  }

  /** Comment lines are skipped and do not count toward the lines requested:
      of six lines whose second and fifth are comments, reading three through
      the filter gives the first, third and fourth. */
  method ReadThreeFiltered(c: char, a: string, b: string, d: string, e: string, f: string, g: string)
    returns (r: IoResult<string>)
    requires Kept(c, Ok(a)) && !Kept(c, Ok(b)) && Kept(c, Ok(d))
    requires Kept(c, Ok(e)) && !Kept(c, Ok(f)) && Kept(c, Ok(g))
    ensures r == Ok(a + "\n" + d + "\n" + e + "\n")
  {
    var items := [Ok(a), Ok(b), Ok(d), Ok(e), Ok(f), Ok(g)];
    FilterOfSix(c, Ok(a), Ok(b), Ok(d), Ok(e), Ok(f), Ok(g));
    var filtered := FilterOutCommentLines(c, items);
    var src := new LineSource(filtered);
    assert src.Remaining() == filtered;
    r := ReadNLines(3, src);
    FirstThreeOfFour(a, d, e, g);
  }

  method ReadAfterFilter() returns (r: IoResult<string>)
    ensures r == Ok("1\n3\n4\n")
  {
    assert "#2"[0] == '#' && "#5"[0] == '#';
    r := ReadThreeFiltered('#', "1", "#2", "3", "4", "#5", "6");
    assert "1" + "\n" + "3" + "\n" + "4" + "\n" == "1\n3\n4\n";
  }

  /** Four lines that are not marker lines, a marker line and one more line:
      reading up to the marker gives the four lines, and the last line is next. */
  method ReadUntilFifth(marker: string, a: string, b: string, c: string, d: string, m: string, x: string)
    returns (r: IoResult<string>, next: Option<Item>)
    requires !IsMarker(marker, Ok(a)) && !IsMarker(marker, Ok(b))
    requires !IsMarker(marker, Ok(c)) && !IsMarker(marker, Ok(d)) && IsMarker(marker, Ok(m))
    ensures r == Ok(a + "\n" + b + "\n" + c + "\n" + d + "\n")
    ensures next == Some(Ok(x))
  {
    var items := [Ok(a), Ok(b), Ok(c), Ok(d), Ok(m), Ok(x)];
    var src := new LineSource(items);
    assert src.Remaining() == items;
    r := ReadUntilLineStartsWith(marker, src);
    MarkerIsFifth(marker, a, b, c, d, m, x);
    assert items[..4] == [Ok(a), Ok(b), Ok(c), Ok(d)];
    BlockOfFour(a, b, c, d);
    next := src.Next();
  }

  /** Which lines of the metadata file are "Data:" marker lines. */
  lemma MetadataMarkers()
    ensures !IsMarker("Data:", Ok("Metadata:"))
    ensures !IsMarker("Data:", Ok("  - name: Stream1"))
    ensures !IsMarker("Data:", Ok("    dtype: int"))
    ensures !IsMarker("Data:", Ok("    shape: [1]"))
    ensures IsMarker("Data:", Ok("Data:"))
  {
    assert "Metadata:"[0] != 'D';
    assert "  - name: Stream1"[0] != 'D';
    assert "    dtype: int"[0] != 'D';
    assert "    shape: [1]"[0] != 'D';
    assert "Data:"[..5] == "Data:";
  }

  /** The metadata header is read up to the "Data:" marker, which is consumed
      but left out; the first data line is next. */
  method ReadMetadataSection() returns (r: IoResult<string>, next: Option<Item>)
    ensures r == Ok("Metadata:" + "\n" + "  - name: Stream1" + "\n" + "    dtype: int" + "\n" +
                    "    shape: [1]" + "\n")
    ensures next == Some(Ok("1"))
  {
    MetadataMarkers();
    r, next := ReadUntilFifth("Data:", "Metadata:", "  - name: Stream1", "    dtype: int",
                              "    shape: [1]", "Data:", "1");
  }

  lemma FieldsOfFirstStream()
    ensures SplitOn("1, 2 3, 5.15, ", FieldSeparators) == ["1", "", "2", "3", "", "5.15", "", ""]
  {
    var pieces := ["1", "", "2", "3", "", "5.15", "", ""];
    assert Interleave(pieces, ",  , , ") == "1, 2 3, 5.15, ";
    InterleaveSplit(pieces, ",  , , ", FieldSeparators);
  }

  lemma FieldsOfSecondStream()
    ensures SplitOn(" 6 7, 8", FieldSeparators) == ["", "6", "7", "", "8"]
  {
    var pieces := ["", "6", "7", "", "8"];
    assert Interleave(pieces, "  , ") == " 6 7, 8";
    InterleaveSplit(pieces, "  , ", FieldSeparators);
  }

  lemma NonEmptyOfFirstHalf(a: string, b: string, c: string, e: string)
    requires |a| > 0 && |b| > 0 && |c| > 0 && |e| == 0
    ensures NonEmpty([a, e, b, c]) == [a, b, c]
  {
    NonEmptyCons(c, []);
    NonEmptyCons(b, [c]);
    assert [b] + [c] == [b, c];
    NonEmptyCons(e, [b, c]);
    assert [e] + [b, c] == [e, b, c];
    NonEmptyCons(a, [e, b, c]);
    assert [a] + [e, b, c] == [a, e, b, c];
  }

  lemma NonEmptyOfSecondHalf(d: string, e: string)
    requires |d| > 0 && |e| == 0
    ensures NonEmpty([e, d, e, e]) == [d]
  {
    NonEmptyCons(e, []);
    NonEmptyCons(e, [e]);
    assert [e] + [e] == [e, e];
    NonEmptyCons(d, [e, e]);
    assert [d] + [e, e] == [d, e, e];
    NonEmptyCons(e, [d, e, e]);
    assert [e] + [d, e, e] == [e, d, e, e];
  }

  lemma NonEmptyOfFirstStream(a: string, b: string, c: string, d: string, e: string)
    requires |a| > 0 && |b| > 0 && |c| > 0 && |d| > 0 && |e| == 0
    ensures NonEmpty([a, e, b, c, e, d, e, e]) == [a, b, c, d]
  {
    assert [a, e, b, c, e, d, e, e] == [a, e, b, c] + [e, d, e, e];
    NonEmptyAppend([a, e, b, c], [e, d, e, e]);
    NonEmptyOfFirstHalf(a, b, c, e);
    NonEmptyOfSecondHalf(d, e);
  }

  lemma NonEmptyOfSecondStream(a: string, b: string, c: string, e: string)
    requires |a| > 0 && |b| > 0 && |c| > 0 && |e| == 0
    ensures NonEmpty([e, a, b, e, c]) == [a, b, c]
  {
    NonEmptyCons(c, []);
    NonEmptyCons(e, [c]);
    assert [e] + [c] == [e, c];
    NonEmptyCons(b, [e, c]);
    assert [b] + [e, c] == [b, e, c];
    NonEmptyCons(a, [b, e, c]);
    assert [a] + [b, e, c] == [a, b, e, c];
    NonEmptyCons(e, [a, b, e, c]);
    assert [e] + [a, b, e, c] == [e, a, b, e, c];
  }

  lemma TokensOfFirstStream()
    ensures Tokens("1, 2 3, 5.15, ") == ["1", "2", "3", "5.15"]
  {
    FieldsOfFirstStream();
    NonEmptyOfFirstStream("1", "2", "3", "5.15", "");
  }

  lemma TokensOfSecondStream()
    ensures Tokens(" 6 7, 8") == ["6", "7", "8"]
  {
    FieldsOfSecondStream();
    NonEmptyOfSecondStream("6", "7", "8", "");
  }

  lemma SplitOuter()
    ensures SplitOn("1, 2 3, 5.15, | 6 7, 8", {'|'}) == ["1, 2 3, 5.15, ", " 6 7, 8"]
  {
    var pieces := ["1, 2 3, 5.15, ", " 6 7, 8"];
    assert Interleave(pieces, "|") == "1, 2 3, 5.15, | 6 7, 8";
    InterleaveSplit(pieces, "|", {'|'});
  }

  /** A line with exactly two segments gives the tokens of each. */
  lemma TwoStreams(d: char, line: string, s1: string, s2: string)
    requires SplitOn(line, {d}) == [s1, s2]
    ensures SplitLineIntoStreams(d, line) == [Tokens(s1), Tokens(s2)]
  {
  }

  /** A data line with two streams, repeated separators and a trailing comma. */
  lemma SplitTwoStreams()
    ensures SplitLineIntoStreams('|', "1, 2 3, 5.15, | 6 7, 8") ==
            [["1", "2", "3", "5.15"], ["6", "7", "8"]]
  {
    SplitOuter();
    TwoStreams('|', "1, 2 3, 5.15, | 6 7, 8", "1, 2 3, 5.15, ", " 6 7, 8");
    TokensOfFirstStream();
    TokensOfSecondStream();
  }
}
