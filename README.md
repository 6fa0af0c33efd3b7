# Line-stream helpers, modelled in Dafny

This project models the four line-processing helpers of a small Rust library
(`src/lib.rs`). The helpers are used to read a text file that starts with a
metadata header and continues with delimited data lines. A file is consumed
as a source of items. Each item is either a line of text, with its terminator
already stripped, or an I/O failure.

- `read_n_lines` consumes up to `n` items.
  - It returns the lines read, each followed by `'\n'`.
  - It stops without error at the end of the input.
  - It returns the first failure as soon as it meets it.
- `read_until_line_starts_with` consumes items up to and including the first
  line that starts with a marker.
  - It returns the lines before the marker, newline-terminated, and drops the
    marker line.
  - With no marker line it returns everything that remains.
  - It returns the first failure at once.
- `filter_out_comment_lines` is the view of a source that skips lines starting
  with a comment character. Failures pass through.
- `split_line_into_streams` splits a data line on a stream delimiter, then
  splits each stream on commas and spaces and drops empty fragments.

Modules:

- `Lines` (`lines.dfy`): the item type (`IoResult<string>` with an opaque
  `IoError`) and `LineSource`, a class with a cursor `pos` into a fixed
  sequence of items. `Next` yields the item under the cursor and advances it,
  or reports the end.
- `Strings` (`strings.dfy`): prefix tests and splitting a string on a set of
  separator characters, which behaves like Rust's `str::split`. Also the
  lemmas that relate a split to its inverse, `Interleave`, and the predicate
  `IsSubsequence` (one sequence is another with some elements left out, the
  rest in order), which the filter and the splitter both use.
- `Readers` (`readers.dfy`): the two readers. They are imperative methods over
  a `LineSource` and are proved against the specification functions `Block`
  and `FirstIndex`:
  - `Block` is the newline-terminated text of a run of items;
  - `FirstIndex` is the position of the first item that stops the reader.
- `CommentFilter` (`comment_filter.dfy`): the filter, as a function on the
  remaining item sequence.
- `StreamSplitter` (`stream_splitter.dfy`): the splitter, as a function.
- `Examples` (`examples.dfy`): the library's own test scenarios plus one
  failure scenario, with their exact expected results. Each of the library's
  reading scenarios is a method over arbitrary line texts, and a second method
  instantiates it with the test's lines. The failure scenario,
  `ReadIntoFailure`, is written directly over concrete items.

Helpers that carry no row of their own:

- `Lines.OkItems` wraps a list of lines as successful items. It is used to
  state the round-trip lemma about accumulated text.
- `Readers.BlockSnoc` is the one-step unfolding of `Block` at the end. The
  block of a run with one more item is the old block followed by the block of
  that item alone. `BlockAppend` is proved from it.
- `StreamSplitter.NonEmptyCons` is the one-step unfolding of `NonEmpty` at the
  front. `NonEmptyAppend` is proved from it.

## Model

| member | source | states |
|---|---|---|
| Lines.LineSource.Next | src/lib.rs:10 | When items remain, yields the item under the cursor and advances the cursor by one. At the end, yields `None` and leaves the cursor where it is. |
| Readers.FirstIndex | src/lib.rs:16-17 | The stop position lies within the items. No earlier item stops the reader, and the item at that position does, unless it is the end. |
| Readers.ReadNLines | src/lib.rs:7-21 | When `n` is 0, returns `Ok("")` and the cursor stays put. Otherwise let `m` be `min(n, remaining)`. If one of the next `m` items is a failure, the first such failure is returned and the cursor sits just past it, so no partial text is returned. Otherwise the result is the newline-terminated block of those `m` lines and the cursor has advanced by exactly `m`. |
| Readers.ReadUntilLineStartsWith | src/lib.rs:24-39 | Let `k` be the position of the first item that is a failure or a line starting with the marker. With no such item, the result is the block of everything remaining and the cursor is at the end. If item `k` is a failure, that failure is returned and the cursor sits just past it. Otherwise item `k` is a marker line. The result is the block of the lines before it, so the marker is consumed but left out, and the cursor sits just past it. |
| Readers.Block | src/lib.rs:13-14 | The text accumulated from a run of items. When the last item is a line, the text is non-empty and ends in `'\n'`. |
| Readers.BlockAppend | src/lib.rs:13-14 | The text accumulated over two runs is the text of the first run followed by the text of the second. |
| Readers.BlockCons | src/lib.rs:13-14 | The text of a line followed by a run is the line, a newline, then the run's text. |
| Readers.SplitAfterLine | src/lib.rs:13-14 | A newline-free line, then `'\n'`, then more text, splits on `'\n'` into that line followed by the pieces of the rest. |
| Readers.BlockSplitsBack | src/lib.rs:13-14 | For lines without a newline, splitting the accumulated text on `'\n'` gives back exactly those lines, followed by the empty piece after the last terminator. No line is lost, merged or altered. |
| Strings.StartsWith | src/lib.rs:29 | A string starts with a prefix iff the prefix is no longer than it and agrees with it at every position of the prefix. |
| Strings.StartsWithChar | src/lib.rs:43 | A string starts with the one-character prefix `c` iff it is non-empty and its first character is `c`. |
| Strings.SplitOn | src/lib.rs:49 | Splitting on a set of separator characters always yields at least one piece. The empty string yields one empty piece. |
| Strings.SplitOnCount | src/lib.rs:49 | Splitting yields one piece more than there are separator characters. |
| Strings.SplitOnPieces | src/lib.rs:49 | No piece holds a separator, and every character of a piece comes from the input. |
| Strings.SplitInterleave | src/lib.rs:49 | Putting the separators back between the pieces, in order, rebuilds the input. |
| Strings.InterleaveSplit | src/lib.rs:49 | Take pieces free of separators and join them with separator characters. Splitting the result gives back exactly those pieces. |
| Strings.SplitConcat | src/lib.rs:49 | The pieces glued together are the input with every separator removed. |
| Strings.SplitOnPrefix | src/lib.rs:49 | A separator-free prefix ended by a separator becomes the first piece, and the rest is split on its own. |
| Strings.SplitOnNone | src/lib.rs:49 | A string without separators splits into itself alone. |
| CommentFilter.Kept | src/lib.rs:43-44 | A failure is always kept. A line is kept iff it is empty or its first character is not the comment character. |
| CommentFilter.FilterOutCommentLines | src/lib.rs:41-46 | The view never has more items than its input. |
| CommentFilter.FilterIsSubsequence | src/lib.rs:41-46 | The surviving items appear in the input in the same order. |
| CommentFilter.FilterCounts | src/lib.rs:42-45 | An item passing the keep test survives as often as it occurs in the input. Any other item does not survive. |
| CommentFilter.FilterMembership | src/lib.rs:42-45 | An item survives iff it occurs in the input and is either a failure or a line not starting with the comment character. |
| CommentFilter.FilterLeavesNoComment | src/lib.rs:43 | No surviving line starts with the comment character. |
| CommentFilter.FilterAppend | src/lib.rs:41-46 | Filtering two runs one after the other gives the same items as filtering them joined. |
| CommentFilter.FilterKeepsAll | src/lib.rs:41-46 | Input without comment lines passes unchanged. |
| CommentFilter.FilterIdempotent | src/lib.rs:41-46 | Filtering twice equals filtering once. |
| StreamSplitter.NonEmpty | src/lib.rs:49 | Dropping the empty fragments never yields more fragments than there were. |
| StreamSplitter.NonEmptyPieces | src/lib.rs:49 | Every fragment kept is non-empty and is one of the fragments of the split. |
| StreamSplitter.NonEmptyIsSubsequence | src/lib.rs:49 | The fragments kept appear among the fragments of the split, in the same order. |
| StreamSplitter.NonEmptyCounts | src/lib.rs:49 | A non-empty fragment is kept exactly as often as it occurs in the split. No empty fragment is kept. |
| StreamSplitter.NonEmptyConcat | src/lib.rs:49 | Dropping empty fragments does not change the text they glue to. |
| StreamSplitter.NonEmptyAppend | src/lib.rs:49 | Dropping empty fragments distributes over joining fragment lists. |
| StreamSplitter.Tokens | src/lib.rs:49 | A stream segment has at most one more token than it has commas and spaces. |
| StreamSplitter.TokensExactly | src/lib.rs:49 | The tokens of a stream segment are its non-empty fragments between commas and spaces, in order and each as often as it occurs. |
| StreamSplitter.SplitLineIntoStreams | src/lib.rs:48-50 | There is one stream more than the line has delimiter occurrences. |
| StreamSplitter.TokensAreClean | src/lib.rs:49 | Every token of a stream is non-empty, holds no comma or space, and uses only characters of its segment. |
| StreamSplitter.SplitLineShape | src/lib.rs:48-50 | There is one stream per delimiter occurrence plus one. Each stream's tokens glue back to its segment with commas and spaces removed. Every token is non-empty and holds no comma, no space and no delimiter. |
| StreamSplitter.SeparatorsOnlyGiveEmptyStream | src/lib.rs:48-50 | A segment made only of commas and spaces still appears, as a stream with no tokens. |
| StreamSplitter.WithoutAllSeparators | src/lib.rs:49 | Removing separators from a string made only of separators leaves nothing. |
| Examples.ReadThreeOf | src/lib.rs:7-21 | Reading 3 of any four lines gives the first three, each followed by `'\n'`, and the fourth line is next. |
| Examples.ReadThreeOfFour | src/lib.rs:61-76 | Reading 3 of the lines `1`..`4` gives `"1\n2\n3\n"`, and the next item is the line `4`. |
| Examples.ReadSixOf | src/lib.rs:7-21 | Asking for 6 of any four lines gives all four, each followed by `'\n'`, without error. |
| Examples.ReadTooManyLines | src/lib.rs:79-83 | Asking for 6 of 4 lines gives all four, `"1\n2\n3\n4\n"`, without error. |
| Examples.ReadIntoFailure | src/lib.rs:16 | A failure on the second of three requested lines is the result. The line after it is the next item. |
| Examples.ReadThreeFiltered | src/lib.rs:41-46 | Take six lines whose second and fifth are comments. Reading 3 through the filter gives the first, third and fourth, each followed by `'\n'`. |
| Examples.ReadAfterFilter | src/lib.rs:86-91 | Reading 3 lines through the comment filter over `1,#2,3,4,#5,6` gives `"1\n3\n4\n"`. |
| Examples.ReadUntilFifth | src/lib.rs:24-39 | Take four non-marker lines, a marker line and one more line. Reading up to the marker gives the four lines, each followed by `'\n'`, and the last line is next. |
| Examples.MetadataMarkers | src/lib.rs:96 | Of the metadata file's lines, only `Data:` starts with `Data:`. |
| Examples.ReadMetadataSection | src/lib.rs:94-100 | Reading the metadata header up to `Data:` gives its four lines newline-terminated, and the next item is the data line `1`. |
| Examples.FieldsOfFirstStream | src/lib.rs:49 | `"1, 2 3, 5.15, "` splits on comma and space into `1,"",2,3,"",5.15,"",""`. |
| Examples.TokensOfFirstStream | src/lib.rs:104-105 | The first stream's tokens are `1, 2, 3, 5.15`. |
| Examples.TokensOfSecondStream | src/lib.rs:104-105 | The second stream's tokens are `6, 7, 8`. |
| Examples.SplitTwoStreams | src/lib.rs:103-113 | The line `1, 2 3, 5.15, ` + bar + ` 6 7, 8`, split on the bar character, gives the token lists `[1,2,3,5.15]` and `[6,7,8]`. |

## Left out

- `std::io` plumbing is not modelled: `BufReader`, `File`, `Cursor`, and the stripping of line terminators done by `.lines()`. The source is a finite, already-split list of items.
- The contents of `io::Error` are not modelled. An error is the opaque value `IoError(code)`, which the operations only forward unchanged.
- Iterator laziness, lifetimes and borrowing are not modelled.
  - `FilterOutCommentLines` is a function over the remaining item sequence, not a lazy adapter.
  - The model does not capture that pulling from the filtered view also advances the underlying source past the skipped comment lines.
  - `Examples.ReadThreeFiltered` therefore reads from a `LineSource` built over the filtered sequence.
- Readers.ReadNLines: `n` is a `nat`, so the `u32` upper bound of the argument is not modelled. The loop runs at most `n` times either way.
- Strings are `seq<char>`. UTF-8 encoding and the byte length behind the `len() != 0` test in `split_line_into_streams` are not modelled. A fragment is empty iff it has no characters, which gives the same answer.
- The tests that open fixture files (src/lib.rs:61-67, 94-100) are modelled with in-memory item lists holding the expected lines.
- StreamSplitter.SplitLineIntoStreams returns owned strings rather than slices borrowed from the line. The contents are the same.
