/** The two readers that consume a line sequence into one text block:
    a bounded reader (a fixed number of lines) and a marker reader (up to a
    line with a given prefix). Both forward the first I/O failure they meet. */
module Readers {
  import opened Lines
  import opened Strings

  function Min(a: nat, b: nat): (r: nat) {
    if a <= b then a else b
  }

  /** The accumulated text block of a run of items: every line followed by a
      newline, in order. Failures contribute nothing (the readers only build
      blocks from runs that hold none). A block that ends in a line ends in
      a newline. */
  function Block(items: seq<Item>): (r: string)
    ensures items != [] && items[|items| - 1].Ok? ==> |r| > 0 && r[|r| - 1] == '\n'
  {
    if items == [] then ""
    else
      Block(items[..|items| - 1]) + match items[|items| - 1] {
        case Ok(l) => l + "\n"
        case Err(_) => ""
      }
  }

  /** The position of the first item at which `stop` holds, or the length of
      `items` when there is none. */
  function FirstIndex(items: seq<Item>, stop: Item -> bool): (k: nat)
    ensures k <= |items|
    ensures forall j :: 0 <= j < k ==> !stop(items[j])
    ensures k < |items| ==> stop(items[k])
  {
    if items == [] then 0
    else if stop(items[0]) then 0
    else 1 + FirstIndex(items[1..], stop)
  }

  /** A line the marker reader stops at: a line starting with `marker`. */
  predicate IsMarker(marker: string, it: Item) {
    it.Ok? && StartsWith(it.value, marker)
  }

  /** The marker reader stops at a failure or at a marker line. */
  function StopsAt(marker: string): Item -> bool {
    it => IsErr(it) || IsMarker(marker, it)
  }

  /** Appending one item appends the block of that item alone. */
  lemma BlockSnoc(items: seq<Item>, it: Item)
    ensures Block(items + [it]) == Block(items) + Block([it])
  {
  }

  /** Blocks compose: the block of two runs is the first block followed by the second. */
  lemma {:induction false} BlockAppend(a: seq<Item>, b: seq<Item>)
    ensures Block(a + b) == Block(a) + Block(b)
  {
    if b == [] {
      assert a + b == a;
    } else {
      var b', last := b[..|b| - 1], b[|b| - 1];
      assert b == b' + [last];
      assert a + b == (a + b') + [last];
      BlockSnoc(a + b', last);
      BlockSnoc(b', last);
      BlockAppend(a, b');
    }
  }

  /** The block of a line followed by a run is that line, its newline, then the run's block. */
  lemma BlockCons(l: string, rest: seq<Item>)
    ensures Block([Ok(l)] + rest) == l + "\n" + Block(rest)
  {
    BlockAppend([Ok(l)], rest);
    assert [Ok(l)][..0] == [];
  }

  /** A line without a newline, then a newline, then more text: the line is the
      first piece and the rest splits on its own. */
  lemma SplitAfterLine(l: string, t: string)
    requires '\n' !in l
    ensures SplitOn(l + "\n" + t, {'\n'}) == [l] + SplitOn(t, {'\n'})
  {
    forall k | 0 <= k < |l| ensures l[k] !in {'\n'} {
      assert l[k] in l;
    }
    SplitOnPrefix(l, '\n', t, {'\n'});
  }

  /** A block of lines that hold no newline splits back on '\n' into exactly
      those lines, followed by the empty piece after the last terminator. */
  lemma {:induction false} BlockSplitsBack(lines: seq<string>)
    requires forall i :: 0 <= i < |lines| ==> '\n' !in lines[i]
    ensures SplitOn(Block(OkItems(lines)), {'\n'}) == lines + [""]
  {
    if lines != [] {
      var l := lines[0];
      var rest := OkItems(lines[1..]);
      BlockSplitsBack(lines[1..]);
      assert OkItems(lines) == [Ok(l)] + rest;
      BlockCons(l, rest);
      SplitAfterLine(l, Block(rest));
      assert [l] + (lines[1..] + [""]) == lines + [""];
    }
  }

  /** read_n_lines: consumes up to `n` elements. Each line is appended to the
      result followed by '\n'; reading stops early, without error, at the end;
      the first failure is returned at once and the text read so far is dropped.
      With `m` the number of lines requested and still available, the result is
      the block of the first `m` remaining lines and the cursor moves by `m`,
      unless one of those `m` elements is a failure: then that failure is the
      result and the cursor sits just past it. */
  method ReadNLines(n: nat, src: LineSource) returns (r: IoResult<string>)
    requires src.Valid()
    modifies src
    ensures src.Valid()
    ensures n == 0 ==> r == Ok("") && src.pos == old(src.pos)
    ensures var rest := old(src.Remaining());
      var m := Min(n, |rest|);
      var k := FirstIndex(rest[..m], IsErr);
      if k < m then r == Err(rest[k].error) && src.pos == old(src.pos) + k + 1
      else r == Ok(Block(rest[..m])) && src.pos == old(src.pos) + m
  {
    ghost var rest := src.Remaining();
    ghost var p0 := src.pos;
    ghost var m := Min(n, |rest|);
    var res := "";
    for i := 0 to n
      invariant src.Valid()
      invariant i <= |rest| && src.pos == p0 + i
      invariant forall j :: 0 <= j < i ==> rest[j].Ok?
      invariant res == Block(rest[..i])
    {
      var line := src.Next();
      match line {
        case Some(Ok(l)) =>
          assert rest[i] == Ok(l);
          assert rest[..i + 1][..i] == rest[..i];
          res := res + l + "\n";
        case Some(Err(e)) =>
          assert rest[i] == Err(e);
          ghost var k := FirstIndex(rest[..m], IsErr);
          assert rest[..m][i] == rest[i];
          assert k == i;
          return Err(e);
        case None =>
          break;
      }
    }
    ghost var k := FirstIndex(rest[..m], IsErr);
    assert rest[..m] == rest[..src.pos - p0];
    assert k == m;
    r := Ok(res);
  }

  /** read_until_line_starts_with: consumes elements up to and including the
      first line that starts with `marker`. The result is the block of the lines
      before it; the marker line itself is consumed and left out. With no such
      line the whole rest is consumed and returned as a block; the first failure
      met is returned at once, with the cursor just past it. */
  method ReadUntilLineStartsWith(marker: string, src: LineSource) returns (r: IoResult<string>)
    requires src.Valid()
    modifies src
    ensures src.Valid()
    ensures var rest := old(src.Remaining());
      var k := FirstIndex(rest, StopsAt(marker));
      if k == |rest| then r == Ok(Block(rest)) && src.pos == |src.items|
      else if rest[k].Err? then r == Err(rest[k].error) && src.pos == old(src.pos) + k + 1
      else IsMarker(marker, rest[k]) && r == Ok(Block(rest[..k])) && src.pos == old(src.pos) + k + 1
  {
    ghost var rest := src.Remaining();
    ghost var p0 := src.pos;
    ghost var i := 0;
    var res := "";
    while true
      invariant src.Valid()
      invariant i <= |rest| && src.pos == p0 + i
      invariant forall j :: 0 <= j < i ==> !StopsAt(marker)(rest[j])
      invariant res == Block(rest[..i])
      decreases |src.items| - src.pos
    {
      var line := src.Next();
      if line.None? {
        break;
      }
      match line.value {
        case Ok(l) =>
          assert rest[i] == Ok(l);
          if StartsWith(l, marker) {
            break;
          } else {
            assert rest[..i + 1][..i] == rest[..i];
            res := res + l + "\n";
            i := i + 1;
          }
        case Err(e) =>
          assert rest[i] == Err(e);
          assert FirstIndex(rest, StopsAt(marker)) == i;
          return Err(e);
      }
    }
    ghost var k := FirstIndex(rest, StopsAt(marker));
    if src.pos == p0 + i {
      assert rest[..i] == rest;
      assert k == |rest|;
    } else {
      assert k == i;
    }
    r := Ok(res);
  }
}
