/** filter_out_comment_lines: the view of a line sequence that skips comment
    lines (lines starting with the comment character) and passes every failure
    through, since a failure has no text to inspect. */
module CommentFilter {
  import opened Lines
  import opened Strings

  /** The filter's keep test: a line that does not start with `c`, or a failure.
      For a line only its first character matters: an empty line is kept. */
  predicate Kept(c: char, it: Item)
    ensures it.Err? ==> Kept(c, it)
    ensures it.Ok? ==> (Kept(c, it) <==> |it.value| == 0 || it.value[0] != c)
  {
    (it.Ok? && !StartsWith(it.value, [c])) || it.Err?
  }

  /** The elements of `items` that pass the keep test, in their original order. */
  function FilterOutCommentLines(c: char, items: seq<Item>): (r: seq<Item>)
    ensures |r| <= |items|
  {
    if items == [] then []
    else (if Kept(c, items[0]) then [items[0]] else []) + FilterOutCommentLines(c, items[1..])
  }

  /** Filtering keeps the surviving elements in their original order. */
  lemma {:induction false} FilterIsSubsequence(c: char, items: seq<Item>)
    ensures IsSubsequence(FilterOutCommentLines(c, items), items)
  {
    if items != [] {
      var rest := FilterOutCommentLines(c, items[1..]);
      FilterIsSubsequence(c, items[1..]);
      if Kept(c, items[0]) {
        assert ([items[0]] + rest)[1..] == rest;
      } else {
        assert FilterOutCommentLines(c, items) == rest;
      }
    }
  }

  /** Exactly the kept elements survive, each as often as it occurs in the
      input; nothing else survives. Together with FilterIsSubsequence this
      determines the output completely. */
  lemma {:induction false} FilterCounts(c: char, items: seq<Item>, x: Item)
    ensures multiset(FilterOutCommentLines(c, items))[x] ==
            if Kept(c, x) then multiset(items)[x] else 0
  {
    if items != [] {
      var head := if Kept(c, items[0]) then [items[0]] else [];
      FilterCounts(c, items[1..], x);
      assert items == [items[0]] + items[1..];
      assert multiset(items) == multiset([items[0]]) + multiset(items[1..]);
      assert multiset(FilterOutCommentLines(c, items)) ==
             multiset(head) + multiset(FilterOutCommentLines(c, items[1..]));
    }
  }

  /** An element survives if and only if it occurs in the input and passes the
      keep test: every failure survives, and no surviving line is a comment. */
  lemma FilterMembership(c: char, items: seq<Item>, x: Item)
    ensures x in FilterOutCommentLines(c, items) <==> x in items && Kept(c, x)
  {
    FilterCounts(c, items, x);
  }

  /** No surviving line starts with the comment character. */
  lemma FilterLeavesNoComment(c: char, items: seq<Item>)
    ensures var r := FilterOutCommentLines(c, items);
      forall i :: 0 <= i < |r| && r[i].Ok? ==> !StartsWith(r[i].value, [c])
  {
    var r := FilterOutCommentLines(c, items);
    forall i | 0 <= i < |r| && r[i].Ok?
      ensures !StartsWith(r[i].value, [c])
    {
      FilterMembership(c, items, r[i]);
    }
  }

  /** Filtering the concatenation of two runs filters each run separately, so
      consuming the filtered view piece by piece agrees with filtering it whole. */
  lemma {:induction false} FilterAppend(c: char, a: seq<Item>, b: seq<Item>)
    ensures FilterOutCommentLines(c, a + b) ==
            FilterOutCommentLines(c, a) + FilterOutCommentLines(c, b)
  {
    if a == [] {
      assert a + b == b;
    } else {
      var head := if Kept(c, a[0]) then [a[0]] else [];
      FilterAppend(c, a[1..], b);
      assert (a + b)[0] == a[0];
      assert (a + b)[1..] == a[1..] + b;
      assert FilterOutCommentLines(c, a + b) == head + FilterOutCommentLines(c, a[1..] + b);
      assert head + (FilterOutCommentLines(c, a[1..]) + FilterOutCommentLines(c, b)) ==
             (head + FilterOutCommentLines(c, a[1..])) + FilterOutCommentLines(c, b);
    }
  }

  /** Input with no comment lines passes unchanged. */
  lemma {:induction false} FilterKeepsAll(c: char, items: seq<Item>)
    requires forall i :: 0 <= i < |items| ==> Kept(c, items[i])
    ensures FilterOutCommentLines(c, items) == items
  {
    if items != [] {
      FilterKeepsAll(c, items[1..]);
    }
  }

  /** Filtering twice is the same as filtering once. */
  lemma FilterIdempotent(c: char, items: seq<Item>)
    ensures FilterOutCommentLines(c, FilterOutCommentLines(c, items)) ==
            FilterOutCommentLines(c, items)
  {
    var r := FilterOutCommentLines(c, items);
    forall i | 0 <= i < |r| ensures Kept(c, r[i]) {
      FilterMembership(c, items, r[i]);
    }
    FilterKeepsAll(c, r);
  }
}
