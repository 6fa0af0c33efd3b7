/** The line sequence every operation works on: a forward-only source that
    yields, one at a time, either a line of text (terminator already stripped)
    or an I/O failure, and then reports the end. */
module Lines {

  /** An I/O failure raised by the concrete source. Its contents are opaque here:
      the operations only forward it unchanged. */
  datatype IoError = IoError(code: int)

  /** A value or the I/O failure that prevented it. */
  datatype IoResult<T> = Ok(value: T) | Err(error: IoError)

  /** One element of a line sequence. */
  type Item = IoResult<string>

  datatype Option<T> = None | Some(value: T)

  predicate IsErr(it: Item) {
    it.Err?
  }

  /** Successful items carrying the given lines, in order. */
  function OkItems(lines: seq<string>): (r: seq<Item>)
    ensures |r| == |lines|
    ensures forall i :: 0 <= i < |r| ==> r[i] == Ok(lines[i])
  {
    if lines == [] then [] else [Ok(lines[0])] + OkItems(lines[1..])
  }

  /** A line sequence over a finite list of items, with a cursor at the next
      element to be produced. Elements before the cursor have been consumed and
      cannot be produced again. */
  class LineSource {
    const items: seq<Item>
    var pos: nat

    ghost predicate Valid()
      reads this
    {
      pos <= |items|
    }

    /** The elements not yet produced. */
    function Remaining(): (r: seq<Item>)
      reads this
      requires Valid()
      ensures |r| == |items| - pos
    {
      items[pos..]
    }

    constructor (items: seq<Item>)
      ensures Valid() && this.items == items && pos == 0
    {
      this.items := items;
      pos := 0;
    }

    /** Produces the next element and moves past it, or reports the end and
        stays where it is. */
    method Next() returns (r: Option<Item>)
      requires Valid()
      modifies this
      ensures Valid()
      ensures old(pos) < |items| ==> r == Some(items[old(pos)]) && pos == old(pos) + 1
      ensures old(pos) == |items| ==> r == None && pos == old(pos)
    {
      if pos < |items| {
        r := Some(items[pos]);
        pos := pos + 1;
      } else {
        r := None;
      }
    }
  }
}
