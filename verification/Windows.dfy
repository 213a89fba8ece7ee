/** The slice idiom both rings use: append, then cut the front off, over a backing array that is reused in place. */
module Windows {
  import opened Sequences

  /** A Go slice - backing array, offset, length - that keeps the last `max` elements appended to it. */
  class Window<T(0)> {
    const max: nat
    var data: array<T>
    var off: nat
    var len: nat

    ghost predicate Valid()
      reads this
    {
      off + len <= data.Length && len <= max
    }

    ghost function Contents(): (s: seq<T>)
      requires Valid()
      reads this, data
      ensures |s| == len
    {
      data[off..off + len]
    }

    constructor (max: nat)
      ensures Valid() && fresh(data) && this.max == max && Contents() == []
    {
      this.max := max;
      data := new T[0];
      off, len := 0, 0;
    }

    /** Go's `append` when the capacity is used up: the elements move to a larger array, of a size the runtime picks. */
    method Grow()
      requires Valid()
      modifies this
      ensures Valid() && fresh(data) && off + len < data.Length
      ensures Contents() == old(Contents()) && len == old(len)
    {
      var capacity: nat := *;
      if capacity <= len {
        capacity := len + 1;
      }
      var bigger := new T[capacity];
      var i := 0;
      while i < len
        invariant 0 <= i <= len && Valid() && data == old(data) && len == old(len) && off == old(off)
        invariant bigger[..i] == data[off..off + i]
        modifies bigger
      {
        bigger[i] := data[off + i];
        i := i + 1;
      }
      data, off := bigger, 0;
    }

    /** Writes in place where it can; readers of earlier copies are not in the frame. */
    method Append(x: T)
      requires Valid()
      modifies this, data
      ensures Valid() && (data == old(data) || fresh(data))
      ensures Contents() == Last(old(Contents()) + [x], max)
    {
      if off + len == data.Length {
        Grow();
      }
      ghost var before := Contents();
      data[off + len] := x;
      assert data[off..off + len] == before;
      assert data[off..off + len + 1] == before + [x];
      if len + 1 > max {
        off, len := off + (len + 1 - max), max;
      } else {
        len := len + 1;
      }
    }

    /** A private copy of the last `n` elements, as `make` and `copy` produce it. */
    method CopyLast(n: nat) returns (out: array<T>)
      requires Valid() && n <= len
      ensures fresh(out) && out[..] == Last(Contents(), n)
    {
      out := new T[n];
      var i, from := 0, off + len - n;
      while i < n
        invariant 0 <= i <= n
        invariant out[..i] == data[from..from + i]
        modifies out
      {
        out[i] := data[from + i];
        i := i + 1;
      }
    }
  }
}
