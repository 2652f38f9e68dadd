/** The growing string buffer. */
module Printbuf {
  import opened Common

  class Printbuf {
    var buf: array<char>
    var bpos: int
    var size: int

    /** The text lies inside the allocation, with room for the terminator. */
    ghost predicate Valid()
      reads this, buf
    {
      0 <= bpos < size == buf.Length
    }

    /** What was appended since the last reset. */
    ghost function Text(): string
      requires Valid()
      reads this, buf
    {
      buf[..bpos]
    }

    /** The text is a C string. */
    ghost predicate Terminated()
      requires Valid()
      reads this, buf
    {
      buf[bpos] == NUL
    }

    /** `printbuf_new`: the 32 bytes are not initialized. */
    constructor ()
      ensures Valid() && Text() == "" && fresh(buf)
    {
      size := 32;
      bpos := 0;
      buf := new char[32];
    }

    /** `printbuf_reset`. */
    method Reset()
      requires Valid()
      modifies this, buf
      ensures Valid() && Text() == "" && Terminated()
      ensures buf == old(buf) && size == old(size)
    {
      buf[0] := NUL;
      bpos := 0;
    }

    /** `memcpy` to the write position, and the new terminator. */
    method CopyIn(s: string)
      requires Valid() && bpos + |s| < size
      modifies this, buf
      ensures Valid() && Text() == old(Text()) + s && Terminated()
      ensures buf == old(buf) && size == old(size)
    {
      var i := 0;
      while i < |s|
        invariant 0 <= i <= |s| && bpos == old(bpos) && size == old(size) && buf == old(buf)
        invariant buf[..bpos] == old(buf[..bpos]) && buf[bpos..bpos + i] == s[..i]
      {
        buf[bpos + i] := s[i];
        i := i + 1;
      }
      bpos := bpos + |s|;
      buf[bpos] := NUL;
    }

    /** `realloc` to newSize bytes. */
    method Grow(newSize: int)
      requires Valid() && size <= newSize
      modifies this
      ensures Valid() && Text() == old(Text()) && size == newSize && bpos == old(bpos) && fresh(buf)
    {
      var t := new char[newSize];
      var i := 0;
      while i < bpos
        invariant unchanged(this) && unchanged(buf)
        invariant 0 <= i <= bpos && t[..i] == buf[..i]
      {
        t[i] := buf[i];
        i := i + 1;
      }
      size := newSize;
      buf := t;
    }

    /** `printbuf_memappend`: grow when the text and its terminator do not fit, then copy. */
    method MemAppend(s: string)
      requires Valid()
      modifies this, buf
      ensures Valid() && Text() == old(Text()) + s && Terminated()
      ensures buf == old(buf) || fresh(buf)
      ensures size == if old(size) - old(bpos) <= |s| then Max(2 * old(size), old(bpos) + |s| + 8) else old(size)
    {
      if size - bpos <= |s| {
        Grow(Max(size * 2, bpos + |s| + 8));
      }
      CopyIn(s);
    }

    /** `printbuf_memappend_fast`: the same effect, without a call when the text fits. */
    method MemAppendFast(s: string)
      requires Valid()
      modifies this, buf
      ensures Valid() && Text() == old(Text()) + s && Terminated()
      ensures buf == old(buf) || fresh(buf)
      ensures size == if old(size) - old(bpos) <= |s| then Max(2 * old(size), old(bpos) + |s| + 8) else old(size)
    {
      if size - bpos > |s| {
        CopyIn(s);
      } else {
        MemAppend(s);
      }
    }
  }
}
