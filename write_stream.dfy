/** The growable byte sink the writer emits into (StringWriteStream). */
module WriteStream {

  class StringWriteStream {
    /** Every byte put so far, in order. */
    var buffer: string

    constructor ()
      ensures buffer == []
    {
      buffer := [];
    }

    method PutChar(c: char)
      modifies this
      ensures buffer == old(buffer) + [c]
    {
      buffer := buffer + [c];
    }

    method PutStr(s: string)
      modifies this
      ensures buffer == old(buffer) + s
    {
      buffer := buffer + s;
    }

    /** `get` dereferences the first byte, so the buffer must not be empty. */
    function Get(): (r: string)
      reads this
      requires buffer != []
      ensures r == buffer && |r| > 0
    {
      buffer
    }
  }
}
