/**
 * The byte cursors the reader runs on: a view over a string (StringReadStream) and a
 * buffer filled once from a file (FileReadStream). Both move only forward, and past the
 * end `peek` and `next` yield NUL without moving.
 */
module ReadStreams {
  import opened Ascii

  class StringReadStream {
    /** The viewed text; a view never changes what it looks at. */
    const json: string
    /** Index of `iter_` in `json`. */
    var iter: nat

    ghost predicate Valid()
      reads this
    {
      iter <= |json|
    }

    constructor (json: string)
      ensures Valid()
      ensures this.json == json && iter == 0
    {
      this.json := json;
      iter := 0;
    }

    function HasNext(): (b: bool)
      reads this
      requires Valid()
      ensures b <==> iter < |json|
    {
      iter != |json|
    }

    function Peek(): (c: char)
      reads this
      requires Valid()
      ensures HasNext() ==> c == json[iter]
      ensures !HasNext() ==> c == '\0'
    {
      if HasNext() then json[iter] else '\0'
    }

    function GetIter(): (i: nat)
      reads this
      ensures i == iter
    {
      iter
    }

    method Next() returns (c: char)
      requires Valid()
      modifies `iter
      ensures Valid()
      ensures c == CharAt(json, old(iter))
      ensures iter == if old(iter) < |json| then old(iter) + 1 else old(iter)
    {
      if HasNext() {
        c := json[iter];
        iter := iter + 1;
      } else {
        c := '\0';
      }
    }

    method AssertNext(ch: char)
      requires Valid() && Peek() == ch
      modifies `iter
      ensures Valid()
      ensures iter == old(iter) + 1 || (ch == '\0' && iter == old(iter) == |json|)
    {
      var _ := Next();
    }
  }

  /** The index of the first empty read, or the number of reads when there is none. */
  function FirstEmpty(chunks: seq<string>): (k: nat)
    ensures k <= |chunks|
    ensures forall i :: 0 <= i < k ==> chunks[i] != []
    ensures k < |chunks| ==> chunks[k] == []
  {
    if chunks == [] || chunks[0] == [] then 0 else 1 + FirstEmpty(chunks[1..])
  }

  /** The chunks joined in order. */
  function Concat(chunks: seq<string>): string {
    if chunks == [] then [] else Concat(chunks[..|chunks| - 1]) + chunks[|chunks| - 1]
  }

  class FileReadStream {
    var buffer: string
    var iter: nat

    ghost predicate Valid()
      reads this
    {
      iter <= |buffer|
    }

    /**
     * Reads the whole input in chunks of at most 65536 bytes; `chunks` lists what the
     * successive `fread` calls return, and the loop stops at the first empty one.
     */
    constructor (chunks: seq<string>)
      requires forall i :: 0 <= i < |chunks| ==> |chunks[i]| <= 65536
      ensures Valid()
      ensures buffer == Concat(chunks[..FirstEmpty(chunks)]) && iter == 0
    {
      var acc: string := [];
      var k := 0;
      while k < |chunks| && chunks[k] != []
        invariant k <= FirstEmpty(chunks)
        invariant acc == Concat(chunks[..k])
      {
        assert chunks[..k + 1][..k] == chunks[..k];
        acc := acc + chunks[k];
        k := k + 1;
      }
      if k < |chunks| {
        assert k == FirstEmpty(chunks);
      }
      buffer := acc;
      iter := 0;
    }

    function HasNext(): (b: bool)
      reads this
      requires Valid()
      ensures b <==> iter < |buffer|
    {
      iter != |buffer|
    }

    function Peek(): (c: char)
      reads this
      requires Valid()
      ensures HasNext() ==> c == buffer[iter]
      ensures !HasNext() ==> c == '\0'
    {
      if HasNext() then buffer[iter] else '\0'
    }

    function GetIter(): (i: nat)
      reads this
      ensures i == iter
    {
      iter
    }

    method Next() returns (c: char)
      requires Valid()
      modifies `iter
      ensures Valid()
      ensures c == CharAt(buffer, old(iter))
      ensures iter == if old(iter) < |buffer| then old(iter) + 1 else old(iter)
    {
      if HasNext() {
        c := buffer[iter];
        iter := iter + 1;
      } else {
        c := '\0';
      }
    }

    method AssertNext(ch: char)
      requires Valid() && Peek() == ch
      modifies `iter
      ensures Valid()
      ensures iter == old(iter) + 1 || (ch == '\0' && iter == old(iter) == |buffer|)
    {
      var _ := Next();
    }
  }

}
