/** `IOStreamWrapper` on its `php://input` branch: a read cursor over the request body. */
module InputStream {
  import opened PhpValues

  function Min(a: int, b: int): int {
    if a <= b then a else b
  }

  /** `substr(s, start, count)` for 0 <= start <= |s| and count >= 0. */
  function Substr(s: string, start: nat, count: nat): (r: string)
    requires start <= |s|
    ensures |r| == Min(count, |s| - start)
    ensures r == s[start..start + |r|]
  {
    s[start..Min(start + count, |s|)]
  }

  class IOStreamWrapper {
    var position: int
    var input: string
    /** Everything the reads since the last open or rewind returned, in order. */
    ghost var delivered: string

    ghost predicate Valid()
      reads this
    {
      0 <= position <= |input| && delivered == input[..position]
    }

    /** The property defaults: position 0 over an empty body. */
    constructor ()
      ensures Valid() && position == 0 && input == "" && delivered == ""
    {
      position := 0;
      input := "";
      delivered := "";
    }

    /** `stream_open("php://input", ...)`: loads the request body and starts reading at 0. */
    method StreamOpenInput(body: string) returns (ok: bool)
      modifies this
      ensures Valid() && ok
      ensures input == body && position == 0 && delivered == ""
    {
      input := body;
      position := 0;
      delivered := "";
      ok := true;
    }

    /** `stream_read(count)`: the next at most count bytes; the cursor moves past them. */
    method StreamRead(count: nat) returns (data: string)
      requires Valid()
      modifies this
      ensures Valid() && input == old(input)
      ensures data == input[old(position)..Min(old(position) + count, |input|)]
      ensures position == old(position) + |data|
      ensures delivered == old(delivered) + data
    {
      data := Substr(input, position, count);
      position := position + |data|;
      delivered := delivered + data;
      assert delivered == input[..position];
    }

    /** `stream_eof`: true exactly at the end, and then the reads so far gave the whole body. */
    method StreamEof() returns (eof: bool)
      requires Valid()
      ensures eof <==> position >= |input|
      ensures eof ==> delivered == input
    {
      eof := position >= |input|;
    }

    /** `stream_tell`: the cursor. */
    method StreamTell() returns (pos: int)
      requires Valid()
      ensures pos == position && 0 <= pos <= |input|
    {
      pos := position;
    }

    /** `stream_rewind`: back to 0 over the same body. */
    method StreamRewind()
      requires Valid()
      modifies this
      ensures Valid() && position == 0 && input == old(input) && delivered == ""
    {
      position := 0;
      delivered := "";
    }

    /** `stream_write`: not applicable to the request body. */
    method StreamWrite(data: string) returns (r: bool)
      ensures !r
    {
      r := false;
    }

    /** `stream_seek`: not applicable to the request body. */
    method StreamSeek(offset: int, whence: int) returns (r: bool)
      ensures !r
    {
      r := false;
    }

    /** `stream_truncate`: not applicable to the request body. */
    method StreamTruncate(newSize: int) returns (r: bool)
      ensures !r
    {
      r := false;
    }

    /** `stream_flush`: not applicable to the request body. */
    method StreamFlush() returns (r: bool)
      ensures !r
    {
      r := false;
    }

    /** `stream_lock`: not applicable to the request body. */
    method StreamLock(operation: int) returns (r: bool)
      ensures !r
    {
      r := false;
    }

    /** `stream_stat`: an empty array. */
    method StreamStat() returns (r: Value)
      ensures r == Arr([])
    {
      r := Arr([]);
    }

    /** `stream_url_stat`: not applicable to the request body. */
    method StreamUrlStat(path: string, flags: int) returns (r: bool)
      ensures !r
    {
      r := false;
    }

    /** `stream_unlink`: not applicable to the request body. */
    method StreamUnlink(path: string) returns (r: bool)
      ensures !r
    {
      r := false;
    }
  }
}
