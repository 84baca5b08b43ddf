/**
 * The growable response buffer (`struct easyhttp_Buffer`): a byte count
 * `size` followed by storage of exactly `size + 1` characters whose last
 * one is the NUL terminator. Characters stand for the C `char` bytes.
 */
module Buffer {

  class ResponseBuffer {
    var data: array<char>
    var size: nat

    /** The storage holds exactly the body plus one terminating NUL. */
    ghost predicate Valid()
      reads this, data
    {
      data.Length == size + 1 && data[size] == '\0'
    }

    /** The body bytes, as `lua_pushlstring(buffer->data, buffer->size)` reads them. */
    function Contents(): (body: seq<char>)
      reads this, data
      requires Valid()
      ensures |body| == size
      ensures body + ['\0'] == data[..]
    {
      data[..size]
    }

    /** The zero-filled one-byte allocation made by `calloc`. */
    constructor Empty()
      ensures Valid() && fresh(data)
      ensures size == 0 && data[0] == '\0' && Contents() == []
    {
      data := new char[1](_ => '\0');
      size := 0;
    }

    /**
     * Reallocates the storage to exactly `size + |chunk| + 1` characters,
     * copies `chunk` after the old body and re-terminates. When the
     * reallocation fails (`allocOk` false) nothing changes and `false` is
     * returned, as `easyhttp_buffer_append` returns NULL and leaves the old
     * block alone.
     */
    method Append(chunk: seq<char>, allocOk: bool) returns (ok: bool)
      requires Valid()
      modifies this
      ensures Valid()
      ensures ok == allocOk
      ensures ok ==> fresh(data) && size == old(size) + |chunk|
      ensures ok ==> Contents() == old(Contents()) + chunk
      ensures !ok ==> data == old(data) && size == old(size)
    {
      if !allocOk {
        return false;
      }
      var src, n := data, size;
      var newSize := n + |chunk|;
      var grown := new char[newSize + 1];
      var i := 0;
      while i < n
        invariant 0 <= i <= n
        invariant forall j :: 0 <= j < i ==> grown[j] == src[j]
      {
        grown[i] := src[i];
        i := i + 1;
      }
      while i < newSize
        invariant n <= i <= newSize
        invariant forall j :: 0 <= j < n ==> grown[j] == src[j]
        invariant forall j :: n <= j < i ==> grown[j] == chunk[j - n]
      {
        grown[i] := chunk[i - n];
        i := i + 1;
      }
      grown[newSize] := '\0';
      assert grown[..newSize] == src[..n] + chunk;
      data, size := grown, newSize;
      ok := true;
    }
  }

  /** `easyhttp_buffer_create`: a fresh empty buffer, or NULL when `calloc` fails. */
  method Create(allocOk: bool) returns (b: ResponseBuffer?)
    ensures (b != null) == allocOk
    ensures b != null ==> fresh(b) && fresh(b.data) && b.Valid()
    ensures b != null ==> b.size == 0 && b.data[0] == '\0' && b.Contents() == []
  {
    if allocOk {
      b := new ResponseBuffer.Empty();
    } else {
      b := null;
    }
  }

  /**
   * `easyhttp_buffer_write`, the transport's byte sink: `size * nmemb`
   * bytes arrive. On success the same buffer is kept and the full count is
   * reported; when the reallocation fails the caller's pointer becomes NULL
   * (the old block is left as it was) and 0 is reported, which the
   * transport treats as a write error.
   */
  method Write(b: ResponseBuffer, size: nat, nmemb: nat, chunk: seq<char>, allocOk: bool)
      returns (kept: ResponseBuffer?, consumed: nat)
    requires b.Valid()
    requires |chunk| == size * nmemb
    modifies b
    ensures allocOk ==> kept == b && b.Valid() && consumed == size * nmemb
    ensures allocOk ==> b.Contents() == old(b.Contents()) + chunk
    ensures !allocOk ==> kept == null && consumed == 0
    ensures !allocOk ==> b.data == old(b.data) && b.size == old(b.size)
  {
    var ok := b.Append(chunk, allocOk);
    if !ok {
      return null, 0;
    }
    return b, size * nmemb;
  }
}
