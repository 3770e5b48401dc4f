// write_callback: the body sink handed to the HTTP transport. Each chunk is
// appended to a fixed buffer of MAX_SIZE_RESPONSE_JSON characters, kept
// NUL-terminated, when it fits; a chunk that does not fit is dropped.

module Accumulator {
  import opened CStrings

  /** Capacity of the body buffer, terminator included. */
  const MAX_SIZE_RESPONSE_JSON: nat := 1024

  /** The rule write_callback applies to one chunk against the text stored so far. */
  function AppendChunk(stored: seq<char>, chunk: seq<char>): (r: seq<char>)
    ensures stored <= r && (r == stored || r == stored + chunk)
    ensures |stored| + |chunk| < MAX_SIZE_RESPONSE_JSON ==> r == stored + chunk
    ensures |stored| + |chunk| >= MAX_SIZE_RESPONSE_JSON ==> r == stored
    ensures |stored| < MAX_SIZE_RESPONSE_JSON ==> |r| < MAX_SIZE_RESPONSE_JSON
  {
    if |stored| + |chunk| < MAX_SIZE_RESPONSE_JSON then stored + chunk else stored
  }

  /** The text the buffer holds after a sequence of chunks, starting empty. */
  function Accumulate(chunks: seq<seq<char>>): (r: seq<char>)
    ensures |r| < MAX_SIZE_RESPONSE_JSON
  {
    if chunks == [] then []
    else AppendChunk(Accumulate(chunks[..|chunks| - 1]), chunks[|chunks| - 1])
  }

  /**
   * A dropped chunk does not close the buffer: a later chunk that still fits
   * after the drop is appended right after the text stored before it.
   */
  lemma AppendAfterDrop(a: seq<char>, b: seq<char>, c: seq<char>)
    requires |a| < MAX_SIZE_RESPONSE_JSON
    requires |a| + |b| >= MAX_SIZE_RESPONSE_JSON
    requires |a| + |c| < MAX_SIZE_RESPONSE_JSON
    ensures Accumulate([a, b, c]) == a + c
  {
    assert [a, b, c][..2] == [a, b];
    assert [a, b][..1] == [a];
    assert [a][..0] == [];
    assert Accumulate([a]) == a;
  }

  /** All the chunks, one after the other. */
  function Concat(chunks: seq<seq<char>>): seq<char>
  {
    if chunks == [] then [] else Concat(chunks[..|chunks| - 1]) + chunks[|chunks| - 1]
  }

  /** Text stored earlier is never altered by later chunks, dropped or not. */
  lemma {:induction false} AccumulateExtends(chunks: seq<seq<char>>, n: nat)
    requires n <= |chunks|
    ensures Accumulate(chunks[..n]) <= Accumulate(chunks)
  {
    if n < |chunks| {
      var init := chunks[..|chunks| - 1];
      assert chunks[..n] == init[..n];
      AccumulateExtends(init, n);
    } else {
      assert chunks[..n] == chunks;
    }
  }

  /** When the whole body fits, no chunk is dropped. */
  lemma {:induction false} AccumulateWhenAllFit(chunks: seq<seq<char>>)
    requires |Concat(chunks)| < MAX_SIZE_RESPONSE_JSON
    ensures Accumulate(chunks) == Concat(chunks)
  {
    if chunks != [] {
      var init := chunks[..|chunks| - 1];
      AccumulateWhenAllFit(init);
    }
  }

  /** The stored text is made of characters of the chunks, so a NUL-free body stays NUL-free. */
  lemma {:induction false} AccumulateNulFree(chunks: seq<seq<char>>)
    requires forall k :: 0 <= k < |chunks| ==> NulFree(chunks[k])
    ensures NulFree(Accumulate(chunks))
  {
    if chunks != [] {
      var init := chunks[..|chunks| - 1];
      AccumulateNulFree(init);
    }
  }

  /**
   * The buffer passed as the transport's write data. Its text is the C
   * string it holds, so its current size is what `strlen` reports.
   */
  class ResponseBuffer {
    const data: array<char>

    ghost predicate Valid()
      reads this, data
    {
      data.Length == MAX_SIZE_RESPONSE_JSON && StrLen(data[..]) < MAX_SIZE_RESPONSE_JSON
    }

    /** The text stored so far. */
    function Contents(): (t: seq<char>)
      reads this, data
      requires Valid()
      ensures |t| < MAX_SIZE_RESPONSE_JSON
    {
      CString(data[..])
    }

    /** A buffer that starts empty. */
    constructor ()
      ensures Valid() && fresh(data)
      ensures Contents() == []
    {
      data := new char[MAX_SIZE_RESPONSE_JSON](_ => NUL);
    }

    /**
     * Receives `size * nmemb` characters. They are appended, and the
     * terminator moved past them, only when the current size plus the
     * chunk stays below the capacity; otherwise the buffer is left as it
     * was. Either way the whole chunk is reported as consumed.
     */
    method WriteCallback(ptr: seq<char>, size: nat, nmemb: nat) returns (consumed: nat)
      requires Valid()
      requires |ptr| == size * nmemb
      requires NulFree(ptr)
      modifies data
      ensures Valid()
      ensures consumed == size * nmemb
      ensures Contents() == AppendChunk(old(Contents()), ptr)
    {
      var received := size * nmemb;
      if received > 0 {
        var currentSize := StrLen(data[..]);
        if currentSize + received < MAX_SIZE_RESPONSE_JSON {
          forall i | 0 <= i < received {
            data[currentSize + i] := ptr[i];
          }
          data[currentSize + received] := NUL;
          assert data[..][..currentSize + received] == old(Contents()) + ptr;
          StrLenOfTerminated(data[..], currentSize + received);
        }
      }
      consumed := received;
    }
  }
}
