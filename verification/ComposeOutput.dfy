/** The bounded tail kept of a compose command's output (internal/server/compose_output.go). */
module ComposeOutput {
  import opened Bytes

  const LIMIT := 65_536

  /** The last `n` bytes of `s`, or all of it. */
  function Last(s: Bytes, n: nat): (r: Bytes)
    ensures |r| == if |s| <= n then |s| else n
    ensures forall i :: 0 <= i < |r| ==> r[i] == s[|s| - |r| + i]
  {
    if |s| <= n then s else s[|s| - n..]
  }

  lemma ConcatNext(start: Bytes, writes: seq<Bytes>, i: nat)
    requires i < |writes|
    ensures start + Concat(writes[..i]) + writes[i] == start + Concat(writes[..i + 1])
  {
    assert writes[..i + 1] == writes[..i] + [writes[i]];
    ConcatAppend(writes[..i], writes[i]);
  }

  class ComposeOutput {
    var data: Bytes
    var truncated: bool
    /** Everything ever written. */
    ghost var written: Bytes

    ghost predicate Valid()
      reads this
    {
      data == Last(written, LIMIT) && (truncated <==> |written| > LIMIT)
    }

    constructor ()
      ensures Valid() && written == []
    {
      data, truncated, written := [], false, [];
    }

    method Write(p: Bytes) returns (n: nat)
      requires Valid()
      modifies this
      ensures Valid()
      ensures written == old(written) + p && n == |p|
    {
      written := written + p;
      n := |p|;
      if |data| + n > LIMIT {
        truncated := true;
        if n >= LIMIT {
          data := p[n - LIMIT..];
          return n;
        }
        data := data[|data| + n - LIMIT..];
      }
      data := data + p;
    }

    /** Any sequence of writes leaves the last 64 KiB of all of them. */
    method WriteAll(writes: seq<Bytes>)
      requires Valid()
      modifies this
      ensures Valid()
      ensures data == Last(old(written) + Concat(writes), LIMIT)
      ensures truncated <==> |old(written) + Concat(writes)| > LIMIT
    {
      for i := 0 to |writes|
        invariant Valid()
        invariant written == old(written) + Concat(writes[..i])
      {
        ConcatNext(old(written), writes, i);
        var _ := Write(writes[i]);
      }
      assert writes[..|writes|] == writes;
    }
  }
}
