/** Captured tool output that keeps only its first bytes (cmd/dirextalk-builtin-mcp/main.go, boundedOutput). */
module BoundedOutput {
  import opened Common

  const LIMIT := 0x1_0000   // 64 KiB

  function Kept(all: seq<Byte>): (r: seq<Byte>)
    ensures r <= all && |r| == if |all| < 0x1_0000 then |all| else 0x1_0000
  {
    if |all| <= LIMIT then all else all[..LIMIT]
  }

  class Output {
    var buffer: seq<Byte>
    var truncated: bool
    ghost var all: seq<Byte>   // everything ever written

    constructor ()
      ensures Valid() && all == []
    {
      buffer, truncated, all := [], false, [];
    }

    /** The buffer holds the first bytes of everything written, and the flag says whether anything is missing. */
    ghost predicate Valid()
      reads this
    {
      buffer == Kept(all) && (truncated <==> |all| > LIMIT)
    }

    method Write(p: seq<Byte>) returns (n: nat)
      requires Valid()
      modifies this
      ensures Valid() && all == old(all) + p && n == |p|
    {
      n := |p|;
      var remaining := LIMIT - |buffer|;
      if |p| > remaining {
        truncated := true;
      }
      if remaining > 0 {
        buffer := buffer + if |p| > remaining then p[..remaining] else p;
      }
      all := all + p;
    }
  }

  function Concat(writes: seq<seq<Byte>>): seq<Byte> {
    if writes == [] then [] else Concat(writes[..|writes| - 1]) + writes[|writes| - 1]
  }

  /** After any sequence of writes. */
  method WriteAll(writes: seq<seq<Byte>>) returns (buffer: seq<Byte>, truncated: bool)
    ensures buffer == Kept(Concat(writes)) && (truncated <==> |Concat(writes)| > LIMIT)
  {
    var out := new Output();
    for i := 0 to |writes|
      invariant out.Valid() && out.all == Concat(writes[..i])
    {
      assert writes[..i + 1][..i] == writes[..i];
      var _ := out.Write(writes[i]);
    }
    assert writes[..|writes|] == writes;
    return out.buffer, out.truncated;
  }
}
