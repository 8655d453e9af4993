/** A TCP socket as the client sees it.

    What the peer will deliver before it closes (or fails) is a fixed byte string; how reads
    cut that string up is arbitrary. Any run of short reads ends at some set of positions, so a
    socket carries the set of positions at which a read stops early. Reads that time out are
    counted per position in the same way. */
module Net {
  import opened Bytes

  datatype Read = Got(bytes: seq<byte>) | Eof | Timeout

  /** Where a read of at most `n` bytes that starts at `p` stops. */
  function ReadStop(d: seq<byte>, cuts: set<nat>, p: nat, n: nat): (e: nat)
    requires p <= |d|
    ensures p <= e <= |d| && e <= p + n
    ensures n > 0 && p < |d| ==> p < e
    decreases n
  {
    if n == 0 || p == |d| then p
    else if n == 1 || p + 1 in cuts then p + 1
    else ReadStop(d, cuts, p + 1, n - 1)
  }

  class Socket {
    const data: seq<byte>
    const cuts: set<nat>
    const stalls: map<nat, nat>
    const writable: bool
    var pos: nat
    var waited: nat
    var written: seq<byte>

    ghost predicate Valid()
      reads this
    {
      pos <= |data|
    }

    /** No read timeout is set on the socket. */
    ghost predicate Patient() {
      stalls == map[]
    }

    constructor (data: seq<byte>, cuts: set<nat>, stalls: map<nat, nat>, writable: bool)
      ensures Valid() && pos == 0 && waited == 0 && written == []
      ensures this.data == data && this.cuts == cuts && this.stalls == stalls && this.writable == writable
    {
      this.data, this.cuts, this.stalls, this.writable := data, cuts, stalls, writable;
      pos, waited, written := 0, 0, [];
    }

    method ReadSome(n: nat) returns (r: Read)
      requires Valid() && n > 0
      modifies this
      ensures Valid() && written == old(written)
      ensures r.Timeout? <==> old(pos) in stalls && old(waited) < stalls[old(pos)]
      ensures r.Timeout? ==> pos == old(pos) && waited == old(waited) + 1
      ensures !r.Timeout? ==> pos == ReadStop(data, cuts, old(pos), n) && waited == 0
      ensures r.Eof? ==> old(pos) == |data|
      ensures r.Got? ==> r.bytes == data[old(pos)..pos] && |r.bytes| > 0
    {
      if pos in stalls && waited < stalls[pos] {
        waited := waited + 1;
        return Timeout;
      }
      waited := 0;
      if pos == |data| { return Eof; }
      var e := ReadStop(data, cuts, pos, n);
      r := Got(data[pos..e]);
      pos := e;
    }

    /** All bytes, or none of them reported as written. */
    method WriteAll(b: seq<byte>) returns (ok: bool)
      modifies this
      ensures pos == old(pos) && waited == old(waited)
      ensures ok == writable
      ensures written == if ok then old(written) + b else old(written)
    {
      if writable { written := written + b; }
      return writable;
    }
  }
}
