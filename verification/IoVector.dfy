/** The scatter/gather vector of an aio. */
module IoVector {

  const MAX_IOV := 8

  /** A stretch of memory: its first address and its length. */
  datatype Iov = Iov(buf: nat, len: nat)

  /** The addresses of a stretch, and of a vector of stretches, in order. */
  function Addresses(v: Iov): (a: seq<nat>)
    ensures |a| == v.len
  {
    seq(v.len, k requires 0 <= k => v.buf + k)
  }

  function Stream(vs: seq<Iov>): seq<nat> {
    if vs == [] then [] else Addresses(vs[0]) + Stream(vs[1..])
  }

  class Aio {
    var nio: nat
    const iov: array<Iov>

    constructor ()
      ensures iov.Length == MAX_IOV && nio == 0 && fresh(iov)
    {
      iov := new Iov[MAX_IOV](_ => Iov(0, 0));
      nio := 0;
    }

    /** Moves the entries behind the first one forward. */
    method Shift()
      requires 0 < nio <= iov.Length
      modifies this`nio, iov
      ensures nio == old(nio) - 1 && iov[..nio] == old(iov[1..nio])
    {
      nio := nio - 1;
      for i := 0 to nio
        invariant nio == old(nio) - 1
        invariant iov[..i] == old(iov[1..i + 1])
        invariant iov[i..] == old(iov[i..])
      {
        assert iov[i + 1] == iov[i..][1];
        iov[i] := iov[i + 1];
      }
    }

    /** `nni_aio_iov_advance`.  The vector must hold at least n bytes. */
    method Advance(n: nat) returns (residual: nat)
      requires nio <= iov.Length && n <= |Stream(iov[..nio])|
      modifies this`nio, iov
      ensures residual == 0
      ensures nio <= old(nio)
      ensures Stream(iov[..nio]) == old(Stream(iov[..nio]))[n..]
    {
      residual := n;
      var left := n;
      while left > 0
        invariant left == residual <= n && nio <= old(nio)
        invariant left <= |Stream(iov[..nio])|
        invariant Stream(iov[..nio])[left..] == old(Stream(iov[..nio]))[n..]
        decreases nio, left
      {
        assert nio != 0;
        var v := iov[0];
        ghost var vs := iov[..nio];
        if v.len > left {
          iov[0] := Iov(v.buf + left, v.len - left);
          assert iov[..nio] == vs[0 := iov[0]];
          return 0;
        }
        residual := residual - v.len;
        left := left - v.len;
        Shift();
        assert iov[..nio] == vs[1..];
      }
    }
  }
}
