/** The bounded launcher log drain: however the output is cut into chunks, what is retained
    is the end of the whole stream. */
module LogDrain {
  import opened Counting

  const MAX_LOG_BYTES: nat := 8 * 1024 * 1024

  type Byte = x: int | 0 <= x < 256

  /** One read of the pipe: bytes, none of them at the end of the stream, or a failure. */
  datatype Read = Data(bytes: seq<Byte>) | Failed

  function Concat(chunks: seq<seq<Byte>>): seq<Byte> {
    if chunks == [] then [] else chunks[0] + Concat(chunks[1..])
  }

  /** The last n elements, or everything there is. */
  function Last<T>(s: seq<T>, n: nat): seq<T> {
    if |s| <= n then s else s[|s| - n..]
  }

  /** Every byte that arrives before the first empty or failed read. */
  function Stream(inputs: seq<Read>): seq<Byte> {
    if inputs == [] || inputs[0].Failed? || inputs[0].bytes == [] then [] else inputs[0].bytes + Stream(inputs[1..])
  }

  predicate Breaks(inputs: seq<Read>) {
    inputs != [] && (inputs[0].Failed? || (inputs[0].bytes != [] && Breaks(inputs[1..])))
  }

  /** The bytes of each of these reads, which are not empty. */
  ghost predicate AllData(inputs: seq<Read>, chunks: seq<seq<Byte>>) {
    |chunks| == |inputs| && forall i :: 0 <= i < |inputs| ==> inputs[i] == Data(chunks[i]) && chunks[i] != []
  }

  /** The stream is the data of the first reads, up to one that is empty or fails. */
  lemma {:induction false} StreamMeans(inputs: seq<Read>) returns (chunks: seq<seq<Byte>>)
    ensures |chunks| <= |inputs| && AllData(inputs[..|chunks|], chunks) && Stream(inputs) == Concat(chunks)
    ensures |chunks| < |inputs| ==> inputs[|chunks|] == Failed || inputs[|chunks|] == Data([])
    ensures Breaks(inputs) <==> |chunks| < |inputs| && inputs[|chunks|] == Failed
  {
    chunks := [];
    if inputs != [] && inputs[0].Data? && inputs[0].bytes != [] {
      var rest := StreamMeans(inputs[1..]);
      chunks := [inputs[0].bytes] + rest;
      assert chunks[1..] == rest;
      assert forall i :: 1 <= i < |chunks| ==> inputs[i] == inputs[1..][..|rest|][i - 1];
    }
  }

  lemma {:induction false} ConcatAppend(chunks: seq<seq<Byte>>, chunk: seq<Byte>)
    ensures Concat(chunks + [chunk]) == Concat(chunks) + chunk
  {
    if chunks == [] {
      assert Concat([chunk]) == chunk + Concat([]);
    } else {
      ConcatAppend(chunks[1..], chunk);
      assert (chunks + [chunk])[1..] == chunks[1..] + [chunk];
    }
  }

  class BoundedDrain {
    var chunks: seq<seq<Byte>>
    var retained: nat
    var total: nat
    var error: bool
    ghost var received: seq<Byte>

    ghost predicate Valid()
      reads this
    {
      && Concat(chunks) == Last(received, MAX_LOG_BYTES)
      && retained == |Concat(chunks)|
      && total == |received|
    }

    constructor ()
      ensures Valid() && received == [] && !error
    {
      chunks, retained, total, error, received := [], 0, 0, false, [];
    }

    /** Drops bytes from the front until the bound holds again. */
    method Shrink()
      requires retained == |Concat(chunks)|
      modifies this`chunks, this`retained
      ensures Concat(chunks) == Last(old(Concat(chunks)), MAX_LOG_BYTES) && retained == |Concat(chunks)|
    {
      while retained > MAX_LOG_BYTES
        invariant retained == |Concat(chunks)|
        invariant Last(Concat(chunks), MAX_LOG_BYTES) == Last(old(Concat(chunks)), MAX_LOG_BYTES)
        decreases retained + |chunks|
      {
        var excess := retained - MAX_LOG_BYTES;
        var head := chunks[0];
        if |head| <= excess {
          assert Concat(chunks)[|head|..] == Concat(chunks[1..]);
          chunks := chunks[1..];
          retained := retained - |head|;
        } else {
          assert chunks[0 := head[excess..]][1..] == chunks[1..];
          assert Concat(chunks)[excess..] == head[excess..] + Concat(chunks[1..]);
          chunks := chunks[0 := head[excess..]];
          retained := retained - excess;
        }
      }
    }

    /** One chunk: what is retained is again exactly the end of everything received. */
    method Take(chunk: seq<Byte>)
      requires Valid()
      modifies this
      ensures Valid() && received == old(received) + chunk && error == old(error)
    {
      total := total + |chunk|;
      ConcatAppend(chunks, chunk);
      chunks := chunks + [chunk];
      retained := retained + |chunk|;
      Shrink();
      received := received + chunk;
    }

    method Drain(inputs: seq<Read>)
      requires Valid()
      modifies this
      ensures Valid() && received == old(received) + Stream(inputs) && error == (old(error) || Breaks(inputs))
    {
      for i := 0 to |inputs|
        invariant Valid() && received + Stream(inputs[i..]) == old(received) + Stream(inputs)
        invariant (error || Breaks(inputs[i..])) == (old(error) || Breaks(inputs))
      {
        assert inputs[i..][0] == inputs[i] && inputs[i..][1..] == inputs[i + 1..];
        if inputs[i].Failed? {
          error := true;
          return;
        }
        if inputs[i].bytes == [] {
          return;
        }
        Take(inputs[i].bytes);
      }
    }

    /** The retained tail and the size of the whole stream, unless the drain has not settled
        in time or a read failed. */
    method Finish(settled: bool) returns (result: Option<(seq<Byte>, nat)>)
      requires Valid()
      ensures result == if !settled || error then None else Some((Last(received, MAX_LOG_BYTES), |received|))
    {
      if !settled {
        return None;
      }
      if error {
        return None;
      }
      return Some((Concat(chunks), total));
    }
  }

  /** A whole drain, from a fresh object: any two ways of cutting the same stream agree. */
  method DrainAll(inputs: seq<Read>, settled: bool) returns (result: Option<(seq<Byte>, nat)>)
    ensures result == if !settled || Breaks(inputs) then None
            else Some((Last(Stream(inputs), 8 * 1024 * 1024), |Stream(inputs)|))
  {
    var drain := new BoundedDrain();
    drain.Drain(inputs);
    assert [] + Stream(inputs) == Stream(inputs);
    result := drain.Finish(settled);
  }
}
