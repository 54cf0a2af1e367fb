/**
 Whole runs of inflate: every way of cutting the input and the output space into calls
 gives the same result, and a caller that keeps feeding it, as gzread does
 (src/cmd/INIT/ratz.c:4034-4082), gets exactly the decoding of the stream.
 */
module Driver {
  import opened Bits
  import opened Deflate
  import opened Inflate

  /** One call: how much input it is offered, how much room it has, how it flushes. */
  datatype Piece = Piece(give: nat, room: nat, flush: Flush)

  /** The next n bytes of the stream, or what is left of it. */
  function Slice(stream: seq<byte>, fed: nat, n: nat): (r: seq<byte>)
    requires fed <= |stream|
    ensures fed + |r| <= |stream| && r == stream[fed..fed + |r|] && |r| <= n
    ensures r == [] && n > 0 ==> fed == |stream|
  {
    if fed + n <= |stream| then stream[fed..fed + n] else stream[fed..]
  }

  /** Any schedule of calls, whatever they return. */
  method DecodeInPieces(stream: seq<byte>, plan: seq<Piece>) returns (out: seq<byte>, used: nat, ret: Status)
    ensures used <= |stream| && out <= Decode(stream).out
    ensures ret == STREAM_END ==> Decode(stream) == Done(out, used)
    ensures ret == DATA_ERROR ==> Decode(stream) == Bad(out)
  {
    hide Blocks, Inflater.Ready;
    var z := new Inflater(stream);
    z.Answers();
    out, used, ret := [], 0, OK;
    var i := 0;
    while i < |plan|
      invariant 0 <= i <= |plan| && fresh(z) && fresh(z.window) && fresh(z.codes) && fresh(z.work)
      invariant z.Ready() && z.stream == stream && out == z.before && used == z.fed
      invariant out <= Decode(stream).out && used <= |stream|
      invariant ret == STREAM_END ==> Decode(stream) == Done(out, used)
      invariant ret == DATA_ERROR ==> Decode(stream) == Bad(out)
    {
      var dst := new byte[plan[i].room];
      ret := z.Inflate(Slice(stream, used, plan[i].give), dst, 0, plan[i].room, plan[i].flush);
      out := out + dst[0..z.put];
      used := used + z.next;
      i := i + 1;
    }
  }

  /** A caller with buffers of any size that goes on as long as inflate returns OK. */
  method DecodeAll(stream: seq<byte>, inSize: nat, outSize: nat) returns (r: Outcome)
    requires inSize > 0 && outSize > 0
    ensures r == Decode(stream)
  {
    hide Blocks, Inflater.Ready;
    var z := new Inflater(stream);
    z.Answers();
    var out, used, ret := [], 0, OK;
    var dst := new byte[outSize];
    while ret == OK
      invariant fresh(z) && fresh(z.window) && fresh(z.codes) && fresh(z.work) && fresh(dst) && dst != z.window
      invariant dst.Length == outSize
      invariant z.Ready() && z.stream == stream && out == z.before && used == z.fed <= |stream|
      invariant out <= Decode(stream).out
      invariant ret == STREAM_END ==> Decode(stream) == Done(out, used)
      invariant ret == DATA_ERROR ==> Decode(stream) == Bad(out)
      invariant ret == BUF_ERROR ==> Decode(stream) == Short(out)
      decreases |stream| - used + |Decode(stream).out| - |out|, ret == OK
    {
      ret := z.Inflate(Slice(stream, used, inSize), dst, 0, outSize, NO_FLUSH);
      out := out + dst[0..z.put];
      used := used + z.next;
    }
    r := if ret == STREAM_END then Done(out, used) else if ret == DATA_ERROR then Bad(out) else Short(out);
  }
}
