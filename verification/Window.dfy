/**
 The sliding window of inflate (src/cmd/INIT/ratz.c:2542-2590): a circular buffer that
 holds the most recent output.
 */
module Window {
  import opened Bits

  const WSIZE: nat := 32768

  /** Where the byte d places back from the write index is. */
  function Slot(write: nat, d: nat): int {
    if d <= write then write - d else WSIZE + write - d
  }

  /** The window holds exactly the last min(|hist|, WSIZE) bytes of hist. */
  ghost predicate Holds(window: seq<byte>, whave: nat, write: nat, hist: seq<byte>) {
    && |window| == WSIZE && write < WSIZE
    && whave == (if |hist| < WSIZE then |hist| else WSIZE)
    && (whave < WSIZE ==> write == whave)
    && forall d :: 1 <= d <= whave ==> window[Slot(write, d)] == hist[|hist| - d]
  }

  /** A window that is first put to use is empty. */
  lemma HoldsNothing(window: seq<byte>)
    requires |window| == WSIZE
    ensures Holds(window, 0, 0, [])
  {
  }

  /** Replacing the whole window by the last WSIZE bytes written. */
  lemma HoldsAll(window: seq<byte>, hist: seq<byte>)
    requires |window| == WSIZE <= |hist| && window == hist[|hist| - WSIZE..]
    ensures Holds(window, WSIZE, 0, hist)
  {
    forall d | 1 <= d <= WSIZE
      ensures window[Slot(0, d)] == hist[|hist| - d]
    {
      assert window[WSIZE - d] == hist[|hist| - WSIZE..][WSIZE - d];
    }
  }

  /** Writing new bytes up to the end of the window at most. */
  lemma HoldsMore(window: seq<byte>, window': seq<byte>, whave: nat, write: nat, hist: seq<byte>, add: seq<byte>)
    requires Holds(window, whave, write, hist) && write + |add| <= WSIZE
    requires window' == window[..write] + add + window[write + |add|..]
    ensures Holds(window', if |hist| + |add| < WSIZE then |hist| + |add| else WSIZE,
                  if write + |add| == WSIZE then 0 else write + |add|, hist + add)
  {
    var hist' := hist + add;
    var whave' := if |hist'| < WSIZE then |hist'| else WSIZE;
    var write' := if write + |add| == WSIZE then 0 else write + |add|;
    forall d | 1 <= d <= whave'
      ensures window'[Slot(write', d)] == hist'[|hist'| - d]
    {
      if d <= |add| {
        assert Slot(write', d) == write + |add| - d;
      } else {
        var e := d - |add|;
        assert hist'[|hist'| - d] == hist[|hist| - e];
        assert Slot(write', d) == Slot(write, e);
      }
    }
  }

  /** The state after writing new output shorter than the window: either it fits before the
      end of the window, or its last rest bytes wrap around to the start. */
  lemma HoldsWrapped(window: seq<byte>, mid: seq<byte>, window': seq<byte>, whave: nat, write: nat,
                     hist: seq<byte>, first: seq<byte>, rest: seq<byte>)
    requires Holds(window, whave, write, hist) && write + |first| == WSIZE && 0 < |rest| && |first| + |rest| < WSIZE
    requires mid == window[..write] + first + window[write + |first|..]
    requires window' == mid[..0] + rest + mid[0 + |rest|..]
    ensures Holds(window', WSIZE, |rest|, hist + (first + rest))
  {
    hide Holds;
    HoldsMore(window, mid, whave, write, hist, first);
    HoldsFacts(window, whave, write, hist);
    HoldsLarge(whave, write, hist, first);
    HoldsMore(mid, window', WSIZE, 0, hist + first, rest);
    assert hist + first + rest == hist + (first + rest);
  }

  lemma HoldsFacts(window: seq<byte>, whave: nat, write: nat, hist: seq<byte>)
    requires Holds(window, whave, write, hist)
    ensures |window| == WSIZE && write < WSIZE
    ensures whave == (if |hist| < WSIZE then |hist| else WSIZE) && (whave < WSIZE ==> write == whave)
  {
  }

  /** Once the write index wraps, the window is full. */
  lemma HoldsLarge(whave: nat, write: nat, hist: seq<byte>, first: seq<byte>)
    requires whave == (if |hist| < WSIZE then |hist| else WSIZE) && (whave < WSIZE ==> write == whave)
    requires write + |first| == WSIZE
    ensures |hist| + |first| >= WSIZE
  {
  }
}
