/**
 inflate: the resumable decoder (src/cmd/INIT/ratz.c:2773-3372) in raw mode with the
 32K window that gz_open asks for, its fast path inflate_fast (2064-2299) and its window
 (2542-2590).

 The ghost constant stream is the whole compressed stream, of which a call sees only the
 slice that the caller hands it.  What the methods keep is Track: decoding on from the
 point that the mode stands for, with the present registers and after the present output,
 gives the decoding of the whole stream.
 */
module Inflate {
  import opened Bits
  import opened Huffman
  import opened TableSpec
  import opened Deflate
  import opened Lookup
  import opened Resume
  import opened BitReader
  import opened Steps
  import opened SymbolSteps
  import opened Machine
  import Window

  datatype Flush = NO_FLUSH | SYNC_FLUSH | FINISH | BLOCK

  datatype Status = OK | STREAM_END | DATA_ERROR | BUF_ERROR

  class Inflater {
    // the buffers of the current call
    var input: seq<byte>
    var next: nat
    var out: array<byte>
    var begin: nat
    var put: nat
    var left: nat

    // the state between calls
    var state: State
    var hold: nat
    var bits: nat
    var wsize: nat
    var whave: nat
    var write: nat
    var window: array<byte>
    const work: array<nat>
    const codes: array<Entry>

    // what the state stands for: the stream, how much of it earlier calls have used, what
    // they have put out, the output area before this call, the codes that are in use
    ghost const stream: seq<byte>
    ghost const b: seq<bool>
    ghost var fed: nat
    ghost var before: seq<byte>
    ghost var area: seq<byte>
    ghost var k: Lens

    /** A fresh decoder (inflateInit2 with -15, then inflateReset) at the start of a stream. */
    constructor (ghost stream: seq<byte>)
      ensures Ready() && this.stream == stream && fed == 0 && before == [] && fresh(window) && fresh(work)
        && fresh(codes)
    {
      this.stream, b := stream, StreamBits(stream);
      fed, before, area, k := 0, [], [], Lens([], [], []);
      var noLens := seq(320, _ => 0);
      state := State(HEAD, false, 0, 0, 0, [], 0, [], 0, 0, 0, 0, 0, noLens);
      hold, bits, wsize, whave, write := 0, 0, 0, 0, 0;
      window, work, codes := new byte[0], new nat[288], new Entry[ENOUGH];
      input, next, begin, put, left := [], 0, 0, 0, 0;
      out := new byte[0];
      new;
      hide Rest, Goal, Stands, Blocks;
      AtStart(b, state, k);
    }

    // ------------------------------------------------------------- the output

    /** All output up to now, of this and of earlier calls. */
    ghost function History(): seq<byte>
      requires begin <= put <= out.Length
      reads this`out, this`begin, this`put, this`before, out
    {
      before + out[begin..put]
    }

    /** The output area is in bounds, and nothing else in its array has changed. */
    ghost predicate Area()
      reads this`out, this`begin, this`put, this`left, this`area, this`window, out
    {
      && begin <= put && put + left <= out.Length && out != window
      && |area| == out.Length && forall i :: 0 <= i < begin || put <= i < out.Length ==> out[i] == area[i]
    }

    /** The window holds the output of earlier calls. */
    ghost predicate WindowOk()
      reads this`before, this`wsize, this`whave, this`write, this`window, window
    {
      && (window.Length == 0 || window.Length == WSIZE)
      && if wsize == 0 then before == [] && whave == 0 && write == 0
         else wsize == WSIZE && Window.Holds(window[..], whave, write, before)
    }

    lemma AreaBounds()
      requires Area()
      ensures begin <= put && put + left <= out.Length && out != window
    {
    }

    lemma WindowSizes()
      requires WindowOk()
      ensures whave <= |before| && (whave < |before| ==> whave == WSIZE)
      ensures wsize != 0 ==> wsize == WSIZE == window.Length && write < WSIZE && whave <= WSIZE
      ensures wsize != 0 ==> whave == (if |before| < WSIZE then |before| else WSIZE)
      ensures wsize != 0 && whave < WSIZE ==> write == whave
      ensures wsize == 0 ==> whave == 0 && write == 0
    {
    }

    method PutByte(v: byte)
      requires Area() && left > 0
      modifies this`put, this`left, out
      ensures Area() && History() == old(History()) + [v]
      ensures put == old(put) + 1 && left == old(left) - 1
    {
      out[put] := v;
      put := put + 1;
      left := left - 1;
      assert out[begin..put] == out[begin..put - 1] + [v];
      assert out[begin..put - 1] == old(out[begin..put]);
    }

    /** The byte d places back, if it is in the window: how far back it is there. */
    function Back(d: nat): int
      reads this`begin, this`put
    {
      d - (put - begin)
    }

    /** The next n bytes from position from of the window or of the output are those of a
        match at distance d. */
    ghost predicate Source(inWindow: bool, from: nat, d: nat, n: nat)
      reads this`begin, this`put, this`wsize, this`whave, this`write
    {
      n > 0 ==>
        if inWindow then
          wsize != 0 && 0 < Back(d) <= whave && from == Window.Slot(write, Back(d)) && n <= Back(d) && from + n <= WSIZE
        else
          from == put - d && begin <= from && 0 < d
    }

    lemma SourceByte(inWindow: bool, from: nat, d: nat, n: nat)
      requires Area() && WindowOk() && Source(inWindow, from, d, n) && 0 < n
      ensures 0 < d <= |History()|
      ensures inWindow ==> from < window.Length && window[from] == History()[|History()| - d]
      ensures !inWindow ==> from < out.Length && out[from] == History()[|History()| - d]
    {
      if inWindow {
        assert window[..][Window.Slot(write, Back(d))] == before[|before| - Back(d)];
      }
    }

    /** One byte of a match. */
    method CopyOne(inWindow: bool, from: nat, ghost d: nat, ghost n: nat)
      requires Area() && WindowOk() && Source(inWindow, from, d, n) && 0 < n && 0 < left && 0 < d <= |History()|
      modifies this`put, this`left, out
      ensures Area() && WindowOk() && Source(inWindow, from + 1, d, n - 1)
      ensures var h := old(History()); |h| > 0 && d <= |h| && History() == h + [h[|h| - d]]
      ensures put == old(put) + 1 && left == old(left) - 1
    {
      hide Window.Holds;
      SourceByte(inWindow, from, d, n);
      hide Area, History;
      AreaBounds();
      PutByte(if inWindow then window[from] else out[from]);
      assert window[..] == old(window[..]);
    }

    /** Byte-by-byte copying of a match, or of a first part of it. */
    method CopyRun(inWindow: bool, from0: nat, ghost d: nat, n: nat)
      requires Area() && WindowOk() && Source(inWindow, from0, d, n) && n <= left && 0 < d <= |History()|
      modifies this`put, this`left, out
      ensures Area() && WindowOk() && History() == LzCopy(old(History()), d, n)
      ensures put == old(put) + n && left == old(left) - n
    {
      hide LzCopy, Area, WindowOk, Source, History;
      AreaBounds();
      var from, copy := from0, n;
      ghost var h := History();
      LzNothing(h, d);
      while copy != 0
        invariant 0 <= copy <= n && put == old(put) + (n - copy) && left == old(left) - (n - copy)
        invariant Area() && WindowOk() && Source(inWindow, from, d, copy)
        invariant begin <= put <= out.Length && History() == LzCopy(h, d, n - copy)
      {
        LzSnoc(h, d, n - copy);
        CopyOne(inWindow, from, d, copy);
        AreaBounds();
        from := from + 1;
        copy := copy - 1;
      }
    }

    /** Three bytes of a match. */
    method CopyThree(inWindow: bool, from: nat, ghost d: nat, ghost n: nat)
      requires Area() && WindowOk() && Source(inWindow, from, d, n) && 3 <= n <= left && 0 < d <= |History()|
      modifies this`put, this`left, out
      ensures Area() && WindowOk() && Source(inWindow, from + 3, d, n - 3)
      ensures History() == LzCopy(old(History()), d, 3) && put == old(put) + 3 && left == old(left) - 3
    {
      hide LzCopy, Area, WindowOk, Source, History;
      AreaBounds();
      ghost var h := History();
      LzNothing(h, d);
      LzSnoc(h, d, 0);
      LzSnoc(h, d, 1);
      LzSnoc(h, d, 2);
      CopyOne(inWindow, from, d, n);
      AreaBounds();
      CopyOne(inWindow, from + 1, d, n - 1);
      AreaBounds();
      CopyOne(inWindow, from + 2, d, n - 2);
    }

    /** The same three bytes at a time, as inflate_fast copies. */
    method CopyThrees(inWindow: bool, from0: nat, ghost d: nat, n: nat)
      requires Area() && WindowOk() && Source(inWindow, from0, d, n) && n <= left && 0 < d <= |History()|
      modifies this`put, this`left, out
      ensures Area() && WindowOk() && History() == LzCopy(old(History()), d, n)
      ensures put == old(put) + n && left == old(left) - n
    {
      hide LzCopy, Area, WindowOk, Source, History;
      AreaBounds();
      var from, len := from0, n;
      ghost var h := History();
      LzNothing(h, d);
      while len > 2
        invariant 0 <= len <= n && put == old(put) + (n - len) && left == old(left) - (n - len)
        invariant Area() && WindowOk() && Source(inWindow, from, d, len)
        invariant begin <= put <= out.Length && History() == LzCopy(h, d, n - len)
      {
        LzSplit(h, d, n - len, 3);
        CopyThree(inWindow, from, d, len);
        AreaBounds();
        from := from + 3;
        len := len - 3;
      }
      if len != 0 {
        LzSnoc(h, d, n - len);
        CopyOne(inWindow, from, d, len);
        AreaBounds();
        if len > 1 {
          LzSnoc(h, d, n - len + 1);
          CopyOne(inWindow, from + 1, d, len - 1);
        }
      }
    }

    /** Puts the window to use if it is not yet in use. */
    method StartWindow()
      requires WindowOk()
      modifies this`window, this`wsize, this`whave, this`write
      ensures WindowOk() && wsize == WSIZE && (window == old(window) || fresh(window))
    {
      if window.Length == 0 {
        window := new byte[WSIZE];
      }
      if wsize == 0 {
        wsize, write, whave := WSIZE, 0, 0;
        Window.HoldsNothing(window[..]);
      }
    }

    /** Moves the output of this call into the window: the last WSIZE bytes of it. */
    method UpdateWindow()
      requires Area() && WindowOk()
      modifies this`window, this`wsize, this`whave, this`write, this`before, this`begin, window
      ensures WindowOk() && wsize != 0 && begin == put
      ensures before == old(History())
      ensures window == old(window) || fresh(window)
      ensures out[..] == old(out[..])
    {
      hide Window.Holds;
      AreaBounds();
      StartWindow();
      WindowSizes();
      ghost var hist := History();
      if put - begin >= wsize {
        MoveAll(hist);
      } else {
        MoveSome(hist);
      }
      before := hist;
      begin := put;
    }

    /** The case of UpdateWindow in which the output fills the window. */
    method MoveAll(ghost hist: seq<byte>)
      requires begin <= put <= out.Length && hist == History() && out != window
      requires wsize == WSIZE && window.Length == WSIZE && put - begin >= wsize
      modifies this`whave, this`write, window
      ensures Window.Holds(window[..], whave, write, hist) && wsize == WSIZE
    {
      hide Window.Holds;
      MemCopy(window, 0, out, put - wsize, wsize);
      assert window[..] == out[put - WSIZE..put - WSIZE + WSIZE];
      write := 0;
      whave := wsize;
      AllMoved(hist);
    }

    lemma AllMoved(hist: seq<byte>)
      requires begin <= put <= out.Length && hist == History() && put - begin >= WSIZE && window.Length == WSIZE
      requires window[..] == out[put - WSIZE..put - WSIZE + WSIZE]
      ensures Window.Holds(window[..], WSIZE, 0, hist)
    {
      hide Window.Holds;
      assert out[begin..put][put - begin - WSIZE..] == out[put - WSIZE..put];
      assert hist[|hist| - WSIZE..] == out[begin..put][put - begin - WSIZE..];
      Window.HoldsAll(window[..], hist);
    }

    /** The circular case of UpdateWindow. */
    method MoveSome(ghost hist: seq<byte>)
      requires begin <= put <= out.Length && hist == History() && out != window
      requires wsize == WSIZE && window.Length == WSIZE && put - begin < wsize
      requires Window.Holds(window[..], whave, write, before)
      modifies this`whave, this`write, window
      ensures Window.Holds(window[..], whave, write, hist)
    {
      ghost var w0 := window[..];
      var copy := put - begin;
      var dist := wsize - write;
      if dist > copy {
        dist := copy;
      }
      hide Window.Holds;
      MemCopy(window, write, out, put - copy, dist);
      ghost var first := out[begin..begin + dist];
      ghost var w1 := window[..];
      assert first == out[put - copy..put - copy + dist];
      copy := copy - dist;
      if copy != 0 {
        MemCopy(window, 0, out, put - copy, copy);
        ghost var rest := out[begin + dist..put];
        assert out[begin..put] == first + rest;
        Window.HoldsWrapped(w0, w1, window[..], whave, write, before, first, rest);
        write := copy;
        whave := wsize;
      } else {
        Window.HoldsMore(w0, w1, whave, write, before, first);
        assert hist == before + first;
        write := write + dist;
        if write == wsize {
          write := 0;
        }
        if whave < wsize {
          whave := whave + dist;
        }
      }
    }

    // ----------------------------------------------------- the state machine

    /** The machine with registers r is right for the output so far. */
    ghost predicate Inv(r: Reg)
      reads this`input, this`fed, this`out, this`begin, this`put, this`before, this`state, this`k, out
    {
      begin <= put <= out.Length && Right(b, input, fed, r, state, k, History())
    }

    /** All input is used up, and if the stream ends here, it breaks off here. */
    ghost predicate Waiting(r: Reg)
      reads this`input, this`fed, this`out, this`begin, this`put, this`before, out
    {
      begin <= put <= out.Length && Starved(b, input, fed, r, History())
    }

    /** Input bits and output room left in this call. */
    function Fuel(r: Reg): int
      reads this`input, this`left
    {
      Avail(input, r) + left
    }

    method DoCopy(r: Reg) returns (leave: bool, r': Reg)
      requires Inv(r) && Area() && state.mode == COPY
      modifies this`put, this`left, this`state, out
      ensures Inv(r') && Area() && (state.mode == COPY || state.mode == TYPE) && put + left == old(put + left)
      ensures leave ==> state.mode == COPY && (Waiting(r') || left == 0)
      ensures !leave ==> Fuel(r') < old(Fuel(r)) || (state.mode == TYPE && Fuel(r') == old(Fuel(r)))
    {
      hide Right, Starved, Area;
      AreaBounds();
      leave, r' := false, r;
      CopyEnds(b, input, fed, r, state, k, History());
      var copy := state.length;
      if copy != 0 {
        if copy > |input| - r.next {
          copy := |input| - r.next;
        }
        if copy > left {
          copy := left;
        }
        if copy == 0 {
          leave := true;
          return;
        }
        r' := CopyInput(r, copy);
        return;
      }
      state := state.(mode := TYPE);
    }

    /** Copies n input bytes to the output. */
    method CopyInput(r: Reg, n: nat) returns (r': Reg)
      requires Inv(r) && Area() && state.mode == COPY
      requires r.bits == 0 && n <= state.length && n <= |input| - r.next && n <= left
      modifies this`put, this`left, this`state, out
      ensures Inv(r') && Area() && state.mode == COPY && Fuel(r') == old(Fuel(r)) - 9 * n
        && put + left == old(put + left)
    {
      hide Right, Area, History;
      AreaBounds();
      r' := r;
      var copy := n;
      while copy != 0
        invariant 0 <= copy <= n && copy <= state.length && copy <= |input| - r'.next && copy <= left
        invariant Inv(r') && Area() && state.mode == COPY && r'.bits == 0
        invariant Fuel(r') + 9 * (n - copy) == old(Fuel(r)) && put + left == old(put + left)
      {
        AreaBounds();
        CopyDone(b, input, fed, r', state, k, History());
        PutByte(input[r'.next]);
        AreaBounds();
        state := state.(length := state.length - 1);
        r' := Reg(r'.next + 1, 0, 0);
        copy := copy - 1;
      }
    }

    method DoLit(r: Reg) returns (leave: bool)
      requires Inv(r) && Area() && state.mode == LIT
      modifies this`put, this`left, this`state, out
      ensures Inv(r) && Area() && put + left == old(put + left)
      ensures leave ==> left == 0 && state == old(state)
      ensures !leave ==> left < old(left)
    {
      hide Right, Area;
      AreaBounds();
      leave := left == 0;
      if !leave {
        LitDone(b, input, fed, r, state, k, History());
        PutByte(state.length);
        AreaBounds();
        state := state.(mode := LEN);
      }
    }

    /** Every distance up to the window size that does not go too far back is at hand. */
    lemma AtHand(d: nat)
      requires WindowOk() && begin <= put <= out.Length
      ensures InReach(whave + (put - begin), |History()|)
      ensures d <= |History()| && d <= WSIZE && d > put - begin ==> wsize != 0 && d - (put - begin) <= whave
    {
      hide Window.Holds;
      WindowSizes();
    }

    /** op bytes of a match from the window, if it is that long, and the rest from the output. */
    method FastPiece(from: nat, op: nat, dist: nat, n: nat)
      requires Area() && WindowOk() && n <= left && 0 < dist <= |History()| && op == Back(dist)
      requires Source(true, from, dist, op)
      modifies this`put, this`left, out
      ensures Area() && WindowOk() && History() == LzCopy(old(History()), dist, n)
      ensures put == old(put) + n && left == old(left) - n
    {
      hide Area, WindowOk, LzCopy, Window.Slot;
      AreaBounds();
      if op < n {
        LzSplit(History(), dist, op, n - op);
        CopyRun(true, from, dist, op);
        AreaBounds();
        CopyThrees(false, put - dist, dist, n - op);
      } else {
        CopyThrees(true, from, dist, n);
      }
    }

    /** A match that begins op bytes back in the window, before its end and its wrap-around. */
    method FastWrap(op: nat, dist: nat, n: nat)
      requires Area() && WindowOk() && n <= left && 0 < dist <= |History()| && op == Back(dist)
      requires wsize == WSIZE && 0 < write < op <= whave <= WSIZE
      modifies this`put, this`left, out
      ensures Area() && WindowOk() && History() == LzCopy(old(History()), dist, n)
      ensures put == old(put) + n && left == old(left) - n
    {
      hide Area, WindowOk, LzCopy;
      AreaBounds();
      var from, first := wsize + write - op, op - write;
      if first < n {
        LzSplit(History(), dist, first, n - first);
        CopyRun(true, from, dist, first);
        AreaBounds();
        FastPiece(0, write, dist, n - first);
      } else {
        CopyThrees(true, from, dist, n);
      }
    }

    /** The copying of inflate_fast: from the window in up to two pieces, then from the output. */
    method FastMatch(dist: nat, n: nat)
      requires Area() && WindowOk() && n <= left && 0 < dist <= |History()| && dist <= WSIZE
      modifies this`put, this`left, out
      ensures Area() && WindowOk() && History() == LzCopy(old(History()), dist, n)
      ensures put == old(put) + n && left == old(left) - n
    {
      hide Area, WindowOk, LzCopy;
      AreaBounds();
      WindowSizes();
      AtHand(dist);
      if dist > put - begin {
        var op := dist - (put - begin);
        if write == 0 {
          FastPiece(wsize - op, op, dist, n);
        } else if write < op {
          FastWrap(op, dist, n);
        } else {
          FastPiece(write - op, op, dist, n);
        }
      } else {
        CopyThrees(false, put - dist, dist, n);
      }
    }

    // ------------------------------------------------------------ inflate_fast

    /** What inflate_fast keeps: the bits at hand may be more than a byte. */
    ghost predicate Fast(r: Reg)
      reads this`input, this`fed, this`out, this`begin, this`put, this`before, this`state, this`k, out
    {
      && begin <= put <= out.Length && |state.lens| == 320 && CodesOk(state, k)
      && (state.mode == LEN || state.mode == TYPE || state.mode == BAD)
      && Stands(b, input, fed, r, At(state, k), History())
    }

    /** One turn of the loop of inflate_fast. */
    method FastTurn(r: Reg) returns (r': Reg)
      requires Fast(r) && Area() && WindowOk() && state.mode == LEN && r.next + 6 <= |input| && left >= 258
      modifies this`put, this`left, this`state, out
      ensures Fast(r') && Area() && WindowOk() && r'.next <= r.next + 6
      ensures Fuel(r') < old(Fuel(r)) && Avail(input, r') < Avail(input, r) && put + left == old(put + left)
      ensures Awaits(old(state).lencode, old(state).lenbits, r) ==> Pos(fed, r') + 7 >= 8 * (fed + r.next)
    {
      hide Stands, CodesOk, Area, WindowOk, LzCopy, Awaits, AfterItem, ItemOk;
      var item;
      item, r' := StepFast(b, input, fed, r, state, k, History());
      FastOut(item, r');
    }

    /** What was read in one turn is put out. */
    method FastOut(item: Item, r: Reg)
      requires Area() && WindowOk() && state.mode == LEN && left >= 258 && begin <= put <= out.Length
      requires |state.lens| == 320 && CodesOk(state, k) && ItemOk(item)
      requires Stands(b, input, fed, r, AfterItem(Codes(state.last, k.ll, k.dl), item, |History()|), History())
      modifies this`put, this`left, this`state, out
      ensures Fast(r) && Area() && WindowOk() && put + left == old(put + left) && left <= old(left)
    {
      hide Stands, CodesOk, Area, WindowOk, LzCopy, Awaits;
      AreaBounds();
      ghost var h := History();
      ghost var c := Codes(state.last, k.ll, k.dl);
      match item {
        case Literal(v) =>
          FastLiteral(b, input, fed, r, c, v, h);
          PutByte(v);
          AreaBounds();
        case Match(len, dist) =>
          AtHand(dist);
          if dist > put - begin && dist - (put - begin) > whave {
            SameCodes(state, k, BAD);
            state := state.(mode := BAD);
          } else {
            FastCopied(b, input, fed, r, c, dist, len, h);
            FastMatch(dist, len);
            AreaBounds();
          }
        case EndOfBlock =>
          SameCodes(state, k, TYPE);
          state := state.(mode := TYPE);
        case Invalid =>
          SameCodes(state, k, BAD);
          state := state.(mode := BAD);
      }
    }

    /** inflate_fast: turns without checks while six bytes of input and room for 258 are left. */
    method InflateFast(r: Reg) returns (availIn: int, r': Reg)
      requires Inv(r) && Area() && WindowOk() && state.mode == LEN && r.next + 6 <= |input| && left >= 258
      modifies this`put, this`left, this`state, out
      ensures Inv(r') && Area() && WindowOk() && (state.mode == LEN || state.mode == TYPE || state.mode == BAD)
      ensures Fuel(r') < old(Fuel(r)) && r'.bits < 8 && r.next <= r'.next
      ensures availIn == |input| - r'.next && put + left == old(put + left)
    {
      hide Stands, CodesOk, Area, WindowOk, Awaits;
      AreaBounds();
      ModeFacts(b, input, fed, r, state, k, History());
      var last, end := |input| - 5, put + (left - 257);
      ghost var total := put + left;
      r' := FastTurn(r);
      while state.mode == LEN && r'.next < last && put < end
        invariant Fast(r') && Area() && WindowOk() && put + left == total
        invariant Fuel(r') < old(Fuel(r)) && Pos(fed, r') + 7 >= 8 * (fed + r.next)
        decreases Avail(input, r')
      {
        FastBounds(r');
        r' := FastTurn(r');
      }
      r' := GiveBack(b, input, fed, r', At(state, k), History(), r.next);
      FastToSlow(b, input, fed, r', state, k, History());
      availIn := if r'.next < last then 5 + (last - r'.next) else 5 - (r'.next - last);
      assert left == if put < end then 257 + (end - put) else 257 - (put - end);
    }

    lemma FastBounds(r: Reg)
      requires Fast(r)
      ensures Avail(input, r) >= 0 && r.next <= |input|
    {
      hide Rest, Goal, CodesOk;
    }

    /** Where the bytes of a match come from, and how many can be copied in one go. */
    method MatchSource() returns (inWindow: bool, from: nat, copy: nat)
      requires Area() && WindowOk() && begin <= put <= out.Length && left > 0
      requires 1 <= state.length && 1 <= state.offset <= |History()| && state.offset <= WSIZE
      ensures Source(inWindow, from, state.offset, copy) && 0 < copy <= left && copy <= state.length
    {
      hide Area, WindowOk;
      WindowSizes();
      AtHand(state.offset);
      var start, n: int := put - state.offset, put - begin;
      inWindow := false;
      if state.offset > n {
        inWindow, n := true, state.offset - n;
        if n > write {
          n := n - write;
          start := wsize - n;
        } else {
          start := write - n;
        }
        if n > state.length {
          n := state.length;
        }
      } else {
        n := state.length;
      }
      if n > left {
        n := left;
      }
      from, copy := start, n;
    }

    method DoMatch(r: Reg) returns (leave: bool)
      requires Inv(r) && Area() && WindowOk() && state.mode == MATCH
      modifies this`put, this`left, this`state, out
      ensures Inv(r) && Area() && WindowOk() && put + left == old(put + left)
      ensures leave ==> left == 0 && state == old(state)
      ensures !leave ==> left < old(left)
    {
      hide Right, Area, WindowOk, LzCopy, Source;
      AreaBounds();
      leave := left == 0;
      if leave {
        return;
      }
      ModeFacts(b, input, fed, r, state, k, History());
      var inWindow, from, copy := MatchSource();
      MatchDone(b, input, fed, r, state, k, History(), copy);
      CopyRun(inWindow, from, state.offset, copy);
      AreaBounds();
      state := MatchLeft(state, copy);
    }

    // --------------------------------------------------------------- one call

    /** Why a call may end before the end of the stream. */
    ghost predicate Paused(r: Reg, flush: Flush)
      reads this`input, this`fed, this`out, this`begin, this`put, this`before, this`left, this`state, out
    {
      && state.mode != CHECK && state.mode != DONE && state.mode != BAD
      && (Waiting(r) || left == 0 || (flush == BLOCK && state.mode == TYPE))
    }

    /** The turn of inflate's loop for one mode. */
    method Step(r: Reg, flush: Flush) returns (leave: bool, r': Reg)
      requires Inv(r) && Area() && WindowOk() && Scratch(codes, work) && state.mode != DONE && state.mode != BAD
      modifies this`put, this`left, this`state, this`k, out, codes, work
      ensures Inv(r') && Area() && WindowOk() && put + left == old(put + left)
      ensures leave ==> Paused(r', flush)
      ensures !leave ==>
        Fuel(r') < old(Fuel(r)) || (Fuel(r') <= old(Fuel(r)) && Rank(state.mode) < Rank(old(state.mode)))
    {
      hide Area, WindowOk, Right, Starved, CodesOk, Awaits, Stands, At, History;
      AreaBounds();
      leave, r' := false, r;
      ModeFacts(b, input, fed, r, state, k, History());
      if state.mode == HEAD {
        state := state.(mode := TYPEDO);
      } else if state.mode == TYPE && flush == BLOCK {
        leave := true;
      } else if state.mode == COPY {
        leave, r' := DoCopy(r);
      } else if state.mode == MATCH {
        leave := DoMatch(r);
      } else if state.mode == LIT {
        leave := DoLit(r);
      } else if state.mode == CHECK {
        state := state.(mode := DONE);
      } else if state.mode == LEN && |input| - r.next >= 6 && left >= 258 {
        var availIn;
        availIn, r' := InflateFast(r);
      } else {
        leave, r' := DoInput(r);
      }
    }

    /** A mode that only reads. */
    method DoInput(r: Reg) returns (leave: bool, r': Reg)
      requires Inv(r) && Area() && WindowOk() && Scratch(codes, work) && ReadsInput(state.mode)
      modifies this`state, this`k, codes, work
      ensures Inv(r') && Area() && WindowOk()
      ensures leave ==> state.mode == old(state.mode) && Waiting(r')
      ensures !leave ==>
        Fuel(r') < old(Fuel(r)) || (Fuel(r') <= old(Fuel(r)) && Rank(state.mode) < Rank(old(state.mode)))
    {
      hide Area, WindowOk, Right, Starved, InReach;
      AreaBounds();
      AtHand(0);
      ghost var h := History();
      var s;
      ghost var k';
      leave, r', s, k' := StepInput(b, input, fed, r, state, k, h, whave + (put - begin), codes, work);
      state := s;
      k := k';
      assert History() == h;
    }

    /** The final modes, in which the window may be out of use. */
    predicate Over()
      reads this`state, this`wsize
    {
      (state.mode == DONE || state.mode == BAD) && wsize == 0
    }

    /** The loop of inflate. */
    method Run(r: Reg, flush: Flush) returns (ret: Status, r': Reg)
      requires Inv(r) && Area() && (WindowOk() || Over()) && Scratch(codes, work)
      modifies this`put, this`left, this`state, this`k, out, codes, work
      ensures Inv(r') && Area() && (WindowOk() || Over()) && put + left == old(put + left)
      ensures ret == STREAM_END <==> state.mode == DONE
      ensures ret == DATA_ERROR <==> state.mode == BAD
      ensures (ret == OK || ret == STREAM_END || ret == DATA_ERROR) && state.mode != CHECK
      ensures ret == OK ==> Paused(r', flush)
    {
      hide Area, WindowOk, Right, Starved, InReach, Scratch;
      r' := r;
      while state.mode != DONE && state.mode != BAD
        invariant Inv(r') && Area() && (WindowOk() || Over()) && put + left == old(put + left)
        decreases Fuel(r'), Rank(state.mode)
      {
        FuelBounds(r');
        var leave;
        leave, r' := Step(r', flush);
        if leave {
          ret := OK;
          return;
        }
      }
      ret := if state.mode == DONE then STREAM_END else DATA_ERROR;
    }

    lemma FuelBounds(r: Reg)
      requires Inv(r)
      ensures Fuel(r) >= 0 && begin <= put <= out.Length && r.next <= |input|
    {
      hide Right;
      ModeFacts(b, input, fed, r, state, k, History());
    }

    /** What holds between calls: nothing of the input is at hand but the bits held. */
    ghost predicate Ready()
      reads this`state, this`k, this`hold, this`bits, this`fed, this`before, this`wsize, this`whave, this`write,
        this`window, window
    {
      && Scratch(codes, work) && b == StreamBits(stream) && fed <= |stream|
      && Right(b, [], fed, Reg(0, hold, bits), state, k, before)
      && (WindowOk() || Over())
    }

    /**
     inflate: decodes what it can of the input that the caller gives into the room it has.
     However a stream is cut into calls, what they put out is the decoding of the stream.
     */
    method Inflate(give: seq<byte>, dst: array<byte>, at: nat, room: nat, flush: Flush) returns (ret: Status)
      requires Ready() && at + room <= dst.Length && dst != window
      requires fed + |give| <= |stream| && give == stream[fed..fed + |give|]
      modifies this, dst, window, codes, work
      ensures Ready() && (window == old(window) || fresh(window))
      ensures old(fed) <= fed == old(fed) + next && next <= |give|
      ensures at <= put <= at + room && left == at + room - put && before == old(before) + dst[at..put]
      ensures forall i :: 0 <= i < at || put <= i < dst.Length ==> dst[i] == old(dst[i])
      ensures before <= Decode(stream).out
      ensures ret == STREAM_END ==> Decode(stream) == Done(before, fed)
      ensures ret == DATA_ERROR ==> Decode(stream) == Bad(before)
      ensures ret == OK ==> flush != FINISH && (next > 0 || put > at)
      ensures ret == BUF_ERROR ==> flush == FINISH || (next == 0 && put == at)
      ensures (ret == OK || ret == BUF_ERROR) && flush != BLOCK && left > 0 ==>
                next == |give| && (fed == |stream| ==> Decode(stream) == Short(before))
    {
      hide Ready, Inv, Scratch, WindowOk, Over, Paused, Waiting, Blocks;
      Enter(give, dst, at, room);
      var r;
      ret, r := Run(Reg(0, hold, bits), flush);
      Leave(r, flush, ret);
      if ((next == 0 && put == at) || flush == FINISH) && ret == OK {
        ret := BUF_ERROR;
      }
    }

    /** The start of a call. */
    method Enter(give: seq<byte>, dst: array<byte>, at: nat, room: nat)
      requires Ready() && at + room <= dst.Length && dst != window
      requires fed + |give| <= |stream| && give == stream[fed..fed + |give|]
      modifies this`state, this`input, this`next, this`out, this`begin, this`put, this`left, this`area
      ensures input == give && next == 0 && out == dst && begin == put == at && left == room && area == dst[..]
      ensures Inv(Reg(0, hold, bits)) && Area() && (WindowOk() || Over()) && Scratch(codes, work) && History() == before
      ensures b == StreamBits(stream)
    {
      hide Ready, Inv, Area, Scratch, WindowOk, Over;
      SkipCheck();
      StreamFacts();
      Begin(give, dst, at, room);
    }

    /** The end of a call: the state is put away, and tells what became of the stream. */
    method Leave(r: Reg, flush: Flush, ghost ret: Status)
      requires Inv(r) && Area() && (WindowOk() || Over()) && Scratch(codes, work) && state.mode != CHECK
      requires b == StreamBits(stream) && fed + |input| <= |stream|
      requires (ret == STREAM_END <==> state.mode == DONE) && (ret == DATA_ERROR <==> state.mode == BAD)
      requires ret == OK ==> Paused(r, flush)
      modifies this`next, this`hold, this`bits, this`fed, this`before, this`begin, this`window, this`wsize,
        this`whave, this`write, window
      ensures Ready() && next <= |input| && fed == old(fed) + next && put + left == old(put + left)
      ensures old(begin) <= put <= out.Length && before == old(History())
      ensures (window == old(window) || fresh(window)) && out[..] == old(out[..])
      ensures before <= Decode(stream).out
      ensures ret == STREAM_END ==> Decode(stream) == Done(before, fed)
      ensures ret == DATA_ERROR ==> Decode(stream) == Bad(before)
      ensures ret == OK && flush != BLOCK && left > 0 ==>
                next == |input| && (fed == |stream| ==> Decode(stream) == Short(before))
    {
      hide Ready, Inv, Area, Scratch, WindowOk, Over, Paused, Waiting, Blocks;
      FuelBounds(r);
      PauseFacts(r, flush, ret);
      End(r);
      Answers();
    }

    lemma StreamFacts()
      requires Ready()
      ensures b == StreamBits(stream)
    {
    }

    lemma PauseFacts(r: Reg, flush: Flush, ret: Status)
      requires b == StreamBits(stream) && begin <= put <= out.Length && (ret == OK ==> Paused(r, flush))
      ensures ret == OK && flush != BLOCK && left > 0 ==>
                r.next == |input| && (fed + r.next == |stream| ==> Decode(stream) == Short(History()))
    {
      hide Blocks;
    }

    /** What the state between calls tells the caller. */
    lemma Answers()
      requires Ready()
      ensures before <= Decode(stream).out
      ensures state.mode == DONE ==> Decode(stream) == Done(before, fed)
      ensures state.mode == BAD ==> Decode(stream) == Bad(before)
    {
      hide Right, WindowOk, Blocks;
      AtEnd(b, [], fed, Reg(0, hold, bits), state, k, before);
    }

    /** A call that resumes at a block boundary does not stop there again. */
    method SkipCheck()
      requires Ready()
      modifies this`state
      ensures Ready()
    {
      hide Right, WindowOk, Scratch;
      ModeFacts(b, [], fed, Reg(0, hold, bits), state, k, before);
      if state.mode == TYPE {
        state := state.(mode := TYPEDO);
      }
    }

    method SetBuffers(give: seq<byte>, dst: array<byte>, at: nat, room: nat)
      modifies this`input, this`next, this`out, this`begin, this`put, this`left, this`area
      ensures input == give && next == 0 && out == dst && begin == put == at && left == room && area == dst[..]
    {
      input, next, out, begin, put, left, area := give, 0, dst, at, at, room, dst[..];
    }

    /** The caller's buffers are taken up. */
    method Begin(give: seq<byte>, dst: array<byte>, at: nat, room: nat)
      requires Ready() && at + room <= dst.Length && dst != window
      requires fed + |give| <= |stream| && give == stream[fed..fed + |give|]
      modifies this`input, this`next, this`out, this`begin, this`put, this`left, this`area
      ensures input == give && next == 0 && out == dst && begin == put == at && left == room && area == dst[..]
      ensures Inv(Reg(0, hold, bits)) && Area() && (WindowOk() || Over()) && Scratch(codes, work) && History() == before
    {
      hide WindowOk, Right, Over, Scratch;
      SliceOk(stream, fed, give);
      Rebase(b, [], fed, Reg(0, hold, bits), state, k, before, give);
      SetBuffers(give, dst, at, room);
      assert out[begin..put] == [];
      assert History() == before;
    }

    method SetRegisters(r: Reg)
      modifies this`next, this`hold, this`bits, this`fed
      ensures next == r.next && hold == r.hold && bits == r.bits && fed == old(fed) + next
    {
      next, hold, bits, fed := r.next, r.hold, r.bits, fed + r.next;
    }

    /** The registers go back to the state, and the output into the window if it is needed. */
    method End(r: Reg)
      requires Inv(r) && Area() && (WindowOk() || Over()) && Scratch(codes, work) && state.mode != CHECK
      requires b == StreamBits(stream) && fed + |input| <= |stream|
      modifies this`next, this`hold, this`bits, this`fed, this`before, this`begin, this`window, this`wsize,
        this`whave, this`write, window
      ensures Ready() && next == r.next && fed == old(fed) + next
      ensures before == old(History()) && (window == old(window) || fresh(window)) && out[..] == old(out[..])
    {
      hide Area, Right, WindowOk, Scratch, History, Over;
      AreaBounds();
      ghost var h := History();
      NextFits(b, input, fed, r, state, k, h);
      Rebase(b, input, fed, r, state, k, h, []);
      KeepWindow();
      SetRegisters(r);
    }

    /** The window is kept up if it is in use, or if output was made and more is to come. */
    method KeepWindow()
      requires Area() && (WindowOk() || Over()) && state.mode != CHECK
      modifies this`before, this`begin, this`window, this`wsize, this`whave, this`write, window
      ensures begin <= put <= out.Length && (WindowOk() || Over())
      ensures before == old(History()) && (window == old(window) || fresh(window)) && out[..] == old(out[..])
    {
      hide Area, WindowOk;
      AreaBounds();
      ghost var h := History();
      if wsize != 0 || (state.mode != CHECK && state.mode != DONE && state.mode != BAD && put != begin) {
        UpdateWindow();
      } else {
        NoOutput();
        before := h;
        OverStays();
      }
    }

    lemma OverStays()
      ensures Over() <==> (state.mode == DONE || state.mode == BAD) && wsize == 0
    {
    }

    /** Without output the window holds what it held. */
    lemma NoOutput()
      requires begin <= put <= out.Length
      ensures begin == put ==> History() == before
    {
    }
  }

  /** The bytes of the stream are the bytes that its bits spell. */
  lemma SliceOk(stream: seq<byte>, fed: nat, give: seq<byte>)
    requires fed + |give| <= |stream| && give == stream[fed..fed + |give|]
    ensures Slice(StreamBits(stream), give, fed)
  {
    hide Lsb;
    forall i | 0 <= i < |give|
      ensures Lsb(StreamBits(stream), 8 * (fed + i), 8) == give[i]
    {
      StreamByte(stream, fed + i);
    }
  }

  method MemCopy(dst: array<byte>, d: nat, src: array<byte>, s: nat, n: nat)
    requires d + n <= dst.Length && s + n <= src.Length && dst != src
    modifies dst
    ensures dst[..] == old(dst[..])[..d] + src[s..s + n] + old(dst[..])[d + n..]
  {
    var i := 0;
    while i < n
      invariant 0 <= i <= n
      invariant dst[..d] == old(dst[..])[..d] && dst[d + n..] == old(dst[..])[d + n..]
      invariant dst[d..d + i] == src[s..s + i]
    {
      dst[d + i] := src[s + i];
      i := i + 1;
    }
    assert dst[..] == dst[..d] + dst[d..d + n] + dst[d + n..];
  }
}
