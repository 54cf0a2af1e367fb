# A Dafny model of the hard cores of this repository

These files model, and prove correct, the algorithmic cores of the commands under `src/cmd`: the
DEFLATE decoder and the Adler-32 checksum of `ratz`, the shell pattern matcher and the viewpath code of
`3d`, and the dictionary, the Mamfile reader and the directory recursion of `mamake`. Loops over buffers
are methods over arrays, objects whose fields are updated are classes, and each such method is proved
against a specification that knows nothing of how it works. `dafny verify dfyconfig.toml` checks it all.

## The DEFLATE decoder

`Deflate` is section 3.2 of RFC 1951 as a recursive-descent decoder over a whole bit string: no tables,
no window, no buffers, no interruptions. `Huffman` is the canonical code of section 3.2.2. The
implementation is layered as in the source. `InflateTable` builds the lookup tables in place, with the
loops of `inflate_table`; `TableSpec` says what a table means, and `TableProof` why the filling is right:
left-aligned in 15 bits the codes in sorted order tile the words, so entering the k-th code extends what
is decoded rightly by one interval. `BitReader`, `Steps` and `SymbolSteps` are the modes of `inflate`
that read, and the reading of `inflate_fast`; `Resume` names the points of the decoder at which `inflate`
can be interrupted; `Machine` ties each mode to such a point. `Inflate` is the class with the stream's
buffers, the window and the state; its invariant says that decoding on from the point of the mode, with
the bits at hand, after the output made so far, gives the outcome of the whole stream. `Driver` has whole
runs. The main results are `Driver.DecodeInPieces` and `Driver.DecodeAll`: however the input and the room
for output are cut into calls, what comes out is the decoding of the stream.
What that decoding is, is said once more and independently: `Encode` writes any list of blocks, with the
tables and ranges as the RFC prints them, and `RoundTrip.DecodedIffWritten` proves that a stream is decoded as
some data exactly if it is written so and stands for that data (`EncodeSyms`, `EncodeSteps` and
`EncodeHeaders` are its parts).

Three places where the source and its comments differ, or its comments leave something open:

- The comment at `src/cmd/INIT/ratz.c:3766-3771` says that raw `inflate` needs a byte behind the
  compressed stream to return `Z_STREAM_END`. The code does not: once all input was given and room is
  left, the call says that the stream ended or that it breaks off (`Inflate.Inflater.Inflate`).
- The comment at lines 1841-1845 says that the sufficiency of `ENOUGH` has not been proven.
  `InflateTable.EnoughIsEnough` proves it, by a charging argument, for every accepted vector of lengths.
- The comment at line 2284 says that fewer than eight bits are held when `inflate_fast` is entered. That
  need not be so when a call resumes in the middle of a code; it is harmless, since then the code needs
  every byte held (`SymbolSteps.NeedsMore`).

## The pattern matcher

`Pattern` has the patterns as syntax trees and the language of each, by cuts of the string. `PatternText`
says how they are written and when a text is well formed; every plain set can be written
(`Brackets.EverySet`). `StrMatch` works on the text, as the source does, with `gobble` skipping groups and
alternatives by counting. The theorem is `StrMatch.StrMatch`; `PatternLaws` has the laws of the language, one
for each construct.

## mamake

`Dictionary` refines a finite map by the pointer surgery of the top-down splay (`SplaySearch`,
`ItemStore`): the items live in an explicit store from addresses to cells, so that aliasing is visible.
`Maker` is `make` as a recursive reader of lines. Beside the state two ghosts are kept. The trace has one
record for each block read and each library bound: the lines it read itself, what each of them looked at,
the times, what was decided. The log has one event for each thing that happened to a rule: attributes
given, a look for its file, an action, a failure, the end of its block. `MakeTrace.Fair` says what a record
must be, from the lines and the records before it; `MakeLog.Tied` says how it goes with the log, and through
the log with the four things a run depends on (`MakeLog.Env`): what `find` reports, what the shell does,
the options and the targets on the command line. `MakeMirror` proves that the rules in the state are at all
times what the log says, `MakeTies`, `MakeEnds` and `MakeRun` that every line keeps all this. The conclusions
are in `MakeTrace`, `MakeClaims` and `MakeCauses`, and hold of every run (`Maker.MakeAll`): an action is run
exactly if it has to be, by the times of the files, and there is a failure exactly if something went wrong.
`MakeMeaning` spells the claims out in terms of lines, files, shell and options, `MakeStatus` has the exit
status and `MakeExit` the early exits. All this holds for every Mamfile, well nested
or not, and whatever `find` and the shell answer.

A `bind` line gives a library the time of its file, and drops the time that making it ended with. So a path
of dependencies stops at a library file that was bound, and what the library was made from is behind it. It
is not true that a skipped target is newer than that too: `MakeStale.SkippedThoughStale` has a Mamfile, and
`MakeDeep.SkippedDeepFiles` says when it is true.

`MakeOrder` is the recursion over directories, on any graph, and `MakeWalk` runs it by the walks over the
dictionary of rules.

## The viewpath

`ViewTable` is the sorted table with its prefix search, `PathNext` the rewriting of a path in its buffer,
`PathReal` the descent through the views, `UnionDir` the union directory stream and `UnionAgree` the
agreement of the two, `PathCanon` the canonicalizer and `MapText` the table as text. The file system is
an oracle. Three findings:

- A table does not always survive `mapdump` and `mapinit`: an empty one that is written for exec leaves
  the prefix without its space, which is read as a key, and a first key `vpath` written without the prefix
  is taken for it. `MapText.RoundTripIff` has the exact condition.
- `pathcanon` keeps a dot though the `..` behind it takes its directory away: `/a/./..` becomes `/.`
  (`PathCanon.KeptDot`). `PathCanon.DotIff` has the exact condition.
- A mark with permission bits removes a name from the listing of a directory but not from lookup
  (`UnionAgree.MarkWithMode`); but for that the two agree (`UnionAgree.ListedIffFound`).

## Model

| member | source | states |
|---|---|---|
| `Driver.DecodeAll` | src/cmd/INIT/ratz.c:4034-4090 | A caller with buffers of any size that goes on while Z_OK is returned gets exactly the outcome of the RFC 1951 decoding of the whole stream: the output, the number of compressed bytes taken, and whether it ended, broke off or was in error. It ends for every stream. |
| `Driver.DecodeInPieces` | src/cmd/INIT/ratz.c:2773-3372 | For every schedule of calls, whatever is offered, however much room there is and whatever they return: the concatenated output is a prefix of the decoding of the stream, and all of it when Z_STREAM_END is returned, with the input used up to the end of the final block. |
| `RoundTrip.DecodedIffWritten` | src/cmd/INIT/ratz.c:2773-3372 | What the decoding of RFC 1951 is: it succeeds with that data and that size exactly if the stream starts with blocks, stored, fixed or dynamic with any codes and any way of sending their lengths, that are written as the RFC prints it (module Encode) and whose plain LZ77 expansion is that data. |
| `RoundTrip.WriteAndDecode` | src/cmd/INIT/ratz.c:2773-3372 | Whatever list of blocks is written and packed into bytes, the decoding is the data the blocks stand for, and takes all the bytes. |
| `RoundTrip.AnyData` | src/cmd/INIT/ratz.c:3018-3022 | All data can be written. |
| `RoundTrip.BlockPlays` | src/cmd/INIT/ratz.c:2992-3025 | A block that stands in the stream is decoded as the data it stands for, and the next block follows. |
| `RoundTrip.BlockRead` | src/cmd/INIT/ratz.c:2992-3025 | A block that is decoded to the end of the stream stands there as the format writes it. |
| `EncodeSteps.DataPlays` | src/cmd/INIT/ratz.c:3169-3295 | Literals and matches of length 3 to 258 and distance 1 to 32768, written with the bases and extra bits that the RFC prints, are decoded as LZ77 plays them. |
| `EncodeSteps.DataRead` | src/cmd/INIT/ratz.c:3169-3295 | Compressed data that is decoded to the end of the stream is written as such tokens. |
| `EncodeHeaders.ItemsPlay` | src/cmd/INIT/ratz.c:3095-3145 | Code lengths sent one by one, or as 3 to 6 copies of the last, 3 to 10 zeros or 11 to 138 zeros, with 2, 3 and 7 extra bits, are read as they were sent. |
| `EncodeHeaders.ItemsRead` | src/cmd/INIT/ratz.c:3095-3145 | Code lengths that are read in a stream that decodes to its end were sent so. |
| `EncodeHeaders.SentPlays` | src/cmd/INIT/ratz.c:3074-3083 | The lengths of the code length code, sent in the order that the RFC prints, are read into their places. |
| `EncodeHeaders.EmptyReads` | src/cmd/INIT/ratz.c:3095-3103 | A code length code without codes, which the source accepts, reads every bit as the length zero. |
| `EncodeSyms.RefusedIff` | src/cmd/INIT/ratz.c:1796-1811 | By the Kraft sum, symbol by symbol: lengths are accepted exactly if the sum is full, or none is there, or, outside the code length code, it is less and no code is longer than one bit. |
| `EncodeSyms.TablesAre` | src/cmd/INIT/ratz.c:1733-1746 | Bases and extra bits of lengths and distances are the numbers that the RFC prints. |
| `Inflate.Inflater.Inflate` | src/cmd/INIT/ratz.c:2773-3372 | One call: keeps the machine right, writes only to the room it was given, and returns Z_OK only if it took input or made output; Z_BUF_ERROR means no progress or Z_FINISH; Z_STREAM_END and Z_DATA_ERROR are the outcome of the stream. With room left it has taken all input, and at the end of the stream the stream is known to break off. |
| `Inflate.Inflater.constructor` | src/cmd/INIT/ratz.c:2329-2411 | A fresh raw decoder stands at the start of the stream. |
| `Inflate.Inflater.Run` | src/cmd/INIT/ratz.c:2806-3337 | The loop of modes ends, by the measure of input bits, output room and mode, and leaves only at the end, at an error, or for want of input or room. |
| `Inflate.Inflater.Step` | src/cmd/INIT/ratz.c:2806-3337 | One mode: either it leaves for want of input or room, or it uses up some of them, or it falls to a lower mode; the machine stays right. |
| `Inflate.Inflater.End` | src/cmd/INIT/ratz.c:3353-3362 | When a call ends, registers go back to the state, and the window holds the last min(output, 32768) bytes of all output if it is in use. |
| `Inflate.Inflater.DoMatch` | src/cmd/INIT/ratz.c:3265-3289 | A piece of a match, from the window before or behind its wrap-around or from the output, cut by the room left, copies what byte-by-byte copying over the whole history would. |
| `Inflate.Inflater.MatchSource` | src/cmd/INIT/ratz.c:3267-3280 | The place and length of the next piece of a match are those of its bytes in the window or in the output, within the room left. |
| `Inflate.Inflater.DoLit` | src/cmd/INIT/ratz.c:3290-3295 | A literal goes out as soon as there is room. |
| `Inflate.Inflater.DoCopy` | src/cmd/INIT/ratz.c:3039-3055 | Stored bytes are copied as far as input and room go, and the block ends behind the last. |
| `Inflate.Inflater.InflateFast` | src/cmd/INIT/ratz.c:2064-2299 | Entered with six bytes of input and room for 258, the fast path never overruns either; it keeps the machine right, hands back the bytes it did not need, less than eight bits stay, and avail_in and avail_out by its two-sided formulas are exactly what is left. |
| `Inflate.Inflater.FastTurn` | src/cmd/INIT/ratz.c:2117-2282 | One turn takes six input bytes at most and at most 258 bytes of room; it makes the output that the slow path would. |
| `Inflate.Inflater.FastMatch` | src/cmd/INIT/ratz.c:2183-2256 | The copy of the fast path, from the window in up to two pieces and then from the output, three bytes at a time, is byte-by-byte copying over the whole history. |
| `Inflate.Inflater.CopyRun` | src/cmd/INIT/ratz.c:3281-3288 | The byte loop of a match that does not cross a boundary is byte-by-byte copying, overlaps included. |
| `Inflate.Inflater.CopyThrees` | src/cmd/INIT/ratz.c:2231-2255 | Three bytes at a time and the rest singly is the same as byte by byte. |
| `Inflate.Inflater.UpdateWindow` | src/cmd/INIT/ratz.c:2542-2590 | After the output of a call was moved in, the window holds exactly the last min(total output, 32768) bytes. |
| `Inflate.Inflater.MoveSome` | src/cmd/INIT/ratz.c:2573-2588 | The circular case: new bytes up to the end of the window, and the rest at its start. |
| `Inflate.Inflater.Answers` | src/cmd/INIT/ratz.c:3296-3338 | Whenever a call returns, output so far is a prefix of the decoding; in mode DONE it is all of it and the next byte to be read is the one behind the final block. |
| `Window.HoldsMore` | src/cmd/INIT/ratz.c:2574-2587 | Writing new bytes up to the end of the window keeps it the last bytes of the history. |
| `Window.HoldsWrapped` | src/cmd/INIT/ratz.c:2573-2582 | Writing around the end of the window does so too. |
| `Window.HoldsAll` | src/cmd/INIT/ratz.c:2567-2572 | Output of a window size or more replaces the window by its last bytes. |
| `Machine.AtEnd` | src/cmd/INIT/ratz.c:2994-2999 | At the end of the stream no byte behind the final block has been taken, so a trailer is read at the right place. |
| `Machine.ModeFacts` | src/cmd/INIT/ratz.c:3095-3289 | What every mode can rely on: at each symbol boundary less than a byte is in the accumulator or every byte in it is needed; distances reach into the history. |
| `Machine.FastToSlow` | src/cmd/INIT/ratz.c:2284-2298 | After the bytes are given back the checked modes can go on. |
| `Machine.MatchDone` | src/cmd/INIT/ratz.c:3265-3289 | Any number of bytes of a match may be copied in one go; the rest of the match remains. |
| `Machine.LitDone` | src/cmd/INIT/ratz.c:3290-3295 | After a literal the next symbol is decoded. |
| `Machine.CopyDone` | src/cmd/INIT/ratz.c:3039-3055 | After a stored byte the next one is. |
| `Machine.Rebase` | src/cmd/INIT/ratz.c:2800-2805 | A call that resumes with more input stands where the call before stood. |
| `Machine.AtStart` | src/cmd/INIT/ratz.c:2329-2362 | The state of inflateReset stands at the start of the first block. |
| `Machine.StepType` | src/cmd/INIT/ratz.c:2992-3025 | The three header bits lead to the block they announce; after the final block the rest of its last byte is dropped. |
| `Machine.StepTable` | src/cmd/INIT/ratz.c:3056-3073 | The three sizes of a dynamic block; more than 286 or 30 codes are an error. |
| `Machine.StepLenLens` | src/cmd/INIT/ratz.c:3074-3094 | The code length code is read in its order, padded with zeros and made into a table, or refused. |
| `Machine.StepCodeLens` | src/cmd/INIT/ratz.c:3095-3168 | The lengths of both codes, with their repeats, and the two tables built from them, or an error. |
| `Machine.BuildCodes` | src/cmd/INIT/ratz.c:3147-3168 | Both tables are built in place behind one another; no table is refused for want of space. |
| `Machine.StepLen` | src/cmd/INIT/ratz.c:3176-3211 | A literal/length code is decoded one byte at a time to its literal, base, end of block or error. |
| `Machine.StepLenExt` | src/cmd/INIT/ratz.c:3212-3219 | The extra bits of a length. |
| `Machine.StepDist` | src/cmd/INIT/ratz.c:3220-3244 | A distance code to its base or to an error. |
| `Machine.StepDistExt` | src/cmd/INIT/ratz.c:3245-3264 | The extra bits of a distance; a distance that reaches behind the history is an error, and no other is. |
| `Machine.FixedTables` | src/cmd/INIT/ratz.c:2429-2531 | The fixed tables decode the fixed codes. |
| `Fixed.LenFixOk` | src/cmd/INIT/ratz.c:2429-2531 | The table lenfix, written by its generating rule, decodes exactly the code of section 3.2.6 of RFC 1951. |
| `Fixed.DistFixOk` | src/cmd/INIT/ratz.c:2429-2531 | So does distfix. |
| `SymbolSteps.ReadSymbol` | src/cmd/INIT/ratz.c:3176-3211 | LEN reads just as many bytes as the next code needs, and what follows is what the decoder of the format says; less than eight bits stay. |
| `SymbolSteps.ReadDistance` | src/cmd/INIT/ratz.c:3220-3244 | The same for DIST. |
| `SymbolSteps.ReadExtra` | src/cmd/INIT/ratz.c:3212-3264 | The same for the extra bits. |
| `SymbolSteps.FastItem` | src/cmd/INIT/ratz.c:2117-2182 | What one turn of the fast path reads is what the slow path reads: the same symbols, the same next boundary, within six bytes, though it looks ahead without asking. |
| `SymbolSteps.NeedsMore` | src/cmd/INIT/ratz.c:2284-2298 | A code that was only partly read when the fast path was entered is longer than what was read, so the byte given back is never one taken earlier. |
| `SymbolSteps.GiveBack` | src/cmd/INIT/ratz.c:2284-2298 | The bytes given back are exactly the whole bytes not used; the position in the stream stays. |
| `Steps.ReadType` | src/cmd/INIT/ratz.c:2992-3025 | The block header, or a wait for input. |
| `Steps.ReadStored` | src/cmd/INIT/ratz.c:3026-3038 | LEN and its complement at the byte boundary, or an error. |
| `Steps.ReadSizes` | src/cmd/INIT/ratz.c:3056-3073 | The 14 bits of sizes. |
| `Steps.ReadLengthLengths` | src/cmd/INIT/ratz.c:3074-3081 | The lengths of the code length code, three bits each, resumable after each. |
| `Steps.ReadLength` | src/cmd/INIT/ratz.c:3097-3141 | One code length or repeat; a repeat without a length before it or past the end is an error. |
| `Steps.ReadLengths` | src/cmd/INIT/ratz.c:3095-3145 | All of them, resumable after each. |
| `Steps.LengthAt` | src/cmd/INIT/ratz.c:3097-3103 | A root entry whose bits are there is the next code length: this table has no links. |
| `Steps.AlwaysCode` | src/cmd/INIT/ratz.c:3095-3103 | In a complete code some code begins every bit string or is cut off by its end. |
| `BitReader.FetchSym` | src/cmd/INIT/ratz.c:3176-3191 | The lookup loops read the fewest bytes that decode the next code and drop exactly its bits; if input runs out first, the code is not all there, and at the end of the stream it is cut off. |
| `BitReader.NeedBits` | src/cmd/INIT/ratz.c:2660-2666 | NEEDBITS: enough bits, or all input taken; the position in the stream stays. |
| `BitReader.TakeBits` | src/cmd/INIT/ratz.c:2669-2677 | BITS and DROPBITS: the next n bits of the stream, lowest first. |
| `BitReader.PullByte` | src/cmd/INIT/ratz.c:2652-2658 | PULLBYTE: one more byte above the bits held, which never are more than 32. |
| `Lookup.FindOk` | src/cmd/INIT/ratz.c:1552-1562 | Looking the bits at hand up in a good table finds the leaf of a symbol whose code begins them. |
| `Lookup.EntryTells` | src/cmd/INIT/ratz.c:3176-3191 | If all the bits of the entry found are at hand, it is the next symbol of the stream, whatever bits follow. |
| `Lookup.EntryWaits` | src/cmd/INIT/ratz.c:3176-3191 | If they are not and the stream ends, the code is cut off. |
| `Lookup.EntryStable` | src/cmd/INIT/ratz.c:2284-2298 | A code found with more bits was found before if its bits were there before. |
| `Resume.MatchStep` | src/cmd/INIT/ratz.c:3265-3289 | A match may be interrupted after any byte. |
| `Resume.LzPeriodic` | src/cmd/INIT/ratz.c:2243-2256 | Every byte of a match is the one a distance before it, also where it overlaps what it writes. |
| `Resume.SymbolStep` | src/cmd/INIT/ratz.c:3169-3211 | The decoder of the format after one symbol. |
| `Deflate.LengthTable` | src/cmd/INIT/ratz.c:1733-1738 | The tables lbase and lext are the lengths of section 3.2.5 of RFC 1951. |
| `Deflate.DistTable` | src/cmd/INIT/ratz.c:1739-1746 | The tables dbase and dext are its distances. |
| `InflateTable.Build` | src/cmd/INIT/ratz.c:1779-2002 | For every vector of lengths of at most 15: 0 exactly if it is empty, complete, or a lone code of one bit for lengths or distances; -1 exactly for the others; never 1 when there is room. The table, built in place behind base, then decodes exactly the canonical code: every 15-bit word finds, through one link at most and within bounds, the symbol whose code begins it; nothing else in the array changes. |
| `InflateTable.Fill` | src/cmd/INIT/ratz.c:1873-1996 | Entering the codes in order of length and symbol fills root table and sub-tables without a gap or an overlap. |
| `InflateTable.Decision` | src/cmd/INIT/ratz.c:1803-1811 | Over-subscribed sets and incomplete ones, but for the lone one-bit code, are refused. |
| `InflateTable.CodesLeft` | src/cmd/INIT/ratz.c:1804-1809 | The running left is negative exactly for over-subscribed sets and else what a complete code would have free. |
| `InflateTable.SortSymbols` | src/cmd/INIT/ratz.c:1813-1820 | The counting sort leaves the coded symbols by length and then by symbol. |
| `InflateTable.LookAhead` | src/cmd/INIT/ratz.c:1941-1949 | Looking ahead in the counts finds a width in which all codes of the block fit, and no wider than one of them needs. |
| `InflateTable.Replicate` | src/cmd/INIT/ratz.c:1905-1912 | The downward loop copies the entry to exactly the indices that end in the code bits. |
| `InflateTable.NextHuff` | src/cmd/INIT/ratz.c:1914-1923 | The backwards increment adds one to the code that is held with its bits reversed. |
| `InflateTable.MarkInvalid` | src/cmd/INIT/ratz.c:1964-1996 | The other half of a lone code is marked invalid. |
| `InflateTable.EnoughIsEnough` | src/cmd/INIT/ratz.c:1840-1846 | The sufficiency of ENOUGH, which the source leaves unproven, holds: whatever lengths are accepted, a literal/length table takes no more than 922 entries and a distance table no more than 1114, 2036 in all of 2048, so the two checks never fail. |
| `InflateTable.RoomBound` | src/cmd/INIT/ratz.c:1951-1954 | A bound on the entries of the table of any accepted lengths in terms of the root width and the number of codes. |
| `InflateTable.AcceptableFits` | src/cmd/INIT/ratz.c:1884-1886 | What is accepted fits that bound. |
| `TableProof.HoldsNext` | src/cmd/INIT/ratz.c:1889-1929 | Copying the k-th leaf extends what is decoded rightly from the words below the k-th code to those below the next. |
| `TableProof.HoldsOpened` | src/cmd/INIT/ratz.c:1932-1961 | Opening a sub-table disturbs nothing entered before, and there is space for it. |
| `TableProof.CompleteTable` | src/cmd/INIT/ratz.c:1889-1962 | With all codes of a complete set entered every word is decoded. |
| `TableProof.LoneTable` | src/cmd/INIT/ratz.c:1964-1996 | With a lone code entered and the other bit marked, every word is decoded or marked. |
| `TableProof.NextPaid` | src/cmd/INIT/ratz.c:1951-1954 | The space bound after one more sub-table: each code of a block of one length pays for an entry. |
| `TableProof.BlockFits` | src/cmd/INIT/ratz.c:1941-1949 | Every code of a block fits the sub-table made for it. |
| `Huffman.PrefixFree` | src/cmd/INIT/ratz.c:1779-2002 | A word begins with one canonical code at most. |
| `Huffman.CompleteCovers` | src/cmd/INIT/ratz.c:1779-2002 | In a complete code every word begins with one. |
| `Huffman.CodeStart` | src/cmd/INIT/ratz.c:1914-1929 | The codes in order, left-aligned in 15 bits, tile the words from zero. |
| `Huffman.Canonical` | src/cmd/INIT/ratz.c:1889-1929 | Section 3.2.2 of RFC 1951: the first code is zero, each next one starts where the one before it ends, and codes go by length and, of one length, by symbol. |
| `Huffman.PrefixesInterval` | src/cmd/INIT/ratz.c:1914-1923 | Counting up the reversed code goes through the words in order: a word begins with the k-th code exactly if its reversal lies between where that code starts and where the next does. |
| `Bits.MaskAndShift` | src/cmd/INIT/ratz.c:2669-2684 | Masks are remainders and shifts are quotients by powers of two. |
| `Adler32.Adler32` | src/cmd/INIT/ratz.c:1160-1229 | No sum ever exceeds 32 bits, and the result is the checksum of section 8.2 of RFC 1950, on all three paths and with both forms of the modulo, for every seed that a checksum can be; for the other seeds exactly when one subtraction suffices. |
| `Adler32.Compose` | src/cmd/INIT/ratz.c:1160-1229 | adler32(adler32(1, a), b) is adler32(1, a and then b). |
| `Adler32.InFull` | src/cmd/INIT/ratz.c:1160-1229 | The checksum from the start in full: one and the sum of all bytes, and the number of bytes and each byte as often as there are bytes from it on, both modulo 65521. |
| `Adler32.NmaxFits` | src/cmd/INIT/ratz.c:1116-1117 | NMAX bytes on top of any reduced sums stay within 32 bits. |
| `Adler32.NmaxLargest` | src/cmd/INIT/ratz.c:1116-1117 | NMAX + 1 bytes need not. |
| `Adler32.Mod` | src/cmd/INIT/ratz.c:1125-1158 | Subtracting shifted multiples of BASE is the remainder, for MOD and for MOD4. |
| `Adler32.ManyBytes` | src/cmd/INIT/ratz.c:1200-1228 | One reduction for each NMAX bytes and one for the rest. |
| `Adler32.FewBytes` | src/cmd/INIT/ratz.c:1188-1198 | Fewer than 16 bytes: one subtraction for the first sum and MOD4 for the second. |
| `Adler32.OneByte` | src/cmd/INIT/ratz.c:1173-1182 | A single byte: one subtraction for each sum. |
| `Adler32.Unsettled` | src/cmd/INIT/ratz.c:1173-1198 | Two seeds that no checksum can be, for which the result is not the checksum: the single-byte path subtracts once where twice was needed, and with no byte at all the first sum is reduced. |
| `Adler32.NextMod` | src/cmd/INIT/ratz.c:1119-1121 | One byte added to sums that were not reduced agrees, up to multiples of BASE, with adding and reducing. |
| `Adler32.ValidSeeds` | src/cmd/INIT/ratz.c:1169-1182 | Every checksum is a seed for which one subtraction suffices. |
| `StrMatch.StrMatch` | src/cmd/3d/strmatch.c:801-810 | For every well-formed pattern the matcher ends and returns true exactly if the string is in the language of the pattern. |
| `PatternLaws.SequenceLaw` | src/cmd/3d/strmatch.c:263-717 | What the language is, law by law: a sequence matches what can be cut in two, the first part by its first item and the other by the rest. |
| `PatternLaws.EmptyLaw` | src/cmd/3d/strmatch.c:433-455 | An empty sequence matches the empty string only. |
| `PatternLaws.OrLaw` | src/cmd/3d/strmatch.c:733-740 | Two patterns joined by a bar match what p or q matches. |
| `PatternLaws.AndLaw` | src/cmd/3d/strmatch.c:733-740 | Two sequences joined by & match what both match. |
| `PatternLaws.AnyLaw` | src/cmd/3d/strmatch.c:430-432 | ? matches exactly the strings of one character. |
| `PatternLaws.LitLaw` | src/cmd/3d/strmatch.c:690-714 | A character, escaped or not, matches itself only. |
| `PatternLaws.StarLaw` | src/cmd/3d/strmatch.c:361-429 | * matches every string. |
| `PatternLaws.RangeLaw` | src/cmd/3d/strmatch.c:652-656 | [a-b] matches exactly the single characters from a to b; if a is above b, just the two. |
| `PatternLaws.CharLaw` | src/cmd/3d/strmatch.c:677-684 | [a] matches a only. |
| `PatternLaws.UnionLaw` | src/cmd/3d/strmatch.c:456-688 | A set matches what one of its elements matches. |
| `PatternLaws.ChainLaw` | src/cmd/3d/strmatch.c:656-664 | a-b-c in a set stands for two ranges. |
| `PatternLaws.EscapeLaw` | src/cmd/3d/strmatch.c:614-615 | An escaped character in a set stands for itself. |
| `PatternLaws.NegationLaw` | src/cmd/3d/strmatch.c:456-470 | [!...] matches exactly the single characters that [...] does not. |
| `PatternLaws.ExactlyLaw` | src/cmd/3d/strmatch.c:296-360 | (p) and @(p) match what p matches. |
| `PatternLaws.OptionalLaw` | src/cmd/3d/strmatch.c:296-360 | ?(p) matches that and nothing. |
| `PatternLaws.NotLaw` | src/cmd/3d/strmatch.c:296-360 | !(p) matches exactly what p does not. |
| `PatternLaws.RepeatLaw` | src/cmd/3d/strmatch.c:296-360 | *(p) matches exactly the strings that are pieces behind one another which p matches, and +(p) those of one piece or more. |
| `PatternLaws.PartMatches` | src/cmd/3d/strmatch.c:263-717 | Whether a part of a string matches does not depend on where it stands. |
| `StrMatch.Match.StrGrpMatch` | src/cmd/3d/strmatch.c:746-799 | The whole string must match, by one of the alternatives. |
| `StrMatch.Match.GrpMatch` | src/cmd/3d/strmatch.c:719-740 | True exactly if one of the alternatives at p, each a conjunction, matches the substring. |
| `StrMatch.Match.ConjMatch` | src/cmd/3d/strmatch.c:733-740 | All sequences joined by & must match the same substring. |
| `StrMatch.Match.OneMatch` | src/cmd/3d/strmatch.c:261-717 | The backtracking over one sequence of items is complete and sound: true exactly if the sequence matches the whole substring. |
| `StrMatch.Match.GroupMatch` | src/cmd/3d/strmatch.c:296-360 | The five group operators by trying parts, shortest first, that are not empty where the group may be passed over. |
| `StrMatch.Match.StarMatch` | src/cmd/3d/strmatch.c:361-429 | A star, with the shortcut that skips to the next place where a literal behind it stands. |
| `StrMatch.Match.TakeOne` | src/cmd/3d/strmatch.c:456-714 | Brackets, escaped characters, ? and literals take one character. |
| `StrMatch.Match.Terminator` | src/cmd/3d/strmatch.c:433-455 | At the end of a sequence the substring must be used up. |
| `Gobble.Gobble` | src/cmd/3d/strmatch.c:186-251 | The loop finds what the scan defines, for every text. |
| `Gobble.GroupEnd` | src/cmd/3d/strmatch.c:186-251 | From inside a group gobble finds exactly the end of that group. |
| `Gobble.NextAlternative` | src/cmd/3d/strmatch.c:186-251 | From the start of an alternative gobble finds exactly the next one, or that there is none. |
| `Brackets.MatchBracket` | src/cmd/3d/strmatch.c:456-688 | The bracket loop computes what the rest of a bracket says of the character. |
| `Brackets.BracketMeans` | src/cmd/3d/strmatch.c:456-688 | On the text of a bracket it says whether the character is in the set that the bracket denotes, chained ranges, leading and trailing dashes, a first ] and unescaped [ included, and where the bracket ends. |
| `Brackets.EverySet` | src/cmd/3d/strmatch.c:456-688 | Every closed set in which no class or collating element starts, that is every plain one, is the text of a bracket of the syntax, so no plain set is left out of the theorem. |
| `Brackets.TryRanges` | src/cmd/3d/strmatch.c:623-665 | The end of a range that a dash follows is the start of another. |
| `Gobble.SkipBracket` | src/cmd/3d/strmatch.c:205-220 | gobble skips a bracket as a whole, whatever stands in it. |
| `Pattern.FirstPiece` | src/cmd/3d/strmatch.c:296-360 | A repetition that matches can be cut into pieces that are not empty. |
| `Pattern.ManyUnfolds` | src/cmd/3d/strmatch.c:296-360 | *(a) and the rest: the rest alone, or a piece that is not empty and the same again; no match is lost by this. |
| `Pattern.SomeUnfolds` | src/cmd/3d/strmatch.c:296-360 | +(a) is any piece and then *(a). |
| `Pattern.OptionalUnfolds` | src/cmd/3d/strmatch.c:296-360 | ?(a) is nothing or a piece that is not empty. |
| `MatchSteps.GroupMeans` | src/cmd/3d/strmatch.c:296-360 | The way a group is tried, with the start of the repetition remembered, finds a match exactly if there is one. |
| `MatchSteps.StarMeans` | src/cmd/3d/strmatch.c:361-429 | A star takes any part of the string. |
| `Dictionary.RunAll` | src/cmd/INIT/mamake.c:478-565 | The dictionary answers every sequence of lookups and insertions as a finite map does. |
| `Dictionary.Dict.Search` | src/cmd/INIT/mamake.c:478-565 | Every call keeps one search tree without sharing; the listing in order changes by at most the entry asked for, which becomes the root; the value returned is that of the map. |
| `Dictionary.Dict.Walk` | src/cmd/INIT/mamake.c:587-596 | The callback is called for the items in ascending order of names, each once, until it asks to stop. |
| `Dictionary.Apply` | src/cmd/INIT/mamake.c:567-585 | Recursion to the left and a loop to the right visit the items of a tree in order. |
| `Dictionary.Dict.Found` | src/cmd/INIT/mamake.c:528-553 | The pointer operations that make a found item the root keep all items in order. |
| `Dictionary.Dict.Entered` | src/cmd/INIT/mamake.c:539-553 | A new item becomes the root between the two halves. |
| `Dictionary.Dict.Missed` | src/cmd/INIT/mamake.c:554-564 | Without the name and a value the two halves are joined. |
| `Dictionary.LookupUpdate` | src/cmd/INIT/mamake.c:528-553 | Changing one entry changes the value of that name only. |
| `Dictionary.LookupInsert` | src/cmd/INIT/mamake.c:539-553 | A new entry gives a value to that name only. |
| `SplaySearch.Descend` | src/cmd/INIT/mamake.c:491-527 | The way down takes the tree apart into what is below the name, what is above it and what remains, in order, changing links of this tree only. |
| `SplaySearch.Reassemble` | src/cmd/INIT/mamake.c:528-553 | The parts are put below the item found. |
| `SplaySearch.Join` | src/cmd/INIT/mamake.c:554-564 | The parts are put together without it. |
| `ItemStore.RotateLeft` | src/cmd/INIT/mamake.c:124-124 | A rotation keeps the order of the items and changes two links. |
| `ItemStore.RotateRight` | src/cmd/INIT/mamake.c:124-124 | The mirrored one too. |
| `ItemStore.HangLeft` | src/cmd/INIT/mamake.c:491-527 | Hanging the root to the right end of the left tree changes one link there. |
| `ItemStore.HangRight` | src/cmd/INIT/mamake.c:491-527 | Hanging the root to the left end of the right tree changes one link there. |
| `Maker.MakeAll` | src/cmd/INIT/mamake.c:2357-2374 | Every run over every Mamfile, well nested or not, with any files, actions and targets, ends; its records are fair and tied to its log. It reads the whole Mamfile, and the log is all of its making, unless it is cut short at a fatal done line, which is never so under -k. The exit status is not 0 exactly if it is cut short, or some block went wrong or ended with the done line of another rule, or no action was a recursive run and a target that was named is made by no block. So every claim of MakeClaims and MakeCauses holds of every run. |
| `Maker.Maker.Mamfile` | src/cmd/INIT/mamake.c:2358-2361 | The same of a machine in any state between files, with what it recorded before kept. |
| `Maker.Maker.constructor` | src/cmd/INIT/mamake.c:2077-2084 | Nothing is recorded yet; the targets named are active, and all are if none is named. |
| `Maker.Maker.Verify` | src/cmd/INIT/mamake.c:1722-1731 | Exactly the rules that are active, were not made and did not fail are marked as failed, each counted once, whatever the options. |
| `Maker.Maker.Make` | src/cmd/INIT/mamake.c:1548-1717 | A block is read to its done line or to the end of the input; everything read is in the trace, and the rule then has the time and the state its record says. |
| `Maker.Maker.MakeLine` | src/cmd/INIT/mamake.c:1655-1666 | make: flags are given, the block behind it is read, its time is taken over unless it is ignored, and its failure always; nothing if the rule is being made. |
| `Maker.Maker.PrevLine` | src/cmd/INIT/mamake.c:1667-1679 | prev: the same for a rule made before. |
| `Maker.Maker.BindAll` | src/cmd/INIT/mamake.c:1591-1614 | bind: the libraries are bound and their times and failures taken over. |
| `Maker.Maker.OwnLine` | src/cmd/INIT/mamake.c:1638-1654 | exec: the target is generated, forgets the file of a lower view, and adds to its action if it is active. |
| `Maker.Maker.DoneLine` | src/cmd/INIT/mamake.c:1615-1637 | done: the action is run exactly if it is due; the target must be there then or be excused. |
| `MakeClaims.SkippedExactlyIfNewest` | src/cmd/INIT/mamake.c:1620-1633 | Over every run: the action of a target in the run is skipped as up to date exactly if nothing is forced, the target is there, and no file was newer that it depends on, directly or through others by edges that are not ignored, by the times that find and the shell report. The paths stop at the library files that bind lines bind; what is behind those is in MakeDeep. |
| `MakeDeep.SkippedDeepFiles` | src/cmd/INIT/mamake.c:1018-1036 | Behind libraries: a target that was skipped is no older than all files it depends on, also those that bound libraries were made from, exactly if for each such library that was made before, the block that made it ended with a time no later than that of the target; for a bind line gives the library the time of its file again. |
| `MakeDeep.SkippedDeep` | src/cmd/INIT/mamake.c:1018-1036 | The same over the times in the trace. |
| `MakeStale.SkippedThoughStale` | src/cmd/INIT/mamake.c:1601-1606 | A Mamfile, well nested, all active and nothing forced, with a library that is bound: in every run that is not cut short and in which its file is not newer than the program, whatever the shell does, the program is skipped though the source of the library is newer. |
| `MakeClaims.RunExactlyIf` | src/cmd/INIT/mamake.c:1620-1633 | An action is run exactly if all is active or a target named on the command line is being made, there is an action, it is forced or the target is not the newest by the reported times, and neither the target nor anything it looked at had failed. |
| `MakeClaims.FailsExactlyIf` | src/cmd/INIT/mamake.c:341-357 | A block fails exactly if its target had failed before, it looked at a failed record, its action ran in the shell with a nonzero code that is not ignored, or its target is not there and not excused. |
| `MakeClaims.ExcusedExactlyIf` | src/cmd/INIT/mamake.c:1634-1636 | A target counts as there exactly if so far in the run a look for its file found one, its action left it there or was not run by the shell, an exec line generated it, or a line applied to it says dontcare, generated, implicit or virtual. |
| `MakeMeaning.CulpritIff` | src/cmd/INIT/mamake.c:1187-1193 | A block went wrong itself exactly if its target counts as missing, or its action ended in the shell with a code other than zero that is not ignored; recursive runs are run by the shell unless -N is given, and others unless -n or -N is. |
| `MakeMeaning.FailedBeforeIff` | src/cmd/INIT/mamake.c:353-356 | A target had failed before its block exactly if the log has a mark of its failure by then. |
| `MakeMeaning.BindsExactly` | src/cmd/INIT/mamake.c:1591-1614 | A bind line binds all its libraries, in order, but in feature tests and for configure.h, where it binds none. |
| `MakeClaims.UsesUnlessIgnored` | src/cmd/INIT/mamake.c:1655-1679 | A make or prev line takes over the time of the rule it names exactly if no line applied so far gave that rule the attribute ignore; a bind line always takes it over. |
| `MakeClaims.TimesAreOfFiles` | src/cmd/INIT/mamake.c:1018-1036 | The time of a record is what the shell leaves behind the action that was run, else what find reports at the line where the target was bound, else what the rule had before. |
| `MakeMeaning.TimesAre` | src/cmd/INIT/mamake.c:1253-1276 | The same case by case, by what find and the shell answer. |
| `MakeMeaning.TimeBehind` | src/cmd/INIT/mamake.c:1638-1645 | What each event makes of the time of its rule; an exec line takes away the time of a file in a lower view. |
| `MakeMeaning.LowerIff` | src/cmd/INIT/mamake.c:1030-1033 | A rule is bound to a file of a lower view exactly if one was found there and no exec line came since. |
| `MakeCauses.FailsOnlyWithCause` | src/cmd/INIT/mamake.c:341-357 | A whole run has a failure exactly if some action went wrong and is not ignored, or some target was not there and not excused: no failure comes from nowhere. |
| `MakeCauses.CulpritBehind` | src/cmd/INIT/mamake.c:1601-1676 | Behind every mark of a failure there is a record that went wrong itself. |
| `MakeCauses.ActionsAccounted` | src/cmd/INIT/mamake.c:1620-1633 | Every action of a whole run is that of one block, once, at its done line, which is in the run, is forced or not the newest, and saw no failure; a recursive run is left to the shell exactly without -N, and any other exactly if actions are executed. |
| `MakeCauses.Accounted` | src/cmd/INIT/mamake.c:1548-1717 | Every event of the log is that of a record made by then: an attribute of one of its lines, a look for its file, its action, its failure with the reason, or its end. |
| `MakeStatus.ErrorsAre` | src/cmd/INIT/mamake.c:2364-2374 | With what the walk over the targets adds, the errors counted are none exactly if no record is at fault, and a recursive run was made or every target named is made by some block. |
| `MakeStatus.StatusDone` | src/cmd/INIT/mamake.c:1615-1637 | A done line keeps the count of errors, the mark of a recursive run and the marks of rules made in step with the records, though an improper done line sets the count back to one. |
| `MakeStatus.LeftoverIf` | src/cmd/INIT/mamake.c:1722-1731 | While nothing went wrong there are targets left over exactly if one was named that no block makes. |
| `MakeExit.Exits` | src/cmd/INIT/mamake.c:341-357 | An exit at a done line is not under -k, and its cause is in the log: the action is run there, goes wrong and that is not ignored, or the target is not there behind it and not excused. |
| `MakeExit.AllRight` | src/cmd/INIT/mamake.c:341-357 | A run that is not under -k and was not cut short has no block whose action went wrong or whose target was missing. |
| `MakeMirror.MirrorBind` | src/cmd/INIT/mamake.c:1018-1036 | bind: the time, the view and the existence of a rule are what the log says after a look for its file. |
| `MakeMirror.MirrorGive` | src/cmd/INIT/mamake.c:1389-1426 | attributes: the flags of a rule are those that the lines logged for it give. |
| `MakeMirror.MirrorGenerate` | src/cmd/INIT/mamake.c:1638-1645 | exec: the rule is generated, and a file in a lower view is forgotten. |
| `MakeMirror.MirrorAction` | src/cmd/INIT/mamake.c:1253-1276 | run: the time after an action is that of the target if the shell ran and it is there, else the time of day. |
| `MakeMirror.MirrorFail` | src/cmd/INIT/mamake.c:353-356 | dont: the rule is marked as failed. |
| `MakeEnds.TellBegin` | src/cmd/INIT/mamake.c:1560-1570 | A block starts with the look for its target; it is active exactly if all is or a named target is being made. |
| `MakeEnds.TellRun` | src/cmd/INIT/mamake.c:1249-1276 | run: a nonzero code marks the target as failed exactly if the shell ran and errors are not ignored, whatever the target is. |
| `MakeEnds.TellJudged` | src/cmd/INIT/mamake.c:1634-1636 | A target that is not there then fails exactly if no attribute excuses it. |
| `MakeEnds.TellDone` | src/cmd/INIT/mamake.c:1615-1637 | The record of a block that ends is tied to the log: what was decided, when, the action, and the failure. |
| `MakeTies.TellLooked` | src/cmd/INIT/mamake.c:1655-1679 | What a make or prev line saw is tied to the log: whether to ignore the rule, and a failure it passes on. |
| `MakeTies.TellLib` | src/cmd/INIT/mamake.c:1601-1608 | So is each library of a bind line. |
| `MakeTrace.SkippedExactlyIfNewest` | src/cmd/INIT/mamake.c:1620-1633 | The same over the times in the trace: an action is skipped exactly if nothing is forced, and the target is there and no older than anything on a path of dependencies, where paths stop at bound library files. |
| `MakeTrace.EndsOnPath` | src/cmd/INIT/mamake.c:1655-1716 | The time a block ends with is that of a file it depends on, or its own. |
| `MakeTrace.SkippedOnlyIfNewest` | src/cmd/INIT/mamake.c:1620-1633 | One direction of it, path by path: an action is skipped as up to date only if nothing is forced, the target is there, and it is at least as new as every file on the path, which stops at bound library files. |
| `MakeTrace.DueExactlyIf` | src/cmd/INIT/mamake.c:1620-1633 | An action in an active target is skipped exactly if nothing is forced and the target is there, no older than its file was and than all that it used; and it is not skipped otherwise. |
| `MakeTrace.Newest` | src/cmd/INIT/mamake.c:1655-1716 | Times never fall along the paths by which they are taken over. |
| `MakeTrace.FailureSpreads` | src/cmd/INIT/mamake.c:341-357 | A failure is a failure of all that depend on it, directly or through others and also by ignored edges, and none of their actions is run; there is one only under -k. |
| `MakeTrace.SeenEarlier` | src/cmd/INIT/mamake.c:1548-1717 | A block looks at blocks that ended before it: dependencies have no cycles, whatever the Mamfile. |
| `MakeLines.Decision` | src/cmd/INIT/mamake.c:1615-1637 | What is decided at the done line: a target that failed is barred from its action, one that is not there and not excused fails, and without -k none is ever marked as failed. |
| `MakeLines.FairEnd` | src/cmd/INIT/mamake.c:1615-1637 | The record of a block that ends at its done line is fair. |
| `MakeLines.Ended` | src/cmd/INIT/mamake.c:1615-1715 | After a block ended all that is known of rules still holds. |
| `MakeLines.LookedAt` | src/cmd/INIT/mamake.c:1655-1679 | What a make or prev line takes over is the time and the state of the latest record of that rule. |
| `MakeLines.BindOne` | src/cmd/INIT/mamake.c:1018-1036 | Binding a library makes a record of its file, also if the library is itself being made. |
| `MakeSteps.RunOnly` | src/cmd/INIT/mamake.c:1189-1280 | Running an action changes the target only. |
| `MakeSteps.WithinLater` | src/cmd/INIT/mamake.c:1655-1666 | A block read inside leaves the outer one as it was. |
| `MakeWalk.RecurseOver` | src/cmd/INIT/mamake.c:2055-2061 | The recursion by the walks over the dictionary of rules: with every rule entered, in any shape of the tree, it runs what Recurse runs. |
| `MakeWalk.RulesOf` | src/cmd/INIT/mamake.c:571-596 | The walk hands every rule entered in the dictionary to the callback. |
| `MakeOrder.Recursion.Recurse` | src/cmd/INIT/mamake.c:2055-2061 | On every graph of directories, cyclic or not: the recursion ends and runs each directory at most once; it runs only what is needed by a directory asked for (all of them if all is active, else those with the names of active targets, and the initializers), and all of that but for base names of directories that were run; without such aliases exactly what is needed, which is every directory if all is active, and on acyclic graphs each behind all that it needs. |
| `MakeOrder.AskedAreTops` | src/cmd/INIT/mamake.c:1971-1973 | What the walk takes up is what is asked for: every directory if all is active, else those with the names of active targets, and the initializers. |
| `MakeOrder.Recursion.Update` | src/cmd/INIT/mamake.c:1749-1775 | A directory and what it needs are run, each once, the needed before it but for cycles and aliases. |
| `MakeOrder.Recursion.Start` | src/cmd/INIT/mamake.c:1805-1817 | Initializers are made while the makefiles are scanned. |
| `MakeOrder.Recursion.Walk` | src/cmd/INIT/mamake.c:1963-1974 | The walk takes up every directory, or those named as active targets, that are not made yet. |
| `MakeOrder.InOrder` | src/cmd/INIT/mamake.c:1766-1771 | Running a directory when all it needs is made keeps the order. |
| `MakeOrder.OnPath` | src/cmd/INIT/mamake.c:1766-1768 | A directory on the way down reaches the one being made. |
| `MakeOrder.Finished` | src/cmd/INIT/mamake.c:1963-1974 | What the order of flags comes to when the walk is over. |
| `MakeOrder.AllAlong` | src/cmd/INIT/mamake.c:1766-1768 | Without aliases every directory on a path from a top is run. |
| `MakeOrder.LateStill` | src/cmd/INIT/mamake.c:1763-1764 | A base name that is itself a directory is run behind its alias only if it needs it. |
| `ViewTable.Table.Search` | src/cmd/3d/lib.c:340-451 | Find, store and delete on the sorted array, in place: as a finite map with room for 32 keys that keeps the first value of a key; entries stay strictly sorted. |
| `ViewTable.Table.Prefix` | src/cmd/3d/lib.c:353-385 | The prefix mode, with its early exits, finds the longest entry not visited that is the path or a directory on the way to it, and marks it visited. |
| `ViewTable.LongestMeans` | src/cmd/3d/lib.c:353-385 | The entry found is the longest, not visited, that is the path or is followed in it by a slash. |
| `ViewTable.LeadsMeans` | src/cmd/3d/lib.c:364-367 | A key leads to itself and to what goes on behind it with a slash. |
| `ViewTable.NeverLonger` | src/cmd/3d/lib.c:374-379 | In a sorted table the exit that compares lengths is never taken. |
| `ViewTable.NoneBeyond` | src/cmd/3d/lib.c:372-373 | Behind the first larger key there are no more prefixes. |
| `ViewTable.TakeThis` | src/cmd/3d/lib.c:364-371 | Of two entries that lead to the path the later one is the longer. |
| `ViewTable.ServesMap` | src/cmd/3d/lib.c:340-451 | Each request is served as the bounded finite map would serve it. |
| `ViewTable.RunRequests` | src/cmd/3d/lib.c:340-451 | The table answers every sequence of requests as the bounded map does. |
| `ViewTable.Table.Insert` | src/cmd/3d/lib.c:441-443 | Making room moves the entries behind the place up. |
| `ViewTable.Table.Remove` | src/cmd/3d/lib.c:419-420 | Removing an entry moves those behind it down. |
| `ViewTable.Contrasts` | src/cmd/3d/lib.c:400-436 | The character loop finds how a key compares with an entry, by unsigned characters. |
| `PathNext.Next` | src/cmd/3d/pathnext.c:46-111 | If there is an entry within the level limit, the buffer holds the path with the key replaced by the value, one level down and with the entry visited; else nothing changes. |
| `PathNext.NextWith` | src/cmd/3d/pathnext.c:46-111 | The same with text kept behind the path, which ends up right behind it. |
| `PathNext.Substitute` | src/cmd/3d/pathnext.c:65-106 | Shifting left, right or not at all, in place, makes value and rest of the path. |
| `PathNext.Splice` | src/cmd/3d/pathnext.c:78-109 | The text behind the path is moved out of the way and back. |
| `PathNext.MoveTail` | src/cmd/3d/pathnext.c:65-101 | The rest of the path is moved to where it belongs without being overwritten first. |
| `PathNext.StrCopy` | src/cmd/3d/pathnext.c:70-75 | A forward copy to a lower place copies the string. |
| `PathNext.ShiftRight` | src/cmd/3d/pathnext.c:82-100 | A backward loop moves a stretch to a higher place. |
| `PathReal.Descend` | src/cmd/3d/pathreal.c:357-451 | The descent stops at the first path of the chain of rewrites that is there, at a level that is the number of rewrites, or at its end, and succeeds unless that path is marked as removed; it ends for every table, cyclic ones included, for each step uses a new entry. |
| `PathReal.CheckOpaque` | src/cmd/3d/pathreal.c:31-79 | checkopaque: a file is removed exactly if it has several links, no permission bits, and is the file .../... of its directory or, if there is none, the file ...; the buffer is as it was before. |
| `PathReal.LookForMark` | src/cmd/3d/pathreal.c:47-77 | The name of the mark, of the new or of the old kind, is written over the last component and what was there is restored. |
| `PathReal.TakenBound` | src/cmd/3d/pathnext.c:53-57 | No descent is longer than the table. |
| `PathReal.LeftOne` | src/cmd/3d/pathnext.c:63-106 | What one entry can add to a path is bounded by its value. |
| `UnionAgree.ListedIffFound` | src/cmd/3d/dir3d.c:107-146 | The union listing against lookup, over any file system: read to its end the stream returns each name once, and a name, other than hidden ones, exactly if the descent finds its file and it is not a link to the mark of the directory. That agrees with what the descent says exactly if the name is not removed by a mark with permission bits. |
| `UnionAgree.OpaqueIff` | src/cmd/3d/pathreal.c:36-79 | A name that has the inode of the mark is opaque to lookup exactly if the mark has no permission bits. |
| `UnionAgree.SameMark` | src/cmd/3d/dir3d.c:107-114 | The inode that the stream goes by is that of the file that checkopaque looks for, of the new kind or the old. |
| `UnionAgree.MarkWithMode` | src/cmd/3d/pathreal.c:47-48 | A directory with a mark that has a permission bit: a name that the listing drops is found. |
| `UnionAgree.ListAndFind` | src/cmd/3d/dir3d.c:70-147 | Opening, reading to the end and looking a name up, done one after the other, agree with that one exception; this holds for every name but those that begin with three dots, and none of these is listed. |
| `UnionAgree.ListedLevels` | src/cmd/3d/dir3d.c:183-233 | A name is listed exactly if the first level that has it does not have it removed. |
| `UnionAgree.ListingNames` | src/cmd/3d/dir3d.c:213-233 | Without boundaries no name is returned twice. |
| `UnionAgree.Aligned` | src/cmd/3d/pathreal.c:428-430 | The descent of a name goes by the same entries as the descent of its directory. |
| `UnionAgree.SameDepth` | src/cmd/3d/pathreal.c:357-451 | It goes no further down than the directory, and as far if it finds nothing. |
| `UnionAgree.CoveredLevels` | src/cmd/3d/dir3d.c:217-223 | The overlay covers a name exactly if an earlier level has it. |
| `UnionAgree.ShownIf` | src/cmd/3d/dir3d.c:191-231 | The first view that has a name returns it unless its inode is the opaque one. |
| `UnionDir.Stream.Open` | src/cmd/3d/dir3d.c:70-147 | The views of a directory are those paths of its chain that can be opened, each with its level and its opaque inode. |
| `UnionDir.Stream.Read` | src/cmd/3d/dir3d.c:168-233 | Each call returns the next entry of the listing, or none when all views were read. |
| `UnionDir.Stream.ReadAll` | src/cmd/3d/dir3d.c:168-233 | Read to exhaustion, the stream returns the whole listing, in which no name begins with three dots. |
| `UnionDir.ListingHides` | src/cmd/3d/dir3d.c:196-211 | No entry returned has a name that begins with three dots. |
| `UnionDir.BoundaryOthers` | src/cmd/3d/dir3d.c:217-219 | With boundaries all is listed as without them, but for the entry of the directory itself. |
| `UnionDir.BoundaryDot` | src/cmd/3d/dir3d.c:217-219 | With boundaries the entry of the directory itself is listed for every view that has it and does not remove it. |
| `UnionDir.Advance` | src/cmd/3d/dir3d.c:191-231 | An entry is returned exactly if it is not hidden, not covered by an upper view and not opaque. |
| `UnionDir.Tells` | src/cmd/3d/dir3d.c:217-219 | The overlay, which keeps the first view of each name, tells whether an upper view has it. |
| `UnionDir.EntryRead` | src/cmd/3d/dir3d.c:217-223 | Putting a name into the overlay keeps it so. |
| `UnionDir.ViewRead` | src/cmd/3d/dir3d.c:183-190 | So does going to the next view. |
| `PathCanon.Canon` | src/cmd/3d/pathcanon.c:36-155 | In place, with a writer that never passes the reader, an absolute path becomes its canonical form, and its end is returned. |
| `PathCanon.CanonicalMeans` | src/cmd/3d/pathcanon.c:47-155 | The canonical form drops empty and . components and goes up on .., not beyond the root; a slash or a slash and dot at the end is kept. |
| `PathCanon.DotIff` | src/cmd/3d/pathcanon.c:141-151 | The canonical form ends in a dot exactly if the path does, or if it ends in .. with a dot before that and no name in between. |
| `PathCanon.KeptDot` | src/cmd/3d/pathcanon.c:94-102 | The dot of /a/./.. is kept though its directory is gone: the result is /. and not /. |
| `PathCanon.DottedMeans` | src/cmd/3d/pathcanon.c:73-88 | What the flag for the dot is at any time: a dot was read, and no name since. |
| `PathCanon.FinishMeans` | src/cmd/3d/pathcanon.c:50-152 | What the loop makes of the rest of a path is what resolving its components makes. |
| `PathCanon.NeverLonger` | src/cmd/3d/pathcanon.c:47-155 | The canonical form is never longer than the path. |
| `PathCanon.Idempotent` | src/cmd/3d/pathcanon.c:47-155 | A canonical path is its own canonical form. |
| `PathCanon.CanonicalShape` | src/cmd/3d/pathcanon.c:47-155 | A canonical path is a directory of names and an end. |
| `PathCanon.Start` | src/cmd/3d/pathcanon.c:56-140 | At the start of a component it is skipped, acted on or copied, as it should be. |
| `PathCanon.Back` | src/cmd/3d/pathcanon.c:94-100 | Going back finds the slash before the last component written. |
| `PathCanon.Ending` | src/cmd/3d/pathcanon.c:141-155 | The dot that is kept and the end of the string. |
| `MapText.RoundTripIff` | src/cmd/3d/map.c:35-178 | Reading the words of what was written back makes the same map exactly if the table is not an empty one written for exec and its first key is not the word vpath written without the prefix. In that last case keys are read as values; those that begin with /# mapset would take for special commands, which the map of the words does not show. |
| `MapText.WriteAndRead` | src/cmd/3d/map.c:611-670 | mapdump and then mapinit into an empty table make the same table. |
| `MapText.RoundTrip` | src/cmd/3d/map.c:35-178 | The text of a table that survives stands for the map of that table. |
| `MapText.ReadsShifted` | src/cmd/3d/map.c:624-647 | A first key taken for the prefix shifts all words by one. |
| `MapText.BogusEntry` | src/cmd/3d/map.c:121-178 | The prefix without its space is read as a key. |
| `MapText.Dump` | src/cmd/3d/map.c:121-178 | mapdump writes the mappings with a space or the end behind each, and the prefix for exec. |
| `MapText.TwoMappings` | src/cmd/3d/map.c:121-178 | The text of mappings: words with a space between, the prefix for exec and init, a newline at the end for init; what an empty table leaves. |
| `MapText.Load` | src/cmd/3d/map.c:611-670 | mapinit enters the pairs of words, the first value of a key being kept and a lone dash standing for an empty word. |
| `MapText.LoadedIs` | src/cmd/3d/map.c:485-531 | Each key is loaded with its first value, of which a dash means none. |
| `MapText.LoadedFrom` | src/cmd/3d/map.c:485-531 | No other key is loaded. |
| `MapText.Set` | src/cmd/3d/map.c:485-531 | mapset while tables are initialized enters a mapping unless its key is there. |
| `MapText.ReadsBack` | src/cmd/3d/map.c:632-668 | The words of what was written are the keys and values in order. |
| `MapText.SameTable` | src/cmd/3d/lib.c:340-451 | Sorted tables with the same map are the same table. |

## Left out

- Inflate.Inflater.Inflate: raw mode with a window of 32768 bytes, as `gz_open` asks for; no zlib or gzip header, no preset dictionary, no `inflateSync` or `inflateCopy`; a failed allocation of the window (`Z_MEM_ERROR`), the total counters and `data_type` are not modelled, nor is a stream error for null pointers.
- Driver.DecodeAll: of `gzread` only how it feeds `inflate`; the crc and the length behind the stream, the gzip header and plain files are not modelled.
- Fixed.LenFixOk: the fixed tables are written by the rule that generates them; the literal numbers of the source are not compared with them.
- InflateTable.Build: an increment of a power of two is held as its exponent, and `count` and `offs` are sequences that are reassigned.
- Adler32.Adler32: crc32 is not modelled. For seeds that no checksum can be the result differs from the checksum where `Settled` says; `Unsettled` has two of them.
- StrMatch.StrMatch: back references, classes and collating elements (`[[:`, `[[=`, `[[.`), malformed patterns, locales, multibyte characters and ignoring of case are left out; of group offsets nothing is kept, since `strmatch` asks for none. Characters are compared by number; where `char` is signed the source orders bytes from 0x80 on below ASCII in a range.
- Dictionary.RunAll: items are cells of an explicit store from addresses to cells instead of heap objects; running out of memory is left out.
- Maker.Maker.Make: variable substitution, probing and `setv` lines are left out, an action being a list of the texts of its exec lines as they stand, and the test for a recursive run is made on the first of them, where the source makes it after substitution; which libraries a `bind` line stands for is given with the line. File times, exit codes and the clock are oracles, asked with the number of lines read, since the file system may change in between. Lines are given as they are understood, with the names of attributes read; one that is not understood is skipped as in the source.
- MakeOrder.Recursion.Recurse: the scanning of makefiles for prerequisites is left out; the graph it makes is the input, on which nothing is assumed. The order of the walk may be any.
- MakeWalk.RecurseOver: under a view the command of an initializer is looked up in the dictionary that scan is walking (`src/cmd/INIT/mamake.c:1215`), which may move items past the walk; for that case Recurse is stated for the walk as given, and this composition does not cover it.
- ViewTable.Table.Search: ownership of strings (`T_ALLOCATE`), mounts and intercepts are left out; the array has one more slot, which a deletion reads. The visited mask is a set of entry indices.
- PathNext.Next: the room in the buffer is a precondition, which the source leaves to its callers.
- PathReal.Descend: symbolic links, version instances, safe mode, mounts, relative paths to the current directory and copying to the top view are left out; an error other than a missing entry ends the descent. Inode and device of a file are one number.
- PathCanon.Canon: relative paths, and the `...` operator, which needs the view tables; in 2d mode such components are names, and that case is covered.
- UnionDir.Stream.Open: the path of the opaque file is formed as a value instead of behind the path in the buffer; 2d mode, `seekdir` and `telldir` are left out.
- UnionAgree.ListedIffFound: no key of the table may be the path, whole, of one of the views of the directory or of the name, since a key of that kind leads a lookup elsewhere than the directory; a mark of the old style must be listed before the names it removes. Of the file system it is asked that lstat finds in a directory what that lists, and that a file with two names has two links; mount points inside the directory are left out.
- MapText.RoundTripIff: for a table with the first key `vpath` and keys that begin with `/#` it speaks of the words, not of the special commands that mapset would find among them.
- MapText.WriteAndRead: tables other than the view table, special commands (`/#`) and changes of the table after initialization are left out.
- tar extraction, the Windows code and the rest of ratz.c: input and output.
- The table text codec of `src/cmd/3d/init.c`: its encoder and decoder use different conventions, so there is no round trip.
- proto.c, the system call wrappers of `3d` and its server messages: no algorithm of their own.
