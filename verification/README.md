# A verified model of the Inferno C libraries

The repository holds the portable C of Inferno: the Plan 9 libraries lib9, libbio
and libdraw, and the Dis runtime with its just-in-time compilers. This project
models the parts whose correctness is not to be seen from any one function, each
in the form the C code has: methods with loops over buffers, classes whose fields
the methods update, shared objects, and interleaved steps where the code is run by
several processes. What each part is for is then proved of all inputs and all runs.

| files | what they model | main results |
|---|---|---|
| `CompressedImage`, `ImageReference`, `ImageChains`, `ImageWriter` | the LZ77 writer of compressed images (libdraw/writeimage.c, computil.c) | the blocks are, code by code, those of a reference compressor that searches the whole window; every image comes back from them; a line costs at most twice its length, so the writer cannot fail |
| `QLockProtocol`, `RWLockProtocol`, `RWLockCalls` | QLock and RWlock (lib9/lock.c), one memory access a step | every run of a QLock refines a FIFO lock; no writer together with a reader; the `canqlock` whose result is ignored cannot go wrong; each call does what it promises; no wake-up is lost, and no spinning is in vain |
| `ArmMachine`, `ArmConstants`, `ArmLiterals`, `ArmProgram`, `ArmCase` | constants, the literal pool, memory operands and the case statement (libinterp/comp-arm.c) | the finished code performs every operation asked for, in order; the case macro leads where the table says |
| `MipsMachine`, `MipsLong`, `MipsCode`, `MipsBranch` | 64-bit operations on 32-bit MIPS (libinterp/comp-mips.c) | sums, differences, shifts by any count and all six branches are those of 64-bit numbers, delay slots included |
| `BufferedInput` | the read side of libbio | all mixtures of calls deliver the file's bytes once and in order; exactly when the bytes after a seek are the right ones |
| `FontCache` | the cache of character images (libdraw/font.c) | the slots of a string survive every load, eviction and resize; which runes are taken, passed over and waited for; exactly when a load makes a cell show the wrong rune |
| `AltSelect`, `Rendezvous` | alt, the select of Dis (libinterp/alt.c), isend and irecv (libinterp/xec.c), and killprog (emu/port/dis.c), as far as the queues go | outcome, queues and buffers of every alt, whoever the partner is; exactly when a nil pointer is followed; in every run programs wait at their places, and never for what is there |
| `Fcall9P`, `Wire9P`, `Conv9P` | 9P2000 messages (lib9/convS2M.c, convM2S.c) | every message byte by byte; exactly the well-formed ones survive writing and reading in place |
| `PathName` | `cleanname` (lib9/cleanname.c) | the result in place is the normal form, which leads to the same place |
| `Quoting`, `Tokens` | quoted printing and tokenizing (lib9/fmtquote.c, tokenize.c) | tokenizing the printed line gives the strings back, rune by rune; the lengths are foreseen exactly |

`Basics`, `ByteStrings` and `Words` hold what several of them share.

The repository has no decoder for compressed images. `CompressedImage.Decode` follows
the comment at libdraw/computil.c:4-8, the constants at include/draw.h:523-527 and
image(6), section 6 of the Plan 9 manual. The messages of `Fcall9P` are those of
intro(5), section 5 of the same manual.

Some of what one would like to hold does not. There the code is modelled as it is,
and what is proved is the exact condition, with a run that shows the failure:

- After a seek within the buffer the file's bytes follow if and only if the distance
  from the end of the buffer is above -2^31 and what is stale of the bytes gone back
  over happens to equal the file's (`BufferedInput.Biobuf.Bseek`). Bytes are stale
  only after `Bgetc` has met the end of the file; a caller that heeds both can seek at
  will (`BufferedInput.Wander`). `BufferedInput.SeekAfterEnd` tells for all files which
  byte comes otherwise, `BufferedInput.StaleSeek` and `FarSeek` are runs.
- `Brdline` loses what was pushed back beyond a full buffer, if no line is found
  (`BufferedInput.Biobuf.Brdline`, `BufferedInput.PushbackLost`).
- The passes of an alt agree in what is ready if and only if no receive entry is made
  ready by the alt's own send (`AltSelect.CountsAgree`). If the number drawn picks such
  an entry, with no other sender, and then exactly, the program is its own partner and
  reads the item through a nil pointer (`Rendezvous.OwnPartner`); `MeetsItself` is a run.
- `altdone` follows a nil queue exactly if the program alone filled a queue with two
  nodes and the alt names it twice (`AltSelect.AltDone`). That may be the program's own
  altdone, on queues that its partner has just left, or its partner's
  (`Rendezvous.Xecalt`, `Isend`, `Irecv`, `KillProg`); `NullQueue`, `PartnerGone` and
  `PartnerLost` are runs.
- Cells of the font's image that show what their slots say stop doing so exactly if a
  load that needs no resize cannot be sent into a slot in use, or is drawn outside the
  image or over another picture (`FontCache.Font.LoadChar`, with `Font.Spoils`).
  `FontCache.Mistaken` is the first case in general, `FailedLoad` and `FailedResize`
  are runs.

Where the comments of the code and the code differ, the code is followed. Reads,
messages, allocations and subfont look-ups have any outcome they can have: a
nondeterministic choice in the model.

To check the project, run `dafny verify dfyconfig.toml`.

## Model

| member | source | states |
|---|---|---|
| CompressedImage.DecodeAppend | libdraw/computil.c:4-8 | decoding is incremental: after a well-formed prefix of codes the rest decodes as if the prefix had been decoded first |
| CompressedImage.DecodeDump | libdraw/computil.c:4-8 | the code of 1 to 128 literal bytes decodes to exactly those bytes |
| CompressedImage.DecodeCopy | libdraw/computil.c:4-8 | a two-byte code with length 3 to 34 and offset field 0 to 1023 decodes to the repeat of that many bytes from that far back |
| CompressedImage.CopyBackIs | libdraw/computil.c:4-8 | a byte-by-byte repeat that may overlap its own output yields the text, if the text does repeat there |
| CompressedImage.DecodeParses | libdraw/computil.c:4-8 | every block that decodes is cut into whole codes by looking at the first byte of each |
| CompressedImage.TwiddleCompressed | libdraw/computil.c:9-25 | the in-place pass leaves the twiddled form of the whole buffer: code bytes and repeats as they were, literals complemented |
| CompressedImage.TwiddledTwice | libdraw/computil.c:9-25 | twiddling is its own inverse on every well-formed block, and keeps it well-formed |
| CompressedImage.TwiddledDecodesToComplement | libdraw/computil.c:9-25 | a twiddled block decodes, from the complemented text, to the complement of what the block decodes to, or fails where it fails, overlapping repeats included |
| ImageChains.RunningHash | libdraw/writeimage.c:81-83 | after three bytes the running hash is that of the three bytes alone, and one more byte moves it on to the next three |
| ImageChains.WalkIsChain | libdraw/writeimage.c:96-96 | following the next pointers from a node lists the older positions of its hash in the window |
| ImageChains.ChainIsSound | libdraw/writeimage.c:94-117 | what is on a chain is in the window, has the chain's hash, and comes newest first |
| ImageChains.ChainIsComplete | libdraw/writeimage.c:94-117 | every window position of a hash is on its chain |
| ImageChains.HeadListsWindow | libdraw/writeimage.c:96-96 | the list at each hash head holds exactly the positions of the last 1024 with that hash |
| ImageChains.Recycle | libdraw/writeimage.c:146-147 | cutting the list in front of the reused node drops that node, the oldest, and nothing else |
| ImageChains.PushKeeps | libdraw/writeimage.c:148-153 | filing a position leaves the links of every other window position right |
| ImageChains.PushAdds | libdraw/writeimage.c:148-153 | and puts the new position first on its own list |
| ImageChains.HashChains.Clear | libdraw/writeimage.c:78-79 | the two memsets at a block start give an empty dictionary |
| ImageChains.HashChains.CutOldest | libdraw/writeimage.c:146-147 | the node to be reused has left its list, all others are as before |
| ImageChains.HashChains.Link | libdraw/writeimage.c:148-153 | the node joins the front of its list |
| ImageChains.HashChains.Insert | libdraw/writeimage.c:145-158 | one more position: the lists hold exactly the last 1024 positions of the block, each on one list, newest first |
| ImageWriter.CompBlockSize | libdraw/computil.c:27-37 | a block buffer holds 6000 bytes or twice a line, whichever is more |
| ImageWriter.BestIsWindow | libdraw/writeimage.c:94-117 | the longest repeat on the chain searched is the longest in the whole window, and the newest of those |
| ImageWriter.MatchIsBest | libdraw/writeimage.c:93-117 | the repeat found by way of the chains is the reference's, if it is worth a code |
| ImageWriter.CopyYieldsText | libdraw/writeimage.c:139-143 | an emitted repeat decodes to the bytes it stands for, also when it reaches into itself |
| ImageWriter.Encoder.Compare | libdraw/writeimage.c:97-109 | comparing backwards first and forwards then gives the length of a repeat longer than the best one so far, or shows there is none |
| ImageWriter.Encoder.FindMatch | libdraw/writeimage.c:88-117 | the search gives a repeat at most 1024 back, within the line and 34 bytes, such that no window position repeats more and no newer one as much |
| ImageWriter.Encoder.AddLiteral | libdraw/writeimage.c:118-129 | the literal joins the dump, at a cost of at most two bytes; refused only if the dump does not fit the block |
| ImageWriter.Encoder.AddCopy | libdraw/writeimage.c:130-143 | a repeat goes out behind the dump: the output still decodes to the text; refused only for lack of room |
| ImageWriter.Encoder.FlushDump | libdraw/writeimage.c:131-138 | the pending literals go out as one code, or nothing changes and they do not fit |
| ImageWriter.Encoder.EncodeStep | libdraw/writeimage.c:86-158 | one turn does what the reference does at that byte: what is written and what the reference has still to come are together what they were before; it is refused exactly by lack of room; at most two bytes of output per byte |
| ImageWriter.Encoder.EncodeLine | libdraw/writeimage.c:84-168 | a line is given up if and only if its codes do not fit the block, and otherwise its codes are those of the reference |
| ImageWriter.Encoder.EncodeBlock | libdraw/writeimage.c:77-175 | the block is the reference's codes for as many lines as fit, what a line given up at Bfull has written being dropped, and decodes from an empty window to these lines; no line fits only if the buffer is shorter than two lines |
| ImageWriter.Encoder.EncodeImage | libdraw/writeimage.c:77-179 | with room for two lines in a block the writer ends, row numbers strictly increase to the last row, and the blocks decode to the image |
| ImageWriter.WriteImage | libdraw/writeimage.c:77-179 | for every image the blocks are exactly those of the reference compressor, which searches the whole window at each byte; decoded they are the image, no block overflows its buffer, rows increase to r.max.y, and the failure at Bfull is never met |
| QLockProtocol.StepKeeps | lib9/lock.c:40-93 | every single access to shared memory by any process keeps the invariant: the linked queue is the waiting processes in order, one owner, no lost or doubled wake-up |
| QLockProtocol.StepRefines | lib9/lock.c:40-93 | every access is invisible or one move of a lock with an owner and a FIFO queue: acquire, wait in line, return, start to release, hand to the head, release |
| QLockProtocol.CallKeeps | lib9/lock.c:40-93 | a process may call qlock or canqlock whenever it is outside, and qunlock when it has the lock |
| QLockProtocol.ClientKeeps | lib9/lock.c:40-93 | any process going on with or starting any call keeps the whole invariant and makes a move of the specification |
| QLockProtocol.ClientRefines | lib9/lock.c:40-93 | every run of any number of processes, under every interleaving, is a run of the FIFO lock specification, each step a move of the same process or none |
| QLockProtocol.OneOwner | lib9/lock.c:40-93 | at every moment of every run at most one process has the lock, and then the flag is set and nobody is about to get or to release it |
| QLockProtocol.Alone | lib9/lock.c:62-74 | for a process alone on a lock the spinlock is free exactly when it does not hold it, and canqlock sees the flag set exactly when the lock is held |
| RWLockProtocol.Keeps | lib9/lock.c:95-141 | every access of every process in rlock, canrlock, runlock, wlock and wunlock keeps the invariant of the two QLocks, the spinlock and the counter together |
| RWLockProtocol.RunInv | lib9/lock.c:95-141 | the invariant holds in every state of every run |
| RWLockProtocol.Exclusion | lib9/lock.c:95-141 | in a state that meets the invariant a writer is alone |
| RWLockProtocol.MutualExclusion | lib9/lock.c:95-141 | in every interleaving of any number of processes no writer has the lock together with a reader or another writer |
| RWLockProtocol.AloneAtK | lib9/lock.c:99-101 | at the canqlock of a reader no other process is inside k: its spinlock is free, and the lock is taken exactly if there was a reader before |
| RWLockProtocol.UncheckedCanqlock | lib9/lock.c:99-101 | in every run the canqlock whose result is ignored succeeds for the first reader and fails for the others because readers have k, never for a busy spinlock |
| RWLockProtocol.NoLostWakeup | lib9/lock.c:95-141 | in no run do processes sleep forever for want of a wake-up: if all that are in a call sleep, and nobody reads or writes, nobody is in a call |
| RWLockProtocol.SomebodyGoesOn | lib9/lock.c:95-141 | in every run, while nobody reads or writes and somebody is in a call, some process in a call changes the state with its next access: nobody spins on a spinlock that stays taken, or sleeps in vain |
| RWLockCalls.CallsKeepPromise | lib9/lock.c:95-141 | in every run who has returned from wlock writes, who has returned from rlock or from a canrlock that succeeds reads, and who has done neither, or given the lock back, is idle |
| RWLockCalls.CanNeverWaits | lib9/lock.c:107-120 | a process in canrlock is never at a step of a qlock: it waits no turn |
| RWLockCalls.RunTraced | lib9/lock.c:95-141 | every run is one of turns of processes, so that this is said of all runs |
| RWLockCalls.AllIdleRests | lib9/lock.c:95-141 | when all processes are idle, locks, queues, spinlock and count are as at the start |
| RWLockCalls.WriterAlone | lib9/lock.c:129-141 | with everybody else idle wlock gets the lock in nine accesses, and wunlock leaves all as it was |
| RWLockCalls.ReaderAlone | lib9/lock.c:95-127 | so do rlock and canrlock in sixteen, for readers, and runlock leaves all as it was |
| BufferedInput.Biobuf.Bgetc | libbio/bgetc.c:4-41 | the next byte of the file or the end; the position moves by one exactly with a byte; how far back the buffer stays the file's; filling it makes [gbuf, ebuf) the file's, and an end of file declares the whole buffer good without changing it |
| BufferedInput.Biobuf.Refill | libbio/bgetc.c:25-39 | a read of any length leaves the new bytes flush against the end with the last Bungetsize bytes of before in front of them, and what is stale in front of those: the bytes read, from the start of the buffer on, and behind them what was there before |
| BufferedInput.Biobuf.Bungetc | libbio/bgetc.c:43-53 | one byte back unless the buffer is inactive; it can be read again if the buffer still has it |
| BufferedInput.Biobuf.Bread | libbio/bread.c:4-47 | the bytes copied are the file's from the position on, nothing else in the destination changes, short only at the end or an error, -1 exactly for an error before any byte |
| BufferedInput.Biobuf.Brdline | libbio/brdline.c:4-87 | the line returned is the file's bytes up to and with the first delimiter; otherwise no unread byte is the delimiter and nothing is consumed, except what was pushed back beyond a full buffer |
| BufferedInput.Biobuf.Append | libbio/brdline.c:43-78 | appending reads of any length finds the first delimiter or the end or a full buffer, and keeps the unread bytes in order |
| BufferedInput.Biobuf.FlushUp | libbio/brdline.c:49-72 | moving the collected bytes up against the end keeps them, whether the line is complete or not |
| BufferedInput.Biobuf.Bseek | libbio/bseek.c:4-57 | a seek out of the buffer arrives and the file's bytes follow; one within it is followed by the file's bytes if and only if the distance is above -2^31 and what is stale of the bytes gone back over equals the file's; nothing is, when the caller has met no end of file with Bgetc since the last filling, or has just met it |
| BufferedInput.Biobuf.Within | libbio/bseek.c:30-42 | after a move within the buffer the bytes that follow are the file's if and only if the file's bytes in it reach back that far, or the stale ones are the same by chance |
| BufferedInput.Biobuf.NearSeekFits | libbio/bseek.c:30-42 | a distance from Boffset that is above -2^31 by the length of the buffer meets the condition on the int |
| BufferedInput.Session | libbio/brdline.c:4-87 | for every mixture of Bgetc, Bread and Brdline and every pattern of short reads and errors the pieces delivered, one for each operation, are the file's bytes in order, none lost or repeated, and Boffset counts them; no piece is more than was asked for, a line ends with its only delimiter, and with prompt reads each piece has the length that is due at its position |
| BufferedInput.ByteByByte | libbio/bgetc.c:4-41 | with prompt reads n Bgetcs deliver the first n bytes of the file, or all of it |
| BufferedInput.Deliver | libbio/brdline.c:4-87 | each operation hands out exactly the bytes between the positions before and after it, and with prompt reads all that is due: a byte, as many as asked for or left, or the line if it fits the buffer |
| BufferedInput.BackAndForth | libbio/bgetc.c:20-53 | with Bungetc never more than Bungetsize bytes behind the furthest byte, every byte is the file's byte at its position, across refills and the end of file, and with prompt reads every step moves as it should |
| BufferedInput.Wander | libbio/bseek.c:4-57 | with seeks between Bgetc, Bread and Brdline, every operation delivers what is right at its position and every seek arrives, if the caller keeps distances above -2^31 and seeks from the end first once Bgetc has met the end of file; with prompt reads it ends early only at a seek to before the file |
| BufferedInput.SeekAfterEnd | libbio/bgetc.c:20-41 | for every file that is read in full buffers, every buffer size from 4 on and every place: which byte of the file is delivered after the end of file, one more Bgetc and a seek to that place |
| BufferedInput.StaleSeek | libbio/bgetc.c:26-33 | a run: ten bytes read through a buffer of eight to the end, one more Bgetc, a seek to 3, and the byte delivered is the tenth instead of the fourth, since gbuf is set before the read is known to fail |
| BufferedInput.FarSeek | libbio/bseek.c:30-42 | a run: a seek to 2^31 and one back to 0 is taken to lie in the buffer, and counts 2^31 unread bytes |
| BufferedInput.PushbackLost | libbio/brdline.c:36-86 | a run: five of eight bytes read through a buffer of four and two pushed back, and after a failed Brdline the fifth is delivered instead of the fourth |
| PathName.CleanName | lib9/cleanname.c:7-51 | the in-place result is, for every name, the rendering of the stack its elements leave: rooted names lose leading "..", relative ones keep them, nothing becomes "."; two bytes of buffer suffice |
| PathName.CleanTwice | lib9/cleanname.c:7-51 | a clean name is not changed by cleaning, is rooted if the name was and has the elements the name comes to |
| PathName.CleanLeadsToSame | lib9/cleanname.c:7-51 | from every directory the clean name leads where the name did, ".." above the root staying there |
| PathName.ElementsAreNormal | lib9/cleanname.c:27-46 | the elements left are leading ".."s, none in a rooted name, and then proper names |
| PathName.Backtrack | lib9/cleanname.c:30-32 | stepping back removes exactly the last element written and its separator |
| PathName.DotDot | lib9/cleanname.c:28-39 | ".." takes an element back, stays in the root, or is kept and cannot be taken back |
| PathName.AddName | lib9/cleanname.c:40-45 | a proper element is copied down behind the part written, which never overtakes what is to be read |
| AltSelect.AltMark | libinterp/alt.c:19-41 | the count of an array is the number of its channels on which a receive would not wait, and the program waits on each of them once more |
| AltSelect.MarkRecvs | libinterp/alt.c:88-105 | the same for all receive entries; nil entries are noted as a fault |
| AltSelect.MarkSends | libinterp/alt.c:107-124 | the send entries: which channels the program joins, how many are ready, and the last fault |
| AltSelect.FaultIs | libinterp/alt.c:107-124 | the send entries raise no exception exactly if none is nil and none has the program itself as its only receiver |
| AltSelect.AltRdy | libinterp/alt.c:76-132 | without a fault the result is the number of ready entries and the program waits on every channel named; with one, the queues are as before or a nil queue was followed, exactly when the program joined an empty queue twice |
| AltSelect.AltUnmark | libinterp/alt.c:46-70 | the program leaves the queues of an array, the others keep their order, and the first place of the chosen channel is recorded |
| AltSelect.DoneSends | libinterp/alt.c:145-161 | the send half of altdone; it fails exactly when it comes back to a queue that the program alone filled with several nodes |
| AltSelect.DoneRecvs | libinterp/alt.c:163-182 | the receive half |
| AltSelect.AltDone | libinterp/alt.c:137-183 | the program is on no queue of the alt and all others are in their order; the entry recorded is the first one of the chosen channel; exactly when it fails |
| AltSelect.AltComm | libinterp/alt.c:188-250 | a number below the count of ready entries picks that entry, in the order of the entries, and any other picks none |
| AltSelect.CountsAgree | libinterp/alt.c:76-132 | the two passes count the same, although the program waits everywhere in between, if and only if no receive entry is made ready by its own send alone |
| AltSelect.PickWasReady | libinterp/alt.c:188-250 | then what is picked was ready before the alt: the entry with that number among those that altrdy has counted |
| AltSelect.WithoutCopies | libinterp/xec.c:922-941 | taking a program off a queue it joined at the end, however often, gives the queue back |
| AltSelect.VisitableCopies | libinterp/xec.c:922-941 | leaving the queues joined is safe exactly if no empty queue was joined twice |
| AltSelect.CalmAgain | libinterp/alt.c:137-183 | altdone after altrdy restores every queue |
| AltSelect.Undo | libinterp/alt.c:285-288 | giving up the alt restores every queue, or follows a nil queue exactly if an empty queue was joined twice |
| AltSelect.Choose | libinterp/alt.c:291-293 | a number below the count always finds an entry, not a send entry on which the program itself is the only receiver, and one that was ready before if none is made ready by its own sends |
| AltSelect.PickUnique | libinterp/alt.c:188-250 | a number picks one entry only |
| AltSelect.ReadyPicked | libinterp/alt.c:188-250 | every ready entry, and place in an array, has a number below the count |
| Rendezvous.Isend | libinterp/xec.c:942-976 | the first program that waits to receive gets the item and is off all its queues, its own altdone being run if it waits in an alt; else the item goes into the buffer if there is room, else the sender waits; exactly when the partner's altdone follows a nil queue |
| Rendezvous.Irecv | libinterp/xec.c:977-1018 | the first program that waits to send, else the buffer, else the receiver waits; how full the buffer is then; a partner that runs, that is the program itself, has no item |
| Rendezvous.Release | libinterp/xec.c:966-974 | a partner that waits in an alt does its own altdone: it is off all queues of its alt and learns the entry served; it fails exactly if it alone fills a queue with two nodes, or with three before it was served there, that the other has not joined |
| Rendezvous.PartnerLearns | libinterp/alt.c:137-183 | the entry a partner is told is the first one, and the first place in it, that names the channel on its side |
| Rendezvous.SideOff | libinterp/xec.c:922-941 | what one program's altdone does to queues that another has joined |
| Rendezvous.ServeAndDone | libinterp/alt.c:291-293 | after the communication the own altdone leaves the queues without the partner, or follows a nil queue exactly if the program has joined twice a queue that is empty when the partner is off it |
| Rendezvous.Xecalt | libinterp/alt.c:265-294 | for all alts and all partners, arrays, faults, repeated channels and channels on both sides included: the outcome, all queues, buffer sizes and who waits for what are those that follow from the ones before |
| Rendezvous.OneOutcome | libinterp/alt.c:265-294 | inputs, queues, buffers and waiting programs before fix the outcome |
| Rendezvous.EntryWasReady | libinterp/alt.c:265-294 | the entry picked was ready before, if the program's own sends make none ready |
| Rendezvous.EveryEntry | libinterp/alt.c:290-293 | no ready entry starves: of any n numbers in a row, n being the number of entries found ready, one makes the alt serve it |
| Rendezvous.OwnPartner | libinterp/xec.c:977-1018 | the program reads the item through its own nil pointer if and only if the number picks a receive entry on a channel that it sends on, too, and on which nobody else waits to send; never if each channel of both sides has another sender |
| Rendezvous.KillProg | emu/port/dis.c:393-402 | a program killed is off all its queues, or a nil queue is followed, exactly if it alone fills one with two nodes |
| Rendezvous.NextKeeps | libinterp/alt.c:265-294 | every alt keeps: programs wait as often as they have places, buffers are within bounds, and nobody waits for an item, a place or a partner that is there |
| Rendezvous.StepKeeps | libinterp/xec.c:942-1018 | so does every send, receive and kill of a program that runs |
| Rendezvous.NoComplaint | libinterp/xec.c:963-1000 | then a sender that finds a receiver waiting finds an empty buffer, and a receiver that finds a sender a full one: the two messages for other buffers are never printed |
| Rendezvous.Run | libinterp/xec.c:942-1018 | in every run of sends, receives, alts and kills by any programs, up to the first nil pointer, all that is kept |
| Rendezvous.NullQueue | libinterp/alt.c:265-294 | a run: an alt that receives twice from one new channel and does not block follows a nil queue pointer |
| Rendezvous.PartnerGone | libinterp/alt.c:265-294 | a run: a program waits on c and e, and another one sends on c with an alt that receives from e, too; with one such entry it is served and nobody waits on e any more, with two of them it follows a nil queue |
| Rendezvous.PartnerLost | libinterp/xec.c:966-968 | a run: a plain send to a program that waits on that channel and twice on another one; the partner's altdone follows a nil queue |
| Rendezvous.MeetsItself | libinterp/alt.c:188-250 | a run of xecalt with two ready entries in which number 1 is the program's own send: it reads through a nil pointer |
| ArmMachine.DecodeEncode | libinterp/comp-arm.c:148-175 | every instruction word the macros build is read back as the instruction meant |
| ArmMachine.Samples | libinterp/comp-arm.c:50-198 | ten words as the manual of the machine has them |
| ArmConstants.ImmRot | libinterp/comp-arm.c:363-374 | the operand field found does denote the constant, and 0 is returned if no rotation of a byte does |
| ArmConstants.RorOfRol | libinterp/comp-arm.c:363-374 | rotating left as often as right gives the constant back |
| ArmConstants.DasImm | libinterp/das-arm.c:184-190 | the loop computes the byte rotated right by twice the field |
| ArmConstants.DasShows | libinterp/das-arm.c:178-194 | the disassembler shows the constant that immrot has encoded, and one is encoded if it can be |
| ArmLiterals.InPlaceLeaves | libinterp/comp-arm.c:433-454 | running the words for an 8-bit, inverted, rotated or 16-bit constant leaves it in the register, under every condition, and changes nothing else |
| ArmLiterals.LoadLeaves | libinterp/comp-arm.c:455-461 | running a filled-in load leaves its own literal in the register |
| ArmLiterals.SkipsFalls | libinterp/comp-arm.c:398-401 | the branch emitted around literals lands behind them |
| ArmLiterals.Emitter.InPlaceCon | libinterp/comp-arm.c:432-454 | the words emitted are one of the forms in place, exactly for the constants that have one |
| ArmLiterals.Emitter.FlushCon | libinterp/comp-arm.c:390-416 | all waiting loads are filled in with displacements below 4096 that name their own literals; no other emitted word changes |
| ArmLiterals.Emitter.FlushChk | libinterp/comp-arm.c:418-425 | the literals go out exactly when the table is full or its first load far enough, behind a branch over them |
| ArmLiterals.Emitter.Ccon | libinterp/comp-arm.c:427-461 | a constant of any value: words in place, or a load that waits for its literal, with at most 1021 waiting |
| ArmProgram.Memc | libinterp/comp-arm.c:463-514 | a word load, store or address with any displacement: a near form, or the displacement in RCON and a register form |
| ArmProgram.MemAccesses | libinterp/comp-arm.c:463-514 | running it accesses base plus displacement modulo 2^32, for the condition, and changes only the target and, far away, RCON |
| ArmProgram.ConLeaves | libinterp/comp-arm.c:427-461 | in the finished code every constant, in place or pooled, is in its register when its words have run |
| ArmProgram.SitePerforms | libinterp/comp-arm.c:390-514 | in the finished code what was emitted for an operation performs it |
| ArmProgram.SamePhases | libinterp/comp-arm.c:2156-2216 | sequences that differ only in plain words and always-loaded constants have the same layout, so that no phase error can come up |
| ArmProgram.Compile | libinterp/comp-arm.c:2156-2225 | for every sequence of operations with flushchk at least every 67 words, both passes put each at the same place, and the finished code performs all of them in order, running over the literals never |
| ArmCase.MacCase | libinterp/comp-arm.c:1778-1822 | the words emitted, with the forward branch patched, are the 22 instructions that the other lemmas run |
| ArmCase.FlagsOrder | libinterp/comp-arm.c:1803-1813 | the flags of a comparison order its operands as signed numbers |
| ArmCase.CaseLeads | libinterp/comp-arm.c:1778-1822 | for every ordered table and every value the macro ends, at the destination of the range that holds the value or at the default behind the table, with memory and other registers as before |
| ArmCase.DestinationIs | libinterp/comp-arm.c:1778-1822 | in an ordered table the destination is that of any range that holds the value |
| ArmCase.ComCase | libinterp/comp-arm.c:927-951 | the first pass marks the table, the second relocates the third word of each range and the default, once, and touches nothing else |
| ArmCase.ComCases | libinterp/comp-arm.c:930-951 | a case statement duplicated any number of times has its table relocated exactly once |
| MipsLong.AddHalves | libinterp/comp-mips.c:1091-1096 | the sum of the halves with the carry found by an unsigned comparison is the 64-bit sum |
| MipsLong.SubHalves | libinterp/comp-mips.c:1097-1102 | the same for the difference and the borrow |
| MipsLong.CompareHalves | libinterp/comp-mips.c:648-661 | signed 64-bit order and equality by the signed order of the high and the unsigned order of the low halves |
| MipsLong.LeftHalves | libinterp/comp-mips.c:764-775 | the left shift by 1 to 31 places, modulo 2^64 |
| MipsLong.LeftHigh | libinterp/comp-mips.c:754-763 | the left shift by 32 to 63 places |
| MipsLong.RightHalves | libinterp/comp-mips.c:724-734 | the arithmetic right shift by 1 to 31 places |
| MipsLong.RightHigh | libinterp/comp-mips.c:708-723 | the arithmetic right shift by 32 to 63 places |
| MipsLong.RightOut | libinterp/comp-mips.c:713-718 | from 64 places on only the sign is left |
| MipsCode.LeaMeans | libinterp/comp-mips.c:290-346 | the words emitted for an operand's address, direct or indirect, compute that address |
| MipsCode.ArithLong | libinterp/comp-mips.c:1065-1107 | for all operands, the code emitted for IADDL and ISUBL stores the 64-bit sum or difference at the destination and changes nothing else but working registers |
| MipsCode.ShiftLeftLong | libinterp/comp-mips.c:737-776 | for every count from 0 on the code emitted stores the 64-bit left shift, zero from 64 on |
| MipsCode.ShiftRightLong | libinterp/comp-mips.c:696-735 | for every count from 0 on the code emitted stores the 64-bit arithmetic right shift |
| MipsBranch.EqualMeans | libinterp/comp-mips.c:634-646 | the code for equality and its opposite is left at the target exactly if the 64-bit numbers are equal, or are not |
| MipsBranch.OrderMeans | libinterp/comp-mips.c:648-667 | the code for an order leaves by its two tests of the halves, the word behind each branch being executed either way |
| MipsBranch.VerdictIs | libinterp/comp-mips.c:1212-1223 | with the flags comp passes, those tests decide <=, >, < and >= on signed 64-bit numbers |
| MipsBranch.BranchLong | libinterp/comp-mips.c:1206-1223 | for all operands and all six comparisons the code goes to the target exactly if the comparison holds, otherwise to its end, with memory and other registers as before |
| FontCache.Font.Find | libdraw/font.c:43-52 | a slot found holds the rune, and if none is found no slot of the whole cache does |
| FontCache.Font.Oldest | libdraw/font.c:57-68 | the slot to be thrown out is the first of the oldest in the window |
| FontCache.Font.FontResize | libdraw/font.c:344-398 | every slot is unused afterwards; the size changes exactly if image, message and memory were to be had; 1 exactly if the image is new and the cache the same |
| FontCache.Font.LoadChar | libdraw/font.c:171-317 | a loaded slot holds the rune, and its cell shows it exactly if it lies in the image; while a string has slots nothing is resized and none of its slots changes; faithful cells stay so if and only if the load is not one that needs no resize and either cannot be sent into a slot in use, or is drawn outside the image or over another slot's picture |
| FontCache.MeetsIs | libdraw/font.c:302-316 | a picture is drawn over another exactly if they have a column in common |
| FontCache.Font.RoomySafe | libdraw/font.c:274-314 | in an image with room for all cells the only load that does harm is one that cannot be sent, into a slot in use |
| FontCache.Mistaken | libdraw/font.c:302-316 | whenever the window of a rune is full of slots in use that are not wanted any more, and its load cannot be sent, the rune is found afterwards in a cell that shows another one |
| FontCache.FailedLoad | libdraw/font.c:302-316 | a run, from a new font, that ends so |
| FontCache.FailedResize | libdraw/font.c:277-287 | a run in which there is no memory for wider cells, and a rune is then loaded into a cell outside the image and found there |
| FontCache.Font.Widen | libdraw/font.c:274-290 | exactly when cells are wide and deep enough afterwards, when the caller has to retry, and when it fails; the width and depth asked for are kept in any case, the image and its size only change if the resize succeeds |
| FontCache.Font.Replace | libdraw/font.c:54-90 | the slot thrown out is the first of the oldest of the window; one used in the last 500 strings is thrown out only in a cache of full size, otherwise the cache is doubled when nothing is accepted yet, and one of the current string never; exactly when the cells are faithful afterwards |
| FontCache.Font.CacheChars | libdraw/font.c:9-103 | each of the numbers returned still names a slot that holds the rune accepted there with the font's age, and the width is the sum of theirs; rune by rune: one that some slot holds is taken, one is passed over exactly if it could not be loaded, and the scan stops exactly if the oldest slot of the window is of this string, or recent while the cache can grow, or the loading has to wait; the cache is emptied exactly to make it bigger or the cells wider, before the first character; if all runes are held all are taken |
| FontCache.Font.AgeFont | libdraw/font.c:105-146 | a new string has no slots yet; ages keep their order and who is in use, stay below 65536, and change only when they run out; cells show what they did |
| FontCache.LoweredAges | libdraw/font.c:112-124 | bringing the ages down keeps their order and who is in use |
| FontCache.StillFound | libdraw/font.c:27-96 | the slots of a string and the sum of their widths survive whatever the next rune does to the others |
| Fcall9P.UnLeOfLe | include/fcall.h:63-74 | a number that fits is read back from its little-endian bytes |
| Fcall9P.LeOfUnLe | include/fcall.h:63-74 | and the bytes from the number read |
| Fcall9P.ReadBack | lib9/convM2S.c:49-314 | reading what was written for a well-formed message gives the message, whatever follows it |
| Fcall9P.WrittenBack | lib9/convM2S.c:49-314 | whatever can be read is a well-formed message, and its bytes are those read |
| Fcall9P.SurvivesIff | lib9/convS2M.c:192-385 | a message survives writing and reading if and only if it is of a known type with fields that fit, at most 16 names or qids, and below 2^32 bytes |
| Wire9P.LeBytes | include/fcall.h:63-74 | numbers of 1, 2, 4 and 8 bytes have the low byte first |
| Wire9P.Version | lib9/convS2M.c:63-66 | Tversion and Rversion byte by byte |
| Wire9P.Tauth | lib9/convS2M.c:72-76 | Tauth byte by byte |
| Wire9P.QidOnly | lib9/convS2M.c:147-153 | Rauth and Rattach |
| Wire9P.Tattach | lib9/convS2M.c:78-83 | Tattach |
| Wire9P.Rerror | lib9/convS2M.c:140-142 | Rerror |
| Wire9P.Tflush | lib9/convS2M.c:68-70 | Tflush |
| Wire9P.Twalk | lib9/convS2M.c:85-91 | Twalk |
| Wire9P.Rwalk | lib9/convS2M.c:155-158 | Rwalk |
| Wire9P.Topen | lib9/convS2M.c:93-96 | Topen |
| Wire9P.Opened | lib9/convS2M.c:160-164 | Ropen and Rcreate |
| Wire9P.Tcreate | lib9/convS2M.c:98-103 | Tcreate |
| Wire9P.Tread | lib9/convS2M.c:105-109 | Tread |
| Wire9P.Rread | lib9/convS2M.c:166-169 | Rread |
| Wire9P.Twrite | lib9/convS2M.c:111-116 | Twrite |
| Wire9P.Number | lib9/convS2M.c:118-125 | Tclunk, Tremove, Tstat and Rwrite |
| Wire9P.Rstat | lib9/convS2M.c:181-184 | Rstat |
| Wire9P.Twstat | lib9/convS2M.c:127-131 | Twstat |
| Wire9P.Bare | lib9/convS2M.c:144-187 | the four replies with nothing in them |
| Wire9P.NoOther | lib9/convS2M.c:58-61 | there are no other types |
| Wire9P.TooMany | lib9/convS2M.c:252-253 | more than sixteen names or qids make no message |
| Conv9P.PString | lib9/convS2M.c:4-22 | count and bytes of a string, and nothing else in the buffer |
| Conv9P.PQid | lib9/convS2M.c:24-35 | the 13 bytes of a qid |
| Conv9P.SizeS2M | lib9/convS2M.c:47-190 | the exact length of the message, 0 for an unknown type |
| Conv9P.ConvS2M | lib9/convS2M.c:192-385 | writes exactly the bytes of the message and returns their number, or returns 0 when they do not fit, exactly; never writes beyond them |
| Conv9P.GString | lib9/convM2S.c:4-22 | the string slid down over its count is the one that was there, ends with a NUL, and lies before what is read next; nil exactly if it would reach beyond the buffer |
| Conv9P.GQid | lib9/convM2S.c:24-37 | the qid read, nil exactly if it would reach beyond the buffer |
| Conv9P.GStrings | lib9/convM2S.c:121-137 | all names of a walk hold at once, each slid in place |
| Conv9P.HoldsStill | lib9/convM2S.c:4-22 | later sliding never damages a string already read |
| Conv9P.ConvM2S | lib9/convM2S.c:49-314 | accepts exactly the byte strings that hold a message of the size they say, and then all fields are its fields, in the buffer as it is at the end |
| Conv9P.ThereAndBack | lib9/convM2S.c:49-314 | convS2M and then convM2S on the same buffer give size, type, tag and all fields back, for every well-formed message |
| Quoting.QuoteSetup | lib9/fmtquote.c:30-104 | counts are those of the form chosen for the accepted prefix, within the limit; the whole string is accepted in the form it needs if and only if that fits |
| Quoting.Accept | lib9/fmtquote.c:48-103 | one rune more is accepted exactly if the prefix with it, in the form it then needs, fits |
| Quoting.TooLong | lib9/fmtquote.c:58-90 | what does not fit as a prefix does not fit as a whole |
| Quoting.PlainIff | lib9/fmtquote.c:66-66 | quotes are needed exactly by the empty string and by a blank, a control character, a quote or a rune asked for |
| Quoting.RuneBack | lib9/rune.c:85-117 | a rune is read back from its bytes by the arithmetic of RFC 3629 |
| Quoting.RuneForth | lib9/rune.c:85-117 | and whatever is read as a rune has the bytes of that rune |
| Quoting.TextOnce | lib9/rune.c:85-117 | different strings are different text |
| Quoting.Print | lib9/fmtquote.c:106-178 | what is printed is the quoted or plain form: read by section 3 of RFC 3629 it has the runes of the string, with a quote at each end and those inside doubled if quoted, and as many bytes and runes as foreseen |
| Quoting.QuoteStrFmt | lib9/fmtquote.c:180-218 | the output never exceeds the room, and is the complete quoted string whenever that fits |
| Tokens.QToken | lib9/tokenize.c:5-41 | the word at the start, without its quotes, is in place with a NUL; neither what precedes it nor what is still to be read is touched |
| Tokens.Tokenize | lib9/tokenize.c:43-58 | the arguments are the words of the line, at most maxargs, and all of them hold at the end |
| Tokens.QuotedWord | lib9/tokenize.c:5-41 | a quoted string is read as one word, with doubled quotes folded |
| Tokens.PlainWord | lib9/tokenize.c:5-41 | a string that needed no quotes is read as itself |
| Tokens.WordsOfLine | lib9/tokenize.c:43-58 | the words of a line of printed strings are the strings, empty ones included |
| Tokens.RunesOfLine | lib9/tokenize.c:43-58 | read as runes the words of a printed line are the strings |
| Tokens.BlanksCut | lib9/tokenize.c:3-58 | words are cut at blanks, tabs, returns and newlines, and at no other byte |
| Tokens.ThereAndBack | lib9/tokenize.c:43-58 | for every list of strings and every set of runes to be quoted, tokenizing the printed line in place gives the strings back, rune by rune |

## Left out

- ImageWriter.WriteImage: the unload loop before it (libdraw/writeimage.c:56-72), the header line and the text form of the block headers are not modelled; a short image's line 83 may read two bytes behind the data, which are taken to be anything.
- ImageChains.HashChains.Insert: nodes are numbers in one array of links rather than addresses in two.
- QLockProtocol.ClientRefines: memory is taken to be sequentially consistent; the spinlock's back-off and sleeping are not modelled, nor is fairness; a wake-up before the sleep is remembered, as osready and osblock must do.
- RWLockProtocol.NoLostWakeup: that everybody gets the lock in the end is not proved, since a spinlock may be lost for ever.
- BufferedInput.Biobuf.Bseek: offsets are unbounded; the int `icount`, the distance assigned to it and its negative wrap at 32 bits.
- BufferedInput.Session: Brdline's result counts as delivered by the call that returns it; errors of read may come at any time and end nothing but the call.
- Brdstr (libbio/brdstr.c) and the write side of libbio, which have no part in the above.
- Rendezvous.Isend: the data moved, the run queue and the place a received value goes to are left out; programs that wait outside the virtual machine count as plain waiters; items have at least a byte.
- Rendezvous.OwnPartner: that a program that runs has a null item pointer is taken from the code (it is set when the program waits, and cleared by whoever serves it or hangs it up), not proved of a field.
- Rendezvous.Xecalt: arrays of channels do not change while a program waits on them.
- Rendezvous.KillProg: only the queues; hanging up a channel (`killcomm`, emu/port/dis.c:600-627, and `altgone`) is left out.
- The allocation failure of cqadd (libinterp/xec.c:899-901).
- ArmMachine.DecodeEncode: only the instructions of the modelled code; `|` of fields that do not overlap is modelled as a sum.
- ArmLiterals.Emitter.FlushCon: that flushchk is called at least every 67 words, which the code generator has to see to ("a little delay"), is a condition; so is a word between the last load and its literal when no branch is laid down.
- ArmProgram.Memc: the byte forms Ldb and Stb, a base in RCON and, for a store, a source in RCON are left out; so are the floating-point memory forms.
- ArmProgram.Compile: the words between constants and operands are any words, but run as themselves; translating Dis instructions into them is not modelled. The last operation is a plain word, as at the end of every macro.
- ArmCase.ComCase: the three words that call the macro (lines 923-927) are not modelled.
- MipsCode.ArithLong: operands in the frame, the module data or behind a pointer there, not immediates; the logical operations are left out; instructions are not taken down to words; loads are interlocked, as from MIPS II on, since the code uses some loaded registers at once.
- MipsCode.ShiftLeftLong: for a negative count nothing is claimed.
- MipsCode.ShiftRightLong: for a negative count nothing is claimed.
- MipsBranch.BranchLong: the target is a place in the code; that its distance fits 16 bits, which the compiler does not check, is not modelled.
- FontCache.Font.LoadChar: which subfont a rune is in, its loading and the subfonts' ages and table are one nondeterministic answer; the 16 bits of the place in the image wrap.
- FontCache.Font.AgeFont: subfonts, which are freed or aged there, too, are left out.
- FontCache.Font.CacheChars: the string is given as runes.
- Conv9P.ConvS2M: lengths do not wrap at 2^32; a nil string is an empty one; names beyond the sixteenth, which sizeS2M would look at, are part of the message that is refused.
- Conv9P.ConvM2S: the fields assigned before an error is found are left out.
- Fcall9P.SurvivesIff: strings are bytes; one with a NUL in it would end there for a C reader.
- Quoting.QuoteSetup: the count `nin` is left out (it is -1 in every call here); a string is given as its runes, in the forms of up to three bytes.
- Quoting.Print: padding and flags are left out, and flushing a full buffer.
- Tokens.Tokenize: the buffer is bytes.
- Malloc failure outside the font cache, error strings, and 9P stat entries (lib9/convM2D.c, convD2M.c), which repeat the pattern of messages.
- The other code generators and disassemblers, floating point, formatted printing, UTF-8 decoding, sorting, base 64 and 32, cipher chaining, and all device and host code.
