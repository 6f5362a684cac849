# GoAhead web server runtime: a Dafny model

This project models the runtime of the GoAhead web server in `apps/WebServer` and proves what its
code relies on: the memory and handle bookkeeping, the ring queues and sockets, the Ejscript
interpreter, the symbol table, the timer queue, URL dispatch and path normalisation, the user
database with its text file, and the MD5 and base64 codecs.

`dafny verify dfyconfig.toml` checks the whole project. Each file is one module:

| file | models |
|---|---|
| `Balloc.dfy` | `balloc.c`: size-class allocator over one arena, with malloc as a fallback |
| `Handles.dfy` | `h.c`: growing handle table; the release loop of `dbZero` |
| `RingQueue.dfy`, `Sockets.dfy` | `ringq.c`, `sock.c` and the receive step of `sockGen.c` |
| `EjExpressions.dfy`, `EjPrograms.dfy`, `EjGoals.dfy`, `Ejscript.dfy`, `EjScripts.dfy` | `ejparse.c`: operators and expression trees, statement trees and their execution, what the parser owes to each kind of tree, the parser that executes while parsing, and what families of scripts do |
| `SymbolTable.dfy`, `Scheduler.dfy` | `sym.c`, the timer queue of `websuemf.c` |
| `UrlHandlers.dfy`, `UrlPath.dfy`, `Tokens.dfy` | `handler.c`, `websValidateUrl` of `default.c`, and strtok as both it and `dbLoad` use it |
| `Numbers.dfy`, `Database.dfy`, `DatabaseFile.dfy` | printing and reading of `misc.c`, `emfdb.c` and its text file |
| `Encryption.dfy`, `Users.dfy`, `Records.dfy`, `Accounts.dfy`, `UserWalk.dfy`, `AccessLimits.dfy` | `um.c` |
| `Md5.dfy`, `Base64.dfy` | `md5c.c`, `base64.c` |

Objects whose fields the source updates are classes; row lists, chains and handler tables are
sequence fields that methods reassign, and buffers worked on in place are arrays. Sequences, maps
and recursive functions beside them say what each operation computes.

## How the source is read

- The build is the one for 32-bit ARM without UNICODE, B_STATS and B_FILL: ints and pointers have
  32 bits, `char` is unsigned, `a_assert` is compiled out. Strings are C strings without NUL.
- Addresses in `Balloc` are integers. What malloc answers is a parameter; it never overlaps the
  arena or a block it gave before, and it refuses requests of 2^31 bytes and more.
- What `recv` and `send` answer is a script given to the socket, so the results hold for every
  chunking and every pattern of would-block, short and interrupted calls. `StillWaiting` is a
  blocking call that has not returned.
- Memory for line buffers, table rows and copies of strings is taken to be available. The ring
  queue has a script of what its allocator answers, and in the handle table a lack of memory is a
  parameter. What `write`, `open` and `rename` answer to `dbSave` is a parameter too.
- What `qsort` leaves in the handler table is a parameter: a permutation, sorted whenever the
  comparator is an order on the handlers. A sort that calls the comparator is one such answer.
- MD5 holds for any 64-byte block function.
- The Ejscript lexer is a sequence of tokens with one slot of putback; the end of a script is a
  token of its own. Functions that a script can call are a parameter that may change everything a
  script can: variables, device parameters and the return text. Every call is recorded with its
  argument texts; a function that is not defined is one that answers -1. The device parameter
  hooks are a map of known names. Error messages are only noted.
- Trees hold what a script can say: operands, calls with arguments, operators, assignments,
  increments, declarations with and without values, return, blocks, if and for. A missing operand
  before an operator stands for the value so far, which is how the parser reads prefix operators
  such as `!x`. A call `f()` has one empty argument.
- A tree comes to a value, to a statement done, to a return, or to a failure. A failure says what
  was done before it and which tokens are left unread, because a block that meets a failed
  statement takes the next token for its closing brace.
- Each parse has fuel, because some scripts make the parser loop for ever, and a tree is executed
  with a budget of rounds for its loops. A tree that comes to something within some budget does the
  same with every larger one, and the parser needs fuel for the tree's size and the budget. What is
  said of parsing without executing holds for any fuel.
- Long definitions are carried through proofs sealed: `Basics.Sealed` hides a definition until a
  proof calls `Basics.SealedIs`.

Where comments and code disagree the code is followed:

- `ringqGrow` says the increment doubles; it becomes four times as large.
- `calcPrime` says smaller than the size; the result can be the size itself.
- `websUrlHandlerDefine` says that handlers sharing a flag are ordered alphabetically; the
  comparator gives them no order at all.
- `MD5Update` is right exactly while buffered bytes plus input stay below 2^32.
- `dbSave` checks its writes, but not that of a TABLE line, and a short write counts as written.
- A second declaration of a local name drops the token after it, and an increment that cannot be
  done before the right parenthesis of a for is passed over with a note.

## Model

| member | source | states |
|---|---|---|
| Balloc.GetSize | apps/WebServer/balloc.c:528-537 | the class found by shifting is the least whose data size holds the request |
| Balloc.ClassOf | apps/WebServer/balloc.c:528-537 | the class of a size: it fits, and the class below does not |
| Balloc.ClassUnique | apps/WebServer/balloc.c:528-537 | a size has one class only |
| Balloc.ClassOfDataSize | apps/WebServer/balloc.c:370-410 | the size kept in a block header leads back to the class the block was cut for |
| Balloc.DataSizeGrows | apps/WebServer/balloc.c:528-537 | higher classes hold strictly more |
| Balloc.DataSizeIs | apps/WebServer/balloc.c:528-537 | class q holds 16 times 2 to the q bytes |
| Balloc.FlagsDistinct | apps/WebServer/balloc.c:370-410 | the words that mark free, live and malloced blocks cannot be confused |
| Balloc.TiledCovers | apps/WebServer/balloc.c:217-361 | every address of the used arena lies in exactly one cut block |
| Balloc.TiledCut | apps/WebServer/balloc.c:290-315 | cutting at the end of the used part keeps the tiling exact |
| Balloc.LiveApart | apps/WebServer/balloc.c:217-361 | two different live blocks never overlap, headers included |
| Balloc.LiveMarked | apps/WebServer/balloc.c:370-410 | a block is live exactly when its header says so, and malloced exactly when the malloc flag is set too |
| Balloc.LiveBlock | apps/WebServer/balloc.c:217-361 | a live block has as many data bytes as its header says; an arena block the data size of its class |
| Balloc.HeadIsNull | apps/WebServer/balloc.c:280-290 | a queue head is null exactly when the queue is empty |
| Balloc.PopInv | apps/WebServer/balloc.c:280-290 | taking the head of a free queue keeps every block live or on one queue, and allots that block |
| Balloc.CutInv | apps/WebServer/balloc.c:290-315 | cutting a new block from the arena keeps the tiling and all queues, and allots that block |
| Balloc.MallocInv | apps/WebServer/balloc.c:246-345 | a block from malloc keeps the invariant |
| Balloc.MallocLive | apps/WebServer/balloc.c:246-345 | it adds itself to the live blocks and changes no other |
| Balloc.PushInv | apps/WebServer/balloc.c:370-410 | a freed block goes to the queue of the class it was cut for; other live blocks keep their bytes |
| Balloc.UnmapInv | apps/WebServer/balloc.c:370-410 | freeing a malloced block removes just that block |
| Balloc.StoreInv | apps/WebServer/balloc.c:495-518 | writing into a live block keeps the invariant |
| Balloc.MovedBy | apps/WebServer/balloc.c:495-518 | allocate, copy and free together move a block: new size, old contents, other blocks as before |
| Balloc.Allocator.Open | apps/WebServer/balloc.c:142-193 | opening lays out an empty arena or fails; a second opening only counts |
| Balloc.Allocator.AllocOpen | apps/WebServer/balloc.c:217-361 | fails exactly when queue and arena cannot serve and malloc may not or does not; otherwise gives a fresh block that overlaps no live one |
| Balloc.Allocator.Alloc | apps/WebServer/balloc.c:217-361 | the same, opening the allocator first when needed; for one not yet open it fails exactly when the arena cannot be had or the block does not fit in it; the block holds at least the size asked for |
| Balloc.Allocator.Free | apps/WebServer/balloc.c:370-410 | a live block is removed and queued in its own class; a block already free changes nothing |
| Balloc.Allocator.FreeSafe | apps/WebServer/balloc.c:417-422 | the same, and a null pointer changes nothing |
| Balloc.Allocator.Realloc | apps/WebServer/balloc.c:495-518 | keeps the block exactly as it is when it is big enough, else moves it with its old contents; when it fails is exact in each case, and then the old block stays |
| Balloc.Allocator.Relocate | apps/WebServer/balloc.c:495-518 | the moving case: fails exactly when no block can be had; otherwise the new block starts with the old bytes and the old block is gone |
| Balloc.FreeThenAlloc | apps/WebServer/balloc.c:217-410 | the next request of the same class gets the block freed last |
| Handles.CountFull | apps/WebServer/h.c:49-104 | a table is full exactly when its used count reaches its length, so the search for a free slot cannot fail below capacity |
| Handles.FirstFreeUnique | apps/WebServer/h.c:49-104 | the slot the search finds is the least free one |
| Handles.TopUnique | apps/WebServer/h.c:112-146 | one more than the greatest live handle is determined by the slots |
| Handles.StoredInView | apps/WebServer/h.c:156-192 | filling the first free slot stores the entry in what the client sees and moves the maximum just as needed |
| Handles.ClearedInView | apps/WebServer/h.c:112-146 | freeing a handle clears it and trims the free tail, so the new maximum is one more than the greatest live handle |
| Handles.TrimmedIsView | apps/WebServer/h.c:112-146 | scanning down past null slots ends at the greatest live handle |
| Handles.HandleList.Alloc | apps/WebServer/h.c:49-104 | gives the least free slot, growing by 16 exactly when full; used count and visible entries stay in step |
| Handles.HandleList.Free | apps/WebServer/h.c:112-146 | clears the slot and returns the new maximum; the list is released with its last entry |
| Handles.HandleList.AllocEntry | apps/WebServer/h.c:156-192 | stores an entry at the least free handle, or gives the handle back when memory is short; the used count equals the number of live slots whenever entries have a size |
| Handles.HandleList.Release | apps/WebServer/h.c:112-146 | a client's free: the visible entries are the old ones with this one cleared |
| Handles.HandleList.ReleaseAll | apps/WebServer/emfdb.c:191-230 | releasing entries in order never reads the list after the last live entry released it |
| Handles.ZeroSizeReusesHandle | apps/WebServer/h.c:156-192 | with size 0 no entry is stored and the next call returns the same handle |
| RingQueue.BinSizeIsLeast | apps/WebServer/ringq.c:583-592 | the buffer size is a power of two, above the request, at least 16, and the least such |
| RingQueue.BinSizeOfDoubled | apps/WebServer/ringq.c:534-574 | the growth step becomes four times the old one |
| RingQueue.GetBinBlockSize | apps/WebServer/ringq.c:583-592 | the shift loop computes that size |
| RingQueue.RingAppend | apps/WebServer/ringq.c:351-384 | writing a run at the end pointer appends it to the ring's sequence, also round the end |
| RingQueue.RingPrepend | apps/WebServer/ringq.c:209-226 | writing just before the start prepends |
| RingQueue.RingDrop | apps/WebServer/ringq.c:391-422 | moving the start pointer drops that many bytes |
| RingQueue.RingStraight | apps/WebServer/ringq.c:449-460 | bytes that do not wrap lie in a row from the start pointer |
| RingQueue.RingQ.Open | apps/WebServer/ringq.c:84-103 | opens empty with the least power of two; a queue whose initial size is its maximum can never grow |
| RingQueue.RingQ.Len | apps/WebServer/ringq.c:130-140 | the pointer arithmetic gives the length of the contents |
| RingQueue.RingQ.PutBlkMax | apps/WebServer/ringq.c:430-441 | room in a row: zero exactly when full, and it leaves the gap slot |
| RingQueue.RingQ.GetBlkMax | apps/WebServer/ringq.c:449-460 | bytes in a row: zero exactly when empty |
| RingQueue.RingQ.Getc | apps/WebServer/ringq.c:147-176 | pops the front, or -1 when empty |
| RingQueue.RingQ.Putc | apps/WebServer/ringq.c:184-202 | pushes at the back, or -1 with the contents unchanged when the queue is full and cannot grow |
| RingQueue.RingQ.Insertc | apps/WebServer/ringq.c:209-226 | pushes at the front |
| RingQueue.RingQ.PutStr | apps/WebServer/ringq.c:233-244 | appends a prefix of the string, all of it unless the queue is full at its limit, and the uncounted NUL lands in the gap slot |
| RingQueue.RingQ.PutBlk | apps/WebServer/ringq.c:351-384 | appends the longest prefix that fits, growing as allowed |
| RingQueue.RingQ.GetBlk | apps/WebServer/ringq.c:391-422 | takes the first bytes, as many as asked for and present |
| RingQueue.RingQ.PutBlkAdj | apps/WebServer/ringq.c:467-484 | counts bytes the caller copied in as appended |
| RingQueue.RingQ.GetBlkAdj | apps/WebServer/ringq.c:491-508 | counts bytes the caller copied out as removed |
| RingQueue.RingQ.Flush | apps/WebServer/ringq.c:515-525 | empties the queue |
| RingQueue.RingQ.Grow | apps/WebServer/ringq.c:534-574 | keeps the contents in a larger buffer, or refuses exactly at the limit or without memory |
| RingQueue.GrowthSizes | apps/WebServer/ringq.c:534-574 | k growths of a buffer of b bytes make it b(4^k+2)/3 bytes, with the contents kept |
| RingQueue.PutMeans | apps/WebServer/ringq.c:351-384 | what is appended is a prefix, short only when the queue is full and growth was refused; at the limit nothing but the contents changes |
| RingQueue.StepIsSeqStep | apps/WebServer/ringq.c:147-508 | every operation does its allowed part as a plain sequence does, or answers -1 and leaves the sequence |
| RingQueue.CutShort | apps/WebServer/ringq.c:184-384 | at the limit an operation is done whole exactly when it leaves the gap slot free; elsewhere it is cut short only when the queue ends up full |
| RingQueue.RunIsSeqRun | apps/WebServer/ringq.c:147-525 | after any run, limited or not and whatever the allocator answers, the queue holds what a plain sequence holds after the allowed parts |
| RingQueue.RunAtLimit | apps/WebServer/ringq.c:534-574 | a queue at its limit never grows in any run |
| RingQueue.UnlimitedRun | apps/WebServer/ringq.c:147-525 | without limit and with memory every run gives the answers and contents of a plain sequence |
| RingQueue.Run | apps/WebServer/ringq.c:84-574 | every run of all nine operations on the ring, with any limit and any answers of the allocator, answers and ends as the run on the value does; at the limit the buffer stays the same object |
| Sockets.DeliverConserves | apps/WebServer/sockGen.c:421-480 | what one receive delivers followed by the rest is the stream |
| Sockets.SplitRejoins | apps/WebServer/sock.c:214-265 | the reference split into lines loses nothing but carriage returns |
| Sockets.SplitIsPlain | apps/WebServer/sock.c:214-265 | and no line holds a line end |
| Sockets.SplitUnique | apps/WebServer/sock.c:214-265 | it is the only such split |
| Sockets.Socket.Read | apps/WebServer/sock.c:132-201 | takes the next bytes of the stream in order, for every chunking; a short answer has a reason (a blocking call with something to return, a close, a would-block, or nothing left to come), -1 means a receive failed, and end of file a close |
| Sockets.Socket.Gets | apps/WebServer/sock.c:214-265 | the lines returned so far are the stream read so far split at LF without CR, and at the end of input with the last partial line; -1 before the end means a would-block or error was met or nothing is left; a line returned used up bytes |
| Sockets.AllGets | apps/WebServer/sock.c:214-265 | for every script of chunks, would-blocks and errors that ends in a close, asking for lines until -1 at end of file ends and returns exactly the lines of the stream |
| Sockets.Socket.Flush | apps/WebServer/sock.c:273-347 | bytes sent followed by bytes queued stay the same for every pattern of short sends; -1 exactly on a failed send; after 0 either everything is sent and the user's event mask is back, or the last send would block and writable events are asked for besides |
| Sockets.Socket.Write | apps/WebServer/sock.c:49-95 | sent and queued bytes grow by exactly the absorbed prefix; a count returned is its length and short only when the buffer is full and the last send would block; -1 means a send failed |
| Sockets.Socket.DoOutput | apps/WebServer/sock.c:471-544 | one send hands over a prefix of the queue |
| Md5.Encode | apps/WebServer/md5c.c:282-295 | words come out as little-endian bytes |
| Md5.Decode | apps/WebServer/md5c.c:300-310 | encoding the words read gives the bytes back |
| Md5.BytesInjective | apps/WebServer/md5c.c:282-310 | different words have different encodings, so decoding undoes encoding |
| Md5.CounterAdd | apps/WebServer/md5c.c:119-156 | the two-word carry counter is eight times the length modulo 2^64 |
| Md5.IndexOfCount | apps/WebServer/md5c.c:119-156 | the counter's low word gives the length modulo 64 |
| Md5.FoldedPrefix | apps/WebServer/md5c.c:119-156 | blocks already folded do not depend on what follows |
| Md5.PaddedIs | apps/WebServer/md5c.c:161-175 | the padding has the properties of sections 3.1 and 3.2 of RFC 1321: a byte 80, zeros, the bit length in eight bytes lowest first, whole blocks and no block more |
| Md5.PaddedOnly | apps/WebServer/md5c.c:161-175 | nothing else has them |
| Md5.InitialBytes | apps/WebServer/md5c.c:103-113 | the initial words are the bytes of section 3.3 of RFC 1321 |
| Md5.DigestIs | apps/WebServer/md5c.c:119-185 | for any padded message with these properties, the digest is the last of the states its blocks give from the initial words on, word A first and each word lowest byte first |
| Md5.Context.constructor | apps/WebServer/md5c.c:103-113 | a new context stands for the empty message |
| Md5.Context.Update | apps/WebServer/md5c.c:119-156 | the context of a message becomes that of the message with the input appended |
| Md5.Context.Final | apps/WebServer/md5c.c:161-185 | the digest is that of the message, and the context is cleared |
| Md5.HashPieces | apps/WebServer/md5c.c:119-185 | every way of cutting a message into updates gives the same digest |
| Md5.NoWrap | apps/WebServer/md5c.c:140-150 | within the length bound the loop index plus 63 does not wrap |
| Md5.GuardNeverFails | apps/WebServer/md5c.c:140-150 | at the bound it does: the guard then holds for an index near 2^32, so the bound is exact |
| Base64.TableInverts | apps/WebServer/base64.c:49-127 | the decoding table inverts the alphabet and knows no other character |
| Base64.AlphabetIs | apps/WebServer/base64.c:49-59 | the letters are those of table 1 of RFC 4648 |
| Base64.RoundTrip | apps/WebServer/base64.c:134-218 | decoding what encoding made of any bytes gives the bytes back |
| Base64.BigEndian | apps/WebServer/base64.c:183-218 | three bytes and their four sextets are the same 24-bit number, highest first |
| Base64.JunkIsIgnored | apps/WebServer/base64.c:134-175 | characters outside the alphabet do not change what is decoded |
| Base64.DecodedLength | apps/WebServer/base64.c:134-175 | n alphabet characters give floor(3n/4) bytes |
| Base64.Decode | apps/WebServer/base64.c:134-175 | writes the decoded bytes up to the room given and nothing beyond |
| Base64.Encode | apps/WebServer/base64.c:183-218 | what is written is the letters that fit and all the padding; it is the whole encoding exactly when the room is at least (4n+2)/3, and the NUL stays inside exactly when the room exceeds the encoding |
| Base64.PaddingLast | apps/WebServer/base64.c:183-218 | an encoding is its letters followed by its padding |
| SymbolTable.IsPrime | apps/WebServer/sym.c:442-455 | trial division up to half the number decides primality; 1 passes too |
| SymbolTable.CalcPrime | apps/WebServer/sym.c:462-474 | the largest prime not above the size, from 2 on; else 1 |
| SymbolTable.HashIndex | apps/WebServer/sym.c:417-435 | the loop computes the 32-bit hash sum modulo the table size |
| SymbolTable.ShortHash | apps/WebServer/sym.c:417-435 | the weights of the first five characters, the fifth shifted by 4 bits again |
| SymbolTable.ReplaceChain | apps/WebServer/sym.c:268-395 | changing one name's chain and the map at that name keeps table and map in agreement |
| SymbolTable.SymTab.constructor | apps/WebServer/sym.c:81-118 | a new table is empty, with a prime number of chains |
| SymbolTable.SymTab.Lookup | apps/WebServer/sym.c:233-258 | finds what the map holds; the empty name finds nothing |
| SymbolTable.SymTab.Enter | apps/WebServer/sym.c:268-343 | updates the map at the name |
| SymbolTable.SymTab.Delete | apps/WebServer/sym.c:350-395 | removes the name from the map, or reports that it was not there |
| SymbolTable.SymTab.First | apps/WebServer/sym.c:161-189 | returns the first entry in chain order, if any |
| SymbolTable.SymTab.Next | apps/WebServer/sym.c:196-225 | returns the next one, whatever the slot past the table holds |
| SymbolTable.SymTab.Walk | apps/WebServer/sym.c:161-225 | a walk returns all entries in chain order |
| SymbolTable.WalkListsMap | apps/WebServer/sym.c:161-225 | that is every entry of the map exactly once |
| Scheduler.Seconds | apps/WebServer/websuemf.c:119-139 | milliseconds to the nearest second |
| Scheduler.CloserOrRun | apps/WebServer/websuemf.c:176-215 | a call runs the due entry or comes strictly closer to it |
| Scheduler.BoundedWait | apps/WebServer/websuemf.c:176-215 | an entry that stays due is run within as many calls as its distance round the table, so within schedMax calls |
| Scheduler.Scheduler.SchedCallback | apps/WebServer/websuemf.c:119-139 | stores the entry at the least free handle with its due time |
| Scheduler.Scheduler.UnschedCallback | apps/WebServer/websuemf.c:159-169 | removes a live entry; other arguments change nothing |
| Scheduler.Scheduler.Process | apps/WebServer/websuemf.c:176-215 | terminates and runs at most one entry: the first due one round the table from where the last call stopped; none exactly when no entry's time has come |
| Scheduler.ScheduleAndProcess | apps/WebServer/websuemf.c:119-215 | what is scheduled runs when its delay is over, to the half second, and not before |
| Tokens.Strtok | apps/WebServer/default.c:477-506 | the in-place tokeniser takes the non-empty pieces between separators one by one |
| UrlPath.StackIsKept | apps/WebServer/default.c:483-506 | popping for ".." keeps exactly the segments that no later ".." cancels, read from the right |
| UrlPath.StackIsClean | apps/WebServer/default.c:483-506 | every segment kept is one of the path's and no dot segment |
| UrlPath.DotLaws | apps/WebServer/default.c:483-506 | anywhere in a path "." means nothing, ".." undoes the segment before it and means nothing at the start |
| UrlPath.PlainKept | apps/WebServer/default.c:483-506 | a path without dot segments is kept as it is |
| UrlPath.JoinedSplits | apps/WebServer/default.c:519-531 | splitting the path that is built gives its segments back |
| UrlPath.RoomSuffices | apps/WebServer/default.c:516-531 | the room counted from all pushed segments suffices even after pops |
| UrlPath.KeptFacts | apps/WebServer/default.c:411-539 | no segment left is empty, ".", ".." or holds a separator of either kind |
| UrlPath.Parts | apps/WebServer/default.c:477-506 | splits and normalises in place, or gives up exactly when a segment meets 64 kept ones |
| UrlPath.Build | apps/WebServer/default.c:519-531 | directory and segments are written inside the buffer of the counted size |
| UrlPath.ValidateUrl | apps/WebServer/default.c:411-539 | accepted exactly when the directory is not empty, not too many segments, and something is left or the path was empty or one separator; the local path is the directory with the segments dot-segment removal leaves |
| UrlHandlers.CompareReverses | apps/WebServer/handler.c:152-179 | the comparator is consistent on a pair exactly when the two do not share a flag and neither has both |
| UrlHandlers.CompareTransitive | apps/WebServer/handler.c:152-179 | it is transitive on such handlers, so it orders them |
| UrlHandlers.TwoFirstHaveNoOrder | apps/WebServer/handler.c:152-179 | two handlers flagged first have no order, contrary to the comment at the definition |
| UrlHandlers.StrCmpPrefix | apps/WebServer/handler.c:152-179 | a proper extension sorts after its prefix, hence before it in reverse order |
| UrlHandlers.UrlHandlers.Define | apps/WebServer/handler.c:83-123 | adds one handler and keeps the table sorted while flags do not clash, whatever permutation qsort gives |
| UrlHandlers.SortAnswers | apps/WebServer/handler.c:119-120 | sorting by the comparator gives such a permutation |
| UrlHandlers.UrlHandlers.DefineSorted | apps/WebServer/handler.c:83-123 | the same with that sort |
| UrlHandlers.UrlHandlers.Delete | apps/WebServer/handler.c:131-145 | clears the first entry of the handler and keeps the order |
| UrlHandlers.UrlHandlers.GetPublishDir | apps/WebServer/handler.c:196-214 | the first entry with a handler and a non-empty prefix that starts the path; if unflagged, the longest such prefix |
| UrlHandlers.UrlHandlers.Request | apps/WebServer/handler.c:246-310 | calls entries with a handler whose prefix starts the path, in table order up to the first that accepts; if none accepts, every such entry is called |
| UrlHandlers.DeleteAndRequest | apps/WebServer/handler.c:131-310 | a deleted handler is not called any more and its directory is not published |
| UrlHandlers.DefineAndRequest | apps/WebServer/handler.c:83-310 | a defined handler is called for every path its prefix starts, unless another accepts |
| UrlHandlers.LongestPrefixWins | apps/WebServer/handler.c:196-214 | the first unflagged match has the longest matching prefix |
| UrlHandlers.DispatchOrder | apps/WebServer/handler.c:246-310 | a request tries unflagged handlers from the longest matching prefix to the shortest, between the first-flagged and the last-flagged one |
| UrlHandlers.CondensedHasNoPair | apps/WebServer/handler.c:387-420 | no two adjacent occurrences are left |
| UrlHandlers.CondensedKeeps | apps/WebServer/handler.c:387-420 | a string without such pairs is kept |
| UrlHandlers.CondensedDropsPairs | apps/WebServer/handler.c:387-420 | dropping one of a pair first changes nothing |
| UrlHandlers.CondenseMultipleChars | apps/WebServer/handler.c:387-420 | the two-pointer loop condenses the string in place |
| Numbers.StrBuf.PutChar | apps/WebServer/misc.c:441-465 | appends until the buffer may grow no more, then drops |
| Numbers.StrBuf.PutString | apps/WebServer/misc.c:473-494 | appends a string, cut at the buffer's capacity |
| Numbers.StrBuf.PutUlong | apps/WebServer/misc.c:502-546 | prints the decimal digits of every 32-bit number |
| Numbers.FormatInt | apps/WebServer/misc.c:309-328 | %d prints every int, the least one included, within 20 bytes |
| Numbers.FormatKeyValue | apps/WebServer/emfdb.c:668-692 | a key=value line, cut at 4095 characters |
| Numbers.Hextoi | apps/WebServer/misc.c:648-671 | the leading hexadecimal digits modulo 2^32 |
| Numbers.Gstrtoi | apps/WebServer/misc.c:679-686 | hexadecimal after 0x, else decimal |
| Numbers.HexRoundTrip | apps/WebServer/misc.c:648-671 | every number written in hexadecimal, in either case, is read back |
| Numbers.HexIntReads | apps/WebServer/misc.c:648-686 | after 0x an int is read as a signed word, and a second 0x is passed over |
| Numbers.IntRoundTrip | apps/WebServer/misc.c:502-686 | every int printed is read back as itself |
| Database.Database.RegisterDBSchema | apps/WebServer/emfdb.c:53-112 | adds an empty table with columns |
| Database.Database.GetTableId | apps/WebServer/emfdb.c:960-976 | the first table of the name, or -1 |
| Database.Database.GetColumnIndex | apps/WebServer/emfdb.c:1010-1027 | the first column of the name, or -1 |
| Database.Database.SearchStr | apps/WebServer/emfdb.c:237-305 | the first live row from the start row with that text; every error code in its case |
| Database.Database.AddRow | apps/WebServer/emfdb.c:312-338 | a zeroed row in the first free slot |
| Database.Database.DeleteRow | apps/WebServer/emfdb.c:345-396 | clears a live row and trims the list; a deleted row is left alone |
| Database.Database.SetTableNrow | apps/WebServer/emfdb.c:403-444 | adds rows, free slots first, until the list has the length asked for |
| Database.Database.GetTableNrow | apps/WebServer/emfdb.c:451-464 | the length of the row list, or -1 |
| Database.Database.Read | apps/WebServer/emfdb.c:470-515 | the cell, or the error of the first test that fails, in the code's order |
| Database.Database.WriteInt | apps/WebServer/emfdb.c:535-580 | changes that one cell, or nothing and the error; a number other than 0 in a string column leaves no valid table |
| Database.Database.WriteStr | apps/WebServer/emfdb.c:590-661 | the same for a string column; a number column is refused |
| Database.Database.Zero | apps/WebServer/emfdb.c:191-230 | every table loses its rows and keeps its schema |
| Database.GrownByOne | apps/WebServer/emfdb.c:403-444 | without free slots, growing by one appends a row |
| Database.ErrorCodes | apps/WebServer/emfdb.c:470-661 | the code of each failing test, in each operation's order |
| Database.ReadWritten | apps/WebServer/emfdb.c:470-661 | a cell that is written is read back and every other cell is as before |
| Database.DeleteUndoesAdd | apps/WebServer/emfdb.c:312-396 | deleting the row just added leaves the table as it was |
| DatabaseFile.CrackReturns | apps/WebServer/emfdb.c:806-827 | a value without line feed survives on its line exactly when it has no carriage return and no leading space |
| DatabaseFile.CrackTrims | apps/WebServer/emfdb.c:806-827 | otherwise only leading space is lost |
| DatabaseFile.CrackCuts | apps/WebServer/emfdb.c:806-827 | a carriage return cuts the line short |
| DatabaseFile.Save | apps/WebServer/emfdb.c:699-799 | answers 0 exactly if the file opens, no row or column line fails and the renaming succeeds; the data file is then the text of every keyed live row exactly if no write lost anything; after a failed renaming it is gone, after any other failure it is as before |
| DatabaseFile.RowLines | apps/WebServer/emfdb.c:735-768 | a row is its ROW line and a line for each column, in column order, each with the cell's text |
| DatabaseFile.RowNumbers | apps/WebServer/emfdb.c:735-756 | the ROW lines of a table carry the slot numbers of its keyed live rows |
| DatabaseFile.KeyedSlotsIncrease | apps/WebServer/emfdb.c:735-756 | in increasing order |
| DatabaseFile.KeyedSlotsAre | apps/WebServer/emfdb.c:735-749 | and these are exactly the slots that hold a row with a non-empty first text |
| DatabaseFile.SendReports | apps/WebServer/emfdb.c:721-776 | the loops end well exactly if every failed write was one of a TABLE line |
| DatabaseFile.SendWrites | apps/WebServer/emfdb.c:668-776 | the text written is whole exactly if every write took its line; otherwise it is shorter |
| DatabaseFile.LostTableLine | apps/WebServer/emfdb.c:731 | a TABLE line that is not written goes unnoticed, for every table |
| DatabaseFile.Load | apps/WebServer/emfdb.c:836-953 | processes the non-empty lines of the text one after the other; an empty text is refused, and a text of line feeds only reaches a null pointer |
| DatabaseFile.CellRoundTrip | apps/WebServer/emfdb.c:699-953 | a clean cell, number or string, is read back from its printed text |
| DatabaseFile.MissingStringChanges | apps/WebServer/emfdb.c:699-953 | a missing string is not restored: it comes back as the text (null) |
| DatabaseFile.TextLoads | apps/WebServer/emfdb.c:836-953 | clean lines are read as they were written |
| DatabaseFile.RowLoads | apps/WebServer/emfdb.c:836-953 | the lines of a row append the row to its table |
| DatabaseFile.RowsLoad | apps/WebServer/emfdb.c:836-953 | the lines of a table restore its keyed rows without gaps |
| DatabaseFile.SaveLoad | apps/WebServer/emfdb.c:699-953 | loading the saved text into the cleared tables restores every keyed row, in order and compacted |
| DatabaseFile.SaveZeroLoad | apps/WebServer/emfdb.c:191-953 | the same for the operations in turn |
| Encryption.XorTwice | apps/WebServer/um.c:255-289 | exclusive or with the same mask twice is the identity |
| Encryption.XorBits | apps/WebServer/um.c:255-289 | a bit of the exclusive or is set exactly if the two differ there |
| Encryption.EncryptCharTwice | apps/WebServer/um.c:255-289 | on one character the transform undoes itself exactly unless it turned white space into something else |
| Encryption.EncryptedTwice | apps/WebServer/um.c:255-289 | encrypting twice is the identity exactly on recoverable strings, and every string without white space is one |
| Encryption.EncryptedIsClean | apps/WebServer/um.c:255-289 | the result keeps the length, has no NUL and gains no white space |
| Encryption.EncryptedAt | apps/WebServer/um.c:255-289 | each character is replaced by its exclusive or with the mask character over it, the mask laid end to end, unless that is a NUL or white space |
| Encryption.TabIsLost | apps/WebServer/um.c:255-289 | a tab under the mask's first letter is not recovered |
| Encryption.EncryptString | apps/WebServer/um.c:255-289 | the loop with its wrapping mask pointer encrypts in place |
| Users.FindKey | apps/WebServer/um.c:372-431 | a search by name succeeds exactly when the name is there, and finds a row with it |
| Users.AddUserKeeps | apps/WebServer/um.c:372-431 | adding a user keeps names unique and its group existing |
| Users.AddGroupKeeps | apps/WebServer/um.c:700-745 | adding a group keeps names unique |
| Users.DeleteUserKeeps | apps/WebServer/um.c:438-459 | deleting a user keeps all of it |
| Users.DeleteGroupKeeps | apps/WebServer/um.c:752-781 | deleting a group no user has keeps every user's group existing |
| Users.StepKeeps | apps/WebServer/um.c:372-781 | every operation, accepted or refused, keeps the invariant |
| Users.StepStays | apps/WebServer/um.c:372-781 | a user or group leaves its slot only when deleted by name, which no protected one is |
| Users.ProtectedStays | apps/WebServer/um.c:372-781 | in every run a protected user or group stays where it is |
| Users.Run | apps/WebServer/um.c:372-781 | the invariant holds after every run from valid tables |
| Users.Open | apps/WebServer/um.c:152-172 | opening registers the three tables, which are valid |
| Users.OpenAndRun | apps/WebServer/um.c:152-781 | after opening, any operations in any order leave the tables of the run, which are valid |
| Users.ProtectedForGood | apps/WebServer/um.c:152-781 | whatever was done since opening, a protected user or group stays where it is in everything done later |
| Users.UserManager.CheckName | apps/WebServer/um.c:1416-1433 | accepts exactly non-empty names without white space |
| Users.UserManager.GetGroupInUse | apps/WebServer/um.c:806-825 | true exactly when a user or an access limit refers to the group |
| Users.UserManager.GetUserProtected | apps/WebServer/um.c:655-671 | true exactly when the user's row is marked |
| Users.UserManager.GetGroupProtected | apps/WebServer/um.c:976-989 | the same for a group |
| Users.UserManager.AddUser | apps/WebServer/um.c:372-431 | answers the code of the first failing test, else stores the record; Records says which record |
| Users.UserManager.AddGroup | apps/WebServer/um.c:700-745 | the same for a group |
| Users.UserManager.DeleteUser | apps/WebServer/um.c:438-459 | refuses a protected or missing user, else clears its row |
| Users.UserManager.DeleteGroup | apps/WebServer/um.c:752-781 | refuses a group in use, protected or missing, else clears its row |
| Records.UserAfter | apps/WebServer/um.c:372-781 | an accepted umAddUser gives the name the password, group, protection and state of its arguments, an accepted deletion takes the user away, and no operation changes another user |
| Records.GroupAfter | apps/WebServer/um.c:372-781 | the same for groups with privilege and access method |
| Records.AddUserCode | apps/WebServer/um.c:372-431 | each refusal exactly when its test fails and none before it |
| Records.AddGroupCode | apps/WebServer/um.c:700-745 | the same for groups |
| Records.NameOkIs | apps/WebServer/um.c:1416-1433 | a name is accepted exactly if not empty and without blank, tab or line end |
| Records.DeleteUserCode | apps/WebServer/um.c:438-459 | deleted exactly if there and not protected |
| Records.DeleteGroupCode | apps/WebServer/um.c:752-781 | deleted exactly if there, no user and no access limit has it, and not protected |
| Records.ProtectedUserKept | apps/WebServer/um.c:372-781 | a protected user keeps its whole record in every run |
| Records.ProtectedGroupKept | apps/WebServer/um.c:372-781 | so does a protected group |
| Records.UserKept | apps/WebServer/um.c:372-781 | and any user in a run that does not try to delete it |
| Records.GetUserGroup | apps/WebServer/um.c:563-581 | the group of the user's record, none for an unknown user |
| Records.GetUserEnabled | apps/WebServer/um.c:611-628 | true exactly for a user that is there and not disabled |
| Records.GetGroupAccessMethod | apps/WebServer/um.c:854-868 | the group's method, or AM_INVALID |
| Records.GetGroupPrivilege | apps/WebServer/um.c:894-908 | the group's privilege cut to a short, or -1 |
| Records.GetGroupEnabled | apps/WebServer/um.c:935-949 | true exactly for a group that is there and not disabled |
| Records.AddedUserStays | apps/WebServer/um.c:152-671 | from opening on, whatever is done before and after: a user added with protection keeps group and state, and its deletion answers UM_ERR_PROTECTED; one added without can be deleted |
| Records.AddedGroupStays | apps/WebServer/um.c:152-989 | the same for a group, whose deletion answers UM_ERR_PROTECTED or UM_ERR_IN_USE |
| Accounts.PasswordAdded | apps/WebServer/um.c:372-431 | the password read after adding a user is the one accepted |
| Accounts.PasswordKept | apps/WebServer/um.c:504-527 | any operation but deleting the user leaves it |
| Accounts.PasswordInRun | apps/WebServer/um.c:504-527 | so does every run that does not delete the user |
| Accounts.GetUserPassword | apps/WebServer/um.c:504-527 | decrypts the stored password of the user, if there is one |
| Accounts.InvIsClean | apps/WebServer/um.c:200-246 | valid users and groups with short texts satisfy what saving and loading needs |
| Accounts.RestoredInv | apps/WebServer/um.c:225-246 | the reloaded tables are valid again |
| Accounts.PasswordRestored | apps/WebServer/um.c:225-246 | with every password as before |
| Accounts.CommitAndRestore | apps/WebServer/um.c:200-246 | saving and restoring keeps the users valid and all passwords |
| UserWalk.GetFirstRowData | apps/WebServer/um.c:297-322 | the first non-blank key of the column |
| UserWalk.GetNextRowData | apps/WebServer/um.c:330-365 | the first non-blank key after the given one's row that differs from it, although a deleted row leaves the old key in place |
| UserWalk.ListUsers | apps/WebServer/um.c:467-482 | first and next list the names in row order |
| UserWalk.ListsEveryUserOnce | apps/WebServer/um.c:297-365 | each user is listed once and nobody else |
| AccessLimits.ParentAncestors | apps/WebServer/um.c:1237-1278 | trimming to the previous directory marker keeps all shorter ancestors |
| AccessLimits.NearestIsLongest | apps/WebServer/um.c:1237-1278 | the limit found is the longest ancestor of the URL that has one; none is found exactly when no ancestor has |
| AccessLimits.TrimToParent | apps/WebServer/um.c:1255-1272 | the two trimming loops, in place |
| AccessLimits.GetAccessLimit | apps/WebServer/um.c:1237-1278 | the scan up the directory tree finds that limit |
| EjExpressions.Stritoa | apps/WebServer/uemf.c:221-266 | the decimal text of an int; the least int prints as -0 |
| EjExpressions.Sums | apps/WebServer/ejparse.c:1222-1235 | on numerals, sums and counts are those of the integers modulo 2^32 |
| EjExpressions.Differences | apps/WebServer/ejparse.c:1227-1237 | differences are exact, and what was added can be taken away again |
| EjExpressions.Products | apps/WebServer/ejparse.c:1238-1257 | products and left shifts are those of the integers modulo 2^32 |
| EjExpressions.ShiftRight | apps/WebServer/ejparse.c:1258-1260 | a right shift drops the low bits |
| EjExpressions.Tests | apps/WebServer/ejparse.c:1261-1285 | the six comparisons are those of the numbers, and not asks whether its operand is 0 |
| EjExpressions.LeastInt | apps/WebServer/ejparse.c:1222-1328 | the greatest int and 1 make -0 |
| EjExpressions.TextsJoin | apps/WebServer/ejparse.c:1287-1293 | texts that are not both numerals are joined |
| EjExpressions.SumOfInts | apps/WebServer/ejparse.c:1193-1328 | adding two ints as a script holds them gives their sum exactly when neither is negative and the sum is an int |
| EjExpressions.NegativeIsText | apps/WebServer/ejparse.c:1205-1294 | a negative number is text to the operators: adding joins the two |
| EjExpressions.Division | apps/WebServer/ejparse.c:1241-1254 | division rounds down, the remainder is what is left, and dividing by 0 gives 0 |
| EjExpressions.Compared | apps/WebServer/ejparse.c:1261-1312 | a comparison answers 1 or 0 by the rank of its operands: as numbers if both are numerals, else as texts |
| EjExpressions.OneOfThree | apps/WebServer/ejparse.c:1261-1312 | of any two operands exactly one of less, equal and greater holds, and turned round less is greater |
| EjExpressions.BadOperator | apps/WebServer/ejparse.c:1222-1324 | there is no value exactly for an operator that numbers, or texts, do not have |
| EjExpressions.LogicMeans | apps/WebServer/ejparse.c:1151-1186 | the logical operators, as EvalCond computes them, are those of the operands' truth when both start with a digit and false otherwise; no value exactly for other operators on such operands |
| EjExpressions.LogicOnNumbers | apps/WebServer/ejparse.c:1151-1186 | on numerals, logical and, or ask whether both, or one, is other than 0 |
| EjExpressions.TestsJoin | apps/WebServer/ejparse.c:1151-1328 | comparisons joined by logical and, or are true exactly as their conjunction, disjunction |
| EjExpressions.ChainUnique | apps/WebServer/ejparse.c:1079-1144 | tokens spell at most one tree and show where it ends |
| EjExpressions.AssignedReads | apps/WebServer/ejparse.c:509-587 | a declared name reads as set; an assigned one too, exactly unless it is a device parameter and a global variable, of which the one is set and the other read |
| EjExpressions.OthersRead | apps/WebServer/ejparse.c:509-587 | other names read as before |
| EjExpressions.FrameHides | apps/WebServer/ejparse.c:1663-1745 | a declaration in a function's frame hides the name outside and leaves it as it was |
| EjExpressions.NothingReads | apps/WebServer/ejparse.c:551-580 | a name without a value, or unknown, reads as nothing; an unknown variable that is a device parameter reads as that |
| Ejscript.Ej.GetToken | apps/WebServer/ejlex.c:196-241 | the token put back, or else the next one |
| Ejscript.Ej.PutBack | apps/WebServer/ejlex.c:591-604 | the token comes first again |
| EjPrograms.BumpedMeans | apps/WebServer/ejparse.c:530-549 | an increment changes just its variable, in the frame that has it, by the operator applied to 1; nothing is said exactly when the variable is declared without a value, where the code reads a null pointer |
| EjPrograms.NotExecuted | apps/WebServer/ejparse.c:444-925 | a statement tree that is not executed calls nothing, sets no parameter, does not return, and changes no variable unless it declares a name without a value |
| EjPrograms.OneBranch | apps/WebServer/ejparse.c:648-708 | the calls, variables and outcome of an if are those of its condition and of one branch, the first exactly when the condition's text starts with 1; the other branch does nothing but declare names without a value |
| EjPrograms.LargerBudget | apps/WebServer/ejparse.c:710-806 | a statement that ends within a budget of rounds has the same effect with every larger budget |
| EjPrograms.MoreRounds | apps/WebServer/ejparse.c:771-803 | so do the rounds of a loop |
| EjScripts.LoopCalls | apps/WebServer/ejparse.c:710-806 | for (i = 0; i < n; i++) f(i) calls f with 0, 1, ... n-1 in this order and makes no other call, for every n and every f that succeeds and spares the variable |
| EjPrograms.StmtOpens | apps/WebServer/ejparse.c:444-925 | the tokens of a statement begin with one that opens a statement |
| Ejscript.Ej.Parse | apps/WebServer/ejparse.c:374-437 | the tokens of any tree (expression, condition, arguments, action, declarations, statement) have its variables, calls, value and error note, and exactly its tokens are consumed; a tree that fails fails at the same token with the same effects before it; without executing, nothing happens but declarations of names without a value, and none where the script has no var |
| Ejscript.Ej.ParseStmt | apps/WebServer/ejparse.c:444-925 | the same for an operand, an action, a declaration and every statement |
| Ejscript.Ej.OnId | apps/WebServer/ejparse.c:499-587 | an assignment, an increment, a declaration or a reference does what its tree does |
| Ejscript.Ej.OnName | apps/WebServer/ejparse.c:551-587 | a reference gives the variable's text and puts the next token back; a name alone is declared, executing or not, unless it is a local already |
| Ejscript.Ej.OnAssignment | apps/WebServer/ejparse.c:509-528 | sets the variable as the tree does, when executing and only then: local, or device parameter, or global |
| Ejscript.Ej.OnIncDec | apps/WebServer/ejparse.c:530-549 | does what its tree does; an unknown variable is an error, and a bad operand one unless a right parenthesis follows |
| Ejscript.Ej.OnFunction | apps/WebServer/ejparse.c:600-646 | the call a tree makes, with the argument texts the tree gives, only when executing; the result is the last return text either way, and nested calls keep their own arguments |
| Ejscript.Ej.ParseArgs | apps/WebServer/ejparse.c:982-1011 | the arguments are collected in order as the texts of their trees |
| Ejscript.Ej.OnVar | apps/WebServer/ejparse.c:808-813 | a declaration does what its tree does |
| Ejscript.Ej.ParseDeclaration | apps/WebServer/ejparse.c:932-975 | the names of a list are declared in order, each with its value, up to the semicolon or the first that fails |
| Ejscript.Ej.OnReturn | apps/WebServer/ejparse.c:871-880 | a return that is executed gives its value and skips the script; one that is not goes on with the next token |
| Ejscript.Ej.OnLParen | apps/WebServer/ejparse.c:820-835 | a parenthesis in an expression gives the value of what it encloses |
| Ejscript.Ej.OnIf | apps/WebServer/ejparse.c:648-708 | condition and branches do what the tree does, also when one of them fails or returns |
| Ejscript.Ej.IfElse | apps/WebServer/ejparse.c:664-708 | the branch chosen is executed and the other parsed without executing, in the tree's order |
| Ejscript.Ej.ElsePart | apps/WebServer/ejparse.c:686-708 | an else belongs to the nearest if, and what is no else is put back |
| Ejscript.Ej.OnFor | apps/WebServer/ejparse.c:710-806 | replaying the saved places of condition, increment and body executes the loop as its tree does and ends after the body |
| Ejscript.Ej.ForParts | apps/WebServer/ejparse.c:710-748 | initialisation and first test; the loop goes on unless the condition's text starts with 0 |
| Ejscript.Ej.ForPass | apps/WebServer/ejparse.c:750-769 | the first pass over increment and body executes nothing, never returns, and finds their places |
| Ejscript.Ej.ForRound | apps/WebServer/ejparse.c:775-802 | a round does body, increment and condition in this order |
| Ejscript.Ej.ForLoop | apps/WebServer/ejparse.c:771-803 | the rounds do what the rounds of the tree do, and nothing when not executing |
| Ejscript.Ej.OnLBrace | apps/WebServer/ejparse.c:837-862 | a block does its statements in turn and consumes its closing brace, or the token after a failed statement in its place |
| Ejscript.Ej.Statements | apps/WebServer/ejparse.c:845-850 | the same for the statements up to the brace |
| Ejscript.Ej.Eval | apps/WebServer/ejparse.c:289-365 | a script ends as its tree does: with its value, with a return, or with no value and an error noted; the test for endless loops never stops it |
| Ejscript.RunScript | apps/WebServer/ejparse.c:289-365 | for every script of calls, assignments, declarations, returns, blocks, ifs and fors: if its tree comes to something, parser and tree agree on variables, calls, value and error note; a tree that fails gives no value and an error, with the tree's effects up to the failure |
| EjScripts.RunCallLoop | apps/WebServer/ejparse.c:289-806 | the tokens of for (i = 0; i < n; i++) f(i) make exactly the calls f(0) to f(n-1) |
| EjScripts.RunChoice | apps/WebServer/ejparse.c:289-708 | the tokens of if (a < b) f(a); else g(a) make the one call f(a) exactly when a is less than b, and else the one call g(a); no value exactly when that call fails |
| EjScripts.RunCalls | apps/WebServer/ejparse.c:289-646 | a script of any calls makes them in the order written; the first that fails is the last, and leaves no value |
| EjScripts.RunReturn | apps/WebServer/ejparse.c:289-880 | a return gives its value, taken after what comes before it, and what comes after it is not done |
| EjScripts.RunReturnCall | apps/WebServer/ejparse.c:600-880 | the value of a call is the return text the function left |
| EjScripts.IdleCall | apps/WebServer/ejparse.c:600-646 | that of a call not made is the last one |
| EjScripts.RunArguments | apps/WebServer/ejparse.c:600-1011 | any number of arguments is handed over in the order written |
| EjScripts.RunSet | apps/WebServer/ejparse.c:509-646 | x = a or var x = a, then f(x): which text f is called with, in every case |
| EjScripts.RunRedeclared | apps/WebServer/ejparse.c:551-862 | a second declaration of a local name ends a script without value, but in a block only with a note |
| EjScripts.EvaluateRow | apps/WebServer/ejparse.c:1079-1144 | operators are applied from the left, whatever they are |
| EjScripts.GroupedValue | apps/WebServer/ejparse.c:820-1144 | parentheses are evaluated first |
| EjScripts.LogicFromTheRight | apps/WebServer/ejparse.c:1079-1144 | a logical operator takes everything to its right |
| Ejscript.Ej.ParseCond | apps/WebServer/ejparse.c:1018-1072 | a condition before ) or ; gives its tree's value |
| Ejscript.Ej.ParseExpr | apps/WebServer/ejparse.c:1079-1144 | one pass with one token of putback equals evaluating the tree: operators of one level from the left, logical operators taking everything to their right |
| Ejscript.Evaluate | apps/WebServer/ejparse.c:1079-1144 | for every expression, with the language's operators and any functions, parser and tree agree on value, calls and error |
| Ejscript.DryDeclaration | apps/WebServer/ejparse.c:444-925 | a parse without executing calls no function and sets no parameter; the variables are the old ones with the names met without a value declared |
| Ejscript.DryRun | apps/WebServer/ejparse.c:444-925 | where the script has no var token, a parse without executing leaves everything as it was, in every state but those of declarations and for any fuel |
| Ejscript.DeclaredAnyway | apps/WebServer/ejparse.c:551-587 | var x parsed without executing declares x, for every undeclared name |

## Left out

- MD5Transform's 64 rounds, websDecode64, operating-system calls, SSL, CGI and page generation, the upload forms.
- Select, accept and connect, and socket options; only receive, send, read, write and flush are modelled.
- Character-level lexing of Ejscript, escapes and line numbers; the lexer's keywords depend on the parser state only in that they are identifiers inside expressions, which the token sequence leaves to its caller.
- Ejscript.RunScript: line ends in place of semicolons are parsed by the model but are not in the trees; nothing is said about loops that never end, about the increment of a variable without a value, and about a failed statement followed by a brace that is not its block's, which the block then takes for its own.
- EjExpressions.Products: shift counts outside 0 to 31 and digit strings beyond an int are undefined in C; the model gives 0 and the value modulo 2^32.
- EjExpressions.LogicMeans: the same holds for operands beyond an int.
- Numbers.Gstrtoi: atoi of a number beyond an int is undefined in C; the model reduces it modulo 2^32.
- Scheduler.Scheduler.Process: the routine that is run does not change the table; rescheduling is not modelled.
- UrlHandlers.UrlHandlers.Request: handlers do not change the path while they are tried, and a request closed by a handler counts as accepted.
- UrlPath.ValidateUrl: starts from the decoded path; websDecodeUrl and the Windows name check are not modelled.
- Database.Database.SearchStr: exact comparison only, not the case-insensitive flag; a number in a row that is compared is excluded, because the code then follows it as a pointer.
- Database.Database.RegisterDBSchema: tables have columns; without any a row has size 0 and is not stored, and dbSetTableNrow does not end.
- DatabaseFile.Save: a line that is written in part is in the file in part; that a write takes bytes and then fails is not modelled.
- Users.UserManager.AddUser: memory for the row is available.
- The umSet functions, access limits being added and deleted, and access decisions: umSetUserGroup does not check the group, so it would break the invariant.
- SymbolTable.SymTab.Enter: chains are sequences, so relinking of nodes and ownership of name strings are not modelled; Delete likewise.
- RingQueue.RingQ.Grow: sizes are unbounded integers, so buffers near 2^31 bytes do not wrap.
- Handles.HandleList.Alloc: the two words in front of the array are fields, and the array is a sequence.
