# A verified model of the opal-uefi-greeter

The greeter is a UEFI program that unlocks self-encrypting drives, opens what is
on them, and starts a boot image from there. This project models the parts of it
that carry the risk and proves what they do, in Dafny 4.11. `dafny verify
dfyconfig.toml` checks everything; nothing here runs the program.

**Readers** (`Streams`, `BlockIoReader`, `OptimizedSeek`, `PartialReader`). A
block device becomes a byte stream, a cache skips seeks, a window cuts out a
partition. The `Read + Seek` traits are a record of functions
(`Streams.Reader`), and `Streams.Lawful` says when such a reader is one flat
byte sequence with a cursor. Each layer is proved lawful over any lawful inner
reader, so the laws compose; a run theorem turns a law into a statement about
every sequence of reads and seeks. The classes hold the source's fields, and
each method is proved equal to the pure step the law speaks about.

* The end arithmetic of `OptimizedSeek` (src/io.rs:185-189) subtracts where its
  name and both uses need addition. As written, a seek is answered wrongly
  exactly when it is a stopped `End` seek whose offset differs from the one that
  filled the cached end (`SeekCache.WrittenSeekExact`, over whole runs
  `SeekCache.WrittenRunExact`, with the concrete run `SeekCache.WrittenSeekWrong`).
  The intended form is transparent, and so is the stack of all three layers as
  written, because a window never asks its inner reader for its end.
* A read that fails in its second block request has already moved the device;
  the cache is stale afterwards, exactly when the first block had been read
  from its middle (`SeekCache.StaleAfterFailedRead`), and so is a window over it
  (`Window.WindowAfterFailedRead`). A later seek back and read then deliver wrong
  bytes without an error (`SeekCache.StaleReadWrong`). The run theorems
  speak about a run up to its first failing operation, and `Streams.RunCompletes`
  says that on a sound device no operation fails but a seek to before 0.
* A refused seek of a window, and a relative seek before its first use, are
  relative to wherever the inner reader stands; `Window.RefusedSeek` and
  `Window.CurrentBeforeReset` say exactly when that still agrees with the window.

**Tokens and packets** (`Tokens`, `Response`, `Command`). Token trees of any
depth are printed, framed, sent, cut into tokens again and read back. Two trees
print alike exactly when they mean the same. What is identified is spelled out
by `Tokens.Meaning`: the empty byte string and `[0]`, a UID and its 8 bytes, a
small simple token and a number, a stream and its contents.

* `get_uint` folds the header byte into the number. Truncated to 32 bits, a
  number in a short atom comes out right exactly when four to seven payload bytes
  were sent, or eight whose last has the bits of 0x88 set already; with more than
  eight it panics (`Response.TruncationExact`).

**Sessions** (`Session`, `Polling`, `Payloads`, `Tper`, `DriveRetry`, `Discovery`). The
host runs against a device with arbitrary behaviour, given as functions on a device state; what it does is
characterised for every trace. Then a conforming drive is modelled that reads
the very bytes the host sends, holds lock state, may refuse any command, and
answers in bytes; `Tper.UnlockExact` says exactly when an unlock succeeds and
what it has done. `Payloads` gives the bytes of every command, `Polling` says which
packet the host takes for an answer and that a drive which keeps it polling changes
nothing. `DriveRetry` runs the retry loop against that drive. Discovery is
proved to read the descriptor list.

**Search** (`Config`, `KeyGraph`, `Search`, `Retry`, `Greeter`). Storage is a tree; the
recursive search is compared with the list of all branches. The mutual recursion of
search, password lookup and file resolution is modelled with its caches and
retry loops as a class. Where no chain of key files leads back to its start, which is
where a rank along the chains exists (`KeyGraph.RankExact`), it is proved to terminate,
to equal the pure search, to ask only for keyslots the requested partition
depends on, and to have opened every lock and unlocked every drive on the way to the
file it returns.

* Probing stops at the first probe that claims the next partition, so a device that
  looks like two things hides branches. `Search.FindExact` says for every device what
  is found: the first branch in sight. On devices of one kind nothing is hidden
  (`Search.FindOneKind`); `Search.TwoKindsHide` gives a hidden branch.
* A partition taken by a drive's serial number stays taken for all later drives
  (src/main.rs:479, src/main.rs:499). `Search.DriveSearchExact` says what the search
  then finds, `Search.FindEachExact` what the configuration asks for, each drive on
  its own. The two agree exactly when the first drive that takes a partition or one
  before it has a branch to the file, or the later drives end in the same content
  either way (`Search.CarriedOver`). `Search.CarriedOverWrong` gives a case,
  `Search.TwoNamespaces` one of a controller that shows up twice.
* A cached master key is tried on every device of its UUID, and no password is asked.
  That is right exactly when it is the device's own key. A second device of that UUID
  with another key shows nothing, although it accepts the password that was typed
  (`Greeter.Greeter.OpenLock`, `Greeter.ForeignKey`).
* A key file with the wrong content makes a retry loop ask for ever, since every
  round reads the same file. `Retry.RetryEnds` says exactly when a retry loop ends,
  `Greeter.Greeter.LoopEnds` what that means for each keyslot in each state of the
  caches, and `Retry.WrongKeyFile` that a wrong file is refused in every round. The
  methods with such a loop ask that their own loop ends and, like the search,
  that the keyslots their key files depend on fit (`Greeter.Greeter.Fit`).

Plain `+` on machine integers wraps, as in a release build; a failed `unwrap`,
an index past the end or a `panic!` is an outcome of its own (`SeekPanic`,
`Panicked`, ...) or, where the source demands it of its caller, a precondition.

## Model

| member | source | states |
|---|---|---|
| Streams.RunIsFlat | src/io.rs:212-214 | every run of reads and seeks on a reader that keeps the law answers as one flat byte sequence with a cursor does, up to the first failing operation, and ends where the flat cursor ends |
| Streams.RunCompletes | src/io.rs:212-214 | a run on a reader that is lawful and whose reads deliver has an outcome for every operation, unless it stops at a seek to before 0 |
| BlockIo.ReadLen | src/io.rs:82-88 | a read delivers less than asked only by stopping on a block boundary, by less than a block, always when a whole block lies behind the first boundary, and never nothing when something was asked |
| BlockIo.BlockLawful | src/io.rs:39-101 | the block reader is a flat stream, for all seeks whose target fits 63 bits |
| BlockIo.SeekExact | src/io.rs:93-100 | the 64-bit seek arithmetic agrees with a mathematical seek if and only if the target is absolute or below 2^63, and a refused seek moves nothing |
| BlockIo.ReadProgress | src/io.rs:40-89 | a read makes progress whenever bytes remain and the buffer is nonempty, and falls short of the smaller of request and remainder by less than a block, then ending on a boundary |
| BlockIo.TwoReadsFill | src/io.rs:55-88 | two reads fill any buffer the rest of the stream can fill, whatever the alignment, with exactly the stream's bytes |
| BlockIo.FailedRead | src/io.rs:55-87 | a failed read moves the cursor exactly when the partial first block had been read, and then to that block's end |
| BlockIo.BlocksInRange | src/io.rs:32-36 | both block requests of a read stay inside the reader's range |
| BlockIo.BlockDelivers | src/io.rs:40-89 | every read delivers on a device without bad blocks, of at most 4096 bytes each, that holds the whole range |
| BlockIo.TooLarge | src/io.rs:49-49 | a read panics if and only if something is left to deliver and blocks have more than 4096 bytes, and then moves nothing |
| BlockIo.BlockReliable | src/io.rs:40-89 | on a device without bad blocks that holds the whole range, every read delivers, whatever the alignment, as long as blocks have at most 4096 bytes |
| BlockIo.BlockIoReader.constructor | src/io.rs:18-30 | the range from start to end block inclusive, a whole number of blocks, cursor at 0, for any block size and every range that does not overflow |
| BlockIo.BlockIoReader.ReadBlocks | src/io.rs:32-36 | requests the blocks from the cursor's block on, inside the range, and delivers the stream's bytes from that block's start |
| BlockIo.BlockIoReader.ReadHead | src/io.rs:55-71 | the first stage copies up to the next block boundary, or fails without moving |
| BlockIo.BlockIoReader.ReadRest | src/io.rs:73-88 | behind an aligned or copied head, the rest of the read brings the state and buffer of the whole specified read |
| BlockIo.BlockIoReader.ReadAligned | src/io.rs:73-88 | the second stage delivers the rest if it is less than a block, else whole blocks, or fails without moving further |
| BlockIo.BlockIoReader.Read | src/io.rs:40-89 | the new cursor and the bytes at the front of the buffer are those of the specified read, the rest of the buffer is untouched, and blocks above 4096 bytes panic |
| BlockIo.BlockIoReader.Seek | src/io.rs:93-100 | the new state and answer are those of the specified seek |
| SeekCache.OptLawful | src/io.rs:173-210 | the seek cache over any lawful reader is lawful: for the intended end arithmetic on all seeks, for the written one when all `End` seeks share an offset |
| SeekCache.WrittenSeekExact | src/io.rs:185-209 | as written, over any seeks, the cache invariant survives (known cursor is the inner position, known end is the length plus twice the filling offset) and a seek is answered right if and only if it is not a stopped `End` seek with another offset than the filling one |
| SeekCache.WrittenRunExact | src/io.rs:183-209 | as written, a run is a run of one flat stream if and only if no step of it is a stopped `End` seek with another offset than the one that filled the end |
| SeekCache.WrittenSeekWrong | src/io.rs:185-201 | a run of three seeks on a 512-byte device whose last answer no flat stream gives |
| SeekCache.CountersExact | src/io.rs:184-196 | over every run, `unstopped_seeks` counts exactly the seeks that reached the inner reader and `total_seeks` all of them |
| SeekCache.StoppedExactly | src/io.rs:188-201 | a seek is answered from the cache if and only if the cursor is known and its target, for an `End` seek by the cached end, is the cursor |
| SeekCache.LearnsEnd | src/io.rs:203-208 | a seek that gets through makes the cursor known, and the first `End` seek the end, off by twice its offset as written |
| SeekCache.StaleAfterFailedRead | src/io.rs:174-191 | after a failed block read the cache still holds if and only if the cursor was on a boundary or its block unreadable, and a seek back to the cached cursor does not reach the device |
| SeekCache.StaleReadWrong | src/io.rs:174-191 | a failed read, a seek back and a read of one byte, which delivers the wrong byte and no error |
| SeekCache.RefusedSeekKeeps | src/io.rs:183-209 | a seek the block reader refuses changes nothing but the counters |
| SeekCache.OptimizedSeek.Read | src/io.rs:174-180 | the inner read, with the known cursor moved along |
| SeekCache.OptimizedSeek.Seek | src/io.rs:183-209 | the new state and answer are those of the specified cached seek, written form |
| Window.PartLawful | src/io.rs:118-150 | a window over any lawful reader is a flat stream of exactly its bytes, for all seeks, although it uses no `End` seek inside |
| Window.WindowStep | src/io.rs:118-150 | for every size and inner reader, once placed by a read or absolute seek, the inner position is start plus cursor after every successful operation whose inner target the inner reader can represent, and no read delivers a byte from outside the window |
| Window.CurrentBeforeReset | src/io.rs:109-141 | a relative seek before the first use answers as from 0 if and only if the inner reader stands at the window's start, or, for a seek backwards, so little behind it that the seek is refused |
| Window.RefusedSeek | src/io.rs:139-146 | a refused seek leaves the window in step if and only if the inner reader refused it too |
| Window.WindowPanics | src/io.rs:137-144 | a seek panics by itself exactly when a start leaves 64 bits or an end is negative or leaves 63 bits |
| Window.WindowAfterFailedRead | src/io.rs:119-134 | after a failed read, including one that placed the window first, inner position and cursor agree if and only if the block reader stood on a boundary or its block was unreadable |
| Window.StackLawful | src/main.rs:515-516 | window over cache over block reader, all as written, is a flat stream |
| Window.StackReadProgress | src/io.rs:118-134 | a read of the stack asks for all that is wanted and left in the window, and falls short by less than a block |
| Window.NewStack | src/main.rs:515-516 | a newly built stack shows the stretch of the block stream under the window |
| Window.StackRun | src/main.rs:653-653 | every run on the stack agrees with the stretch of the disk under the window, up to the first failure; on a sound device only a seek to before 0 fails |
| Window.PartialReader.Read | src/io.rs:119-134 | new state and bytes are those of the specified window read, including the reset of an unused window |
| Window.PartialReader.Seek | src/io.rs:137-149 | new state and answer are those of the specified window seek, including its panics |
| Tokens.BigEndianRoundTrip | opal/src/defs.rs:396-399 | the payload bytes of a number give back the number |
| Tokens.UintAtomShortest | opal/src/defs.rs:377-401 | a number is printed in the shortest of the five forms, and its payload is its value |
| Tokens.AtomBytes | opal/src/defs.rs:376-424 | the bytes of every form of number and byte string |
| Tokens.WriteUint | opal/src/defs.rs:377-401 | the writer appends exactly the number's atom |
| Tokens.WriteBytes | opal/src/defs.rs:403-424 | the writer appends exactly the byte string's atom, with the null form for the empty one |
| Tokens.Write | opal/src/defs.rs:353-443 | writing a tree appends exactly its tokens in push order, for any simple tokens; only a byte string of 2048 bytes or more is excluded, where the source panics |
| Tokens.WriteBare | opal/src/defs.rs:511-539 | writing a cons list appends its elements' tokens in push order, without brackets |
| Tokens.ReadRender | opal/src/defs.rs:433-443 | reading the tokens a tree printed gives its meaning, whatever follows |
| Tokens.MeaningRecovered | opal/src/defs.rs:501-539 | the meaning of a whole token list can be read back from its tokens |
| Tokens.RenderIsUnread | opal/src/defs.rs:353-443 | the meaning of a tree determines its tokens |
| Response.ParseResponse | opal/src/command.rs:89-127 | the parser loop terminates and delivers the kept pieces of the walk, or panics exactly when the walk leaves the buffer |
| Response.TokenLengths | opal/src/command.rs:98-118 | the length of tiny, short, medium and long atoms and control tokens from their own bytes |
| Response.WalkCovers | opal/src/command.rs:97-122 | the pieces, skipped empty atoms included, concatenate to exactly the bytes walked, and the walk stops at the first piece that reaches the end |
| Response.ParseConcat | opal/src/command.rs:97-122 | parsing a concatenation at a token boundary is the concatenation of the parses |
| Response.ParseRender | opal/src/command.rs:89-127 | parsing what a tree printed, anywhere in a packet, gives its tokens in push order |
| Response.PrintsAlike | opal/src/defs.rs:403-443 | two trees print the same bytes if and only if they mean the same |
| Response.SimpleTokenParses | opal/src/command.rs:98-120 | a one-byte token parses as itself if and only if it is a tiny atom, an empty short atom or a control token other than the empty atom |
| Response.GetUint | opal/src/command.rs:141-177 | the loop computes all bytes of the atom, header included, as one number, or panics |
| Response.UintReadable | opal/src/command.rs:141-177 | a number is read from exactly the tiny unsigned atoms and the short atoms without sign bit of at most nine bytes; others panic |
| Response.HeaderFolded | opal/src/command.rs:152-163 | with up to seven payload bytes the result is the value plus the header shifted above it |
| Response.TruncationExact | opal/src/session.rs:59-60 | for every width of a short atom: more than eight payload bytes panic; otherwise truncation to 32 bits gives the value if and only if four to seven were sent, or eight whose last byte has the bits of 0x88 set |
| Response.WrittenIdComesBack | opal/src/session.rs:59-60 | of the numbers the host's own writer prints, those below 64 and those from 2^16 on come back; skipping the header would bring back all |
| Command.OpalCommandBuilder.Call | opal/src/command.rs:17-21 | a method call starts with CALL, the object and the method |
| Command.OpalCommandBuilder.Payload | opal/src/command.rs:23-28 | the stream is appended |
| Command.OpalCommandBuilder.BuildEod | opal/src/command.rs:30-53 | the built command: status request, lengths and zero padding to a multiple of four |
| Command.WireFields | opal/src/session.rs:116-137 | the header fields a reader takes from a packet are those that were set |
| Command.WireBytes | opal/src/defs.rs:8-39 | on the wire the fields stand big-endian at bytes 4, 16, 20, 24, 40 and 52, all other header bytes are 0, and the payload begins at byte 56 |
| Command.FrameRoundTrip | opal/src/command.rs:30-53 | printing, framing, sending and parsing a token tree gives exactly its tokens; padding is never parsed; each length field counts the bytes behind its header |
| Session.UnlockTraces | opal/src/lib.rs:70-75 | against every device: the sends are a nonempty prefix of start, set range, set MBR done and then exactly one end-of-session, also when start fails; each step follows success only; reconnect comes last and only after all three; everything after a successful start carries its ids |
| Session.BuildCall | opal/src/session.rs:43-55 | the builder and the writers together make the command of the call's token tree |
| Polling.PollExact | opal/src/session.rs:147-164 | the packet taken as the answer has bytes 8 to 11 zero or bytes 12 to 15 not; every packet before it was the other way round |
| Polling.SlowExchange | opal/src/session.rs:147-164 | for any number of polls a device is not ready, an exchange ends as with the device that answers at once |
| Polling.SlowUnlock | opal/src/lib.rs:50-78 | so does a whole unlock: the same commands, replies and result |
| Polling.ExchangeErrors | opal/src/session.rs:141-156 | a failed send ends the exchange unpolled; the link error stands for a failed send or receive only |
| Polling.VerdictExact | opal/src/session.rs:176-197 | success, the status code, the missing status list and the panic, from the last six tokens |
| Polling.ClassifyExact | opal/src/session.rs:166-174 | a packet longer than the buffer panics; else the tokens from byte 56 on decide |
| Payloads.StartOnWire | opal/src/session.rs:43-55 | the bytes of StartSession around any 32-byte key |
| Payloads.EnterpriseStartOnWire | opal/src/session.rs:43-55 | the bytes of StartSession on an enterprise drive, which carry no key |
| Payloads.RangeOnWire | opal/src/session.rs:222-266 | the bytes of the Set for every range and locking state |
| Payloads.MbrOnWire | opal/src/session.rs:201-220 | the bytes of the Set of MBRDone |
| Payloads.EndOnWire | opal/src/session.rs:269-273 | the bytes of the end of a session |
| Session.OpalSession.SendRawCommand | opal/src/session.rs:116-198 | one exchange: the command with the session's ids on the wire, and the verdict on the answer |
| Session.OpalSession.Receive | opal/src/session.rs:147-197 | the polling loop ends with the device's final packet, and its status decides |
| Session.OpalSession.Start | opal/src/session.rs:20-109 | sends StartSession for any provider, authority and challenge with zero ids and keeps the returned ids; with a challenge on an enterprise drive it panics |
| Session.OpalSession.SetLockingRange | opal/src/session.rs:222-266 | sends the Set of read and write lock that the locking state calls for |
| Session.OpalSession.SetMbrDone | opal/src/session.rs:218-220 | sends the Set of MBRDone |
| Session.OpalSession.Drop | opal/src/session.rs:269-280 | sends an end-of-session and ignores its reply |
| Session.OpalDrive.Unlock | opal/src/lib.rs:50-78 | the whole unlock is the specified run; a bad raw key sends nothing |
| Tper.DriveAnswers | opal/src/session.rs:150-164 | every answer of the conforming drive is final, so it never keeps the host polling |
| Tper.ReplyHeard | opal/src/session.rs:158-174 | the host reads exactly the tokens a conforming drive answered with |
| Tper.CommandHeard | opal/src/session.rs:116-137 | a conforming drive reads exactly what the host meant, in the session the host named |
| Tper.RangeMeaning | opal/src/session.rs:222-262 | each locking state sets ReadLocked and, unless an archive state, WriteLocked to what it says, on a row of its own for every range |
| Tper.SyncVerdict | opal/src/session.rs:57-60 | of a session response with each number in a tiny atom or in one to eight bytes, the host recovers the ids if and only if it hears both: tiny, four to seven bytes, or eight with the bits of 0x88 set |
| Tper.StartStep | opal/src/session.rs:43-60 | StartSession opens a session exactly when not refused, none is open and the key is the PIN; otherwise it fails with exactly the refusal, NO_SESSIONS_AVAILABLE or NOT_AUTHORIZED |
| Tper.SetStep | opal/src/session.rs:201-216 | a Set succeeds exactly when not refused and in the open session, and then applies its columns; otherwise it changes no lock and fails with the refusal or for want of an answer |
| Tper.UnlockExact | opal/src/lib.rs:50-78 | against a conforming drive unlock never panics; succeeds if and only if the key is the PIN, no session was open, the ids are heard and nothing is refused; then range 0 is unlocked for read and write and MBRDone set; an unrefusing drive answers NOT_AUTHORIZED exactly to a wrong key; a session is left open exactly when its ids were misheard or another was open before; MBRDone is never set while range 0 is locked; a wrong key changes no lock |
| DriveRetry.UnlocksExact | src/main.rs:432-456 | against a conforming drive that refuses nothing, the retry loop unlocks it in round n if and only if the n-th secret is the first whose key is the PIN and every one before has a key; range 0 is then open and MBRDone set |
| DriveRetry.DriveRetryExact | src/main.rs:432-456 | the loop over a set of accepted secrets succeeds exactly when that drive is unlocked; with prompts, exactly when some offered password has the PIN as its key |
| Discovery.RecvInfo | opal/src/io.rs:123-172 | the byte walk terminates and is the specified one, with its version check, its breaks and its panics; a failed receive is an error |
| Discovery.DiscoveryReads | opal/src/io.rs:140-169 | for every well-formed descriptor list that fits, the walk finds the last descriptor of each code; unknown descriptors and trailing zeros change nothing; undefined flag bits give None |
| Discovery.ConnectReads | opal/src/io.rs:74-89 | the drive counts as locked, enterprise or unsupported exactly by those last descriptors |
| Config.PathExists | src/main.rs:369-381 | a root-first parent-linked path exists if and only if the parent chain is closed and acyclic; it is unique, has no duplicates and no more entries than there are partitions |
| Config.ChainEnds | src/main.rs:371-378 | following parents ends if and only if no name comes twice, and then within one round more than there are partitions |
| Config.ResolvePath | src/main.rs:369-380 | wherever the chain ends, the loop builds that path in one round per entry, or panics at a missing partition exactly when there is no such path |
| KeyGraph.RankExact | src/main.rs:675-697 | a rank that falls from every keyslot to those its key file needs exists if and only if no chain of needs returns to its start |
| Search.FindIsFirst | src/main.rs:528-667 | on any device the search returns the file of the first branch in depth-first order that carries the partitions and is not behind a probe that claims the next partition |
| Search.WayStep | src/main.rs:534-667 | the first probe that claims the next partition decides where the search goes on, and a lock with a keyslot on a healthy device is passed into |
| Search.FindExact | src/main.rs:528-667 | on any device a file is found if and only if some branch in sight carries it, and it is the file of the first one |
| Search.FindOneKind | src/main.rs:528-667 | on devices of one kind a file is found if and only if some branch carries it, and it is the first one's |
| Search.TwoKindsHide | src/main.rs:534-548 | a device of two kinds with a carrying branch out of sight |
| Search.DriveSearchExact | src/main.rs:460-525 | the search over drives finds a file if and only if some drive that is not spurious has a branch in sight for the partitions left there, and it is the file of the first branch of the first such drive |
| Search.LeftAtNamed | src/main.rs:471-503 | at every drive as many partitions are gone as the serial numbers before it name in order, NVMe before ATA, whatever their keyslots |
| Search.NamedDrive | src/main.rs:471-520 | a drive that the first partition names, and nothing else does, serves the file if and only if it is not spurious and a branch in sight carries the rest of the path |
| Search.BehindLockedDrive | src/main.rs:471-483 | a file on a locked drive whose partition has a keyslot is found |
| Search.ServesOneKind | src/main.rs:460-525 | a drive of one kind serves the file if and only if it is not spurious and any branch carries what is left |
| Search.FindEachExact | src/main.rs:460-525 | the same for each drive on its own: a file is found if and only if some drive serves it for what it leaves of the whole path, and it is the first branch's of the first such drive |
| Search.NothingTaken | src/main.rs:471-503 | where no drive takes a partition, the search does what the configuration asks for |
| Search.CarriedOver | src/main.rs:461-520 | the search does what the configuration asks for if and only if the first drive that takes a partition, or one before it, serves the file, or the first way through the later drives with the partitions left and the first way with each on its own end in the same content, or there is neither |
| Search.CarriedOverWrong | src/main.rs:471-483 | a file served from a drive the path does not name |
| Search.TwoNamespaces | src/main.rs:471-483 | two namespaces of one controller: the file on the second is found, unless a drive between them has a filesystem of the next partition's name |
| Retry.RetryEnds | src/main.rs:432-456 | a retry loop ends if and only if the cached secret decides it (accepted, or the device gives up), or the key file does, or some prompt from now on does; otherwise it asks for ever |
| Retry.RetrySucceeds | src/main.rs:432-456 | it ends well if and only if the cached secret is accepted, or is merely wrong or absent and the key file or some later prompt is accepted |
| Retry.WrongKeyFile | src/main.rs:433-437 | a wrong key file is refused after every number of rounds; taken raw, one that has not 32 bytes ends the loop in its first round |
| Greeter.Greeter.LoopEnds | src/main.rs:432-456 | in every state of the caches: a prompted loop ends exactly when the cached or a later typed password is accepted; one with a key file exactly when the file is missing, accepted or refused for its length |
| Greeter.Greeter.GetPassword | src/main.rs:675-697 | a cache hit answers from the cache and reads no file; otherwise the prompt answers, or the key file, which is read again, and the cache then holds that answer; only dependencies are asked for and only they have to fit; the keyslot itself is asked for once |
| Greeter.Greeter.ResolveAndReadFile | src/main.rs:367-384 | the file is found if and only if some drive serves it for the path's partitions left there, and it is the first such branch's; every lock on that branch is open, with a cached key or opened since for a partition of its name whose keyslot was asked for, and every drive up to there is unlocked; terminates; asks only for keyslots the path depends on |
| Greeter.Greeter.FindReadFile | src/main.rs:460-525 | the loop over drives is the search that `Search.DriveSearchExact` characterises; it looks at the drives up to the one that serves the file, each unlocked for what is left of the path there, and every lock on the way is open |
| Greeter.Greeter.TryDrive | src/main.rs:461-520 | a drive found locked that a partition with a keyslot names is unlocked before its root is searched |
| Greeter.Greeter.TryOpal | src/main.rs:467-503 | a front end that is the next partition takes it, and is unlocked first where it has to be |
| Greeter.Greeter.UnlockOpal | src/main.rs:425-458 | whenever its loop ends: the rounds offer exactly what the loop offers, one request a round and only the first of the cache; it succeeds exactly when the loop does, and the cache then holds the accepted secret |
| Greeter.Greeter.OpenLock | src/main.rs:565-584 | a cached master key of the UUID opens the device without a question if and only if it is its own; otherwise, whenever the loop ends, the device opens exactly when the loop succeeds and its key is cached; every cached master key is one of a device that was opened by a password it accepts |
| Greeter.Greeter.TryPasswords | src/main.rs:570-580 | the rounds offer exactly what the loop offers, one request a round and only the first of the cache, until one is accepted or the loop fails |
| Greeter.ForeignKey | src/main.rs:565-568 | of two devices of one UUID with different master keys and a common password, the second stays closed once the first is open |
| Greeter.Greeter.FindInternal | src/main.rs:528-667 | the recursive search with locks, caches and retries returns what the pure search returns, and every lock on the way to it has its master key cached |
| Greeter.Greeter.FindInLuks | src/main.rs:554-590 | an encrypted device of the next partition's name is searched inside exactly if it has a keyslot and is healthy, and then its lock is open |
| Menu.NextSelectable | src/ui.rs:15-32 | terminates and returns the nearest selectable entry, k steps down or up around the menu |
| Menu.UpDownUndo | src/ui.rs:61-69 | from a selectable entry, up and down undo each other |

## Left out

- Greeter.Greeter.GetPassword: a failing prompt is not modelled; the typed passwords are a given sequence.
- Greeter.Greeter.FindInternal: stated for paths whose keyslots are eventually accepted by what they open and name devices that share a UUID only if they share a master key, in configurations whose names lead somewhere and whose key dependencies are acyclic. `Retry.RetryEnds`, `Config.ChainEnds` and `Greeter.Greeter.OpenLock` say what happens at one loop, chain or cached key without these.
- Greeter.Greeter.UnlockOpal: a drive that locks out after too many tries resets the machine, which ends the run; drive errors other than a wrong password or key length are not modelled there, and a drive's storage tree is the one it shows once unlocked.
- BlockIo.BlockIoReader.constructor: asks for blocks of at least one byte and for a range that does not overflow.
- Response.GetUint: an 8-byte atom shifts by 64 bits; the model takes the release build, where that is a shift by 0.
- Tper.UnlockExact: the drive answers at the first poll and neither the link nor the reconnect fails; `Session.UnlockTraces` covers polling and link errors.
- Session.OpalSession.Start: enterprise authentication is unimplemented in the source and ends in a panic.
- Streams.RunIsFlat: says nothing about operations after a failed one; what one failed read or refused seek leaves behind is stated for the block reader (`BlockIo.FailedRead`, `BlockIo.SeekExact`), the cache (`SeekCache.StaleAfterFailedRead`, `SeekCache.RefusedSeekKeeps`) and the window (`Window.WindowAfterFailedRead`, `Window.RefusedSeek`).
- Parsers for LVM2, LUKS, ext4, FAT, GPT and initramfs, and key derivation, are external libraries; they appear as the storage tree and an oracle.
- UEFI services, NVMe and ATA pass-through, terminal drawing, key input, logging and configuration decoding are not modelled.
- Boot entry handling, initramfs construction and the search for EFI files are glue with only easy claims.
