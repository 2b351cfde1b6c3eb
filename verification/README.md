# TRFS: what a trace says and what its replay does

TRFS is a stackable file system that logs the operations made through it as binary records; `treplay` reads
the log and makes the operations again. Its stated purpose (README.md:7-10) is to regenerate the same file
system state by replaying the log. This project models that path from end to end and proves when it holds.

- `Bytes`, `Records` - C narrowing and C strings; the 32-byte little-endian record header, whole records, and
  the decoding of a log.
- `TraceLog` - `fill_record` and `append_record` as methods of a class over the log file, `f_pos`, the staging
  page, the mask and the record counter.
- `FileSystem`, `FsLaws` - the lower file system behind the `vfs_*` calls: names over an inode table, so hard
  links share content. `Iso` is equality up to inode numbers.
- `OpLaws` - what each operation and each call does, name by name, byte by byte and bit by bit, and when it is
  refused.
- `Resolve`, `Syscalls` - path strings, path lookup with symbolic links, and the system calls `treplay` makes,
  after chapter 3 of the System Interfaces volume of IEEE Std 1003.1-2017.
- `Replay`, `Treplay`, `Scan` - the dispatch on one record, strict and plain stopping; the chunked read loop with
  its path buffers as array code; and what that loop does to a log of whole records.
- `Replaying`, `EndToEnd`, `Failures` - a record replays to the operation it came from; a whole trace rebuilds
  the tree; and when it does so for runs in which operations failed.
- `Locality`, `Escapes` - when exactly replay of arbitrary records leaves everything outside its directory alone,
  and how it gets out, even of an empty one.
- `Subtree`, `Divergence` - when what it does below depends on nothing but what is there, so that two directories
  that start alike end alike; and exactly when one record parts them.
- `Protocol`, `MaskOrder`, `RecordIds`, `Projection`, `Commuting`, `ConcurrentReplay` - any number of threads
  and mounts as atomic steps under the directory locks and `trfs_lock`, and what every interleaving keeps.
- `EntryOrder` - the directory locks against what they protect: the entries of a directory.
- `Example` - one trace, from its operations to the tree replayed from its bytes.
- `LowerRefs`, `InodePairs` - who owns the references on lower paths and lower inodes.
- `MaskText` - the mask as `trctl` accepts, parses and prints it.

The header layout follows section 3.1.2 of the System V AMD64 ABI: rec_id, rec_flags, perm_flags and result at
0, 4, 8 and 12, rec_size and path_len at 16 and 18, type at 20, aux_len at 24, then six zero bytes; the two
pointers stay in memory. Narrowing to `short` is section 6.3.1.3 of ISO C11, modulo 2^16 as GCC defines it.

Where the code and its promises part, the model follows the code and a theorem states when it works; each is an
equivalence unless marked otherwise:

- A write is logged as meant if and only if 1 <= count <= 32735 - path_len, or the count is zero and the buffer is
  NULL (`WriteLoggedIff`); a zero count with a buffer meets a `BUG_ON`, and a larger one wraps the 16-bit sizes.
- An append is all-or-nothing if and only if its two kernel writes agree (`AppendAtomicIff`): nothing is rolled
  back, so an aux part can land without its header or the other way round.
- A log without halting records is read to its end if and only if every multiple of 16384 below its length is
  the offset of a record (`ChunkedScanIff`); else no record starts where the chunk after the first crossing
  record does (`LosesPlace`). Without strict mode no record of a known kind halts the program.
- The log carries neither the offset of a write nor the number of bytes written, so a write is replayed to what it
  was if and only if it was not cut short, its recorded flags say whether it appended and, if it did not, it was
  made at offset 0 (`WritePlaceIff`). The flags are those of the upper file, and a change of O_APPEND there does
  not reach the lower one (trfs/file.c:41, trfs/file.c:53). No umask but one disjoint from a mode keeps it
  (`ModeKeptIff`).
- A record changes nothing outside the working directory if and only if its names do not arrive, arrive below,
  or the call is refused there; the guard is spelled out for every kind (`Stays`, `PerformOutsideIff`). Over
  lists: from a directory that shares no file with the rest, everything outside stays as it was and goes on
  sharing no file with it if and only if every record meets its guard in its turn and none hard-links a file
  in from outside (`ReplayStaysInsideIff`). Symbolic links may be there and may be made; it is enough that
  every name looked up arrives at or below the directory or nowhere (`ReplayStaysInside`, one direction).
  Starting in an empty directory is not enough: the trace of four successful operations leaves a file outside
  (`EmptyTargetEscapes`).
- One log may leave different subtrees in two directories that start alike, two empty ones even, because a link
  it makes names one of them absolutely (`TargetsDisagree`). They end alike whenever no lookup follows an absolute
  link or steps up from the top (`TargetsAgree`, one direction). For one record, whatever links its names follow,
  the exact condition is that it changes neither subtree or changes both at corresponding places (`StepAlikeIff`;
  over lists `StayAlikeIff`): a written file and the source of a link count by their inode, and two targets of a
  rename may differ if they are interchangeable leaves. That is for every record that does not take something
  across the border of one of the two directories (`Crosses`): a rename in or out, or onto the directory, and a
  link made inside to a file that has no name there; of those nothing is claimed. Removing or renaming the
  directory itself parts them. `LastRecordParts` is the failing log, taken apart.
- Failed operations are logged, and plain replay makes their calls all the same. create, link, symlink and mkdir
  can fail after the lower call has taken effect, when the upper inode cannot be interposed (trfs/inode.c:29-35);
  replay is then right to make the call. It keeps in step with the traced run if and only if no call that took no
  effect takes one in its turn (`InStepIff`). What the tree itself refused takes none on replay either
  (`RefusedIsHarmless`), so a run of operations that succeed, fail in the interposition or are refused by the
  tree is rebuilt with nothing asked of the tree it is replayed on but to start equal (`ReplayRebuildsRefused`).
  Only if the lower tree has been changed behind trfs can a refused unlink have met an
  empty directory or a refused rmdir a non-directory, which remove(3) then removes (`RefusedHarmlessIff`).
- `trfs_iget` keeps the books of a lower inode if and only if no allocation in it has failed, because that path
  drops a reference it never took (`RunCountedIff`); it keeps one upper inode per lower one if and only if no
  other thread is in the middle of it for the same pair, because `trfs_inode_set` sets nothing
  (`KeepsPairsIff`, `RaceGivesTwo`).
- README.md:4-5 lists reads among the logged operations; the code logs none.

## Model

| member | source | states |
|---|---|---|
| Bytes.UnpackPack | trfs/tr_types.h:19-30 | unsigned fields stored little-endian one after the other come back, whatever follows them, if each fits its width |
| Bytes.CStringIs | hw2/treplay.c:173-177 | a buffer that is NUL-free up to n and has a NUL (or its end) at n holds exactly its first n bytes as a string |
| Records.HeaderRoundTrip | trfs/tr_types.h:19-30 | every header whose fields are in range is read back field by field from its 32 bytes, signs included |
| Records.HeaderLayout | trfs/tr_types.h:19-30 | the bytes at 0, 4, 8, 12, 16, 18, 20 and 24 are rec_id, rec_flags, perm_flags, result, rec_size, path_len, type and aux_len, least significant first, negative ones in two's complement, and bytes 26 to 31 are zero |
| Records.RecordLayout | trfs/trdump.c:118-140 | the path stands at 32 and the aux bytes behind it |
| Records.DecodeEncode | hw2/treplay.c:159-191 | the header, path and aux treplay finds at the front of the bytes are those of the record appended there, and rec_size leads to the next byte after it |
| Records.StreamRoundTrip | hw2/treplay.c:148-306 | decoding the concatenation of any well-formed records gives exactly that list |
| Records.LogIsInjective | trfs/trdump.c:115-145 | two different lists of well-formed records never leave the same log |
| Records.EncodeAllAppend | trfs/trdump.c:127-145 | the log of a concatenation is the concatenation of the logs |
| TraceLog.CommonSizeIsHeader | trfs/trdump.c:115-116 | the header length append computes is 32 for every path_len and aux_len, even when rec_size or aux_len has wrapped |
| TraceLog.RecSizeExact | trfs/trdump.c:54-87 | for counts below 32768, rec_size is the true size for every kind but a write, and for a write exactly when count <= 32735 - path_len |
| TraceLog.FilledIsMeant | trfs/trdump.c:47-87 | within that bound the filled header is the header of the record that was meant, for every kind |
| TraceLog.WriteLoggedIff | trfs/trdump.c:73-77 | of all counts a size_t can hold, exactly those from 1 to 32735 - path_len, and zero with a NULL buffer, are logged as meant by full kernel writes |
| TraceLog.FullAppend | trfs/trdump.c:127-145 | a record that fits is appended whole by two full writes |
| TraceLog.AppendCases | trfs/trdump.c:127-154 | the log and the return value after each combination of full and short header and aux writes |
| TraceLog.AppendAtomicIff | trfs/trdump.c:127-145 | the log gains the whole record or nothing exactly when both writes are full, both are short, or there is no aux part |
| TraceLog.LogOfRun | trfs/trdump.c:106-155 | over every run of such atomic appends the bytes before f_pos are a concatenation of whole records, those that went through, in order |
| TraceLog.LogAlwaysDecodes | trfs/trdump.c:106-155 | the log of every such run from an empty file decodes, to exactly the records that went through |
| TraceLog.AuxIgnored | trfs/trdump.c:135-138 | with a zero aux_len the result does not depend on the aux bytes |
| TraceLog.Log.constructor | trfs/main.c:208-211 | a mounted file system starts with an empty log, all mask bits on, the counter at -1 and a page of 48 + 4096 bytes |
| TraceLog.Log.SetMask | hw2/tr_ioctl.c:93-95 | the mask becomes the given bitmap and nothing else changes |
| TraceLog.Log.FillRecord | trfs/trdump.c:12-103 | a zero kind is refused without drawing an id; any other draws the next id and leaves a header with the kind, flags, mode and result it was given, and the lengths narrowed to shorts |
| TraceLog.Log.KernelWrite | trfs/trdump.c:127-128 | the granted prefix of the data lands at f_pos, the bytes before it and f_pos stay |
| TraceLog.Log.StageRecord | trfs/trdump.c:115-119 | the page starts with the 32 header bytes and the path; every copy stays inside it |
| TraceLog.Log.WriteHead | trfs/trdump.c:127-133 | f_pos moves over header and path when the write is full and stays otherwise |
| TraceLog.Log.AppendRecord | trfs/trdump.c:106-155 | the log and the return value are those of the specification `Appending`, on which the append laws are proved |
| TraceLog.Log.LogOperation | trfs/inode.c:41-46 | under trfs_lock: an unselected kind leaves log and counter alone; a selected one draws one id and the log is what `Appending` makes of the filled header, for a write of any count, with a buffer or NULL; a record that fits is appended as it was meant |
| FileSystem.Move | trfs/inode.c:331-333 | after a rename the names are those of the moved subtree at its new place and the others, with the inodes they had |
| FileSystem.RunAppend | trfs/inode.c:15-362 | running two sequences in turn is running their concatenation, failures included |
| FsLaws.ApplySound | trfs/inode.c:15-362 | every successful operation keeps each name on an existing inode and unused numbers unused |
| FsLaws.ApplyRooted | trfs/inode.c:15-362 | every successful operation keeps the tree shape: the parent of every name is a directory |
| FsLaws.RunKeeps | trfs/inode.c:15-362 | so does every successful run |
| FsLaws.ApplyIso | trfs/inode.c:15-362 | on trees equal up to inode numbers every operation succeeds or fails alike and leaves such trees |
| FsLaws.ApplyBelow | hw2/treplay.c:176-177 | an operation on paths rebased below a directory acts on that subtree exactly as the original one acts on it alone, same errors included |
| FsLaws.ApplyFrame | hw2/treplay.c:200-301 | a name that is not at or below one of the operation's paths keeps its inode |
| FsLaws.ApplyFrameNodes | hw2/treplay.c:200-301 | no existing inode changes its content but the one a write names |
| OpLaws.SpliceWrites | trfs/file.c:41 | after a write the written bytes stand at the offset, and around them what was there, or zeros in a gap; the length is the greater of the two |
| OpLaws.WriteMeans | trfs/file.c:41 | a write needs a file open for writing; every name of the file reads the new content, and nothing else changes |
| OpLaws.MakeMeans | trfs/inode.c:29-30 | create, mkdir and symlink need a free name in a directory and make one name with an inode of its own: an empty file with twelve bits of the mode, a directory with ten, a link with its text |
| OpLaws.LinkMeans | trfs/inode.c:72-73 | link makes one more name of the same inode, never of a directory |
| OpLaws.RemoveMeans | trfs/inode.c:116-242 | unlink takes away one name of no directory, rmdir that of an empty one |
| OpLaws.RenameRefused | trfs/inode.c:319-333 | when rename is refused, with which error, and when it does nothing |
| OpLaws.RenameMeans | trfs/inode.c:331-333 | after a rename all names below the source are below the target with their inodes, none is below the source, and the others are as they were |
| OpLaws.BitsAt | hw2/treplay.c:210-248 | a mode under a umask has exactly the bits of the mode, up to the width, that the umask does not have |
| OpLaws.ReplayedMkdirMeans | hw2/treplay.c:248 | a replayed mkdir at a free place makes a directory whose mode has exactly the low ten bits of the recorded one that the umask does not have |
| OpLaws.ReplayedCreateMeans | hw2/treplay.c:210 | a replayed create makes an empty file whose mode has exactly the low twelve |
| OpLaws.ReplayedWriteMeans | hw2/treplay.c:224-231 | a replayed write leaves the data alone under O_TRUNC, behind the old content under O_APPEND, and else over its start |
| OpLaws.OpenMeans | hw2/treplay.c:210-224 | open by the bits of its flags, for a free name, a file, a directory and a link |
| OpLaws.FollowsMeans | hw2/treplay.c:210-224 | which flags keep open from following a link at the end |
| OpLaws.CallsMean | hw2/treplay.c:261-292 | rename, link, symlink and remove act at the places their two names lead to, in this order; remove goes by the type |
| OpLaws.GoodMeans | hw2/treplay.c:54-77 | a record is good exactly if its call succeeds and its recorded result is no error; a failing call changes nothing |
| OpLaws.RenderMeans | trfs/trdump.c:53-80 | the string of a path: a slash before each name, and one for the top |
| OpLaws.RecordMeans | trfs/inode.c:41-353 | kind, flags, mode, result, path and aux of the record of each successful operation |
| Resolve.SplitJoin | hw2/treplay.c:176-177 | the components of a rendered path are the path's names |
| Resolve.RebasedPath | hw2/treplay.c:173-177 | the working directory's string followed by a recorded path names that path below that directory, the root directory included |
| Resolve.WalkPhysical | hw2/treplay.c:204-295 | a lookup that meets only directories arrives at the path it was given |
| Resolve.WalkWithoutLinks | hw2/treplay.c:204-295 | where no link is met a lookup arrives at its path exactly when all proper prefixes are directories, and fails otherwise |
| Resolve.SlashesSeparate | hw2/treplay.c:177 | slashes in a path string only separate, however many |
| Resolve.WalkThrough | hw2/treplay.c:204-295 | through directories a lookup goes on from where they lead |
| Resolve.WalkDots | hw2/treplay.c:204-295 | a dot stays, two dots go back up, and not above the root |
| Resolve.WalkStops | hw2/treplay.c:204-295 | a lookup does not go through what is missing or no directory |
| Resolve.WalkLast | hw2/treplay.c:204-295 | the last name need not be there, and a link there is followed only if that is asked |
| Resolve.WalkLink | hw2/treplay.c:204-295 | a relative link leads on from the directory that holds it, an absolute one from the root |
| Resolve.SelfLinkFails | hw2/treplay.c:204-295 | a link to itself is given up on |
| Resolve.LookupChain | hw2/treplay.c:204-295 | a chain of links is followed exactly if it has at most forty |
| Syscalls.ModeKeptIff | hw2/treplay.c:210 | replay under a umask asks for the recorded mode exactly when the two share no bit |
| Syscalls.BitsTwice | hw2/treplay.c:248 | a mode masked at tracing and again at replay is the mode masked once, to the narrower width |
| Replay.ReplayList | hw2/treplay.c:158-303 | unless it halts, a replay performs every record of the list |
| Replay.StrictStep | hw2/treplay.c:54-77 | strict mode halts at a record exactly when plain mode finds it bad; of a bad write only the open is carried out, of any other bad record its call |
| Replay.StrictHaltsIff | hw2/treplay.c:54-77 | strict replay halts exactly when some record is bad, and otherwise ends in the very state of plain replay |
| Replay.StrictStopsAtFirstBad | hw2/treplay.c:200-301 | a strict replay that halts has performed exactly the good records before the first bad one, and of that one its call, or only the open of a write |
| Treplay.Memcpy | hw2/treplay.c:173 | the source bytes stand at the front of the destination |
| Treplay.CopyString | hw2/treplay.c:173-175 | the buffer holds the first C string of the copied bytes |
| Treplay.Getcwd | hw2/treplay.c:176 | the buffer holds the working directory as a string |
| Treplay.Strcat | hw2/treplay.c:177 | the destination holds its old string followed by the source's |
| Treplay.FirstArgument | hw2/treplay.c:173-177 | pathbuf then holds exactly cwd + recorded path |
| Treplay.SecondArgument | hw2/treplay.c:183-198 | resolvebuf then holds the raw aux of a symlink, or auxbuf cwd + aux |
| Treplay.Arguments | hw2/treplay.c:173-198 | after resolvebuf has been used again for the second name, pathbuf still holds exactly cwd + recorded path |
| Treplay.FittingRecord | hw2/treplay.c:159-301 | the call made on what the buffers hold is the performing of the record at the front of the chunk |
| Treplay.OneRecord | hw2/treplay.c:159-302 | it tells whether the record fits, and performs exactly that record if so; every copy stays inside its buffer |
| Treplay.Turn | hw2/treplay.c:158-303 | one turn of the inner loop is one turn at the corresponding file position |
| Treplay.ReplayChunk | hw2/treplay.c:156-305 | the inner loop over one chunk is the specification from the chunk's start to its end, or to where it stops |
| Treplay.ReplayFile | hw2/treplay.c:148-306 | the nested loops compute exactly the specification `ReplayFrom`, on which the scan and replay theorems are proved |
| Scan.CutRecord | hw2/treplay.c:156-168 | a record cut short by the end of its chunk never lies inside the bytes read |
| Scan.ScanStep | hw2/treplay.c:158-303 | at a record boundary the program performs that record and goes to the next, or is undefined because it crosses the chunk end |
| Scan.ScanExact | hw2/treplay.c:148-306 | on any log of whole records the program performs, in order and at their offsets, exactly the records before the first that crosses a chunk end or halts it |
| Scan.AlignedIff | hw2/treplay.c:148-163 | no record crosses a chunk end exactly when every chunk starts with a record |
| Scan.Crossing | hw2/treplay.c:302-306 | a record that crosses the end of its chunk leaves the next chunk without a record at its start |
| Scan.LosesPlace | hw2/treplay.c:302-306 | in any log that is not aligned: the first crossing record ends beyond its chunk, and the offset at which the next chunk starts is no record's |
| Scan.SmallLogIsWhole | hw2/treplay.c:148-149 | a log of at most 16384 bytes is read whole |
| Scan.ChunkedScanIff | hw2/treplay.c:148-306 | unless strict, the program reaches the end having visited exactly the record offsets if and only if every multiple of 16384 below the length is one of them |
| Scan.OnlyStrictHalts | hw2/treplay.c:54-77 | without strict mode no list of records of known kinds halts the program |
| Scan.TurnsBounded | hw2/treplay.c:302-306 | on any log of whole records the walk visits at most a 33rd as many offsets as the log has bytes |
| Scan.ReplayIgnoresIds | hw2/treplay.c:200-301 | logs that differ only in record ids replay alike: same offsets, same end, same tree |
| Replaying.RecordWellFormed | trfs/trdump.c:47-92 | every traceable operation's record is well formed, of a known kind, with an aux part exactly when its kind has one |
| Replaying.LookupRebased | hw2/treplay.c:173-177 | a recorded path is found at its place below the working directory if its parent is a directory there |
| Replaying.ReplayIsApply | hw2/treplay.c:200-301 | for each of the eight operations as the kernel lets it be traced, replaying its record where the operation can succeed has exactly that operation's effect and counts as good |
| Replaying.WritePlaceIff | trfs/file.c:41-54 | for every length and every number of bytes written: the replayed write gives what the traced one gave, for all contents and data, exactly when all was written, the recorded flags tell whether it appended, and it was made at offset 0 if it did not |
| EndToEnd.TwinStep | hw2/treplay.c:200-301 | an operation that succeeds on the traced tree succeeds on its twin below the working directory and leaves twins |
| EndToEnd.StepOutside | hw2/treplay.c:200-301 | an operation below a directory that shares no inode with the rest changes nothing outside it and keeps it so |
| EndToEnd.ReplayOfRun | hw2/treplay.c:158-303 | replaying the records of a successful run does not halt, finds every record good and ends in the twin of the run's tree |
| EndToEnd.LogIsEncoding | trfs/trdump.c:106-155 | the appends of a run from mount leave exactly the encoding of its records |
| EndToEnd.ReplayRebuildsTree | hw2/treplay.c:148-306 | for every successful run, treplay on the bytes it logged rebuilds names, modes, contents, link texts and hard-link sharing below its directory, up to inode numbers, and touches nothing outside |
| EndToEnd.SmallLogAligned | hw2/treplay.c:148-149 | a log of at most 16384 bytes meets the alignment that theorem asks for |
| Locality.RenameActs | hw2/treplay.c:261 | rename moves the subtree exactly under the guard `Movable`, and else changes nothing |
| Locality.MakeOutsideIff | hw2/treplay.c:248 | making a file, directory or link leaves the outside alone exactly if its path is below or cannot be entered |
| Locality.RemoveOutsideIff | hw2/treplay.c:292 | removing does exactly if its path is below or remove(3) is refused there |
| Locality.LinkOutsideIff | hw2/treplay.c:271 | hard-linking does exactly if the new name is below or link(2) is refused |
| Locality.RenameOutsideIff | hw2/treplay.c:261 | renaming does exactly if both paths are below or nothing moves |
| Locality.PutOutsideIff | hw2/treplay.c:231 | writing does exactly if the content stays as it was or the file has no name outside |
| Locality.WriteActs | hw2/treplay.c:217-238 | open and write together, under any flags: make the file, truncate it, rewrite it or do nothing |
| Locality.CallActs | hw2/treplay.c:200-301 | any other record does what one operation does at the ends of its names, or nothing; when it is good, and when it halts |
| Locality.PerformOutsideIff | hw2/treplay.c:200-301 | any record of any kind, bytes, flags, mode, result and option changes nothing outside exactly under the guard `Stays` |
| Locality.SealedIff | hw2/treplay.c:266-275 | a record that stays keeps the directory free of shared files exactly if it does not hard-link one in from outside |
| Locality.ReplayStaysInsideIff | hw2/treplay.c:158-303 | over any list of any records, all trees on the way are the same outside and share no file exactly if every record stays in its turn and none links a file in |
| Locality.ReplayStaysInside | hw2/treplay.c:158-303 | if every name looked up arrives at or below the directory or nowhere, no name and no content outside changes, links made or not |
| Escapes.LinkLeadsOut | hw2/treplay.c:204-216 | through a link to another directory a create makes its file there |
| Escapes.EmptyTargetEscapes | hw2/treplay.c:200-301 | the records of symlink, rename, mkdir and create, all successful where traced, leave a file outside an empty target |
| Escapes.TargetsDisagree | hw2/treplay.c:200-301 | a log whose link names the second of two empty directories absolutely leaves a file in the second replay's subtree and not in the first's |
| Resolve.WalkBelow | hw2/treplay.c:204-295 | a walk below a directory that follows no absolute link and does not step up from the top is the walk in the subtree on its own, relative links included |
| Resolve.LookupBelow | hw2/treplay.c:173-177 | so a recorded path, of any bytes after its first slash, is found where the subtree on its own has it, with the directory put in front |
| Subtree.AlikeApply | hw2/treplay.c:200-301 | the same operation below two directories that are alike succeeds or fails alike, same errors, and leaves them alike |
| Subtree.PerformAlike | hw2/treplay.c:200-301 | any record whose lookups go that way is as good, halts as much and leaves the same below two alike directories |
| Subtree.ReplayAlike | hw2/treplay.c:158-303 | so over lists, failing records included: same count, same halt, same subtree |
| Subtree.TargetsAgree | hw2/treplay.c:148-306 | one log of any such records, relative links made and followed, aligned or not, in two alike directories: treplay visits the same offsets, ends in the same way and leaves the same subtree |
| Subtree.HomeReplayStaysInside | hw2/treplay.c:158-303 | and nothing outside changes |
| Subtree.LinkFreeTargetsAgree | hw2/treplay.c:158-303 | in directories without links no record that makes none needs a condition: two alike ones end alike |
| Divergence.RenameTwo | hw2/treplay.c:261 | two renames on one tree leave equal trees exactly if they move the same name to the same target, or to interchangeable leaves |
| Divergence.SameEffectIff | hw2/treplay.c:200-301 | a record that acts on one tree at two places leaves equal trees exactly if the places correspond |
| Divergence.Classified | hw2/treplay.c:200-301 | a record that takes nothing across the border of a directory is harmless, acts inside it or apart from it, or removes or renames the directory itself |
| Divergence.InsideBelow | hw2/treplay.c:200-301 | inside: the subtree becomes what the record makes of it on its own |
| Divergence.ApartBelow | hw2/treplay.c:200-301 | apart: the subtree stays as it was |
| Divergence.TopGone | hw2/treplay.c:261-292 | on the directory itself: it is no longer there |
| Divergence.StepAlikeIff | hw2/treplay.c:200-301 | one record that takes nothing across either border leaves two alike directories alike exactly if it changes neither subtree or both at corresponding places |
| Divergence.LastRecordParts | hw2/treplay.c:209-216 | two alike empty directories are alike until the last record of that log has its turn, and parted by it, as it acts apart from the one and inside the other |
| Divergence.StayAlikeIff | hw2/treplay.c:158-303 | over lists of such records: alike after every record exactly if every record corresponds in its turn |
| Failures.HarmlessIff | hw2/treplay.c:200-301 | a record leaves the whole file system as it is exactly under the guard `Harmless`, and else changes a name or a content |
| Failures.TookStep | trfs/inode.c:29-35 | the record of an operation that took effect, successful or failed in the interposition, keeps replay and run in step |
| Failures.FailedStep | hw2/treplay.c:54-77 | the record of an operation that took no effect keeps them in step exactly if it is harmless |
| Failures.InStepIff | hw2/treplay.c:158-303 | plain replay of a run with failures for any reason, before or after the lower call took effect, keeps in step with it exactly if every call that took no effect is harmless in its turn |
| Failures.ReplayRebuildsDespiteFailures | hw2/treplay.c:148-306 | under that condition treplay on the bytes of such a run rebuilds its tree and touches nothing outside |
| Failures.RefusedHarmlessIff | hw2/treplay.c:286-296 | what the tree itself refuses is harmless on replay, except exactly an unlink of an empty directory and a rmdir of a non-directory |
| Failures.RefusedIsHarmless | trfs/inode.c:101-148 | with the type checks the kernel makes before it calls trfs there is no exception |
| Failures.AllRefusedAllHarmless | trfs/inode.c:101-362 | in a run whose ineffective calls were all refused by the traced tree, every such record is harmless in its turn on any twin |
| Failures.ReplayRebuildsRefused | hw2/treplay.c:148-306 | treplay on the bytes of such a run rebuilds its tree, with nothing asked of the tree it replays on but to start as a twin |
| Protocol.KeepsLocks | trfs/trfs.h:202-213 | every step of every thread keeps each directory lock with one owner |
| Protocol.KeepsLogLock | trfs/inode.c:41-46 | every step keeps at most one thread per mount between taking and releasing trfs_lock |
| Protocol.NoSharedDirectory | trfs/inode.c:27-48 | two operations between effect and append never hold a directory lock in common |
| Protocol.KeepsOrder | trfs/inode.c:27-48 | every step keeps: a waiting operation took effect after every logged one that shares a directory with it, and the log is in that order |
| Protocol.LogOrderIsEffectOrder | trfs/inode.c:27-48 | in every reachable state two logged operations that held a lower directory lock in common stand in the log in the order in which they took effect |
| EntryOrder.ApplySingle | trfs/inode.c:15-362 | no operation gives a directory a second name |
| EntryOrder.UnlockedUntouched | trfs/inode.c:319-353 | an operation leaves the entries of every directory it has not locked as they were |
| EntryOrder.LocksWhatItChanges | trfs/inode.c:53-362 | an operation that changes the tree changes the entries of exactly the directories it locks: both parents of a rename, the new name's of a link, the name's of the others, none of a write |
| EntryOrder.ChangesInOrder | trfs/inode.c:27-48 | in every reachable state two logged operations that changed entries of one directory stand in the log in the order in which they did |
| MaskOrder.KeepsFollows | hw2/tr_ioctl.c:93-95 | every step keeps the log and mask up to date with the order in which trfs_lock was taken |
| MaskOrder.LogIsChosen | trfs/trdump.c:19-22 | whenever trfs_lock is free the log is exactly the operations, in lock order, whose bit is set in the latest mask set before them |
| RecordIds.KeepsStamped | trfs/trdump.c:47 | every step keeps the ids drawn so far distinct and increasing along each log, drawn but unlogged ones included |
| RecordIds.IdsIncrease | trfs/trdump.c:47-49 | between two mounts and for at most 2^32 draws, record ids increase along each log and two logs share none |
| RecordIds.SoleLogIsNumbered | trfs/main.c:244 | the log of a sole mount carries the ids 0, 1, 2, ... |
| RecordIds.MountMeans | trfs/main.c:208-244 | a mount call starts the ids again for all mounts, with an empty log and all mask bits of its own |
| Projection.NothingDropped | trfs/main.c:210 | as long as no mask is set no operation is filtered out |
| Projection.KeepsMirrored | trfs/inode.c:27-48 | every step keeps, per directory: effects in order = logged operations in order, then the one that waits |
| Projection.DirectoriesAgree | trfs/inode.c:27-48 | with nothing waiting, the log restricted to a directory is the sequence of effects restricted to it |
| Commuting.SimpleStep | trfs/inode.c:25-51 | a create, symlink or unlink succeeds exactly when the history of its own path lets it |
| Commuting.RunIffCells | trfs/inode.c:15-187 | a sequence of them succeeds exactly when at every path its own part does |
| Commuting.SamePathsSameTree | trfs/inode.c:15-187 | two sequences with the same history at every path succeed alike and leave equal trees up to inode numbers |
| ConcurrentReplay.PathsAgree | trfs/inode.c:25-51 | log and effects agree at every path |
| ConcurrentReplay.LogOrderGivesSameTree | trfs/inode.c:15-187 | for any interleaving of successful creates, symlinks and unlinks, log order gives the tree that execution order gave |
| ConcurrentReplay.SoleLogBytes | trfs/trdump.c:47-49 | the file the threads of a sole mount leave is byte for byte the log of its operations |
| ConcurrentReplay.ConcurrentTraceReplays | hw2/treplay.c:148-306 | treplay on the bytes the threads of one mount left, also if a mount call has reset their ids on the way, rebuilds the concurrently made tree and touches nothing outside |
| LowerRefs.KeepsBalance | trfs/trfs.h:158-199 | each get, put, set, reset, allocate and free keeps: references on a lower path = dentries storing it + operations holding it |
| LowerRefs.StoreKeepsBalanceIff | trfs/trfs.h:173-180 | storing a path keeps the balance exactly when the slot was empty |
| LowerRefs.RunBalanced | trfs/trfs.h:158-199 | so does every interleaving from mount on; counts are never negative, and zero once all dentries are released and all operations have ended |
| LowerRefs.Stack.constructor | trfs/main.c:186-195 | a stack starts with no dentry and no reference |
| LowerRefs.Stack.PathGet | trfs/trfs.h:163 | the path has one more reference, held by the caller |
| LowerRefs.Stack.PathPut | trfs/trfs.h:170 | it has one less, and the caller one less to give back |
| LowerRefs.Stack.GetLowerPath | trfs/trfs.h:158-166 | the caller receives the stored path with a reference of its own |
| LowerRefs.Stack.PutLowerPath | trfs/trfs.h:167-172 | that reference is given back; a null path needs none |
| LowerRefs.Stack.SetLowerPath | trfs/trfs.h:173-180 | the caller's reference becomes the dentry's |
| LowerRefs.Stack.PutResetLowerPath | trfs/trfs.h:189-199 | the dentry stores nothing and its reference is dropped |
| LowerRefs.Stack.Release | trfs/dentry.c:37-43 | the dentry is gone, its path lost exactly one reference, no other path lost any |
| LowerRefs.Stack.Revalidate | trfs/dentry.c:18-35 | every reference count is as before; the verdict is -ECHILD in an RCU walk, else that of the lower file system, else 1 |
| LowerRefs.Stack.Attach | trfs/lookup.c:39-52 | the dentry has private data with an empty slot |
| LowerRefs.Stack.Adopt | trfs/lookup.c:232-237 | a path handed over by the lower file system becomes the dentry's |
| LowerRefs.Stack.Drop | trfs/lookup.c:240-244 | a failed interposition gives the path back |
| LowerRefs.Stack.LookupLower | trfs/lookup.c:206-287 | the balance is kept; an error other than ENOENT comes back as it is and nothing is stored; a found path gives the result of the interposition and is stored if that is 0; ENOENT stores the negative path, or is ENOMEM without one; a root gives 0 |
| LowerRefs.Stack.Lookup | trfs/lookup.c:289-322 | the same for a new dentry, which is ENOMEM without private data; on every way out the parent's path has been put and the books balance |
| InodePairs.RunCounted | trfs/lookup.c:69-102 | in every interleaving, failures and races included, a lower inode's count is what others hold plus one per live upper inode less one per failed allocation |
| InodePairs.RunCountedIff | trfs/lookup.c:85-89 | so from mount on each live upper inode holds exactly one reference if and only if no allocation has failed |
| InodePairs.KeepsPairsIff | trfs/lookup.c:54-102 | a step keeps at most one upper inode per mount and lower inode exactly when it does not begin one beside a pending one |
| InodePairs.RunPairs | trfs/super.c:100-113 | in every run from mount that begins inodes alone and whose allocations succeed, both hold, and no reference is left once all are evicted |
| InodePairs.RaceGivesTwo | trfs/lookup.c:54-102 | a run of four steps that gives one lower inode two live upper inodes |
| InodePairs.Inodes.constructor | trfs/main.c:173-178 | a mount starts with no upper inode |
| InodePairs.Inodes.Cached | trfs/lookup.c:75-92 | finds the mount's live inode for a lower inode if and only if there is one |
| InodePairs.Inodes.Iget | trfs/lookup.c:69-141 | returns the one live inode of the pair, its count right, exactly when it was cached or could be made; states what each failure leaves behind |
| InodePairs.Inodes.EvictInode | trfs/super.c:100-113 | the upper inode is gone and its one reference given back |
| Example.TraceRuns | trfs/inode.c:15-227 | mkdir, create, write, link and unlink in an empty file system leave exactly this tree |
| Example.Replayed | hw2/treplay.c:148-306 | the premises of the end-to-end theorem are met by that trace, and replaying its bytes makes the tree |
| MaskText.IsValidHex | hw2/trctl.c:32-50 | accepts exactly "0x" or "0X" followed by at most sixteen hexadecimal digits |
| MaskText.DigitTable | hw2/trctl.c:43 | the hexadecimal digits are the sixteen, in both cases, with their values |
| MaskText.LoweredValue | hw2/trctl.c:68 | the case of a digit does not matter to the value |
| MaskText.HexAppend | hw2/trctl.c:68 | each digit weighs sixteen times the one behind it |
| MaskText.DenotedValue | hw2/trctl.c:68 | a text that is the printed form of a mask in either case, with zeros in front, has that mask as its value |
| MaskText.AcceptedFits | hw2/trctl.c:67-68 | every accepted text has a value below 2^64, which strtoul reads in full |
| MaskText.PrintedParsesBack | hw2/trctl.c:22 | every 64-bit mask is printed as a text that is accepted and parses back to it |
| MaskText.PrintedIsCanonicalForm | hw2/trctl.c:22 | of the accepted texts of a mask the printed one is the only lower-case one without superfluous zeros |
| MaskText.MaskArgument | hw2/trctl.c:61-73 | "all" and "none" give all bits and none; a hexadecimal argument gives the mask that its text denotes, in either case and with zeros in front; exactly the others are usage errors |
| MaskText.DigitSelects | trfs/inode.c:41-42 | one bit of one digit of the text decides whether operations of a kind are traced |

## Left out

- TraceLog.Log.AppendRecord: when a refused aux write returns an errno equal to a wrapped negative aux_len the code moves f_pos back by it; the model names that outcome (`Rewound`) with the log before the move and does not continue from it. A `BUG_ON` ends the model likewise.
- TraceLog.WriteLoggedIff: assumes the kernel grants both writes in full; short ones are `AppendCases`. A positive count with a NULL buffer has no bytes to grant: its aux write fails.
- Treplay.OneRecord: what C leaves undefined (a length that is negative or leads out of the chunk, a non-positive rec_size, a second path that was never built, a path too long for its buffer) is one outcome, `Undefined`; what such a program would do is not modelled.
- Treplay.ReplayFile: the log has the size stat reported and every read of a chunk is full; failing reads, printing, option parsing and the exit status are not modelled; the mode open takes from an unset argument when a record's flags hold O_CREAT is a parameter; `noreplay` and `strict`, which have no initial value in the code, are taken as false when absent.
- EndToEnd.ReplayRebuildsTree: for successful operations under process umask 0; runs with failures are `Failures`'. The log must be aligned to chunks, which `ChunkedScanIff` shows to be necessary.
- Failures.InStepIff: speaks of every tree on the way; a misfire that a later one undoes counts as out of step. A write cut short is no run of this kind; `WritePlaceIff` shows that its replay differs.
- Replaying.ReplayIsApply: writes at other offsets, writes through a file that has lost the name it was opened by, and writes that were cut short have no faithful replay: the record holds a path and the requested count, neither an offset nor the number of bytes written. A write's flags are as the kernel leaves them on an open file, with O_CREAT, O_EXCL and O_TRUNC cleared, and without O_DIRECTORY, O_PATH and O_DIRECT, whose alignment rule a replay need not meet.
- Locality.WriteActs: an open obeys O_CREAT, O_EXCL, O_TRUNC, O_NOFOLLOW, O_APPEND and the access mode of arbitrary recorded flags; O_DIRECT, O_DIRECTORY and O_PATH have no effect in the model.
- Subtree.TargetsAgree: one direction, over whole logs; what it leaves open, lookups that follow absolute links or step up, is decided by `Divergence.StepAlikeIff` record by record.
- Divergence.StepAlikeIff: says nothing of records that take something across the border of a directory (`Crosses`): a rename in, out or onto the directory, and a hard link made inside to a file that has no name there.
- Locality.PerformOutsideIff: for arbitrary path bytes the model resolves a last component `.` or `..`, and a trailing slash, like any other; the kernel refuses remove and rename on the first two, and on a trailing slash refuses an open with O_CREAT and whatever is not a directory. Paths that trfs records have neither.
- Protocol.LogOrderIsEffectOrder: a write takes no directory lock and its effect precedes trfs_lock, so no order of concurrent writes follows from the code; the same holds for making a directory against operations inside it.
- EntryOrder.ChangesInOrder: a thread is bound to its dentries by the locks it takes, and its paths are those at its effect; that a directory above could be renamed between the effect and the append, and the logged path differ, is not modelled.
- ConcurrentReplay.LogOrderGivesSameTree: creates, symlinks and unlinks in directories that exist from the start, all successful and traced by one mount with its mask untouched.
- RecordIds.SoleLogIsNumbered: kernel writes are full in the thread model; partial ones are `TraceLog`'s.
- FileSystem.Move: the lower file system is given as one sequential tree; permissions and owners, times, sizes of directories, quotas, full disks and NFS silly renames are not modelled.
- Resolve.RebasedPath: dentry_path_raw is the rendered path from the mount root; its failure on paths over a page is excluded by the bound of 4095 bytes in README.md:43-44.
- InodePairs.Inodes.Iget: the hash lookup, the inode operation tables and attribute copying are not modelled.
- MaskText.IsValidHex: bytes outside ASCII count as non-digits, as isxdigit gives in the C locale.
- mknod, setattr, truncate, xattr, mmap, write_iter and read are not logged and have no replay (trfs/inode.c:267-293).
- Scratch pages of fill_record and append_record, whose release differs by kind, and their allocation failures.
- Mount unwinding, unmount, module and device setup, the ioctl's copying of arguments, NFS export, fsync, fasync, llseek and page-cache glue.
