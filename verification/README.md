# Verified models of a teaching operating system

This project models three parts of the repository in Dafny and proves what they are for.

* **The file system and its image builder** (`A.ide`). `mkfs` builds a disk image with a bump allocator
  and its own walk over direct and indirect blocks; the kernel reads and extends that image with a bitmap
  allocator and `bmap`. Both work on one structure (`FsState`): a disk of 512-byte blocks, the inodes, and
  the place of every block given out. Blocks, inodes, words, bitmap bits and directory entries are modelled
  byte for byte (`FsFormat`). On top of it: directories as maps, open files, and below it the buffer cache
  on its intrusive list and the disk driver's request queue.
* **The preemptive kernel and its split serial driver** (`9.serialport`). The handlers are methods of a
  class over arrays, queues and structures laid out in regions; each is proved equal to a function on a
  record of the kernel's state. The processes between traps are program points, one entry into the kernel is
  one atomic step, and the theorems are about every run from boot under every interleaving of traps, timer
  ticks and serial interrupts, and about what goes wrong when a character comes in for a port being opened.
* **The page allocator and the user page tables** (`8.UserProcess`). The free list lives in the bytes of the
  free pages; the tables are built in pages taken from it. Translation is the walk of 32-bit paging in
  section 4.3 of the Intel 64 and IA-32 Architectures Software Developer's Manual, Volume 3A.

`dafny verify dfyconfig.toml` checks everything.

## How the pieces fit

| files | content |
|---|---|
| `FsFormat`, `FsState` | on-disk format; what an image means, who owns each block, what growing, writing and storing do |
| `Mkfs`, `MkfsMain` | `mkfs`: `iappend`, `ialloc`, `balloc`, `main` |
| `ImageBytes` | the image `mkfs` makes, read byte by byte where the format puts things |
| `FsAlloc`, `FsWrite`, `FsKernel`, `FsMeaning` | the kernel's allocator, `bmap`, `readi`, `writei`, `itrunc`, the inode cache, and what they amount to in plain numbers |
| `Dirs`, `FsDir`, `FileTable` | directories as maps, `dirlookup`, `dirlink`, `fileread`, `filewrite` |
| `RoundTrip`, `RootDir`, `DiskFull` | `mkfs` and the kernel together |
| `BufList`, `Recent`, `Ide`, `BufCache` | buffer list, order of use, disk queue, buffer cache |
| `Queue`, `QueueOrder`, `KernelSpec`, `Kernel` | circular queue and when it answers as one; kernel as functions; kernel as a class |
| `SerialDriver` | the serial driver call by call: which bytes go out, in which order, and where a byte that comes in goes |
| `Pids`, `Laws`, `Tokens`, `Protocol`, `Progress`, `Scheduling` | what every step and every run keeps |
| `Calls` | what a process hands over by `PortWrite` and is given by `PortRead` in every run |
| `OpeningWindow`, `OpeningPanics` | characters that come in for a port while it is being opened |
| `PhysMem`, `PageAlloc`, `PageTable` | memory, page allocator, page tables |

## Choices

* The sizes of the preemptive kernel are constants of subset types: `QUEUE_SIZE` (2 or more; 20 in the source),
  `PROC_NUM` (2 to `QUEUE_SIZE` + 1; 20), `SEM_NUM` (4 or more; 20) and `TIME_LIMIT` (1 or more; 10). What is proved
  holds for every choice. There are three ports.
* The constants of the file system are the source's, because they are its on-disk format (`BSIZE` 512, `NDIRECT` 10,
  `FSSIZE` 1000, `NINODES` 200), and so is `NINODE` 50. The number of buffers of the cache model is symbolic; the file
  system asks for fewer than the source's `NBUF` at a time.
* Unsigned 32-bit wrap-around is modelled where it decides a branch: the overflow tests of `readi` and
  `writei`, the page address loop of `freerange`, `dirlink`'s narrowing of an inode number to 16 bits, and a
  negative count given to `fileread`.
* `fs.c` changes a buffer and calls `brelse` without `bwrite`. The file system is therefore modelled over a
  block store in which `brelse` publishes the buffer, and a buffer that is out may not be asked for again;
  every caller is proved to respect that. `bio.c` is modelled on its own, with the rule its comments give:
  change, then `bwrite`, then `brelse`.
* `balloc` returns 0 on a full disk and its callers do not look. What `bmap` and a pass of `writei` then do is
  modelled too; the promise of a whole `writei` is for enough free blocks (`Enough`), and so is that of `mkfs`
  (`Fits`, `Room`).
* A file need have the blocks its size calls for (`Whole`) only when it is itself read or written. `mkfs`
  rounds the size of the root directory up; `Finished` says exactly when that leaves it without its last block.
* The device switch is empty, as in the repository, so reading or writing a device inode fails.
* `write_ok` is set to 1 when a port is opened and never cleared. The comments describe a busy flag; the model
  follows the code.
* The theorems about runs start from any state boot can leave: `main` creates two processes, and the model lets it
  create any number from 1 to `PROC_NUM` - 1.
* `PortAlloc` is three traps and three stores, and in `Protocol` every one is a step of its own: the timer, other
  processes, also ones that open ports, and serial interrupts come in between. One thing is kept out of these runs: a
  character that comes in for a port while `PortAlloc` is at work on it. With one the theorems fail: `OpeningWindow`
  tells the call apart with characters coming in anywhere and proves what they do to the port being opened and to the
  others. All is as without interrupts exactly when none comes in for that port, and then the invariant of `Protocol`
  goes on to hold. From boot both panics of the driver are reached (`OpeningPanics`).
* A scheduler that finds nothing ready stays on process 0, which stands for its panic.

## Model

| member | source | states |
|---|---|---|
| FsFormat.WordOfBytes | A.ide/tools/mkfs.c:58-68 | four bytes laid out low to high read back as the word they came from |
| FsFormat.InOrder | A.ide/tools/mkfs.c:46-68 | words and shorts are their bytes in Intel order, the low one first |
| FsFormat.EntryUpdate | A.ide/tools/mkfs.c:284-289 | storing one entry of an indirect block is read back, and no other entry changes |
| FsFormat.InodeUpdate | A.ide/tools/mkfs.c:178-203 | storing one inode of an inode block is read back field for field, and the other seven inodes of the block are as before |
| FsFormat.BitSet | A.ide/src/fs.c:62-64 | setting a bit of a bitmap block sets that bit and no other |
| FsFormat.BitCleared | A.ide/src/fs.c:87-92 | clearing a bit of a bitmap block clears that bit and no other |
| FsState.FlatOverwrite | A.ide/src/fs.c:473-475 | overwriting part of one data block is overwriting that range of the file's bytes |
| FsState.UnownedChange | A.ide/src/fs.c:49-75 | changing blocks that belong to no file changes no file and no address |
| FsState.DataWritten | A.ide/src/fs.c:472-477 | writing a data block changes that block of that file and nothing of any other file |
| FsState.PartWritten | A.ide/src/fs.c:472-477 | a partial block write overwrites exactly its range of the file's bytes, keeps ownership, and leaves every other file's bytes |
| FsState.GrowthKeeps | A.ide/src/fs.c:347-374 | giving a file its next block, with the indirect block where one is needed, keeps addresses and owned blocks in one-to-one correspondence and shows in no file's bytes |
| FsState.StoredKeeps | A.ide/tools/mkfs.c:178-190 | storing an inode changes no file's bytes and makes the disk agree with the inodes in memory |
| Mkfs.Image.Format | A.ide/tools/mkfs.c:95-112 | the zeroed disk with its superblock is a valid image of no files, first free block just past the reserved ones |
| Mkfs.Image.Rinode | A.ide/tools/mkfs.c:192-203 | reads the inode stored at its place on the disk |
| Mkfs.Image.Winode | A.ide/tools/mkfs.c:178-190 | replaces exactly that inode on the disk |
| Mkfs.Image.IAlloc | A.ide/tools/mkfs.c:218-236 | hands out inode numbers in order; the inode has the type asked for, no device, one link, owner 99, group 1, mode 0x700, size 0 and no addresses; no file changes |
| Mkfs.Image.Balloc | A.ide/tools/mkfs.c:238-252 | the bitmap block has exactly its first `used` bits set; no other sector changes |
| Mkfs.Image.BlockFor | A.ide/tools/mkfs.c:273-290 | the sector used for a block is the block's address, and a missing block is the next unused one; block 10 takes two, the indirect block first |
| Mkfs.Image.ViaIndirect | A.ide/tools/mkfs.c:278-290 | both allocations past the direct blocks, in order, and the entry written back |
| Mkfs.PartKeeps | A.ide/tools/mkfs.c:269-298 | one pass of the loop adds exactly its bytes at the end of the file, keeps the image built, and touches no other file |
| Mkfs.Image.IAppend | A.ide/tools/mkfs.c:256-301 | the file's content is the old content followed by the bytes; every other file is unchanged; the image stays valid |
| Mkfs.Image.AppendAll | A.ide/tools/mkfs.c:256-301 | after any interleaving of calls every file holds its old content followed by its own chunks in order |
| MkfsMain.AppendChunks | A.ide/tools/mkfs.c:146-148 | the read loop appends the concatenation of what the reads return |
| MkfsMain.MakeRoot | A.ide/tools/mkfs.c:114-125 | the root is inode 1 and holds the entries `.` and `..` |
| MkfsMain.AddFile | A.ide/tools/mkfs.c:127-151 | one more name in the root, its inode the next one, its content the file's; earlier files are unchanged |
| MkfsMain.Finish | A.ide/tools/mkfs.c:153-160 | the finished image: bitmap exactly the blocks used, as many as the files call for, root size rounded up, root whole exactly when its entries did not fill their last block, and the root and every file with one link, owner 99, group 1 and mode 0x700 |
| MkfsMain.MakeImage | A.ide/tools/mkfs.c:70-163 | for all files that fit, every file's content, the root's entries, the bitmap, and everything the kernel relies on |
| ImageBytes.SuperInBytes | A.ide/tools/mkfs.c:98-112 | bytes 512 on hold the numbers 1000, 941, 200 and 30 |
| ImageBytes.InodeInBytes | A.ide/include/fs.h:29-48 | inode i is at byte 1024 + 64 * i of the image, its fields at their offsets, low byte first |
| ImageBytes.MapIs | A.ide/tools/mkfs.c:238-252 | bit b % 8 of byte 14336 + b / 8 of the image `mkfs` makes is 1 exactly for the blocks below the first unused one |
| ImageBytes.InodesAre | A.ide/tools/mkfs.c:114-163 | its inode 1 is a directory of the rounded size and inode 2 + j a file as long as file j, all with one link, owner 99, group 1, mode 0x700 and no device |
| ImageBytes.FileInBytes | A.ide/tools/mkfs.c:269-298 | following the addresses in inode and indirect block through the image yields the bytes of the file |
| ImageBytes.StrippedIsBare | A.ide/tools/mkfs.c:128-131 | exactly a leading `.fs/` is dropped from a name |
| ImageBytes.FilesAre | A.ide/tools/mkfs.c:127-151 | so from inode 2 + j of a finished image come the bytes of file j, all of them in order |
| ImageBytes.RootIs | A.ide/tools/mkfs.c:117-145 | and from inode 1 the entries: `.` and `..` with inode 1, then file j with inode 2 + j under its name without a leading `.fs/`, cut or filled up with zeros to 14 bytes |
| FsAlloc.AllocatedKeeps | A.ide/src/fs.c:49-75 | the block taken was free and in no inode nor about to be, is zeroed, is the only one to leave the free set, and no file notices |
| FsAlloc.ExtendedKeeps | A.ide/src/fs.c:347-374 | growth by a block keeps the bitmap equal to reserved plus owned blocks, shows in no file, and uses up exactly the blocks it takes |
| FsAlloc.FreedStep | A.ide/src/fs.c:77-94 | when truncation gets to a block its bit is set, so the early return of `bfree` is not taken, and one more block is free |
| FsAlloc.CutKeeps | A.ide/src/fs.c:381-409 | clearing exactly one file's bits and addresses keeps every rule and every other file |
| FsKernel.FirstClear | A.ide/src/fs.c:61-63 | finds the first clear bit among the first n |
| FsKernel.FileSys.Mount | A.ide/src/fs.c:158-165 | a kernel on a mountable image satisfies the file system invariant |
| FsKernel.FileSys.Readsb | A.ide/src/fs.c:26-34 | the size and inode count in block 1; nothing changes and the buffer is released |
| FsKernel.FileSys.Bzero | A.ide/src/fs.c:37-45 | exactly that block becomes zeros |
| FsKernel.FileSys.Balloc | A.ide/src/fs.c:49-75 | takes and zeroes the lowest free block; returns 0 and changes nothing exactly when there is none |
| FsMeaning.LowestGiven | A.ide/src/fs.c:49-75 | the block given out is the lowest whose bit is clear; exactly that bit is set, that block is zeroed, and no other block but the bitmap changes; 0 and nothing changed when every bit is set |
| FsKernel.FileSys.Bfree | A.ide/src/fs.c:77-94 | clears the bit of a marked block; for an unmarked one the bitmap buffer stays busy |
| FsKernel.GotKeeps | A.ide/src/fs.c:220-249 | one cache entry per inode in use: the one in use gets a reference more, else the first unused one becomes the inode's, neither locked nor read; no other entry is touched, and null exactly when all are in use for other inodes |
| FsKernel.FileSys.Iget | A.ide/src/fs.c:220-249 | the entry already in use for the inode, else the first unused one, else null |
| FsKernel.FileSys.Ilock | A.ide/src/fs.c:262-293 | locks an entry in use and reads its inode from the disk unless it was read before |
| FsKernel.FileSys.Iunlock | A.ide/src/fs.c:296-303 | unlocks a locked entry in use and changes nothing otherwise |
| FsKernel.FileSys.Iupdate | A.ide/src/fs.c:199-215 | the inode on the disk gets type, device numbers, links, mode, size and addresses, and keeps its owner and group; no other inode changes |
| FsKernel.DirectIs | A.ide/src/fs.c:353-357 | below the direct limit `bmap` finds the block's address, or makes the file one block longer with the lowest free block |
| FsKernel.IndirectIs | A.ide/src/fs.c:358-371 | past it, the same through the indirect block, taken first when it is missing |
| FsKernel.DirectOut | A.ide/src/fs.c:353-357 | with no free block the direct branch changes nothing and the address is 0 |
| FsKernel.IndirectOut | A.ide/src/fs.c:358-371 | with too few free blocks the address past the direct limit is 0, or, when block 0 had to serve as the indirect block, the first word in it |
| FsMeaning.OutLeaves | A.ide/src/fs.c:347-374 | when the blocks run out `bmap` leaves the disk and the inode alone and returns 0, except for the first block past the direct ones: a single free block becomes the indirect block, and with none the address is the first word of block 0 |
| FsKernel.RoomExactly | A.ide/src/fs.c:472-477 | after passes that had their blocks, the next pass of `writei` runs out exactly when the free blocks do not suffice for it |
| FsKernel.ShortPass | A.ide/src/fs.c:472-477 | a write with too few free blocks has a first pass that runs out, where `WriteShort` takes it up |
| FsKernel.FileSys.BmapDirect | A.ide/src/fs.c:353-357 | disk, inode and address after the direct branch |
| FsKernel.FileSys.BmapIndirect | A.ide/src/fs.c:358-371 | disk, inode and address after the indirect branch, with the indirect block held across the second allocation |
| FsKernel.FileSys.Bmap | A.ide/src/fs.c:347-374 | returns the address of the block, after the file has grown by it if it was just past the end, and the invariant is kept; all ones past the limit; and what it leaves and returns when there is no block to give |
| FsWrite.PartRead | A.ide/src/fs.c:445-448 | the bytes copied from one block are that range of the file's bytes |
| FsKernel.FileSys.Readi | A.ide/src/fs.c:426-451 | returns exactly the slice of the content at the offset, clipped to the size, or -1; allocates nothing and changes nothing |
| FsKernel.FileSys.WritePart | A.ide/src/fs.c:472-477 | one pass: the part is in its block and the invariant kept; out of blocks, the part overwrites block 0 instead |
| FsKernel.FileSys.Passes | A.ide/src/fs.c:472-477 | the passes up to any that there are blocks for splice in their bytes and keep every rule |
| FsWrite.PutKeeps | A.ide/src/fs.c:472-477 | one pass of the loop of `writei` splices its bytes in, growing the file if need be, and keeps every rule |
| FsKernel.FileSys.Writei | A.ide/src/fs.c:455-484 | all of the bytes are written at the offset or nothing changes and -1; size, block count and number of free blocks afterwards; every other inode unchanged |
| FsKernel.FileSys.WriteShort | A.ide/src/fs.c:455-477 | a write with too few free blocks, up to the end of the first pass that runs out: the bytes before are in the file, and that pass's bytes lie over block 0 |
| FsWrite.WroteContent | A.ide/src/fs.c:455-484 | after a write the content is the old one with the bytes spliced in, and every other file's content is as before |
| FsMeaning.RequestsTaken | A.ide/src/fs.c:435-466 | `readi` takes a request exactly when the inode is no device, the offset is not past the end and the end of the request is below 2^32; `writei` exactly when, besides, it ends within 138 blocks |
| FsKernel.FileSys.FreeDirect | A.ide/src/fs.c:388-393 | exactly the direct blocks are freed and their addresses cleared |
| FsKernel.FileSys.FreeIndirect | A.ide/src/fs.c:395-405 | exactly the blocks in the indirect block, then the indirect block itself, are freed |
| FsKernel.FileSys.Itrunc | A.ide/src/fs.c:381-409 | the file is empty, exactly its blocks are free again, every other file is unchanged, the invariant is kept |
| FsMeaning.NothingLeft | A.ide/src/fs.c:312-409 | a file that was cut is empty with size and addresses 0 and the rest of its inode kept, every other file is as it was, and exactly its blocks are free besides |
| FsKernel.FileSys.Iput | A.ide/src/fs.c:312-327 | drops a reference; the last one to a read inode without links frees inode and blocks, unless it is locked |
| Dirs.SameIsKey | A.ide/src/fs.c:489-493 | an entry compares equal to a name exactly when its name, up to the first 0 byte, is the name's first 14 bytes |
| Dirs.FieldOfName | A.ide/src/fs.c:545 | a name as `strncpy` stores it reads back as its first 14 bytes |
| Dirs.SearchFinds | A.ide/src/fs.c:506-518 | an entry in use with the name is found, and with unique names it is the one found |
| Dirs.VacantFirst | A.ide/src/fs.c:537-543 | every entry before the place `dirlink` chooses is in use |
| Dirs.EntryLinked | A.ide/src/fs.c:523-551 | writing an absent name into an unused entry adds that name with its inode, changes the lookup of no other name, and keeps names unique |
| Dirs.LinkedUnique | A.ide/src/fs.c:523-551 | names stay unique exactly when the name was absent or the inode number is 0 |
| FsDir.ReadEntry | A.ide/src/fs.c:507-508 | the entry at the offset, refused exactly when it is not there in full |
| FsDir.Dirlookup | A.ide/src/fs.c:497-521 | fetches the inode of the first entry in use with that name and reports its offset; null when there is none, the inode is no directory, or the inode cache is full |
| FsDir.GotAndPut | A.ide/src/fs.c:532-535 | fetching and dropping the entry found changes no inode in use and frees nothing |
| FsDir.FindVacant | A.ide/src/fs.c:537-543 | the first unused entry, else the end, refused exactly when the last entry is cut short |
| FsDir.Dirlink | A.ide/src/fs.c:523-551 | -1 and nothing changed if the name is seen or there is no place; otherwise exactly that entry is written, and a directory that was a map is that map with the name added, provided the name was absent; in an inode that is no directory no name is seen |
| FileTable.Files.FileRead | A.ide/src/file.c:80-96 | the clipped slice at the file's offset, which moves past it, the count taken as the unsigned 32-bit number equal to it modulo 2^32; -1 without moving if not open for reading, without an inode, or out of range |
| FileTable.Files.WriteChunk | A.ide/src/file.c:117-131 | one locked chunk: written in full with the offset moved, or nothing changed |
| FileTable.ChunkLimit | A.ide/src/file.c:114-131 | when not everything fits, the chunks that do are exactly the full ones |
| FileTable.WroteTwice | A.ide/src/file.c:116-131 | two writes in a row are one write of both |
| FileTable.Files.WriteChunks | A.ide/src/file.c:116-131 | the loop writes all that fits, or the full chunks before the size limit |
| FileTable.Files.FileWrite | A.ide/src/file.c:100-135 | the effect of one write of everything that fits; n if that was all, else -1 with exactly the full chunks before the limit written and the offset after them; refused without effect if not open for writing or without an inode |
| RoundTrip.PointersDistinct | A.ide/tools/mkfs.c:273-290 | no two slots of any two files hold the same block, and every address lies in the data area |
| RoundTrip.LayoutAgrees | A.ide/include/fs.h:42-52 | inode blocks, bitmap and data area follow each other without overlap, and `mkfs` writes the bitmap where the kernel looks for it |
| RoundTrip.FirstFree | A.ide/src/fs.c:59-69 | on a finished image the kernel's first allocation is the first block `mkfs` did not use |
| RoundTrip.OpenFresh | A.ide/src/fs.c:262-293 | a kernel mounted on the image, with the inode fetched, read and locked |
| RoundTrip.OpenAndClose | A.ide/src/fs.c:262-327 | on a finished image the kernel fetches, locks, unlocks and drops the root or any file and leaves the image as `mkfs` made it: each has a link |
| RoundTrip.ReadFresh | A.ide/src/fs.c:426-451 | a freshly mounted kernel reads any whole file as its content, clipped, and leaves the image as it was |
| RoundTrip.FilesReadBack | A.ide/tools/mkfs.c:127-151 | every file given to `mkfs` reads back through the kernel, at every offset and length, and the disk afterwards is the image as made |
| RoundTrip.AppendsReadBack | A.ide/tools/mkfs.c:256-301 | so does every file after any interleaving of `iappend` calls, and reading allocates nothing: the disk is the image |
| RootDir.RootIsMap | A.ide/tools/mkfs.c:117-145 | the entries `mkfs` writes make exactly the map from names to inodes 1, 2, 3, ... |
| RootDir.RootSays | A.ide/tools/mkfs.c:117-145 | in a finished image whose root is whole the root's bytes say of each name its file's inode and nothing of other names |
| RootDir.FilesFound | A.ide/src/fs.c:497-521 | a kernel mounted on such an image finds each file's inode with `dirlookup`, null for other names, and leaves the image alone |
| RootDir.ThirtyFilesSpill | A.ide/tools/mkfs.c:153-157 | with thirty files the root of the image `mkfs` makes lacks a block its rounded size calls for |
| DiskFull.FillsDisk | A.ide/tools/mkfs.c:127-160 | an image of seven files that leaves no block free |
| DiskFull.FullDisk | A.ide/src/fs.c:472-477 | on that image one byte written at the end of the last file becomes the first byte of block 0, and no other byte of the disk has changed |
| BufList.Unlink | A.ide/src/bio.c:118-119 | the two stores take a buffer out of its circle and leave the rest one circle |
| BufList.LinkFront | A.ide/src/bio.c:47-51 | the four stores put a buffer right behind the head of a circle |
| Recent.RecencyIs | A.ide/src/bio.c:112-123 | moving each used element to the front orders elements by last use |
| Ide.DoneAllMore | A.ide/src/ide.c:149-157 | a request added at the end of the line takes effect after all the others |
| Ide.Driver.IdeStart | A.ide/src/ide.c:74-103 | the drive's request becomes the buffer's; a buffer past the end of the disk is ignored |
| Ide.Driver.IrqHandler | A.ide/src/ide.c:106-130 | the first buffer in line is up to date with the disk after its request, the rest keep their places and requests; with nothing in line nothing changes, and with nothing at the drive the first buffer passes for up to date |
| Ide.Driver.Enqueue | A.ide/src/ide.c:149-157 | the buffer joins the end of the line and is started exactly if it is alone and for a block of the disk |
| Ide.Driver.WaitFor | A.ide/src/ide.c:159-161 | the wait ends, with every request in line carried out in order |
| Ide.Driver.Served | A.ide/src/ide.c:149-161 | a wanted buffer and the disk agree after all earlier requests and this one |
| Ide.Driver.Iderw | A.ide/src/ide.c:136-163 | after all earlier requests and this one the buffer is what the disk has at drive `dev` mod 2 and its block; a dirty buffer keeps its content, a clean one alone in line leaves the disk as it was; a clean valid, idle or absent-drive buffer is left alone |
| Ide.Driver.DriveOn | A.ide/src/ide.c:106-130 | whatever is in line, the drive serves exactly the buffers before the first one for a block past the end, and leaves the others as they are |
| Ide.Driver.Later | A.ide/src/ide.c:78-80 | with a buffer for a block past the end first in line, whoever joins and whenever the drive has its turn, nothing is started and every wait goes on |
| BufCache.Cache.Binit | A.ide/src/bio.c:36-53 | all buffers in one circle with the head, none for any block |
| BufCache.Cache.FindHit | A.ide/src/bio.c:63-70 | the first idle buffer of the block from the front |
| BufCache.Cache.FindVictim | A.ide/src/bio.c:75-82 | the first idle clean buffer from the back |
| BufCache.Cache.Bget | A.ide/src/bio.c:58-84 | the buffer taken is, of the idle ones for the block, the one released last, and without any, of the idle clean ones, the one released longest ago, which now is for the block; every buffer's flags afterwards; the head exactly when there is none |
| BufCache.ChosenIsRight | A.ide/src/bio.c:63-83 | the choice over the list is that buffer, by last use in the log of releases, and every buffer's flags afterwards |
| BufCache.Cache.VictimOldest | A.ide/src/bio.c:72-82 | when no idle buffer is for the block, the buffer chosen was released no later than any idle clean one |
| BufCache.GotKeeps | A.ide/src/bio.c:58-97 | the choice keeps one buffer per block and idle buffers in step with the disk |
| BufCache.FoundExactly | A.ide/src/bio.c:75-83 | `bget` comes to a buffer, not the head of the list, exactly while one is idle |
| BufCache.RecyclesExactly | A.ide/src/bio.c:63-82 | the buffer taken leaves one buffer per block exactly when nobody holds the block |
| BufCache.OneIdle | A.ide/src/bio.c:75-83 | with fewer blocks held than buffers there is one for the next block |
| BufCache.Cache.Bread | A.ide/src/bio.c:87-97 | a busy valid buffer whose content is the block's, chosen as `Bget` chooses, the disk and every other buffer unchanged |
| BufCache.Cache.Bwrite | A.ide/src/bio.c:101-108 | exactly the buffer's block gets its content; the cache stays in step |
| BufCache.Cache.Brelse | A.ide/src/bio.c:112-127 | the buffer becomes idle and the most recently released; the circle and the order of the others are kept |
| BufCache.Cache.Perform | A.ide/src/bio.c:87-127 | one fetch, change, store or release, with any other blocks in hand, does to the disk and to the blocks in hand what it would without a cache; one buffer per block and the list in recency order before and after; a fetch takes the buffer released last that is for the block, else recycles the one released longest ago |
| BufCache.Cache.Run | A.ide/src/bio.c:87-127 | in any run of such calls, buffers overlapping as they may, every fetch sees what the stores before it left, and the disk and the blocks in hand end as they would without a cache |
| BufCache.Cache.FirstRun | A.ide/src/bio.c:36-127 | the same from the making of the cache on |
| Queue.RingQueue.In | 9.serialport/src/queue.c:39-65 | whatever the structure holds, the stores of `queue_in`; on a queue, appends to the contents, or refuses and changes nothing when full |
| Queue.RingQueue.Out | 9.serialport/src/queue.c:72-100 | whatever the structure holds, the stores of `queue_out`; on a queue, removes and returns the first, or refuses and changes nothing when empty |
| Queue.PutHolds | 9.serialport/src/queue.c:39-65 | the stores of `queue_in` make a ring that holds q one that holds q with the item at its end |
| Queue.TakeHolds | 9.serialport/src/queue.c:72-100 | the stores of `queue_out` take q's first, and what lies at the head is that item |
| QueueOrder.HoldsInOrder | 9.serialport/src/queue.c:39-100 | a ring that holds q answers every sequence of insertions and removals as a bounded first-in first-out queue holding q |
| QueueOrder.CutInOrder | 9.serialport/src/syscall.c:132 | with its size set to 0 a queue answers as an empty one exactly when it was empty or full |
| QueueOrder.LagStays | 9.serialport/src/syscall.c:132 | otherwise every item comes out late by as many as were left over, behind those, from then on |
| QueueOrder.CutDelays | 9.serialport/src/syscall.c:132 | in any run after the cut it takes and refuses as an empty queue does, and as long as there is room gives out first what was left over: every item comes out late by as many |
| Kernel.Kernel.NewProcHandler | 9.serialport/src/handlers.c:65-95 | first free identifier becomes READY with a fresh slice at the end of the ready queue; nothing when none is free |
| Kernel.Kernel.TimerHandler | 9.serialport/src/handlers.c:110-120 | time and the slice advance by one; at the limit the process goes to the end of the ready queue and the CPU is free |
| Kernel.Kernel.SemAllocHandler | 9.serialport/src/handlers.c:134-151 | first unowned semaphore starts with its passes and no waiters; with none left the argument comes back |
| Kernel.Kernel.SemWaitHandler | 9.serialport/src/handlers.c:167-176 | a pass is taken, or the caller waits last in line and the CPU is free |
| Kernel.Kernel.SemPostHandler | 9.serialport/src/handlers.c:188-199 | the first waiter becomes ready, or a pass is banked |
| Kernel.Kernel.PortWriteOne | 9.serialport/src/handlers.c:226-248 | an echo byte goes out before any character; a character sent posts the transmit semaphore; nothing to send marks the port idle (`SerialDriver.WriteOneSends` says it without the functions) |
| Kernel.Kernel.PortReadOne | 9.serialport/src/handlers.c:266-288 | seven bits join the receive queue and the echo, with a line feed after a line end, and the receive semaphore is posted; dropped when the queue is full |
| Kernel.Kernel.PortHandler | 9.serialport/src/handlers.c:304-314 | each owned port in order: a byte received, a byte sent, and one more sent if the port is marked idle |
| Kernel.Kernel.PortAllocHandler | 9.serialport/src/handlers.c:339-374 | first unowned port is zeroed, owned and marked idle, its number returned; nothing when all are owned |
| Kernel.Kernel.PortWriteHandler | 9.serialport/src/handlers.c:390-401 | the character is queued and the transmitter served; lost when the queue is full |
| Kernel.Kernel.PortReadHandler | 9.serialport/src/handlers.c:414-422 | the oldest character is delivered and leaves the queue; nothing when there is none |
| SerialDriver.WriteOneSends | 9.serialport/src/handlers.c:226-248 | one byte at most goes to the data register, the first of the echo or else of the transmit queue: in 0 to 255 and equal to the character modulo 256; only for a character is a pass given, on the transmit semaphore |
| SerialDriver.ReadOneTakes | 9.serialport/src/handlers.c:266-288 | a byte that finds room is queued without its top bit, and for the echo with a line feed after a CR or LF as far as there is room, and one pass goes to the reader; one that finds none is lost and changes nothing |
| SerialDriver.ServiceSends | 9.serialport/src/handlers.c:304-314 | an interrupt for an owned port marked idle sends the next waiting byte, and the one after it too when the transmitter is ready, in order, echo first |
| SerialDriver.HandlerServes | 9.serialport/src/handlers.c:304-314 | ports 0, 1 and 2 are served once each in that order, those nobody owns not at all |
| SerialDriver.WriteTrapTakes | 9.serialport/src/handlers.c:390-401 | a character handed over joins the end of the transmit queue and a port marked idle sends what is first; a full queue changes nothing |
| SerialDriver.ReadTrapGives | 9.serialport/src/handlers.c:414-422 | the first character received is delivered and leaves the queue; an empty queue changes nothing |
| Kernel.Kernel.Scheduler | 9.serialport/src/main.c:76-86 | an idle CPU gets the front of the ready queue with a fresh slice; a busy one keeps its process |
| Kernel.Kernel.Enter | 9.serialport/src/main.c:167-209 | one kernel entry: the handler of the trap, then the scheduler, and what the caller finds in EAX or its buffer |
| Kernel.Kernel.PortAlloc | 9.serialport/src/syscall.c:118-135 | undisturbed, the first free port with a semaphore of `QUEUE_SIZE` passes and one of none, its receive queue empty |
| Kernel.Kernel.CutReadQ | 9.serialport/src/syscall.c:132 | the store leaves head, tail and items of the receive queue; the kernel is as before where the queue was empty |
| Kernel.Kernel.Boot | 9.serialport/src/main.c:94-151 | process 1 runs, process 2 is ready, the other identifiers are free |
| KernelSpec.PortAllocReplies | 9.serialport/src/syscall.c:118-135 | the three traps return valid numbers, and the receive queue is empty before it is emptied |
| Pids.OnlyPlace | 9.serialport/src/main.c:76-86 | an identifier found in one place is in no other |
| Pids.SemPostKeeps | 9.serialport/src/handlers.c:188-199 | a post keeps every identifier in exactly one place with the matching state |
| Pids.SchedulerKeeps | 9.serialport/src/main.c:76-86 | so does the scheduler |
| Laws.PostKeeps | 9.serialport/src/handlers.c:188-199 | a post keeps the semaphore law and everything else that holds between operations |
| Laws.EchoIs | 9.serialport/src/handlers.c:266-288 | what a character adds to the echo: itself, and a line feed after a CR or LF, cut to the room there is |
| Laws.WriteOneKeeps | 9.serialport/src/handlers.c:226-248 | so does serving the transmitter, stream integrity included |
| Laws.ReadOneKeeps | 9.serialport/src/handlers.c:266-288 | so does receiving a byte, also when it is dropped |
| Laws.EnterKeeps | 9.serialport/src/main.c:167-209 | so does every kernel entry |
| Laws.CreatedReady | 9.serialport/src/main.c:144-145 | n creations make processes 1 to n ready in order and leave the rest free |
| Laws.BootEstablishes | 9.serialport/src/main.c:94-151 | however many processes are created, it all holds after boot, with process 1 chosen and the others ready in order |
| Tokens.HandlerCarries | 9.serialport/src/handlers.c:304-314 | a serial interrupt with no character for a port being opened changes the token sums of no port in use and leaves the ports being opened and their semaphores alone |
| Protocol.OpenPortStep | 9.serialport/src/syscall.c:118-126 | making a port live keeps the invariant of the whole system |
| Protocol.OpenSemStep | 9.serialport/src/syscall.c:129-131 | so does getting a semaphore for it, which serves no port and is held by no other process |
| Protocol.StoreReadStep | 9.serialport/src/syscall.c:131 | so does the store of read_sid, from which on the port is in use with its sums right |
| Protocol.CutStep | 9.serialport/src/syscall.c:132 | the last store of `PortAlloc` finds nothing queued and changes nothing |
| Protocol.StepKeeps | 9.serialport/src/syscall.c:118-204 | every step of every process or device keeps the invariant of the whole system, the traps and stores of `PortAlloc` among them; no character comes in for a port while it is being opened. What `PortWrite` and `PortRead` hand over and read is `Calls.TextHandedOver` and `Calls.LineTaken` |
| Protocol.RunKeeps | 9.serialport/src/syscall.c:118-204 | so does every run of such steps |
| Protocol.TransmitTokens | 9.serialport/src/syscall.c:153-166 | in every state such a run reaches from boot with 1 to `PROC_NUM` - 1 processes, the passes, queued characters and processes between wait and trap of a port in use add up to the queue size |
| Protocol.ReceiveTokens | 9.serialport/src/syscall.c:186-204 | in every such state its passes and processes between wait and trap add up to the characters queued |
| Protocol.DriverNeverPanics | 9.serialport/src/handlers.c:390-422 | in such a run no trap finds a full transmit queue or an empty receive queue, with any number of writers and readers boot can create; `OpeningPanics` reaches both in others |
| Protocol.PidsConserved | 9.serialport/src/handlers.c:65-199 | in every such state each process is in exactly one place with the matching state, and every queue it is not in has room for it |
| Protocol.LawsThroughout | 9.serialport/src/handlers.c:134-288 | in every such state the semaphore law and the integrity of every port's streams: each byte on the wire is in 0 to 255 and equals its character modulo 256, the characters accepted and the echo of those received each in order, the echo as much as there was room for |
| Calls.TextHandedOver | 9.serialport/src/syscall.c:153-166 | in every run from boot: what the kernel accepted at the write traps of a process since it began `PortWrite`, followed by what is left of its text, is the text; once the call is over exactly the text was handed over, in order |
| Calls.LineTaken | 9.serialport/src/syscall.c:186-204 | in every run from boot: what the kernel delivered at the read traps of a process since it began `PortRead` is its line so far, with no CR and short of 100 characters; once the call is over it ends at the first CR or else at 100 characters |
| Scheduling.BoundedDispatch | 9.serialport/src/handlers.c:110-120 | from boot with any number of processes, the process at index j of the ready queue has run after (j + 1) * TIME_LIMIT ticks, whatever else happened |
| Scheduling.FullSlice | 9.serialport/src/handlers.c:110-120 | in every run from boot a process that does not block keeps the CPU until the ticks since it got it are `TIME_LIMIT` |
| Scheduling.SliceEnds | 9.serialport/src/handlers.c:110-120 | the tick that uses up the slice puts the process last in line, and the first in line runs with a fresh slice |
| Scheduling.ClockRuns | 9.serialport/src/handlers.c:110-120 | in every run from boot the clock shows the number of ticks |
| Scheduling.PanicExactly | 9.serialport/src/main.c:76-86 | the scheduler finds nothing exactly when the running process blocks with nothing ready |
| Scheduling.SchedulerNeverPanics | 9.serialport/src/main.c:76-86 | it never does in a run in which process 1 never waits |
| OpeningWindow.WindowHarm | 9.serialport/src/syscall.c:118-135 | with interrupts anywhere in the call: a port that uses semaphore 0 ends with a pass too many for every character kept before read_sid was stored, so does the new port if semaphore 0 is its own but for those kept before it was allocated, its receive semaphore has one for every character kept after, other ports keep their sums, and the semaphores are the new port's own |
| OpeningWindow.WindowKept | 9.serialport/src/handlers.c:266-288 | how many that is: as many as come in for the port, up to a full queue |
| OpeningWindow.WindowExactly | 9.serialport/src/syscall.c:118-135 | the new port's queue answers in order exactly when no character comes in for it in the window, or a full queue of them; kernel invariant, roles of the semaphores, queue and token sums are all as without interrupts exactly when none does |
| OpeningWindow.SilentWindow | 9.serialport/src/syscall.c:118-135 | with none coming in, the invariant of `Protocol` holds when the call returns, and its theorems go on from there |
| OpeningPanics.EmptyQueueReached | 9.serialport/src/handlers.c:414-418 | a character that comes in after read_sid was stored, and finds room, lets a reader past its wait to an empty queue |
| OpeningPanics.EmptyFromBoot | 9.serialport/src/handlers.c:414-418 | from boot: process 1 opens port 0 with one byte coming in after read_sid was stored, gets past its wait and finds the queue empty |
| OpeningPanics.RoundsFill | 9.serialport/src/handlers.c:226-288 | with a pass too many, returns typed and characters sent in turn fill the transmit queue |
| OpeningPanics.FullQueueReached | 9.serialport/src/handlers.c:390-394 | from boot: process 1 opens port 0, then port 1 with one byte in the window, and `QUEUE_SIZE` such turns later gets past its wait with the transmit queue full |
| PhysMem.Memset | 8.UserProcess/src/kalloc.c:100 | exactly the range holds the byte |
| PhysMem.WordStored | 8.UserProcess/src/kalloc.c:103-104 | a stored word is read back and words elsewhere are as before |
| PageAlloc.BooksKept | 8.UserProcess/src/kalloc.c:90-133 | a write inside a page that is not free disturbs neither the list nor any other page |
| PageAlloc.FreedBytes | 8.UserProcess/src/kalloc.c:99-105 | the freed page holds the old head of the list in its first word, low byte first, and 1s after it; every other byte of memory is as before |
| PageAlloc.FreedKeeps | 8.UserProcess/src/kalloc.c:99-105 | a freed page comes first on a list without repeats whose pages hold 1s past their first words, and no given page changes |
| PageAlloc.FreedExactly | 8.UserProcess/src/kalloc.c:99-105 | after `kfree` some list of pages ends exactly when the page was not free already |
| PageAlloc.AllocKeeps | 8.UserProcess/src/kalloc.c:120-126 | the first free page is given out holding 5s, and no other given page changes |
| PageAlloc.Kmem.Kfree | 8.UserProcess/src/kalloc.c:90-106 | refuses a misaligned or high address; else the page holds the old head of the list and 1s, is the new head, and no other byte changes; it joins the list, loses it exactly for page 0, and leaves a list without an end exactly for a page that was free |
| PageAlloc.Kmem.Kalloc | 8.UserProcess/src/kalloc.c:117-133 | the first free page filled with 5s, or the null pointer exactly when none is free |
| PageAlloc.Kmem.Freerange | 8.UserProcess/src/kalloc.c:70-76 | adds exactly the whole aligned pages of the range that lie below the end, the highest first, before the old list; every free page holds 1s past its first word |
| PageAlloc.WrapsPast | 8.UserProcess/src/kalloc.c:70-76 | outside the bounds on the range the loop never ends or reaches page 0 |
| PageAlloc.Kmem.Run | 8.UserProcess/src/kalloc.c:90-133 | any allowed run of allocations, frees and owners' writes does on memory what it does to a map of pages, and every free page holds 1s past its first word |
| PageAlloc.RunConserves | 8.UserProcess/src/kalloc.c:90-133 | over any run free and given pages are the same pool, none twice |
| PageAlloc.RunLeavesAlone | 8.UserProcess/src/kalloc.c:90-133 | a page its owner keeps holds what it held |
| PageTable.Kpagemake | 8.UserProcess/src/page.c:56-63 | a page with no entries, no other frame changed; with no page left, 0, and the bytes at address 0 zeroed |
| PageTable.MakeDirectory | 8.UserProcess/src/page.c:94-108 | the kernel's first five entries and no others |
| PageTable.MapPage | 8.UserProcess/src/page.c:119-125 | a new table with one new zeroed page, linked at one slot of the directory; no other frame changes |
| PageTable.CopyCode | 8.UserProcess/src/page.c:146-149 | the code page holds the program followed by zeros |
| PageTable.WalkIs | 8.UserProcess/src/page.c:89-153 | for every 32-bit address the walk of the new directory is the kernel's below 0x01400000, the stack page, the code page, or unmapped |
| PageTable.TablesInMemory | 8.UserProcess/src/page.c:89-153 | the three tables byte for byte: the first five directory entries are the kernel's, entries 511 and 512 the two tables, entry 1023 of one the stack page and entry 0 of the other the code page, each address plus 7, all others 0 |
| PageTable.SetupPagetable | 8.UserProcess/src/page.c:89-153 | builds that address space from the first five free pages and nothing else |
| PageTable.SpaceSurvives | 8.UserProcess/src/page.c:89-153 | changes to other pages leave an address space as it is |
| PageTable.TwoProcesses | 8.UserProcess/src/page.c:89-153 | two calls use ten different pages, each process has the address space it would have alone, and both stack pages are zero and both code pages hold their programs |

## Left out

- Port I/O, UART, interrupt controller, video, descriptor table and TSS programming and inline assembly: the UART is its input bytes and output bytes, the disk a map from drive and block to content that never fails.
- Console output, including the debug print in `kalloc` that reads through the next free page.
- Durability and crash recovery: the log layer is absent from the repository and `fs.c` never calls `bwrite`.
- `ialloc` of `fs.c`, `stati`, `idup`, `filealloc`, `filedup`, `fileclose`, `filestat`: one-step table updates over what is modelled.
- `skipelem`, `namex`, `namei`: their locking is commented out, so inode types may be unread and references are kept.
- `A.ide/src/main.c`: it reads blocks without releasing them.
- Several devices: the inode cache is for one device, and the buffer cache for the two drives the driver can address.
- The spin wait of `idewait`: the drive is ready when asked.
- FsKernel.FileSys.Writei: asks for enough free blocks. Without them `WriteShort` says what happens up to the first pass that runs out; what the passes after it do to the ruined disk is not modelled.
- FsKernel.FileSys.WriteShort: where that pass is for the first block past the direct ones and no block is left, asks that block 0, taken for the indirect block, not name another.
- FsKernel.FileSys.WritePart: asks the same of a pass that runs out there.
- FsMeaning.LowestGiven: asks that the reserved blocks be marked, as they are on every image the kernel mounts.
- FileTable.Files.WriteChunk: asks for enough free blocks.
- FileTable.Files.WriteChunks: asks for enough free blocks.
- FileTable.Files.FileWrite: asks for enough free blocks.
- FsKernel.FileSys.Bmap: grows a file only at its end; reading a hole would allocate one, and files the modelled operations make have none.
- FsKernel.FileSys.Readi: asks that the file have the blocks its size calls for, which the root directory of an image may not (see `Finished`).
- FsDir.ReadEntry: asks the same of the directory.
- FsDir.Dirlookup: asks the same of the directory.
- FsDir.FindVacant: asks the same of the directory.
- FsDir.Dirlink: asks the same of the directory, and for enough free blocks.
- FileTable.Files.FileRead: asks the same of the file, and that its inode not be locked.
- Ide.Driver.Iderw: asks for a block below `FSSIZE`, and for such blocks in line before it, because the wait for any other never ends (`Later`).
- Ide.Driver.Served: asks the same.
- BufCache.Cache.Bread: asks that the block not be held already and that an idle buffer exist; the choice keeps the cache's rules exactly then (`RecyclesExactly`, `FoundExactly`).
- BufCache.Cache.Brelse: asks that a busy buffer's content be its block's, the rule the comments of `bio.c` give.
- Mkfs.Image.IAlloc: asks for an inode number below `NINODES`; the code would write past the inode blocks.
- Mkfs.Image.BlockFor: asks for a block left on the disk, which the code does not check.
- Mkfs.Image.ViaIndirect: asks for the blocks it takes.
- Mkfs.Image.IAppend: asks for room on the disk.
- Mkfs.Image.AppendAll: asks for room on the disk.
- MkfsMain.AppendChunks: asks for room on the disk.
- MkfsMain.AddFile: asks for room on the disk and a free inode.
- MkfsMain.MakeImage: asks for files that fit (`Fits`).
- FsKernel.FileSys.Ilock: asks for an unlocked entry; on a locked one the code spins.
- OpeningWindow.WindowExactly: when characters come in for the port being opened, other processes take no steps inside the call and open no ports; when none do, `Protocol` has them take any.
- Kernel.Kernel.PortAlloc: asks for a free port and two free semaphores; the code would go on with what EAX held.
- KernelSpec.PortAllocReplies: asks the same.
- Kernel.Kernel.NewProcHandler: leaves out the trapframe and the stack of the new process.
- PageAlloc.Kmem.Freerange: asks for a range that starts above 0, does not wrap (`WrapsPast` says what happens then) and has no free page in it.
- PageTable.SetupPagetable: asks for five free pages, a program of at most a page, and kernel tables outside the pool; the code checks none of these.
- PageTable.MakeDirectory: asks for a free page.
- PageTable.MapPage: asks for two free pages.
- PageTable.CopyCode: asks for a program of at most a page.
- PageTable.TwoProcesses: asks for ten free pages and programs of at most a page.
- 4 MB pages and the accessed, dirty and cache bits of paging entries.
- Overflow of the kernel's counters (time, passes) beyond 32 bits.
- Whether every received byte is echoed: a full echo queue drops bytes silently, which the stream law reflects.
- Processes that use a port's semaphores other than through `PortWrite` and `PortRead`, or wait on semaphores nobody allocated.
- Page-fault handlers of `5.PageFault` and `6.MemPolicy`, and the keyboard, video, timer, calling-convention and polling examples.
