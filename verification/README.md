# Models of reims-ctl, its firmware and its trace analysis

This Dafny project models the parts of the repository that carry the most state and arithmetic, and proves
properties of them that hold for every input, every run or every interleaving. Each module follows one
component:

- `Images`, `Fat`, `Directory` and `OpenCore`: the OpenCore image reader, which finds a file in a FAT32 volume of
  a GPT disk kept raw or as qcow2. The readers' loops refine a flat disk. `ImageWriter`, `FatWriter`,
  `DiskWriter` and `PathDisk` are their partners, writers of qcow2 images, of volumes and of whole disks: a file
  put in is read back through all of it.
- `ViewFrames` and `ViewProgress`: the terminal viewer's threads around `busy` and the layout count, as a
  machine of atomic steps.
- `Keys`, `ViewInput`, `ViewHeld` and `ViewGuest`: the viewer's input, from the terminal's reports through the
  queue that paces it to QEMU's queue of 16 slots, and to the buttons and keys down in the guest.
- `Blit` and `Gop`: the firmware's rectangle copies, in 32-bit arithmetic on arrays, and the modes and the
  frame buffer around them (section 12.9 of the UEFI specification).
- `Zip`: the archive of the logs, with a reader by sections 4.3.6 to 4.3.16 of PKWARE's APPNOTE.TXT.
- `Doorbells`, `MannWhitney` and `PermutationTest`: the trace report's matching of doorbells to interrupts under
  its two rules, its merged stalls, and its exact permutation test.
- `FormWorks`, `FormFields` and `LineEditor`: the interface's forms: the works they start, the fields they show
  and the text edited in them.
- `LogCounter`, `Base64`, `Hidpi` and `Shell`: a count carried on over a growing log, a decoder whose
  accumulator is never masked, a density computed in floating point, and a command printed as a script.

`Bytes`, `Options` and `Arithmetic` hold what several of them need.

Where the code changes things step by step the model is a method over a class, an array or local variables,
proved against a function, and the properties are proved of the function. Threads are machines whose runs are
any interleaving of steps.

Some properties the code was looked at for hold only under a condition, and the project says which:

- `ReimsVgpuMoveRect` moves a rectangle rightly for every content exactly when the rectangle is empty or
  neither destination coordinate exceeds its source's (`Blit.MoveIsRightIff`).
- The frame buffer covers every mode exactly when each mode's bytes are at most 2^32 less a page
  (`Gop.AllocationCoversIff`).
- Two frames can be on their way once the terminal has been resized (`ViewProgress.TwoInFlightAfterResize`);
  in runs without a resize handled there is one at most.
- Until the viewer ends QEMU drops nothing typed exactly when every batch reaches it within 20 ms
  (`ViewInput.GuestQueueHolds`). Ending, the viewer sends its releases whatever the estimate: they fit exactly
  when their slots do on top of what is queued (`ViewInput.FlushFitsIff`), and where they do not a key can stay
  down in the guest (`ViewGuest.FlushFreesIff`, `ViewGuest.SomethingStaysDown`).
- A form whose work failed waits for the user exactly as long as no log, shown without `less`, takes its place
  (`FormWorks.FailedFormStays`, `FormWorks.MissingLessLosesForm`).
- An archive of less than 4 GiB reads back exactly when its entries are fewer than 65536, with names under
  64 KiB and data under 4 GiB (`Zip.ReadsBackIff`).
- The printed script and the command agree exactly when the shell takes the VM's own variables: they have a
  shell's names, and none is one a shell keeps for itself with another value (`Shell.VmScriptIsCommandIff`,
  `Shell.KeptNamesDiffer`); the names are not checked when they are set.
- A count carried on over a log stays a full scan's exactly as long as no fresh log takes the inode of the log
  counted last (`LogCounter.FreshCountsRightIff`), which a file system may reuse once that log is removed.

The documentation comment of `ReimsVgpuMoveRect` (`firmware/src/GraphicsOutput.c:151-154`) promises an order
that is safe for overlapping rectangles either way. The code starts a move toward the end one size past the
source and one size past that, which leaves the destination out; the model follows the code.

## Model

| member | source | states |
|---|---|---|
| Images.ClusterBytes | crates/reims-ctl/src/opencore.rs:295-312 | The bytes of one cluster a read takes are all zeros, all the mapped cluster's bytes in the file, or one of them cannot be had, as its L1 and L2 entries say of the whole cluster |
| Images.ReadQcow2 | crates/reims-ctl/src/opencore.rs:314-329 | A read, however it crosses clusters, succeeds exactly when every byte can be had, and then gives each byte of the flat disk |
| Images.ReadDisk | crates/reims-ctl/src/opencore.rs:244-258 | A read of a raw or qcow2 image succeeds exactly inside the image where every byte can be had, and gives the flat disk's bytes |
| Images.OpensIff | crates/reims-ctl/src/opencore.rs:273-292 | A qcow2 image opens exactly with its magic, no backing file, clusters of 2^9 to 2^21 bytes and its L1 table in the file |
| Images.L2Is | crates/reims-ctl/src/opencore.rs:305-312 | An L2 entry with bit 62 is refused, one with bit 0 or no offset is zeros, and any other gives the offset |
| ImageWriter.FileKeeps | crates/reims-ctl/src/opencore.rs:261-292 | A planned qcow2 file holds its header, every L1 and L2 entry and the disk where the plan says |
| ImageWriter.FileOpens | crates/reims-ctl/src/opencore.rs:273-292 | The reader opens a planned file with the cluster size, disk size and L1 table it was written with |
| ImageWriter.ClusterRead | crates/reims-ctl/src/opencore.rs:294-312 | Through the L1 and L2 tables a stored cluster leads to its place in the file, and one unallocated or flagged reads as zeros |
| ImageWriter.WrittenDiskReadsBack | crates/reims-ctl/src/opencore.rs:273-330 | Every byte of a qcow2 image written for a disk, with any clusters of zeros left out or flagged, reads as the disk's |
| Fat.ReadChain | crates/reims-ctl/src/opencore.rs:394-409 | Following a chain in a loop, cyclic or not, ends and gives the first `most` bytes of the clusters along it, or fails where a cluster or a link cannot be read |
| Fat.ChainIsShort | crates/reims-ctl/src/opencore.rs:394-409 | No more clusters are visited than the bytes wanted need, on any FAT |
| Fat.ChainIsLinked | crates/reims-ctl/src/opencore.rs:394-409 | The clusters visited are those the links lead to from the first, and end where the chain does or where the bytes wanted are had |
| Fat.ContentLength | crates/reims-ctl/src/opencore.rs:394-409 | The clusters visited hold a cluster's bytes each |
| Fat.FindFirst | crates/reims-ctl/src/opencore.rs:377-379 | The entry found is the first of that name |
| Fat.ReadFile | crates/reims-ctl/src/opencore.rs:370-392 | The loop over a path's names gives what the path means: each name found in the directory before, and the last one's bytes, a failure, or nothing |
| Fat.FileHasItsSize | crates/reims-ctl/src/opencore.rs:370-392 | A path gives a file exactly when it ends at an entry of at most the most read, whose chain holds the entry's size of bytes; the file is just those |
| Fat.FirstFound | crates/reims-ctl/src/opencore.rs:420-426 | The first entry with a long or an 8.3 name that is the name asked for, in any case of ASCII letters, is found |
| Fat.NoneFound | crates/reims-ctl/src/opencore.rs:420-426 | Where no entry has it, none is found |
| Fat.BiggerFails | crates/reims-ctl/src/opencore.rs:384-389 | A file of more than 16 MiB fails |
| Fat.Fails | crates/reims-ctl/src/opencore.rs:370-392 | A directory or a file whose chain cannot be read, or a file cut short, is a failure and not a missing file |
| Fat.BootIff | crates/reims-ctl/src/opencore.rs:347-368 | A boot sector is taken exactly with its signature, no FAT of 16 bits, and a FAT, sectors of 512 bytes at least and clusters of some |
| Fat.WrittenPathIsRead | crates/reims-ctl/src/opencore.rs:370-392 | A path through directories as a writer left them, among deleted entries and labels, leads to the bytes of the last entry |
| FatWriter.LinkRead | crates/reims-ctl/src/opencore.rs:394-409 | A FAT entry written is the link the reader takes from it |
| FatWriter.DataRead | crates/reims-ctl/src/opencore.rs:394-409 | A cluster written is read from where its number puts it |
| FatWriter.ChainIsRead | crates/reims-ctl/src/opencore.rs:394-409 | Following a chain written gives its clusters' bytes, or the first `most` of them |
| FatWriter.PutHolds | crates/reims-ctl/src/opencore.rs:394-409 | Bytes put in free clusters stand there in order, linked, and filled with zeros |
| FatWriter.PutKeeps | crates/reims-ctl/src/opencore.rs:394-409 | Putting bytes changes no other cluster or link |
| FatWriter.AllStored | crates/reims-ctl/src/opencore.rs:394-409 | However many files are put in a volume, each stays as it was put |
| FatWriter.StoredIsRead | crates/reims-ctl/src/opencore.rs:370-392 | A file stored under a path of directories stored is read by it, whole |
| FatWriter.PutIsRead | crates/reims-ctl/src/opencore.rs:370-392 | After any number of files and directories are put in a volume, every path of them that leads to a file reads it whole |
| DiskWriter.HeaderRead | crates/reims-ctl/src/opencore.rs:209-217 | The places, count and size a GPT header is written with are read |
| DiskWriter.EntriesRead | crates/reims-ctl/src/opencore.rs:216-222 | Among the entries read the EFI system partition's is found, past those of other types |
| DiskWriter.BootRead | crates/reims-ctl/src/opencore.rs:347-368 | A boot sector written gives the volume's FAT, clusters, cluster size and root |
| DiskWriter.StartRead | crates/reims-ctl/src/opencore.rs:209-224 | The partition is found where it was put |
| DiskWriter.VolumeRead | crates/reims-ctl/src/opencore.rs:347-368 | So are the volume and its tables |
| DiskWriter.FileIsReadBack | crates/reims-ctl/src/opencore.rs:226-410 | Any file put in the volume of a disk written whole is read back by its path, from the disk kept raw and from every qcow2 image written of it |
| PathDisk.FindsIff | crates/reims-ctl/src/opencore.rs:420-426 | An entry written is found by just its long name and its 8.3 name, in any case of their letters |
| PathDisk.PathRead | crates/reims-ctl/src/opencore.rs:370-392 | Every path as long as the one written gives the file where its names find each entry, and nothing where one does not |
| PathDisk.AnyPathHasADisk | crates/reims-ctl/src/opencore.rs:209-410 | Any bytes up to 16 MiB, and any path of names long and short, have a disk that gives the bytes by just the paths whose names find each entry |
| Directory.ReadEntries | crates/reims-ctl/src/opencore.rs:429-471 | The loop over 32-byte entries gives the live entries before the end mark, with the long names collected before them |
| Directory.PartsTaken | crates/reims-ctl/src/opencore.rs:436-446 | A part of a long name begins it anew with bit 6 of its number set, and goes on with it otherwise; any other entry ends it |
| Directory.LongChunkReads | crates/reims-ctl/src/opencore.rs:508-529 | The units of a long-name entry written are read from their thirteen places |
| Directory.ShortChunkReads | crates/reims-ctl/src/opencore.rs:498-506 | The name, attribute, cluster and size of a short entry written are read |
| Directory.PartsCollected | crates/reims-ctl/src/opencore.rs:439-445 | The parts of a long name, stored last first, are collected whatever was collected before |
| Directory.LongNameRead | crates/reims-ctl/src/opencore.rs:448-457 | A long name's padded parts read back as its units, up to the NUL |
| Directory.WrittenDirectoryReadsBack | crates/reims-ctl/src/opencore.rs:429-471 | Reading undoes writing: for live entries, deleted ones and labels in any order, followed by an end mark and anything, just the live entries are read, each with its names, cluster and size |
| Directory.SpacesAre | crates/reims-ctl/src/opencore.rs:459-460 | White space is trimmed as Unicode has it |
| Directory.ShortNameReadsBack | crates/reims-ctl/src/opencore.rs:459-463 | An 8.3 name of ASCII fields reads as base, dot and extension, or the base alone |
| OpenCore.ReadStart | crates/reims-ctl/src/opencore.rs:209-224 | The EFI system partition's start is the first matching GPT entry's, as the header places the entries |
| OpenCore.HeaderIff | crates/reims-ctl/src/opencore.rs:212-217 | A GPT header is taken exactly with its signature and entries of 128 to 4096 bytes, of which 128 are read at most |
| OpenCore.NoEsp | crates/reims-ctl/src/opencore.rs:218-224 | Without an entry of the type no partition is found |
| OpenCore.ReadConfigFile | crates/reims-ctl/src/opencore.rs:226-242 | A file is read through the image, the GPT and the volume as the readers' specifications say, errors included |
| OpenCore.SameRead | crates/reims-ctl/src/opencore.rs:244-258 | Two images of one guest disk give one answer to every read |
| OpenCore.SameChain | crates/reims-ctl/src/opencore.rs:394-409 | Two images of one guest disk have the same chains |
| OpenCore.SameFile | crates/reims-ctl/src/opencore.rs:370-392 | Two images of one guest disk give the same file for every path |
| OpenCore.SameConfig | crates/reims-ctl/src/opencore.rs:209-224 | Two images of one guest disk have the same partition and give the same files |
| OpenCore.WrittenImageReadsAsRaw | crates/reims-ctl/src/opencore.rs:226-410 | A file is read alike from a raw image and from any qcow2 image written for the same disk |
| ViewFrames.StepAccounted | crates/reims-ctl/src/view.rs:435-501 | Every step of every thread keeps: `busy` set means a frame is on its way, and there are no more frames and redraws on their way than one and one for each resize |
| ViewFrames.StepFresh | crates/reims-ctl/src/view.rs:456-520 | Every step keeps frames encoded for another layout from being written as this one's |
| ViewFrames.StepOrdered | crates/reims-ctl/src/view.rs:972-1048 | Every step keeps frames in order, from the screen back to the capture |
| ViewFrames.ShownInTimeAndInOrder | crates/reims-ctl/src/view.rs:456-500 | In every interleaving each frame shown was encoded for the layout and size it is shown at, and none after a later one |
| ViewFrames.BusyHasItsFrame | crates/reims-ctl/src/view.rs:972-1003 | In every interleaving, with resizes and encode errors, `busy` set means a frame is at a stage whose handling clears it |
| ViewFrames.OneInFlightWithoutResizes | crates/reims-ctl/src/view.rs:972-1003 | In runs with no resize handled, `busy` says exactly whether a frame is on its way, and there is at most one |
| ViewFrames.HandledIsShown | crates/reims-ctl/src/view.rs:456-500 | A frame of the layout now is shown and clears `busy`, with half blocks at once and else when written; one of another layout is not shown and clears it |
| ViewFrames.EncodedIs | crates/reims-ctl/src/view.rs:1028-1048 | A screen with a row and a column for it has a frame encoded and sent, one without clears `busy`, and an error clears it and is noted |
| ViewFrames.DumpFailedIs | crates/reims-ctl/src/view.rs:976-989 | A failed capture leaves `busy` as it was |
| ViewFrames.ResizeIsTaken | crates/reims-ctl/src/view.rs:503-518 | A resize makes a new layout with the terminal's size and asks for a redraw |
| ViewFrames.EncodedIsNewest | crates/reims-ctl/src/view.rs:1020-1040 | In every run the frame the encoder sends is the newest it has taken: only those queued or yet to be sent to it are newer |
| ViewProgress.NeverStuck | crates/reims-ctl/src/view.rs:1020-1048 | While `busy` is set some thread other than the user's can take a step |
| ViewProgress.CaptureResumes | crates/reims-ctl/src/view.rs:972-1048 | From any point of any run `busy` clears within a bound on the work under way and nine steps for each event meanwhile, so capture never stalls for good |
| ViewProgress.TwoInFlightAfterResize | crates/reims-ctl/src/view.rs:503-518 | With a resize two frames can be on their way, since a redraw does not set `busy` |
| Keys.TapCost | crates/reims-ctl/src/view/keys.rs:128-135 | A tap takes its modifiers' slots twice and its key's twice |
| Keys.TapFits | crates/reims-ctl/src/view/keys.rs:128-141 | Every tap takes at most 14 slots, and held modifiers at most five |
| Keys.WidestTap | crates/reims-ctl/src/view/keys.rs:88-102 | A tap of an extended key with every modifier takes 14 |
| ViewInput.InputQueue.constructor | crates/reims-ctl/src/view.rs:903-905 | The queue and its estimate start empty |
| ViewInput.InputQueue.Queue | crates/reims-ctl/src/view.rs:845-853 | A group joins the queue, a move in place of the move before it, and an empty group not at all |
| ViewInput.InputQueue.Elapse | crates/reims-ctl/src/view.rs:956-958 | Time takes its scancodes off the estimate, down to none |
| ViewInput.InputQueue.TakeBatch | crates/reims-ctl/src/view.rs:855-875 | The loop takes the longest run of groups the allowance and the first click let it, in order, and adds their slots to the estimate |
| ViewInput.ThinnedKeeps | crates/reims-ctl/src/view.rs:845-853 | Dropping moves directly followed by moves loses, adds and reorders no key or button |
| ViewInput.TakenClickLast | crates/reims-ctl/src/view.rs:855-875 | A click is the last group of its batch |
| ViewInput.EmptyQueueTakes | crates/reims-ctl/src/view.rs:862-865 | With an empty estimate a batch always takes something |
| ViewInput.TakenIsLongest | crates/reims-ctl/src/view.rs:855-875 | A batch is the longest run of groups, each on an empty estimate or within 12 with those before it, up to and with the first click |
| ViewInput.TakenPaced | crates/reims-ctl/src/view.rs:862-866 | After a batch the estimate is within 12, or the batch's only scancodes are one bigger tap's, taken on an empty estimate |
| ViewInput.InputIsKept | crates/reims-ctl/src/view.rs:845-875 | Over every interleaving of input, time and batches, what is sent and pending is the input but for superseded moves, clicks end batches, and the estimate is paced |
| ViewInput.OneMoveWaits | crates/reims-ctl/src/view.rs:845-853 | Over every interleaving no two moves wait one after the other, and what was fed last waits last |
| ViewInput.DrainedIs | crates/reims-ctl/src/view.rs:956-958 | The estimate falls by 100 slots a second, to none |
| ViewInput.AcceptedIff | crates/reims-ctl/src/view/keys.rs:88-102 | QEMU's queue takes all of a batch exactly when its slots fit |
| ViewInput.GuestQueueBound | crates/reims-ctl/src/view.rs:91-94 | Over every interleaving, until the viewer ends a guest that drains as fast as the estimate has no more queued and on its way than 14 and what drains in the longest delivery |
| ViewInput.GuestQueueHolds | crates/reims-ctl/src/view.rs:91-94 | Over every interleaving in which any flush fits, QEMU drops nothing typed exactly when every batch is delivered within 20 ms |
| ViewInput.LateBatchOverruns | crates/reims-ctl/src/view.rs:956-967 | For any longer delivery a run loses keys: the widest tap twice, the first as late as allowed |
| ViewInput.CloseIs | crates/reims-ctl/src/view.rs:940-954 | Closing sends the flush whatever the estimate, and nothing after |
| ViewInput.FlushedAre | crates/reims-ctl/src/view.rs:950-950 | Just the groups that press no key are flushed |
| ViewInput.FlushFitsIff | crates/reims-ctl/src/view.rs:940-954 | Whatever the delay, QEMU drops nothing of the closing flush, however the end goes, exactly when its slots fit on top of what is queued when it is sent |
| ViewHeld.InputThread.constructor | crates/reims-ctl/src/view.rs:692-692 | The input thread starts with nothing held |
| ViewHeld.InputThread.MouseEvent | crates/reims-ctl/src/view.rs:754-827 | Each mouse report changes what is held, the toolbar's modifiers and what is sent as the branches say, a release by the last of its button or the last of all |
| ViewHeld.InputThread.Release | crates/reims-ctl/src/view.rs:745-752 | The loop lets go of all that is held, the last first |
| ViewHeld.InputThread.Handle | crates/reims-ctl/src/view.rs:697-742 | Key presses, pastes, mouse reports and lost focus send what they should |
| ViewHeld.ReportsAre | crates/reims-ctl/src/view.rs:754-827 | A press on the display is held and sent with the terminal's and the latched modifiers; a release ends the last hold of its button, or the last; the toolbar turns its modifier; moves and scrolls count on the display, drags anywhere |
| ViewHeld.LastOf | crates/reims-ctl/src/view.rs:775-782 | The hold a release ends is the last with its button, or the last |
| ViewHeld.TapLeaves | crates/reims-ctl/src/view/keys.rs:128-135 | A tap leaves nothing down that was not |
| ViewHeld.LetGoFrees | crates/reims-ctl/src/view.rs:745-752 | Letting go of a hold takes its button and modifiers up, and no others |
| ViewHeld.PressAdds | crates/reims-ctl/src/view.rs:803-807 | A press puts its button and modifiers down, and no others |
| ViewHeld.TapTypes | crates/reims-ctl/src/view/keys.rs:128-135 | A tap presses its key once, with just its modifiers pressed before and released after, the last first |
| ViewHeld.PressTypes | crates/reims-ctl/src/view.rs:711-722 | A key press sends one group, which types the key with the terminal's modifiers and the latched ones, and lets the latch go |
| ViewHeld.PasteTypes | crates/reims-ctl/src/view.rs:724-728 | A paste sends a group for each character, in order, which types its key with its modifiers |
| ViewHeld.ClicksAreHeld | crates/reims-ctl/src/view.rs:803-807 | A click's modifiers are down before its button, and its button is up before they are |
| ViewHeld.ClicksAre | crates/reims-ctl/src/view.rs:864-873 | Presses and releases of a button are clicks; moves, scrolling and taps are not, and only a lone move is a move |
| ViewHeld.MouseCovers | crates/reims-ctl/src/view.rs:754-827 | Every mouse report keeps all that is down in the guest held, whatever droppable groups never arrive |
| ViewHeld.InputCovers | crates/reims-ctl/src/view.rs:697-742 | So does every input |
| ViewHeld.PressesAreHeld | crates/reims-ctl/src/view.rs:754-827 | Over every sequence of inputs each button's presses less its releases are its count in `held`, and no group takes more than 14 slots |
| ViewGuest.NothingIsLost | crates/reims-ctl/src/view.rs:855-967 | Over every run of the whole viewer QEMU drops nothing when batches are delivered within 20 ms and the flush fits |
| ViewGuest.NothingHeldNothingDown | crates/reims-ctl/src/view.rs:738-738 | In every run that lost nothing, when nothing is held and all has arrived, as after focus is lost, no button or modifier is down in the guest |
| ViewGuest.NothingLostNothingStays | crates/reims-ctl/src/view.rs:940-954 | However a run went, after the viewer has ended, with the taps and presses still pending dropped, no button or modifier is down in the guest if QEMU lost nothing |
| ViewGuest.NothingStaysHeld | crates/reims-ctl/src/view.rs:940-954 | So no button or modifier stays down in a guest that drops what does not fit, when batches are delivered within 20 ms and the flush fits |
| ViewGuest.FlushFreesIff | crates/reims-ctl/src/view.rs:940-954 | At the end of a run that lost nothing, a flush that releases keys that are down, each once, frees them all exactly when it fits |
| ViewGuest.SomethingStaysDown | crates/reims-ctl/src/view.rs:940-954 | With no delay at all a run ends with a key left down: a button held with every modifier, let go by the flush over three arrow keys |
| Blit.RowStarts | firmware/src/GraphicsOutput.c:137-146 | Inside a surface the 32-bit row and column offsets do not wrap |
| Blit.CopyRect | firmware/src/GraphicsOutput.c:117-149 | The nested loops put the source rectangle in the destination and change nothing else |
| Blit.ThereAndBack | firmware/src/GraphicsOutput.c:244-266 | A rectangle written to the video and read back leaves the buffer as it was, whatever the pitches |
| Blit.MoveRect | firmware/src/GraphicsOutput.c:151-206 | The nested loops do the pixel assignments in the order and at the 32-bit offsets of the source, in both directions |
| Blit.ReadPlace | firmware/src/GraphicsOutput.c:170-205 | A move reads each pixel up from the rectangle's start, or where the destination is further on down from one past its end |
| Blit.WritePlace | firmware/src/GraphicsOutput.c:170-205 | It writes it up from the destination, or down from one size more past the source's end |
| Blit.ReadsBeforeWrites | firmware/src/GraphicsOutput.c:183-205 | A forward move has not written what it has yet to read |
| Blit.ForwardIsSimultaneous | firmware/src/GraphicsOutput.c:151-206 | A forward move equals a simultaneous copy of the old rectangle with all other pixels unchanged |
| Blit.NeverReadsFirst | firmware/src/GraphicsOutput.c:177-191 | A backward move never reads the rectangle's first pixel |
| Blit.MoveIsRightIff | firmware/src/GraphicsOutput.c:151-206 | A move is right for every content exactly when the rectangle is empty or neither destination coordinate exceeds its source's |
| Gop.AllocationSize | firmware/src/ReimsVgpu.c:395-405 | The loop gives the largest mode's size, in 32 bits, rounded up to pages |
| Gop.AllocationCoversIff | firmware/src/ReimsVgpu.c:395-405 | The allocation covers every mode exactly when every mode's bytes are at most 2^32 less a page |
| Gop.InModeIsWithin | firmware/src/GraphicsOutput.c:231-278 | A rectangle inside a mode the allocation covers is inside the frame buffer |
| Gop.Output.constructor | firmware/src/GraphicsOutput.c:287-306 | The protocol starts in mode 0 with the frame buffer allocated |
| Gop.Output.SetMode | firmware/src/GraphicsOutput.c:86-115 | A mode of the list is set with its size, and any other changes nothing; with modes of at most 2^32 less a page the frame buffer shows whichever is set |
| Gop.Output.VideoFill | firmware/src/GraphicsOutput.c:232-242 | Inside a mode, exactly the rectangle is filled |
| Gop.Output.VideoToBuffer | firmware/src/GraphicsOutput.c:244-254 | Inside a mode, exactly the buffer's rectangle takes the video's, pixel for pixel in rows of Delta's pixels or of the rectangle's width |
| Gop.Output.BufferToVideo | firmware/src/GraphicsOutput.c:256-266 | Inside a mode, exactly the video's rectangle takes the buffer's, pixel for pixel from rows of Delta's pixels or of the rectangle's width |
| Gop.Output.VideoToVideo | firmware/src/GraphicsOutput.c:268-278 | Inside a mode a move does the assignments MoveRect does, and is a simultaneous copy if empty or forward |
| Zip.Writer.constructor | crates/reims-ctl/src/logs.rs:243-256 | An archive starts empty |
| Zip.Writer.Add | crates/reims-ctl/src/logs.rs:258-301 | Each entry added extends the file and the central directory as the format has them, offset and count in 32 and 16 bits |
| Zip.Writer.Finish | crates/reims-ctl/src/logs.rs:303-319 | The finished file is the entries, the central directory and the end record |
| Zip.LocalReads | crates/reims-ctl/src/logs.rs:265-279 | A local header written is read, and its data inflates to the entry |
| Zip.LocalHeaderReads | crates/reims-ctl/src/logs.rs:265-279 | Every field of a local header stands at its place: version, flags, method, time, date, CRC, sizes and name length |
| Zip.CentralHeaderReads | crates/reims-ctl/src/logs.rs:281-296 | Every field of a central header stands at its place, time, date, attributes and offset among them |
| Zip.EndReads | crates/reims-ctl/src/logs.rs:303-319 | So does every field of the end record, the central directory's size and place among them |
| Zip.ArchiveHolds | crates/reims-ctl/src/logs.rs:258-301 | Every offset stored reaches its entry's local header |
| Zip.ReadAreShort | crates/reims-ctl/src/logs.rs:265-296 | Whatever bytes are read as a central directory, every entry's name is under 64 KiB and its data under 4 GiB |
| Zip.ReadsBackIff | crates/reims-ctl/src/logs.rs:243-319 | An archive of entries under 4 GiB in all reads back as the entries added, in order, exactly when they are fewer than 65536, each name under 64 KiB and each data under 4 GiB |
| Doorbells.MatchDoorbells | scripts/vm_drive.py:1295-1353 | The loop over the trace gives the matches and the pending doorbells of both rules |
| Doorbells.MatchRead | scripts/vm_drive.py:1333-1353 | One read of the mask takes, for each set bit, what each rule has it take |
| Doorbells.TakeAll | scripts/vm_drive.py:1341-1352 | Of one FIFO's doorbells, the lenient rule takes all and the strict rule those an interrupt followed |
| Doorbells.PendingIsWaiting | scripts/vm_drive.py:1295-1353 | A doorbell is pending, once, exactly while no read has taken it |
| Doorbells.OnceOrPending | scripts/vm_drive.py:1307-1353 | Under each rule every doorbell is matched exactly once or is still pending, and nothing else is matched |
| Doorbells.MatchesAre | scripts/vm_drive.py:1256-1258 | A match is with the first later read of the FIFO's bit that its rule lets take the doorbell, with that read's latency |
| Doorbells.MatchedIff | scripts/vm_drive.py:1333-1353 | A doorbell is matched with a read exactly when the read has its bit, under the strict rule an interrupt comes between, and no read between them does as much |
| Doorbells.LatencyIs | scripts/vm_drive.py:1339-1349 | The latency ends at the last interrupt before the read, or at the read where there is none, and under the lenient rule is 0 where that is negative |
| Doorbells.LatenciesArePositive | scripts/vm_drive.py:1341-1349 | No latency is negative in a trace in order |
| Doorbells.StrictIsAnUpperBound | scripts/vm_drive.py:1259-1266 | A doorbell the strict rule matches the lenient rule matched no later with a latency no larger, and alike when an interrupt followed its line before the first read |
| Doorbells.Merge | scripts/vm_drive.py:1370-1378 | Merged stalls are apart and in order, cover just what the intervals do, and name just the FIFOs of the intervals in each |
| MannWhitney.UMirrors | scripts/vm_drive.py:1482-1482 | U(a,b) + U(b,a) = nm |
| MannWhitney.IsLabelling | scripts/vm_drive.py:1485-1486 | The labellings are all those with n samples in the first group |
| MannWhitney.PIsAProbability | scripts/vm_drive.py:1484-1492 | There is a labelling, and the p-value is over 0 and at most 1 |
| MannWhitney.TurnedU | scripts/vm_drive.py:1485-1489 | Swapping the groups turns each labelling into one whose U is the rest of all pairs |
| MannWhitney.PIsSymmetric | scripts/vm_drive.py:1479-1492 | The p-value is the same whichever samples come first |
| PermutationTest.UMost | scripts/vm_drive.py:1482-1482 | U is at most nm, and nm exactly when every sample of a is above every one of b |
| PermutationTest.UInHalves | scripts/vm_drive.py:1482-1482 | U counts a pair won and half a pair tied |
| PermutationTest.ExtremeIff | scripts/vm_drive.py:1491-1491 | A labelling counts exactly when its U is no nearer the mean than the samples' own: the slack takes in none nearer |
| PermutationTest.ApartP | scripts/vm_drive.py:1484-1492 | Samples wholly apart have a p-value of two labellings of all, or of one where ties forbid the other |
| PermutationTest.TwoOfAll | scripts/vm_drive.py:1484-1492 | It is 2 of all for equal sizes, or with no two samples equal |
| PermutationTest.PFalls | scripts/vm_drive.py:1484-1492 | Of two partings of one pool into groups of the same sizes, the one whose U is farther from the mean has no larger a p-value |
| FormWorks.App.constructor | crates/reims-ctl/src/tui.rs:237-255 | The interface starts with no form and no work |
| FormWorks.App.SpawnWork | crates/reims-ctl/src/tui.rs:360-384 | Work starts, with a new id, unless the VM has work |
| FormWorks.App.OpenFailedForm | crates/reims-ctl/src/tui.rs:604-611 | The last form whose work failed opens once nothing else is open |
| FormWorks.App.SubmitForm | crates/reims-ctl/src/tui.rs:542-550 | A submit leaves the form open with the error or with the work it started, or closes it |
| FormWorks.App.HandleKey | crates/reims-ctl/src/tui.rs:523-602 | A key changes the overlay, the closed forms and the works as the branches say |
| FormWorks.App.WorkEnded | crates/reims-ctl/src/tui.rs:484-509 | A work's end finds its form, open or closed, and keeps it for the error to be fixed |
| FormWorks.StepKeeps | crates/reims-ctl/src/tui.rs:472-602 | Every step keeps each running form work with just one form and each busy form with its work |
| FormWorks.OneFormEach | crates/reims-ctl/src/tui.rs:485-495 | In every run each running work a form started has exactly one form with its id, as submitted but perhaps for the GPU, in the overlay or closed |
| FormWorks.FailureKeepsForm | crates/reims-ctl/src/tui.rs:496-507 | In every run a failed work's form is open or to be opened, as submitted, with the error |
| FormWorks.FailedFormStays | crates/reims-ctl/src/tui.rs:604-611 | Until a key goes to it, it stays so exactly as long as no log, without `less`, takes its place with none like it waiting |
| FormWorks.OpensOverNothing | crates/reims-ctl/src/tui.rs:604-611 | After a key or a message no form waits over an empty screen |
| FormWorks.SuccessRemovesForm | crates/reims-ctl/src/tui.rs:484-497 | A work that succeeds takes its form with it, and no other work's |
| FormWorks.EndFreesVm | crates/reims-ctl/src/tui.rs:472-497 | In every run each VM with work has a work running, and a work's end, in success or failure, frees its VM |
| FormWorks.SubmitIs | crates/reims-ctl/src/tui.rs:542-550 | A submit leaves its form open with the error, closes it, or leaves it busy with the new work, which has it as it is |
| FormWorks.ElsewhereIs | crates/reims-ctl/src/tui.rs:360-384 | Any other view's key starts work unless the VM has work, or it is powered off; logs are shown with no view open |
| FormWorks.GpusAre | crates/reims-ctl/src/tui.rs:511-521 | New GPUs leave every other answer, and the GPU's where it can stay |
| FormWorks.LastFailedOpens | crates/reims-ctl/src/tui.rs:604-611 | Of forms whose work failed the last opens first |
| FormWorks.MissingLessLosesForm | crates/reims-ctl/src/tui.rs:440-453 | Without `less` a run loses a failed work's form |
| LineEditor.EncDecodes | crates/reims-ctl/src/form.rs:301-302 | A character's bytes are its shortest form in UTF-8 |
| LineEditor.EncodedBoundary | crates/reims-ctl/src/form.rs:301-302 | The byte index of each character is a boundary where that character stands |
| LineEditor.EncodedCount | crates/reims-ctl/src/form.rs:305-305 | Counting characters in the bytes counts the characters |
| LineEditor.AfterLastEncoded | crates/reims-ctl/src/form.rs:310-316 | Searching the bytes for the last separator finds the characters' last |
| LineEditor.EditsUndo | crates/reims-ctl/src/form.rs:317-330 | Backspace undoes typing, and so does Delete from before it |
| LineEditor.TypingIs | crates/reims-ctl/src/form.rs:317-321 | What is typed stands at the cursor, in order, and the cursor after it |
| LineEditor.KeysMove | crates/reims-ctl/src/form.rs:301-309 | Typed after Home a text stands first, after End last, after Ctrl-U alone; Left and Right undo each other |
| LineEditor.WordTaken | crates/reims-ctl/src/form.rs:310-316 | Ctrl-W takes the slashes before the cursor and the word before them |
| LineEditor.Editor.InsertChar | crates/reims-ctl/src/form.rs:317-321 | A character inserted at a byte index is inserted at the cursor |
| LineEditor.Editor.RemoveChar | crates/reims-ctl/src/form.rs:322-330 | A character removed at a byte index is removed from the characters |
| LineEditor.Editor.RemoveWord | crates/reims-ctl/src/form.rs:310-316 | Ctrl-W removes what it does of the characters |
| LineEditor.Editor.Handle | crates/reims-ctl/src/form.rs:298-345 | Every edit of the bytes is the edit of the list of characters, with the cursor within it |
| FormFields.ShownWhateverRank | crates/reims-ctl/src/form.rs:143-153 | Whether a field is shown does not depend on how its links are ranked |
| FormFields.ShownIff | crates/reims-ctl/src/form.rs:143-153 | A field is shown exactly when it has no condition, or one that names no field, or the first field of the name is shown with an answer listed |
| FormFields.AnswersAre | crates/reims-ctl/src/form.rs:167-176 | A toggle answers yes or no, a choice its option, and a text itself |
| FormFields.SomeShown | crates/reims-ctl/src/form.rs:143-157 | With acyclic links some field is always shown |
| FormFields.ShownApart | crates/reims-ctl/src/form.rs:143-153 | A field's own value neither shows nor hides it or what it is shown by |
| FormFields.NextAndBack | crates/reims-ctl/src/form.rs:232-244 | Moving the focus on and back comes back |
| FormFields.NextIs | crates/reims-ctl/src/form.rs:232-244 | Down goes to the next field shown, or the first, and Up to the one before, or the last |
| FormFields.ValuesAre | crates/reims-ctl/src/form.rs:280-297 | Right and a space choose the next option, Left the one before; a toggle turns, and takes y and n; Tab moves on |
| FormFields.ClosesIff | crates/reims-ctl/src/form.rs:250-262 | Just Escape and Ctrl-C close a form |
| FormFields.LineKeys | crates/reims-ctl/src/form.rs:301-343 | Each key of a line is the edit it should be |
| FormFields.KeyKeeps | crates/reims-ctl/src/form.rs:250-348 | Every key keeps the links and sound values, leaves the focus on a shown field when not busy, and leaves a busy form alone but for closing it |
| FormFields.KeysKeep | crates/reims-ctl/src/form.rs:250-348 | So does every sequence of keys |
| FormFields.ChoicesTurnBack | crates/reims-ctl/src/form.rs:283-297 | Left and Right undo each other in a choice and in a toggle |
| FormFields.UpUndoesDown | crates/reims-ctl/src/form.rs:263-270 | Up undoes Down, and Down Up |
| FormFields.DownsGoRound | crates/reims-ctl/src/form.rs:232-244 | As many Downs as fields shown go all the way round |
| FormFields.Form.constructor | crates/reims-ctl/src/form.rs:132-141 | A form starts on its first field, not busy |
| FormFields.Form.MoveFocus | crates/reims-ctl/src/form.rs:232-244 | The focus moves to the next or previous shown field |
| FormFields.Form.HandleKey | crates/reims-ctl/src/form.rs:250-348 | A key changes the form, and gives the event, as the branches say |
| FormFields.Form.ChangeValue | crates/reims-ctl/src/form.rs:278-348 | A key that goes to the focused field changes its value or moves the focus on, and clears the error |
| LogCounter.LinesOfBoth | crates/reims-ctl/src/runtime.rs:301-309 | The lines of whole lines and more are the lines of each |
| LogCounter.ScanOfWhole | crates/reims-ctl/src/runtime.rs:301-302 | A line not yet ended counts for nothing |
| LogCounter.CountLines | crates/reims-ctl/src/runtime.rs:303-309 | The loop carries a count on over whole lines |
| LogCounter.Counter.constructor | crates/reims-ctl/src/runtime.rs:287-288 | The counter starts with nothing read |
| LogCounter.Counter.EmptiedEntryLines | crates/reims-ctl/src/runtime.rs:284-312 | Of any file the count is that of the bytes carried over from the last count and the whole lines after as many; a full scan's if the file begins with them or is shorter |
| LogCounter.IntactCountsRight | crates/reims-ctl/src/runtime.rs:282-283 | A count carried on over a file that begins with the bytes counted before is a full scan's |
| LogCounter.LineCounts | crates/reims-ctl/src/runtime.rs:303-309 | A line that ends in `device reset` begins the count anew, one that tells anywhere of an empty entry adds one, and another changes nothing |
| LogCounter.RunCountsRight | crates/reims-ctl/src/runtime.rs:279-312 | Over every run of appends, fresh logs, renames, removals and counts, in which no fresh log takes the remembered inode while something of it is remembered, each count is a full scan's |
| LogCounter.CountAfter | crates/reims-ctl/src/runtime.rs:279-312 | The counter after every such run counts any log as a full scan does |
| LogCounter.MisreadCount | crates/reims-ctl/src/runtime.rs:294-300 | Whatever whole lines were read, some file no shorter has another count than they carried on over its rest |
| LogCounter.FreshCountsRightIff | crates/reims-ctl/src/runtime.rs:294-295 | After a fresh log takes an inode all later counts are right, however the run goes on, exactly when that is not the remembered inode or nothing of it is remembered |
| Base64.Shifts | crates/reims-ctl/src/create.rs:742-743 | A sextet shifted into the 32-bit accumulator keeps the bits over, whatever has been shifted out |
| Base64.Decode | crates/reims-ctl/src/create.rs:728-750 | Decoding succeeds exactly when every character is of an alphabet or skipped, and gives the bytes of the sextets |
| Base64.DecodesEncoded | crates/reims-ctl/src/create.rs:732-748 | The bytes of an encoding's sextets are those encoded |
| Base64.WrittenRead | crates/reims-ctl/src/create.rs:733-738 | Sextets written in either alphabet are read |
| Base64.SkippedAnywhere | crates/reims-ctl/src/create.rs:739-739 | A space, line break or pad anywhere changes nothing |
| Base64.AllowedIff | crates/reims-ctl/src/create.rs:733-740 | Any character but the alphabets', a pad, a space and line breaks is refused |
| Base64.DecodeOf | crates/reims-ctl/src/create.rs:728-750 | Decoding inverts encoding, in either alphabet, padded or not, with spaces and line breaks anywhere |
| Hidpi.DensityNear | crates/reims-ctl/src/vm.rs:253-253 | The density is within half a dot of the exact one, but for rounding |
| Hidpi.MillimetersNear | crates/reims-ctl/src/vm.rs:221-226 | At it the guest is told about 295 mm, whatever the rounding |
| Hidpi.DensityIsAccepted | crates/reims-ctl/src/vm.rs:221-257 | For every width of at least 1920 the density is returned, is read as exactly 30 cm, and its scale is known |
| Hidpi.HidpiIff | crates/reims-ctl/src/vm.rs:247-257 | There is a density for just the widths of at least 1920 |
| Hidpi.ScaleKnownIff | crates/reims-ctl/src/vm.rs:233-245 | The scale is known exactly by the width, the centimetres read and the pixels in each |
| Hidpi.GivenIsKnown | crates/reims-ctl/src/vm.rs:247-257 | A density is given only at which the display is HiDPI and its scale known |
| Hidpi.CentimetersAre | crates/reims-ctl/src/vm.rs:228-231 | Millimetres are rounded up to whole centimetres |
| Hidpi.RoundIs | crates/reims-ctl/src/vm.rs:253-253 | The density is rounded to the nearest integer |
| Shell.ArgsRead | crates/reims-ctl/src/qemu.rs:421-436 | The script's words are the arguments in order, whatever shares a line |
| Shell.ScriptIsCommandIff | crates/reims-ctl/src/qemu.rs:393-438 | From any environment the script runs the same program with the same arguments and variables as the command exactly when the shell takes every variable set: it has a shell's name, and is not one the shell keeps for itself with another value |
| Shell.VmScriptIsCommandIff | crates/reims-ctl/src/qemu.rs:133-137 | For a VM that is exactly when the shell takes its own variables |
| Shell.KeptNamesDiffer | crates/reims-ctl/src/qemu.rs:417-419 | A shell that keeps `PPID` or `OPTIND` does not do what the command does with them |
| Shell.ShellScript | crates/reims-ctl/src/qemu.rs:406-438 | The loops print that script |
| Shell.NamesAre | crates/reims-ctl/src/qemu.rs:417-419 | A shell's names are of letters, digits and underscores, with no digit first |
| Shell.LinesAre | crates/reims-ctl/src/qemu.rs:421-436 | An option takes the argument after it on its line unless that is an option; any other argument has its own |
| Shell.ExtraHas | crates/reims-ctl/src/qemu.rs:133-137 | The variables printed are the VM's own, and those before under other names |
| Shell.ExtraUnsets | crates/reims-ctl/src/qemu.rs:133-137 | Those unset are the ones before but for the VM's own |
| Shell.ExtraIsSet | crates/reims-ctl/src/qemu.rs:133-137 | From any environment each of the VM's own variables has its value |

## Left out

- Images: files are taken not to change while they are read, and a read whose end is past 2^64 is refused by
  its true sum where the code saturates; no image is that long.
- Images.ReadQcow2: version 3 extensions, snapshots and encryption are not looked at, as in the code; images
  with backing files and compressed clusters are refused, as in the code.
- ImageWriter.WrittenDiskReadsBack: covers files of at most 2^56 bytes and L1 tables of at most 2^20 entries,
  past which the reader takes the rest of the table as absent.
- Directory.ShortNameReadsBack: the standard library's UTF-8 and UTF-16 decoders are parameters, of which only
  that ASCII decodes to itself is taken.
- Fat.ReadChain: addresses are computed modulo 2^64, as a release build does; memory for the bytes read is
  taken to be had.
- Fat.ReadFile: a path is given as the names between its slashes.
- The property list `config.plist` and what is made of it.
- ViewFrames: the viewer's ends (Control-], a VM that stopped, a terminal that fails), the rate limit between
  captures, frames found unchanged, and drawing. A frame is its number.
- ViewInput.GuestQueueHolds: the estimate is a real number; that the guest takes its 100 scancodes a second, and
  how long a batch takes to arrive, are assumptions of the run. A batch's events reach QEMU together.
- ViewGuest.NothingStaysHeld: the tablet's own queue is taken to hold its buttons and positions.
- ViewGuest.FlushFreesIff: of a flush that releases one key twice, as for two buttons held with one modifier,
  only the half that it frees all when it fits is stated (ViewGuest.NothingLostNothingStays).
- FatWriter and DiskWriter: the repository has no writer; these write any one layout a reader must take, without
  choosing free clusters, and names are matched as the entries' decoders give them.
- ViewHeld: positions are given with each report, not computed from its cell or pixel; what the toolbar shows
  under the pointer is too. Sends are taken to succeed, and the input thread to end within the second it has.
- ViewHeld.InputThread.Handle: a key no US keyboard types, the disconnect key and a resize send the guest
  nothing and are not inputs here.
- Blit.CopyRect: the caller's buffer has rows of whole pixels and does not overlap the frame buffer, and the
  rectangle lies in both, none of which the code checks.
- Blit.MoveIsRightIff: for memory that holds every pixel the move touches, in a surface of less than 4 GiB.
- Gop.Output.VideoToVideo: a move not toward the display's start that leaves the frame buffer, whose pixels are
  then other memory's; one that stays in it is stated, though never right for every content
  (Blit.MoveIsRightIff).
- The list of modes as it is read from the device's registers, begun again when it changes meanwhile.
- Zip.ReadsBackIff: nothing is stated of archives of 4 GiB or more, whose offsets wrap. DEFLATE and CRC-32 are
  parameters, of which only that inflating undoes deflating and that a CRC has 32 bits is taken. The entries'
  time and date are written and not read.
- Doorbells.MatchDoorbells: the report's other counts (spacing, stray bits, the time from interrupt to read,
  surface doorbells, silences) are left out.
- MannWhitney.PIsSymmetric: in real arithmetic; the samples' values and halves are exact in the code's floating
  point but for the last division.
- FormWorks: what a key does in the views that are not forms is any change of view and any work started, which
  is all the forms' safety needs; what works do, messages' texts and the list of VMs are left out.
- FormWorks.FailureKeepsForm: the GPU chosen can change with the GPUs found while the form is open.
- FormFields.KeyKeeps: for forms of at least one field whose links are acyclic, as all are; a form of no fields
  would stop the program at the first key typed.
- LineEditor.Editor.Handle: the completion of a path is given; drawing the text is left out.
- LogCounter.FreshCountsRightIff: a log truncated in place is a fresh one that keeps its inode. A read that fails
  or comes short, and a log that grows while it is read, are left out.
- Hidpi.DensityIsAccepted: rounding is any within each precision's relative error, which leaves out overflow
  and subnormal numbers, and no width reaches them.
- Shell.ScriptIsCommandIff: quoting, the shell's reading of a quoted word, and what it makes of the variables it
  keeps are parameters; the variables a shell sets by itself as it starts (`PWD`, `SHLVL`, `_`), which leave no
  two environments the same, are not modelled. A name that holds `=`, which no option can give and only the
  configuration file edited by hand can, is left out.
- Stopping and powering off VMs, the registry, updates, installing, GPU probing and the device's C interface:
  calls into other programs and libraries, or easy members.
