# Models of the pager's algorithms

The pager is a small handheld device with a phone link. This project models the parts of its firmware and of the
reference tool of its link protocol that are algorithms rather than user interface, and proves what they are for.

- **Link** (`Bytes`, `MessageCodec`, `Framing`, `ReceiverHistory`, `LossyChannel`): messages of PagerLink v1 in packets
  with a 6-bit counter, over a channel that loses packets, into a receiver that recovers. What the receiver reports is
  a function of the packets that came. It notices a run of losses exactly when its length is not a multiple of 64, and
  the link is exact if and only if there is no run it does not notice.
- **Notes encryption** (`GaloisField`, `SubBytes`, `Aes`, `AesLoops`, `NotesCrypto`): AES-256 (FIPS-197) built up from
  multiplication in GF(2^8), chaining (section 6.2 of NIST SP 800-38A), padding (section 6.3 of RFC 5652) and the
  salted container: inverse in both directions, for every key.
- **Screen runs** (`RunLength`): the greedy run-length encoder is lossless and optimal.
- **Kitchen, drawing** (`Areas`, `AreaLists`, `DirtyStage`, `StripIndex`, `PotatoImage`, `PeelLook`, `PileCache`,
  `KitchenBase`, `CucumberScreen`, `PotatoScreen`, `SpriteCache`, `Painter`, `EarClipping`): fast forms against the simple ones, up
  to what the whole screen shows: dirty rectangles, recolouring through an index of pixels, a pile baked under no more
  than a count for a key, cached sprites, the drawing order of a pile, and ear clipping.
- **Kitchen, game** (`Crank`, `Slices`, `Cutting`, `Peeler`): the two crank machines over any sequence of wheel moves
  and frames.
- **Journal** (`Prefixes`, `JournalIndex`, `JournalRefresh`, `JournalPage`, `NoteWriters`, `JournalWorker`,
  `JournalEdits`, `JournalRuns`): the index file, the incremental rescan, and the protocol between the UI thread, the scanning worker
  and tasks that write notes.
- **Text** (`Numerals`, `Favourites`, `ChunkedBody`, `ChatLog`): the favourites' stored form, the chunked body decoder
  (section 7.1 of RFC 9112) and the bounded transcript.

Imperative code is modelled by classes and methods with loops, each proved equal to a function; what the program
promises is proved of those functions. Objects keep the program's fields. `Wrappers`, `Integers` and `Strings` hold
what several modules need.

## What the model takes as given

- Floating point is `real`. A drawing operation is a function from a pixel's old colour to its new one; parts paint
  inside the area they measure, and a part that a frame does not report as moved paints as before.
- The ray-cast of the potato is any function from the layout to samples whose strip numbers fit their bytes. Offsets in
  the image count pixels, and a row is as long as the image is wide.
- Key derivation is any function of passphrase and salt; the signature that decides whether the journal page is built
  again is any function of the list.
- A write of notes is a sequence of events, each one step: the generation, a stamp, a file. So are the wait for queued
  saves, the listing, and the reading of one note. A stamp is never given twice, not after a restart either. The
  generation and the count of edits are 32 bits wide and their wrap is part of the model.
- A callback of the UI is one step: no write comes between its comparison of the generation and its clearing of the
  dirty flag.
- The reader of the index finds room for as many entries as the file says it has.
- A baked or drawn pile looks the same, is drawn inside the area it measures, and measures no less when more has landed.
- Allocation, task creation and random numbers are parameters; in a redraw of the potato every draw has its own.
- A size or position in memory is an unbounded number except where a wrap can be reached: in the chunked decoder.

## Where the code and its descriptions part

- The 6-bit counter does not show a loss of 64 packets, or any multiple: `LossyChannel.GapInsideMessage` gives the
  message that is then delivered though nobody sent it. `LossyChannel.LinkIsExact` has the exact
  condition on the losses, for whole streams.
- The chunked decoder checks a sum that may wrap in a 32-bit word. `ChunkedBody.StopsAsMeant` says exactly when that
  matters, and `ChunkedBody.LoopsForEver` shows a body on which the loop does not end.
- The freshness check counts on the generation to show every write since a scan was started. Writes, deletes and
  renames over the link raise it last, after the file is there: `JournalRuns.LateRunIsStale` is a run in which such a
  note is missed. A link write that removes the old file and cannot put the new one there does not raise it at all:
  `JournalRuns.FailedRunIsStale`. A save stamps its note before the text is there, and one carried out in line is not
  waited for by the worker: in the run of `JournalRuns.TornReadStays` the old text is kept under the new stamp by the
  next scan too. Stamps are forgotten in a restart, and the index is not: `JournalRuns.RestartIsStale`, with the exact
  condition in `JournalWorker.RestartKeeps`. `JournalWorker.FreshIsScan` has the conditions under which a list taken
  for fresh is fresh.
- Drawing the potato brings its image up, too, and drops the area that this changed. An image that finds its memory
  only then is drawn in the clip at hand and no further: `PotatoScreen.LosePotato`. A redraw is right exactly when it
  is safe in the sense of `PotatoScreen.Screen.Redraw`.
- The favourites' format keeps more than its description asks for (a title may contain the field separator) and less (a
  list with one id under two titles does not survive): `Favourites.RoundTrip` has the exact condition.
- The peeler can be backed up from the last hundredth of a notch before the bottom, after its strip was released, so the
  strip on show can be drawn unpeeled though it counts: `Peeler.BackedUp` for the wheel, `Peeler.ShowSkinAgain` for a
  game. `Peeler.Potato.ShownAgrees` says exactly when.

## Model

| member | source | states |
|---|---|---|
| `MessageCodec.DecodeEncode` | protocol/tools/mkvectors.py:31-47 | for everything the header can pack, decoding gives the message back exactly when the link accepts it, and otherwise names the first bad field |
| `MessageCodec.EncodeDecode` | protocol/tools/mkvectors.py:31-47 | bytes that decode are the encoding of what they decode to |
| `MessageCodec.Layout` | protocol/tools/mkvectors.py:31-37 | each field at its place in the bytes, the low byte of an id or a length first |
| `MessageCodec.DecodeRefuses` | protocol/tools/mkvectors.py:38-47 | which bytes are refused for which reason, in the order of the tests |
| `Framing.FlagsFields` | protocol/tools/mkvectors.py:50-63 | or-ing the counter and the two flag bits loses none of the three |
| `Framing.Segment` | protocol/tools/mkvectors.py:50-63 | the sender's loop: packet k is the k-th cut of the message with its counter and flags, no packet is empty or too long, and the counter it leaves is the start plus the number of packets modulo 64 |
| `Framing.Reassembler.Feed` | protocol/tools/mkvectors.py:75-103 | one packet changes the receiver's three fields and its events as the seven steps of the link's specification do |
| `Framing.Reassembler.FeedAll` | protocol/tools/mkvectors.py:65-103 | a receiver fed packet by packet goes through the run of the step function |
| `ReceiverHistory.FlagBits` | protocol/tools/mkvectors.py:50-63 | the counter is the low six bits, 0x40 is the end and 0x80 the start |
| `ReceiverHistory.RunReports` | protocol/tools/mkvectors.py:65-103 | what the receiver reports over any packets, after any others, said by the packets that came: where the last start was, whether all since were in step and none was an end, whether what they hold fits, and whether a reset has been reported since |
| `ReceiverHistory.ReceiverReports` | protocol/tools/mkvectors.py:65-103 | the same from a receiver with nothing open |
| `ReceiverHistory.DeliveredIsWhole` | protocol/tools/mkvectors.py:75-103 | a delivered message is the data of packets consecutive in the counter, from one with the start bit to the one with the end bit that has just come, with no start bit after the first and no end bit before the last, and is no longer than the limit |
| `ReceiverHistory.NothingWithoutStart` | protocol/tools/mkvectors.py:91-94 | with nothing open, packets without the start bit deliver nothing, however many |
| `ReceiverHistory.OrphanIsReported` | protocol/tools/mkvectors.py:91-94 | a packet in step without the start bit, when nothing is open, is one reset if none is due, and nothing else |
| `ReceiverHistory.RuntIsReported` | protocol/tools/mkvectors.py:76-78 | a packet without data is a reset and changes no field |
| `ReceiverHistory.ContinueWithoutStart` | protocol/tools/mkvectors.py:189 | such a packet and a message after it |
| `LossyChannel.SelfStabilising` | protocol/tools/mkvectors.py:50-103 | from any receiver state, the packets of one message give that message and at most one reset, and leave a clean state that expects the next counter |
| `LossyChannel.EndToEnd` | protocol/tools/mkvectors.py:31-103 | encode, segment, reassemble from any state, decode: the message comes back, with at most one reset |
| `LossyChannel.StreamMod` | protocol/tools/mkvectors.py:50-63 | a stream depends on its first counter only modulo 64, so the counter a message leaves starts the next one |
| `LossyChannel.SendAll` | protocol/tools/mkvectors.py:50-63 | messages segmented one after the other, each from the counter the last one left, are the stream of all of them |
| `LossyChannel.ExactUnderLoss` | protocol/tools/mkvectors.py:50-103 | over any stream and any losses, a receiver between messages reports each gap once and each undamaged message once, in order, if and only if no run of losses that ends is a multiple of 64 long; its gap resets alone are right under the same condition |
| `LossyChannel.IdealSplit` | protocol/tools/mkvectors.py:50-103 | those reports are the undamaged messages and one gap reset per gap that ends |
| `LossyChannel.DetectableIsNoHiddenRun` | protocol/tools/mkvectors.py:75-103 | the condition on losses is that no maximal run of lost packets that a delivered one follows has a length divisible by 64 |
| `LossyChannel.LinkIsExact` | protocol/tools/mkvectors.py:50-103 | on a fresh link, with any losses, the messages that come out are exactly those whose packets all arrived and the resets exactly one gap reset per gap that ends, if and only if no run that ends is a multiple of 64 long |
| `LossyChannel.GapInsideMessage` | protocol/tools/mkvectors.py:75-103 | one gap inside a message is noticed if and only if its length is not a multiple of 64; otherwise a spliced message is delivered that nobody sent |
| `LossyChannel.GapAcrossMessages` | protocol/tools/mkvectors.py:75-103 | one gap from inside a message to inside a later one: noticed unless the counters agree, and then the front of the one and the end of the other come out as a message, or as too long |
| `GaloisField.Gmul` | protocol/tools/mkvectors.py:231-241 | the shift-and-add loop computes the product in GF(2^8) |
| `GaloisField.Commutes` | protocol/tools/mkvectors.py:231-241 | the product is commutative |
| `GaloisField.Associates` | protocol/tools/mkvectors.py:231-241 | the product is associative |
| `GaloisField.LinearRight` | protocol/tools/mkvectors.py:231-241 | the product distributes over exclusive or |
| `GaloisField.InverseLaw` | protocol/tools/mkvectors.py:244-252 | every element but 0 has an inverse, found through its 17th power in the subfield of 16; 0 is its own |
| `GaloisField.InverseUnique` | protocol/tools/mkvectors.py:244-252 | only one element multiplies to 1 |
| `GaloisField.InverseInvolution` | protocol/tools/mkvectors.py:244-252 | inverting twice gives the element back |
| `GaloisField.FiftySeven` | protocol/tools/mkvectors.py:231-241 | the worked product of section 4.2 of FIPS-197 |
| `SubBytes.SearchInverse` | protocol/tools/mkvectors.py:244-252 | the search over 1..255 finds the inverse, and 0 for 0 |
| `SubBytes.AffineLoop` | protocol/tools/mkvectors.py:253-260 | the four rotations and the constant make the affine step |
| `SubBytes.SBoxBijective` | protocol/tools/mkvectors.py:244-266 | the S-box and its inverse undo each other on every byte |
| `SubBytes.SBoxInjective` | protocol/tools/mkvectors.py:244-266 | no two bytes share an S-box value: the table is a permutation |
| `SubBytes.BuildSBox` | protocol/tools/mkvectors.py:244-263 | the table built is the S-box on all 256 bytes |
| `SubBytes.BuildInvSBox` | protocol/tools/mkvectors.py:264-266 | the table filled through the S-box's values is its inverse |
| `SubBytes.AffineBits` | protocol/tools/mkvectors.py:253-260 | each bit of the affine step is the sum of five bits and one of 0x63 |
| `SubBytes.SBoxValues` | protocol/tools/mkvectors.py:244-263 | the S-box at 0 and at 0x53, as the standard prints them |
| `Aes.ScrambleBothWays` | protocol/tools/mkvectors.py:290-301 | SubBytes then ShiftRows and their inverses undo each other, both ways |
| `Aes.MixRowsInverse` | protocol/tools/mkvectors.py:303-314 | the two MixColumns matrices are inverse to each other |
| `Aes.MixUndone` | protocol/tools/mkvectors.py:303-314 | mixing the columns of any block with one matrix and then the other changes nothing |
| `Aes.RoundsUndone` | protocol/tools/mkvectors.py:316-336 | thirteen inverse rounds undo thirteen rounds, for any round keys |
| `Aes.InvRoundsUndone` | protocol/tools/mkvectors.py:316-336 | and the other way round |
| `Aes.CipherBijective` | protocol/tools/mkvectors.py:316-336 | for any block and any 15 round keys, decryption undoes encryption and encryption undoes decryption |
| `Aes.RowsTurn` | protocol/tools/mkvectors.py:294-301 | row r is turned left by r |
| `Aes.ColumnsMix` | protocol/tools/mkvectors.py:303-314 | each byte of a mixed column is twice one byte, three times the next, and the other two once |
| `Aes.OneRound` | protocol/tools/mkvectors.py:316-324 | a round by the four equations of the standard, byte by byte |
| `Aes.EncryptIs` | protocol/tools/mkvectors.py:316-324 | a block is the first key, thirteen such rounds and one without mixing |
| `AesLoops.ExpandKey` | protocol/tools/mkvectors.py:270-284 | the key schedule's loop gives the 15 round keys of the recurrence of section 5.2 of FIPS-197 |
| `AesLoops.NextTemp` | protocol/tools/mkvectors.py:275-281 | the rotated, substituted word with its round constant |
| `AesLoops.ExpandWords` | protocol/tools/mkvectors.py:273-282 | sixty words, each from the one before it and the one eight before |
| `AesLoops.PowersOfX` | protocol/tools/mkvectors.py:231-284 | the round constants are the powers of x |
| `AesLoops.KeyBytes` | protocol/tools/mkvectors.py:270-284 | where a word of the schedule is in the round keys |
| `AesLoops.NextWord` | protocol/tools/mkvectors.py:275-282 | when a word is turned, substituted, only substituted, or taken as it is |
| `AesLoops.ExampleWords` | protocol/tools/mkvectors.py:270-284 | the first expanded words of the 256-bit key of appendix A.3 of FIPS-197 |
| `AesLoops.MixOneColumn` | protocol/tools/mkvectors.py:303-314 | one column times the matrix |
| `AesLoops.ShiftRowsLoop` | protocol/tools/mkvectors.py:294-301 | the row loops are the row rotation and its inverse |
| `AesLoops.MixColumnsLoop` | protocol/tools/mkvectors.py:303-314 | the column loops multiply each column by the matrix |
| `AesLoops.EncryptBlock` | protocol/tools/mkvectors.py:316-324 | the round loop is the cipher |
| `AesLoops.DecryptBlock` | protocol/tools/mkvectors.py:326-336 | the inverse round loop is the inverse cipher |
| `NotesCrypto.UnpadPad` | protocol/tools/mkvectors.py:338-351 | padding comes off again |
| `NotesCrypto.PadUnpad` | protocol/tools/mkvectors.py:338-351 | what unpads is the padding of the result |
| `NotesCrypto.PadShape` | protocol/tools/mkvectors.py:338-343 | the text and then n bytes of value n, n being 1 to 16 and what makes the length whole blocks |
| `NotesCrypto.UnpadWhen` | protocol/tools/mkvectors.py:344-351 | what unpads, and to what |
| `NotesCrypto.CbcUndone` | protocol/tools/mkvectors.py:354-374 | decrypting a chained encryption gives the blocks back |
| `NotesCrypto.CbcRedone` | protocol/tools/mkvectors.py:354-374 | encrypting a chained decryption gives the ciphertext back |
| `NotesCrypto.EncryptChains` | protocol/tools/mkvectors.py:354-363 | block i of the output is the encryption of block i of the text xor block i - 1 of the output, or the initial one for the first (section 6.2 of NIST SP 800-38A) |
| `NotesCrypto.DecryptChains` | protocol/tools/mkvectors.py:366-374 | and the mirror: block i of the text is the decryption of block i xor block i - 1 of what came in |
| `NotesCrypto.CbcEncryptLoop` | protocol/tools/mkvectors.py:354-363 | the block loop is the padded, chained encryption under the expanded key |
| `NotesCrypto.CbcDecryptLoop` | protocol/tools/mkvectors.py:366-374 | the block loop is the chained decryption |
| `NotesCrypto.OpenSeal` | protocol/tools/mkvectors.py:396-418 | opening a sealed note gives its text, for any passphrase, salt and key derivation |
| `NotesCrypto.SealOpen` | protocol/tools/mkvectors.py:396-418 | data that opens is, byte for byte, the sealing of its text under the salt it carries |
| `NotesCrypto.OpensIffSealed` | protocol/tools/mkvectors.py:396-418 | data opens if and only if it is a sealing of some text under some salt |
| `NotesCrypto.SealedParts` | protocol/tools/mkvectors.py:396-400 | the magic, then the salt, then the chained blocks under the derived key and initial block |
| `NotesCrypto.OpenRefuses` | protocol/tools/mkvectors.py:403-418 | which data is refused for which reason |
| `NotesCrypto.SealNote` | protocol/tools/mkvectors.py:396-400 | the container as written |
| `NotesCrypto.OpenNote` | protocol/tools/mkvectors.py:403-418 | the container as read, with the reason of each refusal |
| `RunLength.Encode` | protocol/tools/mkvectors.py:843-853 | the loop writes the greedy runs |
| `RunLength.Lossless` | protocol/tools/mkvectors.py:843-853 | expanding the greedy runs gives the pixels back, and each count fits 16 bits and is not 0 |
| `RunLength.Optimal` | protocol/tools/mkvectors.py:843-853 | no list of runs with such counts that expands to the pixels is shorter |
| `RunLength.ParseSerialise` | protocol/tools/mkvectors.py:843-853 | the four-byte records read back as the runs |
| `RunLength.RecordBytes` | protocol/tools/mkvectors.py:843-853 | in a record the count comes before the colour, each with its low byte first |
| `Areas.Union` | src/apps/ui_kitchen.cpp:358-367 | the smallest area that covers both, empty only if both are |
| `AreaLists.AreaList.Add` | src/apps/ui_kitchen.cpp:2588-2596 | no point is lost, even past the eighth area, and the list stays in whatever covers it and the new area |
| `AreaLists.AreaList.Flush` | src/apps/ui_kitchen.cpp:2597-2614 | merging ends, loses no point, and leaves no two areas worth merging; what covers the list covers what comes out, and without two areas worth merging the list comes out as it is |
| `AreaLists.AreaList.MergeFrom` | src/apps/ui_kitchen.cpp:2602-2609 | one merge, with the first later area worth it, if there is one: the list is an area shorter and shows all that it showed |
| `AreaLists.PixelsMerge` | src/apps/ui_kitchen.cpp:2606 | two pixels are worth merging exactly when they are the same or side by side, and not across a corner |
| `DirtyStage.SkippingIsSafe` | src/apps/ui_kitchen.cpp:2376-2382 | leaving out the parts that miss the clip area changes no pixel in it |
| `DirtyStage.DrawnIsFull` | src/apps/ui_kitchen.cpp:2453-2469 | a pixel drawn through a clip area is the pixel of a full redraw |
| `DirtyStage.NearestShows` | src/apps/ui_kitchen.cpp:2453-2469 | a pixel has the colour of the nearest layer that is solid there, when all that is nearer is clear: the board behind all, the knife inside the cucumber, the slices in the air before the pile, the peeler before the potato |
| `DirtyStage.UntouchedStays` | src/apps/ui_kitchen.cpp:2624-2667 | outside the old and new areas of what moved nothing changes |
| `DirtyStage.Stage.InvalidateMoved` | src/apps/ui_kitchen.cpp:2624-2667 | the areas asked for cover the old and the new area of every moved part and what the pile or potato changed, or the whole stage when the kept areas are of another stage or view; the kept areas are the new ones; nothing is asked for beyond what covers those areas |
| `DirtyStage.Stage.Measure` | src/apps/ui_kitchen.cpp:2653-2657 | a part is measured anew, and the area it had and the one it has are listed |
| `DirtyStage.Stage.RunFrame` | src/apps/ui_kitchen.cpp:2673-2686 | a frame keeps the invariant: wherever nothing is asked to be redrawn the screen shows the new world, and the kept areas are its own, in the view they were measured in |
| `DirtyStage.Stage.Draw` | src/apps/ui_kitchen.cpp:2453-2469 | a draw through a clip shows the full picture in it, of the world as this draw has made it, and leaves the rest of the screen |
| `DirtyStage.Stage.Refresh` | src/apps/ui_kitchen.cpp:2453-2483 | the display joins and cuts the areas asked for as it likes and redraws them clip by clip: if nothing of the world changes as it is drawn, the whole stage shows the full picture afterwards, and nothing else on the screen has changed |
| `DirtyStage.Stage.Resize` | src/apps/ui_kitchen.cpp:2427-2445 | a stage laid out anew is redrawn whole, while the areas kept for the former view stay good for it |
| `KitchenBase.PileIsBase` | src/apps/ui_kitchen.cpp:2635-2638 | a frame redraws all that changed of the board and the pile when it redraws the area outside which the two piles look the same |
| `KitchenBase.UpdatePile` | src/apps/ui_kitchen.cpp:2635-2638 | the area that the pile's update returns is such an area, for any step of a game: the pile changes nowhere else |
| `KitchenBase.PotatoIsBase` | src/apps/ui_kitchen.cpp:1862-1868 | the image draws nothing outside the whole of it, so a change of the image changes the picture only where its pixels changed |
| `PotatoScreen.Screen.UpdateImage` | src/apps/ui_kitchen.cpp:1797-1856 | the area that the update returns covers all that it changes of the picture in this view, be it a recolour, a cast, or an image that could be had only now; the image is there afterwards exactly when it was before or memory was found |
| `PotatoScreen.Screen.RunFrame` | src/apps/ui_kitchen.cpp:2673-2686 | a frame of the potato, with its update and its flags, keeps: but for what is asked to be redrawn, the screen shows the game |
| `PotatoScreen.Screen.DrawAll` | src/apps/ui_kitchen.cpp:1858-1868 | the draws of a redraw, each with the update whose area it drops: clips from the first draw on that has the image show it, those before do not, the rest of the screen stays |
| `PotatoScreen.RightIffSafe` | src/apps/ui_kitchen.cpp:1858-1861 | what such draws leave is right if and only if the image was there, or did not get there, or all of it that is seen lies in the clips from that draw on |
| `PotatoScreen.Screen.Redraw` | src/apps/ui_kitchen.cpp:1858-1868 | so a redraw of a stage that was right ends in the picture of the game if and only if it is safe in this sense |
| `PotatoScreen.Screen.SafeWhen` | src/apps/ui_kitchen.cpp:1802-1807 | a redraw is safe when no draw finds memory, or the first one does while all of the stage is asked for or the image is there |
| `PotatoScreen.Screen.Play` | src/apps/ui_kitchen.cpp:2673-2686 | in any run of the potato, the screen is right after every redraw if and only if every redraw was safe; and so it is when every redraw finds memory from its first draw on, or none ever does |
| `PotatoScreen.LosePotato` | src/apps/ui_kitchen.cpp:1858-1861 | a run in which a frame and a redraw find no memory and the redraw of an exposed corner does: the potato is drawn in the corner only, and the next frame and redraw leave it so |
| `CucumberScreen.WorldIsGood` | src/apps/ui_kitchen.cpp:2462-2468 | the scene of a moment of the first game is one whose parts paint inside their areas |
| `CucumberScreen.FrameMoves` | src/apps/ui_kitchen.cpp:2509-2545 | what a frame changes of the scene is what its flags and the pile's area say |
| `CucumberScreen.Screen.RunFrame` | src/apps/ui_kitchen.cpp:2673-2686 | a frame of the first game, with its pile and its flags, keeps: but for what is asked to be redrawn, the screen shows the game |
| `CucumberScreen.Screen.Play` | src/apps/ui_kitchen.cpp:2673-2686 | after any run of turns, frames, new games, resizes, exposures and redraws that ends in a redraw, the screen shows the game, whatever bakes failed |
| `DirtyStage.Stage.Play` | src/apps/ui_kitchen.cpp:2673-2686 | after any run of frames, restarts, resizes, exposures and redraws, in any order, that ends in a redraw, the screen is what a full redraw would show: no trails, as long as drawing changes nothing |
| `DirtyStage.Stage.Reset` | src/apps/ui_kitchen.cpp:843-887 | a new game or stage trusts nothing kept and has all of the stage redrawn |
| `StripIndex.PickIsLocal` | src/apps/ui_kitchen.cpp:1565-1571 | a pixel's look depends only on the strips it sees |
| `PeelLook.Packed` | src/apps/ui_kitchen.cpp:1501-1502 | two strips go into a byte: the pixel's own and the one above, the right and the left one |
| `PeelLook.FleshWhen` | src/apps/ui_kitchen.cpp:1566-1571 | flesh exactly where the pixel's own strip is peeled down past it |
| `PeelLook.SkinWhen` | src/apps/ui_kitchen.cpp:1566-1571 | skin where every line that the pixel sees is above it by the edge, and only where none is below it |
| `PeelLook.RimWhen` | src/apps/ui_kitchen.cpp:1566-1571 | a rim only where the pixel's own strip is not peeled past it and a line that it sees is within the edge above it, or below it |
| `PeelLook.PeelsOn` | src/apps/ui_kitchen.cpp:1566-1571 | lowering peel lines never turns flesh to rim or skin, nor rim to skin |
| `PeelLook.PeeledShowsFlesh` | src/apps/ui_kitchen.cpp:1371-1378 | every pixel of a strip that is drawn peeled is flesh in the full image |
| `PeelLook.ReleasedIsBare` | src/apps/ui_kitchen.cpp:1354-1378 | in a game, from just before its release point on, a strip is flesh on all its pixels |
| `PeelLook.UntouchedShowsSkin` | src/apps/ui_kitchen.cpp:1371-1378 | a pixel of whose strips none has been begun is skin |
| `PeelLook.BackgroundIsClear` | src/apps/ui_kitchen.cpp:1634-1641 | beside the potato the image is clear |
| `StripIndex.PxStrips` | src/apps/ui_kitchen.cpp:1573-1583 | the strips a pixel sees, each once |
| `StripIndex.CountPixels` | src/apps/ui_kitchen.cpp:1714-1719 | how many pixels see each strip |
| `StripIndex.CountStrips` | src/apps/ui_kitchen.cpp:1720-1721 | the prefix sums of the strips' pixel counts |
| `StripIndex.FillList` | src/apps/ui_kitchen.cpp:1728-1741 | the list cut at the starts gives each strip's pixels in order, and each strip's box is around them |
| `StripIndex.BoxIsTight` | src/apps/ui_kitchen.cpp:1728-1741 | and no more than around them |
| `StripIndex.RowByRow` | src/apps/ui_kitchen.cpp:1634-1636 | pixels go along the rows from the top left |
| `PotatoImage.PotatoImage.FullCast` | src/apps/ui_kitchen.cpp:1659-1742 | the whole picture is drawn; if it reports success the cache and the index are complete |
| `PotatoImage.RecolourStrip` | src/apps/ui_kitchen.cpp:1835-1842 | after re-picking a strip's part of the list every pixel that sees it shows the new peel, and no other pixel changed |
| `PotatoImage.PotatoImage.Recolour` | src/apps/ui_kitchen.cpp:1831-1845 | recolouring through the index gives the picture of a full cast under the new peel, and every changed pixel is in the area returned, which is no larger than what covers the boxes of the strips that moved, grown by the eye |
| `PotatoImage.PotatoImage.NewPotato` | src/apps/ui_kitchen.cpp:866-884 | a fresh potato's picture is cast anew |
| `PotatoImage.PotatoImage.Reserve` | src/apps/ui_kitchen.cpp:1799-1807 | a buffer of the layout's size is kept or got; a new one holds no picture |
| `PotatoImage.PotatoImage.Recast` | src/apps/ui_kitchen.cpp:1810-1820 | a full cast for a new spin, layout or potato |
| `PotatoImage.PotatoImage.Update` | src/apps/ui_kitchen.cpp:1797-1856 | whatever path is taken, and whatever memory gives out, a valid image is the full picture; every changed pixel of a kept image lies in the area returned, and a pose that is shown already returns none |
| `Slices.PileTop` | src/apps/ui_kitchen.cpp:900-910 | the height is the highest top that holds the spot up, or the surface |
| `Slices.SurfacesApart` | src/apps/ui_kitchen.cpp:903-908 | what lies on the board holds nothing up on the table, nor the other way round, and the tip holds nothing up |
| `Slices.Spawn` | src/apps/ui_kitchen.cpp:912-938 | the new slice lies on the lowest of its ten spots, the first among equals, and rests on the pile: slices dropped on the board never reach into one another |
| `Slices.CountLandedLoop` | src/apps/ui_kitchen.cpp:1120-1125 | the loop counts the landed slices |
| `Slices.LandedIsPrefix` | src/apps/ui_kitchen.cpp:1118-1125 | the landed slices are the first ones cut |
| `Slices.CountDetermines` | src/apps/ui_kitchen.cpp:1171-1179 | at two moments of one game an equal count means the very same landed slices |
| `Slices.ArmedWhenUp` | src/apps/ui_kitchen.cpp:810-815 | on the knife's travel the wave is past its mark for arming exactly within 0.6 of the top |
| `Slices.CucumberGame.NewGame` | src/apps/ui_kitchen.cpp:843-849 | a new game has a whole cucumber and no slices |
| `Slices.CucumberGame.Turn` | src/apps/ui_kitchen.cpp:2689-2700 | the wheel moves the knife's target, which stays on its travel |
| `Slices.CucumberGame.Cut` | src/apps/ui_kitchen.cpp:940-951 | a cut takes one slice off the cucumber and adds it to the pile, up to 39, with all of its flight ahead of it; the cucumber's face is back at the knife and owes a move |
| `Slices.CucumberGame.Fly` | src/apps/ui_kitchen.cpp:2537-2543 | slices in the air fly on, clamped at landing; landed ones do not change |
| `Slices.CucumberGame.Rearm` | src/apps/ui_kitchen.cpp:2523-2535 | the knife is armed again exactly when up, and the cucumber then starts to move on after a cut; it slides exactly when its face is more than 0.001 from its target, as `Cutting.SlideCloses` says |
| `Slices.CucumberGame.Step` | src/apps/ui_kitchen.cpp:2509-2545 | a frame cuts exactly when the armed blade reaches the board going down with enough cucumber under it, and only if some frame since the last cut has ended with the knife within 0.6 of the top; it is the step of the machine of which `Cutting` speaks; the cucumber is flagged exactly when it is cut or slides; what was cut flies on by this frame; a part whose flag is not set is as it was |
| `Cutting.FedWhen` | src/apps/ui_kitchen.cpp:2523-2529 | the knife is armed when it was or is within 0.6 of the top; a move owed since a cut is started then, and only so does the target move |
| `Cutting.SlideCloses` | src/apps/ui_kitchen.cpp:2531-2535 | a frame closes the gap to the target by the factor 1 - min(1, 14 dt), or to nothing when that leaves less than 0.005; a gap of 0.001 stays |
| `Cutting.Arrives` | src/apps/ui_kitchen.cpp:2499-2507 | frames worth 150 full ones bring the knife to within 0.001 of where the wheel wants it, from anywhere on its travel |
| `Cutting.UpMakesReady` | src/apps/ui_kitchen.cpp:2523-2535 | after a cut, more than 3/28 of a second with the knife up, in frames of any lengths, brings more than 0.6 of a slice under it, armed, and cuts nothing |
| `Cutting.StrokeCuts` | src/apps/ui_kitchen.cpp:2509-2521 | from there the way down is one slice as soon as the knife arrives, and only one |
| `Cutting.RoundCuts` | src/apps/ui_kitchen.cpp:2509-2545 | so a full turn of the wheel, up and down with frames enough, is one slice more |
| `Cutting.WholeGame` | src/apps/ui_kitchen.cpp:2509-2545 | a game of n full turns ends with n slices, or with 39 and no more when n is larger |
| `Cutting.AnyRate` | src/apps/ui_kitchen.cpp:2509-2545 | at any frame rate there are such turns |
| `PileCache.PileImage.Passes` | src/apps/ui_kitchen.cpp:1171-1179 | the kept pile stays good while the game goes on |
| `PileCache.PileImage.ReadyIsCurrent` | src/apps/ui_kitchen.cpp:1171-1179 | a kept pile with this count and view is the pile of this moment |
| `PileCache.GrownInside` | src/apps/ui_kitchen.cpp:1222-1233 | the pile of a game only grows, so the area of the pile there is now covers all that changed of it |
| `PileCache.PileImage.Draw` | src/apps/ui_kitchen.cpp:1266-1278 | what is drawn is always the landed pile, baked or live |
| `PileCache.PileImage.Bake` | src/apps/ui_kitchen.cpp:1240-1263 | a bake succeeds exactly when every step of it does; otherwise nothing is kept |
| `PileCache.PileImage.Update` | src/apps/ui_kitchen.cpp:1222-1264 | the pile is baked again unless this one is kept or was given up on, and outside the area returned the pile looks as it did at the last draw, baked or live, whatever failed then or now |
| `PileCache.PileImage.NewGame` | src/apps/ui_kitchen.cpp:843-856 | a new game trusts no kept pile |
| `Painter.Best` | src/apps/ui_kitchen.cpp:1144-1151 | the inner loops pick the furthest slice that rests on nothing still to be drawn, the first cut among equals |
| `Painter.NearerIsLater` | src/apps/ui_kitchen.cpp:1129-1158 | of two free slices the one nearer to the eye is drawn later |
| `Painter.DrawLanded` | src/apps/ui_kitchen.cpp:1129-1158 | the order drawn is the painter's order, complete unless the room for tasks ran out |
| `Painter.SomeFree` | src/apps/ui_kitchen.cpp:1143-1152 | while a landed slice waits, some waiting slice is free: the loop cannot stop early |
| `Painter.PaintedIsTopological` | src/apps/ui_kitchen.cpp:1129-1158 | no slice is drawn twice or in the air, and each comes after all the landed slices it rests on |
| `Painter.OneOrder` | src/apps/ui_kitchen.cpp:1129-1158 | the order is a function of the slices |
| `Painter.PileDrawnUpward` | src/apps/ui_kitchen.cpp:912-951 | slices that overlap on the board are drawn in the order they were cut |
| `Crank.KnifeOnTravel` | src/apps/kitchen_crank.h:16-19 | the knife goes to the place of its travel that is nearest to where the wheel wants it |
| `Crank.TargetKeepsStrip` | src/apps/kitchen_crank.h:25-35 | the peeler's target stays in its strip until the top, never passes the bottom on the stroke nor comes back over it, and otherwise follows the wheel |
| `Crank.TargetIsNearest` | src/apps/kitchen_crank.h:25-35 | the target goes to the nearest place it may: between start and bottom to where the wheel pushes it on the stroke, and on the return, where the wheel pulls the other way, up to the top or back to the bottom |
| `Crank.EaseBetween` | src/apps/ui_kitchen.cpp:2499-2507 | a frame's step stays between the blade and its target and within 0.45 of a period |
| `Peeler.EasedSound` | src/apps/ui_kitchen.cpp:2547-2563 | every frame keeps the count in step with the release points, takes at most one strip off, and never falls back a strip |
| `Peeler.Potato.ReleasedOnce` | src/apps/ui_kitchen.cpp:2553-2562 | as many strips are off as release points the blade has ever reached; the one on show is the last of them or the next |
| `Peeler.ShownGrows` | src/apps/ui_kitchen.cpp:1354-1364 | what is shown is the strip the blade is in and the part of its stroke that is done, and never less as the blade goes on |
| `Peeler.Potato.ShownAgrees` | src/apps/ui_kitchen.cpp:1354-1378 | a strip is drawn peeled exactly from 0.002 before its release point on; a strip that is off and drawn with its skin is the one on show, with the blade taken back from a release point it had reached |
| `Peeler.BackedUp` | src/apps/ui_kitchen.cpp:1354-1364 | past the release point the wheel can still show the strip's skin again exactly until the target counts as returning |
| `Peeler.ShowSkinAgain` | src/apps/ui_kitchen.cpp:2689-2700 | a game does get there: two turns of the wheel and three frames leave strip 0 off and drawn with its skin |
| `Peeler.Potato.Crank` | src/apps/ui_kitchen.cpp:2689-2700 | the wheel moves the target as the header says, until the potato is done |
| `Peeler.Potato.FinishStrip` | src/apps/ui_kitchen.cpp:2406-2422 | a peel flies; with four in the air the oldest is dropped, and no other |
| `Peeler.Potato.AgeShavings` | src/apps/ui_kitchen.cpp:2566-2574 | the compaction keeps exactly the peels whose time is not up |
| `Peeler.KeptAreYoungest` | src/apps/ui_kitchen.cpp:2566-2574 | those that stay are the youngest, and all that go are past their time |
| `Peeler.Potato.Turn` | src/apps/ui_kitchen.cpp:2547-2563 | a frame eases the blade and takes at most one strip off (at its release point, by `Peeler.Potato.ReleasedOnce`), whose peel joins those in the air |
| `Peeler.Potato.Step` | src/apps/ui_kitchen.cpp:2547-2575 | a frame eases the blade and keeps all of this; the peels in the air are the last strips released; a part whose flag is not set is as it was |
| `EarClipping.OutlineArea` | src/apps/ui_kitchen.cpp:2106-2107 | the fan from the first point is the shoelace area of the outline |
| `EarClipping.ClipArea` | src/apps/ui_kitchen.cpp:2016-2037 | taking a corner off takes exactly its triangle's area off |
| `EarClipping.AreaConserved` | src/apps/ui_kitchen.cpp:2011-2042 | the ears and the ring that is left have the area of the outline |
| `EarClipping.EarsTurnAsOutline` | src/apps/ui_kitchen.cpp:2011-2042 | every ear turns the outline's way by more than the threshold, one vertex goes with each, and clipping stops at three or where no corner is an ear |
| `EarClipping.NothingInside` | src/apps/ui_kitchen.cpp:2021-2029 | no later triangle has a corner inside an earlier ear |
| `EarClipping.IsEar` | src/apps/ui_kitchen.cpp:2019-2029 | the two tests on a corner |
| `EarClipping.InsideWhen` | src/apps/ui_kitchen.cpp:2021-2029 | a vertex is inside a corner exactly when each of its weights, times the triangle's area, is above the margin |
| `EarClipping.ClipOne` | src/apps/ui_kitchen.cpp:2017-2036 | the first ear in ring order is clipped and the positions close up |
| `EarClipping.CloseUp` | src/apps/ui_kitchen.cpp:2033 | the later positions move up by one |
| `EarClipping.Triangulate` | src/apps/ui_kitchen.cpp:2011-2042 | the loop gives the ears and, at three vertices, the last triangle; its round limit never ends it |
| `EarClipping.FullTriangulation` | src/apps/ui_kitchen.cpp:2038-2041 | down to three vertices there are n - 2 triangles, and together they have the outline's area |
| `SpriteCache.KeyTells` | src/apps/ui_kitchen.cpp:2164 | two poses share a key exactly when only whole turns of the roll's counter tell them apart; poses in range never do |
| `SpriteCache.Sprites.Evict` | src/apps/ui_kitchen.cpp:2148-2155 | the last slot takes the freed place, and the byte count follows |
| `SpriteCache.Sprites.SetScale` | src/apps/ui_kitchen.cpp:2290-2296 | another scale empties the cache |
| `SpriteCache.Sprites.Lookup` | src/apps/ui_kitchen.cpp:2298-2302 | a key's slot is found if there is one |
| `SpriteCache.Sprites.Oldest` | src/apps/ui_kitchen.cpp:2316-2318 | the least recently used slot |
| `SpriteCache.Sprites.MakeRoom` | src/apps/ui_kitchen.cpp:2315-2320 | sprites go only while there is no room, least recently used first; with the last of them kept there was no room yet |
| `SpriteCache.Sprites.Get` | src/apps/ui_kitchen.cpp:2288-2351 | a sprite returned is what drawing the pose live would show; the budget holds; a pose that is there is found and nothing goes |
| `JournalIndex.EntryHere` | src/apps/ui_journal.cpp:145-166 | an entry is read back as written, cut to what its length fields hold, or refused if a byte of it is missing |
| `JournalIndex.HeaderLayout` | src/apps/ui_journal.cpp:170-181 | the letters LNRJ, the version, and the count from its low byte up |
| `JournalIndex.EntryLayout` | src/apps/ui_journal.cpp:182-192 | stamp, name behind its length, snippet behind its two bytes of length, and 1 for a snippet that is cut, each byte at its place |
| `JournalIndex.ReadWrite` | src/apps/ui_journal.cpp:121-192 | a file that begins with a saved index, cut off anywhere or going on after it, gives the entries while their bytes are all there; one byte less and it is refused with only some first entries read |
| `JournalIndex.RoundTrip` | src/apps/ui_journal.cpp:121-192 | fewer than 2^32 entries that fit come back unchanged, and no strict prefix of the file is accepted |
| `JournalIndex.SaveIndex` | src/apps/ui_journal.cpp:170-192 | the writer's loop |
| `JournalIndex.AppendEntry` | src/apps/ui_journal.cpp:182-192 | the writer's loop body |
| `JournalIndex.LoadEntry` | src/apps/ui_journal.cpp:145-166 | the reader's loop body, every read within the file |
| `JournalIndex.LoadIndex` | src/apps/ui_journal.cpp:121-168 | the reader's loop, with what it leaves behind when it fails |
| `JournalRefresh.ScanUnique` | src/apps/ui_journal.cpp:253-265 | there is only one name-descending list of all notes with their contents |
| `JournalRefresh.ScanOfSame` | src/apps/ui_journal.cpp:253-265 | a scan of one state of the notes is one of another exactly when names, stamps and contents are the same |
| `JournalRefresh.RemoveTasks` | src/apps/ui_journal.cpp:256-260 | the to-do file is taken out and nothing else |
| `JournalRefresh.TasksNames` | src/apps/ui_journal.cpp:256-260 | the to-do file is tasks.txt, with a slash before it or without |
| `JournalRefresh.SortDescending` | src/apps/ui_journal.cpp:262-265 | the names in falling order, none lost |
| `JournalRefresh.LessWhen` | src/apps/ui_journal.cpp:262-265 | the first byte in which two names differ decides, and a name comes before one that goes on after it |
| `JournalRefresh.MapNames` | src/apps/ui_journal.cpp:279-282 | a name leads to its last entry |
| `JournalRefresh.Rebuild` | src/apps/ui_journal.cpp:284-325 | an entry is kept exactly when its name is known with the same stamp; the others are read |
| `JournalRefresh.KeptIsPermutation` | src/apps/ui_journal.cpp:286-325 | when nothing was read and the number is the same, the old entries are a permutation of the new |
| `JournalRefresh.Refresh` | src/apps/ui_journal.cpp:235-338 | the incremental result is the full scan; exactly the new and changed notes are read; it is dirty exactly when one was or the number changed, and otherwise the old entries are a permutation |
| `JournalPage.Journal.OnLock` | src/apps/ui_journal.cpp:443-450 | a lock of encrypted notes drops the list and the results under way; `JournalEdits.LockForgets` says what is left |
| `JournalPage.Journal.StartBgRefresh` | src/apps/ui_journal.cpp:487-506 | a running worker is taken back instead of starting another |
| `JournalPage.Journal.BgRefreshDone` | src/apps/ui_journal.cpp:542-573 | the in-place callback, with the page built again inside it, is the step that `JournalWorker.FreshIsScan` and `JournalWorker.LandsWhen` speak of |
| `JournalPage.Journal.Deliver` | src/core/one_shot_job.h:158-171 | a result goes to that callback unless its worker was let go of: the delivery in the steps of `JournalWorker` |
| `JournalPage.Journal.DeleteConfirmed` | src/apps/ui_journal.cpp:647-663 | a delete takes the note out of the list, and no other (`JournalEdits.DeleteTakesOut`), and drops the results under way |
| `JournalPage.Journal.Build` | src/apps/ui_journal.cpp:768-813 | the page shows the list in memory or the index, and is redone when it may be stale |
| `JournalPage.Journal.Exit` | src/apps/ui_journal.cpp:1028-1042 | leaving lets go of the worker without stopping it |
| `JournalPage.AfterRefreshIs` | src/apps/ui_journal.cpp:542-573 | the callback leaves the list there was, or the result, or, when the result is empty and the page is built again, what the index gives; the result is taken for fresh only if the generation has not moved |
| `JournalEdits.LockForgets` | src/apps/ui_journal.cpp:443-450 | after a lock of encrypted notes the list in memory is empty and not taken for fresh; of plain notes a lock changes nothing |
| `JournalEdits.EmptyStays` | src/apps/ui_journal.cpp:443-573 | an empty list is filled exactly by a step in which the page loads the index or a result lands, and one that is not taken for fresh becomes so only by such a step or a delete |
| `JournalEdits.LockedStaysEmpty` | src/apps/ui_journal.cpp:443-573 | in any run, after a lock the list is empty at every later state until such a step, and not taken for fresh until such a step or a delete |
| `JournalEdits.WithoutIs` | src/apps/ui_journal.cpp:650-652 | taking a name out keeps every other entry, as often as it was there, and none of that name |
| `JournalEdits.WithoutJoin` | src/apps/ui_journal.cpp:650-652 | and keeps their order |
| `JournalEdits.DeleteTakesOut` | src/apps/ui_journal.cpp:647-663 | after a delete the list holds every other entry and only those, in order, and the index is that list; the dirty flag stays only for a worker that may still rewrite the index |
| `JournalEdits.StartTakesBack` | src/apps/ui_journal.cpp:487-506 | asking for a refresh takes a running worker back, or starts one on the list, the count of edits and the generation there are |
| `JournalEdits.LeftNeverLands` | src/apps/ui_journal.cpp:1028-1042 | in any run, the result of a worker that was running when the page was left lands only if it was asked for again in between |
| `JournalEdits.FirstRunIsRetried` | src/apps/ui_journal.cpp:542-554 | a first refresh whose result is dropped, with the page up, is tried again |
| `JournalEdits.StalePageIsRedone` | src/apps/ui_journal.cpp:768-813 | a page that is up and not taken for fresh has its refresh ahead of it: every step but a lock keeps that |
| `JournalEdits.DirtyUntilDealtWith` | src/apps/ui_journal.cpp:542-573 | the note that files have changed is dropped only by a page that is built and not taken for fresh, by a delete with no worker, or by a result with nothing written since its snapshot and its index saved |
| `NoteWriters.EarlyPlansAreWell` | src/hal/storage.cpp:1091-1095 | saves and deletes of the device raise the generation and stamp the note before they change it, and give every name they fill a stamp |
| `NoteWriters.FailedEarlyPlansAreWell` | src/hal/storage.cpp:517-538 | and so do those that fail on the way |
| `NoteWriters.LinkPlansAreWell` | src/hal/link/handlers_fs.cpp:516-533 | writes, deletes and renames over the link change the files first, then stamp, and raise the generation after every stamp they give late |
| `NoteWriters.FailedLinkWriteIsNot` | src/hal/link/handlers_fs.cpp:519-529 | a link write that has removed the old file and cannot rename the new one ends without raising the generation |
| `NoteWriters.WhenPlansBump` | src/hal/storage.cpp:1091-1095 | writers of the device raise the generation first and stamp before they change; those over the link change, stamp and raise last |
| `JournalEdits.SavesLeave` | src/hal/storage.cpp:1091-1095 | a save, in line, queued or over the link, leaves the note with its text and a stamp of its own, and everything else as it was |
| `JournalEdits.DeletesLeave` | src/hal/storage.cpp:517-538 | a delete leaves everything but the note, and its name a new stamp |
| `JournalEdits.DeletePathsLeave` | src/hal/storage.cpp:575-596 | deleting paths leaves everything but them, and gives no stamps |
| `JournalEdits.RenameLeaves` | src/hal/link/handlers_fs.cpp:617-648 | a rename over the link leaves the text under the other name, with a stamp of its own |
| `JournalWorker.StepKeeps` | src/apps/ui_journal.cpp:443-573 | every orderly step of the UI, the worker and the writers keeps: an entry with its name's stamp says what the file says or its stamp is about to change, and a scan in calm is so far what a scan would give |
| `JournalWorker.RunKeeps` | src/apps/ui_journal.cpp:443-573 | so does every run of orderly steps: writes of the kinds in `NoteWriters`, no read between a stamp and its text, restarts with the index settled |
| `JournalWorker.RestartKeeps` | src/hal/storage.cpp:467-499 | a restart, which forgets the stamps, leaves everything in order if and only if every entry without a stamp whose note was touched, or owed a stamp, says what the note says |
| `JournalWorker.FreshIsScan` | src/apps/ui_journal.cpp:542-573 | in every such run, a page that the callback leaves with a new list taken for fresh, built again or not, shows the scan of the file system at that moment, if no write was announced and unfinished at the start of the scan, none has begun and is still to raise the generation, and the counters have not gone once round |
| `JournalWorker.LandsWhen` | src/apps/ui_journal.cpp:548-554 | a result lands exactly when it is still wanted and the edits since its snapshot are a multiple of 2^32 |
| `JournalWorker.LockAndDeleteEdit` | src/apps/ui_journal.cpp:443-450 | a lock of encrypted notes and a delete are such edits |
| `JournalWorker.StaleNeverLands` | src/apps/ui_journal.cpp:443-573 | whatever happens in between, what a worker took before a delete or a lock never becomes the list after it, short of 2^32 edits |
| `JournalWorker.LateWriteIsMissed` | src/hal/link/handlers_fs.cpp:516-533 | whatever a write changes while the generation is still to be raised, a result leaves the very same page; if it was a scan before, it is one after exactly when the notes are still the same |
| `JournalRuns.LateRunIsStale` | src/hal/link/handlers_fs.cpp:516-533 | a whole run, from the first building of the page, in which a note written over the link is missed so: the list is taken for fresh and the note is not in it |
| `JournalRuns.TornReadStays` | src/hal/storage.cpp:1262-1273 | a whole run in which a scan reads a note between its stamp and its text, when a save is carried out in line; the next scan, with nothing being written, keeps the old text for fresh |
| `JournalRuns.FailedRunIsStale` | src/hal/link/handlers_fs.cpp:519-529 | a whole run in which a link write removes a note and cannot put the new one there: with no write to raise anything any more, the list is taken for fresh and has the note in it |
| `JournalRuns.RestartIsStale` | src/hal/storage.cpp:467-474 | a whole run over a restart: a note saved and not listed since has stamp 0 again, as the index has it from before, and the text from before the save is taken for fresh |
| `Numerals.ReadPrint` | src/apps/tg_favs.h:32-33 | reading a printed 64-bit number gives it back, the least negative one included |
| `Numerals.ReadsNumber` | src/apps/tg_favs.h:32-33 | a number behind blanks and before something that is no digit is read, or else the nearest one there is |
| `Numerals.DigitsWeigh` | src/apps/tg_favs.h:55 | the first digit printed counts the most |
| `Numerals.SomeNumbers` | src/apps/tg_favs.h:32-33 | some texts and what is read of them |
| `Favourites.DecodeIds` | src/apps/tg_favs.h:27-35 | the id loop keeps the parts that read as a number other than 0 |
| `Favourites.PatchTitle` | src/apps/tg_favs.h:41-47 | a record's title goes to every favourite with its id |
| `Favourites.DecodeFavourites` | src/apps/tg_favs.h:25-51 | the two loops are the decoding |
| `Favourites.Encode` | src/apps/tg_favs.h:53-68 | the loop is the encoding, and it decodes to the list exactly when that is well formed |
| `Favourites.DecodeWellFormed` | src/apps/tg_favs.h:25-51 | whatever is stored, the list read has no id 0, no record separator in a title, and one title per id |
| `Favourites.RoundTrip` | src/apps/tg_favs.h:25-68 | decoding the encoding gives the list back if and only if it has no id 0, no record separator in a title, and one title per id |
| `Favourites.StoredForm` | src/apps/tg_favs.h:53-68 | what is stored: the ids with commas between, and each title behind its id, closed by a record separator |
| `Favourites.DecodeEncodeDecode` | src/apps/tg_favs.h:25-68 | for any two strings, decoding, encoding and decoding again is decoding |
| `Numerals.ReadPrintHex` | src/apps/ui_chat.cpp:420-421 | a printed hexadecimal size reads as itself |
| `Numerals.DigitValues` | src/apps/ui_chat.cpp:420-421 | the digits' values, in either case |
| `ChunkedBody.ReadChunk` | src/apps/ui_chat.cpp:417-427 | one pass of the loop, with the sum that may wrap |
| `ChunkedBody.Decode` | src/apps/ui_chat.cpp:413-428 | the loop watched for a number of passes; it has stopped with the meant text by as many as the body is long, unless the last header wraps |
| `ChunkedBody.PassIsMeant` | src/apps/ui_chat.cpp:418-426 | a pass does what it should exactly when its header's size does not wrap |
| `ChunkedBody.StopsAsMeant` | src/apps/ui_chat.cpp:413-428 | the loop stops when it should with what it should have decoded if and only if the header it should stop at names no size that wraps |
| `ChunkedBody.EndsWhen` | src/apps/ui_chat.cpp:413-428 | the loop ends if and only if it has ended after one pass more than the body has characters: otherwise it goes round for ever |
| `ChunkedBody.ReadForEver` | src/apps/ui_chat.cpp:418-426 | a header whose size wraps back to the header itself is read for ever |
| `ChunkedBody.LoopsForEver` | src/apps/ui_chat.cpp:413-428 | such a body on a 32-bit processor |
| `ChunkedBody.DecodesPrefix` | src/apps/ui_chat.cpp:413-428 | from any prefix of the encoding of non-empty chunks the loop stops with the data of the chunks that are whole, a prefix of the payload; from all of it, with the payload |
| `ChunkedBody.PlainHeaders` | src/apps/ui_chat.cpp:413-428 | a size in hexadecimal is a header of this kind, and 0 ends the body |
| `ChatLog.ChatLog.Clear` | src/apps/ui_chat.cpp:851 | the transcript starts anew |
| `ChatLog.ChatLog.Append` | src/apps/ui_chat.cpp:171-190 | the transcript kept is the end of all that was said, within its bound, from a line break on where there is one; the label shows exactly the text kept if and only if no NUL is in it, and never more |

## Left out

- JournalWorker.FreshIsScan: goes one way only, because a write that has begun and is still to raise the generation may have changed nothing but what the scan had already read; `JournalWorker.LateWriteIsMissed` says exactly when one write is missed, and the conditions on begun writes, plans, reads and restarts each have a run in `JournalRuns` that fails for want of them.
- JournalWorker.RunKeeps: assumes orderly steps, as the runs of `JournalRuns` show it must, and does not model the wrap of the stamps after 2^32 of them, nor a stamp given anew after a restart that an old entry happens to have.
- JournalWorker.StepKeeps: does not model that old notes are moved to the card, which changes none of them.
- JournalIndex.LoadIndex: does not model the room reserved for the stored count, for want of which the program ends before it reads an entry.
- LossyChannel.LinkIsExact: is about messages and resets together; for which losses the messages alone are wrong is shown for one gap by `LossyChannel.GapAcrossMessages`, and not for several hidden gaps.
- SpriteCache.Sprites.Get: does not model the wrap of the 32-bit use clock, after which the least recently used order is lost.
- Slices.Spawn: slices that drop on the table are not shown to stay clear of one another, because the surface is told by the sign of a height.
- PotatoImage.PotatoImage.FullCast: the fast cast of 2x2 blocks is any cast; only what is done with its samples is modelled.
- Peeler.Potato.FinishStrip: a peel's shape, velocity and axis are not modelled, only which strip it came off and its time in the air.
- Reading and writing the index under encryption, and the rest of the journal's user interface.
- PBKDF2, SHA-1, SHA-256, checksums and signatures.
- Antialiasing, projection and rounding of the Kitchen's geometry, the potato's eyes and the ribbon.
- The settings catalogue, messaging checks and delivery tables of the reference tool: finite tables or single checks.
- Sockets, timers, tasks, storage and the display library: their outcomes are parameters or steps.
