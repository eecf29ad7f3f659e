# WS500-OpenFW in Dafny

A Dafny model of the decision-making core of the WS500-OpenFW alternator regulator, and proofs
about it. `dafny verify dfyconfig.toml` checks the whole project.

Code that changes state in place is modelled by classes and loops whose contracts tie the new
state to a pure specification; what the firmware promises is then proved about that
specification, over all inputs, all runs or all interleavings.

| files | what they model |
|---|---|
| `AddrClaim*` | address claim after section 4.4.3 of ISO 11783-5: one node, a bus of nodes with bounded delays, its progress, and the exact timing bound |
| `Crc32`, `CrcPoly`, `Eeprom`, `Config{Codec,Layout,Frame,Packer,Store,Crash}` | the power-fail-safe config store, from the CRC as a polynomial remainder and the wrapping EEPROM up to whole lives of boots and cut-off saves |
| `Json*` | the JSON wire: numbers, grammar, cursor reader, escapes, cut-off lines, streaming writer |
| `DocMembers`, `ConfigDoc*`, `Config{Scalars,Mapper,Floats,Set,Wire,Valid,Bounds,Msg}` | the config document in both directions and what it means, the float text, the validator, the cfg-set message and the line protocol |
| `UsbPipe`, `UsbPort` | the USB rings as interleaved steps, and the same steps on real ring buffers |
| `RvcSched`, `RvcElection`, `RvcLaws` | the RV-C scheduler, the election of the node that reports DC source data, the cadence and the frames |
| `FastPacket`, `N2kSched`, `N2kLaws` | fast-packet splitting and the NMEA 2000 scheduler |
| `Faults`, `Blink` | the fault tables and the blink encoder |
| `Float`, `Field*`, `Arbitration`, `Engine*` | the rotor clamp, power arbitration and the charge engine |

The files whose names end in `Laws`, with `CrcPoly`, `ConfigLayout`, `ConfigBounds`, `ConfigDocMeans` and
`JsonEscapes`, say in figures, bytes and histories what the specifications of the other files amount to.

## What the proofs rest on

- Real time. The buses move by single milliseconds; a node's clock is `now - boot` modulo 2^32.
- Address claim: distinct NAMEs, preferred addresses 0 to 253, room for at least one frame per tick.
- Crash safety: `ConfigCrash.Residue` says what is assumed of a torn record: if it passes the
  frame check it is the old or the new record. The CRC theorem discharges this for cuts in the
  header page, cuts after the body, and saves of an unchanged config (`CutIsResidue`). A save
  follows a load that found both slots readable.
- Floats of the engine are `NaN`, the infinities, or exact reals. Floats of the config are bit
  patterns. `ConfigFloats.Narrows` is all that is assumed of the conversion from decimal text: a
  decimal within an eighth of the gap between neighbouring floats becomes the float next to it. That leaves
  room for the error of the intermediate double. Such a conversion exists (`NarrowingNarrows`).
- The EEPROM answers each transfer with an acknowledge, a refusal after some bytes, or a silent loss;
  claims that need the bus to be honest say so.

## Where the code and its descriptions part

- `n2k_addrclaim.c`: the 250 ms settling time excludes shared addresses only if the tick gap plus
  twice the bus delay stays below it. `ExclusiveIffFast` gives the exact bound,
  `SlowBusCollides` the run that breaks it.
- `rvc_sched.h` says the highest priority broadcasts: in a reign a node that has joined speaks too
  until it has heard a higher one (`NewcomerSpeaks` says exactly when, `NewcomerInReign` gives the
  run). A timer half a wrap old counts as future: a node that claims its address 2^31 ms after boot,
  or is to take over with such a timer, keeps silent until the wrap is complete (`FirstTimerIsDue`,
  `SpeaksExactlyWhenDue`, `StaleTimerKeepsSilent`). A whole wrap after the last master the node
  defers once more (`HoldsIsModular`).
- `control.c`: the bound of 5 driven cycles in 50 for a standing rotor holds outside STANDBY
  (`FiveOfFifty`). Every STANDBY cycle restarts the probe: a run is driven in 40 of 50 cycles
  (`FortyOfFifty`), and `StandstillExcitation` gives the exact bound for every STANDBY pattern.
- `control.c` and `config_validate.c`: after a LIMP fault clears, a zero-rest profile is left in FLOAT,
  regulating to a rest voltage that the validator does not look at (`LimpLeavesFloating`,
  `UncheckedTarget`). `TargetAlwaysValid` says exactly which valid configs are safe from it.
- `config_json.c`: a writer with a sink and a chunk of no capacity does not end its copy loop
  (`CopyEnds`), so the constructor asks for a capacity of at least 1. The scanner drops digits after
  the nineteenth (`KeptIsCut`), which is exact if they are zeros and only then (`KeptIsExactIff`).
- `config_json.c` means a cut line to be reported as truncated, not as a syntax error: that is so
  (`CutIsTruncated`) unless the cut leaves the beginning of a number that is not one yet
  (`CutNumberIsSyntax`).
- `config_doc.h` says a document round-trips: a voltage that names a primitive is sent as the name
  alone, so its number comes back only if it equals the primitive, and if that primitive is NaN
  the number of the base stays (`RoundTrip`). Infinite floats and NaN patterns
  other than the canonical one come back as the canonical NaN (`SurvivesExactly`).
- `config_store.h` promises that an interrupted save leaves the previous record the newest valid one: a
  save that wrote everything and then failed, in its read-back for instance, leaves a newer one
  (`FailedSaveCanWin`). `InterruptedSaveKeepsPrevious` says exactly when the promise holds; on
  all lives a load finds the last saved config or one attempted after it (`LoadNeverLosesConfig`).

## Model

| member | source | states |
|---|---|---|
| `AddrClaim.Context.RestartClaim` | control/Src/n2k_addrclaim.c:58-75 | a displaced node moves to the next of the 254 addresses after its preferred one, or falls silent once all are used up |
| `AddrClaim.Context.Tick` | control/Src/n2k_addrclaim.c:89-116 | the frames sent and the whole new state are those of the node specification, for every buffer size including zero |
| `AddrClaim.Context.Rx` | control/Src/n2k_addrclaim.c:118-160 | the whole new state after any frame: claims, address requests, foreign and short frames |
| `AddrClaim.ReceivedClaim` | control/Src/n2k_addrclaim.c:118-143 | what a well-formed claim does: ignored on another address, displaces the higher NAME, makes the lower one owe a rebuttal |
| `AddrClaim.RequestIsAnswered` | control/Src/n2k_addrclaim.c:144-159 | a node that has won its address sends its claim in its next cycle with room if and only if it was sent a request for group 60928 addressed to everybody or to it; every other request changes nothing, and neither does this one but for that claim |
| `AddrClaim.OthersAreIgnored` | control/Src/n2k_addrclaim.c:118-143 | frames of any other group, short claims and claims to another address leave a node as it is |
| `AddrClaim.ClaimOnTheWire` | control/Src/n2k_addrclaim.c:48-56 | the claim has identifier 0x18EEFF00 + address and the NAME as its eight bytes, the least significant first |
| `AddrClaim.DisplacedLaw` | control/Src/n2k_addrclaim.c:58-75 | a displaced node claims its next address in its next cycle with room and still owes what it owed; with the last address gone it never sends again |
| `AddrClaim.SettleLaw` | control/Src/n2k_addrclaim.c:107-114 | the address is won in the first cycle 250 ms or more after the one that sent the claim, across the clock wrap |
| `CanIds.CanIdFields` | control/Src/n2k_encode.c:84-102 | packing an identifier and taking it apart gives back the source, the destination of an addressed group, and the group number |
| `AddrClaimBus.StepKeepsInv` | control/Src/n2k_addrclaim.c:89-143 | every step of a bus of any number of nodes with bounded delivery delay keeps: two nodes that both announced an address have a rebuttal owed or in flight within its deadline |
| `AddrClaimBus.NoSharedAddress` | control/Src/n2k_addrclaim.c:89-143 | on every run where tick gap + 2 x delay < 250 ms, no two nodes are CLAIMED on one address |
| `AddrClaimBus.ReadyOwnsAddress` | control/Src/n2k_addrclaim.c:162-165 | what it means to be ready: on every such run the node has then held one address, its claim announced, for at least 250 ms without a break, and no other ready node has that address |
| `AddrClaimBound.SlowBusCollides` | control/Src/n2k_addrclaim.c:104-111 | on any slower bus there is a reachable state with two CLAIMED nodes on one address |
| `AddrClaimBound.ExclusiveIffFast` | control/Src/n2k_addrclaim.c:89-143 | exclusive addresses on all runs if and only if tick gap + 2 x delay < 250 ms |
| `AddrClaimProgress.DisplacementBound` | control/Src/n2k_addrclaim.c:58-75 | a node with k lower NAMEs on the bus is displaced at most 2^k - 1 times and never more than 254 times; the lowest NAME keeps its preferred address |
| `AddrClaimProgress.LowerVisitFew` | control/Src/n2k_addrclaim.c:58-75 | all the nodes below a NAME together visit at most 2^k - 1 addresses |
| `AddrClaimProgress.FewRivalsNeverSilent` | control/Src/n2k_addrclaim.c:125-131 | with at most seven lower NAMEs on the bus a node never goes NULL |
| `AddrClaimProgress.SilentLostEverything` | control/Src/n2k_addrclaim.c:62-72 | a NULL node was sent, for every one of the 254 addresses, a claim by a lower NAME that had announced that address and held it |
| `AddrClaimProgress.UndisturbedNodeWins` | control/Src/n2k_addrclaim.c:104-111 | a node that is not displaced is CLAIMED (or NULL) 250 ms and two tick gaps later |
| `Crc32.WindowDetected` | control/Src/config_codec.c:68-78 | two equally long byte strings that differ only inside four consecutive bytes have different CRC-32 values |
| `Crc32.WindowNeverMissed` | control/Src/config_codec.c:68-78 | the same for the numbers cfg_crc32 returns |
| `Crc32.Feed4Injective` | control/Src/config_codec.c:68-78 | from any register, different groups of four bytes lead to different registers |
| `Crc32.ComputeCrc` | control/Src/config_codec.c:68-78 | the two nested loops, with the polynomial selected by a mask, compute Crc over the first len bytes |
| `CrcPoly.CrcIsRemainder` | control/Src/config_codec.c:68-78 | Crc is the CRC-32 of section 8 of RFC 1952 and nothing else: a word is the Crc of a message if and only if its complement is the remainder of the message polynomial, first 32 bits complemented, modulo the polynomial with exponents 32, 26, 23, 22, 16, 12, 11, 10, 8, 7, 5, 4, 2, 1, 0 |
| `CrcPoly.RemainderIsUnique` | control/Src/config_codec.c:68-78 | division by that polynomial leaves one remainder |
| `Eeprom.PageIsFlat` | Core/Src/eeprom24c16.c:153-172 | programming within one 16-byte page of the wrapping device is a flat write |
| `Eeprom.PageOverrunWraps` | Core/Src/eeprom24c16.c:153-172 | the first byte past a page boundary lands at the start of the same page |
| `Eeprom.BlockIsFlat` | Core/Src/eeprom24c16.c:116-131 | reading within one 256-byte block of the wrapping device reads consecutive cells |
| `Eeprom.AddressOnBus` | Core/Src/eeprom24c16.c:72-79 | the device answers at the seven-bit addresses 0x50 to 0x57, one for each block |
| `Eeprom.Driver.MemWrite` | Core/Src/eeprom24c16.c:81-87 | the device contract: nothing is programmed while write-protect is asserted; otherwise the bytes taken land in their page, wrapping |
| `Eeprom.Driver.WritePage` | Core/Src/eeprom24c16.c:156-172 | up to three attempts: success means the page holds the data, failure that all attempts were refused; only a prefix of the page can have changed |
| `Eeprom.Driver.Write` | Core/Src/eeprom24c16.c:174-199 | a successful write of any range is one flat write and nothing else changed; a failed one leaves a prefix written and the rest untouched; write-protect is restored on every path past the range check |
| `Eeprom.Driver.ReadChunk` | Core/Src/eeprom24c16.c:116-131 | a successful chunk read fills exactly its part of the buffer with consecutive cells |
| `Eeprom.Driver.Read` | Core/Src/eeprom24c16.c:133-151 | a successful read of any range is a flat read, and nothing beyond it in the buffer changed |
| `ConfigCodec.PayloadRoundTrip` | control/Src/config_codec.c:116-236 | decoding the 292 payload bytes wherever they lie gives back the config, all fields, NaN and signed zero included |
| `ConfigPacker.Encode` | control/Src/config_codec.c:241-262 | encoding fills exactly the record bytes, or returns 0 and leaves the buffer alone if it is too short |
| `ConfigPacker.PeekFrame` | control/Src/config_codec.c:264-296 | the frame check: magic, schema, length and CRC, in this order |
| `ConfigPacker.DecodeRecord` | control/Src/config_codec.c:298-326 | a rejected record leaves the config as it was; an accepted one gives the config and generation it holds |
| `ConfigFrame.DecodeEncode` | control/Src/config_codec.c:241-326 | decoding an encoded record gives back config and generation |
| `ConfigLayout.RecordLayout` | control/Src/config_codec.c:101-262 | where every member of a config lies in the record, in which byte order, and the magic, schema, generation, length and CRC around them |
| `ConfigLayout.PeekLaw` | control/Src/config_codec.c:264-296 | which rejection a buffer gets, by its bytes, and the generation of one that gets none |
| `ConfigFrame.SameCrcWindow` | control/Src/config_codec.c:264-296 | two valid records that differ only in four consecutive body bytes are equal |
| `ConfigFrame.GenerationCutRejected` | control/Src/config_codec.c:264-296 | a valid record of which only bytes of the generation were overwritten fails the frame check |
| `ConfigFrame.HeaderCutRejected` | control/Src/config_codec.c:264-296 | a save cut off anywhere in its header page leaves the old record or one that fails the frame check |
| `ConfigFrame.TrailerCutRejected` | control/Src/config_codec.c:264-296 | a save cut off inside the CRC trailer leaves the new record or one that fails the frame check |
| `ConfigFrame.ResaveCutRejected` | control/Src/config_codec.c:264-296 | saving the same config again, cut off anywhere, leaves one of the two records or one that fails the frame check |
| `ConfigStore.Store.Load` | control/Src/config_store.c:24-72 | the slot with the modularly newest valid generation wins; no valid slot is EMPTY, an unreadable one IO; memory and config are otherwise left alone |
| `ConfigStore.NewestIsLoaded` | control/Src/config_store.c:24-72 | of two readable slots the second is loaded exactly if it is the only valid one or 1 to 2^31 - 1 generations ahead modulo 2^32 |
| `ConfigStore.SlotsLie` | control/Inc/config_store.h:36-46 | the slots lie at 0 and 1024 |
| `ConfigStore.Store.Save` | control/Src/config_store.c:74-111 | only the standby slot is written, with the next generation; success means it holds exactly that record and the store switched to it; failure leaves the bookkeeping as it was |
| `ConfigCrash.SaveLeavesMixture` | control/Src/config_store.c:74-111 | whatever the bus does, a save leaves the live slot alone and each byte of the other one old or new |
| `ConfigCrash.HonestMixtureIsTorn` | Core/Src/eeprom24c16.c:174-199 | if no transfer is lost silently, the mixture is the new record torn after some byte |
| `ConfigCrash.CutIsResidue` | control/Src/config_store.c:74-111 | which cut-off saves need no assumption about the CRC: those in the header page, those after the body, and those of the same config |
| `ConfigCrash.SessionRecoverable` | control/Inc/config_store.h:17-29 | within a session both slots hold consecutive generations or one is invalid, so the next load finds the last saved config or one tried after it |
| `ConfigCrash.EventKeepsOk` | control/Src/config_store.c:24-111 | every boot, successful save and cut-off save keeps the recovery invariant, across the wrap of the generation |
| `ConfigCrash.LoadNeverLosesConfig` | control/Inc/config_store.h:17-29 | over every life of boots and saves, once one save has succeeded a load never finds nothing: it returns the last saved config or one attempted after it |
| `ConfigCrash.InterruptedSaveKeepsPrevious` | control/Inc/config_store.h:26-28 | after a failed or interrupted save the previous record is the newest valid one if and only if what is left in the other slot is neither the complete new record nor a complete earlier attempt it did not change |
| `ConfigCrash.FailedSaveCanWin` | control/Inc/config_store.h:26-28 | for any two configs, a life in which the first was saved last and the second, whose save was reported as failed, is loaded |
| `ConfigCrash.LoadIsBoot` | control/Src/config_store.c:24-72 | a load that can read both slots is the boot event of a life: same disk, same session, same config |
| `ConfigCrash.SaveIsEvent` | control/Src/config_store.c:74-111 | a save is one of the save events of a life, unless it leaves a mixture of old and new bytes that passes the frame check |
| `JsonNumber.ScanAcceptsNumbers` | control/Src/config_json.c:71-132 | the scanner consumes a token whole if and only if it is a number of section 6 of RFC 8259, and reads its sign and magnitude |
| `JsonNumber.KeptIsCut` | control/Src/config_json.c:79-106 | the digits the scanner keeps are the number cut after its first 19 digits |
| `JsonNumber.KeptIsExactIff` | control/Src/config_json.c:79-106 | what it keeps denotes the same number if and only if every digit it drops is a 0 |
| `JsonNumber.ScannedExpExact` | control/Src/config_json.c:107-124 | the saturating exponent is exact for every token within the length bound |
| `JsonNumber.SplitOfText` | control/Src/config_json.c:71-132 | every number text splits into exactly its sign, whole part, fraction and exponent |
| `JsonNumber.ScanNum` | control/Src/config_json.c:71-132 | the scanning loops compute the specification of the scanner |
| `JsonFormat.MantissaRounds` | control/Src/config_json.c:178-194 | whatever the exponent estimate, as long as it is off by at most one, the mantissa has exactly the digits asked for and is within half a unit of the last one, also when rounding carries |
| `JsonFormat.LayoutDenotes` | control/Src/config_json.c:195-238 | the exponent, fixed and 0.000ddd forms all denote mantissa x 10^exponent and are numbers of the grammar |
| `JsonFormat.LayoutShape` | control/Src/config_json.c:195-245 | the text has the shape of %g: an exponent only below 10^-4 or from the number of digits on, with two or three digits, and no zero at the end of a fraction |
| `JsonFormat.FormatReadsBack` | control/Src/config_json.c:157-238 | formatting any value in the range of doubles and scanning the text consumes it whole and reads the value rounded to the digits asked for |
| `JsonFormat.EstimateExponent` | control/Src/config_json.c:165-177 | the scaling loops end at the exact decimal exponent |
| `JsonFormat.PickMantissa` | control/Src/config_json.c:178-194 | the two adjustments of the estimate compute the specified mantissa and exponent |
| `JsonFormat.FmtG` | control/Src/config_json.c:157-238 | the formatter returns that text, or nothing if the value is not finite or the buffer too short; 17 bytes are always enough |
| `JsonFormat.IntToken` | control/Src/config_json.c:662-675 | an integer token of the 64-bit range reads back as the integer |
| `ConfigFloats.NinthDigit` | control/Src/config_json.c:677-698 | half a unit of the ninth digit of a binary32 is at most an eighth of the distance to the next float |
| `ConfigFloats.NineDigitsReturn` | control/Src/config_json.c:677-698 | nine digits read back as the float they were made of, for every finite float, subnormal ones and both zeros included |
| `ConfigFloats.PrintedReturns` | control/Src/config_json.c:677-698 | whether the guard kept four digits or widened to nine, the text reads back as the same float |
| `ConfigFloats.SurvivesExactly` | control/Src/config_json.c:677-698 | a float survives the trip through text if and only if it is finite or the NaN that stands for unset |
| `ConfigFloats.WindowsApart` | control/Src/config_json.c:677-698 | no decimal lies within an eighth of a gap of two different floats of one sign, so what is assumed of the conversion never contradicts itself |
| `ConfigFloats.NarrowingNarrows` | control/Src/config_json.c:677-698 | a conversion that meets the assumption exists |
| `ConfigFloats.WireExists` | control/Src/config_json.c:677-698 | and with it a whole wire, each float with the text the writer picks for it |
| `ConfigFloats.FloatsReturn` | control/Src/config_doc.c:71-176 | on such a wire the text of a config is well-formed and comes back over any base exactly when the config is faithful |
| `ConfigFloats.WriteF32` | control/Src/config_json.c:677-698 | the writer emits four digits if they read back as the same float, nine digits otherwise, and null for anything not finite |
| `JsonAccepts.ValidateExact` | control/Src/config_json.c:506-515 | the validator accepts a text if and only if it is a document of the grammar with nesting at most 6 and number tokens of at most 40 characters |
| `JsonAccepts.DocumentComplete` | control/Src/config_json.c:475-515 | every document has exactly one derivation, and the parser finds it |
| `JsonCut.CutIsTruncated` | control/Src/config_json.c:250-275 | an accepted line with an object or array, cut anywhere before its end, is reported as truncated, unless it ends in a number that is not yet one |
| `JsonCut.CutNumberIsSyntax` | control/Src/config_json.c:250-275 | the exception is real: the line [-1] cut after its minus sign is reported as a syntax error |
| `JsonReader.Cursor.ContainerStep` | control/Src/config_json.c:315-337 | one move inside a container: an item follows, it closed, or which rule was broken |
| `JsonReader.Cursor.Str` | control/Src/config_json.c:402-466 | a string decodes to its bytes, cut to the buffer with the cut flagged; surrogates and escapes as the source treats them |
| `JsonEscapes.Utf8Exact` | control/Src/config_json.c:436-456 | the bytes of an escaped code point are exactly the text that a UTF-8 decoder after section 3 of RFC 3629 reads as it: lead byte, continuation bytes, shortest form |
| `JsonEscapes.UnicodeEscape` | control/Src/config_json.c:436-456 | four hexadecimal digits in either case stand for the code point they spell |
| `JsonEscapes.ShortEscape` | control/Src/config_json.c:425-435 | the eight escapes of one letter and the characters they stand for |
| `JsonEscapes.AsciiSpelled` | control/Src/config_json.c:408-470 | writing any plain character of ASCII by its number changes nothing of what a string stands for |
| `JsonEscapes.BothSpellings` | control/Src/config_json.c:408-470 | the reader returns the same string for both spellings, whatever the size of the buffer |
| `JsonEscapes.CharacterClasses` | control/Src/config_json.c:25-42 | white space, digits, hexadecimal digits and plain characters by their codes |
| `JsonReader.Cursor.ObjKey` | control/Src/config_json.c:339-351 | the next member name, or the end of the object, or the rule broken |
| `JsonReader.Cursor.Number` | control/Src/config_json.c:358-381 | a number token is read if and only if the parser accepts it, with the scanned magnitude |
| `JsonReader.Cursor.Skip` | control/Src/config_json.c:475-504 | skipping any value moves the cursor exactly as parsing it does and leaves the enclosing levels as they were |
| `JsonReader.ValidateText` | control/Src/config_json.c:506-515 | the validator reports the first rule broken, or none |
| `JsonTree.EscapeRoundTrip` | control/Src/config_json.c:549-576 | escaping any C string and decoding it gives it back |
| `JsonTree.EscapesAreShort` | control/Src/config_json.c:549-576 | only quotes, backslashes and control characters are escaped, in two characters where there is such a form, else in six |
| `JsonTree.PrintedIsValid` | control/Src/config_json.c:506-698 | the text of every tree of depth at most 6 passes the validator, with a derivation that carries the tree |
| `JsonTree.WrittenMeans` | control/Src/config_json.c:549-660 | the derivation of a written tree means that tree, numbers read by the scanner |
| `JsonTree.WalkGivesBack` | control/Src/config_json.c:268-504 | a walk over the text of a tree gives back that tree and no other |
| `JsonTree.WalkValue` | control/Src/config_json.c:280-473 | walking a text with the public calls of the reader rebuilds the tree it means, or fails exactly where the parser does |
| `JsonTree.MembersMove` | control/Src/config_json.c:315-351 | what is left of a container is its next item and what is left after that |
| `JsonWriter.Writer.Wr` | control/Src/config_json.c:518-533 | the copy loop appends all of its text, whatever the chunk size |
| `JsonWriter.CopyEnds` | control/Src/config_json.c:518-533 | with a sink the copy loop ends if and only if the chunk has a capacity or there is nothing to copy |
| `JsonWriter.Writer.WrQuoted` | control/Src/config_json.c:549-576 | a string is written quoted and escaped up to its first NUL |
| `JsonWriter.Writer.ContainerOpen` | control/Src/config_json.c:601-611 | opening a container writes separator and bracket, and flags nesting beyond 32 |
| `JsonWriter.Writer.Flush` | control/Src/config_json.c:594-599 | after a flush everything written has reached the sink |
| `JsonWriter.EmitValue` | control/Src/config_json.c:535-660 | writing a tree with the public calls appends exactly its text and leaves the enclosing levels as they were |
| `JsonWriter.PrintDocument` | control/Src/config_json.c:578-660 | for every chunk size of at least 1 the sink receives the text of the tree; without a sink overflow is reported exactly if it does not fit |
| `DocMembers.OrderIsNothing` | control/Src/config_doc.c:345-593 | members laid over a state one by one give the same in every order, if members of different names can trade places |
| `ConfigDocOrder.GlobalAround` | control/Src/config_doc.c:397-446 | the global block neither reads nor writes what the field block sets |
| `ConfigDocOrder.OrderMakesNoDifference` | control/Src/config_doc.c:345-624 | two documents that differ only in the order of members, at any depth, are both refused or give the same config, unknown count and schema over every base |
| `ConfigDocRound.WrittenIsRead` | control/Src/config_doc.c:71-176 | the document of any config is accepted over any base, with no unknown key and schema 2, whatever the config holds |
| `ConfigDocRound.VrefBack` | control/Src/config_doc.c:63-69 | a reference comes back as that reference, any other number as a literal |
| `ConfigDocRound.RoundTrip` | control/Src/config_doc.c:71-176 | writing a config and laying the document over a base gives back that very config if and only if its floats survive, its enumerations are in range, its named voltages hold their primitive and the unwritten flag bits equal those of the base |
| `ConfigDocRound.TableRound` | control/Src/config_doc.c:539-550 | the seven profiles come back each in its place |
| `ConfigDocMeans.PrimitivesAreStated` | control/Src/config_doc.c:345-361 | a primitive is what an accepted document states last, or as it was |
| `ConfigDocMeans.LimpFollows` | control/Src/config_doc.c:552-570 | limp_vcell is the new v_limp if the document states v_limp and no limp_vcell, otherwise what it states last for limp_vcell, or as it was |
| `ConfigDocMeans.ReferencesHold` | control/Src/config_doc.c:559-570 | after every accepted document each voltage that names a primitive with a value has that value, every other one is as the members left it, and nothing else moved |
| `ConfigDocMeans.EditMovesVoltages` | control/Src/config_doc.c:552-570 | a document of one primitive moves every voltage that names it, and limp_vcell exactly if it is v_limp |
| `ConfigDocMeans.WholeIsWhole` | control/Src/config_doc.c:253-263 | a decimal is read as an integer if and only if its value is that integer, however it is written |
| `ConfigDocMeans.ValueLaw` | control/Src/config_doc.c:224-302 | which values each kind of member takes and what they stand for |
| `ConfigDocMeans.ReferenceLaw` | control/Src/config_doc.c:304-321 | a string must be one of the five names and leaves the number alone, a number or null drops the name |
| `ConfigDocMeans.SchemaLaw` | control/Src/config_doc.c:587-600 | an accepted document states schema 2 or none, and the schema reported is that, or -1 |
| `ConfigDocMeans.UnknownIsCounted` | control/Src/config_doc.c:206-214 | the unknown count is the number of members, at any depth, whose name is not in the lists of known names |
| `ConfigScalars.ReadFloat` | control/Src/config_doc.c:224-247 | a number or null becomes a float; anything else is a type error naming the key; malformed text is refused |
| `ConfigScalars.ReadInteger` | control/Src/config_doc.c:253-263 | a whole number within its bounds is stored, every other value is a type error |
| `ConfigScalars.ReadReference` | control/Src/config_doc.c:304-321 | a string must name a primitive and leaves the literal alone, a number or null becomes the literal |
| `ConfigMapper.NextKey` | control/Src/config_doc.c:330-341 | members whose names do not fit the buffer are counted as unknown and skipped, wherever they stand |
| `ConfigMapper.GlobalMembers` | control/Src/config_doc.c:397-446 | the loop over the global block does what laying its members over the config one by one does |
| `ConfigMapper.ProfileMembers` | control/Src/config_doc.c:502-537 | the same for one profile, with its rest and revert blocks |
| `ConfigMapper.Table` | control/Src/config_doc.c:539-550 | the same for the array of profiles; an eighth one is a type error |
| `ConfigMapper.Resolve` | control/Src/config_doc.c:559-570 | references take the value of their primitive, and limp_vcell follows a v_limp that was set alone |
| `ConfigMapper.ApplyDocument` | control/Src/config_doc.c:572-624 | for every text under the cursor and every base: a well-formed value does to the config what it says, with the error of its first bad member; malformed text is always refused |
| `ConfigSet.Ask` | control/Src/config_msg.c:117-176 | the object around the document: exactly the members it has are applied, and a message without a document is refused |
| `ConfigSet.TypeIsFirst` | control/Src/config_msg.c:213-229 | the type of a message is the string of its first member called t, if it fits |
| `ConfigSet.AskedLaw` | control/Src/config_msg.c:117-176 | a message asks for what its one document makes of the running config, the members around it are counted but not looked at, and without a document, or with one that is no object, it is refused |
| `ConfigWire.DocStorable` | control/Src/config_doc.c:71-176 | the document of any config stays within the bounds of the wire |
| `ConfigWire.Emit` | control/Src/config_doc.c:71-176 | emission appends exactly the text of the document to the writer |
| `ConfigWire.WireRoundTrip` | control/Src/config_doc.c:71-176 | the text of a config is well-formed, and reading it over any base gives back the config if and only if it is faithful |
| `ConfigWire.SetInstalls` | control/Src/config_msg.c:117-207 | sending back the document of a faithful config installs exactly that config if it is valid and the save succeeds, and otherwise changes nothing but the attempt count |
| `ConfigWire.SetRefused` | control/Src/config_msg.c:117-176 | a message that cannot be applied changes nothing and is answered with the code of what is wrong with it |
| `ConfigValid.Validate` | control/Src/config_validate.c:182-212 | the verdict is the first rule broken, block by block and profile by profile, with the profile that breaks it |
| `ConfigBounds.ValidIsBounds` | control/Src/config_validate.c:12-212 | a config is valid if and only if every member lies within its bounds, listed one by one |
| `ConfigBounds.VerdictTells` | control/Src/config_validate.c:12-212 | the code of a rejection says something true of the config, and of the profile it names |
| `ConfigValid.VoltagesStepDown` | control/Src/config_validate.c:22-46 | in a valid config the five voltages are finite, strictly descending and within 3.20 to 3.65 V per cell |
| `ConfigValid.ValidGlobals` | control/Src/config_validate.c:48-119 | a valid config gives the engine 4 to 16 cells, a finite ramp, a positive rotor voltage and a bounded charge time |
| `ConfigValid.StageVoltageInSpan` | control/Src/config_validate.c:132-180 | with a valid config the voltage the engine regulates to lies in the span in BULK, in LIMP and at rest of a holding profile |
| `ConfigValid.TargetAlwaysValid` | control/Src/config_validate.c:132-180 | for a valid config the voltage the engine regulates to is in the span on every run, in every state outside STANDBY, if and only if the active profile holds at rest or its rest voltage is in the span |
| `ConfigValid.LimpLeavesFloating` | control/Src/control.c:198-264 | on every config, two cycles from power-up, one with a LIMP fault and one without, leave the engine in FLOAT with the rest voltage as its target, zero-rest profile or not |
| `ConfigValid.UncheckedTarget` | control/Src/config_validate.c:132-180 | a concrete config passes the validator although the engine can be left regulating to a NaN |
| `ConfigValid.ValidRunIsSafe` | control/Src/field.c:8-32 | every run on a valid config with the override off keeps duty times either reading within the rotor voltage and raises power no faster than the ramp |
| `ConfigValid.ValidReturns` | control/Src/config_doc.c:71-176 | a valid config comes back from its document over any base if and only if nothing is amiss in what the validator leaves open: non-canonical NaN, references equal only within the tolerance, unwritten flags, reserved profiles and zero-rest blocks |
| `ConfigMsg.LinesJudged` | control/Src/config_msg.c:277-304 | the assembler dispatches every line of at most 3072 bytes whole and reports each longer one once |
| `ConfigMsg.CutAnywhere` | control/Src/config_msg.c:277-304 | where the byte stream is cut into calls makes no difference |
| `ConfigMsg.SessionIsOneCall` | control/Src/config_msg.c:277-304 | a session of any chunks has the replies and the final config of one call with all the bytes |
| `ConfigMsg.RepliesFollowLines` | control/Src/config_msg.c:240-304 | replies and final config are those of the lines judged one by one |
| `ConfigMsg.OneReplyPerLine` | control/Src/config_msg.c:240-275 | a blank line gets no reply, any other exactly one; the running config changes only with a reply that says stored; telemetry is answered if a hook is set and is an unknown message otherwise |
| `ConfigMsg.BlankIsIgnored` | control/Src/config_msg.c:244-253 | a line is ignored if and only if it is blanks, tabs and carriage returns followed by line ends |
| `ConfigMsg.SaveLaw` | control/Src/config_msg.c:180-207 | a save is tried exactly for a cfg-set whose document the validator accepts, once, and its outcome decides reply, running config and history |
| `ConfigMsg.RefusalLaw` | control/Src/config_msg.c:244-275 | which reply each other kind of line gets |
| `ConfigMsg.LongLineLaw` | control/Src/config_msg.c:277-304 | a line of more than 3072 characters is malformed whatever it says, every other one is judged by what it says |
| `ConfigMsg.LiveConfigIsSound` | control/Src/config_msg.c:117-207 | in every session the running config is the boot config or one that passed the validator and was saved |
| `ConfigMsg.Protocol.Rx` | control/Src/config_msg.c:277-304 | the receive loop does exactly that to the line buffer, the config and the replies |
| `UsbPipe.StepKeepsInv` | Core/Src/usb_cdc.c:250-286 | every interleaving step of main loop and interrupts keeps conservation, flow control and termination of transfers |
| `UsbPipe.BytesConserved` | Core/Src/usb_cdc.c:553-597 | bytes handed to the IN endpoint followed by the ring are the accepted bytes in order, bytes read followed by the ring are the bytes received, and accepted plus dropped is offered modulo 2^32 |
| `UsbPipe.ReceptionIsSafeAndLive` | Core/Src/usb_cdc.c:278-286 | an armed OUT endpoint always has room for a packet, and it is re-armed as soon as there is room |
| `UsbPipe.TransmissionCompletes` | Core/Src/usb_cdc.c:250-276 | when transmission is idle the ring is empty and a full last packet was followed by a zero-length one, and a zero-length packet is sent at no other time (section 5.8.3 of USB 2.0) |
| `UsbPipe.PacketsAreFull` | Core/Src/usb_cdc.c:250-276 | a packet holds 64 bytes unless it empties the ring, and none starts while one is under way |
| `UsbPort.QueuePut` | Core/Src/usb_cdc.c:101-118 | writing at the write index appends to the queue a ring holds |
| `UsbPort.QueueTake` | Core/Src/usb_cdc.c:101-118 | moving the read index drops from its front |
| `UsbPort.SlotsAreModular` | Core/Src/usb_cdc.c:115-118 | index arithmetic with one conditional subtraction is the modular one of the source |
| `UsbPort.Port.TxKick` | Core/Src/usb_cdc.c:250-276 | on real rings the step is the one of the protocol, and the packet handed over is the front of the queue |
| `UsbPort.Port.OnDataOut` | Core/Src/usb_cdc.c:457-477 | a received packet goes whole into the ring, and the endpoint is re-armed or paused |
| `UsbPort.Port.WriteAll` | Core/Src/usb_cdc.c:574-597 | a write without interrupts in between accepts exactly what fits and counts the rest as dropped |
| `UsbPort.Port.CommitRead` | Core/Src/usb_cdc.c:553-572 | the read index moves over exactly the bytes copied out |
| `RvcSched.Scheduler.Rx` | control/Src/rvc_sched.c:49-66 | only DC source frames of a higher priority are remembered, with the time they were heard |
| `RvcSched.Scheduler.Tick` | control/Src/rvc_sched.c:96-155 | frames and timers are those of the specification for every buffer size; deferral stops only the DC source frames |
| `RvcSched.CycleHeard` | control/Src/rvc_sched.c:49-66 | what another node makes of all the frames of one cycle: it remembers the sender exactly if a DC source frame of a higher priority was among them |
| `RvcLaws.Cadence` | control/Src/rvc_sched.c:96-155 | what is sent is sent again in the first cycle with room that is 5000, 500, 500 and 500 ms later, across the clock wrap |
| `RvcLaws.SpeaksAfterDeferring` | control/Src/rvc_sched.c:126-152 | a node that stops deferring sends both DC source messages in its next cycle with room |
| `RvcLaws.ShortBuffer` | control/Src/rvc_sched.c:104-152 | a short buffer gets the first frames of what a long one would get |
| `RvcLaws.ElectionLaw` | control/Src/rvc_sched.c:49-75 | a node gives way to strictly higher priorities in DC_SOURCE_STATUS_1 and _2 frames, for 1500 ms on a clock of 32 bits, and to nothing else |
| `RvcLaws.OnTheWire` | control/Src/rvc_sched.c:104-152 | the identifiers and leading bytes of the four messages |
| `RvcElection.FramesSpaced` | control/Src/rvc_sched.c:131-152 | on every run two DC_SOURCE_STATUS_1 frames of one node are at least 500 ms apart, deferrals or not |
| `RvcElection.MasterSilencesOthers` | control/Src/rvc_sched.c:131-152 | once the highest-priority node has broadcast and while it ticks at gaps under 1000 ms, no node that was then on the bus broadcasts DC source data |
| `RvcElection.NextTakesOver` | control/Src/rvc_sched.c:68-75 | if every higher node falls silent, the next one transmits within 1500 ms plus one tick gap, unless its timer is half a wrap old and it is not deferring |
| `RvcElection.SpeaksExactlyWhenDue` | control/Src/rvc_sched.c:33-36 | whatever the age of its timer, a node that is not deferring and hears nobody above it has spoken if and only if it ran a cycle while the timer, modulo the wrap, counted as passed |
| `RvcElection.StaleTimerKeepsSilent` | control/Src/rvc_sched.c:33-36 | a timer between half a wrap and a whole one old keeps such a node silent |
| `RvcElection.DueIsModular` | control/Src/rvc_sched.c:33-36 | at all times and for every boot time the wrapped test says that the time since the deadline, modulo 2^32, is below 2^31 |
| `RvcElection.NewcomerSpeaks` | control/Src/rvc_sched.c:96-155 | exactly who else speaks in a reign: a node that joined after it began, as long as no frame of a higher node has been broadcast since, in the cycles in which its messages are due and have room |
| `RvcElection.NewcomerInReign` | control/Src/rvc_sched.c:96-155 | a run in which a master reigns and a node of lower rank joins and broadcasts |
| `RvcElection.FirstTimerIsDue` | control/Src/rvc_sched.c:131-152 | the first cycle of a node with an address and room sends if and only if the node booted less than 2^31 ms ago |
| `RvcElection.HoldsIsModular` | control/Src/rvc_sched.c:68-75 | a node defers exactly while the time since it last heard a master, modulo 2^32, is below the timeout: a whole wrap later it defers once more |
| `FastPacket.Split` | control/Src/n2k_encode.c:115-134 | the frames written, or -1 with the buffer untouched for an empty, oversized or unaffordable payload |
| `FastPacket.SplitRoundTrip` | control/Src/n2k_encode.c:115-134 | reassembling the frames gives back the payload for every length from 1 to 223 |
| `N2kLaws.TrainBytes` | control/Src/n2k_encode.c:115-134 | each frame byte by byte: counter and index, length, payload, padding, and how many frames there are |
| `FastPacket.LostFrameRejected` | control/Src/n2k_encode.c:115-134 | with any one frame missing nothing is reassembled |
| `N2kSched.Scheduler.Tick` | control/Src/n2k_sched.c:59-187 | output, timers, sequence counters and SID are those of the specification |
| `N2kSched.WholeOrNotAtAll` | control/Src/n2k_sched.c:59-187 | a message is written whole and reassembles, or neither its timer nor its sequence counter changes |
| `N2kSched.UrgentAtOnce` | control/Src/n2k_sched.c:59-187 | with the 32-frame buffer every message up to the telemetry group is sent in the cycle it is due |
| `N2kSched.SentIsNotWanted` | control/Src/n2k_sched.c:54-57 | a message just sent is not due again within the next second, across the clock wrap |
| `N2kLaws.Cadence` | control/Src/n2k_sched.c:59-187 | what is sent is wanted again exactly when its interval has passed, an alert only with a fault |
| `N2kLaws.AlertsAtOnce` | control/Src/n2k_sched.c:82-124 | without a fault no alert is sent, and the first cycle with one wants both |
| `N2kLaws.WantedUntilSent` | control/Src/n2k_sched.c:59-187 | a message stays wanted until it is sent |
| `N2kLaws.SidsCycle` | control/Src/n2k_sched.c:59-75 | the snapshot counter runs through 0 to 252 and no other value |
| `N2kLaws.TrainsDiffer` | control/Src/n2k_sched.c:59-187 | eight trains in a row carry eight different sequence numbers |
| `N2kSched.SentByTheSecondCycle` | Core/Src/can_n2k.c:225-226 | with 32 frames and calls under a second apart, a message that is and stays due is sent no later than in the second call, whatever the fault bits do |
| `Faults.TopCodePicks` | control/Src/faults.c:23-39 | the displayed code is 0 exactly without faults and otherwise belongs to the lowest bit of the worst severity |
| `Faults.ComputeTopCode` | control/Src/faults.c:23-39 | the scan computes that code |
| `Faults.SeverityOfPick` | control/Src/faults.c:8-14 | the picked bit has the severity of the whole word |
| `Faults.EveryBitHasOneClass` | control/Inc/faults.h:12-58 | each of the nineteen declared bits belongs to exactly one class, no other bit to any |
| `Blink.Annunciator.Update` | control/Src/annunc.c:46-86 | the catch-up loop ends, and state and lamp are those of the specification |
| `Blink.UpdatesAdd` | control/Src/annunc.c:46-86 | updating by d1 and then d2 is updating by d1 + d2, for every fault word |
| `Blink.CyclePlays` | control/Inc/annunc.h:72-91 | however time is sliced and whatever faults come and go, a cycle plays exactly code/10 long and code mod 10 short flashes of the code latched at its start |
| `Blink.CycleEnds` | control/Inc/annunc.h:72-91 | at the end of a cycle, from any of its flashes, the fault word of that moment is latched |
| `Blink.PendingIsShort` | control/Src/annunc.c:46-50 | after an update less than 3000 ms are pending, so the 32-bit sum of the next update is exact for every step up to 2^32 - 3000 ms |
| `Field.VsupGuard.Vet` | control/Src/field.c:51-105 | state and answer of the guard are those of the specification for NaN, infinite and finite readings |
| `Field.GuardKeepsTrack` | control/Src/field.c:51-105 | the trusted level stays within 2.0 to 4.0 V per cell |
| `Field.VettedIsTight` | control/Src/field.c:51-105 | the vetted voltage is at least the higher reading and at least 3.2 V per cell, and NaN only without any reading |
| `Field.TrackFallsSlowly` | control/Src/field.c:51-105 | the trusted level falls by at most 4 percent per call unless five minutes of distrust have accumulated |
| `Field.DistrustIsTimed` | control/Src/field.c:51-105 | the distrust counter is the time since the last in-band reading, on every run |
| `Field.BigFallNeedsFiveMinutes` | control/Src/field.c:51-105 | on every run a larger fall comes only after 300000 ms of distrust |
| `Field.RotorNeverOverdriven` | control/Src/field.c:8-32 | duty times either supply reading, or times 3.2 V per cell, never exceeds the rotor voltage |
| `Field.NoReadingNoDuty` | control/Src/field.c:8-24 | without a usable rotor voltage or any reading the duty is zero |
| `FieldLaws.DutyLaw` | control/Src/field.c:8-32 | the duty is the effort times the largest share of the supply that does not exceed the rotor voltage, exactly |
| `FieldLaws.GuardLaw` | control/Src/field.c:51-105 | voltage, verdict and trusted level for every reading, in volts for each cell and milliseconds |
| `Arbitration.Arbitrate` | control/Src/arbitration.c:7-29 | the loop over the ceilings computes the specified winner |
| `Arbitration.PowerIsMinimum` | control/Src/arbitration.c:7-29 | the power allowed exceeds neither the stage power nor any active ceiling, unless it is the zero it is clamped to |
| `Arbitration.SourceIsHonest` | control/Src/arbitration.c:7-29 | the reported source is the one whose limit is the power allowed |
| `Arbitration.FirstIsNamed` | control/Src/arbitration.c:7-29 | of equal limits the first is reported, the stage before any ceiling |
| `EngineContext.Context.Tick` | control/Src/control.c:129-350 | a cycle of the engine, statement by statement, is the composition of its phases; the command is read off the new state |
| `EngineContext.Context.BulkCase` | control/Src/control.c:226-258 | the exits of BULK and their hold timers |
| `EngineContext.Context.RevertCheck` | control/Src/control.c:75-95 | the revert test and its hold timer |
| `EngineLaws.FaultBits` | control/Src/control.c:160-197 | a fault bit is set after a cycle if and only if the readings raise it (3.70 V for each cell, 120 and 125 C, 0 and 55 C, a missing reading, an implausible supply), another module reports it, or it is of the latching class and was set |
| `EngineLaws.DangerLatches` | control/Src/control.c:164-181 | a cycle at 3.70 V for each cell or with the driver at 125 C opens the field for the rest of the run |
| `EngineLaws.BatteryTemperatureStops` | control/Src/control.c:182-196 | a cycle with the battery at 0 C or below, at 55 C or above, or without a temperature that is required ends in STANDBY |
| `EngineLaws.TimersAlwaysTell` | control/Src/control.c:129-264 | on every run the timers hold, modulo 2^32, how long each condition has held by the history of the run |
| `EngineLaws.StageLaw` | control/Src/control.c:198-264 | the stage after every cycle of every run, from the faults and the history alone: BULK ends exactly when a charged condition has held for its time, a rest exactly when a revert condition has, warm-up exactly after its time |
| `EngineLaws.SignalLaw` | control/Src/control.c:52-57 | the three damped signals are first-order filters of 1, 30 and 60 s that start from the first reading |
| `EngineLaws.ChargeLaw` | control/Src/control.c:146-157 | the charge taken out is counted at rest from a trusted current, never below nothing, and restarts when a rest begins |
| `EngineLaws.RegulationLaw` | control/Src/control.c:275-332 | power and effort after a cycle: down at once, up by the ramp; 2.0 a second for each volt or 0.001 for each watt, whichever is less; 5 percent in the first 50 of 500 ms while nothing turns |
| `EngineSafety.AfterIsSafe` | control/Src/control.c:160-264 | every cycle ends with effort in [0, 1], no effort in STANDBY, and every OPEN-class fault it started with |
| `EngineSafety.OpenFaultLatches` | control/Src/control.c:160-200 | on every run an OPEN-class fault, once seen, keeps the engine in STANDBY/FAULT with zero effort for ever |
| `EngineSafety.CommandIsSafe` | control/Src/control.c:332-350 | the field is open exactly in STANDBY, an open field has zero duty, and effort and duty stay in [0, 1] through any NaN input |
| `EngineSafety.RotorProtected` | control/Src/control.c:334-336 | on every run, with the override off, duty times either reading of the cycle never exceeds the rotor voltage |
| `EngineSafety.PowerIsBounded` | control/Src/control.c:289-300 | commanded power exceeds neither the arbitrated limit nor its last value plus ramp x time |
| `EngineSafety.PowerRampsUp` | control/Src/control.c:289-300 | over any window of any run commanded power rises by at most the ramp x the time elapsed in it |
| `EngineSafety.StayInBulkIsBounded` | control/Src/control.c:250-252 | in every continuous stay in BULK the time since entering it is below t_charge_max_min after each further cycle that still ends in BULK |
| `EngineSafety.GatedCycle` | control/Src/control.c:318-332 | a cycle with the rotor standing commands no power and drives the field only inside the probe pulse, with at most 5 percent |
| `EngineSafety.DrivenWithinReplay` | control/Src/control.c:318-332 | over any number of 10 ms cycles with the rotor standing, on every run, the driven ones are at most the pulses of the probe restarted at each STANDBY cycle |
| `EngineSafety.StandstillExcitation` | control/Src/control.c:318-332 | for every probe phase and STANDBY pattern of such a window, a number bounds the driven cycles of all runs if and only if the restarted probe has at most that many pulses |
| `EngineSafety.FiveOfFifty` | control/Src/control.c:318-332 | in any 50 such cycles without STANDBY the field is driven in at most 5 |
| `EngineSafety.FortyOfFifty` | control/Src/control.c:318-332 | a run with a STANDBY cycle in every five, driven in 40 of 50 cycles |

## Left out

- NULL arguments: every entry point of the source tolerates them; references here are never null.
- Registers and HAL calls, the USB control endpoint and descriptors, suspend and resume, the I2C bus
  re-initialisation and the counters of `err_budget.c`: I/O.
- The texts and names of the validator's codes; its tolerances are exact decimals and its products exact reals.
- `telemetry.c`, `telemetry_json.c`, `limits.c`, `thermal.c`, `dio.c`, `watchdog.c`, `crash_record.c`,
  `stator_rpm.c` and `integrity.c`: counters, filters and scaling.
- The zero that `cfg_json_fmt_g` prints for a mantissa that underflowed: in exact arithmetic it never does.
- The scaling of the individual fields of NMEA 2000 and RV-C payloads: payloads are parameters, their
  lengths and identifiers are modelled.
- Rounding, overflow and signed zero of the engine's floats; the double arithmetic inside the number
  scanner and formatter, which is exact here.
- JsonReader.Cursor.Number: gives the decimal of the token; its rounding to a double is not modelled.
- ConfigScalars.ReadInteger: a decimal that is not whole is refused; one that a double would round to a
  whole number is accepted by the source.
- ConfigMapper.ApplyDocument: the copy that a refused document leaves half changed is not described, as
  its callers throw it away; the count of unknown members is described only for accepted documents.
- ConfigSet.TypeIn: finding the type of a message is a function on the parsed message, not a cursor loop.
- ConfigMsg.Protocol.Rx: the texts of the replies are reduced to their kind, code and generation; the
  outcome of each save is a parameter, and so is the validator, of which `ConfigValid.Valid` is the
  firmware's own.
- N2kSched.Scheduler.Tick: one loop over a table of nine messages stands for nine blocks in the source,
  in their order; how each payload is put together is not modelled.
- ConfigCrash.LoadNeverLosesConfig: rests on the assumption about torn records named above, which a
  32-bit CRC cannot discharge for every cut inside the payload.
- RvcElection.NextTakesOver: is stated for horizons below one clock wrap, and for a status timer less
  than half a wrap old unless the node still defers; `SpeaksExactlyWhenDue` covers every other timer.
- EngineSafety.PowerIsBounded: the ramp is assumed finite and not negative, as a validated config has it.
- Closed-loop stability, the plant, and the latch of the field driver on an open field.
- The binding-limit field of the engine's command, which is telemetry.
