# The algorithms of ngcc_bench, modelled and proved

`ngcc_bench` loads a submitted cryptographic library, checks it, measures it and writes a report. The
libraries are foreign code; the harness around them is not. This project models the parts of the
harness that compute something of their own and proves what those parts are for:

* **SM3 and the SM3 generator** (`drng.c`). `Sm3Spec` is SM3 after GB/T 32905-2016 (padding on bits in
  section 5.2, expansion and compression in section 5.3). `Sm3Trace` and `Sm3Examples` follow it word by
  word and round by round to the two digests of the standard's examples. `Sm3Code`, `Sm3Padding` and
  `Sm3Bit` are the arrays and loops of the source, proved to compute it. `DrngSpec` and `DrngOutput` are Hash_DRBG
  (section 10.1.1 of NIST SP 800-90A Rev. 1) with Hash_df (section 10.3.1) over any hash; `BigNumber`
  and `Drng` are the byte-array code, proved to step that state and to write those bits.
* **The key exchange** (`bench_kex.c`, `loader.c`). A library is a set of arbitrary functions.
  `KexSpec` says what a run is; `KexDriver` is the driver over two message buffers, in its correctness
  and its performance form; `KexLaws` says with every argument, length and status written out which runs
  complete and succeed; `KexCheck` is the checker of recorded vectors and `KexVerdicts` says on their
  fields which pass and which fail; `KexTranscript`, `KexNames` and `KexRecording` connect them: a run,
  written down, printed, parsed and checked, is accepted.
* **The vector file** (`kat_parser.c`). `KatReader` and `KatParser` are the line reader and the parser
  as they change their buffers; `KatSpec`, `Hex` and `Decimal` say what a text parses to; `KatPrinter`,
  `KatLaws`, `KatText`, `KatBlocks` and `KatNormal` prove the round trips and what holds of every text.
  `HexLaws`, `DecimalLaws` and `KatLines` say on the characters alone what a value and a line mean.
* **The hash checker** (`bench_hash.c`). `HashLoop` and `BitRotation` are the loop test and its closed
  form; `HashCheck` and `Directories` (modules `Entries`, `HashDirectory`, `KexDirectory`) are the
  counters and the verdicts on files and directories; `HashVerdicts` and `DirectoryLaws` (modules
  `HashDirectoryLaws` and `KexDirectoryLaws`) say on the fields and names alone which vectors, files and
  directories are accepted; `HashRecording` shows that a library's own digests
  are accepted.
* **The report writer** (`json_report.c`). `JsonWriter` and `JsonReport` write any tree of nested
  objects with one comma flag; `Json` is a reader after RFC 8259; `JsonRoundTrip` proves that it reads
  the tree back, and `JsonExamples` shows one document character by character.
* **Sampling and statistics** (`stability.c`, `stats_util.c`, `bench_core.c`). `Stats`, `Spread` and
  `Median` are the running statistics and the median over the reals; `Schedule`,
  `ScheduleLaws`, `Sampling`, `Stability` and `StabilityLaws` the stability run under an arbitrary clock and stop flag;
  `Performance` the warm-up and measuring loops.

`Bytes`, `Memory`, `Modular`, `CString`, `Options` and `Accounting` are shared.

How the parts of the source that are not computation appear:

* A library call is a deterministic function of the meaningful prefixes of its inputs. It reports the
  lengths of the byte strings it returns, which may exceed any cap, and writes as much as fits.
* A hash that succeeds writes exactly the digest length it was asked for; it may also fail.
* The clock, the stop flag, the return values of the cases and the cycle counter are arbitrary
  functions of how often they were used. Square root is a parameter; where its value matters it is
  required to be a square root.
* Files are their texts, without NUL characters; a directory is a list of names and texts.
* 64-bit lengths are natural numbers below 2^64 where the source computes with them, and 32-bit words
  are bit vectors.

Five findings are stated with their exact conditions and an input each:

* The length field of `sm3_bit` is the length if and only if bits 23 to 31 of the block count are zero
  (`Sm3Padding.FieldIsLength`). 2^32 bits are the shortest failure; no call of the generator for a seed
  within the field cap comes near it.
* The byte rotation of the loop test is the bit rotation of its comment if and only if the lengths are
  whole bytes, or the message ends in a partial byte and neither rotation moves anything
  (`BitRotation.RotatesBitsIff`).
* A line that the parser ignores, or a repeated blank line, can be dropped from a text if it fits the
  reader, and makes the whole file fail if it is too long (`KatText.IgnoredLineInText`,
  `KatText.BlankLineInText`, `KatText.OverlongCommentFails`).
* The length fields of a parsed text have 8 bytes if and only if, in each block of its lines, every name
  that a length line spells first is last set to 8 bytes (`KatNormal.LengthsKeptIff`). `A_len = 5`
  followed by `A_LeN = 00` fails it (`KatNormal.MixedTextLosesLength`). A parsed file can be written
  back and parsed again if and only if that holds and every line fits
  (`KatNormal.ReprintIffBlocksCanBeWritten`).
* The report passes a stability run in which no case has run if and only if the time is up at the first
  check of the clock, memory is stable and the thresholds allow no errors and some variation
  (`StabilityLaws.EmptyPassIff`, `StabilityLaws.LatePasses`).

Where the code and its documents disagree the code is followed: `stability.c:234` continues after a
failing case, while `docs/architecture.md:66` and `tests/test_unit.c:1350-1355` say that such a case
ends the run.

## Model

| member | source | states |
|---|---|---|
| Sm3Code.LShiftIsRotation | ngcc_bench/src/drng.c:37 | the shift-and-or macro is the rotation to the left, for every amount from 0 to 31 |
| Sm3Code.BooleanFunctions | ngcc_bench/src/drng.c:33-36 | FF1/GG1 and FF2/GG2 are the boolean functions of the standard in both ranges of rounds, GG2 being the choose written with one and |
| Sm3Code.ExpandWords | ngcc_bench/src/drng.c:71-74 | after the loop the 68-word array holds the recursively defined expansion of the block |
| Sm3Code.RunRounds | ngcc_bench/src/drng.c:79-116 | the 64 in-place rounds end in the registers of the recursive definition |
| Sm3Code.Compress | ngcc_bench/src/drng.c:57-127 | the chaining value becomes the fold of the compression function over the blocks, in order |
| Sm3Code.SpreadIsP | ngcc_bench/src/drng.c:38-39 | P0 and P1 of the source are x with its rotations by 9 and 17, and by 15 and 23 |
| Sm3Examples.AbcDigest | ngcc_bench/src/drng.c:57-218 | SM3 of "abc" is the digest of the first example of GB/T 32905-2016, through all 52 expanded words and all 64 rounds |
| Sm3Examples.LongDigest | ngcc_bench/src/drng.c:57-218 | SM3 of 16 times "abcd" is the digest of the second example, through both of its blocks |
| Sm3Padding.TailByteBits | ngcc_bench/src/drng.c:146-147 | mask and or keep exactly the first r bits of the byte, set the next one and clear the rest |
| Sm3Padding.PaddingInBytes | ngcc_bench/src/drng.c:143-160 | for every bit length the bytes carry exactly the padded bits of section 5.2 |
| Sm3Padding.FieldIsLength | ngcc_bench/src/drng.c:159-160 | the written field is the length if and only if bits 23 to 31 of the block count are zero |
| Sm3Padding.FieldFailsAt4Gib | ngcc_bench/src/drng.c:159-160 | a concrete length, 2^32 bits, whose field is wrong |
| Sm3Bit.OneTailBlock | ngcc_bench/src/drng.c:149-152 | a tail of at most 447 bits is padded by one block |
| Sm3Bit.TwoTailBlocks | ngcc_bench/src/drng.c:153-158 | a longer tail is padded by two |
| Sm3Bit.WriteField | ngcc_bench/src/drng.c:159-160 | the two 32-bit stores put the written field big-endian into bytes 56 to 63 and change nothing else |
| Sm3Bit.FillTail | ngcc_bench/src/drng.c:143-147 | the block holds the partial block, its masked byte and zeros |
| Sm3Bit.Compute | ngcc_bench/src/drng.c:129-168 | the 32 bytes written are the iterated compression of the padded first n bits with the written field; nothing else of the output buffer changes |
| Sm3Bit.HashIsSm3 | ngcc_bench/src/drng.c:129-168 | and that is SM3 whenever bits 23 to 31 of the block count are zero |
| BigNumber.IncAddsOne | ngcc_bench/src/drng.c:178-186 | incrementing adds one, and gives zero exactly from the largest value of its length |
| BigNumber.IncInPlace | ngcc_bench/src/drng.c:178-186 | the early-leaving loop increments the first len bytes and no others |
| BigNumber.PlusInPlace | ngcc_bench/src/drng.c:188-199 | the first number becomes the sum of the four modulo 256 to the length (the loop keeps every carry at most 3) |
| DrngSpec.CodeHashIsSm3 | ngcc_bench/src/drng.c:226 | on every message of the generator the hash of the source is SM3 |
| DrngSpec.InstantiateIsStandard | ngcc_bench/src/drng.c:241-270 | for every seed within the 64 MiB field cap the initial state is the one of the standard over SM3 |
| DrngSpec.NextIsStandard | ngcc_bench/src/drng.c:315-319 | so is every step from any state |
| DrngSpec.AfterIsStandard | ngcc_bench/src/drng.c:315-319 | so is the state after any number of steps |
| DrngSpec.ClosedForm | ngcc_bench/src/drng.c:315-319 | after k calls C is unchanged, the counter is k + 1 and V is the stated sum, modulo 2^440 |
| DrngSpec.RunFromInstantiate | ngcc_bench/src/drng.c:241-322 | the same from an instantiated state, for any seed and any hash |
| DrngSpec.InstantiateIs | ngcc_bench/src/drng.c:201-266 | V is 55 bytes of the two hashes of the seed behind the bytes 1 or 2 and 00 00 01 B8, C the same of a zero byte and V, and the counter is 1 |
| DrngSpec.NextIs | ngcc_bench/src/drng.c:315-319 | one update adds the hash behind a 3, C and the counter to V and 1 to the counter, modulo 2^440 |
| DrngOutput.OutputByte | ngcc_bench/src/drng.c:283-322 | byte i of an output of whole bytes is byte i mod 32 of the hash of V + i div 32 |
| DrngOutput.OutputIsLeftmost | ngcc_bench/src/drng.c:282-313 | the bits returned are the leftmost n bits of Hash(V), Hash(V + 1), ..., then zero bits to a whole byte |
| DrngOutput.CountedIsSum | ngcc_bench/src/drng.c:307 | the i-th block hashes V + i modulo 2^440 |
| DrngOutput.ShorterIsPrefix | ngcc_bench/src/drng.c:272-313 | a shorter request from the same state returns a bit prefix of a longer one |
| DrngOutput.OutputIsStandard | ngcc_bench/src/drng.c:282-313 | what a request writes is the standard's output over SM3, for every state and every length |
| Drng.Df | ngcc_bench/src/drng.c:201-239 | the first 55 bytes of the buffer become Hash_df of its first len bytes, the rest stays |
| Drng.Context.Instantiate | ngcc_bench/src/drng.c:241-270 | any seed, empty included: V = df(seed), C = df(0x00 V), counter 1 |
| Drng.Context.Generate | ngcc_bench/src/drng.c:272-322 | exactly the requested bytes are written, and the new state does not depend on the request |
| Drng.WriteStream | ngcc_bench/src/drng.c:282-313 | the block loop and the final mask write that output from the start of the buffer |
| Drng.CopyUntilDone | ngcc_bench/src/drng.c:294-305 | the last, partial block: a remainder of at least 1 is copied byte by byte until it is used up |
| Drng.GenerateAll | ngcc_bench/src/drng.c:272-322 | any number of calls with any request lengths: each output is that of its own state, and the state ends after exactly that many steps |
| Drng.SeededRun | ngcc_bench/src/drng.c:241-322 | from a seed within the field cap, over SM3: all outputs, and C, counter and V in closed form after all requests |
| Loader.PassNamesDiffer | ngcc_bench/src/loader.c:104-106 | no two passes share a symbol |
| Loader.LoadPasses | ngcc_bench/src/loader.c:96-113 | the loop fills the table if and only if every symbol from pass 2 on is there, and slot p - 2 holds the function of pass p |
| Loader.LoadKexSymbols | ngcc_bench/src/loader.c:61-117 | the table exists if and only if the eleven fixed symbols, pass 1 and every later pass are there and the pass count is supported |
| Loader.PassOneName | ngcc_bench/src/loader.c:91-93 | the name of pass 1 follows the pattern of the others |
| Loader.PassNameExamples | ngcc_bench/src/loader.c:103-106 | the symbols of passes 2, 3 and 10 in full |
| Loader.PassCallsItsSymbol | ngcc_bench/src/loader.c:102-112 | pass p of a run calls the symbol of its own name, on its own side |
| KexSpec.ProtocolIffCompletes | ngcc_bench/src/bench_kex.c:151-290 | stepping through the passes reaches the derivations with given passes if and only if they are a run: 2 to passes of them, all but the last CONTINUE, the last FINISHED, every length from 1 to its cap |
| KexSpec.SideStep | ngcc_bench/src/bench_kex.c:210-276 | a pass changes state and last message of its own side only |
| KexLaws.CompletesIff | ngcc_bench/src/bench_kex.c:99-300 | a run completes if and only if each pass is the call the source makes with its own secret key, the peer's public key, the message of the pass before and the state of two passes before, all lengths are between 1 and their caps, and only the last status is FINISHED |
| KexLaws.AgreeIff | ngcc_bench/src/bench_kex.c:300-335 | the secrets agree if and only if both sides, from the last message of the other and the last state of their own, derive the same bytes, 1 to the cap of them |
| KexLaws.SucceedsIff | ngcc_bench/src/bench_kex.c:99-335 | a library succeeds if and only if such passes exist and end in one secret |
| KexLaws.EchoSucceeds | ngcc_bench/src/bench_kex.c:99-335 | a library of two passes whose every length is its cap succeeds, with the public key pass 1 must be given as the secret |
| KexDriver.Exchange.Init | ngcc_bench/src/bench_kex.c:151-181 | succeeds exactly when both init calls do and their six lengths are valid, leaving both sides' keys and states in their buffers |
| KexDriver.Exchange.NextPass | ngcc_bench/src/bench_kex.c:210-276 | reads one message buffer and writes the other over a sentinel; afterwards buffers, lengths and last messages are those of one more pass |
| KexDriver.Exchange.RunPasses | ngcc_bench/src/bench_kex.c:151-295 | the correctness run reaches the derivations exactly when the protocol does, with A's last message in buffer 0, B's in buffer 1 and both last states in place |
| KexDriver.Exchange.RunOnce | ngcc_bench/src/bench_kex.c:99-335 | 0 is returned if and only if some run completes and both sides derive the same non-empty secret within its cap |
| KexDriver.Exchange.SetupTurn | ngcc_bench/src/bench_kex.c:1102-1166 | one turn of the pass loop of the benchmark's own copy, without sentinels, has the same effect |
| KexDriver.Exchange.Setup | ngcc_bench/src/bench_kex.c:1039-1185 | the benchmark's own copy of the exchange reaches the derivations exactly when the protocol does, with the same buffers |
| KexDriver.UniqueRun | ngcc_bench/src/bench_kex.c:99-335 | a library whose stepping does not reach the derivations has no successful run; otherwise it has one exactly if both sides agree after the passes found |
| KexDriver.SameProtocol | ngcc_bench/src/bench_kex.c:1039-1185 | the two separately written exchanges both reach the derivations or both stop, and then hold the same keys, states, messages and lengths |
| KexDriver.BenchmarkAfterCorrectness | ngcc_bench/src/bench_kex.c:917-963 | after a successful correctness run neither the setup nor a benchmarked derivation can fail |
| KexDriver.Correctness | ngcc_bench/src/bench_kex.c:338-445 | the verdict is exactly valid caps and a successful run |
| KexCheck.CheckFieldLen | ngcc_bench/src/bench_kex.c:460-478 | true unless both fields are there and a non-zero length disagrees with the data |
| KexCheck.ScanVector | ngcc_bench/src/bench_kex.c:561-636 | the loop over M_p, its length and state fields is the recursive scan |
| KexCheck.CheckVector | ngcc_bench/src/bench_kex.c:540-765 | moves the counters as the verdict says and keeps passed + failed = total, also where a vector is counted and the count taken back |
| KexCheck.VerifyVectors | ngcc_bench/src/bench_kex.c:502-769 | with valid caps, passed and failed grow by the number of vectors with that verdict |
| KexVerdicts.ScanIs | ngcc_bench/src/bench_kex.c:561-636 | the scan fails if and only if a pass contradicts a length, and otherwise finds the last message and the latest state of each side |
| KexVerdicts.CheckIs | ngcc_bench/src/bench_kex.c:540-765 | a vector with a secret fails if and only if its pass number, a length or a complete side contradicts it, and passes if and only if nothing does and a side is complete |
| KexVerdicts.WrongLengthFails | ngcc_bench/src/bench_kex.c:460-478 | a recording with one wrong length field fails, whatever its secret |
| KexVerdicts.WrongPassNumFails | ngcc_bench/src/bench_kex.c:569-585 | so does one with another number of passes |
| KexVerdicts.WrongSecretFails | ngcc_bench/src/bench_kex.c:38-97 | and one of a successful run with another secret |
| KexVerdicts.OnlyTheSecretPasses | ngcc_bench/src/bench_kex.c:38-97 | the recording of a successful run passes if and only if its secret is the one of the run |
| KexTranscript.ScanSelects | ngcc_bench/src/bench_kex.c:561-636 | the scan of a recorded run selects the messages and states that the run gave to the two derivations |
| KexTranscript.RecordedRunPasses | ngcc_bench/src/bench_kex.c:540-765 | a recorded successful run passes, with both sides checked |
| KexNames.NamesDiffer | ngcc_bench/src/bench_kex.c:561-636 | the field names of a run are different without regard to case |
| KexRecording.TranscriptIsRecording | ngcc_bench/src/bench_kex.c:540-765 | the vector written from a run is a recording of it |
| KexRecording.TranscriptSurvives | ngcc_bench/src/kat_parser.c:380-542 | printed and parsed, it comes back unchanged |
| KexRecording.RecordedFileVerifies | ngcc_bench/src/bench_kex.c:540-765 | both together: the printed run parses to the transcript and the transcript passes |
| KexDirectory.RecordedFilePasses | ngcc_bench/src/bench_kex.c:790-915 | the file of a library's own successful run is accepted |
| KexDirectory.VerifyFile | ngcc_bench/src/bench_kex.c:790-915 | 0 if and only if the file parses, at least one vector passes and none fails; then passed = total > 0 |
| KexDirectory.VerifyDirectory | ngcc_bench/src/bench_kex.c:790-915 | 0 if and only if every relevant file parses, at least one vector passes and none fails |
| KexDirectoryLaws.FilePassesIff | ngcc_bench/src/bench_kex.c:771-905 | a file is accepted if and only if the library has 2 to 100 passes and caps of 1 byte to 64 MiB, the text parses, a vector passes and none fails |
| KexDirectoryLaws.TallyPositive | ngcc_bench/src/bench_kex.c:855-905 | the tally of a verdict is not zero if and only if a file named KAT_KEX_ holds such a vector |
| KatTypes.KeyEqualsCi | ngcc_bench/src/kat_parser.c:39-48 | the loop decides equality after folding case |
| KatTypes.LookUp | ngcc_bench/src/kat_parser.c:544-558 | the first field of the name, whatever its case, or none |
| KatTypes.FieldToU64 | ngcc_bench/src/bench_hash.c:141-154 | an 8-byte field is its big-endian number, any other length is 0 |
| KatLines.NamesEqualIff | ngcc_bench/src/kat_parser.c:37-46 | names are equal if and only if they are so letter by letter, small or capital |
| Decimal.UndecDec | ngcc_bench/src/kat_parser.c:457-487 | reading the printed decimal of a number gives it back |
| DecimalLaws.NumberIff | ngcc_bench/src/kat_parser.c:440-489 | a text is read to its end as a number if and only if it is a sign or none and digits, the value taken from 2^64 after a minus sign and 2^64 - 1 past the limit |
| DecimalLaws.DecUndec | ngcc_bench/src/kat_parser.c:440-489 | digits without a leading zero are the decimal form of their number |
| Hex.ParseHexBytes | ngcc_bench/src/kat_parser.c:173-246 | the one-pass filter of fillers and 0x marks, the parity test and the decoding are the recursive definition |
| Hex.ParseHexOf | ngcc_bench/src/kat_parser.c:173-246 | reading printed hex gives the bytes back |
| HexLaws.ReadsIff | ngcc_bench/src/kat_parser.c:160-246 | a value is read as some bytes if and only if it is no longer than the cap and consists of digits of either case that spell them, fillers and 0x marks |
| HexLaws.AnyCaseIsRead | ngcc_bench/src/kat_parser.c:160-171 | the digits of bytes are read in any mix of cases |
| HexLaws.NormalizesIff | ngcc_bench/src/kat_parser.c:192-209 | a value is refused at a character if and only if it is no digit, no filler and no x after a zero |
| KatReader.TextFile.ReadFullLine | ngcc_bench/src/kat_parser.c:81-141 | whatever the size of its reads, a whole line is returned, or the end of the file, or the error for a line over the limit |
| KatParser.TrimSpaces | ngcc_bench/src/kat_parser.c:21-37 | advancing the start and retreating the end is trimming both ends |
| KatParser.Parser.SetField | ngcc_bench/src/kat_parser.c:263-325 | replaces the data under a name known in any case, or appends a field |
| KatParser.Parser.FlushVector | ngcc_bench/src/kat_parser.c:327-378 | appends the built vector and empties the builder, at most 1000 times |
| KatParser.Parser.HandleLine | ngcc_bench/src/kat_parser.c:402-516 | one line moves the parser as the line semantics says, and auto_index stays the number of vectors |
| KatParser.ParseFile | ngcc_bench/src/kat_parser.c:380-542 | the whole parse is the semantics of the text |
| KatLines.LineDoes | ngcc_bench/src/kat_parser.c:402-510 | every line has exactly one meaning by its characters - nothing, the end of a block, failure, a number or an assignment - and moves the parser as that meaning says, with the limits written out |
| KatLines.SaysIff | ngcc_bench/src/kat_parser.c:434-507 | what a name and a value mean, with the reserved name, the length names and the 32-bit number written out |
| KatLines.FitsIff | ngcc_bench/src/kat_parser.c:80-137 | a line of up to 134221824 characters fits, one fewer without a newline |
| KatPrinter.SplitLine | ngcc_bench/src/kat_parser.c:425-433 | a printed line splits into the name and the value it was printed from |
| KatPrinter.ParseUndoesPrint | ngcc_bench/src/kat_parser.c:380-542 | for any 1 to 1000 vectors with legal, different names: they come back, in order, from the text that prints them if and only if every length field has 8 bytes and every line fits the reader |
| KatLaws.ParsedIsWellFormed | ngcc_bench/src/kat_parser.c:263-325 | every text parses to 1 to 1000 non-empty vectors with names different without regard to case, free of space, never COUNT |
| KatLaws.LastWriteWins | ngcc_bench/src/kat_parser.c:263-325 | setting a name makes its lookup answer with the new data and changes no other lookup |
| KatLaws.VectorIsMap | ngcc_bench/src/kat_parser.c:263-325 | after any successful assignments to a vector a lookup finds the last one to the name, and nothing exactly when there is none |
| KatLaws.IgnoredLineDropped | ngcc_bench/src/kat_parser.c:420-429 | among lines the reader has accepted, a comment or a line without an equals sign can be dropped anywhere |
| KatLaws.BlankLineRepeated | ngcc_bench/src/kat_parser.c:408-419 | among accepted lines a blank line can be repeated anywhere |
| KatLaws.EssentialFileSuffices | ngcc_bench/src/kat_parser.c:402-516 | among accepted lines all ignored ones can be dropped |
| KatText.ParseTextIs | ngcc_bench/src/kat_parser.c:380-542 | every text parses as its lines do if all of them fit the reader, and fails otherwise |
| KatText.IgnoredLineInText | ngcc_bench/src/kat_parser.c:402-429 | in any text an ignored line can be dropped if it fits; one that does not makes the whole text fail |
| KatText.BlankLineInText | ngcc_bench/src/kat_parser.c:402-419 | the same for a repeated blank line |
| KatText.EssentialTextSuffices | ngcc_bench/src/kat_parser.c:380-542 | any text parses like itself without its ignored lines if these fit, and fails if one does not |
| KatText.OverlongCommentFails | ngcc_bench/src/kat_parser.c:129-133 | a comment one character too long makes every file fail, whatever follows |
| KatBlocks.VectorsAreBlocks | ngcc_bench/src/kat_parser.c:402-531 | a parsed text has one vector for each block of lines that sets anything, in order, holding what those lines set one after the other |
| KatBlocks.LookupIsLastLine | ngcc_bench/src/kat_parser.c:544-558 | looking a name up in a parsed vector gives the value of the last line of its block that sets it, and nothing exactly when no line does |
| KatBlocks.NameIsFirst | ngcc_bench/src/kat_parser.c:278-290 | a stored field keeps the spelling of the first line that set it |
| KatNormal.ParsedNamesAreLegal | ngcc_bench/src/kat_parser.c:425-514 | every name a parse stores is one that can be printed |
| KatNormal.ReprintedFileParsesBack | ngcc_bench/src/kat_parser.c:380-542 | every parsed file, printed and parsed again, gives the same vectors if and only if every length field kept its 8 bytes and every line fits |
| KatNormal.LengthsKeptIff | ngcc_bench/src/kat_parser.c:452-514 | the length fields of a parsed text have 8 bytes if and only if, in each block, every name that a length line spells first is last set to 8 bytes |
| KatNormal.ReprintIffBlocksCanBeWritten | ngcc_bench/src/kat_parser.c:380-542 | so, on the lines of the text: parsing, printing and parsing gives the same vectors if and only if that holds and the printed lines fit |
| KatNormal.SpelledAlikeText | ngcc_bench/src/kat_parser.c:452-514 | lengths are kept in every text in which no block spells one name both as a length and otherwise |
| KatNormal.StepKeepsLengthsIff | ngcc_bench/src/kat_parser.c:452-514 | a single line breaks the 8 bytes exactly when it gives hex data of another size to a name that a length line spelled first |
| KatNormal.LengthLost | ngcc_bench/src/kat_parser.c:452-514 | a family of two-line texts that lose a length |
| KatNormal.MixedTextLosesLength | ngcc_bench/src/kat_parser.c:452-514 | one of them, of 21 characters: its one vector has a length field of a single byte |
| KatNormal.MixedCaseReplacesLength | ngcc_bench/src/kat_parser.c:60-68 | a length field takes the data of a later hex line whose name differs from its own in case only and marks no length |
| KatNormal.SuchNamesExist | ngcc_bench/src/kat_parser.c:60-68 | two such names: equal without regard to case, one marking a length and one not |
| HashLoop.Rotate | ngcc_bench/src/bench_hash.c:482-484 | the three copies rotate the message by the digest length |
| HashLoop.ClosedForm | ngcc_bench/src/bench_hash.c:474-509 | byte j after k rounds is the original byte j + k d, xored with every digest byte that earlier rounds put where it has since been rotated to j |
| HashLoop.DigestIs | ngcc_bench/src/bench_hash.c:463-509 | the digest of any round is the hash of the first bits of the message of that round |
| HashLoop.RoundFailsIff | ngcc_bench/src/bench_hash.c:463-509 | a round fails if and only if an earlier one does or the hash of its own message, the earlier one rotated and xored byte by byte |
| BitRotation.RotatesBitsIff | ngcc_bench/src/bench_hash.c:475-484 | the exact lengths for which the byte rotation is the bit rotation of the comment |
| BitRotation.TwelveBitDigest | ngcc_bench/src/bench_hash.c:475-484 | a concrete message of two bytes on which they differ for a digest of 12 bits |
| HashCheck.FromSeed | ngcc_bench/src/bench_hash.c:222-262 | the message of a seed is the first output of a generator instantiated with it |
| HashCheck.SeedMessageIsStandard | ngcc_bench/src/bench_hash.c:222-262 | for a seed within the field cap it is the output of the standard's generator over SM3 |
| HashCheck.CheckVector | ngcc_bench/src/bench_hash.c:179-345 | moves the counters as the verdict says and keeps passed + failed = total |
| HashCheck.VerifyVectors | ngcc_bench/src/bench_hash.c:156-350 | passed and failed grow by the number of vectors with that verdict; false if and only if one is flagged |
| HashCheck.RunLoop | ngcc_bench/src/bench_hash.c:459-509 | message and digest buffer after the loop are those of the round semantics, and it fails exactly when one of the hashes does |
| HashCheck.VerifyLoop | ngcc_bench/src/bench_hash.c:374-526 | passes exactly when the digest after all rounds is the expected one, counting the vector once |
| HashVerdicts.CheckIs | ngcc_bench/src/bench_hash.c:179-345 | a vector passes if and only if its digest has the length asked for and is that of its message, and fails, counted or not, exactly for the stated reasons on its fields |
| HashVerdicts.WrongDigestFails | ngcc_bench/src/bench_hash.c:306-344 | a passing vector fails when its digest is changed, and fails the file itself unless the length changed |
| HashVerdicts.CountIs | ngcc_bench/src/bench_hash.c:156-350 | the counters are the numbers of vectors that pass and that fail |
| HashVerdicts.LoopIs | ngcc_bench/src/bench_hash.c:374-526 | the loop test passes if and only if the digest after the rounds, from Msg cut or filled with zeros, is Dst |
| HashVerdicts.LoopsIff | ngcc_bench/src/bench_hash.c:395-450 | what a loop vector must have before anything is hashed, with the limits written out |
| HashDirectory.VerifyFile | ngcc_bench/src/bench_hash.c:624-643 | 0 if and only if the file parses, passes and has a passed and no failed vector; then passed = total > 0 |
| HashDirectory.VerifyDirectory | ngcc_bench/src/bench_hash.c:657-741 | 0 if and only if every relevant file passes and each of the four types contributes a passed vector; then passed = total > 0 |
| HashDirectoryLaws.ClassifyIs | ngcc_bench/src/bench_hash.c:538-553 | the four prefixes of nine characters |
| HashDirectoryLaws.ResultIs | ngcc_bench/src/bench_hash.c:576-643 | a file is accepted if and only if it parses and its loop passes or each of its vectors passes or is passed over |
| HashDirectoryLaws.DirectoryPassesIff | ngcc_bench/src/bench_hash.c:602-746 | a directory is accepted if and only if every file with a prefix is and each prefix has one in which something passes |
| HashRecording.MessageFilePasses | ngcc_bench/src/bench_hash.c:624-643 | a file printed from messages and the library's own digests of them passes with every vector |
| HashRecording.LoopFilePasses | ngcc_bench/src/bench_hash.c:374-526 | so does a loop file with the library's own digest after all rounds |
| HashRecording.RecordedDirectoryPasses | ngcc_bench/src/bench_hash.c:657-741 | a directory of such files with one of each required type is accepted |
| JsonWriter.Writer.WriteEscaped | ngcc_bench/src/json_report.c:51-74 | appends the quoted, escaped string |
| JsonWriter.Writer.BeginObject | ngcc_bench/src/json_report.c:76-87 | writes comma, indent, key and brace, deepens the indent and owes no comma |
| JsonWriter.Writer.EndObject | ngcc_bench/src/json_report.c:89-95 | closes on its own line at the outer indent and owes a comma |
| JsonReport.WriteMembers | ngcc_bench/src/json_report.c:31-148 | for any tree, the calls append its text, return to the indent and leave the flag owed exactly if a comma is |
| JsonReport.WriteReport | ngcc_bench/src/json_report.c:269-461 | whatever members the report has, the text from the opening of the root to the last newline is the document of their tree, and the indent ends at 0 |
| JsonRoundTrip.EscapedReads | ngcc_bench/src/json_report.c:51-74 | every escaped string reads back as the original |
| JsonExamples.Escapes | ngcc_bench/src/json_report.c:51-74 | the escape of every character, written out |
| JsonExamples.DocumentText | ngcc_bench/src/json_report.c:31-148 | one nested document, character by character |
| JsonRoundTrip.TokensAreNumbers | ngcc_bench/src/json_report.c:122-141 | what the number writers print, sign and six digits included, is a JSON number |
| JsonRoundTrip.ReportReads | ngcc_bench/src/json_report.c:31-148 | the document of any tree, at any depth, parses under RFC 8259 back to that tree |
| Stats.RunningStats.Update | ngcc_bench/src/stats_util.c:35-61 | if the record holds count, mean, squared deviations and extremes of the samples, it then holds those of the samples and the new one |
| Stats.WelfordStep | ngcc_bench/src/stats_util.c:45-53 | the increment of the recurrence is the change of the sum of squared deviations from the mean |
| Stats.MinMaxAreExtremes | ngcc_bench/src/stats_util.c:55-60 | the minimum and maximum are samples and bound all of them |
| Stats.StatisticsScale | ngcc_bench/src/stats_util.c:35-61 | scaling the samples by b scales the mean by b and the squared deviations by its square |
| Spread.StddevScales | ngcc_bench/src/stats_util.c:63-68 | and the standard deviation by b, for positive b |
| Spread.CvIsScaleFree | ngcc_bench/src/stability.c:319-348 | the coefficient of variation does not change under positive scaling |
| Spread.VarianceFromSums | ngcc_bench/src/stats_util.c:63-68 | n (n - 1) times the variance is n times the sum of squares less the square of the sum |
| Spread.SpreadIs | ngcc_bench/src/stability.c:319-348 | the standard deviation squared is the variance and the coefficient of variation is it as a percentage of a positive mean |
| Median.SortedIsUnique | ngcc_bench/src/bench_core.c:38 | any correct sort gives the same array |
| Median.ComputeMedian | ngcc_bench/src/bench_core.c:33-43 | the result is the median of the samples before sorting, and the array ends sorted |
| Median.MedianIgnoresOrder | ngcc_bench/src/bench_core.c:33-43 | the median depends on the samples, not on their order |
| Median.MedianWithinExtremes | ngcc_bench/src/bench_core.c:33-43 | it lies between minimum and maximum |
| Median.MedianHalves | ngcc_bench/src/bench_core.c:33-43 | at most half of the samples lie below it and at most half above |
| Median.MedianIs | ngcc_bench/src/bench_core.c:33-43 | it is the middle value of any ascending arrangement, or half the sum of the two middle ones |
| Median.MedianNegates | ngcc_bench/src/bench_core.c:33-43 | changing the sign of all samples changes that of the median |
| Schedule.EndingIsEarned | ngcc_bench/src/stability.c:177-302 | a run ends only with all cases used or the clock past the limit, its last look not seeing the flag, or with its last look seeing it, or with one of its last two readings failed |
| Schedule.ClockFailedIff | ngcc_bench/src/stability.c:177-302 | a run ends with a failed clock if and only if a reading it took failed |
| Schedule.InterruptedIff | ngcc_bench/src/stability.c:177-302 | with a flag that stays raised and a clock that does not fail, a run is interrupted if and only if one of its looks saw the flag |
| Schedule.UndisturbedRun | ngcc_bench/src/stability.c:177-302 | when none of its looks sees the flag and none of its readings fails, a run ends by one of its two limits |
| Schedule.NoCaseIff | ngcc_bench/src/stability.c:185-216 | no case runs if and only if the first look sees the flag, time is up at the first check, or one of the first two readings after the origin fails |
| ScheduleLaws.WholeIff | ngcc_bench/src/stability.c:177-302 | a run is the one of the schedule if and only if its batches follow one another, each holding exactly the cases the flag, the target and the limits allow, and it closes as they say |
| ScheduleLaws.BatchesAreFull | ngcc_bench/src/stability.c:244-266 | no batch goes on past its target, its time, its cases, the flag or a failed reading, and each goes on until one of them |
| ScheduleLaws.SamplesOf | ngcc_bench/src/stability.c:269-293 | what a batch is measured at, by its two readings and the set of its succeeding cases |
| ScheduleLaws.ByteSampleOf | ngcc_bench/src/stability.c:285-287 | its byte rate is its rate times the bytes of a case |
| ScheduleLaws.CollectJoins | ngcc_bench/src/stability.c:177-302 | the samples of a run are those of its parts, in order |
| Sampling.RunBatch | ngcc_bench/src/stability.c:217-266 | the inner loop runs exactly to the first case that ends the batch and counts its successes and errors |
| Sampling.Meters.Record | ngcc_bench/src/stability.c:278-293 | the four statistics stay those of the samples of all batches so far |
| Sampling.ByteRatesAreScaled | ngcc_bench/src/stability.c:284-288 | the byte-throughput samples are the case-throughput samples times the bytes of a case |
| Sampling.FewerRatesThanTimes | ngcc_bench/src/stability.c:278-288 | there are never more throughput samples than time samples |
| Sampling.RunLoop | ngcc_bench/src/stability.c:177-303 | for every clock and flag the loops end with the batches of the schedule, cases = executions, the errors among them, and statistics of exactly those batches |
| CString.AppendReason | ngcc_bench/src/stability.c:44-56 | the string becomes the old one and the reason, cut to the capacity, and stays terminated |
| Stability.MemoryStableIff | ngcc_bench/src/stability.c:71-95 | for all sizes and limits: memory is stable if and only if it was measured, both limits are positive, and its growth, absolute and relative, is below them |
| Stability.ListReasons | ngcc_bench/src/stability.c:381-394 | the buffer holds all reasons that apply, in order, never cut |
| Stability.RunStability | ngcc_bench/src/stability.c:97-414 | a result exists exactly for valid arguments and a first clock reading; its counts, figures, verdict and reasons are those of the schedule and the cases, and -1 is returned exactly when the clock failed |
| StabilityLaws.EachCaseCountedOnce | ngcc_bench/src/stability.c:217-293 | cases = executions, at most the maximum; errors and the successes of the batches add up to them |
| StabilityLaws.ErrorRateIsPercentage | ngcc_bench/src/stability.c:315-317 | the rate lies in 0 to 100, is 0 exactly without errors and 100 exactly when every case that ran failed |
| StabilityLaws.DefaultAllowsNoError | ngcc_bench/src/stability.c:58-69 | with the default error threshold a run is correct if and only if every case that ran returned 0 |
| StabilityLaws.FailuresDoNotEndRun | ngcc_bench/src/stability.c:217-240 | a corollary of the contract of Sampling.RunLoop, whose batches do not depend on outcomes: whatever the cases return, the same cases run and the run ends in the same way |
| StabilityLaws.ByteRateVariesAlike | ngcc_bench/src/stability.c:327-348 | with bytes to count, byte throughput has the coefficient of variation of case throughput |
| StabilityLaws.EmptyRunIsStable | ngcc_bench/src/stability.c:362-376 | a run whose schedule lets no case run is STABLE if and only if memory is stable and the thresholds are positive, the one for errors not negative |
| StabilityLaws.NoCaseRunsIff | ngcc_bench/src/stability.c:185-216 | the result counts no case if and only if the schedule ends at once |
| StabilityLaws.EmptyPassIff | ngcc_bench/src/main.c:427-485 | the report passes a run without a case if and only if time is up at the first check, memory is stable and the thresholds allow no errors and some variation |
| StabilityLaws.LatePasses | ngcc_bench/src/main.c:427-485 | a concrete run of an hour that passes under the default thresholds with no case run |
| StabilityLaws.NoSuccessIsSteady | ngcc_bench/src/stability.c:278-366 | without one success no sample is taken, and performance is stable exactly if the thresholds are positive |
| StabilityLaws.ReasonsIffUnstable | ngcc_bench/src/stability.c:381-394 | no reason is listed if and only if the run is stable and the cycle counter was not missing |
| StabilityLaws.PassMeans | ngcc_bench/src/main.c:427-485 | a passing report means: ended by its own limits, and failed cases, memory and every variation within the thresholds, the byte throughput included; no reason but a missing cycle counter is listed |
| StabilityLaws.FailedCaseFailsReport | ngcc_bench/src/main.c:427-485 | with the default error threshold one failed case fails the report, unless the run was stopped |
| StabilityLaws.DefaultVerdict | ngcc_bench/src/stability.c:58-69 | by the default thresholds a run is stable if and only if no case failed, every variation is below 5 percent and memory grew by less than a hundredth and less than 100000 bytes |
| StabilityLaws.ReasonTexts | ngcc_bench/src/stability.c:381-394 | the text of the reasons for each cause and for all together |
| Performance.Measure | ngcc_bench/src/bench_core.c:192-237 | true exactly when every operation and clock reading of the loop succeeds; then arrays and statistics hold the samples of all iterations |
| Performance.RunPerformance | ngcc_bench/src/bench_core.c:105-296 | 0 if and only if every warm-up and measured call and every clock reading succeeds; the figures are those of the measured samples, with the mean for a median whose samples could not be kept; otherwise the caller's result is untouched or holds only its two counts, as the failure was before or after the warm-up |
| Performance.FiguresOrdered | ngcc_bench/src/bench_core.c:254-283 | mean and reported median lie between the extremes, samples kept or not |
| Performance.ThroughputFitsMeanTime | ngcc_bench/src/bench_core.c:241-258 | with a clock that never runs backwards, operations per second times mean milliseconds is at most 1000 |
| Performance.TimeIs | ngcc_bench/src/bench_core.c:196-235 | sample i is the time between the readings around iteration i |
| Performance.SummaryIs | ngcc_bench/src/bench_core.c:33-43 | the figures of samples by any ascending arrangement of them and by their sums |

## Left out

- Rotation by 0 in `L_SHIFT` (rounds 0 and 32) shifts by 32 in C; it is taken as the identity the standard means.
- Library functions that are not deterministic, that depend on what an output buffer held, or that write outside their outputs.
- HashCheck.VerifyLoop: the number of rounds is a parameter, so the statement holds for 1,000,000 and any other number.
- HashCheck.ToInt32: `digest_len_bits` is a natural number; the overflow of `digest_len_bits + 7` in C at the largest int is not modelled.
- Stats.RunningStats.Update: over the reals; rounding, infinities and NaN of doubles are not modelled.
- Median.QSort: the library sort is one assignment of the sorted samples; `Median.SortedIsUnique` says why any sort gives the same.
- JsonRoundTrip.TokensAreNumbers: the digits that `%.6f` chooses for a double are opaque; a NaN or infinity, which it prints as a word, is no JSON number and is not covered.
- JsonRoundTrip.ReportReads: characters are code points without NUL; bytes that are not UTF-8 are not modelled, and the reader knows no arrays and no surrogate escapes, which are never written.
- JsonReport.WriteReport: which members the report has is left open, so the order of its calls is not modelled, nor are its keys and values, its language, its time stamp and its environment metadata.
- KatPrinter.ParseUndoesPrint: the printer is not a part of the source; a name is legal when it is non-empty, not COUNT, has no space, equals sign or NUL and does not begin like a comment.
- KatReader.TextFile.ReadFullLine: a read error of the file, and NUL characters in it, which end a C string early.
- Allocation failures other than those of the two sample arrays of a benchmark, and the memory they would free.
- Sampling.RunBatch: the two loops of `ngcc_run_stability` are split into methods for one batch, its start and its end; a message is logged for none of them.
- Signal handlers, the kind of the cycle counter, memory probes, `dlopen`, directory walking, path building, option parsing, prompts and logging.
- `bench_sig.c` and `bench_kem.c`, whose vector accounting is a simpler copy of the two modelled here, and the remaining library calls.
