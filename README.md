# rafi core, modelled in Dafny

rafi is a RISC-V emulator, trace toolkit and hardware-build orchestrator.
This project models its sequential core in Dafny and proves properties of
that model. It covers six parts.

- **Build-rule generation** (`metabuild.dfy`, `paths.dfy`, `build_script.dfy`,
  `riscv_tests.dfy`, `binary_to_text.dfy`). These model the metabuild
  compiler, which turns a JSON project description into Ninja build text:
  `common` defaults merged into each project, path normalisation,
  `mkdir` rules deduplicated through a set, and dispatch on the project
  type. They also model the top-level rule writer, the riscv-tests name
  filter and the binary-to-hex-text converter.
- **The RV32I decoder and the disassembly renderers** (`op_decoder.dfy`,
  `asm_text.dfy`, `rv64i.dfy`, `rv32m.dfy`, `rv64m.dfy`, `rv32a.dfy`,
  `rv64a.dfy`, `rv32f.dfy`, `rv32d.dfy`, `op_deprecated.dfy`). The decoder
  is a function from instruction words to an optional operation. Each
  renderer is a function from an operation to its text. Their properties
  are stated through a reader that splits a line back into its mnemonic
  and operands.
- **The emulator's trap state machine and cycle loop** (`privileged.dfy`,
  `cpu.dfy`, `event_types.dfy`). These are classes over a CSR file, which
  is a map from CSR address to value plus the privilege level and the pc.
  The CSR rules are written as pure functions that state the privileged
  architecture's delegation, the xIE/xPIE/xPP stack, the trap vector and
  trap return.
- **Trace buffers** (`trace_format.dfy`, `cycle_builder.dfy`,
  `memory_writer.dfy`, `memory_reader.dfy`, `index_reader.dfy`,
  `logger.dfy`). These are classes over a bounded byte buffer or a cursor.
  A pure encoding of trace records is proved to decode back.
- **Memories** (`bytes.dfy`, `emu_memory.dfy`, `core_memory.dfy`). RAM and
  ROM are byte arrays with bounds checks. The test-bench memory serves a
  core's memory port.
- **Small helpers** (`dump.dfy`, `run_test_on_pc.dfy`,
  `run_riscv_tests.dfy`, `text.dfy`, `common.dfy`). These cover the trace
  dump window, the log scanner and command builders of the test runners,
  the test-configuration partition, and the text, number and bit-field
  helpers the other modules share.

Code the model cannot see becomes a function-typed parameter or abstract
state: register and CSR naming, rounding-mode naming, sign extension, the
MMU, the decoder and executor seen from the processor, cycle parsing, the
match predicate and the current directory. File contents come in as
inputs.

The model follows the code as written, quirks included:

- Stores are decoded with the I-format immediate.
- Three RV32D conversions test the rounding-mode lookup the other way
  round, so a missing mode name reaches `%s` as a null pointer, which
  glibc prints as `(null)`.
- BinaryToText pads with the length of the whole file, not of the row.
  So the bytes 1, 2, 3 give `0201\n03\n`, not a zero-padded last row.
- Python's `rstrip(".S")` strips a character set, not a suffix.
- Python's `== False` also matches `0`.

`src/lib/trace/BinaryCycleLogger.cpp` repeats the buffer operations of
`src/lib/trace/BinaryCycleBuilder.cpp` line for line. One class,
`CycleBuilder.BinaryCycleBuilder`, models both.

## Model

| member | source | states |
|---|---|---|
| AsmText.Dec | src/lib/op/RV64I.cpp:31 | `%d` of a 32-bit immediate prints text with no comma or space that parses back to the immediate read as a signed 32-bit value |
| AsmText.Hex | src/lib/op/RV64I.cpp:554 | `0x%x` prints `0x` and hex digits whose value is the argument's unsigned 32-bit bit pattern |
| AsmText.ReadAsmRoundTrip | src/lib/op/RV32M.cpp:32 | a line `op a,b,c` splits back into its mnemonic and its operands whenever the mnemonic has no space and no operand has a comma |
| AsmText.AddressCommaFree | src/lib/op/RV64I.cpp:248 | the load/store operand `imm(base)` has no comma when the base register name has none, so it reads back as one operand |
| BinaryToText.Zeros | deprecated/tool/BinaryToText.py:45 | `[0] * k` has `k` elements when `k` is positive and none otherwise |
| BinaryToText.Rows | deprecated/tool/BinaryToText.py:40-42 | the row loop visits `len(binary) // 2 + 1` rows, and row `i` is the slice of at most two bytes starting at `2i` |
| BinaryToText.HexReversed | deprecated/tool/BinaryToText.py:46-47 | the reversed bytes print as two lowercase hex digits each |
| BinaryToText.AppendRow | deprecated/tool/BinaryToText.py:46-47 | the inner loop appends exactly the bytes of the row in reverse order as hex |
| BinaryToText.AppendFile | deprecated/tool/BinaryToText.py:40-48 | the row loop appends the text of one file: each row's hex followed by a newline |
| BinaryToText.Convert | deprecated/tool/BinaryToText.py:35-48 | the file loop leaves `text` equal to the files' texts concatenated in argument order |
| BinaryToText.Run | deprecated/tool/BinaryToText.py:28-52 | no input files exits with status 1 and its message; then no output file exits with status 1; otherwise the output file receives the whole text |
| BinaryToText.FileLines | deprecated/tool/BinaryToText.py:40-48 | a file's text splits at newlines into exactly its rows followed by an empty tail, one row per two bytes plus one |
| BinaryToText.FullRow | deprecated/tool/BinaryToText.py:44-47 | a row holding a whole two-byte chunk prints its second byte before its first (little-endian halfword as hex) |
| BinaryToText.LastRow | deprecated/tool/BinaryToText.py:40-45 | for a file of two or more bytes the extra last row is empty for an even length and is the last byte alone for an odd length, because the padding `LineSize - len(binary)` is then negative |
| BinaryToText.ShortFile | deprecated/tool/BinaryToText.py:45 | a file of fewer than two bytes is padded with zeros to a full row (`0000`, or `00` and the byte) |
| BinaryToText.ThreeBytes | deprecated/tool/BinaryToText.py:40-48 | the bytes 1, 2, 3 produce the text `0201\n03\n` |
| BinaryToText.FullRowRoundTrip | deprecated/tool/BinaryToText.py:44-47 | a full row's four hex digits decode back to the two bytes of its chunk |
| BinaryToText.FileRoundTrip | deprecated/tool/BinaryToText.py:37-48 | reading a file's text back line by line gives the file followed by the zeros it was padded with: the file itself for two bytes or more, the byte and a zero for one byte, two zeros for the empty file |
| BinaryToText.EmptyAndZeroCollide | deprecated/tool/BinaryToText.py:45 | the empty file and the file holding one zero byte are written as the same text, because the padding uses the whole file's length |
| BinaryToText.FileTextInjective | deprecated/tool/BinaryToText.py:37-48 | two files of at least two bytes with the same text are the same file |
| BinaryToText.OutputAppend | deprecated/tool/BinaryToText.py:37-48 | the output for a list of files is the output for a prefix followed by the output for the rest |
| MetaBuildScript.RStrip | Tools/MetaBuild.py:48 | `rstrip(chars)` gives the longest prefix whose last character is not in the set, having removed only characters of the set |
| MetaBuildScript.RStripUnique | Tools/MetaBuild.py:48 | that characterisation determines the stripped result uniquely |
| MetaBuildScript.TestNameStripsCharacters | Tools/MetaBuild.py:48 | `rstrip(".S")` strips a character set, not a suffix: any trailing run of `.` and `S` is removed down to the last other character (so `PASS.S` gives `PA`), and a name ending in any other character is unchanged |
| MetaBuildScript.ObjectBuildRead | Tools/MetaBuild.py:52-55 | read as Ninja (with `$` line continuations joined), the object build is one line: target, source, and the output directory as an order-only input |
| MetaBuildScript.TextBuildRead | Tools/MetaBuild.py:63-64 | read as Ninja, the text build takes the test's binary as its only input |
| MetaBuildScript.MakeTestBuildRule | Tools/MetaBuild.py:45-66 | the name loop appends the three builds of each stripped source name, in directory-listing order |
| MetaBuildScript.MakeMkdirRule | Tools/MetaBuild.py:68-79 | the path loop appends one `mkdir` build per working directory, in order |
| MetaBuildScript.MkdirRulesListed | Tools/MetaBuild.py:69-73 | those builds are for the emulator trace, processor trace and PC-log directories, in that order |
| MetaBuildScript.CompileNext | Tools/MetaBuild.py:98-99 | one more input document either adds its rules text to the outputs or reports the error compiling it raises |
| MetaBuildScript.WriteDocuments | Tools/MetaBuild.py:98-99 | the input loop writes the rules of the documents in order, stopping at the first document that fails, which is then the one reported |
| MetaBuildScript.Run | Tools/MetaBuild.py:29-99 | no output file exits with status 1 and its message; otherwise the file holds the header, the test builds, the mkdir builds and then the compiled documents in order |
| Bytes.Zeros | src/lib/emu/Ram.cpp:30-35 | a cleared buffer holds `n` zero bytes |
| Bytes.Overwrite | src/lib/trace/TraceBinaryMemoryWriter.cpp:50 | `memcpy` to `at` makes the range `[at, at+len)` equal to the data and leaves every other byte as it was |
| Bytes.OverwriteUnique | src/lib/emu/Ram.cpp:75-80 | any buffer that agrees with the data on the range and with the old buffer elsewhere is the result of the copy |
| Bytes.OverwriteTwice | src/lib/emu/Ram.cpp:75-80 | a second write of the same range replaces the first |
| Bytes.OverwriteDisjoint | src/lib/emu/Ram.cpp:75-80 | writes to disjoint ranges commute |
| Bytes.OverwritePrefix | src/lib/trace/BinaryCycleBuilder.cpp:114-123 | copying at `at` keeps the bytes below `at` and puts the data right after them |
| Bytes.MemCopy | src/lib/trace/TraceBinaryMemoryWriter.cpp:50 | `memcpy` into an array leaves it equal to the overwritten old contents |
| Common.PrivOf | src/bin/rafi-emu/cpu/TrapProcessor.cpp:104 | reading a two-bit privilege field gives the level whose encoding it is |
| Common.PrivRoundTrip | src/bin/rafi-emu/cpu/TrapProcessor.cpp:104 | the encoding of privilege levels is one-to-one: a level's value reads back as that level |
| Common.BitsDiv | src/lib/op/OpDecoder.cpp:21-26 | taking `width` bits at `lsb` by shifts and a mask is the quotient by `2^lsb` reduced modulo `2^width` |
| Common.BitsOf | src/lib/op/OpDecoder.cpp:21-26 | a field placed at `lsb` with its neighbours reads back as exactly that field |
| Common.BitsAtMost | src/lib/op/OpDecoder.cpp:21-26 | a bit field of a value never exceeds the value |
| CoreMemory.Memory.constructor | cpu/test/Core/Memory.cpp:27-31 | a new memory of the given capacity is all zeros |
| CoreMemory.Memory.Offset | cpu/test/Core/Memory.cpp:53-55 | a line address maps to `(addr × lineSize) mod Capacity`, always inside the memory |
| CoreMemory.Memory.LoadFile | cpu/test/Core/Memory.cpp:38-49 | a file that cannot be opened aborts with the memory unchanged; otherwise its first bytes, at most the capacity, are copied to the start of the memory and the rest is kept |
| CoreMemory.Memory.UpdateCore | cpu/test/Core/Memory.cpp:51-81 | a write cycle sets done, zeroes the read value and copies the line in at the offset; a read cycle sets done and returns the line at the offset with the memory unchanged; an idle cycle clears done, zeroes the read value and changes nothing; an access needs `offset + lineSize < Capacity` |
| Cpu.Csr.ReadUInt64 | src/bin/rafi-emu/cpu/TrapProcessor.cpp:142 | reading a CSR gives its value, zero when it was never written |
| Cpu.Csr.WriteUInt64 | src/bin/rafi-emu/cpu/TrapProcessor.cpp:148 | writing a CSR changes that register only |
| Cpu.Csr.SetPriv | src/bin/rafi-emu/cpu/TrapProcessor.cpp:121 | setting the privilege level changes it only |
| Cpu.Csr.SetPc | src/bin/rafi-emu/cpu/TrapProcessor.cpp:207 | setting the pc changes it only |
| Cpu.Csr.ProcessCycle | src/bin/rafi-emu/cpu/Processor.cpp:79 | the CSR file's per-cycle update replaces the state by the update function's result |
| Cpu.TrapProcessor.ProcessException | src/bin/rafi-emu/cpu/TrapProcessor.cpp:27-43 | an exception enters the level its delegation bits pick, with the trap's pc and value, and appends exactly one event |
| Cpu.TrapProcessor.ProcessInterrupt | src/bin/rafi-emu/cpu/TrapProcessor.cpp:45-61 | an interrupt enters the level the interrupt delegation bits pick, with trap value 0, and appends exactly one event |
| Cpu.TrapProcessor.ProcessTrapReturn | src/bin/rafi-emu/cpu/TrapProcessor.cpp:63-115 | MRET and SRET restore the level and pc and append one return event; any other level is not implemented and changes nothing |
| Cpu.TrapProcessor.ProcessTrapEnter | src/bin/rafi-emu/cpu/TrapProcessor.cpp:117-218 | the CSR file and event list end as the trap-entry function describes |
| Cpu.TrapProcessor.WriteTrapRegisters | src/bin/rafi-emu/cpu/TrapProcessor.cpp:148-151 | the four writes of status, cause, epc and tval set those registers and no other |
| Cpu.JoinHalves | src/bin/rafi-emu/cpu/Processor.cpp:188 | `(high << 16) \| low` keeps `low` in the low half and `high` in the high half |
| Cpu.CompressedAtPageEnd | src/bin/rafi-emu/cpu/Processor.cpp:167-183 | at offset 0xffe of a page a compressed low half is returned alone, and the translation of `pc + 2` never matters |
| Cpu.SplitFetch | src/bin/rafi-emu/cpu/Processor.cpp:184-189 | at offset 0xffe a non-compressed low half is joined with the half fetched through the translation of `pc + 2` |
| Cpu.Raise | src/bin/rafi-emu/cpu/Processor.cpp:101 | raising an exception appends exactly the event of taking it |
| Cpu.InterruptEndsCycle | src/bin/rafi-emu/cpu/Processor.cpp:79-93 | a requested interrupt is taken at the pc read after the CSR file's per-cycle update, appends one interrupt event, and ends the cycle before any fetch (the memory unit plays no part) |
| Cpu.FetchTrapEndsCycle | src/bin/rafi-emu/cpu/Processor.cpp:79-103 | a fetch trap at the pc read after the CSR update is raised as an exception in the updated state and records no instruction event |
| Cpu.OpEventAfterFetch | src/bin/rafi-emu/cpu/Processor.cpp:79-106 | after a successful fetch the next event is one instruction event holding the instruction and the privilege level read after the CSR update at the start of the cycle |
| Cpu.TickFirst | src/bin/rafi-emu/cpu/Processor.cpp:77-82 | the CSR file's update runs once, before the level and pc are read: a cycle equals a cycle from the updated state with no further update |
| Cpu.ExecuteAppends | src/bin/rafi-emu/cpu/Processor.cpp:108-142 | decoding and executing only ever append events |
| Cpu.UnknownOpcode | src/bin/rafi-emu/cpu/Processor.cpp:109-116 | an unknown opcode raises an illegal-instruction exception with the pc and the instruction, and the executor plays no part |
| Cpu.ExecutesPastInsn | src/bin/rafi-emu/cpu/Processor.cpp:119-142 | once the pre-check passes, the executor runs with the pc already moved past the instruction (2 bytes compressed, else 4), and a post-check trap is raised on the state it leaves |
| Cpu.Processor.Fetch | src/bin/rafi-emu/cpu/Processor.cpp:165-199 | the fetch writes the instruction and reports no trap exactly when the fetch function gives an instruction, and reports its trap otherwise |
| Cpu.Processor.ProcessCycle | src/bin/rafi-emu/cpu/Processor.cpp:77-143 | one cycle runs the CSR file's update first and then leaves the CSR file and the event list as the cycle function describes |
| Cpu.Processor.ExecuteStage | src/bin/rafi-emu/cpu/Processor.cpp:108-142 | the decode and execute stages leave the state the execute function describes |
| Cpu.Processor.RunStage | src/bin/rafi-emu/cpu/Processor.cpp:126-142 | the pc update, the executor and the post-check leave the state the run function describes |
| Cpu.Processor.ExecuteOp | src/bin/rafi-emu/cpu/Processor.cpp:135 | the executor's state is taken over and its events are appended |
| EventTypes.EventList.Add | src/bin/rafi-emu/cpu/Processor.cpp:106 | `emplace_back` puts the event at the end and keeps the earlier ones |
| EventTypes.EventList.AddAll | src/bin/rafi-emu/cpu/Processor.cpp:135 | the events another unit records are appended in their order |
| Privileged.IllegalInstruction | src/bin/rafi-emu/cpu/Processor.cpp:112 | an illegal-instruction trap has cause 2, the pc and the instruction as its value |
| Privileged.WithMPIE | src/bin/rafi-emu/cpu/TrapProcessor.cpp:144 | setting MPIE changes that status field only |
| Privileged.WithMIE | src/bin/rafi-emu/cpu/TrapProcessor.cpp:145 | setting MIE changes that status field only |
| Privileged.WithMPP | src/bin/rafi-emu/cpu/TrapProcessor.cpp:146 | setting MPP changes that two-bit field only |
| Privileged.WithSPIE | src/bin/rafi-emu/cpu/TrapProcessor.cpp:158 | setting SPIE changes that status field only |
| Privileged.WithSIE | src/bin/rafi-emu/cpu/TrapProcessor.cpp:159 | setting SIE changes that status field only |
| Privileged.WithSPP | src/bin/rafi-emu/cpu/TrapProcessor.cpp:160 | setting SPP keeps the low bit of the value and changes no other field |
| Privileged.WithUPIE | src/bin/rafi-emu/cpu/TrapProcessor.cpp:172 | setting UPIE changes that status field only |
| Privileged.WithUIE | src/bin/rafi-emu/cpu/TrapProcessor.cpp:173 | setting UIE changes that status field only |
| Privileged.TrapTarget | src/bin/rafi-emu/cpu/TrapProcessor.cpp:29-42 | the target is Machine unless the machine delegation bit of the cause is set; then Supervisor unless the supervisor delegation bit is also set, in which case User |
| Privileged.Cause | src/bin/rafi-emu/cpu/TrapProcessor.cpp:123-134 | the written cause has the XLEN's top bit set exactly for an interrupt, and the code in the other bits |
| Privileged.Base | src/bin/rafi-emu/cpu/TrapProcessor.cpp:186-197 | the BASE of xtvec, masked per XLEN, is 4-byte aligned |
| Privileged.TrapVectorTarget | src/bin/rafi-emu/cpu/TrapProcessor.cpp:199-208 | the new pc is aligned, and is the base itself unless the trap is an interrupt in vectored mode |
| Privileged.EnterStatus | src/bin/rafi-emu/cpu/TrapProcessor.cpp:141-181 | entering M sets MPIE to MIE, clears MIE and stores the previous level in MPP; S does the same with SPIE, SIE and SPP; U sets only UPIE and UIE; every other field is kept |
| Privileged.TrapCsrsOf | src/bin/rafi-emu/cpu/TrapProcessor.cpp:139-184 | each level writes four distinct registers of its own |
| Privileged.WriteTrapCsrs | src/bin/rafi-emu/cpu/TrapProcessor.cpp:148-151 | after the four writes each register holds its value and every other register is unchanged |
| Privileged.EnterTrap | src/bin/rafi-emu/cpu/TrapProcessor.cpp:117-218 | a trap entry sets the level first, writes the status, cause, epc and tval of that level and nothing else, jumps to the trap vector, and records an event whose `from` equals its `to` because the level was already changed |
| Privileged.ReturnFrom | src/bin/rafi-emu/cpu/TrapProcessor.cpp:63-115 | MRET sets the level to MPP, clears MPP, copies MPIE into MIE, keeps MPIE and jumps to mepc; SRET does the same with the S fields; the event goes from the current level to the restored one; other levels are not implemented |
| Privileged.MachineRoundTrip | src/bin/rafi-emu/cpu/TrapProcessor.cpp:141-154 | entering M and then returning with MRET restores the level, the interrupt enable and the pc saved in mepc |
| Privileged.SupervisorRoundTrip | src/bin/rafi-emu/cpu/TrapProcessor.cpp:155-168 | entering S and then returning with SRET restores the interrupt enable and the pc; the level comes back from U or S, but a trap from M returns to S since SPP keeps one bit |
| Cpu.TrapProcessor.PushStatus | src/bin/rafi-emu/cpu/TrapProcessor.cpp:141-181 | the `SetMember` calls on the status register, one at a time, give exactly the status the trap-entry rule describes |
| Cpu.TrapProcessor.constructor | src/bin/rafi-emu/cpu/TrapProcessor.h:31-36 | a trap processor keeps the register width, the CSR file and the event list it is given |
| Cpu.Processor.constructor | src/bin/rafi-emu/cpu/Processor.cpp:30-40 | a new processor has its CSR file in the given initial state, and a trap processor sharing that CSR file and the event list |
| CycleBuilder.BinaryCycleBuilder.Data | src/lib/trace/BinaryCycleBuilder.cpp:84-88 | the raw data are the first `DataSize` bytes of the buffer |
| CycleBuilder.BinaryCycleBuilder.GetDataSize | src/lib/trace/BinaryCycleBuilder.cpp:90-94 | the size reported is the length of the raw data and never exceeds the 4096-byte buffer |
| CycleBuilder.BinaryCycleBuilder.constructor | src/lib/trace/BinaryCycleBuilder.cpp:30-37 | a new builder has a 4096-byte buffer holding exactly one BasicNode record {cycle, xlen, pc} under id BA |
| CycleBuilder.BinaryCycleBuilder.AddData | src/lib/trace/BinaryCycleBuilder.cpp:102-124 | a record that would pass the end of the buffer throws before any byte is written; otherwise the header {id, 0, size} and the payload are appended at `DataSize`, which grows by their total, and the bytes below the old `DataSize` are kept |
| CycleBuilder.BinaryCycleBuilder.Add | src/lib/trace/BinaryCycleBuilder.cpp:44-77 | each node kind is added under its fixed id (IntReg32/64 IN, FpReg FP, Io IO, Op OP, Trap TR, Memory MA) with the same overflow rule |
| CycleBuilder.BinaryCycleBuilder.Break | src/lib/trace/BinaryCycleBuilder.cpp:79-82 | `Break` appends a header of size zero with no payload |
| CycleBuilder.DataDecodes | src/lib/trace/BinaryCycleLogger.cpp:102-124 | the bytes in use always decode back to exactly the records added so far, in order |
| CycleBuilder.EncodedSize | src/lib/trace/BinaryCycleLogger.cpp:114-117 | every record takes at least one header's worth of bytes, so records whose bytes fit the 4096-byte buffer number at most 512 |
| Dump.GetXLEN | src/bin/rafi-dump/Main.cpp:32-47 | the tool exits with status 1 exactly when the path holds neither `rv32` nor `rv64` |
| Dump.Rv32PathWins | src/bin/rafi-dump/Main.cpp:34-37 | a path containing `rv32` gives XLEN32, whatever else it contains |
| Dump.Rv64Path | src/bin/rafi-dump/Main.cpp:38-41 | a path containing `rv64` but not `rv32` gives XLEN64 |
| Dump.Select | src/bin/rafi-dump/Main.cpp:69 | the filtered cycles are no more than the cycles seen |
| Dump.Iterations | src/bin/rafi-dump/Main.cpp:54-62 | the loop runs `min(begin + count, end) - begin` times when that is positive: at most `count` times, never past `end`, and not at all when `count <= 0` or `end <= begin` |
| Dump.WindowFiltered | src/bin/rafi-dump/Main.cpp:62-75 | the window prints at most one cycle per iteration, and only cycles the filter accepts |
| Dump.WindowSelects | src/bin/rafi-dump/Main.cpp:62-75 | the cycles printed with a filter are exactly the cycles printed with no filter, selected by the filter in order; the loop stops at the same point |
| Dump.DumpBound | src/bin/rafi-dump/Main.cpp:49-101 | a dump exits with status 0 or 1 and prints at most the window's iteration count, all accepted by the filter |
| Dump.PrintWindow | src/bin/rafi-dump/Main.cpp:62-75 | the printing loop stops at the reader's end and otherwise prints each accepted cycle in `[begin, end)` |
| Dump.PrintTrace | src/bin/rafi-dump/Main.cpp:49-76 | opening the trace, skipping `begin` cycles when `begin > 0`, and printing the window give the dump function's output and status |
| EmuMemory.Ram.constructor | src/lib/emu/Ram.cpp:30-35 | a new RAM has the given capacity and is all zeros |
| EmuMemory.Ram.GetCapacity | src/lib/emu/Ram.cpp:42-45 | the capacity is the size of the body |
| EmuMemory.Ram.Copy | src/lib/emu/Ram.cpp:47-52 | a copy must ask for exactly the capacity and returns the whole body |
| EmuMemory.Ram.Read | src/lib/emu/Ram.cpp:68-73 | a read within the capacity returns the body bytes at the address |
| EmuMemory.Ram.Write | src/lib/emu/Ram.cpp:75-80 | a write within the capacity changes exactly the bytes it covers |
| EmuMemory.Ram.LoadFile | src/lib/emu/Ram.cpp:54-66 | an offset outside `[0, capacity)` and an unopenable file are reported with the body unchanged; otherwise at most `capacity - offset` bytes of the file are copied at the offset |
| EmuMemory.Rom.constructor | src/lib/emu/Rom.cpp:30-34 | a new ROM is 4096 zero bytes |
| EmuMemory.Rom.GetCapacity | src/lib/emu/Rom.cpp:41-44 | the capacity is the constant 4096 |
| EmuMemory.Rom.Read | src/lib/emu/Rom.cpp:60-65 | a read succeeds exactly when it lies within the capacity and then returns the body bytes; otherwise it reports an access out of range |
| EmuMemory.Rom.Write | src/lib/emu/Rom.cpp:67-74 | every write reports an error, and the body cannot change |
| EmuMemory.Rom.LoadFile | src/lib/emu/Rom.cpp:46-58 | the same checks as the RAM's load against the fixed capacity; at most `4096 - offset` bytes are copied |
| IndexReader.ParsePairs | src/lib/trace/TraceIndexReader.cpp:116-136 | with no empty word, entry `k` is the path at word `2k` and the cycle at word `2k + 1`, and a path with no cycle after it gets cycle 0 |
| IndexReader.ParseStopsAtEmptyPath | src/lib/trace/TraceIndexReader.cpp:120-124 | parsing stops at an empty path: nothing after it becomes an entry |
| IndexReader.ParseIndexFile | src/lib/trace/TraceIndexReader.cpp:107-137 | the token loop builds exactly the parsed entries |
| IndexReader.OpenBinary | src/lib/trace/TraceIndexReader.cpp:139-153 | a binary is opened, at its first cycle, exactly when the entry index is in range |
| IndexReader.StepState | src/lib/trace/TraceIndexReader.cpp:54-71 | one step counts one more cycle, advances the entry index by at most one, and keeps the open binary that of the current entry |
| IndexReader.StepPastEnd | src/lib/trace/TraceIndexReader.cpp:54-68 | one more step from the end, with the last entry's binary still open and exhausted, moves the entry index past the entry count, so the reader no longer reports its end, and leaves no binary open |
| IndexReader.StepsCount | src/lib/trace/TraceIndexReader.cpp:100-103 | `k` successful steps advance the cycle by exactly `k` |
| IndexReader.FindFromChoice | src/lib/trace/TraceIndexReader.cpp:75-94 | the search picks the first entry whose cumulative cycles exceed the target, with the sum of the entries before it as skipped cycles, and finds none exactly when the total is at most the target |
| IndexReader.SumPrefixAtMost | src/lib/trace/TraceIndexReader.cpp:80-89 | the skipped cycles never exceed the index's total |
| IndexReader.SkipTarget | src/lib/trace/TraceIndexReader.cpp:73-104 | a skip fails exactly when the index holds no more than `cycle + n` cycles, and a successful skip lands on cycle `cycle + n` |
| IndexReader.TraceIndexReader.constructor | src/lib/trace/TraceIndexReader.cpp:29-33 | construction parses the index and opens the first entry's binary at cycle 0 |
| IndexReader.TraceIndexReader.Open | src/lib/trace/TraceIndexReader.cpp:109-114 | an index file that cannot be opened raises a file-open failure and gives no reader |
| IndexReader.TraceIndexReader.IsEnd | src/lib/trace/TraceIndexReader.cpp:49-52 | the reader is at its end exactly when the entry index equals the number of entries |
| IndexReader.TraceIndexReader.UpdateTraceBinary | src/lib/trace/TraceIndexReader.cpp:139-153 | the old binary is closed and the current entry's is opened only when the index is in range |
| IndexReader.TraceIndexReader.Next | src/lib/trace/TraceIndexReader.cpp:54-71 | `Next()` moves the reader by exactly one step of the step function |
| IndexReader.TraceIndexReader.NextCycles | src/lib/trace/TraceIndexReader.cpp:73-104 | `Next(n)` throws, with the state unchanged, when no entry holds the target; otherwise it sets the cycle to the skipped sum and steps one at a time to the target |
| MemoryReader.NextState | src/lib/trace/TraceBinaryMemoryReader.cpp:53-67 | `Next` advances the offset by the current cycle's size; an offset past the buffer is corruption; otherwise the reader is at its end with no cycle exactly at the buffer's end, and has the cycle at the new offset before it |
| MemoryReader.WalkAdd | src/lib/trace/TraceBinaryMemoryReader.cpp:117-123 | `a + b` steps are `a` steps followed by `b` steps, stopping at the first failure |
| MemoryReader.WalkForward | src/lib/trace/TraceBinaryMemoryReader.cpp:117-123 | steps only move the offset forward and keep it within the buffer unless they report corruption |
| MemoryReader.TraceBinaryMemoryReader.Parsed | src/lib/trace/TraceBinaryMemoryReader.cpp:29-36 | a buffer holding at least a header starts at offset 0 with its first cycle |
| MemoryReader.TraceBinaryMemoryReader.Open | src/lib/trace/TraceBinaryMemoryReader.cpp:70-76 | a buffer smaller than one header is reported as corrupt and gives no reader |
| MemoryReader.TraceBinaryMemoryReader.IsEnd | src/lib/trace/TraceBinaryMemoryReader.cpp:48-51 | the reader is at its end exactly when it holds no cycle, that is when the offset equals the buffer size |
| MemoryReader.TraceBinaryMemoryReader.Next | src/lib/trace/TraceBinaryMemoryReader.cpp:53-67 | `Next()` takes the reader to the next state and reports an offset out of range exactly when that state is corrupt |
| MemoryReader.TraceBinaryMemoryReader.NextCycles | src/lib/trace/TraceBinaryMemoryReader.cpp:117-123 | `Next(n)` is `n` successive calls of `Next()` |
| MemoryWriter.TraceBinaryMemoryWriter.constructor | src/lib/trace/TraceBinaryMemoryWriter.cpp:28-32 | the writer starts at offset 0 with nothing written |
| MemoryWriter.TraceBinaryMemoryWriter.Write | src/lib/trace/TraceBinaryMemoryWriter.cpp:38-55 | a write past the buffer size throws; then a negative size throws; either way the offset and the buffer are unchanged; otherwise the data are copied at the offset, the offset grows by the size, the other bytes are kept and `offset <= bufferSize` still holds |
| MemoryWriter.WritesConcatenate | src/lib/trace/TraceBinaryMemoryWriter.cpp:50-54 | two writes in a row leave the same bytes as one write of both pieces concatenated |
| TraceLogger.IntRegNodes | src/lib/trace/Logger.cpp:64-82 | with integer registers enabled, one register node of the width XLEN gives; otherwise none |
| TraceLogger.FpRegNodes | src/lib/trace/Logger.cpp:84-89 | with FP registers enabled, one FP register node; otherwise none |
| TraceLogger.HostIoNodes | src/lib/trace/Logger.cpp:91-95 | with host I/O enabled, one I/O node `{hostIo, 0}`; otherwise none |
| TraceLogger.EventNodes | src/lib/trace/Logger.cpp:105-140 | exactly one node per event |
| TraceLogger.EventNodesIndex | src/lib/trace/Logger.cpp:105-140 | node `i` is the node of event `i`, so event-list order is kept |
| TraceLogger.EventRecordKinds | src/lib/trace/Logger.cpp:107-139 | the record of event `i` has id OP, TR or MA exactly as the event is an op, trap or memory event, and carries that event's fields |
| TraceLogger.RecordsOf | src/lib/trace/BinaryCycleBuilder.cpp:141-174 | one record per node added |
| TraceLogger.RecordsOfIndex | src/lib/trace/BinaryCycleBuilder.cpp:141-174 | the record of node `i` has the node's fixed id and its bytes |
| TraceLogger.CycleNumber | src/lib/trace/Logger.cpp:47-54 | the `int` cycle number passed to the builder's `uint32_t` is kept when non-negative and wraps modulo 2^32 when negative |
| TraceLogger.CycleReadsBack | src/lib/trace/Logger.cpp:47-156 | a whole cycle is the basic node first, the state nodes, one node per event and a closing Break, and its bytes decode back to exactly those records |
| TraceLogger.AddNode | src/lib/trace/Logger.cpp:70 | adding a node appends its record, or on overflow changes nothing |
| TraceLogger.AddWhen | src/lib/trace/Logger.cpp:84-89 | a node is added only when its flag is set; an overflow leaves a prefix of the intended records |
| TraceLogger.StateNodesInTurn | src/lib/trace/Logger.cpp:64-95 | the three optional nodes added in turn are the integer, FP and host I/O nodes in that order |
| TraceLogger.AddStateNodes | src/lib/trace/Logger.cpp:57-96 | the state nodes are added in the order integer registers, FP registers, host I/O, each only when enabled; an overflow stops after a prefix of them |
| TraceLogger.AddEventNodes | src/lib/trace/Logger.cpp:105-140 | one node is added per event in event-list order; an overflow stops after a prefix of them |
| TraceLogger.Logger.constructor | src/lib/trace/Logger.cpp:28-37 | a logger starts with no cycle buffer and nothing written |
| TraceLogger.Logger.BeginCycle | src/lib/trace/Logger.cpp:47-55 | when enabled, a fresh builder holds only the basic record (cycle, xlen, pc); when disabled nothing changes |
| TraceLogger.Logger.RecordState | src/lib/trace/Logger.cpp:57-96 | when disabled nothing changes; otherwise the state nodes are appended to the current cycle |
| TraceLogger.Logger.RecordEvent | src/lib/trace/Logger.cpp:98-141 | when disabled nothing changes; otherwise one node per event is appended in order |
| TraceLogger.Logger.EndCycle | src/lib/trace/Logger.cpp:143-156 | when enabled, Break is appended, the cycle's bytes are written once, and the builder is discarded; when disabled nothing changes |
| TraceFormat.LERoundTrip | src/lib/trace/BinaryCycleBuilder.cpp:114-116 | a value that fits `n` bytes reads back from its little-endian bytes |
| TraceFormat.IdOf | src/lib/trace/BinaryCycleBuilder.cpp:114 | a header value read as an id is the value of that id |
| TraceFormat.IdRoundTrip | src/lib/trace/BinaryCycleBuilder.cpp:44-82 | distinct node ids have distinct header values, so an id is recovered from its header |
| TraceFormat.Header | src/lib/trace/BinaryCycleBuilder.cpp:114-117 | the header `{id, 0, size}` takes eight bytes |
| TraceFormat.Encode | src/lib/trace/BinaryCycleBuilder.cpp:114-123 | a record takes a header and then its payload |
| TraceFormat.EncodeAllSnoc | src/lib/trace/BinaryCycleBuilder.cpp:116-123 | adding a record appends its encoding to the bytes already written |
| TraceFormat.DecodeEncode | src/lib/trace/BinaryCycleBuilder.cpp:102-124 | the records written to a buffer are read back exactly, in order, from its bytes |
| TraceFormat.NodeIdOf | src/lib/trace/BinaryCycleBuilder.cpp:44-100 | each node kind has its fixed id, BA only for the basic node and IN for both integer-register widths; no node uses BR |
| TraceFormat.EventNode | src/lib/trace/Logger.cpp:107-139 | an op, trap or memory event becomes a node with id OP, TR or MA respectively |
| Metabuild.NormalizePath | Tools/rafi/metabuild.py:84-85 | `normpath(join(root, path))` is never empty |
| Metabuild.NormalizeAbsolute | Tools/rafi/metabuild.py:84-85 | an absolute path ignores the document's directory and is only normalised |
| Metabuild.NormalizeIdempotent | Tools/rafi/metabuild.py:84-85 | normalising a path that came out absolute a second time changes nothing |
| Metabuild.NormalizedAppend | Tools/rafi/metabuild.py:93-99 | normalising two lists one after the other is normalising their concatenation |
| Metabuild.NormalizedNonEmpty | Tools/rafi/metabuild.py:93-107 | no normalised package or source path is empty |
| Metabuild.NormalizedItems | Tools/rafi/metabuild.py:93-107 | each list is normalised item by item, in order, keeping duplicates |
| Metabuild.ParseRiscvTests | Tools/rafi/metabuild.py:111-117 | a riscv-tests entry becomes a riscv-tests project, or raises the error its lookups and normalisation raise |
| Metabuild.RiscvTestsWork | Tools/rafi/metabuild.py:51-55 | a riscv-tests project's working directory is its normalised outputs directory |
| Metabuild.CollectOk | Tools/rafi/metabuild.py:125-134 | the project loop succeeds exactly when every entry parses, and then gives one project per entry in order |
| Metabuild.CollectErr | Tools/rafi/metabuild.py:125-134 | a failed project loop raises the error of the first entry that fails, all entries before it having parsed |
| Metabuild.CollectPrefixErr | Tools/rafi/metabuild.py:125-134 | once a prefix of the entries fails, the whole loop fails with the same error |
| Metabuild.AppendNormalized | Tools/rafi/metabuild.py:95-96 | the append loop adds the normalised items to the list, in order |
| Metabuild.ParseListField | Tools/rafi/metabuild.py:93-99 | a list field is the common items and then the project's items, each normalised, and empty when neither has it |
| Metabuild.ParseModelSim | Tools/rafi/metabuild.py:87-109 | the ModelSim parser returns or raises what the ModelSim project function gives |
| Metabuild.ParseProject | Tools/rafi/metabuild.py:126-132 | one entry's type is looked up in the entry and then in `common`, and dispatched to its parser |
| Metabuild.ParseDocument | Tools/rafi/metabuild.py:119-134 | a document without `common` or `projects` raises a key error; otherwise the projects are parsed in order |
| Metabuild.ModelSimKeyErrors | Tools/rafi/metabuild.py:90-91 | a missing `name` raises `KeyError('name')` first, then a missing `work` raises `KeyError('work')`; with both present the ModelSim parse succeeds |
| Metabuild.ModelSimScalars | Tools/rafi/metabuild.py:90-91 | `name` and `work` are the project's own values, falling back to `common`'s |
| Metabuild.ModelSimPackages | Tools/rafi/metabuild.py:93-107 | packages and sources are `common`'s normalised items followed by the project's |
| Metabuild.ModelSimLists | Tools/rafi/metabuild.py:93-107 | packages and sources are the normalisation of `common`'s items and the project's items together |
| Metabuild.ProjectsOfOk | Tools/rafi/metabuild.py:125-134 | the document parses exactly when every project entry does, one project per entry in order |
| Metabuild.UnknownTypeAborts | Tools/rafi/metabuild.py:131-132 | a project whose type is neither `modelsim` nor `riscv_tests` aborts the whole document (raising a string is itself a TypeError) |
| Metabuild.SkipSpaces | Tools/rafi/metabuild.py:30-33 | skipping a continuation line's indentation never lengthens the text |
| Metabuild.UnfoldContinuedList | Tools/rafi/metabuild.py:30-31 | read as Ninja, a list joined with `" $\n    "` is the words joined with single spaces |
| Metabuild.VlogInputsRead | Tools/rafi/metabuild.py:40-43 | read as Ninja, the vlog build's inputs are the packages, then the sources, then the setup target, separated by spaces |
| Metabuild.TestRulesAppend | Tools/rafi/metabuild.py:60-71 | the rules for a list of tests are the rules for each part in order |
| Metabuild.MakeRiscvTestsRule | Tools/rafi/metabuild.py:57-71 | the name loop appends the objcopy and BinaryToText builds of each supported test in listing order |
| Metabuild.MakeRule | Tools/rafi/metabuild.py:29-71 | a project's `make_rule` gives the ModelSim rule or the riscv-tests rules, or raises the error relpath raises |
| Metabuild.ProjectRuleOk | Tools/rafi/metabuild.py:29-49 | a project whose paths are non-empty and whose work directory is a string has a rule |
| Metabuild.ParsedPathsNonEmpty | Tools/rafi/metabuild.py:84-117 | parsed projects never list an empty path, so `relpath` is never handed one |
| Metabuild.MakeWorkdirRule | Tools/rafi/metabuild.py:73-82 | the set loop raises an unhashable-type error exactly when some working directory is a list; otherwise one `mkdir` build is made for each distinct working directory, each exactly once |
| Metabuild.ProjectRulesOk | Tools/rafi/metabuild.py:140-141 | projects with non-empty paths and string working directories all produce their rules |
| Metabuild.MakeProjectRules | Tools/rafi/metabuild.py:140-142 | the loop `rule += project.make_rule()` concatenates the rules in project order, stopping at the first error |
| Metabuild.Metabuild | Tools/rafi/metabuild.py:136-142 | the compiler's result is the workdir builds followed by each project's rules, or the first error raised while parsing or generating |
| PosixPath.JoinAbsolute | Tools/rafi/metabuild.py:85 | `posixpath.join` with an absolute second part drops the first |
| PosixPath.LeadingSlashes | Tools/rafi/metabuild.py:85 | `normpath` keeps no leading slash for a relative path, and one or two for an absolute path (two exactly as POSIX allows) |
| PosixPath.NormPath | Tools/rafi/metabuild.py:85 | `normpath` never returns an empty path (an empty result is `.`) |
| PosixPath.ResolveClean | Tools/rafi/metabuild.py:85 | resolving `.` and `..` leaves components with no empty part, no `.`, and no `..` below the root of an absolute path |
| PosixPath.NormPathIdempotent | Tools/rafi/metabuild.py:85 | `normpath` is idempotent |
| PosixPath.NormalFormFixed | Tools/rafi/metabuild.py:85 | a path already in normal form is its own normalisation |
| PosixPath.StripTrailingSlashes | Tools/rafi/metabuild.py:88 | `rstrip('/')` removes exactly the trailing slashes |
| PosixPath.DirNameOfJoin | Tools/rafi/metabuild.py:88 | the directory of `join(d, f)` for a bare file name `f` is `d` |
| PosixPath.DirNameOfBareName | Tools/rafi/metabuild.py:88 | a bare file name has the empty directory, so the document's paths stay relative |
| PosixPath.CommonPrefixLength | Tools/rafi/metabuild.py:32-33 | the shared leading components of both paths, as many as agree |
| PosixPath.RelPath | Tools/rafi/metabuild.py:32-33 | `relpath` raises exactly for an empty path |
| PosixPath.AbsComponentsClean | Tools/rafi/metabuild.py:32-33 | `abspath` against an absolute current directory gives clean components |
| PosixPath.RelPathResolves | Tools/rafi/metabuild.py:32-33 | following the relative path from the start directory lands on the target: `relpath` is the inverse of joining |
| PosixPath.ResolveRelative | Tools/rafi/metabuild.py:32-33 | climbing out of the start directory to the shared prefix and descending into the rest of the target gives the target |
| RiscvTests.SupportedIff | deprecated/tool/rafi/riscv_tests.py:17-36 | a test is supported exactly when it starts with none of the excluded prefixes and with one of the five supported family prefixes |
| RiscvTests.ExclusionsRejected | deprecated/tool/rafi/riscv_tests.py:20-23 | the two excluded families are rejected although they carry the supported `rv32ui-` prefix |
| RiscvTests.ListTestNames | deprecated/tool/rafi/riscv_tests.py:38-42 | the names kept are supported, are not `.dump` files, and keep the listing's order |
| RiscvTests.ListTestNamesMembers | deprecated/tool/rafi/riscv_tests.py:38-42 | a name is listed exactly when it is a listed file, is not a `.dump` file and is supported |
| RunRiscvTests.ByMatch | tool/run_riscv_tests.py:35 | the configs whose name match is as asked, each of them and no other |
| RunRiscvTests.Filter | tool/run_riscv_tests.py:37-38 | `list(filter(p, xs))` keeps exactly the configs satisfying `p` |
| RunRiscvTests.ReadConfigIgnoresPath | tool/run_riscv_tests.py:32-34 | the list read depends on the global input path, never on the `json_path` argument |
| RunRiscvTests.RunnableSkippedDisjoint | tool/run_riscv_tests.py:37-38 | no config is both runnable and skipped |
| RunRiscvTests.MatchComplement | tool/run_riscv_tests.py:35-39 | every config is in exactly one of matched and unmatched |
| RunRiscvTests.ClassesAddUp | tool/run_riscv_tests.py:37-38 | runnable, skipped and the configs with any other `skip` value partition the matched configs |
| RunRiscvTests.UnclassifiedDropped | tool/run_riscv_tests.py:37-39 | a matched config whose `skip` is neither absent, false nor true appears in none of the three lists |
| RunRiscvTests.FilterKeepsOrder | tool/run_riscv_tests.py:37-38 | runnable and skipped keep the input order |
| RunRiscvTests.ByMatchKeepsOrder | tool/run_riscv_tests.py:35-39 | matched and unmatched keep the input order |
| RunRiscvTests.GetBinPathComponents | tool/run_riscv_tests.py:43-47 | the tool lies at `./build_T/T/name.exe` on Windows and at `./build_T/name` elsewhere |
| RunRiscvTests.PrintCommandWindows | tool/run_riscv_tests.py:54-58 | on Windows the arguments line splits at spaces back into the arguments |
| RunRiscvTests.PrintCommandPosix | tool/run_riscv_tests.py:54-61 | elsewhere the arguments line is the quoted arguments separated by `, ` |
| RunTestOnPc.MakeCheckIoCommand | deprecated/tool/RunTestOnPc.py:38-41 | the checker's command is the checker followed by the trace paths, in order |
| RunTestOnPc.MakeEmulatorCommand | deprecated/tool/RunTestOnPc.py:43-52 | the emulator's command has eight words and starts with the emulator |
| RunTestOnPc.CheckedTracePaths | deprecated/tool/RunTestOnPc.py:139 | one trace path per test, in test order |
| RunTestOnPc.EmulatorTraceChecked | deprecated/tool/RunTestOnPc.py:43-52 | each emulator run dumps its trace at exactly the path the checker reads for that test, and runs for 65536 cycles |
| RunTestOnPc.EmulatorCommandLine | deprecated/tool/RunTestOnPc.py:100-101 | the printed `Run ...` line splits back into the emulator's command when the test name has no space |
| RunTestOnPc.MakeSimulatorCommand | deprecated/tool/RunTestOnPc.py:54-70 | the simulator's command has nineteen words and starts with `vsim` |
| RunTestOnPc.SimulatorGenerics | deprecated/tool/RunTestOnPc.py:54-70 | every generic follows a `-G`; the cycle count reads back from its generic; memory is dumped exactly for a full dump; the test's memory image and trace paths are embedded |
| RunTestOnPc.KeptLines | deprecated/tool/RunTestOnPc.py:82-85 | the error log among the first `n` lines holds at most `n` lines |
| RunTestOnPc.ErrorFlags | deprecated/tool/RunTestOnPc.py:80 | flag `i` tells whether line `i` contains `Error:` |
| RunTestOnPc.ReduceOr | deprecated/tool/RunTestOnPc.py:87 | `reduce(or_, flags)` on a non-empty list is true exactly when some flag is |
| RunTestOnPc.ReduceOrFlags | deprecated/tool/RunTestOnPc.py:80-87 | the error flag is set exactly when some line contains the keyword |
| RunTestOnPc.CheckSimulatorLog | deprecated/tool/RunTestOnPc.py:72-88 | a missing log gives (False, "File not found."); an empty log raises; otherwise the flag and the error log of the scanning function |
| RunTestOnPc.NoErrorNoLog | deprecated/tool/RunTestOnPc.py:82-85 | a log with no keyword gives an empty error log |
| RunTestOnPc.ErrorLineKept | deprecated/tool/RunTestOnPc.py:82-85 | a line after the first is in the error log when it or the line before it contains the keyword |
| RunTestOnPc.FirstLineErrorHidden | deprecated/tool/RunTestOnPc.py:83-87 | a keyword on the only line of a log is reported as an error with an empty error log, since line 0 is never copied |
| RV32M.KindOfMnemonic | src/lib/op/RV32M.cpp:29-152 | every RV32M mnemonic is a single space-free word from which the reader recovers exactly the operation kind |
| RV32M.MnemonicsDistinct | src/lib/op/RV32M.cpp:29-152 | the eight multiply/divide classes print eight different mnemonics: two kinds share a mnemonic only when they are the same kind |
| RV32M.Forms | src/lib/op/RV32M.cpp:29-152 | the text of any RV32M operation reads back as its mnemonic followed by the names of rd, rs1 and rs2, in that order |
| RV32M.ToStringDetermines | src/lib/op/RV32M.cpp:29-152 | two RV32M operations print the same text exactly when they have the same kind and the same rd, rs1 and rs2 names, so the disassembly loses nothing |
| RV64M.WordMnemonics | src/lib/op/RV64M.cpp:29-237 | each RV64M mnemonic is the RV32M mnemonic of the same operation, with a trailing `w` exactly for the 32-bit word forms |
| RV64M.MnemonicsDistinct | src/lib/op/RV64M.cpp:29-237 | the thirteen RV64M classes print thirteen different mnemonics |
| RV64M.SharedWithRV32M | src/lib/op/RV64M.cpp:29-220 | an RV64M operation that RV32M also has prints exactly as the RV32M class prints it |
| RV64M.Forms | src/lib/op/RV64M.cpp:29-237 | the text of any RV64M operation reads back as its mnemonic followed by rd, rs1 and rs2 names |
| RV32A.StemClean | src/lib/op/RV32A.cpp:30-224 | every RV32A mnemonic (`lr.w`, `sc.w`, `amo<op>.w`) is a single word without spaces |
| RV32A.IndirectCommaFree | src/lib/op/RV32A.cpp:33-52 | the parenthesised address operand `(rs1)` contains no comma when the register name has none, so it stays one operand |
| RV32A.Forms | src/lib/op/RV32A.cpp:30-224 | `lr.w` reads back as rd then `(rs1)`; `sc.w` and every AMO read back as rd, rs2, then `(rs1)`: rs2 before the address, as the source orders them |
| RV32A.OrderingNotPrinted | src/lib/op/RV32A.cpp:20-33 | the acquire and release bits stored by the constructors never change the printed text |
| RV64A.WordFormsAsRV32A | src/lib/op/RV64A.cpp:22-223 | every `.w` operation of RV64A has the same mnemonic and prints the same text as the RV32A operation it narrows to |
| RV64A.Forms | src/lib/op/RV64A.cpp:30-432 | every RV64A operation reads back as its stem plus `.w` or `.d` and the RV32A operand list (rd, [rs2,] `(rs1)`) |
| RV64A.WidthOnlyInSuffix | src/lib/op/RV64A.cpp:105-130 | the `.w` and `.d` versions of one operation differ only in the mnemonic suffix; their operands read back identical |
| RV64A.OrderingNotPrinted | src/lib/op/RV64A.cpp:22-33 | the acquire and release bits never change the printed text |
| RV32F.StemsClean | src/lib/op/RV32F.cpp:70-710 | every stem the single-precision classes print (fused, arithmetic, sign-injection, compare, integer width) is free of spaces |
| RV32F.MnemonicClean | src/lib/op/RV32F.cpp:28-710 | every RV32F mnemonic, `.s` suffix included, is one space-free word, so the reader splits it off intact |
| RV32F.NamesCommaFree | src/lib/op/RV32F.cpp:70-94 | with comma-free register names the operand list is comma-free, so the printed text splits back into exactly those operands |
| RV32F.Shape | src/lib/op/RV32F.cpp:70-710 | every non-memory RV32F operation prints as its mnemonic, a space, and its register operands (destination first) followed by the rounding-mode name when one is printed |
| RV32F.Forms | src/lib/op/RV32F.cpp:70-710 | the text of every non-memory RV32F operation reads back as its mnemonic and exactly its register names plus the printed rounding mode |
| RV32F.MemoryForms | src/lib/op/RV32F.cpp:28-57 | `flw` reads back as fd then `imm(xs1)`; `fsw` reads back as fs2 then `imm(xs1)` |
| RV32F.RoundingSuffix | src/lib/op/RV32F.cpp:70-94 | one extra operand is printed exactly when the op has a rounding-mode field and its name is found, and that operand is the name; ops without the field print only their registers |
| RV32F.RegisterFiles | src/lib/op/RV32F.cpp:483-692 | compares, FCLASS, FCVT.W[U].S and FMV.X.W print an integer destination and a floating-point source; FCVT.S.W[U] and FMV.W.X print a floating-point destination and an integer source; compares add a floating-point rs2 |
| RV32D.MnemonicClean | src/lib/op/RV32D.cpp:28-736 | every RV32D mnemonic is one space-free word |
| RV32D.Shape | src/lib/op/RV32D.cpp:70-736 | every non-memory RV32D operation prints as its mnemonic, a space, and its register operands followed by the rounding-mode operand the op prints |
| RV32D.Forms | src/lib/op/RV32D.cpp:70-736 | the text of every non-memory RV32D operation reads back as its mnemonic and exactly its register names plus the rounding-mode operand |
| RV32D.MemoryForms | src/lib/op/RV32D.cpp:28-57 | `fld` reads back as fd then `imm(xs1)`; `fsd` reads back as fs2 then `imm(xs1)` |
| RV32D.RoundingSuffix | src/lib/op/RV32D.cpp:483-736 | ops without a rounding mode print only registers; ordinary ones add the mode's name exactly when it is found; FCVT.D.S, FCVT.D.W and FCVT.D.WU add an operand exactly when the name is NOT found, and that operand is `(null)` |
| RV32D.RegisterFiles | src/lib/op/RV32D.cpp:545-736 | compares, FCLASS.D and FCVT.W[U].D print an integer destination and a floating-point source; FCVT.D.W[U] print a floating-point destination and an integer source; compares add a floating-point rs2 |
| RV32D.LikeRV32F | src/lib/op/RV32D.cpp:70-603 | a fused, arithmetic, sign-injection or compare op reads back with exactly the operands of its single-precision twin and a mnemonic that differs only in `.d` for `.s` |
| RV32D.SameLayout | src/lib/op/RV32D.cpp:70-603 | those ops list the same registers in the same order, and the same rounding-mode operand, as their RV32F twins |
| RV32D.SuffixSwap | src/lib/op/RV32D.cpp:70-603 | their mnemonic is the RV32F mnemonic with the final `.s` replaced by `.d` |
| RV64I.Reads | src/lib/op/RV64I.cpp:28-56 | a line printed as a space-free mnemonic followed by comma-free operands reads back as that mnemonic and exactly those operands; every RV64I class that prints `mnemonic a,b,c` (lui, auipc, R-type ops, sfence.vma) is recovered this way |
| RV64I.TargetCommaFree | src/lib/op/RV64I.cpp:60-70 | the jump target text `#<imm>` and the zero-branch target ` #<imm>` hold no comma, so each stays one operand |
| RV64I.JumpForms | src/lib/op/RV64I.cpp:60-106 | JAL prints `j #imm` when rd is x0 and `jal rd,imm` otherwise; JALR prints `jr rs1,imm` when rd is x0 and `jalr rd,rs1,imm` otherwise |
| RV64I.ZeroBranchForms | src/lib/op/RV64I.cpp:124-207 | BNE, BLT and BGE print the `z` mnemonic exactly when rs1 or rs2 is x0, naming the other register (rs1 checked first) and the target ` #imm`; otherwise they print rs1, rs2 and the offset |
| RV64I.BranchNameClean | src/lib/op/RV64I.cpp:110-241 | every branch mnemonic, and its `z` form, is one space-free word |
| RV64I.ConstantForms | src/lib/op/RV64I.cpp:110-1155 | BEQ, FENCE, FENCE.I, ECALL, EBREAK, URET, SRET, MRET and WFI print a bare mnemonic with no operands that depends on no field and no register or CSR name |
| RV64I.MemoryForms | src/lib/op/RV64I.cpp:245-428 | every load reads back as its mnemonic, rd and `imm(rs1)`; every store as its mnemonic, rs2 and `imm(rs1)` |
| RV64I.ImmediateForms | src/lib/op/RV64I.cpp:432-649 | immediate ops read back as rd, rs1 and a signed decimal whose 32-bit pattern is the stored immediate; shifts read back as rd, rs1 and `0x` followed by the shift amount in hexadecimal |
| RV64I.CsrReadForms | src/lib/op/RV64I.cpp:986-1011 | CSRRS prints `csrr rd,csr` when rs1 is x0, `csrr csr,rs1` when only rd is x0, and `csrrs rd,csr,rs1` otherwise |
| RV64I.CsrWriteForms | src/lib/op/RV64I.cpp:961-1036 | CSRRW and CSRRC print the short `csrw`/`csrc csr,rs1` form exactly when rd is x0 and the full three-operand form otherwise |
| RV64I.CsrImmForms | src/lib/op/RV64I.cpp:1040-1108 | the immediate CSR ops print the short mnemonic with csr and the decimal immediate when rd is x0, and the full mnemonic with rd, csr and immediate otherwise |
| OpDecoder.Pick | src/lib/op/OpDecoder.cpp:21-26 | the shift-and-mask field extraction yields bits lsb..lsb+width-1 of the word, a value below 2^width |
| OpDecoder.WordFields | src/lib/op/OpDecoder.cpp:50-62 | the opcode, rd, funct3, rs1, rs2, funct7, I-immediate and U-immediate fields the decoder picks are exactly the R-format fields a word was assembled from |
| OpDecoder.DecodeIgnoresXlen | src/lib/op/OpDecoder.cpp:40-45 | decoding ignores the configured register width: RV32 and RV64 decoders both decode every word as RV32I |
| OpDecoder.DecodeEncode | src/lib/op/OpDecoder.cpp:72-333 | every RV32I operation except JAL, branches and stores (whose immediates are scattered or sign-extended; their own lemmas cover them), with its fields in range, is decoded back from its instruction word to exactly itself |
| OpDecoder.EncodeDecode | src/lib/op/OpDecoder.cpp:72-333 | any word the decoder accepts, other than jumps, branches and stores whose immediates go through sign extension, is exactly the encoding of the operation decoded from it: the decoder ignores no bit of those words |
| OpDecoder.DecodeUpper | src/lib/op/OpDecoder.cpp:74-77 | a U-format word with opcode LUI or AUIPC decodes to that op with rd and the 20-bit upper immediate |
| OpDecoder.DecodeJumpWord | src/lib/op/OpDecoder.cpp:78-83 | a J-format word decodes to JAL with rd and the sign-extended 21-bit offset reassembled from its scattered bits |
| OpDecoder.DecodeJalr | src/lib/op/OpDecoder.cpp:84-92 | an I-format word with opcode JALR and funct3 0 decodes to JALR with rd, rs1 and the 12-bit immediate |
| OpDecoder.DecodeBranchWord | src/lib/op/OpDecoder.cpp:93-121 | a B-format word with one of the six branch funct3 values decodes to that branch with rs1, rs2 and the sign-extended 13-bit offset reassembled from its scattered bits |
| OpDecoder.DecodeLoadWord | src/lib/op/OpDecoder.cpp:122-146 | LB, LH, LW, LBU and LHU words decode to the load with rd, rs1 and the I-format immediate |
| OpDecoder.DecodeStoreWord | src/lib/op/OpDecoder.cpp:147-163 | SB, SH and SW words decode with the I-format immediate (bits 31..20), so the decoded offset is the true S-format offset only when its low five bits equal rs2 |
| OpDecoder.StoreOffsetExample | src/lib/op/OpDecoder.cpp:156-159 | the word 0x0020a223 (`sw x2,4(x1)`) decodes as SW with offset 2, not 4 |
| OpDecoder.DecodeOpImmWord | src/lib/op/OpDecoder.cpp:164-188 | ADDI, SLTI, SLTIU, XORI, ORI and ANDI words decode to the op with rd, rs1 and the I-format immediate |
| OpDecoder.DecodeShiftWord | src/lib/op/OpDecoder.cpp:189-200 | SLLI, SRLI and SRAI words (funct7 0 or 0x20) decode to the shift with rd, rs1 and the five-bit shift amount |
| OpDecoder.DecodeOpWord | src/lib/op/OpDecoder.cpp:205-263 | the ten R-format ALU words (funct7 0, or 0x20 for SUB and SRA) decode to the op with rd, rs1 and rs2 |
| OpDecoder.DecodeFence | src/lib/op/OpDecoder.cpp:264-272 | a FENCE word with fm, rd and rs1 zero decodes to FENCE carrying its pred and succ sets |
| OpDecoder.DecodeFenceI | src/lib/op/OpDecoder.cpp:273-276 | the FENCE.I word with rd, rs1 and immediate zero decodes to FENCE.I |
| OpDecoder.DecodeMiscMem | src/lib/op/OpDecoder.cpp:264-280 | a MISC-MEM word decodes to something exactly when it is a FENCE with fm, rd and rs1 zero or a FENCE.I with rd, rs1 and immediate zero |
| OpDecoder.DecodeSfence | src/lib/op/OpDecoder.cpp:282-285 | a SYSTEM word with funct3 0, rd 0 and funct7 0b0001001 decodes to SFENCE.VMA with rs1 and rs2 |
| OpDecoder.DecodeEnvironment | src/lib/op/OpDecoder.cpp:286-305 | the funct12 values 0, 1, 2, 0x102, 0x105 and 0x302 decode to ECALL, EBREAK, URET, SRET, WFI and MRET |
| OpDecoder.DecodeCsr | src/lib/op/OpDecoder.cpp:306-317 | funct3 1, 2 and 3 decode to CSRRW, CSRRS and CSRRC with the 12-bit CSR number, rd and rs1 |
| OpDecoder.DecodeCsrImm | src/lib/op/OpDecoder.cpp:318-329 | funct3 5, 6 and 7 decode to CSRRWI, CSRRSI and CSRRCI with the CSR number, rd and the rs1 field as the immediate |
| OpDecoder.DecodeSystemWord | src/lib/op/OpDecoder.cpp:281-333 | for every SYSTEM word the funct3 value alone selects the CSR op and its operands, whatever the other fields hold, and SFENCE.VMA is recognised before the environment calls |
| OpDecoder.DecodeUndefined | src/lib/op/OpDecoder.cpp:72-335 | a word whose opcode, funct3 or funct7 matches no class (unknown opcode, JALR with funct3 other than 0, the missing branch/load/store/shift/ALU funct3 values, ALU funct7 other than 0 or 0x20) decodes to nothing, whatever its other fields hold |
| OpDeprecated.BaseNames | src/lib/common/OpDeprecated.cpp:69-122 | every base-integer, Zifencei, Zicsr and privileged code has a name other than `unknown`, and exactly `xor_`, `or_` and `and_` keep the trailing underscore their C++ identifiers need |
| OpDeprecated.MulNames | src/lib/common/OpDeprecated.cpp:123-132 | every M-extension code has a real name, ending in no underscore |
| OpDeprecated.AtomicNames | src/lib/common/OpDeprecated.cpp:133-145 | every A-extension code has a real name, ending in no underscore |
| OpDeprecated.SingleNames | src/lib/common/OpDeprecated.cpp:146-173 | every F-extension code has a real name, ending in no underscore |
| OpDeprecated.DoubleNames | src/lib/common/OpDeprecated.cpp:174-201 | every D-extension code has a real name, ending in no underscore |
| OpDeprecated.CompressedNames | src/lib/common/OpDeprecated.cpp:202-251 | every C-extension code has a real name, ending in no underscore |
| OpDeprecated.Names | src/lib/common/OpDeprecated.cpp:64-256 | GetString returns `unknown` exactly for a value outside the enumeration, never an empty name, and a name ending in `_` exactly for xor_, or_ and and_ |
| OpDeprecated.NameReads | src/lib/common/OpDeprecated.cpp:64-256 | every listed code is found again from the name GetString gives it |
| OpDeprecated.NamesDistinct | src/lib/common/OpDeprecated.cpp:64-256 | no two listed codes share a name |
| OpDeprecated.IntRegNamesDecimal | src/lib/common/OpDeprecated.cpp:27-60 | the table has 32 entries and register i is named `x` followed by the decimal digits of i |
| Text.SignedDecimalRoundTrip | src/lib/op/RV64I.cpp:66 | printf's `%d` spelling of any integer reads back to that integer |
| Text.HexRoundTrip | src/lib/op/RV64I.cpp:554-560 | the shortest hexadecimal spelling of a number reads back to that number |
| Text.ByteHexRoundTrip | deprecated/tool/BinaryToText.py:47 | the two-digit lowercase hexadecimal spelling of a byte reads back to that byte |

## Left out

- File and operating-system I/O become inputs. This covers JSON loading, directory listings, `os.makedirs`, the Ram/Rom/core-memory image reads, the index file stream and the trace-writer output.
- The index writer that stores logged cycles is represented only by the blocks handed to it.
- The logger's destructor is not modelled.
- Foreign helpers are function-typed parameters; their own behaviour is not part of this model. They are `GetIntRegName`, `GetFpRegName`, `GetRoundingModeName`, the CSR naming `GetString`, `SignExtend`, the cycle parser behind the trace readers, the trace printer and filter, and the shell-style name matcher.
- The emulator's interrupt controller, memory access unit, decoder and executor are not part of this model. The processor receives them as functions.
- The register files and the atomic-reservation manager are not modelled.
- Cpu.Csr.ProcessCycle: the CSR file's own per-cycle update (`m_Csr.ProcessCycle()`) is not among the sources. The cycle receives it as a function on the whole state and applies it first.
- Trap codes (`Privileged.TrapCode`) are limited to values below 16, the range of the standard exception and interrupt codes. The source converts any enumerator value to its cause.
- IndexReader.TraceIndexReader.NextCycles: `dstCycle` and `skippedCycle` are `uint32_t`. The model uses unbounded integers, so their wrap-around is not modelled.
- CoreMemory.Memory.UpdateCore: the source's `assert(offset + lineSize < Capacity)` becomes a precondition, as for the RAM's assertions.
- MemoryWriter.TraceBinaryMemoryWriter.constructor: the model requires `0 <= bufferSize <= buffer.Length`. The source takes the caller's size as given.
- `make_linux_rule` in Tools/MetaBuild.py is not modelled: its call and its write are commented out, so it never reaches the build file.
- The `xstatus_t`/`xtvec_t` bit-field classes are replaced by explicit bit positions from the Privileged ISA: MIE 3, MPIE 7, MPP 12:11, SIE 1, SPIE 5, SPP 8, UIE 0, UPIE 4.
- TraceFormat.NodeIdOf: the numeric node ids and the node header declaration are in trace headers that are not part of this model. The header is taken to be a 16-bit id, 16 reserved zero bits and a 32-bit little-endian size, and each id to be its two letters.
- CycleBuilder.BinaryCycleBuilder.AddData: the `nodeSize > UINT32_MAX` check cannot fire once the buffer check has passed, so it is not modelled.
- CycleBuilder.BinaryCycleBuilder.AddData: a null node pointer with a non-zero size, and the `size_t` wrap-around of `m_DataSize + sizeof(NodeHeader) + nodeSize`, are not modelled. Sizes are unbounded integers.
- MemoryWriter.TraceBinaryMemoryWriter.Write: the `int64_t` overflow of `offset + size` is not modelled. The `size < SIZE_MAX` half of the range check is always true for a non-negative `int64_t`.
- Dump.PrintTrace: `cycleBegin + cycleCount` is computed on unbounded integers, so the 32-bit `int` overflow of that sum is not modelled.
- EmuMemory.Ram.Read: the RAM's bounds checks are debug assertions and become preconditions. The ROM's checks raise exceptions and become error results.
- OpDecoder.Decode: the `XLEN` member is stored but not consulted. The RV32MADC and RV64IMADC decoders are marked as to-do and do not exist.
- The disassembly renderers format into an 80-byte `sprintf` buffer. The model's strings are unbounded, so a rendering longer than 80 bytes is not treated as the buffer overrun it would be.
- OpDeprecated.Names: the numeric values of the operation codes are not modelled. The codes are the enumerators of a datatype, so injectivity is stated over them.
- Metabuild.MakeWorkdirRule: Python iterates a set in an unspecified order. The method picks the directories in some order, returned as a ghost sequence, and proves the rules cover each distinct directory once.
- The test runners' subprocess calls, worker pools and directory preparation are left out. This covers `RunTests` in `tool/run_riscv_tests.py` and the pool and `subprocess` calls in `deprecated/tool/RunTestOnPc.py`.
- `RunTests` mutates the configuration dictionaries in its loop. That mutation is part of the process dispatch and is not modelled.
- IndexReader.StepPastEnd: the file-based binary reader (`TraceBinaryReader`) is not part of this model. `TraceIndexReader.Next` is assumed to accept a call at the end, where the last binary stays open and exhausted; the memory reader (`MemoryReader.TraceBinaryMemoryReader.Next`) requires a current cycle instead. rafi-dump checks `IsEnd()` before each `Next()`, so it never makes that call.
- IndexReader.ParseEntries: malformed index files are not modelled. In the source, a count word that is not a number or does not fit in `uint32_t` sets the stream's failbit; the entry is kept with cycle 0 and parsing stops. The model reads every count word through `parseCycle` and goes on.
- The CSR file is a map of independent registers. The `sstatus`/`ustatus` views of `mstatus` and the WARL masking of writes are not modelled, so the "other registers unchanged" frames of `Privileged.EnterTrap` and `Privileged.ReturnFrom` rely on that independence.
- Metabuild.Display: Python's repr puts an item containing `'` between double quotes and escapes backslashes and control characters. The model always uses single quotes and copies the item. JSON field values are only strings and lists of strings; numbers, booleans, null and nested values are not modelled.
- Floating-point numbers in the JSON test lists are not modelled. A `skip` value is null, a boolean, an integer or a string.
