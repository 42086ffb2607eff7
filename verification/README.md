# Proofs about the .abc back end of the Ark runtime core

The back end turns assembly functions into bytecode, debug programs and file items, writes them into an
`.abc` file, and reads such files back. This project models that code in Dafny and proves what it
promises; where it does not keep a promise in general, it proves exactly when it does.

Objects that the code updates in place are classes here (the emitter, the line number program and its
interpreter, the index section, the deduplicated container, the data accessors, the builders); loops are
loops with invariants; lists and dictionaries are fields that methods reassign. Specifications are
functions on values, and the main results are lemmas about those.

| part | files |
|---|---|
| branch relaxation | Isa, Layout, Emitter, Relocation, Simulation, Fits |
| functions, their labels and try blocks | Assembly, LabelOffsets, CodeFormat, TryBlocks |
| line number programs | Leb128, LineProgram, LineProcessor, LineCompiler, LineTable, LocalTable |
| index regions and deduplication | IndexRegions, IndexSection, IndexResolution, ProgramIndex, DedupState, DedupProgress, Deduplication |
| layout, writing and reading of items | FileBytes, TaggedData, MethodAccessor, FieldAccessor, ClassAccessor, ClassReader, ValueItems, FileItems, FileLayout, Entities, FileWriter, Containers, SpoiledLayout, AssembledItems, FileReading, DebugAccessor, FileAccess |
| smaller cores | Shorty, Operands, StaticFields, Disassembly, Annotations |

`dafny verify dfyconfig.toml` checks everything.

## Results

Relaxation preserves meaning. A program is a sequence of opaque instructions, binds and branches. For every
such program whose labels are bound and whose offsets fit, the bytes that `Build` puts out and the labelled
program end in the same outcomes on every machine (`SameOutcomes`). Offsets need not fit: the estimate
charges a conditional branch one byte, a far rewrite adds six. `FitsExactly` says for each branch when its
offset fits, `OverrunIsTruncated` gives programs where it does not, and `SmallBuildsCorrectly` drops the
condition for code that is small enough.

Labels. The check for unbound labels compares cells by value, and an unbound cell holds 0; it is exact
unless some label is bound at offset 0, and then it lets unbound labels pass (`UnboundDetectedExactly`,
`BuildUnbound`). The assembler finds offsets a second time by walking the built bytes; both agree exactly as
long as no far branch comes before (`ResolversAgreeExactly`, `ResolversDiffer`), and then try blocks survive
writing and reading (`BuildAndRead`).

Debug programs. The interpreter stops after a first opcode that sets a column, since its result flag starts
false. A program that names a source file first, as those of functions without a record do, is not
affected. `StopsEarlyExactly` says which functions are, `LineTableExactly` when their line tables are right
in spite of it, and `SecondLineLost` gives one that loses a line. Variable tables are right for variables
that do not start on a register that is still in use (`SeparateTable`), and for no others where the offsets
in the table tell ends apart (`TableExactly`, `HandOverTable`).

Files. The greedy division into index regions is minimal (`GreedyIsMinimal`). A layout sizes items by the
offsets it has so far, those of names behind them being left over from the layout before. `LayoutExactly`
and `LayoutBySizes` say for all items and left-over offsets when everything is then written where the layout
put it, and `FixedPoint` that this is so exactly if laying out again changes nothing. The files of assembled
programs are always right: the assembler creates every name that a debug info is given before the debug
info (`Assembler.Emit`), and neither filling items in nor deduplication changes that (`AssembledSettles`,
`WriteAssembled`). Other users of the container, which may create a name after a debug info or a method
handle that is sized by it, can get a wrong file: `DeduplicationSpoils` runs such a container through layout,
deduplication, layout and writing, and the name ends up one byte before its offset.

`ItemSizeExactly` says which items write what was reserved for them. In every complete file each stored
index leads from the offset of its owner to the right item (`FileResolves`), as read from methods, fields,
interfaces, annotations and prototypes, and as the accessors read it from catch blocks and debug infos
(`EnumerateCatchTypes`, `ReadDebugInfo`). Deduplication conserves reference counts and content, drops exactly
the code items that duplicate an earlier one, and a second pass does nothing
(`DeduplicateCodeAndDebugInfo`). The lazy accessors give the same answers in any order of calls (`Run`).

Smaller cores. Enumerating the types of a prototype twice repeats the list only if its length is a multiple
of four. A try range that ends with the code leaves the disassembler with a label but no instruction
for it, and only then. Annotations with the id of an earlier one are lost.

## Model

Names of labels, strings and items are numbers here.

| member | source | states |
|---|---|---|
| Bytes.IntRoundTrip | libpandafile/bytecode_emitter.cpp:356-370 | an offset stored in a field reads back if and only if it fits the signed width of the field |
| Isa.JumpRoundTrip | libpandafile/bytecode_emitter.cpp:347-376 | a jump instruction read back from its bytes gives its opcode, register and any offset that fits its field |
| Isa.ParseInvertsOpcodeByte | libpandafile/bytecode_emitter.cpp:255-256 | the opcode byte of a branch determines the branch instruction |
| Isa.RevertNegates | libpandafile/bytecode_emitter.cpp:237-245 | on every machine state exactly one of a condition and its reverted condition holds |
| Isa.RevertKeepsRegister | libpandafile/bytecode_emitter.cpp:333-336 | reverting a condition keeps its operand and its size, and reverting twice gives it back |
| Emitter.Emitter.constructor | libpandafile/bytecode_emitter.h:129-133 | a new emitter holds no code |
| Emitter.Emitter.CreateLabel | libpandafile/bytecode_emitter.h:85-89 | a fresh label has a cell of its own, holding 0 |
| Emitter.Emitter.Bind | libpandafile/bytecode_emitter.cpp:190-194 | the label's cell is the current offset; labels stay sorted; the emitter now stands for one more bind |
| Emitter.Emitter.Jmp | libpandafile/bytecode_emitter.cpp:196-200 | appends one short jump and one entry in the branch table |
| Emitter.Emitter.Jcmp | libpandafile/bytecode_emitter.cpp:220-229 | appends the short or the long form of a register comparison, as its opcode says |
| Emitter.Emitter.Jcmpz | libpandafile/bytecode_emitter.cpp:231-235 | appends a short comparison with zero |
| Emitter.Emitter.CheckLabels | libpandafile/bytecode_emitter.cpp:459-468 | succeeds exactly if each branch's label has the same cell value as some bound label |
| Emitter.UnboundDetectedExactly | libpandafile/bytecode_emitter.cpp:459-468 | the check passes if and only if every label used is bound, or some label is bound at offset 0 |
| Emitter.BuildUnbound | libpandafile/bytecode_emitter.cpp:459-468 | a program that jumps to a label which is never bound, and builds |
| Emitter.Emitter.EstimateMaxDistance | libpandafile/bytecode_emitter.cpp:434-457 | the returned distance is the current one plus the largest growth of the branches not yet processed in between |
| Emitter.Emitter.UpdateLabelTargets | libpandafile/bytecode_emitter.cpp:378-392 | exactly the labels behind the instruction move, by the inserted bytes, and the label set stays sorted |
| Emitter.Emitter.DoReserveSpaceForOffset | libpandafile/bytecode_emitter.cpp:291-345 | replaces the instruction by its wider or far form in the byte vector, and says how much was inserted and where the offset now is |
| Emitter.Emitter.ReserveBranch | libpandafile/bytecode_emitter.cpp:251-275 | one turn of the pass keeps the relation between original and current bytes, cells, branch table and bias |
| Emitter.Emitter.ReserveSpaceForOffsets | libpandafile/bytecode_emitter.cpp:246-278 | the pass yields the code of the planned forms with zero offsets, all cells at the images of their labels |
| Emitter.Emitter.UpdateBranches | libpandafile/bytecode_emitter.cpp:347-376 | the second pass stores, in each branch, the distance from its carrying instruction to its label |
| Emitter.Emitter.Build | libpandafile/bytecode_emitter.cpp:202-218 | the output is the linked code of the emitted items under the final forms, or the unbound-label error in exactly the case above |
| Layout.UnprocessedShift | libpandafile/bytecode_emitter.cpp:248-255 | at every step of the pass, what is not yet processed sits at its original offset plus the bias |
| Layout.CodeUpdate | libpandafile/bytecode_emitter.cpp:297-340 | changing the form of one item replaces its bytes and nothing else |
| Layout.OffsetUpdate | libpandafile/bytecode_emitter.cpp:270-273 | changing the form of one item moves exactly the later items, by the growth |
| Layout.SitesNext | libpandafile/bytecode_emitter.cpp:269-276 | the branch table of the rest of the items starts with the next branch |
| Relocation.RelocationMonotone | libpandafile/bytecode_emitter.cpp:246-278 | relocation is one monotone map of offsets under which distances never shrink, for all forms |
| Relocation.OthersUntouched | libpandafile/bytecode_emitter.cpp:291-345 | deleting the branch instructions from the output leaves the other bytes of the input |
| Relocation.ItemBytes | libpandafile/bytecode_emitter.cpp:291-376 | each item's bytes lie between its offset and the next |
| Simulation.StepSimulated | libpandafile/bytecode_emitter.cpp:237-245 | each step of the labelled program is matched by one step of the bytes, or by two or more where a branch became an inverted jump over a long one |
| Simulation.RunSimulated | libpandafile/bytecode_emitter.cpp:202-376 | every run of the labelled program is matched by a run of the bytes, at the image of each label |
| Simulation.RunTracked | libpandafile/bytecode_emitter.cpp:202-376 | every run of the bytes that ends is one of the labelled program |
| Simulation.SameOutcomes | libpandafile/bytecode_emitter.cpp:202-376 | if all offsets fit, labelled program and bytes end in the same outcomes: if and only if |
| Fits.ExcessOfForm | libpandafile/bytecode_emitter.cpp:394-432 | a branch grows by more than its estimate exactly if it takes the far form, then by 5 or 3 bytes |
| Fits.FinalDistance | libpandafile/bytecode_emitter.cpp:434-457 | the final distance of a branch is its estimate, plus the excess of the far branches up to its label if that is ahead |
| Fits.FitsExactly | libpandafile/bytecode_emitter.cpp:246-278 | a stored offset fits its field if and only if the branch is backward, or 32 bits wide, or the excess in between stays within the slack |
| Fits.FitsWithoutFar | libpandafile/bytecode_emitter.cpp:246-278 | a branch with no far branch strictly between it and its label always fits |
| Fits.SmallFits | libpandafile/bytecode_emitter.cpp:246-278 | if the initial length plus three bytes for each branch is at most 32767, all offsets fit |
| Fits.SmallBuildsCorrectly | libpandafile/bytecode_emitter.cpp:202-376 | for such programs the built bytes have the outcomes of the labelled program, with no condition on offsets |
| Fits.OverrunIsTruncated | libpandafile/bytecode_emitter.cpp:311-337 | a family of programs, all labels bound once, whose first branch ends up with an offset that does not fit |
| LabelOffsets.MakeOffsets | assembler/assembly-emitter.cpp:1707-1747 | every label that a catch block names gets the walked offset of the instruction that carries it, or 0 if none does |
| LabelOffsets.WalkHitsItems | assembler/assembly-emitter.cpp:1728-1744 | a walk over built bytes meets exactly the instructions of the items, and each of its steps is positive |
| LabelOffsets.ResolversAgreeExactly | assembler/assembly-emitter.cpp:1707-1747 | walked and real offset of a position agree if and only if no far branch is before it, and the walked one is never larger |
| LabelOffsets.ResolversDiffer | assembler/assembly-emitter.cpp:1707-1747 | a family of programs in which the walked offset of a label is too low |
| LabelOffsets.InsOffsetsExactly | assembler/assembly-emitter.cpp:1684-1702 | the same for the instructions of a function |
| LabelOffsets.TryLabelsAgreeExactly | assembler/assembly-emitter.cpp:1555-1585 | the same for the labels of try and catch blocks, against the final cells of the emitter |
| TryBlocks.MakeOrder | assembler/assembly-emitter.cpp:1713-1726 | catch blocks are grouped by their range, ranges in the order of first appearance, handlers in order |
| TryBlocks.GroupHolds | assembler/assembly-emitter.cpp:1713-1726 | every handler is in the group of its range, behind those given before it |
| TryBlocks.OrderDistinct | assembler/assembly-emitter.cpp:1720-1724 | no range appears twice |
| TryBlocks.BuildTryBlocks | assembler/assembly-emitter.cpp:1749-1792 | one try block for each range, with the walked offsets of its labels and one catch block for each handler |
| TryBlocks.BuildAndRead | assembler/assembly-emitter.cpp:1749-1792 | blocks built, written with the code and read back: every handler whose labels are set protects its range at the real offsets, catch-all as the invalid index, if no branch took the far form |
| CodeFormat.CodeSizeExact | libpandafile/file_items.cpp:692-749 | a code item takes exactly the bytes reserved for it |
| CodeFormat.CatchRead | libpandafile/code_data_accessor.cpp:20-27 | a written catch block reads back, catch-all as the invalid index |
| CodeFormat.TryBlock.constructor | libpandafile/code_data_accessor.cpp:29-35 | start, length, number of catches and the position of the first catch are those written |
| CodeFormat.TryBlock.EnumerateCatchBlocks | libpandafile/code_data_accessor-inl.h:24-35 | the callback sees the written catch blocks in order up to where it stops; the size is set only by a full run |
| CodeFormat.TryBlock.GetSize | libpandafile/code_data_accessor.h:52-59 | the size is the written one, whatever was enumerated before |
| CodeFormat.CodeDataAccessor.constructor | libpandafile/code_data_accessor.cpp:37-49 | registers, arguments, instructions and the position of the try blocks are those written |
| CodeFormat.CodeDataAccessor.EnumerateTryBlocks | libpandafile/code_data_accessor-inl.h:43-54 | the callback sees the written try blocks in order up to where it stops, for any use it makes of each |
| CodeFormat.CodeDataAccessor.GetSize | libpandafile/code_data_accessor.h:146-153 | the size is the written one, whatever was enumerated before |
| Leb128.UlebRoundTrip | libpandabase/utils/leb128.h:32-55 | an unsigned number reads back from any stream that starts with its encoding |
| Leb128.SlebRoundTrip | libpandabase/utils/leb128.h:57-93 | the same for signed numbers |
| Leb128.UlebInjective | libpandabase/utils/leb128.h:95-113 | encodings are prefix-free |
| Leb128.UlebSize | libpandabase/utils/leb128.h:137-141 | the computed size is the length of the encoding |
| Leb128.SlebSize | libpandabase/utils/leb128.h:143-151 | the same for signed numbers |
| LineProgram.SpecialRoundTrip | libpandafile/file_items.cpp:1372-1385 | a special opcode decodes to the two increments it was made from, if the address increment stays below 2^32/15 |
| LineProgram.LineNumberProgram.EmitSpecialOpcode | libpandafile/file_items.cpp:1372-1385 | emits one byte exactly if the pair of increments has a special opcode |
| LineProgram.LineNumberProgram.EmitAdvancePc | libpandafile/file_items.cpp:1321-1325 | one opcode, its operand in the constant pool |
| LineProgram.LineNumberProgram.EmitAdvanceLine | libpandafile/file_items.cpp:1327-1331 | one opcode, its operand in the constant pool |
| LineProgram.LineNumberProgram.EmitStartLocal | libpandafile/file_items.cpp:1333-1337 | opcode and register in the stream, name and type in the pool |
| LineProgram.LineNumberProgram.EmitStartLocalExtended | libpandafile/file_items.cpp:1339-1358 | the same with a signature |
| LineProgram.LineNumberProgram.EmitEndLocal | libpandafile/file_items.cpp:1360-1364 | opcode and register in the stream |
| LineProgram.LineNumberProgram.EmitColumn | libpandafile/file_items.cpp:1387-1394 | the address increment if there is one, then the column |
| LineProgram.LineNumberProgram.EmitSetFile | libpandafile/file_items.cpp:1406-1416 | one opcode, the offset of the file name in the pool |
| LineProgram.LineNumberProgram.EmitSetSourceCode | libpandafile/file_items.cpp:1418-1428 | one opcode, the offset of the text in the pool |
| LineProgram.LineNumberProgram.EmitEnd | libpandafile/file_items.cpp:1316-1319 | closes the stream |
| LineProcessor.Processor.HandleOpcode | libpandafile/line_number_program.h:139-183 | one opcode consumes its own bytes of both streams and has its meaning; only setting a column leaves the result flag as it was |
| LineProcessor.Processor.HandleStart | libpandafile/line_number_program.h:245-260 | a variable starts at the current address |
| LineProcessor.Processor.HandleEndLocal | libpandafile/debug_info_extractor.cpp:108-122 | the last variable on the register, whether it is still open or not, ends at the current address |
| LineProcessor.Processor.Process | libpandafile/line_number_program.h:132-193 | the program runs up to its end, or up to a first opcode that sets a column; both streams are consumed in step |
| LineCompiler.EmitLocalVariable | assembler/assembly-emitter.cpp:1587-1616 | the opcodes for variables that start or end at an instruction |
| LineCompiler.EmitNumber | assembler/assembly-emitter.cpp:1628-1643 | the opcodes that advance address and line |
| LineCompiler.EmitLineNumber | assembler/assembly-emitter.cpp:1645-1654 | nothing if the line did not change |
| LineCompiler.EmitColumnNumber | assembler/assembly-emitter.cpp:1656-1665 | nothing if the column did not change |
| LineCompiler.BuildLineNumberProgram | assembler/assembly-emitter.cpp:1667-1705 | whatever the program already holds, the opcodes compiled from lines, columns and variables follow it, and it is closed |
| LineCompiler.EmitDebugInfo | assembler/assembly-emitter.cpp:1356-1387 | the whole program of a function: its source text and file first, if the file is not that of its record |
| LineTable.NumberMeaning | assembler/assembly-emitter.cpp:1628-1643 | whichever opcodes are chosen, address and line advance by exactly the increments and one row is added |
| LineTable.RowsAfter | assembler/assembly-emitter.cpp:1684-1702 | after any number of instructions, the last row at or before each noted instruction has its line |
| LineTable.StopsEarlyExactly | libpandafile/line_number_program.h:137-187 | processing stops after the first opcode if and only if the function has no source file of its own, and its first instruction with an opcode has the first line and a column and comes before any variable |
| LineTable.LineTableExactly | libpandafile/debug_info_extractor.cpp:47-137 | every noted instruction finds its line in the extracted table if and only if the program does not start by setting a column, or all lines are the first one |
| LineTable.SecondLineLost | libpandafile/line_number_program.h:137-187 | a two-line function whose second line is lost if and only if it has no source file of its own |
| LineTable.SourceExactly | libpandafile/debug_info_extractor.cpp:205-232 | every function is attributed to its own source file and text if it has them, otherwise to the file of its record |
| LineTable.CompileAndProcess | libpandafile/debug_info_extractor.cpp:205-232 | compiler and interpreter together, over the bytes: the tables and the file of every function |
| LineTable.BuiltIsWalkable | assembler/assembly-emitter.cpp:1684-1702 | built code below 2^32/15 bytes meets the conditions of these results; walked offsets are real ones exactly without far branches before them |
| LocalTable.TableAfter | assembler/assembly-emitter.cpp:1684-1702 | after any number of instructions, the operations so far show exactly the starts and ends noted on the walk |
| LocalTable.LocalTableExactly | libpandafile/debug_info_extractor.cpp:91-122 | for all variables, the extracted table is the one noted on the walk, with offsets for instructions, or empty if the program starts by setting a column; an unknown variable is never ended |
| LocalTable.TrackOrdered | assembler/assembly-emitter.cpp:1587-1616 | the table lists exactly the variables started so far, in the order of their starts |
| LocalTable.EndsExactly | libpandafile/debug_info_extractor.cpp:108-122 | every variable is given its own end if and only if no other one starts on its register between its start and its end |
| LocalTable.SeparateTable | libpandafile/debug_info_extractor.cpp:167-174 | then the extracted table has exactly the right entry for each variable that starts in the function; those still open are closed at the end |
| LocalTable.TableExactly | libpandafile/debug_info_extractor.cpp:91-174 | where each end is at an instruction with an opcode, behind another one and before one of another line, the extracted table has exactly the right entries if and only if no variable starts on the register of another one between its start and its end |
| LocalTable.ApartExactly | libpandafile/debug_info_extractor.cpp:91-174 | the same where the offsets of ends differ from each other, from zero and from the last address reached |
| LocalTable.HandOverTable | libpandafile/debug_info_extractor.cpp:91-174 | compiled and extracted, a function with two variables that hand over a register has the right table if and only if the one that ends is listed first |
| LocalTable.DisjointIsSeparate | assembler/assembly-emitter.cpp:1587-1616 | distinct registers, or live ranges on a register that do not touch, are enough |
| LocalTable.HandOverExactly | assembler/assembly-emitter.cpp:1596-1615 | two variables that hand over a register at an instruction are told apart if and only if the one that ends is listed first |
| IndexRegions.Remove | libpandafile/file_item_container.cpp:829-838 | the tables without the given dependencies |
| IndexRegions.Add | libpandafile/file_item_container.cpp:804-827 | all or nothing: the dependencies are added if and only if every table stays within 65535 entries, otherwise the header is as before |
| IndexSection.Section.ProcessIndexDependencies | libpandafile/file_item_container.cpp:501-527 | an item goes into the current region or a new one; it fails if and only if it does not fit a region of its own |
| IndexSection.Section.RebuildIndexSection | libpandafile/file_item_container.cpp:451-472 | succeeds if and only if each item fits alone; then the regions divide the items contiguously, tables hold just what their items refer to, and no region but the last could take its next item |
| IndexSection.StaysAhead | libpandafile/file_item_container.cpp:501-527 | no other division is ahead of the greedy one at any cut |
| IndexSection.GreedyIsMinimal | libpandafile/file_item_container.cpp:501-527 | no division into contiguous feasible regions has fewer regions |
| IndexResolution.UpdateOrderIndexes | libpandafile/file_item_container.cpp:474-499 | items are numbered in order, each followed by its members |
| IndexResolution.WriterFindsIndex | libpandafile/file_items.h:257-277 | by order number, every dependency of every item or member is found in exactly one region |
| IndexResolution.HeaderFound | libpandafile/file.h:190-200 | by offset, the reader finds the region of the same item |
| IndexResolution.IndexResolves | libpandafile/file.h:202-278 | the index chosen by number, resolved by offset from the bytes of the section, is below 65535 and gives the dependency's offset |
| ProgramIndex.LowerBound | libpandafile/file_item_container.h:158-187 | where an ordered search ends, under the changing key |
| ProgramIndex.Remove | libpandafile/file_item_container.h:126-129 | the set without the program, still ordered |
| ProgramIndex.Add | libpandafile/file_item_container.cpp:873-886 | the set with the program, still ordered |
| ProgramIndex.ChangeRefCount | libpandafile/file_item_container.h:199-213 | taking out, changing the count and putting back keeps the set ordered and its members the same |
| DedupState.DebugInjective | libpandafile/file_items.cpp:1492-1524 | two debug infos write the same bytes if and only if they agree in line, names, pool and program |
| DedupState.MergeKeepsCounts | libpandafile/file_item_container.cpp:232-241 | after a merge each program is counted once for every emitted debug info that points at it |
| DedupState.DropKeepsCounts | libpandafile/file_item_container.cpp:253-257 | the same after a debug info was dropped |
| DedupProgress.SoleUser | libpandafile/file_item_container.cpp:232-241 | a program is replaced only when nobody else uses it |
| DedupProgress.FirstHalf | libpandafile/file_item_container.cpp:251-251 | replacing a program keeps what every method reaches and what remains to be done |
| DedupProgress.SecondHalf | libpandafile/file_item_container.cpp:253-257 | the same for replacing a debug info |
| DedupProgress.OneEachIsReady | libpandafile/file_item_container.cpp:223-230 | the state the assembler leaves, with a program for each debug info and a debug info for each method, meets the conditions of the pass |
| DedupProgress.CanonicalIsUnshared | libpandafile/file_item_container.cpp:273-295 | the state a pass leaves meets the conditions of another pass |
| Deduplication.KeepsFirst | libpandafile/file_item_container.cpp:26-43 | over any run of items, each one is replaced by the first with the same bytes |
| Deduplication.ItemContainer.DeduplicateLineNumberProgram | libpandafile/file_item_container.cpp:232-241 | the debug info gets the first program with its data; counts and order hold |
| Deduplication.ItemContainer.DeduplicateDebugInfo | libpandafile/file_item_container.cpp:243-258 | one visit of a method keeps counts, order and content, and leaves its debug info the first of its kind |
| Deduplication.ItemContainer.DeduplicateCode | libpandafile/file_item_container.cpp:260-271 | the method gets the first code item with its bytes |
| Deduplication.ItemContainer.DeduplicateCodeAndDebugInfo | libpandafile/file_item_container.cpp:273-295 | afterwards no duplicates are left, every count is that of the emitted users and at least one, the index is ordered, every method reaches the same content and has the code item of the first method with these bytes, exactly the code items that duplicate an earlier one are dropped, and where there were no duplicates nothing changed |
| ValueItems.ScalarSizeExact | libpandafile/file_items.cpp:794-864 | a scalar writes as many bytes as were reserved for it |
| ValueItems.ArraySizeExactly | libpandafile/file_items.cpp:886-975 | an array writes what was reserved for it if and only if each of its scalars has the width of its component type |
| ValueItems.MisfitArrays | libpandafile/file_items.cpp:886-975 | arrays that write less, and more, than was reserved for them |
| ValueItems.ArrayLies | libpandafile/file_items.cpp:891-946 | if the widths match, each element is written where the layout put it |
| ValueItems.LiteralArrayExact | libpandafile/file_items.cpp:977-1099 | a literal array writes what was reserved for it, each literal where the layout put it |
| ValueItems.AnnotationExact | libpandafile/file_items.cpp:1251-1314 | an annotation writes what was reserved for it: class, count, elements and tags at fixed places |
| ValueItems.ParamAnnotationsExact | libpandafile/file_items.cpp:336-371 | the same for the annotations of parameters, one counted list for each |
| ValueItems.ProtoSizeExact | libpandafile/file_items.cpp:406-423 | the same for a prototype |
| FileItems.ClassSizeSame | libpandafile/file_items.cpp:136-178 | the size of a class does not depend on any offset or index |
| FileItems.ItemSizeExactly | libpandafile/file_items.cpp:1475-1524 | with the same offsets and indexes every item of every kind writes the size reserved for it, except exactly the arrays whose scalars do not have the width of the component type |
| FileItems.SizeDepends | libpandafile/file_items.cpp:1475-1490 | the size of an item is settled by the offsets of the items before it, if its names come before it |
| FileLayout.ComputeOffsets | libpandafile/file_item_container.cpp:415-432 | the offsets of one pass over the items, starting from those left by an earlier layout |
| FileLayout.LayoutExactly | libpandafile/file_item_container.cpp:415-443 | for all items and all offsets left by earlier layouts: every item and the program table are written where the layout put them if and only if what each item writes and what was reserved for it reach the same next position |
| FileLayout.LayoutBySizes | libpandafile/file_item_container.cpp:415-443 | for items that write their sizes, this holds if and only if each item, sized by the final offsets, reaches the same next position as with the size that was reserved for it |
| FileLayout.MeetsUnless | libpandafile/file_items.cpp:1475-1490 | that can fail only for arrays that do not fit, and for debug infos and method handles whose names moved to offsets of another width |
| FileLayout.MeetsExactly | libpandafile/file_items.cpp:1475-1490 | before an item that needs no alignment it fails if and only if the item is sized differently by the final offsets than by those known when it was laid out |
| FileLayout.FineSettles | libpandafile/file_item_container.cpp:415-432 | it holds if names come before the items sized by them, whatever an earlier layout left |
| FileLayout.FixedPoint | libpandafile/file_item_container.cpp:400-443 | a layout is right if and only if laying out once more would change no offset |
| FileLayout.KeepsOffset | libpandafile/file_item_container.cpp:415-432 | an item keeps its offset over layouts with the same base, whatever else is created or dropped behind it, if the items up to it keep their sizes and none of them is sized by offsets |
| FileLayout.Align | libpandafile/file_writer.h:50-60 | zeros up to the next aligned position |
| FileLayout.WriteItems | libpandafile/file_item_container.cpp:634-656 | every item is written at the next aligned position after the one before it, and nothing written is disturbed |
| FileLayout.Apart | libpandafile/file_item_container.cpp:415-432 | items are aligned and do not overlap |
| Entities.NumbersOnly | libpandafile/file_item_container.cpp:474-499 | the order numbers are determined by the items and their members |
| Entities.DepsOfEntity | libpandafile/file_item_container.cpp:501-508 | the dependencies of an item or member are found by its order number |
| Entities.EntitiesGrow | libpandafile/file_items.cpp:180-199 | offsets of items and members increase with their order numbers |
| FileWriter.FileContainer.ComputeLayout | libpandafile/file_item_container.cpp:400-443 | numbers, regions and offsets are made anew from the items; it fails if and only if an item does not fit a region of its own |
| FileWriter.FileContainer.Write | libpandafile/file_item_container.cpp:564-673 | every item is written after the one before it; the layout is settled if and only if these are the places, and that of the program table, that it gave them; then header, tables, index section, items and program table lie where the layout says, and the file is as long as its size field says |
| Containers.DropKeepsFine | libpandafile/file_item_container.cpp:415-432 | dropping items, and numbering the others anew, keeps names before the items sized by them |
| Containers.Container.ComputeLayout | libpandafile/file_item_container.cpp:400-443 | the emitted items are laid out from the offsets they have, the others keep theirs; it fails if and only if an emitted item does not fit a region of its own |
| Containers.Container.Write | libpandafile/file_item_container.cpp:564-673 | the emitted items, laid out once more, are written one after the other, and if that layout is settled the file is as it says |
| SpoiledLayout.DeduplicationSpoils | libpandafile/file_item_container.cpp:393-398 | a container with a class of two methods with equal code, one of them with a debug info that names a later string, run through layout, deduplication, layout and writing: the name gets the offset 10179 and is written at 10178 |
| AssembledItems.Assembler.GetOrCreateStringItem | libpandafile/file_item_container.cpp:145-185 | a name that is known, as a class or a string, is found and nothing is created; any other one is created last |
| AssembledItems.Assembler.HandleFunctionLocalVariables | assembler/assembly-emitter.cpp:1082-1104 | succeeds exactly if every variable has a name and a signature; then all their names are known |
| AssembledItems.Assembler.MakeFunctionItems | assembler/assembly-emitter.cpp:1142-1187 | succeeds exactly if debug infos are not asked for or all variables of all functions are named; then all their names are known |
| AssembledItems.Assembler.AddDebugInfo | assembler/assembly-emitter.cpp:1228-1255 | a debug info is created, and the names it is given then were all created before it |
| AssembledItems.Assembler.Emit | assembler/assembly-emitter.cpp:1433-1476 | for every program: each debug info names only items that were created before it, and emission goes on exactly if all variables are named where that is needed |
| AssembledItems.AssembledFine | assembler/assembly-emitter.cpp:1433-1476 | in the list of all items of an assembled program every name comes before the items sized by it |
| AssembledItems.AssembledSettles | libpandafile/file_item_container.cpp:393-443 | so every layout of an assembled program is settled, whatever is filled in or dropped after its items were created and whatever offsets earlier layouts left |
| AssembledItems.WriteAssembled | libpandafile/file_item_container.cpp:564-673 | and its file is as the layout says |
| FileReading.SizeInHeader | libpandafile/file_item_container.cpp:564-601 | the size and the places of the index section and the program table can be read from the header |
| FileReading.IndexFits | libpandafile/file_item_container.cpp:840-851 | in a file below 4 GB every word of the index section fits |
| FileReading.FileResolves | libpandafile/file.h:190-278 | in such a file, the index stored by any item or member for any of its dependencies leads from its own offset to the offset of what it stands for |
| FileReading.MemberResolves | libpandafile/file_items.cpp:438-463 | the class and prototype index at the start of a method, and the class and type index at the start of a field, read from the file, lead to what the member was given |
| FileReading.ForeignResolves | libpandafile/file_items.cpp:438-463 | the same for foreign methods and fields |
| FileReading.AnnotationResolves | libpandafile/file_items.cpp:1257-1264 | the index at the start of an annotation leads to its class |
| FileReading.ProtoResolves | libpandafile/file_items.cpp:406-423 | the indexes after the packed types of a prototype lead to its reference types, in order |
| FileReading.EnumerateInterfaceIds | libpandafile/class_data_accessor-inl.h:58-66 | enumerating the interfaces of a class gives the offsets of its interfaces, in order |
| FileReading.ScalarReads | libpandafile/file_items.cpp:836-864 | a scalar item is read back from its offset |
| DebugAccessor.DebugInfoDataAccessor.constructor | libpandafile/debug_data_accessor.cpp:21-29 | line and number of parameters are those written, and the names start behind them |
| DebugAccessor.DebugInfoDataAccessor.EnumerateParameters | libpandafile/debug_data_accessor-inl.h:24-35 | the names written, in order, in any state of the cursors |
| DebugAccessor.DebugInfoDataAccessor.GetConstantPool | libpandafile/debug_data_accessor-inl.h:42-54 | the constant pool written, in any state of the cursors |
| DebugAccessor.DebugInfoDataAccessor.GetLineNumberProgram | libpandafile/debug_data_accessor-inl.h:61-74 | what the table that the header leads to holds for the program index written, in any state of the cursors |
| DebugAccessor.DebugInfoDataAccessor.GetSize | libpandafile/debug_data_accessor.h:51-58 | the size is that of the bytes written |
| FileAccess.ProgramResolves | libpandafile/file.h:242-278 | the number read at the end of a debug info leads through the table that the header leads to, to the offset of its program |
| FileAccess.ReadDebugInfo | libpandafile/debug_data_accessor-inl.h:24-74 | of any debug info of a complete file the accessor reads the line, the offsets of the names, the pool and the offset of the program |
| FileAccess.CatchResolves | libpandafile/file_items.cpp:603-623 | the index written for any catch block of any try block of the code leads, from the method the code was written for, to the class it catches; a block that catches all is read as such |
| FileAccess.EnumerateCatchTypes | libpandafile/code_data_accessor-inl.h:24-60 | the accessor reads the try and catch blocks of the code from the file, and the indexes it reads lead to the classes caught, in order, wherever the callbacks stop |
| FileAccess.ReadWideField | libpandafile/field_data_accessor.cpp:48-87 | a field whose type index, read and resolved, is a 64-bit type: the accessor reads the number in the scalar item that the field was linked to |
| TaggedData.EnumerateTaggedValues | libpandafile/helpers.h:106-120 | values are read as long as the tag repeats |
| TaggedData.SectionRead | libpandafile/helpers.h:89-120 | reading a section from its start gives its values and ends at the start of the next one, for any sections in the order of their tags |
| MethodAccessor.MethodSizeExact | libpandafile/file_items.cpp:473-507 | a method takes exactly the bytes reserved for it |
| MethodAccessor.MethodDataAccessor.constructor | libpandafile/method_data_accessor.cpp:21-43 | class, prototype, name and flags are those written |
| MethodAccessor.MethodDataAccessor.GetCodeId | libpandafile/method_data_accessor-inl.h:61-71 | the code written, in any state of the cursors |
| MethodAccessor.MethodDataAccessor.GetSourceLang | libpandafile/method_data_accessor-inl.h:73-88 | the language written, in any state of the cursors |
| MethodAccessor.MethodDataAccessor.EnumerateRuntimeAnnotations | libpandafile/method_data_accessor-inl.h:90-103 | the runtime annotations written, in any state of the cursors |
| MethodAccessor.MethodDataAccessor.GetRuntimeParamAnnotationId | libpandafile/method_data_accessor-inl.h:105-117 | the runtime parameter annotations written, in any state of the cursors |
| MethodAccessor.MethodDataAccessor.GetDebugInfoId | libpandafile/method_data_accessor-inl.h:119-130 | the debug info written, in any state of the cursors |
| MethodAccessor.MethodDataAccessor.EnumerateAnnotations | libpandafile/method_data_accessor-inl.h:132-145 | the annotations written, in any state of the cursors |
| MethodAccessor.MethodDataAccessor.GetParamAnnotationId | libpandafile/method_data_accessor-inl.h:147-166 | the parameter annotations written, and the size becomes known |
| MethodAccessor.MethodDataAccessor.GetSize | libpandafile/method_data_accessor.h:121-128 | the size is the one reserved by the writer |
| MethodAccessor.MethodDataAccessor.Run | libpandafile/method_data_accessor-inl.h:61-166 | any sequence of calls gets, call by call, what was written |
| FieldAccessor.FieldSizeExact | libpandafile/file_items.cpp:1142-1162 | a field takes exactly the bytes reserved for it |
| FieldAccessor.ValueRead | libpandafile/field_data_accessor.cpp:48-87 | the value written is read, and the cursor ends behind it |
| FieldAccessor.FieldDataAccessor.constructor | libpandafile/field_data_accessor.cpp:23-46 | class, type, name and flags are those written |
| FieldAccessor.FieldDataAccessor.GetValueInternal | libpandafile/field_data_accessor.cpp:48-87 | the value written, in any state of the cursors |
| FieldAccessor.FieldDataAccessor.EnumerateRuntimeAnnotations | libpandafile/field_data_accessor-inl.h:103-116 | the runtime annotations written, in any state of the cursors |
| FieldAccessor.FieldDataAccessor.EnumerateAnnotations | libpandafile/field_data_accessor-inl.h:118-133 | the annotations written, and the size becomes known |
| FieldAccessor.FieldDataAccessor.GetSize | libpandafile/field_data_accessor.h:118-125 | the size is the one reserved by the writer |
| FieldAccessor.FieldDataAccessor.Run | libpandafile/field_data_accessor-inl.h:71-133 | any sequence of calls gets, call by call, what was written |
| ClassAccessor.ClassSizeExact | libpandafile/file_items.cpp:136-178 | a class takes exactly the bytes reserved for it, and its fields start behind the zero tag |
| ClassAccessor.FieldLies | libpandafile/file_items.cpp:180-199 | each field of a written class lies at the offset the layout gives it |
| ClassAccessor.MethodLies | libpandafile/file_items.cpp:180-199 | each method of a written class lies at the offset the layout gives it |
| ClassAccessor.ReadInterfaces | libpandafile/class_data_accessor.cpp:45-57 | the tag loop finds the interfaces, if any, and ends at the first other tag |
| ClassReader.ClassDataAccessor.constructor | libpandafile/class_data_accessor.cpp:24-65 | name, superclass, flags, counts and interfaces are those written; cursors set at once stand at their sections |
| ClassReader.ClassDataAccessor.EnumerateInterfaces | libpandafile/class_data_accessor-inl.h:57-66 | the interface indexes written, in order |
| ClassReader.ClassDataAccessor.GetInterfaceId | libpandafile/class_data_accessor-inl.h:68-74 | one interface index |
| ClassReader.ClassDataAccessor.GetSourceLang | libpandafile/class_data_accessor-inl.h:76-80 | the language written, in any state of the cursors |
| ClassReader.ClassDataAccessor.EnumerateRuntimeAnnotations | libpandafile/class_data_accessor-inl.h:82-91 | the runtime annotations written, in any state of the cursors |
| ClassReader.ClassDataAccessor.EnumerateAnnotations | libpandafile/class_data_accessor-inl.h:93-102 | the annotations written, in any state of the cursors |
| ClassReader.ClassDataAccessor.GetSourceFileId | libpandafile/class_data_accessor-inl.h:104-115 | the source file written, and the fields are found behind the zero tag |
| ClassReader.ClassDataAccessor.EnumerateFields | libpandafile/class_data_accessor-inl.h:131-139 | each field in order at its own offset, with the right answers to whatever the callback asks of it |
| ClassReader.ClassDataAccessor.EnumerateMethods | libpandafile/class_data_accessor-inl.h:141-152 | the same for methods, and the size becomes known |
| ClassReader.ClassDataAccessor.GetSize | libpandafile/class_data_accessor.h:88-95 | the size is the one reserved by the writer |
| ClassReader.ClassDataAccessor.Run | libpandafile/class_data_accessor-inl.h:57-152 | any sequence of calls gets, call by call, what was written |
| Shorty.ProtoItem.AddType | libpandafile/file_items.cpp:383-404 | the words hold the types so far and nothing but zeros behind them, at least one |
| Shorty.ProtoDataAccessor.EnumerateTypes | libpandafile/proto_data_accessor-inl.h:36-68 | the first run gives the list of types; a later one gives it without its first n mod 4 types, so it repeats the list if and only if its length is a multiple of four |
| Shorty.EnumerateTwice | libpandafile/proto_data_accessor-inl.h:36-68 | of three types, a second run sees none |
| Shorty.ProtoDataAccessor.GetNumArgs | libpandafile/proto_data_accessor-inl.h:70-77 | the number of arguments after one run, and what it becomes after more |
| Shorty.ProtoDataAccessor.GetReferenceType | libpandafile/proto_data_accessor-inl.h:79-88 | reference indexes are found right behind the types, after any number of runs |
| Shorty.ProtoDataAccessor.GetType | libpandafile/proto_data_accessor-inl.h:90-100 | random access gives the same types |
| Shorty.ShortyIterator.Next | libpandafile/shorty_iterator.h:56-73 | one step goes to the next type, or becomes equal to an empty iterator |
| Shorty.ShortyIterator.Collect | libpandafile/shorty_iterator.h:28-73 | iterating gives the same list |
| Operands.PutSets | libpandafile/bytecode_emitter.cpp:147-180 | a field reads back the argument cut to its width |
| Operands.PutKeeps | libpandafile/bytecode_emitter.cpp:147-180 | writing one field never disturbs another |
| Operands.EmitField | libpandafile/bytecode_emitter.cpp:147-180 | one field is written into the buffer in place |
| Operands.Emit | libpandafile/bytecode_emitter.cpp:133-184 | after all fields of a tiling are written into a cleared buffer, each holds its own argument |
| Operands.ExtendIs | libpandafile/bytecode_instruction-inl.h:37-49 | the two shifts cut a value to its width and extend it with or without its sign |
| Operands.ReadField | libpandafile/bytecode_instruction-inl.h:26-84 | reading gives the bits of the field, zero- or sign-extended |
| Operands.EmitAndRead | isa/isapi.rb:261-276 | written and read back, every operand is its argument, cut to its width and extended |
| StaticFields.Pad | runtime/class_helper.cpp:28-34 | takes fields of one width for a gap as long as they fit and there are any, each naturally aligned |
| StaticFields.FillGaps | runtime/class_helper.cpp:49-76 | at most one gap is filled, and what is left can follow aligned |
| StaticFields.ComputeClassSize | runtime/class_helper.cpp:36-83 | there is a placement of all static fields, aligned and apart, that wastes fewer than eight bytes behind the references |
| StaticFields.PlacedApart | runtime/class_helper.cpp:36-83 | in such a placement any two fields are apart and all are inside |
| Disassembly.InstructionNumber | disassembler/disassembler.cpp:1401-1415 | counting ends for every address, and finds the instruction there exactly if there is one |
| Disassembly.LocateTryBlock | disassembler/disassembler.cpp:508-559 | succeeds exactly if the range is between instructions and not behind the end; its labels lead to its ends |
| Disassembly.LocateCatchBlock | disassembler/disassembler.cpp:561-616 | the same for a handler, whose end must be inside |
| Disassembly.GetExceptions | disassembler/disassembler.cpp:458-506 | the labels are distinct; the catch blocks describe, in order, exactly the handlers up to the first bad one of each try block up to the first bad one; and a label is needed for the end of the code exactly if some try range that is looked at ends there |
| Disassembly.GetInstructions | disassembler/disassembler.cpp:1427-1510 | every label finds an instruction if and only if no try range that is looked at ends with the code; each jump into the code names the label of the instruction it leads to |
| Disassembly.WholeCodeProtected | disassembler/disassembler.cpp:520-520 | a one-instruction code in which a label has no instruction |
| Disassembly.JumpIsFaithful | disassembler/disassembler.cpp:1453-1470 | the label of a jump is carried by exactly the instruction at its address plus offset |
| Disassembly.TextDiffers | disassembler/disassembler.cpp:529-609 | different labels are different as text |
| Annotations.AnnotationMetadata.ResetElement | assembler/meta.h:448-456 | handing the element over leaves all that has been said as it was |
| Annotations.AnnotationMetadata.ResetAnnotation | assembler/meta.h:417-432 | the annotation is handed over by its id or in order, with its last element |
| Annotations.AnnotationMetadata.MeetRecord | assembler/meta.cpp:252-264 | closes the annotation under way and opens another, unless an element is incomplete |
| Annotations.AnnotationMetadata.MeetId | assembler/meta.cpp:266-284 | sets the id once, before any element |
| Annotations.AnnotationMetadata.MeetElementName | assembler/meta.cpp:286-304 | opens another element of the open annotation, unless one is incomplete |
| Annotations.AnnotationMetadata.MeetElementType | assembler/meta.cpp:306-324 | sets the type once |
| Annotations.AnnotationMetadata.MeetComponentType | assembler/meta.cpp:326-349 | sets the component type of an array once |
| Annotations.AnnotationMetadata.MeetElementValue | assembler/meta.cpp:351-379 | adds one value, the only one unless the element is an array |
| Annotations.AnnotationMetadata.Close | assembler/meta.cpp:425-436 | closes what is open, unless an element is incomplete |
| Annotations.AnnotationMetadata.StoreValue | assembler/meta.cpp:381-423 | an attribute is accepted exactly if it may come next, and adds just what it says |
| Annotations.AnnotationMetadata.Run | assembler/meta.cpp:237-436 | a run is accepted exactly if each attribute may come where it does and no element is left incomplete; then the annotations and the id map are exactly what it says |
| Annotations.NothingLost | assembler/meta.h:425-429 | with distinct ids every annotation is found, in order or by its id |
| Annotations.FoundExactly | assembler/meta.h:425-426 | an annotation is found by its id if and only if it says the same as the first one with that id |
| Annotations.SecondIsLost | assembler/meta.h:425-426 | a run that gives two annotations one id is accepted, says both, and the second one is not found |
| Annotations.KeepFirst | assembler/meta.cpp:237-436 | run through the builders, it leaves the first annotation under the id and nothing of the second |

## Left out

- Build: program counters are unbounded; code of 2^31 bytes or more, where the 32-bit counters wrap, is not modelled.
- Bind: binding the same label again is not modelled; each label is bound at most once.
- Jcmp: registers are bytes, as in its signature, so the test on their width always holds.
- UlebRoundTrip: numbers are unbounded; that the decoders keep only 32 bits of a longer encoding is not modelled.
- SlebRoundTrip: the same for signed numbers.
- Process: RESTART_LOCAL, which only logs a fatal error and which the assembler never emits.
- EmitDebugInfo: the offsets of the strings it names are those they have at that time; KeepsOffset says which changes of the container keep them, and that emission makes no others is not modelled.
- SourceExactly: the same for the strings of the source file and text.
- Add (IndexItem): the limit of 2^32 - 1 line number programs is not modelled.
- RebuildIndexSection: regions are values in the section's list; the fatal error for an item too large for any region is a failed result.
- DeduplicateCodeAndDebugInfo: items that have a duplicate must not be shared beforehand, as after assembly; foreign classes are skipped by not being in the list of methods.
- ComputeLayout: in FileContainer the lists hold the items that are emitted; Containers adds those that are not.
- Emit (Assembler): what is created besides classes, strings, code and debug infos is given as steps; the checks on records, types and accesses that can end emission earlier are not modelled.
- ArraySizeExactly: elements of one and two bytes are integers, as reading them as such demands.
- Write: it starts with the last layout; the layouts and the deduplication before it only leave the offsets that it starts from. DeduplicationSpoils puts all steps together.
- ReadWideField: a value of a wide type must be linked to a 64-bit scalar item, as setting one does.
- EnumerateCatchTypes: the classes caught must be dependencies of the method, as the assertions in sizing and writing demand.
- EnumerateInterfaces: the accessor class returns indexes; EnumerateInterfaceIds resolves them.
- ValueRead: for wide types it reads at the offset in the field; that this is the value written is ReadWideField.
- GetInterfaceId: the accessor classes return indexes; their resolution is FileResolves and EnumerateInterfaceIds.
- GetReferenceType: the same; its resolution is ProtoResolves.
- GetValueInternal: for wide types the accessor reads at the offset in the field; that this is the value written is ReadWideField.
- MeetComponentType: a component type before the type, for which the code throws, and a component type that is itself an array, which it only asserts against, are both refused.
- GetInstructions: where a label has no instruction the code writes out of bounds; the model reports it and stops.
- Type annotations of classes, methods and fields: their readers do not know these tags.
- Deduplication of annotations and of their values: the same pass over more kinds of items, without counts.
- Opening files, mapping, zip archives and the command line tools: input and output.
- Checksums: they depend on a library; the field is written as zero.
- MUTF-8, floating-point text and number parsing: strings are byte sequences, and whether a text parses is a parameter.
- Instructions other than branches: opaque bytes of known length with an arbitrary effect.
- Base-class checks of metadata attributes: only the annotation state is modelled.
