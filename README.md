# Flattened Devicetree reader of possum_os, in Dafny

This project models `possum_os/src/device_tree.rs`, the kernel's reader for
a Flattened Devicetree blob (the Devicetree Specification: the header of
section 5.2, the structure-block tokens and their 32-bit alignment of section
5.4.1, the strings block of section 5.5). It covers five parts:

- the big-endian word decoder `read_big_endian`, used on `u32` only
  (`WordDecoder`);
- the capped NUL scan `strnlen` (`BoundedScan`);
- the rounding helper `next_four_byte_align` (`Alignment`);
- the header parser `device_tree_from_ram_ptr`, `DeviceTree::new` and the
  strings-block lookup `get_string_from_offset` (`DeviceTree`);
- the structure walker `DeviceTree::print_structure` (`StructureWalker`,
  with its properties in `WalkerProperties`).

Memory is a `seq<byte>` indexed by address. A pointer is an index into it,
and the null pointer is address 0. `u32` and `byte` are integer ranges. The
shifts, masks and ors of the decoder are written out arithmetically.

The walker's console output is a sequence of `Event`s:

- a node name with its depth;
- a property with its name, its depth and its value bytes, or `<empty>`;
- `<invalid node name>`, `Invalid end node`, `Unknown tag` and
  `No end tag found`.

A walk ends in one of four ways:

- `Ended`: FDT_END was found;
- `NoEnd`: it stopped without FDT_END;
- `Panicked`: the `unwrap` in `get_string_from_offset` failed;
- `Faulted`: a read fell outside memory.

The source does no bounds checking, so `Faulted` stands for reads that fall
outside memory. Other undefined behaviour of the source, such as misaligned
word loads, is not modelled (see "## Left out").

The walker has three layers:

- `Step` is one iteration of the loop. It is built from one function per
  token.
- `Walk` is the whole loop, defined by recursion. It terminates because
  `end - ptr` decreases, and once the cursor stops moving, the loop test fails.
- `PrintStructure` is the loop itself, with the byte-printing inner loop in
  `ReadPropValue`. It is proved to print exactly `Walk`'s events and to end
  as `Walk` ends.

What the walk prints, as the code has it:

- FDT_END_NODE prints nothing, so there is no node-end event.
- `<invalid node name>` is printed after the indentation of the current
  depth, so that event carries the depth.
- A property name without a NUL within 256 bytes is not reported as an
  error. The `unwrap` at possum_os/src/device_tree.rs:136 panics, so the
  walk ends `Panicked`.
- After an unknown tag, invalid nesting or an invalid name, the walk still
  prints `No end tag found`.

## Model

| member | source | states |
|---|---|---|
| `WordDecoder.ReadBigEndian` | possum_os/src/device_tree.rs:73-86 | the four rounds of shift-left, or-in-low-byte and shift-right give the input with its byte order reversed |
| `WordDecoder.AccumulatedIsByteSwap` | possum_os/src/device_tree.rs:79-83 | after four rounds the accumulator holds the lowest input byte in the top position and the highest in the bottom one |
| `WordDecoder.ByteSwapInvolutive` | possum_os/src/device_tree.rs:73-86 | decoding a word twice gives back the word |
| `WordDecoder.DecodeNativeLoad` | possum_os/src/device_tree.rs:73-86 | on a little-endian host, the decoder applied to the native load of bytes b0..b3 yields b0·2^24 + b1·2^16 + b2·2^8 + b3 |
| `WordDecoder.EncodeWordRoundTrip` | possum_os/src/device_tree.rs:73-86 | four bytes holding a word's big-endian encoding decode back to that word |
| `BoundedScan.Strnlen` | possum_os/src/device_tree.rs:88-100 | the scan loop returns the offset of the first NUL among the first `max_len` bytes, or `None` when there is none |
| `BoundedScan.FirstZero` | possum_os/src/device_tree.rs:91-94 | the address found lies in the scanned range and inside memory |
| `BoundedScan.FirstZeroIsFirst` | possum_os/src/device_tree.rs:91-94 | the address found holds a NUL and every byte before it is non-zero; `None` means the whole range exists and is non-zero |
| `BoundedScan.TerminatorWithin` | possum_os/src/device_tree.rs:95-99 | a found length is below the cap, so `max_len == 0` always gives `None` |
| `BoundedScan.TerminatorIsFirstNul` | possum_os/src/device_tree.rs:88-100 | `Some(i)`: byte `i` is NUL and all before it are non-zero; `None`: all `max_len` bytes exist and are non-zero |
| `BoundedScan.TerminatorUnique` | possum_os/src/device_tree.rs:88-100 | any answer with the first-NUL properties is the scan's answer |
| `BoundedScan.TerminatorFoundIff` | possum_os/src/device_tree.rs:95-99 | the scan returns `Some` if and only if a NUL occurs among the first `max_len` bytes |
| `Alignment.NextFourByteAlign` | possum_os/src/device_tree.rs:109-113 | the result is a multiple of four, at least the input and less than the input plus four; aligned inputs are unchanged |
| `Alignment.AlignIdempotent` | possum_os/src/device_tree.rs:109-113 | rounding twice is rounding once |
| `Alignment.AlignIsLeast` | possum_os/src/device_tree.rs:109-113 | the result is the least multiple of four not below the input |
| `DeviceTree.DeviceTreeFromRamPtr` | possum_os/src/device_tree.rs:31-71 | a bad magic word is reported and `DeviceTree::new()` (null base, all fields 0) is returned; otherwise the seven kept fields are the big-endian words at offsets 8, 12, 16, 20, 24, 36 and 32 and the base is the blob's address |
| `DeviceTree.New` | possum_os/src/device_tree.rs:118-130 | the descriptor `DeviceTree::new` builds has a null base and every field 0, so both its blocks are empty |
| `DeviceTree.ReadWord` | possum_os/src/device_tree.rs:151 | `read_big_endian(ptr as *const u32)` is the big-endian value of the four bytes at `ptr` |
| `DeviceTree.HeaderWordsDecode` | possum_os/src/device_tree.rs:41-59 | in a stored header each of the ten words is read back from its offset |
| `DeviceTree.ParseEncodedHeader` | possum_os/src/device_tree.rs:31-71 | parsing a stored header with the right magic gives back exactly the header fields the descriptor keeps |
| `DeviceTree.BoundedString` | possum_os/src/device_tree.rs:132-138 | a name found is shorter than 256 bytes and its terminator lies inside memory |
| `DeviceTree.BoundedStringIsCString` | possum_os/src/device_tree.rs:132-138 | the name is the bytes before the first NUL, contains no NUL and is followed by one; there is no name exactly when none of the 256 bytes is NUL |
| `DeviceTree.GetStringFromOffset` | possum_os/src/device_tree.rs:132-138 | the name at `strings_offset + offset` is the NUL-terminated string there, and its absence is the `unwrap` panic |
| `StructureWalker.BeginNodeStep` | possum_os/src/device_tree.rs:153-168 | when FDT_BEGIN_NODE returns to the loop test, it has moved the cursor forward by a positive multiple of four or stopped the walk in place, printing at most one line |
| `StructureWalker.NodeNameStep` | possum_os/src/device_tree.rs:156-167 | after `strnlen` the iteration always returns to the loop test, moving forward or clearing `valid` |
| `StructureWalker.EndNodeStep` | possum_os/src/device_tree.rs:169-178 | FDT_END_NODE always returns to the loop test, moving forward by a positive multiple of four or clearing `valid` in place; a diagnostic only comes with a stop |
| `StructureWalker.PropStep` | possum_os/src/device_tree.rs:179-203 | when FDT_PROP returns to the loop test, the walk stays valid and the cursor has moved forward by a positive multiple of four, at least twelve bytes; at most one line is printed |
| `StructureWalker.PropValueStep` | possum_os/src/device_tree.rs:186-202 | when the value is in memory, the walk stays valid and the cursor moves forward by a positive multiple of four, past the three words and the value; at most one line is printed |
| `StructureWalker.Step` | possum_os/src/device_tree.rs:150-214 | every iteration that returns to the loop test either moves forward by a positive multiple of four and keeps the walk going, or stays put and stops it; it prints at most one line, and an unknown tag only by leaving the loop |
| `StructureWalker.Walk` | possum_os/src/device_tree.rs:150-218 | the loop from a cursor, then the closing `found_end` check; it terminates on the measure `end - ptr`, and a walk that leaves the loop without FDT_END ends with `No end tag found` |
| `StructureWalker.ReadBeginNode` | possum_os/src/device_tree.rs:153-168 | the FDT_BEGIN_NODE arm, with its call to `strnlen`, does what `BeginNodeStep` describes |
| `StructureWalker.ReadProp` | possum_os/src/device_tree.rs:179-203 | the FDT_PROP arm, with its reads of the name offset and the length and its string lookup, does what `PropStep` describes |
| `StructureWalker.ReadPropValue` | possum_os/src/device_tree.rs:186-202 | the byte-printing loop prints exactly the `size` bytes at `ptr + 12`, or `<empty>`, and the cursor moves to `data + align4(size)` |
| `StructureWalker.ReadStep` | possum_os/src/device_tree.rs:150-214 | one iteration of the loop body does what `Step` describes |
| `StructureWalker.PrintStructure` | possum_os/src/device_tree.rs:140-219 | the walk prints exactly the events of `Walk` from the start of the structure block and ends as it ends |
| `StructureWalker.ResumesAtStart` | possum_os/src/device_tree.rs:144-149 | before the first iteration nothing is printed and the whole walk is still ahead |
| `StructureWalker.WalkUnfolds` | possum_os/src/device_tree.rs:150-215 | an iteration that returns to the loop test prints its line, and the rest of the walk follows from the new cursor |
| `StructureWalker.WalkContinues` | possum_os/src/device_tree.rs:150-215 | an iteration that returns to the loop test keeps "printed so far, then the walk from here" equal to the whole walk |
| `StructureWalker.WalkBreaks` | possum_os/src/device_tree.rs:210-218 | leaving the loop on an unknown tag is followed by `No end tag found` |
| `StructureWalker.WalkAborts` | possum_os/src/device_tree.rs:184-194 | a panic or a fault ends the walk with nothing more printed |
| `StructureWalker.WalkStops` | possum_os/src/device_tree.rs:216-218 | when the loop test fails, the walk ends without output if FDT_END was found, else with `No end tag found` |
| `StructureWalker.ProgressKeepsAligned` | possum_os/src/device_tree.rs:160-205 | a cursor on a token boundary of the structure block stays on one after every iteration |
| `WalkerProperties.WalkDiagnostics` | possum_os/src/device_tree.rs:150-218 | `No end tag found` is the last line exactly when the walk leaves the loop without FDT_END (outcome `NoEnd`), and appears nowhere else; every other diagnostic is the line just before it |
| `WalkerProperties.BeginNodeAccepts` | possum_os/src/device_tree.rs:153-163 | FDT_BEGIN_NODE whose name has a NUL within 256 bytes after the token is accepted: the walk goes on, still valid, one level deeper, after printing the node's name |
| `WalkerProperties.BeginNodeEffect` | possum_os/src/device_tree.rs:153-159 | an accepted FDT_BEGIN_NODE (one that `BeginNodeAccepts` gives for every terminated name) prints, at the current depth, the bytes after the token up to the first NUL |
| `WalkerProperties.BeginNodeAdvance` | possum_os/src/device_tree.rs:160-163 | an accepted FDT_BEGIN_NODE raises the depth by exactly one and moves the cursor by 4 + align4(name length + 1), so by at least eight |
| `WalkerProperties.EndNodeEffect` | possum_os/src/device_tree.rs:169-178 | FDT_END_NODE lowers a positive depth by exactly one and moves by four; at depth 0 it prints `Invalid end node`, clears `valid` and does not move |
| `WalkerProperties.PropAccepts` | possum_os/src/device_tree.rs:184-202 | FDT_PROP whose name has a NUL within 256 bytes in the strings block and whose `size` value bytes lie in memory is accepted: the walk goes on, still valid, after printing one property or `<empty>` line |
| `WalkerProperties.PropEffect` | possum_os/src/device_tree.rs:184-190 | an accepted FDT_PROP (one that `PropAccepts` gives for every terminated name with its value in memory) prints one line at the current depth, named by the NUL-terminated string at `strings_offset` plus the word at `ptr + 8` |
| `WalkerProperties.PropValueAndPadding` | possum_os/src/device_tree.rs:186-202 | for an accepted FDT_PROP, the line is `<empty>` exactly when the word at `ptr + 4` is 0, else it holds that many bytes from `ptr + 12`; the cursor moves to `ptr + 12 + align4(size)`, so by at least twelve |
| `WalkerProperties.PropValueEffect` | possum_os/src/device_tree.rs:191-202 | given the name and a value that lies in memory (the only case in which the step continues), the line and the new cursor are as above, and the depth is unchanged |
| `WalkerProperties.NopEffect` | possum_os/src/device_tree.rs:204-206 | FDT_NOP only moves the cursor past the token |
| `WalkerProperties.EndTagStops` | possum_os/src/device_tree.rs:207-209 | FDT_END ends the walk at once with no diagnostic |
| `WalkerProperties.InvalidEndStops` | possum_os/src/device_tree.rs:174-177 | FDT_END_NODE at depth 0 gives `Invalid end node` then `No end tag found` |
| `WalkerProperties.InvalidNameStops` | possum_os/src/device_tree.rs:164-167 | a node name with no NUL within 256 bytes gives `<invalid node name>` then `No end tag found` |
| `WalkerProperties.UnknownTagStops` | possum_os/src/device_tree.rs:210-213 | any tag other than 1, 2, 3, 4 and 9 gives `Unknown tag` with its value, then `No end tag found` |
| `WalkerProperties.UnterminatedPropNamePanics` | possum_os/src/device_tree.rs:185 | a property name with no NUL within 256 bytes makes the lookup panic before anything of the property is printed |
| `WalkerProperties.ExhaustedWithoutEnd` | possum_os/src/device_tree.rs:150 | a structure block used up before FDT_END gives only `No end tag found` |
| `WalkerProperties.WalkOfNew` | possum_os/src/device_tree.rs:118-130 | the descriptor `DeviceTree::new()` builds, which the parser returns on a bad magic, walks to `No end tag found` alone |

## Left out

- The console: `kprintf!` formatting, the two-digit lowercase hexadecimal
  rendering of property bytes and the spaces of `console_indent`. Each line
  becomes an event that carries its depth and its raw bytes.
- Text printed inside an iteration that then panics or faults is not recorded.
  For example, `name: ` is printed before the value bytes are read.
- `core::str::from_utf8_unchecked`: names are kept as bytes, and their UTF-8
  validity is not modelled.
- `read_big_endian` is generic, but only its `u32` instantiation is modelled,
  on a little-endian host, which is what `LoadNative` encodes.
- Pointer arithmetic is modelled on unbounded addresses. `usize` wrap-around
  of `base + offset` is not modelled.
- `QEMU_DEVICE_TREE_OFSET` is the blob's placement by the platform, and is
  not modelled.
- The memory-reservation block and `totalsize` are not modelled. The parser
  reads `totalsize` and `boot_cpuid_phys` and drops them, and never validates
  the blob against `totalsize`.
- The `try_into().unwrap()` at possum_os/src/device_tree.rs:202 widens a
  `u32` to a 64-bit `usize` and cannot fail, so it is not modelled.
- `DeviceTree.DeviceTreeFromRamPtr`: requires that the magic word is in
  memory, and the whole 40-byte header when the magic matches. The source reads
  those bytes unchecked.
- `DeviceTree.ReadWord`: a `*const u32` load at an address that is not a
  multiple of four is undefined behaviour in the source. Neither `ram_ptr` nor
  `base + structure_offset` is checked for alignment. The model reads such a
  word as an ordinary big-endian word. The alignment it proves for the walk's
  cursor is relative to the start of the structure block, not to address 0.
- `StructureWalker.PrintStructure`: termination is proved through the
  measure `end - ptr`. No separate lemma bounds the number of iterations.
