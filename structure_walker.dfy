/**
 * `DeviceTree::print_structure` (possum_os/src/device_tree.rs:140-219): a
 * linear walk of the structure block, interpreting the tokens of section 5.4.1
 * of the Devicetree Specification.
 *
 * What the source prints is recorded as a sequence of events; the text of
 * each line is not modelled. `console_indent` is the `depth` an event carries.
 */
module StructureWalker {
  import opened Wrappers
  import opened MachineTypes
  import opened WordDecoder
  import opened BoundedScan
  import opened Alignment
  import opened DeviceTree

  const FDT_BEGIN_NODE: u32 := 0x0000_0001
  const FDT_END_NODE: u32 := 0x0000_0002
  const FDT_PROP: u32 := 0x0000_0003
  const FDT_NOP: u32 := 0x0000_0004
  const FDT_END: u32 := 0x0000_0009

  /** Size of a token in bytes. */
  const FDT_TAG_SIZE: nat := 4
  /** Where the length, the name offset and the data of a property start, from its token. */
  const SIZE_OFFSET: nat := 4
  const NAME_OFFSET_OFFSET: nat := 8
  const DATA_OFFSET: nat := 12
  /** Every node name, even the empty one, is followed by one NUL byte. */
  const NULL_BYTE_SIZE: nat := 1

  /** One line the walk prints. */
  datatype Event =
    | NodeStart(name: seq<byte>, depth: nat)             // a node's name, indented by its depth
    | Prop(name: seq<byte>, depth: nat, value: seq<byte>) // `name: ` then each byte as two hex digits and a space
    | Empty(name: seq<byte>, depth: nat)                  // `name: <empty>`
    | InvalidName(depth: nat)                             // `<invalid node name>`, indented
    | InvalidEnd                                          // `Invalid end node`
    | UnknownTag(tag: u32)                                // `Unknown tag 0x…`
    | NoEndTag                                            // `No end tag found`

  /** How the walk ended. */
  datatype Outcome =
    | Ended     // an FDT_END token was reached
    | NoEnd     // the loop was left without one; `No end tag found` was printed last
    | Panicked  // `get_string_from_offset` unwrapped a name with no NUL within MAX_STR_LEN bytes
    | Faulted   // a read would have left memory; the source has no check, so this is undefined behaviour there

  datatype Trace = Trace(events: seq<Event>, outcome: Outcome)

  /** The loop's variables: `ptr`, `indent`, `valid` and `found_end`. */
  datatype Cursor = Cursor(ptr: nat, indent: nat, valid: bool, foundEnd: bool)

  /** What one iteration of the loop does. */
  datatype StepResult =
    | Continue(next: Cursor, emitted: seq<Event>)  // go back to the loop test
    | Break(emitted: seq<Event>)                   // leave the loop (unknown tag)
    | Panic
    | Fault

  function StructureStart(dt: DeviceTree): nat
  {
    dt.base + dt.structureOffset
  }

  function StructureEnd(dt: DeviceTree): nat
  {
    dt.base + dt.structureOffset + dt.structureSize
  }

  function Initial(dt: DeviceTree): Cursor
  {
    Cursor(StructureStart(dt), 0, true, false)
  }

  /** The loop test `ptr < end && valid && !found_end`. */
  predicate Running(dt: DeviceTree, c: Cursor)
  {
    c.ptr < StructureEnd(dt) && c.valid && !c.foundEnd
  }

  /** The token word at the cursor. */
  function TagAt(mem: seq<byte>, c: Cursor): u32
    requires c.ptr + FDT_TAG_SIZE <= |mem|
  {
    BigEndianWord(mem, c.ptr)
  }

  /**
   * What every iteration that goes back to the loop test does: either it
   * moves the cursor forward by a positive multiple of four and keeps the walk
   * going, or it leaves the cursor where it was and stops the walk.
   */
  predicate Progresses(c: Cursor, next: Cursor)
  {
    || (next.ptr >= c.ptr + FDT_TAG_SIZE && (next.ptr - c.ptr) % 4 == 0 && next.valid && !next.foundEnd)
    || (next.ptr == c.ptr && (!next.valid || next.foundEnd))
  }

  /** The events that report a malformed structure block. */
  predicate IsDiagnostic(e: Event)
  {
    e.InvalidName? || e.InvalidEnd? || e.UnknownTag?
  }

  /**
   * What one iteration may print: at most one line and never
   * `No end tag found`; a diagnostic only when the iteration also stops the
   * walk without an end tag; an unknown tag only by leaving the loop.
   */
  predicate PrintsAtMostOneLine(r: StepResult)
  {
    match r
    case Continue(next, emitted) =>
      && |emitted| <= 1
      && (|emitted| == 1 ==> !emitted[0].NoEndTag? && !emitted[0].UnknownTag?)
      && (|emitted| == 1 && IsDiagnostic(emitted[0]) ==> !next.valid && !next.foundEnd)
    case Break(emitted) => |emitted| == 1 && emitted[0].UnknownTag?
    case Panic => true
    case Fault => true
  }

  /** FDT_BEGIN_NODE: the node name follows the token, padded to a multiple of four. */
  function BeginNodeStep(mem: seq<byte>, c: Cursor): (r: StepResult)
    requires c.valid && !c.foundEnd
    ensures r.Continue? ==> Progresses(c, r.next)
    ensures PrintsAtMostOneLine(r)
  {
    var nameStart := c.ptr + FDT_TAG_SIZE;
    if !ScanInBounds(mem, nameStart, MAX_STR_LEN) then Fault
    else NodeNameStep(mem, c, TerminatorWithin(mem, nameStart, MAX_STR_LEN))
  }

  /**
   * The rest of FDT_BEGIN_NODE once `strnlen` has run: print the name and
   * enter the node, or report an invalid name and stop.
   */
  function NodeNameStep(mem: seq<byte>, c: Cursor, nameLen: Option<nat>): (r: StepResult)
    requires c.valid && !c.foundEnd
    requires nameLen.Some? ==> c.ptr + FDT_TAG_SIZE + nameLen.value <= |mem|
    ensures r.Continue? && Progresses(c, r.next)
    ensures PrintsAtMostOneLine(r)
  {
    var nameStart := c.ptr + FDT_TAG_SIZE;
    match nameLen
    case Some(len) =>
      Continue(c.(ptr := nameStart + NextFourByteAlign(len + NULL_BYTE_SIZE), indent := c.indent + 1),
               [NodeStart(mem[nameStart..nameStart + len], c.indent)])
    case None =>
      Continue(c.(valid := false), [InvalidName(c.indent)])
  }

  /** FDT_END_NODE: leave the current node, which must exist. */
  function EndNodeStep(c: Cursor): (r: StepResult)
    requires c.valid && !c.foundEnd
    ensures r.Continue? && Progresses(c, r.next)
    ensures PrintsAtMostOneLine(r)
  {
    if c.indent > 0 then Continue(c.(indent := c.indent - 1, ptr := c.ptr + FDT_TAG_SIZE), [])
    else Continue(c.(valid := false), [InvalidEnd])
  }

  /**
   * FDT_PROP: a name-offset word after the length word, the name looked up in
   * the strings block, then the value after both words.
   */
  function PropStep(mem: seq<byte>, dt: DeviceTree, c: Cursor): (r: StepResult)
    requires c.valid && !c.foundEnd
    ensures r.Continue? ==> Progresses(c, r.next)
    ensures r.Continue? ==> r.next.valid && r.next.ptr >= c.ptr + DATA_OFFSET
    ensures PrintsAtMostOneLine(r)
  {
    if c.ptr + DATA_OFFSET > |mem| then Fault
    else
      var nameAddr := StringAddress(dt, BigEndianWord(mem, c.ptr + NAME_OFFSET_OFFSET));
      if !ScanInBounds(mem, nameAddr, MAX_STR_LEN) then Fault
      else
        match BoundedString(mem, nameAddr)
        case None => Panic
        case Some(name) => PropValueStep(mem, c, name, BigEndianWord(mem, c.ptr + SIZE_OFFSET))
  }

  /** The rest of FDT_PROP once the name is known: the value, then the padding. */
  function PropValueStep(mem: seq<byte>, c: Cursor, name: seq<byte>, size: u32): (r: StepResult)
    requires c.valid && !c.foundEnd
    ensures r.Continue? ==> Progresses(c, r.next)
    ensures r.Continue? ==> r.next.valid && r.next.ptr >= c.ptr + DATA_OFFSET + size
    ensures PrintsAtMostOneLine(r)
  {
    var data := c.ptr + DATA_OFFSET;
    if data + size > |mem| then Fault
    else
      Continue(c.(ptr := data + NextFourByteAlign(size)),
               if size > 0 then [Prop(name, c.indent, mem[data..data + size])] else [Empty(name, c.indent)])
  }

  /** One iteration of the loop body, on a state the loop test let through. */
  function Step(mem: seq<byte>, dt: DeviceTree, c: Cursor): (r: StepResult)
    requires Running(dt, c)
    ensures r.Continue? ==> Progresses(c, r.next)
    ensures PrintsAtMostOneLine(r)
  {
    if c.ptr + FDT_TAG_SIZE > |mem| then Fault
    else
      var tag := TagAt(mem, c);
      if tag == FDT_BEGIN_NODE then BeginNodeStep(mem, c)
      else if tag == FDT_END_NODE then EndNodeStep(c)
      else if tag == FDT_PROP then PropStep(mem, dt, c)
      else if tag == FDT_NOP then Continue(c.(ptr := c.ptr + FDT_TAG_SIZE), [])
      else if tag == FDT_END then Continue(c.(foundEnd := true), [])
      else Break([UnknownTag(tag)])
  }

  /**
   * The whole loop from cursor `c`, followed by the final `No end tag found`
   * check. It terminates because every iteration either moves the cursor
   * towards the end of the structure block or stops the walk.
   */
  function Walk(mem: seq<byte>, dt: DeviceTree, c: Cursor): (t: Trace)
    ensures t.outcome == NoEnd ==> |t.events| > 0 && t.events[|t.events| - 1] == NoEndTag
    decreases if c.ptr < StructureEnd(dt) then StructureEnd(dt) - c.ptr else 0, if c.valid && !c.foundEnd then 1 else 0
  {
    if !Running(dt, c) then
      if c.foundEnd then Trace([], Ended) else Trace([NoEndTag], NoEnd)
    else
      match Step(mem, dt, c)
      case Continue(next, emitted) =>
        var rest := Walk(mem, dt, next);
        Trace(emitted + rest.events, rest.outcome)
      case Break(emitted) => Trace(emitted + [NoEndTag], NoEnd)
      case Panic => Trace([], Panicked)
      case Fault => Trace([], Faulted)
  }

  /**
   * The FDT_BEGIN_NODE arm of the loop body: `strnlen` on the name, then print
   * it. It follows `BeginNodeStep` branch for branch; what it adds is the scan
   * loop of `Strnlen` in place of `TerminatorWithin`.
   */
  method ReadBeginNode(mem: seq<byte>, c: Cursor) returns (r: StepResult)
    requires c.valid && !c.foundEnd
    ensures r == BeginNodeStep(mem, c)
  {
    var nameStart := c.ptr + FDT_TAG_SIZE;
    if !ScanInBounds(mem, nameStart, MAX_STR_LEN) {
      return Fault;
    }
    var nameLen := Strnlen(mem, nameStart, MAX_STR_LEN);
    r := NodeNameStep(mem, c, nameLen);
  }

  /**
   * The FDT_PROP arm of the loop body: read the name offset, look the name
   * up, read the length, then print the value. It follows `PropStep` branch
   * for branch; what it adds is the decoding loop of `ReadWord` in place of
   * `BigEndianWord` and the scan loop behind `GetStringFromOffset`.
   */
  method ReadProp(mem: seq<byte>, dt: DeviceTree, c: Cursor) returns (r: StepResult)
    requires c.valid && !c.foundEnd
    ensures r == PropStep(mem, dt, c)
  {
    if c.ptr + DATA_OFFSET > |mem| {
      return Fault;
    }
    var nameOffset := ReadWord(mem, c.ptr + NAME_OFFSET_OFFSET);
    if !ScanInBounds(mem, StringAddress(dt, nameOffset), MAX_STR_LEN) {
      return Fault;
    }
    var name := GetStringFromOffset(mem, dt, nameOffset);
    if name.None? {
      return Panic;
    }
    var size := ReadWord(mem, c.ptr + SIZE_OFFSET);
    r := ReadPropValue(mem, c, name.value, size);
  }

  /** Print `name: ` and the value one byte at a time, or `<empty>`; then skip the padding. */
  method ReadPropValue(mem: seq<byte>, c: Cursor, name: seq<byte>, size: u32) returns (r: StepResult)
    requires c.valid && !c.foundEnd
    ensures r == PropValueStep(mem, c, name, size)
  {
    var data := c.ptr + DATA_OFFSET;
    if data + size > |mem| {
      return Fault;
    }
    var emitted: seq<Event>;
    if size > 0 {
      var value: seq<byte> := [];
      var i := 0;
      while i < size
        invariant i <= size && value == mem[data..data + i]
      {
        value := value + [mem[data + i]];
        i := i + 1;
      }
      emitted := [Prop(name, c.indent, value)];
    } else {
      emitted := [Empty(name, c.indent)];
    }
    r := Continue(c.(ptr := data + NextFourByteAlign(size)), emitted);
  }

  /**
   * The loop's invariant: the whole walk prints `done` and then whatever the
   * walk from `c` prints, and ends as that one ends.
   */
  predicate Resumes(mem: seq<byte>, dt: DeviceTree, done: seq<Event>, c: Cursor)
  {
    Walk(mem, dt, Initial(dt)) == Trace(done + Walk(mem, dt, c).events, Walk(mem, dt, c).outcome)
  }

  /** Before the first iteration nothing is printed yet. */
  lemma ResumesAtStart(mem: seq<byte>, dt: DeviceTree)
    ensures Resumes(mem, dt, [], Initial(dt))
  {
    assert [] + Walk(mem, dt, Initial(dt)).events == Walk(mem, dt, Initial(dt)).events;
  }

  /** An iteration that goes back to the loop test prints its line, then the rest of the walk follows. */
  lemma WalkUnfolds(mem: seq<byte>, dt: DeviceTree, c: Cursor, next: Cursor, emitted: seq<Event>)
    requires Running(dt, c) && Step(mem, dt, c) == Continue(next, emitted)
    ensures Walk(mem, dt, c) == Trace(emitted + Walk(mem, dt, next).events, Walk(mem, dt, next).outcome)
  {
  }

  /** An iteration that goes back to the loop test keeps the invariant. */
  lemma WalkContinues(mem: seq<byte>, dt: DeviceTree, c: Cursor, done: seq<Event>, next: Cursor, emitted: seq<Event>)
    requires Walk(mem, dt, c) == Trace(emitted + Walk(mem, dt, next).events, Walk(mem, dt, next).outcome)
    requires Resumes(mem, dt, done, c)
    ensures Resumes(mem, dt, done + emitted, next)
  {
    assert done + (emitted + Walk(mem, dt, next).events) == (done + emitted) + Walk(mem, dt, next).events;
  }

  /** An iteration that leaves the loop is followed by `No end tag found`. */
  lemma WalkBreaks(mem: seq<byte>, dt: DeviceTree, c: Cursor, done: seq<Event>, emitted: seq<Event>)
    requires Running(dt, c) && Step(mem, dt, c) == Break(emitted)
    requires Resumes(mem, dt, done, c)
    ensures Walk(mem, dt, Initial(dt)) == Trace((done + emitted) + [NoEndTag], NoEnd)
  {
    assert done + (emitted + [NoEndTag]) == (done + emitted) + [NoEndTag];
  }

  /** A panic or a fault ends the walk with nothing more printed. */
  lemma WalkAborts(mem: seq<byte>, dt: DeviceTree, c: Cursor, done: seq<Event>)
    requires Running(dt, c) && (Step(mem, dt, c).Panic? || Step(mem, dt, c).Fault?)
    requires Resumes(mem, dt, done, c)
    ensures Walk(mem, dt, Initial(dt)) == Trace(done, if Step(mem, dt, c).Panic? then Panicked else Faulted)
  {
    assert done + [] == done;
  }

  /**
   * When the loop test fails, the walk has found FDT_END, or it ends with
   * `No end tag found`.
   */
  lemma WalkStops(mem: seq<byte>, dt: DeviceTree, c: Cursor, done: seq<Event>)
    requires !Running(dt, c) && Resumes(mem, dt, done, c)
    ensures c.foundEnd ==> Walk(mem, dt, Initial(dt)) == Trace(done, Ended)
    ensures !c.foundEnd ==> Walk(mem, dt, Initial(dt)) == Trace(done + [NoEndTag], NoEnd)
  {
    assert done + [] == done;
  }

  /** The cursor is a whole number of 4-byte tokens into the structure block. */
  predicate TokenAligned(dt: DeviceTree, c: Cursor)
  {
    c.ptr >= StructureStart(dt) && (c.ptr - StructureStart(dt)) % 4 == 0
  }

  /** A step that continues the walk leaves the cursor on a token boundary. */
  lemma ProgressKeepsAligned(dt: DeviceTree, c: Cursor, next: Cursor)
    requires Progresses(c, next) && TokenAligned(dt, c)
    ensures TokenAligned(dt, next)
  {
    AlignedAfter(StructureStart(dt), c.ptr, next.ptr);
  }

  /** A whole number of tokens past `start`, then a whole number more, is still aligned. */
  lemma AlignedAfter(start: nat, ptr: nat, next: nat)
    requires start <= ptr <= next && (ptr - start) % 4 == 0 && (next - ptr) % 4 == 0
    ensures (next - start) % 4 == 0
  {
  }

  /**
   * The body of the loop: read the token at the cursor and act on it. It
   * follows `Step` branch for branch; what it adds is the decoding loop of
   * `ReadWord` for the tag, and the loops of `ReadBeginNode` and `ReadProp`.
   */
  method ReadStep(mem: seq<byte>, dt: DeviceTree, cur: Cursor) returns (step: StepResult)
    requires Running(dt, cur)
    ensures step == Step(mem, dt, cur)
  {
    if cur.ptr + FDT_TAG_SIZE > |mem| {
      return Fault;
    }
    var tag := ReadWord(mem, cur.ptr);
    if tag == FDT_BEGIN_NODE {
      step := ReadBeginNode(mem, cur);
    } else if tag == FDT_END_NODE {
      step := EndNodeStep(cur);
    } else if tag == FDT_PROP {
      step := ReadProp(mem, dt, cur);
    } else if tag == FDT_NOP {
      step := Continue(cur.(ptr := cur.ptr + FDT_TAG_SIZE), []);
    } else if tag == FDT_END {
      step := Continue(cur.(foundEnd := true), []);
    } else {
      step := Break([UnknownTag(tag)]);
    }
  }

  /**
   * `print_structure`: the events it prints and how it ends are those of
   * `Walk` from the start of the structure block. The cursor stays a whole
   * number of tokens into the structure block.
   */
  method PrintStructure(mem: seq<byte>, dt: DeviceTree) returns (out: seq<Event>, outcome: Outcome)
    ensures Trace(out, outcome) == Walk(mem, dt, Initial(dt))
  {
    var cur := Cursor(dt.base + dt.structureOffset, 0, true, false);
    var end := dt.base + dt.structureOffset + dt.structureSize;
    out := [];
    ResumesAtStart(mem, dt);
    while cur.ptr < end && cur.valid && !cur.foundEnd
      invariant end == StructureEnd(dt)
      invariant TokenAligned(dt, cur)
      invariant Resumes(mem, dt, out, cur)
      decreases if cur.ptr < end then end - cur.ptr else 0, if cur.valid && !cur.foundEnd then 1 else 0
    {
      var step := ReadStep(mem, dt, cur);
      match step
      case Continue(next, emitted) =>
        WalkUnfolds(mem, dt, cur, next, emitted);
        WalkContinues(mem, dt, cur, out, next, emitted);
        ProgressKeepsAligned(dt, cur, next);
        out := out + emitted;
        cur := next;
      case Break(emitted) =>
        WalkBreaks(mem, dt, cur, out, emitted);
        out := out + emitted;
        break;
      case Panic =>
        WalkAborts(mem, dt, cur, out);
        return out, Panicked;
      case Fault =>
        WalkAborts(mem, dt, cur, out);
        return out, Faulted;
    }
    if cur.ptr >= end || !cur.valid || cur.foundEnd {
      WalkStops(mem, dt, cur, out);
    }
    if !cur.foundEnd {
      out := out + [NoEndTag];
    }
    outcome := if cur.foundEnd then Ended else NoEnd;
  }
}
