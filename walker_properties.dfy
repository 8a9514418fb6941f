/**
 * Properties of the structure walk (possum_os/src/device_tree.rs:140-219):
 * what each token does to the cursor and the depth, where diagnostics can
 * appear and why the walk stops.
 */
module WalkerProperties {
  import opened Wrappers
  import opened MachineTypes
  import opened WordDecoder
  import opened BoundedScan
  import opened Alignment
  import opened DeviceTree
  import opened StructureWalker

  /**
   * Where a trace's diagnostics sit: `No end tag found` is the last line
   * exactly when the walk ended without FDT_END, and appears nowhere else;
   * any other diagnostic is the line just before it.
   */
  predicate DiagnosticsPlaced(t: Trace)
  {
    && (t.outcome == NoEnd <==> |t.events| > 0 && t.events[|t.events| - 1] == NoEndTag)
    && (forall i :: 0 <= i < |t.events| - 1 ==> !t.events[i].NoEndTag?)
    && (forall i :: 0 <= i < |t.events| && IsDiagnostic(t.events[i]) ==> t.outcome == NoEnd && i == |t.events| - 2)
  }

  /** Printing an ordinary line before a well-formed trace keeps it well-formed. */
  lemma PrependPlaced(emitted: seq<Event>, t: Trace)
    requires |emitted| <= 1 && forall e <- emitted :: !e.NoEndTag? && !IsDiagnostic(e)
    requires DiagnosticsPlaced(t)
    ensures DiagnosticsPlaced(Trace(emitted + t.events, t.outcome))
  {
    if |emitted| == 1 {
      var events := emitted + t.events;
      assert events[0] == emitted[0];
      assert forall i :: 1 <= i < |events| ==> events[i] == t.events[i - 1];
    } else {
      assert emitted + t.events == t.events;
    }
  }

  /** The walk's diagnostics are where `DiagnosticsPlaced` says, from any cursor. */
  lemma {:induction false} WalkDiagnostics(mem: seq<byte>, dt: DeviceTree, c: Cursor)
    ensures DiagnosticsPlaced(Walk(mem, dt, c))
    decreases if c.ptr < StructureEnd(dt) then StructureEnd(dt) - c.ptr else 0, if c.valid && !c.foundEnd then 1 else 0
  {
    if Running(dt, c) {
      match Step(mem, dt, c)
      case Continue(next, emitted) =>
        WalkDiagnostics(mem, dt, next);
        if |emitted| == 1 && IsDiagnostic(emitted[0]) {
          assert emitted[0] in emitted;
          assert Walk(mem, dt, c) == Trace([emitted[0], NoEndTag], NoEnd);
        } else {
          assert forall e <- emitted :: !IsDiagnostic(e);
          PrependPlaced(emitted, Walk(mem, dt, next));
        }
      case Break(emitted) =>
        assert Walk(mem, dt, c) == Trace([emitted[0], NoEndTag], NoEnd);
      case Panic =>
      case Fault =>
    }
  }

  /**
   * FDT_BEGIN_NODE with a terminated name prints one line at the current
   * depth: the bytes after the token up to the first NUL.
   */
  lemma BeginNodeEffect(mem: seq<byte>, dt: DeviceTree, c: Cursor)
    requires Running(dt, c) && c.ptr + FDT_TAG_SIZE <= |mem| && TagAt(mem, c) == FDT_BEGIN_NODE
    requires Step(mem, dt, c).Continue? && Step(mem, dt, c).next.valid
    ensures var step := Step(mem, dt, c); var nameStart := c.ptr + FDT_TAG_SIZE;
      && |step.emitted| == 1 && step.emitted[0].NodeStart?
      && var name := step.emitted[0].name;
      && step.emitted[0].depth == c.indent
      && nameStart + |name| < |mem| && name == mem[nameStart..nameStart + |name|]
      && mem[nameStart + |name|] == 0 && 0 !in name && |name| < MAX_STR_LEN
  {
    var len := BeginNodeByName(mem, dt, c);
    TerminatorIsFirstNul(mem, c.ptr + FDT_TAG_SIZE, MAX_STR_LEN);
  }

  /**
   * Such a node is entered: the depth grows by one and the cursor moves past
   * the name, its NUL and the padding, so by at least eight bytes.
   */
  lemma BeginNodeAdvance(mem: seq<byte>, dt: DeviceTree, c: Cursor)
    requires Running(dt, c) && c.ptr + FDT_TAG_SIZE <= |mem| && TagAt(mem, c) == FDT_BEGIN_NODE
    requires Step(mem, dt, c).Continue? && Step(mem, dt, c).next.valid
    ensures var step := Step(mem, dt, c); var nameStart := c.ptr + FDT_TAG_SIZE;
      && |step.emitted| == 1 && step.emitted[0].NodeStart?
      && var len := |step.emitted[0].name|;
      && step.next.indent == c.indent + 1
      && step.next.ptr == nameStart + NextFourByteAlign(len + 1)
      && step.next.ptr > nameStart + len
      && step.next.ptr >= c.ptr + 8
  {
    var len := BeginNodeByName(mem, dt, c);
  }

  /** An FDT_BEGIN_NODE step that keeps the walk valid found the terminator of the name. */
  lemma BeginNodeByName(mem: seq<byte>, dt: DeviceTree, c: Cursor) returns (len: nat)
    requires Running(dt, c) && c.ptr + FDT_TAG_SIZE <= |mem| && TagAt(mem, c) == FDT_BEGIN_NODE
    requires Step(mem, dt, c).Continue? && Step(mem, dt, c).next.valid
    ensures ScanInBounds(mem, c.ptr + FDT_TAG_SIZE, MAX_STR_LEN)
    ensures TerminatorWithin(mem, c.ptr + FDT_TAG_SIZE, MAX_STR_LEN) == Some(len)
    ensures Step(mem, dt, c) == NodeNameStep(mem, c, Some(len))
  {
    assert Step(mem, dt, c) == BeginNodeStep(mem, c);
    len := TerminatorWithin(mem, c.ptr + FDT_TAG_SIZE, MAX_STR_LEN).value;
  }

  /**
   * A node name with a NUL within MAX_STR_LEN bytes after the token is
   * accepted: the node is entered one level deeper and its name printed.
   */
  lemma BeginNodeAccepts(mem: seq<byte>, dt: DeviceTree, c: Cursor)
    requires Running(dt, c) && c.ptr + FDT_TAG_SIZE <= |mem| && TagAt(mem, c) == FDT_BEGIN_NODE
    requires exists k :: c.ptr + FDT_TAG_SIZE <= k < c.ptr + FDT_TAG_SIZE + MAX_STR_LEN && k < |mem| && mem[k] == 0
    ensures Step(mem, dt, c).Continue? && Step(mem, dt, c).next.valid
    ensures Step(mem, dt, c).next.indent == c.indent + 1
    ensures |Step(mem, dt, c).emitted| == 1 && Step(mem, dt, c).emitted[0].NodeStart?
  {
    var nameStart := c.ptr + FDT_TAG_SIZE;
    var k :| nameStart <= k < nameStart + MAX_STR_LEN && k < |mem| && mem[k] == 0;
    assert NulFrom(mem, nameStart);
    TerminatorFoundIff(mem, nameStart, MAX_STR_LEN);
    assert Step(mem, dt, c) == BeginNodeStep(mem, c);
  }

  /**
   * FDT_END_NODE: inside a node it closes it, printing nothing and moving past
   * the token; at depth zero it prints `Invalid end node` and stops the walk
   * without moving.
   */
  lemma EndNodeEffect(mem: seq<byte>, dt: DeviceTree, c: Cursor)
    requires Running(dt, c) && c.ptr + FDT_TAG_SIZE <= |mem| && TagAt(mem, c) == FDT_END_NODE
    ensures Step(mem, dt, c).Continue?
    ensures c.indent > 0 ==> Step(mem, dt, c) == Continue(Cursor(c.ptr + 4, c.indent - 1, true, false), [])
    ensures c.indent == 0 ==> Step(mem, dt, c) == Continue(Cursor(c.ptr, 0, false, false), [InvalidEnd])
  {
  }

  /**
   * FDT_PROP whose name is terminated prints one line at the current depth,
   * headed by the NUL-terminated string at `strings_offset + nameoff`.
   */
  lemma PropEffect(mem: seq<byte>, dt: DeviceTree, c: Cursor)
    requires Running(dt, c) && c.ptr + DATA_OFFSET <= |mem| && TagAt(mem, c) == FDT_PROP
    requires Step(mem, dt, c).Continue?
    ensures var step := Step(mem, dt, c);
      var nameAddr := StringAddress(dt, BigEndianWord(mem, c.ptr + NAME_OFFSET_OFFSET));
      && |step.emitted| == 1 && (step.emitted[0].Prop? || step.emitted[0].Empty?)
      && var e := step.emitted[0];
      && e.depth == c.indent
      && nameAddr + |e.name| < |mem| && e.name == mem[nameAddr..nameAddr + |e.name|]
      && mem[nameAddr + |e.name|] == 0 && 0 !in e.name
  {
    var nameAddr := StringAddress(dt, BigEndianWord(mem, c.ptr + NAME_OFFSET_OFFSET));
    var name := PropStepByName(mem, dt, c);
    BoundedStringIsCString(mem, nameAddr);
    PropValueEffect(mem, c, name, BigEndianWord(mem, c.ptr + SIZE_OFFSET));
  }

  /**
   * The value of such a property is the `len` bytes after its three words,
   * printed as `<empty>` exactly when `len` is zero, and the cursor moves to
   * the next four-byte boundary after the value, so by at least twelve bytes;
   * the depth is unchanged.
   */
  lemma PropValueAndPadding(mem: seq<byte>, dt: DeviceTree, c: Cursor)
    requires Running(dt, c) && c.ptr + DATA_OFFSET <= |mem| && TagAt(mem, c) == FDT_PROP
    requires Step(mem, dt, c).Continue?
    ensures var step := Step(mem, dt, c);
      var size := BigEndianWord(mem, c.ptr + SIZE_OFFSET);
      var data := c.ptr + DATA_OFFSET;
      && |step.emitted| == 1
      && (step.emitted[0].Empty? <==> size == 0)
      && (step.emitted[0].Prop? ==> data + size <= |mem| && step.emitted[0].value == mem[data..data + size])
      && step.next == c.(ptr := data + NextFourByteAlign(size))
      && step.next.ptr >= data + size
      && step.next.ptr >= c.ptr + 12
  {
    var name := PropStepByName(mem, dt, c);
    PropValueEffect(mem, c, name, BigEndianWord(mem, c.ptr + SIZE_OFFSET));
  }

  /**
   * A property whose name has a NUL within MAX_STR_LEN bytes in the strings
   * block and whose value lies in memory is printed and the walk goes on.
   */
  lemma PropAccepts(mem: seq<byte>, dt: DeviceTree, c: Cursor)
    requires Running(dt, c) && c.ptr + DATA_OFFSET <= |mem| && TagAt(mem, c) == FDT_PROP
    requires var nameAddr := StringAddress(dt, BigEndianWord(mem, c.ptr + NAME_OFFSET_OFFSET));
      exists k :: nameAddr <= k < nameAddr + MAX_STR_LEN && k < |mem| && mem[k] == 0
    requires c.ptr + DATA_OFFSET + BigEndianWord(mem, c.ptr + SIZE_OFFSET) <= |mem|
    ensures Step(mem, dt, c).Continue? && Step(mem, dt, c).next.valid
    ensures |Step(mem, dt, c).emitted| == 1
    ensures Step(mem, dt, c).emitted[0].Prop? || Step(mem, dt, c).emitted[0].Empty?
  {
    var nameAddr := StringAddress(dt, BigEndianWord(mem, c.ptr + NAME_OFFSET_OFFSET));
    var k :| nameAddr <= k < nameAddr + MAX_STR_LEN && k < |mem| && mem[k] == 0;
    assert NulFrom(mem, nameAddr);
    TerminatorFoundIff(mem, nameAddr, MAX_STR_LEN);
    assert Step(mem, dt, c) == PropStep(mem, dt, c);
  }

  /** An FDT_PROP step that continues found the name in the strings block and went on to the value. */
  lemma PropStepByName(mem: seq<byte>, dt: DeviceTree, c: Cursor) returns (name: seq<byte>)
    requires Running(dt, c) && c.ptr + DATA_OFFSET <= |mem| && TagAt(mem, c) == FDT_PROP
    requires Step(mem, dt, c).Continue?
    ensures var nameAddr := StringAddress(dt, BigEndianWord(mem, c.ptr + NAME_OFFSET_OFFSET));
      && ScanInBounds(mem, nameAddr, MAX_STR_LEN)
      && BoundedString(mem, nameAddr) == Some(name)
      && Step(mem, dt, c) == PropValueStep(mem, c, name, BigEndianWord(mem, c.ptr + SIZE_OFFSET))
  {
    var nameAddr := StringAddress(dt, BigEndianWord(mem, c.ptr + NAME_OFFSET_OFFSET));
    assert Step(mem, dt, c) == PropStep(mem, dt, c);
    name := BoundedString(mem, nameAddr).value;
  }

  /**
   * The value part of FDT_PROP, for a value that lies in memory: the walk goes
   * on after one line with the name, the value bytes or `<empty>`, then the padding.
   */
  lemma PropValueEffect(mem: seq<byte>, c: Cursor, name: seq<byte>, size: u32)
    requires c.valid && !c.foundEnd && c.ptr + DATA_OFFSET + size <= |mem|
    ensures var step := PropValueStep(mem, c, name, size);
      var data := c.ptr + DATA_OFFSET;
      && step.Continue?
      && |step.emitted| == 1 && (step.emitted[0].Prop? || step.emitted[0].Empty?)
      && step.emitted[0].name == name && step.emitted[0].depth == c.indent
      && (step.emitted[0].Empty? <==> size == 0)
      && (step.emitted[0].Prop? ==> data + size <= |mem| && step.emitted[0].value == mem[data..data + size])
      && step.next == c.(ptr := data + NextFourByteAlign(size))
      && step.next.ptr >= data + size
  {
  }

  /** FDT_NOP only moves past the token. */
  lemma NopEffect(mem: seq<byte>, dt: DeviceTree, c: Cursor)
    requires Running(dt, c) && c.ptr + FDT_TAG_SIZE <= |mem| && TagAt(mem, c) == FDT_NOP
    ensures Walk(mem, dt, c) == Walk(mem, dt, c.(ptr := c.ptr + 4))
  {
  }

  /** FDT_END ends the walk at once, with nothing printed. */
  lemma EndTagStops(mem: seq<byte>, dt: DeviceTree, c: Cursor)
    requires Running(dt, c) && c.ptr + FDT_TAG_SIZE <= |mem| && TagAt(mem, c) == FDT_END
    ensures Walk(mem, dt, c) == Trace([], Ended)
  {
  }

  /** FDT_END_NODE at depth zero: `Invalid end node`, then `No end tag found`. */
  lemma InvalidEndStops(mem: seq<byte>, dt: DeviceTree, c: Cursor)
    requires Running(dt, c) && c.ptr + FDT_TAG_SIZE <= |mem| && TagAt(mem, c) == FDT_END_NODE
    requires c.indent == 0
    ensures Walk(mem, dt, c) == Trace([InvalidEnd, NoEndTag], NoEnd)
  {
  }

  /**
   * FDT_BEGIN_NODE whose name has no NUL within MAX_STR_LEN bytes:
   * `<invalid node name>` at the current depth, then `No end tag found`.
   */
  lemma InvalidNameStops(mem: seq<byte>, dt: DeviceTree, c: Cursor)
    requires Running(dt, c) && c.ptr + FDT_TAG_SIZE + MAX_STR_LEN <= |mem| && TagAt(mem, c) == FDT_BEGIN_NODE
    requires forall j :: c.ptr + FDT_TAG_SIZE <= j < c.ptr + FDT_TAG_SIZE + MAX_STR_LEN ==> mem[j] != 0
    ensures Walk(mem, dt, c) == Trace([InvalidName(c.indent), NoEndTag], NoEnd)
  {
    TerminatorIsFirstNul(mem, c.ptr + FDT_TAG_SIZE, MAX_STR_LEN);
  }

  /** A token the walk does not know: `Unknown tag`, then `No end tag found`. */
  lemma UnknownTagStops(mem: seq<byte>, dt: DeviceTree, c: Cursor)
    requires Running(dt, c) && c.ptr + FDT_TAG_SIZE <= |mem|
    requires TagAt(mem, c) !in {FDT_BEGIN_NODE, FDT_END_NODE, FDT_PROP, FDT_NOP, FDT_END}
    ensures Walk(mem, dt, c) == Trace([UnknownTag(TagAt(mem, c)), NoEndTag], NoEnd)
  {
  }

  /**
   * FDT_PROP whose name has no NUL within MAX_STR_LEN bytes: the `unwrap` in
   * `get_string_from_offset` panics before anything of the property is printed.
   */
  lemma UnterminatedPropNamePanics(mem: seq<byte>, dt: DeviceTree, c: Cursor)
    requires Running(dt, c) && c.ptr + DATA_OFFSET <= |mem| && TagAt(mem, c) == FDT_PROP
    requires var nameAddr := StringAddress(dt, BigEndianWord(mem, c.ptr + NAME_OFFSET_OFFSET));
      && nameAddr + MAX_STR_LEN <= |mem|
      && forall j :: nameAddr <= j < nameAddr + MAX_STR_LEN ==> mem[j] != 0
    ensures Walk(mem, dt, c) == Trace([], Panicked)
  {
    var nameAddr := StringAddress(dt, BigEndianWord(mem, c.ptr + NAME_OFFSET_OFFSET));
    assert ScanInBounds(mem, nameAddr, MAX_STR_LEN);
    BoundedStringIsCString(mem, nameAddr);
    assert Step(mem, dt, c) == PropStep(mem, dt, c) == Panic;
  }

  /** A structure block used up before FDT_END gives only `No end tag found`. */
  lemma ExhaustedWithoutEnd(mem: seq<byte>, dt: DeviceTree, c: Cursor)
    requires c.valid && !c.foundEnd && c.ptr >= StructureEnd(dt)
    ensures Walk(mem, dt, c) == Trace([NoEndTag], NoEnd)
  {
  }

  /**
   * The tree `DeviceTree::new` builds, which `device_tree_from_ram_ptr`
   * returns on a bad magic number, has an empty structure block.
   */
  lemma WalkOfNew(mem: seq<byte>)
    ensures Walk(mem, New(), Initial(New())) == Trace([NoEndTag], NoEnd)
  {
    ExhaustedWithoutEnd(mem, New(), Initial(New()));
  }
}
