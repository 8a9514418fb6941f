/**
 * The blob descriptor `DeviceTree`, its header parser `device_tree_from_ram_ptr`
 * and the strings-block accessor `get_string_from_offset`
 * (possum_os/src/device_tree.rs:11-71, 115-138).
 *
 * Memory is a byte sequence indexed by address; a pointer is an index into
 * it and the null pointer is address 0.
 */
module DeviceTree {
  import opened Wrappers
  import opened MachineTypes
  import opened WordDecoder
  import opened BoundedScan

  const NULL: nat := 0

  const DEVICE_TREE_MAGIC: u32 := 0xd00d_feed

  /** Byte offsets of the header words, as laid down in section 5.2 of the Devicetree Specification. */
  const OFFSET_TOTALSIZE: nat := 4
  const OFFSET_DT_STRUCT: nat := 8
  const OFFSET_DT_STRINGS: nat := 12
  const OFFSET_MEM_RSVMAP: nat := 16
  const OFFSET_VERSION: nat := 20
  const OFFSET_LAST_COMP_VERSION: nat := 24
  const OFFSET_BOOT_CPUID_PHYS: nat := 28
  const OFFSET_SIZE_DT_STRINGS: nat := 32
  const OFFSET_SIZE_DT_STRUCT: nat := 36

  /** Size of the header prefix the parser reads. */
  const HEADER_SIZE: nat := 40

  /** Cap on the length of a node or property name, NUL excluded. */
  const MAX_STR_LEN: nat := 256

  /** A non-owning view of a blob: its base address and the header fields kept from it. */
  datatype DeviceTree = DeviceTree(
    base: nat,
    structureOffset: u32,
    stringsOffset: u32,
    memOffset: u32,
    version: u32,
    lastCompVersion: u32,
    structureSize: u32,
    stringsSize: u32)

  /** `DeviceTree::new()`: the unusable descriptor, null base and every field 0. */
  function New(): (dt: DeviceTree)
    ensures dt.base == NULL
    ensures dt.structureSize == 0 && dt.stringsSize == 0
    ensures dt.structureOffset == 0 && dt.stringsOffset == 0 && dt.memOffset == 0
    ensures dt.version == 0 && dt.lastCompVersion == 0
  {
    DeviceTree(NULL, 0, 0, 0, 0, 0, 0, 0)
  }

  /**
   * The parser's reads stay inside memory: the magic word always, the whole
   * header only when the magic matches.
   */
  predicate HeaderReadable(mem: seq<byte>, ramPtr: nat)
  {
    ramPtr + 4 <= |mem|
    && (BigEndianWord(mem, ramPtr) == DEVICE_TREE_MAGIC ==> ramPtr + HEADER_SIZE <= |mem|)
  }

  /**
   * `device_tree_from_ram_ptr`. On a magic mismatch it reports the magic it
   * found and returns `New()`; otherwise it reads the nine header words after
   * the magic and keeps seven of them (the total size and the boot CPU id are
   * read and dropped).
   */
  method DeviceTreeFromRamPtr(mem: seq<byte>, ramPtr: nat) returns (dt: DeviceTree, badMagic: Option<u32>)
    requires HeaderReadable(mem, ramPtr)
    ensures BigEndianWord(mem, ramPtr) != DEVICE_TREE_MAGIC
        ==> dt == New() && badMagic == Some(BigEndianWord(mem, ramPtr))
    ensures BigEndianWord(mem, ramPtr) == DEVICE_TREE_MAGIC ==> badMagic == None
    ensures BigEndianWord(mem, ramPtr) == DEVICE_TREE_MAGIC ==>
      && dt.base == ramPtr
      && dt.structureOffset == BigEndianWord(mem, ramPtr + OFFSET_DT_STRUCT)
      && dt.stringsOffset == BigEndianWord(mem, ramPtr + OFFSET_DT_STRINGS)
      && dt.memOffset == BigEndianWord(mem, ramPtr + OFFSET_MEM_RSVMAP)
      && dt.version == BigEndianWord(mem, ramPtr + OFFSET_VERSION)
      && dt.lastCompVersion == BigEndianWord(mem, ramPtr + OFFSET_LAST_COMP_VERSION)
      && dt.stringsSize == BigEndianWord(mem, ramPtr + OFFSET_SIZE_DT_STRINGS)
      && dt.structureSize == BigEndianWord(mem, ramPtr + OFFSET_SIZE_DT_STRUCT)
  {
    dt := New();
    var ptr := ramPtr;

    var magic := ReadWord(mem, ptr);
    if magic != DEVICE_TREE_MAGIC {
      badMagic := Some(magic);
      return;
    }
    badMagic := None;

    var totalsize := ReadWord(mem, ptr + OFFSET_TOTALSIZE);
    var offDtStruct := ReadWord(mem, ptr + OFFSET_DT_STRUCT);
    var offDtStrings := ReadWord(mem, ptr + OFFSET_DT_STRINGS);
    var offMemRsvmap := ReadWord(mem, ptr + OFFSET_MEM_RSVMAP);
    var version := ReadWord(mem, ptr + OFFSET_VERSION);
    var lastCompVersion := ReadWord(mem, ptr + OFFSET_LAST_COMP_VERSION);
    var bootCpuidPhys := ReadWord(mem, ptr + OFFSET_BOOT_CPUID_PHYS);
    var sizeDtStrings := ReadWord(mem, ptr + OFFSET_SIZE_DT_STRINGS);
    var sizeDtStruct := ReadWord(mem, ptr + OFFSET_SIZE_DT_STRUCT);

    dt := dt.(base := ramPtr);
    dt := dt.(structureOffset := offDtStruct);
    dt := dt.(stringsOffset := offDtStrings);
    dt := dt.(memOffset := offMemRsvmap);
    dt := dt.(version := version);
    dt := dt.(lastCompVersion := lastCompVersion);
    dt := dt.(structureSize := sizeDtStruct);
    dt := dt.(stringsSize := sizeDtStrings);
  }

  /** `read_big_endian(addr as *const u32)`: the native load at `addr` followed by the decoding loop. */
  method ReadWord(mem: seq<byte>, addr: nat) returns (w: u32)
    requires addr + 4 <= |mem|
    ensures w == BigEndianWord(mem, addr)
  {
    w := ReadBigEndian(LoadNative(mem, addr));
    DecodeNativeLoad(mem, addr);
  }

  /** Address of the name at byte `offset` of the strings block. */
  function StringAddress(dt: DeviceTree, offset: u32): nat
  {
    dt.base + dt.stringsOffset + offset
  }

  /**
   * The NUL-terminated string at `p`, without its terminator, or `None` when
   * none of the `MAX_STR_LEN` bytes at `p` is NUL.
   */
  function BoundedString(mem: seq<byte>, p: nat): (r: Option<seq<byte>>)
    requires ScanInBounds(mem, p, MAX_STR_LEN)
    ensures r.Some? ==> |r.value| < MAX_STR_LEN && p + |r.value| < |mem|
  {
    match TerminatorWithin(mem, p, MAX_STR_LEN)
    case Some(len) => Some(mem[p..p + len])
    case None => None
  }

  /**
   * `BoundedString` gives the bytes before the first NUL at `p`, and `None`
   * exactly when none of the `MAX_STR_LEN` bytes at `p` is NUL.
   */
  lemma BoundedStringIsCString(mem: seq<byte>, p: nat)
    requires ScanInBounds(mem, p, MAX_STR_LEN)
    ensures var r := BoundedString(mem, p);
      && (r.Some? ==> r.value == mem[p..p + |r.value|] && mem[p + |r.value|] == 0 && 0 !in r.value)
      && (r.None? <==> p + MAX_STR_LEN <= |mem| && forall j :: p <= j < p + MAX_STR_LEN ==> mem[j] != 0)
  {
    TerminatorIsFirstNul(mem, p, MAX_STR_LEN);
    var r := BoundedString(mem, p);
    if r.Some? {
      assert forall k :: 0 <= k < |r.value| ==> r.value[k] == mem[p + k];
    }
  }

  /**
   * `get_string_from_offset`: the name at `offset` in the strings block.
   * `None` stands for the panic of the source's `unwrap` when the name has no
   * NUL within `MAX_STR_LEN` bytes.
   */
  method GetStringFromOffset(mem: seq<byte>, dt: DeviceTree, offset: u32) returns (r: Option<seq<byte>>)
    requires ScanInBounds(mem, StringAddress(dt, offset), MAX_STR_LEN)
    ensures r == BoundedString(mem, StringAddress(dt, offset))
  {
    var ptr := dt.base + dt.stringsOffset + offset;
    var len := Strnlen(mem, ptr, MAX_STR_LEN);
    if len.None? {
      return None;
    }
    r := Some(mem[ptr..ptr + len.value]);
  }

  /** The ten words of a blob header, in the order they are stored. */
  datatype Header = Header(
    magic: u32,
    totalsize: u32,
    offDtStruct: u32,
    offDtStrings: u32,
    offMemRsvmap: u32,
    version: u32,
    lastCompVersion: u32,
    bootCpuidPhys: u32,
    sizeDtStrings: u32,
    sizeDtStruct: u32)

  /** The header's words in the order they are stored. */
  function HeaderWords(h: Header): (ws: seq<u32>)
    ensures |ws| == 10
  {
    [h.magic, h.totalsize, h.offDtStruct, h.offDtStrings, h.offMemRsvmap, h.version,
     h.lastCompVersion, h.bootCpuidPhys, h.sizeDtStrings, h.sizeDtStruct]
  }

  /** Words stored one after another, each big-endian. */
  function EncodeWords(ws: seq<u32>): (bytes: seq<byte>)
    ensures |bytes| == 4 * |ws|
  {
    if ws == [] then [] else EncodeWord(ws[0]) + EncodeWords(ws[1..])
  }

  /** The 40 header bytes that store `h`. */
  function EncodeHeader(h: Header): (bytes: seq<byte>)
    ensures |bytes| == HEADER_SIZE
  {
    EncodeWords(HeaderWords(h))
  }

  /** Word `i` of a stored word sequence occupies bytes `4 * i` to `4 * i + 4`. */
  lemma {:induction false} EncodedWordAt(ws: seq<u32>, i: nat)
    requires i < |ws|
    ensures EncodeWords(ws)[4 * i..4 * i + 4] == EncodeWord(ws[i])
  {
    var rest := EncodeWords(ws[1..]);
    assert EncodeWords(ws) == EncodeWord(ws[0]) + rest;
    if i > 0 {
      EncodedWordAt(ws[1..], i - 1);
      assert EncodeWords(ws)[4 * i..4 * i + 4] == rest[4 * (i - 1)..4 * (i - 1) + 4];
    }
  }

  /** Every word of a stored sequence decodes back from its place in memory. */
  lemma {:induction false} EncodedWordsDecode(ws: seq<u32>, mem: seq<byte>, p: nat, i: nat)
    requires p + 4 * |ws| <= |mem| && mem[p..p + 4 * |ws|] == EncodeWords(ws)
    requires i < |ws|
    ensures BigEndianWord(mem, p + 4 * i) == ws[i]
  {
    EncodedWordAt(ws, i);
    var q := p + 4 * i;
    var stored := mem[p..p + 4 * |ws|];
    var here, there := mem[q..q + 4], stored[4 * i..4 * i + 4];
    assert here == there by {
      forall j | 0 <= j < 4
        ensures here[j] == there[j]
      {
        assert there[j] == stored[4 * i + j] == mem[p + (4 * i + j)];
      }
    }
    EncodeWordRoundTrip(ws[i], mem, q);
  }

  /** Each header word decodes back from its place in the encoded header. */
  lemma {:induction false} HeaderWordsDecode(h: Header, mem: seq<byte>, p: nat)
    requires p + HEADER_SIZE <= |mem| && mem[p..p + HEADER_SIZE] == EncodeHeader(h)
    ensures BigEndianWord(mem, p) == h.magic
    ensures BigEndianWord(mem, p + OFFSET_TOTALSIZE) == h.totalsize
    ensures BigEndianWord(mem, p + OFFSET_DT_STRUCT) == h.offDtStruct
    ensures BigEndianWord(mem, p + OFFSET_DT_STRINGS) == h.offDtStrings
    ensures BigEndianWord(mem, p + OFFSET_MEM_RSVMAP) == h.offMemRsvmap
    ensures BigEndianWord(mem, p + OFFSET_VERSION) == h.version
    ensures BigEndianWord(mem, p + OFFSET_LAST_COMP_VERSION) == h.lastCompVersion
    ensures BigEndianWord(mem, p + OFFSET_BOOT_CPUID_PHYS) == h.bootCpuidPhys
    ensures BigEndianWord(mem, p + OFFSET_SIZE_DT_STRINGS) == h.sizeDtStrings
    ensures BigEndianWord(mem, p + OFFSET_SIZE_DT_STRUCT) == h.sizeDtStruct
  {
    var ws := HeaderWords(h);
    forall i | 0 <= i < 10
      ensures BigEndianWord(mem, p + 4 * i) == ws[i]
    {
      EncodedWordsDecode(ws, mem, p, i);
    }
    assert BigEndianWord(mem, p + 4 * 0) == ws[0];
    assert BigEndianWord(mem, p + 4 * 1) == ws[1];
    assert BigEndianWord(mem, p + 4 * 2) == ws[2];
    assert BigEndianWord(mem, p + 4 * 3) == ws[3];
    assert BigEndianWord(mem, p + 4 * 4) == ws[4];
    assert BigEndianWord(mem, p + 4 * 5) == ws[5];
    assert BigEndianWord(mem, p + 4 * 6) == ws[6];
    assert BigEndianWord(mem, p + 4 * 7) == ws[7];
    assert BigEndianWord(mem, p + 4 * 8) == ws[8];
    assert BigEndianWord(mem, p + 4 * 9) == ws[9];
  }

  /**
   * A blob whose header stores `h` with the right magic is parsed back into
   * exactly the fields of `h` that the descriptor keeps.
   */
  method ParseEncodedHeader(h: Header, mem: seq<byte>, p: nat) returns (dt: DeviceTree)
    requires h.magic == DEVICE_TREE_MAGIC
    requires p + HEADER_SIZE <= |mem| && mem[p..p + HEADER_SIZE] == EncodeHeader(h)
    ensures dt == DeviceTree(p, h.offDtStruct, h.offDtStrings, h.offMemRsvmap, h.version,
                             h.lastCompVersion, h.sizeDtStruct, h.sizeDtStrings)
  {
    HeaderWordsDecode(h, mem, p);
    var badMagic;
    dt, badMagic := DeviceTreeFromRamPtr(mem, p);
  }
}
