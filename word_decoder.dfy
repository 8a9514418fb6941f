/**
 * The 32-bit instantiation of `read_big_endian` (possum_os/src/device_tree.rs:73-86).
 *
 * The Rust function loads a `u32` from memory with a native load and then
 * moves its bytes, lowest first, into an accumulator. The kernel runs on a
 * little-endian host, so the native load puts the byte at the lowest address
 * into the least significant position; moving the bytes lowest-first then
 * rebuilds the big-endian value that the Devicetree format stores.
 *
 * Words are modelled as integers below 2^32. The loop's bit operations are
 * written arithmetically: `x << 8` on a `u32` is `x * 256` modulo 2^32,
 * `x >> 8` is `x / 256`, `x & 0xFF` is `x % 256`, and or-ing a byte into a
 * word whose low byte is zero is adding it.
 */
module WordDecoder {
  import opened MachineTypes

  /** The word whose most significant byte is `b0` and least significant byte is `b3`. */
  function Pack(b0: byte, b1: byte, b2: byte, b3: byte): u32
  {
    ((b0 * 0x100 + b1) * 0x100 + b2) * 0x100 + b3
  }

  /** `x << 8` on a `u32`: the top byte falls off. */
  function ShiftLeftByte(x: u32): u32
  {
    (x * 0x100) % WORD_MODULUS
  }

  /** `x >> 8` on a `u32`. */
  function ShiftRightByte(x: u32): u32
  {
    x / 0x100
  }

  /** `x & 0xFF`. */
  function LowByte(x: u32): byte
  {
    x % 0x100
  }

  /** `x | b` for a word whose low byte is clear. */
  function OrLowByte(x: u32, b: byte): u32
    requires x % 0x100 == 0
  {
    x + b
  }

  /** `w` with its byte order reversed. */
  function ByteSwap(w: u32): u32
  {
    var w1 := w / 0x100;
    var w2 := w1 / 0x100;
    Pack(w % 0x100, w1 % 0x100, w2 % 0x100, w2 / 0x100)
  }

  /**
   * The native 32-bit load `*addr` on a little-endian host: the byte at the
   * lowest address is the least significant one.
   */
  function LoadNative(mem: seq<byte>, addr: nat): u32
    requires addr + 4 <= |mem|
  {
    Pack(mem[addr + 3], mem[addr + 2], mem[addr + 1], mem[addr])
  }

  /**
   * The value of the four bytes at `addr` read as a big-endian word, as the
   * Devicetree format stores words: b0·2^24 + b1·2^16 + b2·2^8 + b3.
   */
  function BigEndianWord(mem: seq<byte>, addr: nat): u32
    requires addr + 4 <= |mem|
  {
    Pack(mem[addr], mem[addr + 1], mem[addr + 2], mem[addr + 3])
  }

  /** The input of `read_big_endian` after `k` rounds: `w` less its `k` lowest bytes. */
  function DropLowBytes(w: u32, k: nat): u32
    requires k <= 4
  {
    if k == 0 then w else ShiftRightByte(DropLowBytes(w, k - 1))
  }

  /**
   * The accumulator of `read_big_endian` after `k` rounds: the `k` lowest
   * bytes of `w`, the lowest one now the most significant.
   */
  function Accumulated(w: u32, k: nat): u32
    requires k <= 4
  {
    if k == 0 then 0 else OrLowByte(ShiftLeftByte(Accumulated(w, k - 1)), LowByte(DropLowBytes(w, k - 1)))
  }

  /**
   * `read_big_endian::<u32>` applied to an already loaded word: four rounds of
   * shifting the accumulator left by a byte and or-ing in the lowest byte of
   * the input, which is then shifted right by a byte.
   */
  method ReadBigEndian(word: u32) returns (result: u32)
    ensures result == ByteSwap(word)
  {
    var input := word;
    result := 0;
    for k := 0 to 4
      invariant input == DropLowBytes(word, k)
      invariant result == Accumulated(word, k)
    {
      result := ShiftLeftByte(result);
      result := OrLowByte(result, LowByte(input));
      input := ShiftRightByte(input);
    }
    AccumulatedIsByteSwap(word);
  }

  /** Four rounds of the accumulator reverse the byte order. */
  lemma {:induction false} AccumulatedIsByteSwap(w: u32)
    ensures Accumulated(w, 4) == ByteSwap(w)
  {
    var w1 := w / 0x100;
    var w2 := w1 / 0x100;
    DropLowBytesValues(w);
    var a1 := w % 0x100;
    var a2 := a1 * 0x100 + w1 % 0x100;
    var a3 := a2 * 0x100 + w2 % 0x100;
    AccumulateStep(w, 0, 0);
    AccumulateStep(w, 1, a1);
    AccumulateStep(w, 2, a2);
    AccumulateStep(w, 3, a3);
  }

  lemma {:induction false} DropLowBytesValues(w: u32)
    ensures DropLowBytes(w, 0) == w
    ensures DropLowBytes(w, 1) == w / 0x100
    ensures DropLowBytes(w, 2) == w / 0x100 / 0x100
    ensures DropLowBytes(w, 3) == w / 0x100 / 0x100 / 0x100
  {
    assert DropLowBytes(w, 0) == w;
    assert DropLowBytes(w, 1) == ShiftRightByte(DropLowBytes(w, 0));
    assert DropLowBytes(w, 2) == ShiftRightByte(DropLowBytes(w, 1));
    assert DropLowBytes(w, 3) == ShiftRightByte(DropLowBytes(w, 2));
  }

  /** While the accumulator is below 2^24, shifting it left loses nothing. */
  lemma {:induction false} AccumulateStep(w: u32, k: nat, acc: u32)
    requires k < 4 && Accumulated(w, k) == acc && acc < 0x100_0000
    ensures Accumulated(w, k + 1) == acc * 0x100 + DropLowBytes(w, k) % 0x100
  {
    assert ShiftLeftByte(acc) == acc * 0x100;
  }

  /** Euclidean division by 256 is determined by quotient and remainder. */
  lemma {:induction false} DivModByte(x: int, q: int, r: int)
    requires x == q * 0x100 + r && 0 <= r < 0x100
    ensures x / 0x100 == q && x % 0x100 == r
  {
  }

  /** Swapping a packed word packs its bytes in the other order. */
  lemma {:induction false} ByteSwapPacked(b0: byte, b1: byte, b2: byte, b3: byte)
    ensures ByteSwap(Pack(b0, b1, b2, b3)) == Pack(b3, b2, b1, b0)
  {
    var w := Pack(b0, b1, b2, b3);
    DivModByte(w, (b0 * 0x100 + b1) * 0x100 + b2, b3);
    DivModByte(w / 0x100, b0 * 0x100 + b1, b2);
    DivModByte(w / 0x100 / 0x100, b0, b1);
  }

  /** Every word is the packing of its four bytes. */
  lemma {:induction false} PackOfBytes(w: u32)
    ensures ByteSwap(w) == Pack(w % 0x100, w / 0x100 % 0x100, w / 0x100 / 0x100 % 0x100, w / 0x100 / 0x100 / 0x100)
    ensures w == Pack(w / 0x100 / 0x100 / 0x100, w / 0x100 / 0x100 % 0x100, w / 0x100 % 0x100, w % 0x100)
  {
  }

  /** Reversing the byte order twice gives back the original word. */
  lemma {:induction false} ByteSwapInvolutive(w: u32)
    ensures ByteSwap(ByteSwap(w)) == w
  {
    PackOfBytes(w);
    ByteSwapPacked(w % 0x100, w / 0x100 % 0x100, w / 0x100 / 0x100 % 0x100, w / 0x100 / 0x100 / 0x100);
  }

  /** On a little-endian host, decoding the native load of four bytes yields their big-endian value. */
  lemma {:induction false} DecodeNativeLoad(mem: seq<byte>, addr: nat)
    requires addr + 4 <= |mem|
    ensures ByteSwap(LoadNative(mem, addr)) == BigEndianWord(mem, addr)
  {
    ByteSwapPacked(mem[addr + 3], mem[addr + 2], mem[addr + 1], mem[addr]);
  }

  /** The four bytes that store `w` in big-endian order. */
  function EncodeWord(w: u32): (bytes: seq<byte>)
    ensures |bytes| == 4
  {
    [w / 0x100 / 0x100 / 0x100, w / 0x100 / 0x100 % 0x100, w / 0x100 % 0x100, w % 0x100]
  }

  /** Decoding the big-endian encoding of a word gives back the word. */
  lemma {:induction false} EncodeWordRoundTrip(w: u32, mem: seq<byte>, addr: nat)
    requires addr + 4 <= |mem| && mem[addr..addr + 4] == EncodeWord(w)
    ensures BigEndianWord(mem, addr) == w
  {
    assert mem[addr] == mem[addr..addr + 4][0];
    assert mem[addr + 1] == mem[addr..addr + 4][1];
    assert mem[addr + 2] == mem[addr..addr + 4][2];
    assert mem[addr + 3] == mem[addr..addr + 4][3];
    PackOfBytes(w);
  }
}
