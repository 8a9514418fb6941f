/** `strnlen` (possum_os/src/device_tree.rs:88-100): a NUL scan capped at a maximum length. */
module BoundedScan {
  import opened Wrappers
  import opened MachineTypes

  /**
   * The scan of `strnlen(p, maxLen)` stays inside memory: either all of the
   * first `maxLen` bytes exist, or a NUL byte at or after `p` stops it first.
   */
  predicate ScanInBounds(mem: seq<byte>, p: nat, maxLen: nat)
  {
    p <= |mem| && (p + maxLen <= |mem| || NulFrom(mem, p))
  }

  /** Some byte at or after `p` is NUL. */
  predicate NulFrom(mem: seq<byte>, p: nat)
  {
    exists k :: p <= k < |mem| && mem[k] == 0
  }

  /** The address of the first NUL byte in `mem[lo..hi]`, if any. */
  function FirstZero(mem: seq<byte>, lo: nat, hi: nat): (r: Option<nat>)
    requires lo <= |mem| && (hi <= |mem| || NulFrom(mem, lo))
    ensures r.Some? ==> lo <= r.value < hi && r.value < |mem|
    decreases hi - lo
  {
    if hi <= lo then None
    else if mem[lo] == 0 then Some(lo)
    else
      ScanContinues(mem, lo, hi);
      FirstZero(mem, lo + 1, hi)
  }

  /** Past a byte that is not NUL, the rest of the scan still stays inside memory. */
  lemma ScanContinues(mem: seq<byte>, lo: nat, hi: nat)
    requires lo < hi && lo <= |mem| && (hi <= |mem| || NulFrom(mem, lo))
    requires lo < |mem| && mem[lo] != 0
    ensures lo + 1 <= |mem| && (hi <= |mem| || NulFrom(mem, lo + 1))
  {
    if hi > |mem| {
      var k :| lo <= k < |mem| && mem[k] == 0;
      assert lo + 1 <= k;
    }
  }

  /**
   * `FirstZero` finds the first NUL of `mem[lo..hi]`: every byte before it is
   * non-zero; `None` means all of `mem[lo..hi]` exists and none of it is NUL.
   */
  lemma {:induction false} FirstZeroIsFirst(mem: seq<byte>, lo: nat, hi: nat)
    requires lo <= |mem| && (hi <= |mem| || NulFrom(mem, lo))
    ensures var r := FirstZero(mem, lo, hi);
      && (r.Some? ==> mem[r.value] == 0 && forall j :: lo <= j < r.value ==> mem[j] != 0)
      && (r.None? ==> hi <= |mem| && forall j :: lo <= j < hi ==> mem[j] != 0)
    decreases hi - lo
  {
    if lo < hi && mem[lo] != 0 {
      ScanContinues(mem, lo, hi);
      FirstZeroIsFirst(mem, lo + 1, hi);
    }
  }

  /**
   * The index of the first NUL byte among the `maxLen` bytes at `p`, or `None`
   * when none of them is NUL (always so when `maxLen` is zero).
   */
  function TerminatorWithin(mem: seq<byte>, p: nat, maxLen: nat): (r: Option<nat>)
    requires ScanInBounds(mem, p, maxLen)
    ensures r.Some? ==> r.value < maxLen && p + r.value < |mem|
  {
    match FirstZero(mem, p, p + maxLen)
    case None => None
    case Some(a) => Some(a - p)
  }

  /**
   * `TerminatorWithin` is the position of the first NUL within the cap, and
   * `None` exactly when the cap's bytes all exist and none is NUL.
   */
  lemma TerminatorIsFirstNul(mem: seq<byte>, p: nat, maxLen: nat)
    requires ScanInBounds(mem, p, maxLen)
    ensures var r := TerminatorWithin(mem, p, maxLen);
      && (r.Some? ==> mem[p + r.value] == 0 && forall j :: p <= j < p + r.value ==> mem[j] != 0)
      && (r.None? ==> p + maxLen <= |mem| && forall j :: p <= j < p + maxLen ==> mem[j] != 0)
  {
    FirstZeroIsFirst(mem, p, p + maxLen);
  }

  /**
   * `strnlen`: advances while fewer than `maxLen` bytes were seen and the
   * current byte is not NUL; `None` when the cap was reached.
   */
  method Strnlen(mem: seq<byte>, p: nat, maxLen: nat) returns (r: Option<nat>)
    requires ScanInBounds(mem, p, maxLen)
    ensures r == TerminatorWithin(mem, p, maxLen)
  {
    var ptr := p;
    var i := 0;
    while i < maxLen && mem[ptr] != 0
      invariant ptr == p + i && i <= maxLen && ptr <= |mem|
      invariant forall j :: p <= j < ptr ==> mem[j] != 0
      invariant ptr < |mem| || i == maxLen
    {
      ptr := ptr + 1;
      i := i + 1;
    }
    if i == maxLen {
      r := None;
    } else {
      r := Some(i);
    }
    TerminatorUnique(mem, p, maxLen, r);
  }

  /** Any answer with the properties of the first NUL within the cap is the scan's answer. */
  lemma TerminatorUnique(mem: seq<byte>, p: nat, maxLen: nat, r: Option<nat>)
    requires ScanInBounds(mem, p, maxLen)
    requires r.Some? ==> r.value < maxLen && p + r.value < |mem| && mem[p + r.value] == 0
    requires r.Some? ==> forall j :: p <= j < p + r.value ==> mem[j] != 0
    requires r.None? ==> p + maxLen <= |mem| && forall j :: p <= j < p + maxLen ==> mem[j] != 0
    ensures r == TerminatorWithin(mem, p, maxLen)
  {
    TerminatorIsFirstNul(mem, p, maxLen);
  }

  /** The scan finds a terminator exactly when one of the first `maxLen` bytes is NUL. */
  lemma TerminatorFoundIff(mem: seq<byte>, p: nat, maxLen: nat)
    requires ScanInBounds(mem, p, maxLen)
    ensures TerminatorWithin(mem, p, maxLen).Some?
        <==> exists k :: p <= k < p + maxLen && k < |mem| && mem[k] == 0
  {
    TerminatorIsFirstNul(mem, p, maxLen);
  }
}
