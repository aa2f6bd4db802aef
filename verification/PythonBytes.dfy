/** The parts of Python's `bytes` and `bytearray` that the packet rewriters rely on. */
module PythonBytes {
  import opened Basics

  function Min(a: nat, b: nat): nat {
    if a < b then a else b
  }

  /** `b[lo:hi]`: bounds past the end are clamped. */
  function Slice(b: seq<byte>, lo: nat, hi: nat): (r: seq<byte>)
    requires lo <= hi
    ensures hi <= |b| ==> r == b[lo..hi]
    ensures hi > |b| ==> |r| < hi - lo || hi == lo
  {
    b[Min(lo, |b|)..Min(hi, |b|)]
  }

  /** `b[lo:hi] = v`: the assigned range is clamped, so the bytearray may become longer. */
  function Assign(b: seq<byte>, lo: nat, hi: nat, v: seq<byte>): (r: seq<byte>)
    requires lo <= hi
    ensures hi <= |b| && |v| == hi - lo ==> |r| == |b|
  {
    b[..Min(lo, |b|)] + v + b[Min(hi, |b|)..]
  }

  /** The needle stands at position `i`. */
  predicate At(b: seq<byte>, i: int, needle: seq<byte>) {
    0 <= i && i + |needle| <= |b| && b[i..i + |needle|] == needle
  }

  /** `b.find(needle, start)`; `None` for -1. */
  function Find(b: seq<byte>, needle: seq<byte>, start: nat): (r: Option<nat>)
    ensures r.Some? ==> start <= r.value && At(b, r.value, needle)
    ensures forall i | start <= i < (if r.Some? then r.value else |b| + 1) :: !At(b, i, needle)
    decreases |b| + 1 - start
  {
    if start > |b| then None
    else if At(b, start, needle) then Some(start)
    else Find(b, needle, start + 1)
  }

  predicate Contains(b: seq<byte>, needle: seq<byte>) {
    exists i :: 0 <= i <= |b| && At(b, i, needle)
  }

  lemma ContainsIsFind(b: seq<byte>, needle: seq<byte>)
    ensures Contains(b, needle) <==> Find(b, needle, 0).Some?
  {
    if Find(b, needle, 0).Some? {
      assert At(b, Find(b, needle, 0).value, needle);
    }
  }

  /** `b.count(needle)` from a position on: occurrences that do not overlap. */
  function CountFrom(b: seq<byte>, needle: seq<byte>, start: nat): nat
    requires needle != []
    decreases |b| + 1 - start
  {
    var i := Find(b, needle, start);
    if i.None? then 0 else 1 + CountFrom(b, needle, i.value + |needle|)
  }

  function Zeros(n: nat): (z: seq<byte>)
    ensures |z| == n && forall i | 0 <= i < n :: z[i] == 0
  {
    seq(n, i => 0)
  }

  function U16At(b: seq<byte>, i: nat): nat
    requires i + 2 <= |b|
  {
    FromLittleEndian(b[i..i + 2])
  }

  function U32At(b: seq<byte>, i: nat): nat
    requires i + 4 <= |b|
  {
    FromLittleEndian(b[i..i + 4])
  }

  const U16_LIMIT: nat := 0x1_0000
  const U32_LIMIT: nat := 0x1_0000_0000

  lemma PowersOf256()
    ensures Power256(1) == 256 && Power256(2) == U16_LIMIT && Power256(4) == U32_LIMIT
  {
    assert Power256(0) == 1;
    assert Power256(1) == 256 * Power256(0);
    assert Power256(2) == 256 * Power256(1);
    assert Power256(3) == 256 * Power256(2);
    assert Power256(4) == 256 * Power256(3);
  }

  lemma U32RoundTrip(b: seq<byte>, i: nat, n: nat)
    requires n < U32_LIMIT && At(b, i, LittleEndian(n, 4))
    ensures U32At(b, i) == n
  {
    PowersOf256();
    LittleEndianRoundTrip(n, 4);
  }

  lemma U16RoundTrip(b: seq<byte>, i: nat, n: nat)
    requires n < U16_LIMIT && At(b, i, LittleEndian(n, 2))
    ensures U16At(b, i) == n
  {
    PowersOf256();
    LittleEndianRoundTrip(n, 2);
  }
}
