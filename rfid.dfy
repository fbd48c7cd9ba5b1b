/**
 * The RFID tag tracker: folding a card UID into a 32-bit tag id, and the
 * reader object that latches the most recent non-zero tag. The PN532 read is
 * an input: `None` for a failed or timed-out read, `Some(uid)` otherwise.
 */
module Rfid {
  import opened Wrappers
  import opened Uint32

  /** A UID as the driver reports it; its length travels in a `uint8_t`. */
  type Uid = s: seq<bv8> | |s| < 256

  /** 256^n, the number of values `n` bytes can hold. */
  function Pow256(n: nat): nat
  {
    if n == 0 then 1 else 256 * Pow256(n - 1)
  }

  /** The bytes read as one unsigned number, most significant byte first. */
  function BigEndian(bytes: seq<bv8>): nat
  {
    if bytes == [] then 0 else BigEndian(bytes[..|bytes| - 1]) * 256 + bytes[|bytes| - 1] as nat
  }

  /** `n` bytes hold a number below 256^n. */
  lemma {:induction false} BigEndianBound(bytes: seq<bv8>)
    ensures BigEndian(bytes) < Pow256(|bytes|)
  {
    if bytes != [] {
      BigEndianBound(bytes[..|bytes| - 1]);
    }
  }

  /** The bytes that make up the tag identity: the last four, or all of them when fewer. */
  function LastFour(uid: seq<bv8>): (tail: seq<bv8>)
    ensures |tail| <= 4
  {
    if |uid| > 4 then uid[|uid| - 4..] else uid
  }

  /** The tag id of a UID: its last (up to) four bytes read big-endian. */
  function TagOf(uid: seq<bv8>): U32
  {
    BigEndianBound(LastFour(uid));
    assert Pow256(|LastFour(uid)|) <= Pow256(4) == Modulus by {
      PowMonotone(|LastFour(uid)|, 4);
    }
    BigEndian(LastFour(uid))
  }

  /** Helper for the bounds above: 256^m grows with m. */
  lemma {:induction false} PowMonotone(m: nat, n: nat)
    requires m <= n
    ensures Pow256(m) <= Pow256(n)
    decreases n
  {
    if m < n {
      PowMonotone(m, n - 1);
    }
  }

  /** Helper for `ShiftIn`: a value below 2^32 is its own remainder, which keeps the modulus out of the caller's context. */
  lemma ModSmall(x: int)
    requires 0 <= x < Modulus
    ensures x % Modulus == x
  {
  }

  /** Shifting one more byte into a value of at most three bytes neither wraps nor overflows. */
  lemma ShiftIn(bytes: seq<bv8>, b: bv8)
    requires |bytes| <= 3 && BigEndian(bytes) < Pow256(|bytes|)
    ensures (BigEndian(bytes) * 256) % Modulus + b as int == BigEndian(bytes + [b]) < Pow256(|bytes| + 1)
  {
    var v, bound := BigEndian(bytes), Pow256(|bytes|);
    assert (bytes + [b])[..|bytes|] == bytes;
    assert BigEndian(bytes + [b]) == v * 256 + b as int;
    assert Pow256(|bytes| + 1) == 256 * bound;
    PowMonotone(|bytes|, 3);
    assert bound <= 16777216;
    assert v * 256 < Modulus;
    ModSmall(v * 256);
  }

  /** One turn of the `uidToRfid` loop over the bytes `uid[start..i]`. */
  lemma ShiftStep(uid: seq<bv8>, start: nat, i: nat)
    requires start <= i < |uid| && i - start < 4
    requires BigEndian(uid[start..i]) < Pow256(i - start)
    ensures (BigEndian(uid[start..i]) * 256) % Modulus + uid[i] as int == BigEndian(uid[start..i + 1])
    ensures BigEndian(uid[start..i + 1]) < Pow256(i + 1 - start) <= Modulus
  {
    assert uid[start..i + 1] == uid[start..i] + [uid[i]];
    ShiftIn(uid[start..i], uid[i]);
    PowMonotone(i + 1 - start, 4);
  }

  /**
   * `uidToRfid(uid, len)`: 0 for an empty UID; otherwise the bytes from
   * `len - 4` (or 0) onwards are shifted in, `value = (value << 8) | uid[i]`.
   */
  method UidToRfid(uid: Uid) returns (value: U32)
    ensures value == TagOf(uid)
    ensures |uid| == 0 ==> value == 0
  {
    if |uid| == 0 {
      assert LastFour(uid) == [];
      return 0;
    }
    value := 0;
    var start := if |uid| > 4 then |uid| - 4 else 0;
    for i := start to |uid|
      invariant value == BigEndian(uid[start..i])
      invariant value < Pow256(i - start)
    {
      ShiftStep(uid, start, i);
      // `value << 8` on a uint32_t drops what leaves the top; `| uid[i]` fills the low byte, which the shift cleared.
      value := (value * 256) % Modulus + uid[i] as int;
    }
    assert uid[start..|uid|] == LastFour(uid);
  }

  /** With at most four bytes the whole UID counts, and the tag fits in `8 * len` bits. */
  lemma ShortUidTag(uid: seq<bv8>)
    requires |uid| <= 4
    ensures TagOf(uid) == BigEndian(uid)
    ensures TagOf(uid) < Pow256(|uid|)
  {
    BigEndianBound(uid);
  }

  /** With more than four bytes, changing any byte before the last four leaves the tag unchanged. */
  lemma LeadingBytesIgnored(uid: seq<bv8>, i: nat, b: bv8)
    requires |uid| > 4 && i < |uid| - 4
    ensures TagOf(uid[i := b]) == TagOf(uid)
  {
    assert LastFour(uid[i := b]) == LastFour(uid);
  }

  /** The latched tag after one poll that read `read` while `current` was latched. */
  function Latch(current: U32, read: Option<Uid>): U32
  {
    match read
    case None => current
    case Some(uid) =>
      var tag := TagOf(uid);
      if tag != 0 && tag != current then tag else current
  }

  /**
   * A poll keeps the latch on a failed read, never latches 0, takes a new
   * non-zero tag, and once non-zero the latch stays non-zero.
   */
  lemma LatchCases(current: U32, read: Option<Uid>)
    ensures read.None? ==> Latch(current, read) == current
    ensures read.Some? && TagOf(read.value) == 0 ==> Latch(current, read) == current
    ensures read.Some? && TagOf(read.value) != 0 ==> Latch(current, read) == TagOf(read.value)
    ensures current != 0 ==> Latch(current, read) != 0
  {
  }

  /** Reading the same card again changes nothing. */
  lemma LatchIdempotent(current: U32, read: Option<Uid>)
    ensures Latch(Latch(current, read), read) == Latch(current, read)
  {
  }

  /** The latched values after each of a series of polls. */
  function LatchTrace(current: U32, scans: seq<Option<Uid>>): (trace: seq<U32>)
    ensures |trace| == |scans|
    decreases |scans|
  {
    if scans == [] then []
    else [Latch(current, scans[0])] + LatchTrace(Latch(current, scans[0]), scans[1..])
  }

  /** Reads [fail, A, A, 0, B] latch [prev, A, A, A, B]. */
  lemma LatchTraceExample(prev: U32, a: Uid, zero: Uid, b: Uid)
    requires TagOf(a) != 0 && TagOf(zero) == 0 && TagOf(b) != 0
    ensures LatchTrace(prev, [None, Some(a), Some(a), Some(zero), Some(b)])
         == [prev, TagOf(a), TagOf(a), TagOf(a), TagOf(b)]
  {
    var ta, tb := TagOf(a), TagOf(b);
    assert Latch(prev, None) == prev;
    assert Latch(prev, Some(a)) == ta && Latch(ta, Some(a)) == ta;
    assert Latch(ta, Some(zero)) == ta && Latch(ta, Some(b)) == tb;
    LatchTraceOfThree(ta, Some(a), Some(zero), Some(b));
    LatchTraceCons(prev, Some(a), [Some(a), Some(zero), Some(b)]);
    LatchTraceCons(prev, None, [Some(a), Some(a), Some(zero), Some(b)]);
  }

  /** The trace of three reads, one poll at a time. */
  lemma LatchTraceOfThree(current: U32, r0: Option<Uid>, r1: Option<Uid>, r2: Option<Uid>)
    ensures var l0 := Latch(current, r0);
      var l1 := Latch(l0, r1);
      LatchTrace(current, [r0, r1, r2]) == [l0, l1, Latch(l1, r2)]
  {
    LatchTraceCons(Latch(Latch(current, r0), r1), r2, []);
    LatchTraceCons(Latch(current, r0), r1, [r2]);
    LatchTraceCons(current, r0, [r1, r2]);
  }

  /** One read at the front of a trace. */
  lemma LatchTraceCons(current: U32, read: Option<Uid>, rest: seq<Option<Uid>>)
    ensures LatchTrace(current, [read] + rest) == [Latch(current, read)] + LatchTrace(Latch(current, read), rest)
  {
    assert ([read] + rest)[1..] == rest;
  }

  /** Once a tag is latched, no later poll returns the latch to 0. */
  lemma {:induction false} LatchTraceStaysNonZero(current: U32, scans: seq<Option<Uid>>)
    requires current != 0
    ensures forall k :: 0 <= k < |scans| ==> LatchTrace(current, scans)[k] != 0
    decreases |scans|
  {
    if scans != [] {
      LatchTraceStaysNonZero(Latch(current, scans[0]), scans[1..]);
    }
  }

  /** Every latched value is the starting value or the tag of one of the reads. */
  lemma {:induction false} LatchTraceFromReads(current: U32, scans: seq<Option<Uid>>)
    ensures forall k :: 0 <= k < |scans| ==>
              LatchTrace(current, scans)[k] == current ||
              exists j :: 0 <= j <= k && scans[j].Some? && LatchTrace(current, scans)[k] == TagOf(scans[j].value)
    decreases |scans|
  {
    if scans != [] {
      var next := Latch(current, scans[0]);
      var rest := scans[1..];
      LatchTraceFromReads(next, rest);
      var trace := LatchTrace(current, scans);
      forall k | 0 <= k < |scans|
        ensures trace[k] == current ||
                exists j :: 0 <= j <= k && scans[j].Some? && trace[k] == TagOf(scans[j].value)
      {
        if k > 0 && trace[k] != next {
          assert trace == [next] + LatchTrace(next, rest);
          assert trace[k] == LatchTrace(next, rest)[k - 1];
          var j :| 0 <= j <= k - 1 && rest[j].Some? && LatchTrace(next, rest)[k - 1] == TagOf(rest[j].value);
          assert scans[j + 1] == rest[j];
        } else if next != current {
          assert scans[0].Some? && next == TagOf(scans[0].value);
        }
      }
    }
  }

  /** `RfidReader`: its only state is the latched tag, which only `Poll` writes. */
  class RfidReader {
    var currentTag: U32

    /** A new reader has latched nothing. */
    constructor ()
      ensures currentTag == 0 && !HasTag()
    {
      currentTag := 0;
    }

    /** `currentTag()` */
    function CurrentTag(): U32
      reads this
    {
      currentTag
    }

    /** `hasTag()`: a tag has been latched. */
    predicate HasTag()
      reads this
      ensures HasTag() <==> CurrentTag() != 0
    {
      currentTag != 0
    }

    /** `poll()`: ignores a failed read, a zero tag and the current tag; latches any other tag. */
    method Poll(read: Option<Uid>)
      modifies this
      ensures currentTag == Latch(old(currentTag), read)
    {
      if read.None? {
        return;
      }
      var tag := UidToRfid(read.value);
      if tag != 0 && tag != currentTag {
        currentTag := tag;
      }
    }
  }

}
