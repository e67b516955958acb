/**
  Column-definition flags of the MySQL client/server protocol.

  The server sends a 16-bit flags word per column. Its twelve documented
  weights name one column attribute each (NOT_NULL = 1 up to SET = 2048);
  MySQL 5.1 also sets four higher weights (4096 .. 32768) that the decoder
  does not interpret. `FieldFlags.Process` is the decoder as the client
  runs it: strip the unknown weights, then subtract each documented weight
  in decreasing order when the remainder is at least that weight, setting
  the attribute. `Decode` is the per-bit reference, `Encode` its inverse.
 */
module Flags {
  import opened Bits

  /*
    Flag weights. Only their names appear in the decoder; the values are
    those of the protocol, and `WeightsArePowersOfTwo` records that each is
    the power of two the decoder's argument depends on.
   */
  const FlagNotNull: Uint16 := 1
  const FlagPriKey: Uint16 := 2
  const FlagUniqueKey: Uint16 := 4
  const FlagMultipleKey: Uint16 := 8
  const FlagBlob: Uint16 := 16
  const FlagUnsigned: Uint16 := 32
  const FlagZerofill: Uint16 := 64
  const FlagBinary: Uint16 := 128
  const FlagEnum: Uint16 := 256
  const FlagAutoIncrement: Uint16 := 512
  const FlagTimestamp: Uint16 := 1024
  const FlagSet: Uint16 := 2048
  const FlagUnknown1: Uint16 := 4096
  const FlagUnknown2: Uint16 := 8192
  const FlagUnknown3: Uint16 := 16384
  const FlagUnknown4: Uint16 := 32768

  /** The weights in the order the decoder tests them. */
  const ProtocolWeights: seq<nat> := [
    FlagUnknown4, FlagUnknown3, FlagUnknown2, FlagUnknown1,
    FlagSet, FlagTimestamp, FlagAutoIncrement, FlagEnum,
    FlagBinary, FlagZerofill, FlagUnsigned, FlagBlob,
    FlagMultipleKey, FlagUniqueKey, FlagPriKey, FlagNotNull]

  /** Weight of bit k is 2^k, for all sixteen bits of the flags word. */
  lemma WeightsArePowersOfTwo()
    ensures FlagNotNull == Pow2(0) && FlagPriKey == Pow2(1)
    ensures FlagUniqueKey == Pow2(2) && FlagMultipleKey == Pow2(3)
    ensures FlagBlob == Pow2(4) && FlagUnsigned == Pow2(5)
    ensures FlagZerofill == Pow2(6) && FlagBinary == Pow2(7)
    ensures FlagEnum == Pow2(8) && FlagAutoIncrement == Pow2(9)
    ensures FlagTimestamp == Pow2(10) && FlagSet == Pow2(11)
    ensures FlagUnknown1 == Pow2(12) && FlagUnknown2 == Pow2(13)
    ensures FlagUnknown3 == Pow2(14) && FlagUnknown4 == Pow2(15)
    ensures Pow2(16) == 0x1_0000
  {
  }

  /** The decoder's table is the gapless table 2^15, ..., 2^0. */
  lemma ProtocolWeightsDescending()
    ensures ProtocolWeights == Descending(16)
  {
    WeightsArePowersOfTwo();
    forall i | 0 <= i < 16
      ensures ProtocolWeights[i] == Descending(16)[i]
    {
      DescendingAt(16, i);
    }
  }

  /**
    Subtract-if-at-least over the decoder's sixteen weights takes exactly
    the weights whose bits are set in `m` and leaves no remainder.
   */
  lemma ProtocolDecomposition(m: Uint16)
    ensures Greedy(m, ProtocolWeights) == (HighFirst(m, 16), 0)
  {
    ProtocolWeightsDescending();
    WeightsArePowersOfTwo();
    GreedyDecodesValue(m, 16);
  }

  /** The twelve documented column attributes, as a value. */
  datatype Attributes = Attributes(
    notNull: bool, primaryKey: bool, uniqueKey: bool, multiKey: bool,
    blob: bool, unsigned: bool, zerofill: bool, binary: bool,
    enum: bool, autoIncrement: bool, timestamp: bool, isSet: bool)

  const NoAttributes := Attributes(false, false, false, false, false, false,
                                   false, false, false, false, false, false)
  const AllAttributes := Attributes(true, true, true, true, true, true,
                                    true, true, true, true, true, true)

  /** The attributes by bit position: element k carries weight 2^k. */
  function AsBits(a: Attributes): (bs: seq<bool>)
    ensures |bs| == 12
  {
    [a.notNull, a.primaryKey, a.uniqueKey, a.multiKey, a.blob, a.unsigned,
     a.zerofill, a.binary, a.enum, a.autoIncrement, a.timestamp, a.isSet]
  }

  /** Attribute-wise or: what a flags object holds after a second word is processed. */
  function Union(a: Attributes, b: Attributes): (u: Attributes)
  {
    Attributes(a.notNull || b.notNull, a.primaryKey || b.primaryKey,
               a.uniqueKey || b.uniqueKey, a.multiKey || b.multiKey,
               a.blob || b.blob, a.unsigned || b.unsigned,
               a.zerofill || b.zerofill, a.binary || b.binary,
               a.enum || b.enum, a.autoIncrement || b.autoIncrement,
               a.timestamp || b.timestamp, a.isSet || b.isSet)
  }

  /** Reference decoder: each attribute is a per-bit test of the flags word. */
  function Decode(m: Uint16): Attributes
  {
    Attributes(Bit(m, 0), Bit(m, 1), Bit(m, 2), Bit(m, 3), Bit(m, 4), Bit(m, 5),
               Bit(m, 6), Bit(m, 7), Bit(m, 8), Bit(m, 9), Bit(m, 10), Bit(m, 11))
  }

  /** The flags word a server sends for `a`: the sum of the weights of its attributes. */
  function Encode(a: Attributes): (m: Uint16)
    ensures m < FlagUnknown1
  {
    ValueBound(AsBits(a));
    WeightsArePowersOfTwo();
    Value(AsBits(a))
  }

  lemma DecodeEncode(a: Attributes)
    ensures Decode(Encode(a)) == a
  {
    forall k | 0 <= k < 12
      ensures Bit(Value(AsBits(a)), k) == AsBits(a)[k]
    {
      BitOfValue(AsBits(a), k);
    }
  }

  /** The attributes of `m`, by bit position, are the low twelve bits of `m`. */
  lemma DecodeAsLowBits(m: Uint16)
    ensures AsBits(Decode(m)) == LowBits(m, 12)
  {
    forall k | 0 <= k < 12
      ensures AsBits(Decode(m))[k] == LowBits(m, 12)[k]
    {
      LowBitsAt(m, 12, k);
    }
  }

  /** A flags word without unknown bits is the encoding of its decoding. */
  lemma EncodeDecode(m: Uint16)
    requires m < FlagUnknown1
    ensures Encode(Decode(m)) == m
  {
    DecodeAsLowBits(m);
    ValueOfLowBits(m, 12);
    WeightsArePowersOfTwo();
    LowIdentity(m, 12);
  }

  /** Adding any multiple of FLAG_UNKNOWN_1 to a flags word does not change any attribute. */
  lemma UnknownPartIgnored(x: nat, u: nat)
    requires x + FlagUnknown1 * u < 0x1_0000
    ensures Decode(x + FlagUnknown1 * u) == Decode(x)
  {
    WeightsArePowersOfTwo();
    forall k | 0 <= k < 12
      ensures Bit(x + Pow2(12) * u, k) == Bit(x, k)
    {
      HighPartIgnored(x, u, 12, k);
    }
  }

  /** Clearing FLAG_UNKNOWN_1 .. FLAG_UNKNOWN_4 does not change any attribute. */
  lemma DecodeIgnoresUnknown(m: Uint16)
    ensures Decode(m) == Decode(m % FlagUnknown1)
  {
    UnknownPartIgnored(m % FlagUnknown1, m / FlagUnknown1);
  }

  /**
    A word made of any subset of the documented weights, plus any
    combination of the unknown ones on top, decodes to exactly that subset.
   */
  lemma UnknownWeightsOnTop(a: Attributes, u: nat)
    requires u < 16
    ensures Encode(a) + FlagUnknown1 * u < 0x1_0000
    ensures Decode(Encode(a) + FlagUnknown1 * u) == a
  {
    UnknownPartIgnored(Encode(a), u);
    DecodeEncode(a);
  }

  lemma DecodeZero()
    ensures Decode(0) == NoAttributes
  {
  }

  /** The sum of the twelve documented weights. */
  const KnownWeights: Uint16 := FlagNotNull + FlagPriKey + FlagUniqueKey + FlagMultipleKey +
    FlagBlob + FlagUnsigned + FlagZerofill + FlagBinary +
    FlagEnum + FlagAutoIncrement + FlagTimestamp + FlagSet

  lemma DecodeAllKnown()
    ensures Decode(KnownWeights) == AllAttributes
  {
    assert Encode(AllAttributes) == KnownWeights;
    DecodeEncode(AllAttributes);
  }

  /** Processing the word 0 leaves every attribute as it was. */
  lemma ProcessZeroChangesNothing(a: Attributes)
    ensures Union(a, Decode(0)) == a
  {
  }

  /**
    Processing a word that carries all twelve documented weights sets every
    attribute, whatever unknown weights come with it.
   */
  lemma ProcessAllKnownSetsAll(a: Attributes, u: nat)
    requires u < 16
    ensures KnownWeights + FlagUnknown1 * u < 0x1_0000
    ensures Union(a, Decode(KnownWeights + FlagUnknown1 * u)) == AllAttributes
  {
    assert Encode(AllAttributes) == KnownWeights;
    UnknownWeightsOnTop(AllAttributes, u);
  }

  /** The flags attached to one column; `Process` sets them from a flags word. */
  class FieldFlags {
    var notNull: bool
    var primaryKey: bool
    var uniqueKey: bool
    var multiKey: bool
    var blob: bool
    var unsigned: bool
    var zerofill: bool
    var binary: bool
    var enum: bool
    var autoIncrement: bool
    var timestamp: bool
    var isSet: bool

    function Attrs(): Attributes
      reads this
    {
      Attributes(notNull, primaryKey, uniqueKey, multiKey, blob, unsigned,
                 zerofill, binary, enum, autoIncrement, timestamp, isSet)
    }

    /** A fresh flags object has every attribute false. */
    constructor ()
      ensures Attrs() == NoAttributes
    {
      notNull, primaryKey, uniqueKey, multiKey := false, false, false, false;
      blob, unsigned, zerofill, binary := false, false, false, false;
      enum, autoIncrement, timestamp, isSet := false, false, false, false;
    }

    /**
      Sets to true every attribute whose weight is present in `flags` and
      leaves the others as they were.
     */
    method Process(flags: Uint16)
      modifies this
      ensures Attrs() == Union(old(Attrs()), Decode(flags))
    {
      var seen, _ := Scan(flags);
      Absorb(seen);
    }

    /** Sets to true every attribute that is true in `seen`. */
    method Absorb(seen: Attributes)
      modifies this
      ensures Attrs() == Union(old(Attrs()), seen)
    {
      var merged := Union(Attrs(), seen);
      notNull := merged.notNull;
      primaryKey := merged.primaryKey;
      uniqueKey := merged.uniqueKey;
      multiKey := merged.multiKey;
      blob := merged.blob;
      unsigned := merged.unsigned;
      zerofill := merged.zerofill;
      binary := merged.binary;
      enum := merged.enum;
      autoIncrement := merged.autoIncrement;
      timestamp := merged.timestamp;
      isSet := merged.isSet;
      assert Attrs() == merged;
    }
  }

  /**
    The scan `Process` performs over one flags word: the four unknown
    weights are dropped first, then the twelve documented ones are taken
    largest first. An attribute is seen exactly when its bit is set, and
    the word is used up: the remainder ends at 0, which is also what the
    functional reading `Greedy` over the same table leaves.
   */
  method Scan(flags: Uint16) returns (seen: Attributes, remainder: Uint16)
    ensures seen == Decode(flags)
    ensures remainder == 0
    ensures remainder == Greedy(flags, ProtocolWeights).1
  {
    WeightsArePowersOfTwo();
    var rest: Uint16 := flags;
    var step: (bool, Uint16);
    // Ghost bookkeeping: before each step, rest is Low(flags, k).
    ghost var k: nat := 16;
    LowIdentity(flags, k);
    k := k - 1;
    step := TakeWeight(rest, FlagUnknown4, flags, k);
    rest := step.1;
    k := k - 1;
    step := TakeWeight(rest, FlagUnknown3, flags, k);
    rest := step.1;
    k := k - 1;
    step := TakeWeight(rest, FlagUnknown2, flags, k);
    rest := step.1;
    k := k - 1;
    step := TakeWeight(rest, FlagUnknown1, flags, k);
    rest := step.1;
    k := k - 1;
    step := TakeWeight(rest, FlagSet, flags, k);
    rest := step.1;
    var isSet := step.0;
    k := k - 1;
    step := TakeWeight(rest, FlagTimestamp, flags, k);
    rest := step.1;
    var timestamp := step.0;
    k := k - 1;
    step := TakeWeight(rest, FlagAutoIncrement, flags, k);
    rest := step.1;
    var autoIncrement := step.0;
    k := k - 1;
    step := TakeWeight(rest, FlagEnum, flags, k);
    rest := step.1;
    var enum := step.0;
    k := k - 1;
    step := TakeWeight(rest, FlagBinary, flags, k);
    rest := step.1;
    var binary := step.0;
    k := k - 1;
    step := TakeWeight(rest, FlagZerofill, flags, k);
    rest := step.1;
    var zerofill := step.0;
    k := k - 1;
    step := TakeWeight(rest, FlagUnsigned, flags, k);
    rest := step.1;
    var unsigned := step.0;
    k := k - 1;
    step := TakeWeight(rest, FlagBlob, flags, k);
    rest := step.1;
    var blob := step.0;
    k := k - 1;
    step := TakeWeight(rest, FlagMultipleKey, flags, k);
    rest := step.1;
    var multiKey := step.0;
    k := k - 1;
    step := TakeWeight(rest, FlagUniqueKey, flags, k);
    rest := step.1;
    var uniqueKey := step.0;
    k := k - 1;
    step := TakeWeight(rest, FlagPriKey, flags, k);
    rest := step.1;
    var primaryKey := step.0;
    k := k - 1;
    step := TakeWeight(rest, FlagNotNull, flags, k);
    rest := step.1;
    var notNull := step.0;
    remainder := rest;
    ProtocolDecomposition(flags);
    seen := Attributes(notNull, primaryKey, uniqueKey, multiKey, blob, unsigned,
                       zerofill, binary, enum, autoIncrement, timestamp, isSet);
  }

  /**
    One step of the decoder: when the remainder is at least `weight`, the
    weight is present and is subtracted. The subtraction is guarded, so the
    16-bit remainder never wraps around. When `weight` is 2^k and the
    remainder is the bits of `m` below k + 1, the weight is present exactly
    when bit k of `m` is set, and what remains is the bits of `m` below k.
   */
  function TakeWeight(rest: Uint16, weight: Uint16, ghost m: nat, ghost k: nat): (r: (bool, Uint16))
    requires rest == Low(m, k + 1) && weight == Pow2(k)
    ensures r.0 == (rest >= weight) && r.0 == Bit(m, k)
    ensures r.1 == Low(m, k) && r.1 <= rest
  {
    TakeStep(m, k);
    if rest >= weight then (true, rest - weight) else (false, rest)
  }

  /**
    A client of `Process`, not a function of the Go file: a flags object
    allocated fresh and then given one word holds exactly the per-bit
    reference decoding of that word.
   */
  method ProcessFresh(m: Uint16) returns (a: Attributes)
    ensures a == Decode(m)
  {
    var f := new FieldFlags();
    f.Process(m);
    a := f.Attrs();
  }
}
