/** The two CAP1188 helpers of the controller: configuring the sensor's
    sensitivity and counting the touched pads (src/cap1188.cpp).

    The Adafruit driver itself is not part of this model: a register write is
    returned as a value, and the byte that `touched()` reads from the sensor is
    a parameter. */
module Cap1188 {

  /** Number of bits in a byte (`CHAR_BIT`). */
  const CHAR_BIT: nat := 8

  /** The sensitivity value has three bits of resolution (`0b111`). */
  const MAX_SENSITIVITY: int := 7

  /** Address of the CAP1188 sensitivity control register. */
  const SENSITIVITY_CONTROL_REGISTER: bv8 := 0x1F

  /** Bits of the sensitivity control register outside the sensitivity field
      (bit 7 and bits 3..0). */
  const NON_SENSITIVITY_BITS: bv8 := 0x8F

  /** One `writeRegister(address, value)` call on the device. */
  datatype RegisterWrite = RegisterWrite(address: bv8, value: bv8)

  /** What `setCapSensitivity` returns, together with the register writes it
      performs on the device, in order. */
  datatype SensitivityResult = SensitivityResult(ok: bool, writes: seq<RegisterWrite>)

  /** The sensitivity held in bits 6..4 of a sensitivity control register value. */
  function SensitivityField(value: bv8): (sensitivity: int)
    ensures 0 <= sensitivity <= MAX_SENSITIVITY
  {
    ((value >> 4) & 7) as int
  }

  /** `uint8_t(sensitivity) << 4`: the register value that selects a 3-bit sensitivity. */
  function EncodeSensitivity(sensitivity: int): (value: bv8)
    requires 0 <= sensitivity <= MAX_SENSITIVITY
    ensures value & NON_SENSITIVITY_BITS == 0
    ensures value <= 0x70
    ensures SensitivityField(value) == sensitivity
  {
    (sensitivity as bv8) << 4
  }

  /** `setCapSensitivity`: rejects a value outside 0..7 without touching the
      device, and otherwise writes the encoded value to the sensitivity
      control register once and reports success. */
  function SetCapSensitivity(sensitivity: int): (r: SensitivityResult)
    ensures r.ok <==> 0 <= sensitivity <= MAX_SENSITIVITY
    ensures !r.ok ==> r.writes == []
    ensures r.ok ==> |r.writes| == 1
    ensures r.ok ==> r.writes[0].address == SENSITIVITY_CONTROL_REGISTER
    ensures r.ok ==> r.writes[0].value & NON_SENSITIVITY_BITS == 0
    ensures r.ok ==> SensitivityField(r.writes[0].value) == sensitivity
  {
    if sensitivity < 0 || sensitivity > MAX_SENSITIVITY then
      SensitivityResult(false, [])
    else
      var val := EncodeSensitivity(sensitivity);
      SensitivityResult(true, [RegisterWrite(SENSITIVITY_CONTROL_REGISTER, val)])
  }

  /** A register value with nothing outside the sensitivity field is the
      encoding of the sensitivity it holds: together with the ensures of
      EncodeSensitivity, encoding and decoding are inverse bijections between
      0..7 and those eight register values. */
  lemma EncodeSensitivityField(value: bv8)
    requires value & NON_SENSITIVITY_BITS == 0
    ensures EncodeSensitivity(SensitivityField(value)) == value
  {
    assert value == 0x00 || value == 0x10 || value == 0x20 || value == 0x30
        || value == 0x40 || value == 0x50 || value == 0x60 || value == 0x70;
  }

  /** Distinct accepted sensitivities are written as distinct register values. */
  lemma EncodeSensitivityInjective(s: int, t: int)
    requires 0 <= s <= MAX_SENSITIVITY && 0 <= t <= MAX_SENSITIVITY
    requires EncodeSensitivity(s) == EncodeSensitivity(t)
    ensures s == t
  {
    assert SensitivityField(EncodeSensitivity(s)) == s;
  }

  /** Whether bit `i` of a touched mask is set: `(raw >> i) & 1`. */
  predicate BitSet(raw: bv8, i: nat)
    requires i < CHAR_BIT
  {
    (raw >> i) & 1 == 1
  }

  /** Number of set bits among bits 0..n-1 of `raw`. */
  function CountLowBits(raw: bv8, n: nat): (count: nat)
    requires n <= CHAR_BIT
    ensures count <= n
  {
    if n == 0 then 0 else CountLowBits(raw, n - 1) + (if BitSet(raw, n - 1) then 1 else 0)
  }

  /** Number of set bits of a byte. */
  function PopCount(raw: bv8): nat {
    CountLowBits(raw, CHAR_BIT)
  }

  /** `getNumTouched`: counts the pads whose bit is set in the byte `raw`
      that `touched()` returned. */
  method GetNumTouched(raw: bv8) returns (numTouched: int)
    ensures numTouched == PopCount(raw)
    ensures 0 <= numTouched <= CHAR_BIT
  {
    numTouched := 0;
    for i := 0 to CHAR_BIT
      invariant numTouched == CountLowBits(raw, i)
      invariant numTouched <= i
    {
      if (raw >> i) & 1 == 1 {
        numTouched := numTouched + 1;
      }
    }
  }

  /** The set of touched pads among bits 0..n-1. */
  function TouchedBelow(raw: bv8, n: nat): set<nat>
    requires n <= CHAR_BIT
  {
    set i: nat | i < n && BitSet(raw, i)
  }

  lemma {:induction false} CountLowBitsIsCardinality(raw: bv8, n: nat)
    requires n <= CHAR_BIT
    ensures CountLowBits(raw, n) == |TouchedBelow(raw, n)|
  {
    if n == 0 {
      assert TouchedBelow(raw, 0) == {};
    } else {
      CountLowBitsIsCardinality(raw, n - 1);
      var below := TouchedBelow(raw, n - 1);
      assert n - 1 !in below;
      if BitSet(raw, n - 1) {
        assert TouchedBelow(raw, n) == below + {n - 1};
      } else {
        assert TouchedBelow(raw, n) == below;
      }
    }
  }

  /** The count is the number of pads whose bit is set. */
  lemma PopCountIsTouchedPads(raw: bv8)
    ensures PopCount(raw) == |TouchedBelow(raw, CHAR_BIT)|
  {
    CountLowBitsIsCardinality(raw, CHAR_BIT);
  }

  lemma {:induction false} CountLowBitsZero(raw: bv8, n: nat)
    requires n <= CHAR_BIT
    ensures CountLowBits(raw, n) == 0 <==> forall i :: 0 <= i < n ==> !BitSet(raw, i)
  {
    if n > 0 {
      CountLowBitsZero(raw, n - 1);
    }
  }

  lemma {:induction false} CountLowBitsAll(raw: bv8, n: nat)
    requires n <= CHAR_BIT
    ensures CountLowBits(raw, n) == n <==> forall i :: 0 <= i < n ==> BitSet(raw, i)
  {
    if n > 0 {
      CountLowBitsAll(raw, n - 1);
    }
  }

  /** No pad is counted exactly when the mask is zero, which is the test the
      crossing loop applies to `touched()`. */
  lemma PopCountZero(raw: bv8)
    ensures PopCount(raw) == 0 <==> raw == 0
  {
    CountLowBitsZero(raw, CHAR_BIT);
    if forall i :: 0 <= i < CHAR_BIT ==> !BitSet(raw, i) {
      assert !BitSet(raw, 0) && !BitSet(raw, 1) && !BitSet(raw, 2) && !BitSet(raw, 3);
      assert !BitSet(raw, 4) && !BitSet(raw, 5) && !BitSet(raw, 6) && !BitSet(raw, 7);
    }
  }

  /** All eight pads are counted exactly when the mask is 0xFF. */
  lemma PopCountFull(raw: bv8)
    ensures PopCount(raw) == CHAR_BIT <==> raw == 0xFF
  {
    CountLowBitsAll(raw, CHAR_BIT);
    if forall i :: 0 <= i < CHAR_BIT ==> BitSet(raw, i) {
      assert BitSet(raw, 0) && BitSet(raw, 1) && BitSet(raw, 2) && BitSet(raw, 3);
      assert BitSet(raw, 4) && BitSet(raw, 5) && BitSet(raw, 6) && BitSet(raw, 7);
    }
  }

  /** The count of the mask 0x01 is one. */
  lemma PopCountOne()
    ensures PopCount(0x01) == 1
  {
    assert TouchedBelow(0x01, CHAR_BIT) == {0};
    PopCountIsTouchedPads(0x01);
  }
}
