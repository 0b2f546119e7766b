/** The MAC address: three EEPROM words, read by polling, into the receive-address registers. */
module MacAddress {
  import opened MaskedRegister

  const EEPROM_DONE: nat := 4 // bit number
  const RAH_AV: nat := 31
  const MAX_ADDR_LEN: nat := 32

  type Half = h: nat | h < 65536

  datatype Words = Words(w0: Half, w1: Half, w2: Half)

  /** How the device answers one read request: some readings of the register while it is busy, then
      one with the done bit set and the word in the upper half. */
  datatype Answer = Answer(busy: seq<nat>, word: Half, low: Half)

  ghost predicate DeviceAnswer(a: Answer) {
    Bit(a.low, 4) && forall k :: 0 <= k < |a.busy| ==> a.busy[k] < Pow2(32) && !Bit(a.busy[k], 4)
  }

  /** The register value that starts a read of one EEPROM word. */
  function Request(addr: nat): nat { addr * 256 + 1 }

  /** The EEPROM answers a request with the word at the address it names. */
  ghost predicate Holding(eeprom: nat -> Answer, w: Words) {
    && DeviceAnswer(eeprom(0x001)) && eeprom(0x001).word == w.w0
    && DeviceAnswer(eeprom(0x101)) && eeprom(0x101).word == w.w1
    && DeviceAnswer(eeprom(0x201)) && eeprom(0x201).word == w.w2
  }

  function Word(w: Words, i: nat): Half
    requires i < 3
  {
    if i == 0 then w.w0 else if i == 1 then w.w1 else w.w2
  }

  function Reading(a: Answer, i: nat): nat
    requires i <= |a.busy|
  {
    if i < |a.busy| then a.busy[i] else a.word * 65536 + a.low
  }

  /** The register's value as the C code holds it, in a 32-bit int. */
  function AsInt(v: nat): int {
    if v < 0x8000_0000 then v else v - 0x1_0000_0000
  }

  /** `res >> 16` on that int: an arithmetic shift, which keeps the sign. */
  function Shift16(res: int): int {
    res / 65536
  }

  /** A value and a multiple of 32 more have the same done bit. */
  lemma DoneBitIsLow(word: nat, low: nat)
    ensures Bit(word * 65536 + low, EEPROM_DONE) == Bit(low, EEPROM_DONE)
  {
    var v := word * 65536 + low;
    assert v / 2 == word * 32768 + low / 2;
    assert v / 2 / 2 == word * 16384 + low / 2 / 2;
    assert v / 2 / 2 / 2 == word * 8192 + low / 2 / 2 / 2;
    assert v / 2 / 2 / 2 / 2 == word * 4096 + low / 2 / 2 / 2 / 2;
  }

  /** The polling loop returns the word in the low half, above it copies of the sign bit. */
  method ReadEeprom(a: Answer) returns (res: int)
    requires DeviceAnswer(a)
    ensures res == if a.word < 0x8000 then a.word else a.word - 0x10000
  {
    DoneBitIsLow(a.word, a.low);
    var i := 0;
    var reg := Reading(a, 0);
    while !Bit(reg, EEPROM_DONE)
      invariant 0 <= i <= |a.busy| && reg == Reading(a, i)
      decreases |a.busy| - i
    {
      i := i + 1;
      reg := Reading(a, i);
    }
    assert reg == a.word * 65536 + a.low;
    res := Shift16(AsInt(reg));
  }

  /** The six bytes of the address, low byte of each word first. */
  function AddressBytes(w: Words): seq<Byte> {
    [w.w0 % 256, w.w0 / 256, w.w1 % 256, w.w1 / 256, w.w2 % 256, w.w2 / 256]
  }

  function Ral(w: Words): nat { w.w0 + 0x10000 * w.w1 }

  function Rah(w: Words): nat { w.w2 + Pow2(RAH_AV) }

  /** What the device takes from the two registers. */
  function Decode(ral: nat, rah: nat): (seq<nat>, bool) {
    ([ral % 256, ral / 256 % 256, ral / 65536 % 256, ral / 0x100_0000 % 256, rah % 256, rah / 256 % 256],
     rah >= Pow2(RAH_AV))
  }

  ghost predicate Holds(lo: nat, hi: nat, word: Half) {
    lo == word % 256 && hi == word / 256
  }

  lemma SignDoesNotMatter(word: Half, tmp: int)
    requires tmp == if word < 0x8000 then word else word - 0x10000
    ensures Holds(tmp % 256, tmp / 256 % 256, word)
  {
  }

  /** A little-endian load of two bytes. */
  function Load16(lo: nat, hi: nat): nat { lo + 256 * hi }

  lemma TopBit()
    ensures Pow2(RAH_AV) == 0x8000_0000
  {
    assert Pow2(8) == 256;
    assert Pow2(16) == 0x1_0000;
    assert Pow2(24) == 0x100_0000;
  }

  lemma ValidBit(h: Half)
    ensures Or(h, Pow2(RAH_AV)) == h + Pow2(RAH_AV)
  {
    TopBit();
    OrAbove(h, RAH_AV);
  }

  lemma LowBytes(lo: Half, rest: nat)
    ensures (lo + 0x10000 * rest) % 256 == lo % 256
    ensures (lo + 0x10000 * rest) / 256 % 256 == lo / 256
    ensures (lo + 0x10000 * rest) / 0x10000 == rest
  {
    assert (lo + 0x10000 * rest) / 256 == lo / 256 + 256 * rest;
  }


  /** The device recovers exactly those six bytes, and finds the address marked valid. */
  lemma DeviceSeesAddress(w: Words)
    ensures Decode(Ral(w), Rah(w)) == (AddressBytes(w), true)
    ensures AddressBytes(w) == [w.w0 % 256, w.w0 / 256, w.w1 % 256, w.w1 / 256, w.w2 % 256, w.w2 / 256]
  {
    TopBit();
    LowBytes(w.w0, w.w1);
    UpperBytes(Ral(w), w.w1);
    LowBytes(w.w2, 0x8000);
  }

  lemma UpperBytes(v: nat, hi: Half)
    requires v / 0x10000 == hi
    ensures v / 0x100_0000 % 256 == hi / 256
  {
    assert v / 0x100_0000 == hi / 256;
  }
}
