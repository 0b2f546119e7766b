/** Field updates of a hardware register.

    The drivers rarely write a control register blindly: they read it, replace the bits
    under a mask and write it back (`setreg`, `UartSetBit`, `e1000_set_register_preserve`,
    `e1000_unset_register_preserve`).  This module defines that update on words of any
    width, bit by bit, and says what any sequence of such updates does to each bit.
 */
module MaskedRegister {

  type Byte = b: nat | b < 256

  /** Bit i of a word, bit 0 being the least significant. */
  predicate Bit(w: nat, i: nat)
    decreases i
  {
    if i == 0 then w % 2 == 1 else Bit(w / 2, i - 1)
  }

  /** The C expression `(~mask & reg) | value`. */
  function Field(reg: nat, mask: nat, value: nat): nat
    decreases reg + value
  {
    if reg == 0 && value == 0 then 0
    else
      2 * Field(reg / 2, mask / 2, value / 2)
      + if (mask % 2 == 0 && reg % 2 == 1) || value % 2 == 1 then 1 else 0
  }

  /** `reg | value` and `reg & ~value` are the updates whose mask is the value itself. */
  function Or(reg: nat, value: nat): nat { Field(reg, value, value) }

  function AndNot(reg: nat, value: nat): nat { Field(reg, value, 0) }

  datatype Update = Update(mask: nat, value: nat)

  function Run(r: nat, us: seq<Update>): nat {
    if us == [] then r
    else Field(Run(r, us[..|us| - 1]), us[|us| - 1].mask, us[|us| - 1].value)
  }

  ghost predicate InMask(u: Update) {
    forall i: nat :: Bit(u.value, i) ==> Bit(u.mask, i)
  }

  ghost predicate AllInMask(us: seq<Update>) {
    forall k :: 0 <= k < |us| ==> InMask(us[k])
  }

  // us[k] is the last update that covers bit i.
  ghost predicate LastWriter(us: seq<Update>, i: nat, k: nat) {
    k < |us| && Bit(us[k].mask, i) && forall j :: k < j < |us| ==> !Bit(us[j].mask, i)
  }

  ghost predicate Untouched(us: seq<Update>, i: nat) {
    forall j :: 0 <= j < |us| ==> !Bit(us[j].mask, i)
  }

  /** The update, bit by bit: `(~m & r) | v`. */
  lemma {:induction false} FieldBit(reg: nat, mask: nat, value: nat, i: nat)
    ensures Bit(Field(reg, mask, value), i) == ((!Bit(mask, i) && Bit(reg, i)) || Bit(value, i))
    decreases i
  {
    if reg == 0 && value == 0 {
      ZeroBit(i);
    } else if i > 0 {
      FieldBit(reg / 2, mask / 2, value / 2, i - 1);
    }
  }

  lemma {:induction false} ZeroBit(i: nat)
    ensures !Bit(0, i)
  {
    if i > 0 {
      ZeroBit(i - 1);
    }
  }

  /** `1 << k` has bit k and no other. */
  lemma {:induction false} ShiftedOne(k: nat, i: nat)
    ensures Bit(Pow2(k), i) <==> i == k
    decreases i
  {
    if k == 0 {
      if i > 0 {
        ZeroBit(i - 1);
      }
    } else if i > 0 {
      ShiftedOne(k - 1, i - 1);
    }
  }

  /** A word narrower than k bits has no bit from k on. */
  lemma {:induction false} NoBitAbove(w: nat, k: nat, i: nat)
    requires w < Pow2(k) && i >= k
    ensures !Bit(w, i)
    decreases k
  {
    if k == 0 {
      ZeroBit(i);
    } else {
      NoBitAbove(w / 2, k - 1, i - 1);
    }
  }

  /** Or-ing a bit above the word adds it. */
  lemma {:induction false} OrAbove(w: nat, k: nat)
    requires w < Pow2(k)
    ensures Or(w, Pow2(k)) == w + Pow2(k)
    decreases k
  {
    if k == 0 {
      assert Field(0, 0, 0) == 0;
    } else {
      OrAbove(w / 2, k - 1);
      assert Pow2(k) / 2 == Pow2(k - 1);
    }
  }

  lemma OrBit(reg: nat, value: nat, i: nat)
    ensures Bit(Or(reg, value), i) == (Bit(reg, i) || Bit(value, i))
  {
    FieldBit(reg, value, value, i);
  }

  lemma AndNotBit(reg: nat, value: nat, i: nat)
    ensures Bit(AndNot(reg, value), i) == (Bit(reg, i) && !Bit(value, i))
  {
    FieldBit(reg, value, 0, i);
    ZeroBit(i);
  }

  /** An update never leaves the register's width. */
  lemma {:induction false} FieldWidth(reg: nat, mask: nat, value: nat, width: nat)
    requires reg < Pow2(width) && value < Pow2(width)
    ensures Field(reg, mask, value) < Pow2(width)
    decreases width
  {
    if width > 0 {
      FieldWidth(reg / 2, mask / 2, value / 2, width - 1);
    }
  }

  /** A mask of ones over the whole width replaces the whole register. */
  lemma {:induction false} FieldWhole(reg: nat, value: nat, width: nat)
    requires reg < Pow2(width) && value < Pow2(width)
    ensures Field(reg, Pow2(width) - 1, value) == value
    decreases width
  {
    if width > 0 && (reg != 0 || value != 0) {
      assert (Pow2(width) - 1) / 2 == Pow2(width - 1) - 1;
      FieldWhole(reg / 2, value / 2, width - 1);
    }
  }

  /** The update of an 8-bit register. */
  function FieldByte(reg: Byte, mask: Byte, value: Byte): (b: Byte)
    ensures b == Field(reg, mask, value)
  {
    assert Pow2(8) == 256;
    FieldWidth(reg, mask, value, 8);
    Field(reg, mask, value)
  }

  function Pow2(n: nat): nat {
    if n == 0 then 1 else 2 * Pow2(n - 1)
  }

  /** Words that agree on every bit are equal. */
  lemma {:induction false} SameBits(x: nat, y: nat)
    requires forall i: nat :: Bit(x, i) == Bit(y, i)
    ensures x == y
    decreases x + y
  {
    if x != 0 || y != 0 {
      assert Bit(x, 0) == Bit(y, 0);
      forall i: nat
        ensures Bit(x / 2, i) == Bit(y / 2, i)
      {
        assert Bit(x, i + 1) == Bit(y, i + 1);
      }
      SameBits(x / 2, y / 2);
    }
  }

  /** After any run of updates each bit holds what its last writer put there, or its old value. */
  lemma {:induction false} LastWriterPerBit(r: nat, us: seq<Update>, i: nat)
    requires AllInMask(us)
    ensures forall k: nat :: LastWriter(us, i, k) ==> Bit(Run(r, us), i) == Bit(us[k].value, i)
    ensures Untouched(us, i) ==> Bit(Run(r, us), i) == Bit(r, i)
  {
    if us != [] {
      var front, u := us[..|us| - 1], us[|us| - 1];
      LastWriterPerBit(r, front, i);
      FieldBit(Run(r, front), u.mask, u.value, i);
      assert InMask(u);
      forall k: nat | LastWriter(us, i, k)
        ensures Bit(Run(r, us), i) == Bit(us[k].value, i)
      {
        if k < |front| {
          assert LastWriter(front, i, k);
        }
      }
      if Untouched(us, i) {
        assert Untouched(front, i);
      }
    }
  }

  lemma {:induction false} WrittenOrUntouched(us: seq<Update>, i: nat) returns (k: nat)
    ensures Untouched(us, i) || LastWriter(us, i, k)
  {
    k := 0;
    if us != [] {
      if Bit(us[|us| - 1].mask, i) {
        k := |us| - 1;
      } else {
        k := WrittenOrUntouched(us[..|us| - 1], i);
      }
    }
  }

  ghost predicate PairwiseDisjoint(us: seq<Update>) {
    forall j, k, i: nat :: 0 <= j < k < |us| ==> !(Bit(us[j].mask, i) && Bit(us[k].mask, i))
  }

  ghost predicate SameUpdates(us: seq<Update>, vs: seq<Update>) {
    (forall k :: 0 <= k < |us| ==> us[k] in vs) && (forall k :: 0 <= k < |vs| ==> vs[k] in us)
  }

  /** Updates of disjoint fields may be made in any order, and repeated. */
  lemma DisjointUpdatesCommute(r: nat, us: seq<Update>, vs: seq<Update>)
    requires AllInMask(us) && PairwiseDisjoint(us) && SameUpdates(us, vs)
    ensures Run(r, us) == Run(r, vs)
  {
    assert AllInMask(vs);
    forall i: nat
      ensures Bit(Run(r, us), i) == Bit(Run(r, vs), i)
    {
      LastWriterPerBit(r, us, i);
      LastWriterPerBit(r, vs, i);
      var k := WrittenOrUntouched(vs, i);
      if LastWriter(vs, i, k) {
        var j :| 0 <= j < |us| && us[j] == vs[k];
        assert LastWriter(us, i, j);
      } else {
        assert Untouched(us, i);
      }
    }
    SameBits(Run(r, us), Run(r, vs));
  }

  /** The expression is a field update for every old word exactly when the value lies inside the
      mask; a value outside it is what the table above `setreg` calls an error. */
  lemma FieldUpdateIffInMask(u: Update)
    ensures InMask(u) <==>
            forall r: nat, i: nat ::
              Bit(Field(r, u.mask, u.value), i) == if Bit(u.mask, i) then Bit(u.value, i) else Bit(r, i)
  {
    if InMask(u) {
      forall r: nat, i: nat
        ensures Bit(Field(r, u.mask, u.value), i) == if Bit(u.mask, i) then Bit(u.value, i) else Bit(r, i)
      {
        FieldBit(r, u.mask, u.value, i);
      }
    } else {
      var i: nat :| Bit(u.value, i) && !Bit(u.mask, i);
      FieldBit(0, u.mask, u.value, i);
      ZeroBit(i);
    }
  }
}
