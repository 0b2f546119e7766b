/** Resources of the AC'97 driver: PCI enables, sound cards and chip structures over every run of
    probe and remove, with any call into the kernel failing at any point.

    The class is the driver's code with its goto-based cleanup; it is proved to have, on each path,
    the net effect that Probed states, and the run theorems are about those net effects.
 */
module Ac97 {

  type Device = nat // a struct pci_dev
  type Card = nat
  type Chip = nat

  /** The static dev_idx and the resources the kernel holds for us.  cards gives each live card the
      chips attached to it as low-level devices; chips gives each live chip its PCI device; bound is
      the drvdata of the devices that have a card.  enabled and disabled count the calls to
      pci_enable_device that succeeded and to pci_disable_device; freed lists the chips freed. */
  datatype State = State(devIdx: nat, cards: map<Card, seq<Chip>>, chips: map<Chip, Device>,
                         bound: map<Device, Card>, depth: map<Device, int>, enabled: nat, disabled: nat,
                         freed: seq<Chip>, nextCard: Card, nextChip: Chip)

  /** Which kernel call fails during one probe, if it is reached. */
  datatype Faults = Faults(cardCreate: bool, pciEnable: bool, kzalloc: bool, deviceNew: bool, cardRegister: bool)

  datatype Result = Ok | NoDevice | Disabled | CardFailed | EnableFailed | NoMemory | DeviceFailed | RegisterFailed

  function Depth(s: State, d: Device): int {
    if d in s.depth then s.depth[d] else 0
  }

  function ProbeResult(s: State, enable: seq<bool>, f: Faults): Result {
    if s.devIdx >= |enable| then NoDevice
    else if !enable[s.devIdx] then Disabled
    else if f.cardCreate then CardFailed
    else if f.pciEnable then EnableFailed
    else if f.kzalloc then NoMemory
    else if f.deviceNew then DeviceFailed
    else if f.cardRegister then RegisterFailed
    else Ok
  }

  /** The net effect of a probe: on success one card, one chip and one enable for the device; on any
      failure nothing but the consumed numbers, a balanced enable and disable, and a freed chip. */
  function Probed(s: State, enable: seq<bool>, d: Device, f: Faults): State {
    var r := ProbeResult(s, enable, f);
    match r
    case NoDevice => s
    case Disabled => s.(devIdx := s.devIdx + 1)
    case CardFailed => s
    case EnableFailed => s.(nextCard := s.nextCard + 1)
    case NoMemory => FailedWithoutChip(s, d)
    case DeviceFailed => FailedWithChip(s, d)
    case RegisterFailed => FailedWithChip(s, d)
    case Ok => Succeeded(s, d)
  }

  function Succeeded(s: State, d: Device): State {
    s.(devIdx := s.devIdx + 1, cards := s.cards[s.nextCard := [s.nextChip]], chips := s.chips[s.nextChip := d],
       bound := s.bound[d := s.nextCard], depth := s.depth[d := Depth(s, d) + 1], enabled := s.enabled + 1,
       nextCard := s.nextCard + 1, nextChip := s.nextChip + 1)
  }

  function FailedWithoutChip(s: State, d: Device): State {
    s.(nextCard := s.nextCard + 1, depth := s.depth[d := Depth(s, d)], enabled := s.enabled + 1, disabled := s.disabled + 1)
  }

  function FailedWithChip(s: State, d: Device): State {
    s.(nextCard := s.nextCard + 1, depth := s.depth[d := Depth(s, d)], enabled := s.enabled + 1, disabled := s.disabled + 1,
       nextChip := s.nextChip + 1, freed := s.freed + [s.nextChip])
  }

  /** The net effect of a remove: the device's card, its chip and its enable are gone. */
  function Removed(s: State, d: Device): State
    requires Bound(s, d)
  {
    var card := s.bound[d];
    var chip := s.cards[card][0];
    s.(cards := s.cards - {card}, chips := s.chips - {chip}, bound := s.bound - {d},
       depth := s.depth[d := Depth(s, d) - 1], disabled := s.disabled + 1, freed := s.freed + [chip])
  }

  // ---- The invariant ----

  /** Device d has its card, the card has one chip, and the chip knows the device. */
  ghost predicate Bound(s: State, d: Device) {
    && d in s.bound && s.bound[d] in s.cards && |s.cards[s.bound[d]]| == 1
    && s.cards[s.bound[d]][0] in s.chips && s.chips[s.cards[s.bound[d]][0]] == d
  }

  ghost predicate Freed(s: State, c: Chip) {
    multiset(s.freed)[c] == 1
  }

  /** The structures point at each other as they should. */
  ghost predicate Linked(s: State) {
    && (forall d :: d in s.bound ==> Bound(s, d))
    && (forall d, e :: d in s.bound && e in s.bound && d != e ==> s.bound[d] != s.bound[e])
    && (forall c :: c in s.cards ==> c < s.nextCard)
    && (forall c :: c in s.chips ==> c < s.nextChip)
  }

  ghost predicate Counted(s: State) {
    |s.cards| == |s.bound| && |s.chips| == |s.bound| && s.enabled - s.disabled == |s.bound|
  }

  ghost predicate EnabledOnce(s: State) {
    forall d: Device :: Depth(s, d) == if d in s.bound then 1 else 0
  }

  ghost predicate FreedOnce(s: State) {
    forall c: Chip :: multiset(s.freed)[c] == if c < s.nextChip && c !in s.chips then 1 else 0
  }

  ghost predicate Inv(s: State, slots: nat) {
    s.devIdx <= slots && Linked(s) && Counted(s) && EnabledOnce(s) && FreedOnce(s)
  }

  function Initial(): State {
    State(0, map[], map[], map[], map[], 0, 0, [], 0, 0)
  }

  /** No resource is held and no slot used. */
  ghost predicate Fresh(s: State) {
    && s.devIdx == 0 && s.enabled == 0 && s.disabled == 0 && s.freed == [] && s.nextCard == 0 && s.nextChip == 0
    && s.depth == map[] && s.cards == map[] && s.chips == map[] && s.bound == map[]
  }

  lemma InitialInv(s: State, slots: nat)
    requires Fresh(s)
    ensures Inv(s, slots)
  {
  }

  lemma FreedOrLive(t: State, c: Chip)
    requires FreedOnce(t) && c < t.nextChip
    ensures (c in t.chips <==> c !in t.freed) && (c in t.freed ==> Freed(t, c))
  {
    assert c in t.freed <==> multiset(t.freed)[c] > 0;
  }

  lemma SuccessLinked(s: State, d: Device)
    requires Linked(s) && d !in s.bound
    ensures Linked(Succeeded(s, d))
  {
    var t := Succeeded(s, d);
    assert Bound(t, d);
    forall e | e in t.bound
      ensures Bound(t, e)
    {
      assert e != d ==> Bound(s, e);
    }
    assert forall e :: e in s.bound ==> Bound(s, e);
  }

  lemma SuccessCounted(s: State, d: Device)
    requires Linked(s) && Counted(s) && d !in s.bound
    ensures Counted(Succeeded(s, d))
  {
    var t := Succeeded(s, d);
    assert t.cards.Keys == s.cards.Keys + {s.nextCard} && t.chips.Keys == s.chips.Keys + {s.nextChip};
    assert t.bound.Keys == s.bound.Keys + {d};
    assert |t.cards.Keys| == |s.cards.Keys| + 1 && |t.chips.Keys| == |s.chips.Keys| + 1;
    assert |t.bound.Keys| == |s.bound.Keys| + 1;
  }

  lemma SuccessFreedOnce(s: State, d: Device)
    requires FreedOnce(s)
    ensures FreedOnce(Succeeded(s, d))
  {
  }

  lemma SuccessKeepsInv(s: State, slots: nat, d: Device)
    requires Inv(s, slots) && d !in s.bound && s.devIdx < slots
    ensures Inv(Succeeded(s, d), slots)
  {
    SuccessLinked(s, d);
    SuccessCounted(s, d);
    SuccessFreedOnce(s, d);
    assert EnabledOnce(Succeeded(s, d));
  }

  // Same links, same counts: only numbers used up and a chip freed again.
  lemma FailureKeepsInv(s: State, slots: nat, d: Device, t: State)
    requires Inv(s, slots) && d !in s.bound
    requires || t == s.(nextCard := s.nextCard + 1)
             || t == FailedWithoutChip(s, d)
             || t == FailedWithChip(s, d)
    ensures Inv(t, slots)
  {
    SameLinks(s, t);
    assert EnabledOnce(t);
    assert multiset(s.freed + [s.nextChip]) == multiset(s.freed) + multiset{s.nextChip};
    assert FreedOnce(t);
  }

  lemma SameLinks(s: State, t: State)
    requires Linked(s) && t.cards == s.cards && t.chips == s.chips && t.bound == s.bound
    requires t.nextCard >= s.nextCard && t.nextChip >= s.nextChip
    ensures Linked(t)
  {
    forall e | e in t.bound
      ensures Bound(t, e)
    {
      assert Bound(s, e);
    }
  }

  lemma SkipKeepsInv(s: State, slots: nat)
    requires Inv(s, slots) && s.devIdx < slots
    ensures Inv(s.(devIdx := s.devIdx + 1), slots)
  {
    assert forall d :: d in s.bound ==> Bound(s, d) && Bound(s.(devIdx := s.devIdx + 1), d);
  }

  lemma RemoveLinked(s: State, d: Device)
    requires Linked(s) && d in s.bound
    ensures Bound(s, d) && Linked(Removed(s, d))
  {
    assert Bound(s, d);
    var t := Removed(s, d);
    forall e | e in t.bound
      ensures Bound(t, e)
    {
      assert Bound(s, e);
    }
  }

  lemma RemoveCounted(s: State, d: Device)
    requires Linked(s) && Counted(s) && d in s.bound
    ensures Bound(s, d) && Counted(Removed(s, d))
  {
    assert Bound(s, d);
    var t := Removed(s, d);
    var card, chip := s.bound[d], s.cards[s.bound[d]][0];
    assert t.cards.Keys == s.cards.Keys - {card} && t.chips.Keys == s.chips.Keys - {chip} && t.bound.Keys == s.bound.Keys - {d};
    assert |t.cards.Keys| == |s.cards.Keys| - 1 && |t.chips.Keys| == |s.chips.Keys| - 1;
    assert |t.bound.Keys| == |s.bound.Keys| - 1;
  }

  lemma RemoveFreedOnce(s: State, d: Device)
    requires Linked(s) && FreedOnce(s) && Bound(s, d)
    ensures FreedOnce(Removed(s, d))
  {
    var chip := s.cards[s.bound[d]][0];
    assert multiset(s.freed + [chip]) == multiset(s.freed) + multiset{chip};
  }

  lemma RemoveKeepsInv(s: State, slots: nat, d: Device)
    requires Inv(s, slots) && d in s.bound
    ensures Bound(s, d) && Inv(Removed(s, d), slots)
  {
    RemoveLinked(s, d);
    RemoveCounted(s, d);
    RemoveFreedOnce(s, d);
    assert EnabledOnce(Removed(s, d));
  }

  // ---- Runs ----

  datatype Call = Probe(d: Device, f: Faults) | Remove(d: Device)

  /** The PCI core probes a device that has no driver and removes one that has. */
  ghost predicate Possible(s: State, c: Call) {
    match c
    case Probe(d, _) => d !in s.bound
    case Remove(d) => d in s.bound && Bound(s, d)
  }

  ghost function Next(s: State, enable: seq<bool>, c: Call): State
    requires Possible(s, c)
  {
    match c
    case Probe(d, f) => Probed(s, enable, d, f)
    case Remove(d) => Removed(s, d)
  }

  ghost predicate Reaches(s: State, enable: seq<bool>, calls: seq<Call>, t: State)
    decreases |calls|
  {
    if calls == [] then s == t
    else Possible(s, calls[0]) && Reaches(Next(s, enable, calls[0]), enable, calls[1..], t)
  }

  lemma CallKeepsInv(s: State, enable: seq<bool>, c: Call)
    requires Inv(s, |enable|) && Possible(s, c)
    ensures Inv(Next(s, enable, c), |enable|)
  {
    match c {
      case Probe(d, f) =>
        match ProbeResult(s, enable, f) {
          case Ok => SuccessKeepsInv(s, |enable|, d);
          case EnableFailed => FailureKeepsInv(s, |enable|, d, s.(nextCard := s.nextCard + 1));
          case NoMemory => FailureKeepsInv(s, |enable|, d, FailedWithoutChip(s, d));
          case DeviceFailed => FailureKeepsInv(s, |enable|, d, FailedWithChip(s, d));
          case RegisterFailed => FailureKeepsInv(s, |enable|, d, FailedWithChip(s, d));
          case CardFailed =>
          case NoDevice =>
          case Disabled => SkipKeepsInv(s, |enable|);
        }
      case Remove(d) => RemoveKeepsInv(s, |enable|, d);
    }
  }

  lemma {:induction false} RunKeepsInv(s: State, enable: seq<bool>, calls: seq<Call>, t: State)
    requires Inv(s, |enable|) && Reaches(s, enable, calls, t)
    ensures Inv(t, |enable|)
    decreases |calls|
  {
    if calls != [] {
      CallKeepsInv(s, enable, calls[0]);
      RunKeepsInv(Next(s, enable, calls[0]), enable, calls[1..], t);
    }
  }

  lemma InvFromStart(s: State, enable: seq<bool>, calls: seq<Call>, t: State)
    requires Fresh(s) && Reaches(s, enable, calls, t)
    ensures Inv(t, |enable|)
  {
    InitialInv(s, |enable|);
    RunKeepsInv(s, enable, calls, t);
  }

  /** Conservation: after any run, enables minus disables, live cards and live chips are the same
      number; a device is enabled once or not at all; and every chip ever allocated is either live
      or has been freed exactly once. */
  lemma ResourcesConserved(s: State, enable: seq<bool>, calls: seq<Call>, t: State)
    requires Fresh(s) && Reaches(s, enable, calls, t)
    ensures t.enabled - t.disabled == |t.cards| == |t.chips| == |t.bound|
    ensures forall d: Device :: Depth(t, d) == if d in t.bound then 1 else 0
    ensures forall c: Chip :: c < t.nextChip ==> (c in t.chips <==> c !in t.freed) && (c in t.freed ==> Freed(t, c))
    ensures t.devIdx <= |enable|
  {
    InvFromStart(s, enable, calls, t);
    forall c: Chip | c < t.nextChip
      ensures (c in t.chips <==> c !in t.freed) && (c in t.freed ==> Freed(t, c))
    {
      FreedOrLive(t, c);
    }
  }

  /** Removing everything gives everything back. */
  lemma AllGivenBack(s: State, enable: seq<bool>, calls: seq<Call>, t: State)
    requires Fresh(s) && Reaches(s, enable, calls, t) && t.bound == map[]
    ensures t.cards == map[] && t.chips == map[] && t.enabled == t.disabled
  {
    ResourcesConserved(s, enable, calls, t);
    assert |t.cards.Keys| == 0 && |t.chips.Keys| == 0;
  }

  /** dev_idx never goes back: it counts the successful probes and the skipped slots. */
  ghost function Used(s: State, enable: seq<bool>, calls: seq<Call>): nat
    decreases |calls|
  {
    if calls == [] || !Possible(s, calls[0]) then 0
    else
      (if calls[0].Probe? && ProbeResult(s, enable, calls[0].f) in {Ok, Disabled} then 1 else 0)
      + Used(Next(s, enable, calls[0]), enable, calls[1..])
  }

  lemma {:induction false} IndexCountsSlots(s: State, enable: seq<bool>, calls: seq<Call>, t: State)
    requires Reaches(s, enable, calls, t)
    ensures t.devIdx == s.devIdx + Used(s, enable, calls)
    decreases |calls|
  {
    if calls != [] {
      IndexCountsSlots(Next(s, enable, calls[0]), enable, calls[1..], t);
    }
  }

  /** So slots are not reusable: however many cards have been removed, no more probes succeed over the
      life of the module than it has slots, and once they are used up every probe fails. */
  lemma SlotsAreNotReused(s: State, enable: seq<bool>, calls: seq<Call>, t: State, f: Faults)
    requires Inv(s, |enable|) && s.devIdx == 0 && Reaches(s, enable, calls, t)
    ensures Used(s, enable, calls) <= |enable|
    ensures Used(s, enable, calls) == |enable| <==> ProbeResult(t, enable, f) == NoDevice
  {
    RunKeepsInv(s, enable, calls, t);
    IndexCountsSlots(s, enable, calls, t);
  }

  // ---- What a probe and a remove are for ----

  ghost predicate NoFault(f: Faults) {
    !f.cardCreate && !f.pciEnable && !f.kzalloc && !f.deviceNew && !f.cardRegister
  }

  /** A device gets its card if and only if a free slot is enabled for it and no kernel call fails; then
      it is bound to a new card with a new chip and enabled once.  Otherwise nobody's card, chip,
      binding or enable has changed. */
  lemma ProbeBindsIff(s: State, enable: seq<bool>, d: Device, f: Faults)
    requires Inv(s, |enable|) && d !in s.bound
    ensures var t := Next(s, enable, Probe(d, f));
            && (ProbeResult(s, enable, f) == Ok <==> s.devIdx < |enable| && enable[s.devIdx] && NoFault(f))
            && (ProbeResult(s, enable, f) == Ok ==>
                  && Bound(t, d) && t.bound[d] !in s.cards && t.cards[t.bound[d]][0] !in s.chips
                  && Depth(t, d) == 1 && t.freed == s.freed && t.bound == s.bound[d := t.bound[d]]
                  && t.enabled == s.enabled + 1 && t.disabled == s.disabled)
            && (ProbeResult(s, enable, f) != Ok ==>
                  && t.bound == s.bound && t.cards == s.cards && t.chips == s.chips
                  && t.enabled - t.disabled == s.enabled - s.disabled)
            && (forall e: Device :: e != d || ProbeResult(s, enable, f) != Ok ==> Depth(t, e) == Depth(s, e))
  {
  }

  /** A failing probe names the first kernel call that failed, in the order of the calls. */
  lemma ProbeNamesFailure(s: State, enable: seq<bool>, f: Faults)
    requires s.devIdx < |enable| && enable[s.devIdx]
    ensures var r := ProbeResult(s, enable, f);
            && r != NoDevice && r != Disabled
            && (r == CardFailed <==> f.cardCreate)
            && (r == EnableFailed <==> !f.cardCreate && f.pciEnable)
            && (r == NoMemory <==> !f.cardCreate && !f.pciEnable && f.kzalloc)
            && (r == DeviceFailed <==> !f.cardCreate && !f.pciEnable && !f.kzalloc && f.deviceNew)
            && (r == RegisterFailed <==> !f.cardCreate && !f.pciEnable && !f.kzalloc && !f.deviceNew && f.cardRegister)
  {
  }

  /** With no slot left a probe does nothing; a disabled slot is skipped, and every other failure leaves the
      slot for the next probe. */
  lemma ProbeUsesSlot(s: State, enable: seq<bool>, d: Device, f: Faults)
    ensures ProbeResult(s, enable, f) == NoDevice <==> s.devIdx >= |enable|
    ensures ProbeResult(s, enable, f) == Disabled <==> s.devIdx < |enable| && !enable[s.devIdx]
    ensures s.devIdx >= |enable| ==> Probed(s, enable, d, f) == s
    ensures s.devIdx < |enable| && !enable[s.devIdx] ==> Probed(s, enable, d, f) == s.(devIdx := s.devIdx + 1)
    ensures s.devIdx < |enable| && enable[s.devIdx] ==>
              Probed(s, enable, d, f).devIdx == if NoFault(f) then s.devIdx + 1 else s.devIdx
  {
  }

  /** A remove takes away the device's card, chip, enable and binding, frees the chip once, and leaves every
      other device as it was. */
  lemma RemoveTakesAll(s: State, enable: seq<bool>, d: Device)
    requires Inv(s, |enable|) && Bound(s, d)
    ensures var t := Next(s, enable, Remove(d)); var card, chip := s.bound[d], s.cards[s.bound[d]][0];
            && d !in t.bound && card !in t.cards && chip !in t.chips && Depth(t, d) == 0
            && t.freed == s.freed + [chip] && Freed(t, chip) && t.disabled == s.disabled + 1 && t.enabled == s.enabled
            && |t.bound| == |s.bound| - 1 && t.devIdx == s.devIdx
    ensures forall e: Device :: e in s.bound && e != d ==> SameFor(s, Next(s, enable, Remove(d)), e)
    ensures forall e: Device :: e != d ==> Depth(Next(s, enable, Remove(d)), e) == Depth(s, e)
  {
    var t, chip := Removed(s, d), s.cards[s.bound[d]][0];
    RemoveKeepsInv(s, |enable|, d);
    assert t.bound.Keys == s.bound.Keys - {d};
    assert |t.bound.Keys| == |s.bound.Keys| - 1;
    assert multiset(t.freed)[chip] == 1;
    forall e: Device | e in s.bound && e != d
      ensures SameFor(s, t, e)
    {
      assert Bound(s, e);
    }
  }

  /** Device e has the card, chip and enable it had. */
  ghost predicate SameFor(s: State, t: State, e: Device) {
    Bound(s, e) && Bound(t, e) && t.bound[e] == s.bound[e] && t.cards[t.bound[e]] == s.cards[s.bound[e]] && Depth(t, e) == Depth(s, e)
  }

  /** A remove undoes a probe: nothing is left of it but the slot it used and the chip it freed. */
  lemma RemoveUndoesProbe(s: State, enable: seq<bool>, d: Device, f: Faults)
    requires Inv(s, |enable|) && d !in s.bound && ProbeResult(s, enable, f) == Ok
    ensures var m := Next(s, enable, Probe(d, f));
            && Bound(m, d)
            && var t := Next(m, enable, Remove(d));
               && t.cards == s.cards && t.chips == s.chips && t.bound == s.bound
               && t.freed == s.freed + [s.nextChip] && t.devIdx == s.devIdx + 1
               && t.enabled - t.disabled == s.enabled - s.disabled && Depth(t, d) == Depth(s, d)
  {
    assert s.cards[s.nextCard := [s.nextChip]] - {s.nextCard} == s.cards;
    assert s.chips[s.nextChip := d] - {s.nextChip} == s.chips;
    assert s.bound[d := s.nextCard] - {d} == s.bound;
  }

  /** From every state the driver can be in, removing the devices one after the other gives everything back. */
  lemma RemovingAllGivesBack(s: State, enable: seq<bool>) returns (calls: seq<Call>, t: State)
    requires Inv(s, |enable|)
    ensures Reaches(s, enable, calls, t) && |calls| == |s.bound| && AllRemoves(calls)
    ensures t.bound == map[] && t.cards == map[] && t.chips == map[] && t.enabled == t.disabled
  {
    calls, t := RemovingAll(s, enable, |s.bound|);
    RunKeepsInv(s, enable, calls, t);
    NothingBound(t, |enable|);
  }

  ghost predicate AllRemoves(calls: seq<Call>) {
    forall k :: 0 <= k < |calls| ==> calls[k].Remove?
  }

  lemma {:induction false} RemovingAll(s: State, enable: seq<bool>, n: nat) returns (calls: seq<Call>, t: State)
    requires Inv(s, |enable|) && |s.bound| == n
    ensures Reaches(s, enable, calls, t) && |t.bound| == 0 && |calls| == n && AllRemoves(calls)
    decreases n
  {
    if n == 0 {
      calls, t := [], s;
    } else {
      var d, m := RemoveOne(s, enable);
      var rest;
      rest, t := RemovingAll(m, enable, n - 1);
      calls := [Remove(d)] + rest;
    }
  }

  lemma OneMoreCall(s: State, enable: seq<bool>, c: Call, m: State, rest: seq<Call>, t: State)
    requires Possible(s, c) && m == Next(s, enable, c) && Reaches(m, enable, rest, t)
    ensures Reaches(s, enable, [c] + rest, t)
  {
    assert ([c] + rest)[1..] == rest;
  }

  lemma RemoveOne(s: State, enable: seq<bool>) returns (d: Device, m: State)
    requires Inv(s, |enable|) && |s.bound| > 0
    ensures Inv(m, |enable|) && |m.bound| == |s.bound| - 1
    ensures forall rest, t :: Reaches(m, enable, rest, t) ==> Reaches(s, enable, [Remove(d)] + rest, t)
  {
    d :| d in s.bound;
    RemoveKeepsInv(s, |enable|, d);
    RemoveTakesAll(s, enable, d);
    m := Next(s, enable, Remove(d));
    forall rest, t | Reaches(m, enable, rest, t)
      ensures Reaches(s, enable, [Remove(d)] + rest, t)
    {
      OneMoreCall(s, enable, Remove(d), m, rest, t);
    }
  }

  lemma NothingBound(s: State, slots: nat)
    requires Inv(s, slots) && |s.bound| == 0
    ensures s.bound == map[] && s.cards == map[] && s.chips == map[] && s.enabled == s.disabled
  {
    assert |s.bound.Keys| == 0 && |s.cards.Keys| == 0 && |s.chips.Keys| == 0;
  }

  // ---- The driver's code ----

  // What the single calls do to the state.

  function PciEnabled(s: State, d: Device): State {
    s.(depth := s.depth[d := Depth(s, d) + 1], enabled := s.enabled + 1)
  }

  function PciDisabled(s: State, d: Device): State {
    s.(depth := s.depth[d := Depth(s, d) - 1], disabled := s.disabled + 1)
  }

  function CardCreated(s: State): State {
    s.(cards := s.cards[s.nextCard := []], nextCard := s.nextCard + 1)
  }

  function ChipFreed(s: State, chip: Chip): State
    requires chip in s.chips
  {
    var t := PciDisabled(s, s.chips[chip]);
    t.(chips := t.chips - {chip}, freed := t.freed + [chip])
  }

  predicate Freeable(s: State, card: Card) {
    card in s.cards && |s.cards[card]| <= 1 && (|s.cards[card]| == 1 ==> s.cards[card][0] in s.chips)
  }

  function CardFreed(s: State, card: Card): State
    requires Freeable(s, card)
  {
    var t := if |s.cards[card]| == 1 then ChipFreed(s, s.cards[card][0]) else s;
    t.(cards := t.cards - {card})
  }

  /** A chip of ours on the card, its device enabled. */
  function ChipCreated(s: State, card: Card, d: Device): State {
    var t := PciEnabled(s, d);
    t.(chips := t.chips[t.nextChip := d], nextChip := t.nextChip + 1, cards := t.cards[card := [t.nextChip]])
  }

  /** Enabling and disabling again, and freeing a card that has no chip, leave the state of the failure. */
  lemma CardUndone(s: State, d: Device)
    requires s.nextCard !in s.cards
    ensures CardFreed(CardCreated(s), s.nextCard) == s.(nextCard := s.nextCard + 1)
    ensures CardFreed(PciDisabled(PciEnabled(CardCreated(s), d), d), s.nextCard) == FailedWithoutChip(s, d)
  {
    assert s.cards[s.nextCard := []] - {s.nextCard} == s.cards;
    assert s.depth[d := Depth(s, d) + 1][d := Depth(s, d)] == s.depth[d := Depth(s, d)];
  }

  /** A chip that never reached the card is freed directly. */
  lemma ChipUndone(s: State, d: Device)
    requires s.nextCard !in s.cards && s.nextChip !in s.chips
    ensures var t := PciEnabled(CardCreated(s), d);
            var u := t.(chips := t.chips[t.nextChip := d], nextChip := t.nextChip + 1);
            CardFreed(ChipFreed(u, s.nextChip), s.nextCard) == FailedWithChip(s, d)
  {
    assert s.cards[s.nextCard := []] - {s.nextCard} == s.cards;
    assert s.chips[s.nextChip := d] - {s.nextChip} == s.chips;
    assert s.depth[d := Depth(s, d) + 1][d := Depth(s, d)] == s.depth[d := Depth(s, d)];
  }

  /** A chip on the card is freed once, by the card. */
  lemma RegistrationUndone(s: State, d: Device)
    requires s.nextCard !in s.cards && s.nextChip !in s.chips
    ensures var t := ChipCreated(CardCreated(s), s.nextCard, d);
            Freeable(t, s.nextCard) && CardFreed(t, s.nextCard) == FailedWithChip(s, d)
  {
    assert s.cards[s.nextCard := []][s.nextCard := [s.nextChip]] - {s.nextCard} == s.cards;
    assert s.chips[s.nextChip := d] - {s.nextChip} == s.chips;
    assert s.depth[d := Depth(s, d) + 1][d := Depth(s, d)] == s.depth[d := Depth(s, d)];
  }

  lemma SuccessAdds(s: State, d: Device)
    ensures ChipCreated(CardCreated(s), s.nextCard, d) == Succeeded(s, d).(devIdx := s.devIdx, bound := s.bound)
  {
    assert s.cards[s.nextCard := []][s.nextCard := [s.nextChip]] == s.cards[s.nextCard := [s.nextChip]];
  }

  class Driver {
    const enable: seq<bool> // rtx_ac97_enable
    var s: State

    constructor (table: seq<bool>)
      ensures enable == table && s == Initial() && Fresh(s)
    {
      enable := table;
      s := Initial();
    }

    // -- what the kernel does for us --

    method PciEnable(d: Device)
      modifies this
      ensures s == PciEnabled(old(s), d)
    {
      s := s.(depth := s.depth[d := Depth(s, d) + 1], enabled := s.enabled + 1);
    }

    method PciDisable(d: Device)
      modifies this
      ensures s == PciDisabled(old(s), d)
    {
      s := s.(depth := s.depth[d := Depth(s, d) - 1], disabled := s.disabled + 1);
    }

    method CardCreate() returns (card: Card)
      modifies this
      ensures card == old(s).nextCard && s == CardCreated(old(s))
    {
      card := s.nextCard;
      s := s.(cards := s.cards[card := []], nextCard := card + 1);
    }

    // -- rtx_ac97.c --

    /** `rtx_ac97_free` */
    method Free(chip: Chip)
      requires chip in s.chips
      modifies this
      ensures s == ChipFreed(old(s), chip)
    {
      PciDisable(s.chips[chip]);
      s := s.(chips := s.chips - {chip}, freed := s.freed + [chip]);
    }

    /** snd_card_free runs the destructor of the attached chip, if there is one, and drops the card. */
    method CardFree(card: Card)
      requires Freeable(s, card)
      modifies this
      ensures s == CardFreed(old(s), card)
    {
      if |s.cards[card]| == 1 {
        Free(s.cards[card][0]);
      }
      s := s.(cards := s.cards - {card});
    }

    /** `rtx_ac97_create`: on failure the enable is undone and no chip is left. */
    method Create(card: Card, d: Device, f: Faults) returns (err: Result)
      requires s.nextChip !in s.chips
      modifies this
      ensures err == if f.pciEnable then EnableFailed else if f.kzalloc then NoMemory else if f.deviceNew then DeviceFailed else Ok
      ensures err == EnableFailed ==> s == old(s)
      ensures err == NoMemory ==> s == PciDisabled(PciEnabled(old(s), d), d)
      ensures err == DeviceFailed ==>
                var t := PciEnabled(old(s), d);
                s == ChipFreed(t.(chips := t.chips[t.nextChip := d], nextChip := t.nextChip + 1), t.nextChip)
      ensures err == Ok ==> s == ChipCreated(old(s), card, d)
    {
      if f.pciEnable {
        return EnableFailed;
      }
      PciEnable(d);
      if f.kzalloc {
        PciDisable(d);
        return NoMemory;
      }
      var chip := s.nextChip;
      s := s.(chips := s.chips[chip := d], nextChip := chip + 1);
      if f.deviceNew {
        Free(chip);
        return DeviceFailed;
      }
      s := s.(cards := s.cards[card := [chip]]);
      return Ok;
    }

    /** Steps 2 to 6 of the probe: a card with our chip, registered, or nothing. */
    method MakeCard(d: Device, f: Faults) returns (err: Result, card: Card)
      requires s.nextChip !in s.chips && s.nextCard !in s.cards && !f.cardCreate
      modifies this
      ensures err == if f.pciEnable then EnableFailed else if f.kzalloc then NoMemory
                     else if f.deviceNew then DeviceFailed else if f.cardRegister then RegisterFailed else Ok
      ensures card == old(s).nextCard
      ensures s == match err
                   case EnableFailed => old(s).(nextCard := old(s).nextCard + 1)
                   case NoMemory => FailedWithoutChip(old(s), d)
                   case Ok => Succeeded(old(s), d).(devIdx := old(s).devIdx, bound := old(s).bound)
                   case _ => FailedWithChip(old(s), d)
    {
      CardUndone(s, d);
      ChipUndone(s, d);
      RegistrationUndone(s, d);
      SuccessAdds(s, d);
      card := CardCreate();
      err := Create(card, d, f);
      if err == Ok && f.cardRegister {
        err := RegisterFailed;
      }
      if err != Ok {
        CardFree(card);
      }
    }

    method ProbeDevice(d: Device, f: Faults) returns (err: Result)
      requires s.nextChip !in s.chips && s.nextCard !in s.cards
      modifies this
      ensures err == ProbeResult(old(s), enable, f)
      ensures s == Probed(old(s), enable, d, f)
    {
      if s.devIdx >= |enable| {
        return NoDevice;
      }
      if !enable[s.devIdx] {
        s := s.(devIdx := s.devIdx + 1);
        return Disabled;
      }
      if f.cardCreate {
        return CardFailed;
      }
      var card;
      err, card := MakeCard(d, f);
      if err != Ok {
        return;
      }
      s := s.(bound := s.bound[d := card]);
      s := s.(devIdx := s.devIdx + 1);
    }

    method RemoveDevice(d: Device)
      requires Bound(s, d)
      modifies this
      ensures s == Removed(old(s), d)
    {
      CardFree(s.bound[d]);
      s := s.(bound := s.bound - {d});
    }
  }
}
