/** Interrupt causes between the handler and the tasklet.

    The handler reads ICR, which clears it, adds the causes to `waiting_intr` and schedules the
    tasklet; the tasklet answers the causes it finds there and clears the word.  Opening the card
    initialises the tasklet, which forgets that it was scheduled, and leaves the word alone.
    Conservation of causes is proved for runs where handler and tasklet run whole, over any number
    of opens and closes; WindowLosesUnlessKnown says exactly what is lost when a handler runs
    between the tasklet's tests.
 */
module Interrupts {
  import opened MaskedRegister

  // Bit numbers of the causes (e1000.h).
  const IMS_TXDW: nat := 0
  const IMS_TXQE: nat := 1
  const IMS_LSC: nat := 2
  const IMS_RX0: nat := 6
  const IMS_RXT0: nat := 7

  datatype Kind = PacketReceived | PacketSent | LinkChanged

  /** What one run of the tasklet does. */
  type Actions = set<Kind>

  predicate Asks(causes: nat, kind: Kind) {
    match kind
    case PacketReceived => Bit(causes, IMS_RX0) || Bit(causes, IMS_RXT0)
    case PacketSent => Bit(causes, IMS_TXDW) || Bit(causes, IMS_TXQE)
    case LinkChanged => Bit(causes, IMS_LSC)
  }

  function Answered(causes: nat): Actions {
    (if Asks(causes, PacketReceived) then {PacketReceived} else {})
    + (if Asks(causes, PacketSent) then {PacketSent} else {})
    + (if Asks(causes, LinkChanged) then {LinkChanged} else {})
  }

  /** icr: causes the device has raised; waiting: `waiting_intr`; registered: the handler is; enabled:
      the tasklet has been initialised and not disabled since. */
  datatype State = State(icr: nat, waiting: nat, scheduled: bool, registered: bool, enabled: bool)

  function AfterHandler(s: State): State {
    if s.icr == 0 then s else s.(icr := 0, waiting := Or(s.waiting, s.icr), scheduled := true)
  }

  function AfterTasklet(s: State): (State, Actions) {
    if s.waiting == 0 then (s.(scheduled := false), {})
    else (s.(scheduled := false, waiting := 0), Answered(s.waiting))
  }

  /** `init_interrupt` and `uninit_interrupt`. */
  function AfterInit(s: State, irqOk: bool): State {
    s.(scheduled := false, registered := irqOk, enabled := true)
  }

  function AfterUninit(s: State): State {
    s.(registered := false, enabled := false)
  }

  // ---- Runs ----

  datatype Step = Raise(causes: nat) | Handler | Tasklet | Init(irqOk: bool) | Uninit

  /** One finished run of the tasklet: the ICR values read since the run before, and its actions. */
  datatype Batch = Batch(seen: seq<nat>, actions: Actions)

  datatype System = System(state: State, log: seq<nat>, batches: seq<Batch>, unanswered: seq<nat>)

  /** The kernel calls a handler that is registered, and runs a tasklet that is scheduled and enabled. */
  predicate Enabled(s: System, step: Step) {
    match step
    case Raise(_) => true
    case Handler => s.state.registered
    case Tasklet => s.state.scheduled && s.state.enabled
    case Init(_) => !s.state.registered
    case Uninit => s.state.registered
  }

  function Next(s: System, step: Step): System {
    match step
    case Raise(c) => s.(state := s.state.(icr := Or(s.state.icr, c)))
    case Handler =>
      if s.state.icr == 0 then s
      else s.(state := AfterHandler(s.state), log := s.log + [s.state.icr], unanswered := s.unanswered + [s.state.icr])
    case Tasklet =>
      var (t, actions) := AfterTasklet(s.state);
      System(t, s.log, s.batches + [Batch(s.unanswered, actions)], [])
    case Init(irqOk) => s.(state := AfterInit(s.state, irqOk))
    case Uninit => s.(state := AfterUninit(s.state))
  }

  ghost predicate Reaches(s: System, steps: seq<Step>, t: System)
    decreases |steps|
  {
    if steps == [] then s == t else Enabled(s, steps[0]) && Reaches(Next(s, steps[0]), steps[1..], t)
  }

  function OrAll(xs: seq<nat>): nat {
    if xs == [] then 0 else Or(OrAll(xs[..|xs| - 1]), xs[|xs| - 1])
  }

  function Reads(bs: seq<Batch>): seq<nat> {
    if bs == [] then [] else Reads(bs[..|bs| - 1]) + bs[|bs| - 1].seen
  }

  /** A batch is answered when the tasklet acted on each kind of event that some read reported, and on
      no other. */
  ghost predicate Right(b: Batch) {
    forall kind :: kind in b.actions <==> exists k :: 0 <= k < |b.seen| && Asks(b.seen[k], kind)
  }

  /** Every cause read is in an answered batch or in the word, and nothing else is. */
  ghost predicate Accounted(s: System) {
    && s.log == Reads(s.batches) + s.unanswered
    && s.state.waiting == OrAll(s.unanswered)
    && (s.state.registered ==> s.state.enabled)
    && (forall k :: 0 <= k < |s.batches| ==> Right(s.batches[k]))
  }

  /** What is in the word will be answered: the tasklet is scheduled. */
  predicate Promised(s: System) {
    s.state.waiting != 0 ==> s.state.scheduled
  }

  ghost predicate Initial(s: System) {
    !s.state.registered && !s.state.enabled && s.state.waiting == 0 && s.log == [] && s.batches == [] && s.unanswered == []
  }

  // Some word of xs has bit i.
  ghost predicate Reported(xs: seq<nat>, i: nat) {
    exists k :: 0 <= k < |xs| && Bit(xs[k], i)
  }

  lemma ReportedConcat(xs: seq<nat>, ys: seq<nat>, i: nat)
    ensures Reported(xs + ys, i) <==> Reported(xs, i) || Reported(ys, i)
  {
    var zs := xs + ys;
    if k :| 0 <= k < |zs| && Bit(zs[k], i) {
      assert if k < |xs| then Bit(xs[k], i) else Bit(ys[k - |xs|], i);
    }
    if k :| 0 <= k < |xs| && Bit(xs[k], i) {
      assert Bit(zs[k], i);
    }
    if k :| 0 <= k < |ys| && Bit(ys[k], i) {
      assert Bit(zs[|xs| + k], i);
    }
  }

  lemma {:induction false} OrAllBit(xs: seq<nat>, i: nat)
    ensures Bit(OrAll(xs), i) <==> Reported(xs, i)
  {
    if xs == [] {
      ZeroBit(i);
    } else {
      var n := |xs| - 1;
      OrAllBit(xs[..n], i);
      OrBit(OrAll(xs[..n]), xs[n], i);
      ReportedConcat(xs[..n], [xs[n]], i);
      assert xs == xs[..n] + [xs[n]];
      assert Reported([xs[n]], i) <==> Bit([xs[n]][0], i);
    }
  }

  lemma OrAllAsks(xs: seq<nat>, kind: Kind)
    ensures Asks(OrAll(xs), kind) <==> exists k :: 0 <= k < |xs| && Asks(xs[k], kind)
  {
    OrAllBit(xs, IMS_TXDW);
    OrAllBit(xs, IMS_TXQE);
    OrAllBit(xs, IMS_LSC);
    OrAllBit(xs, IMS_RX0);
    OrAllBit(xs, IMS_RXT0);
  }

  lemma ZeroAsksNothing(kind: Kind)
    ensures !Asks(0, kind)
  {
    ZeroBit(IMS_TXDW);
    ZeroBit(IMS_TXQE);
    ZeroBit(IMS_LSC);
    ZeroBit(IMS_RX0);
    ZeroBit(IMS_RXT0);
  }

  lemma TaskletAnswers(s: System)
    requires Accounted(s)
    ensures Right(Batch(s.unanswered, AfterTasklet(s.state).1))
  {
    var b := Batch(s.unanswered, AfterTasklet(s.state).1);
    forall kind
      ensures kind in b.actions <==> exists k :: 0 <= k < |b.seen| && Asks(b.seen[k], kind)
    {
      OrAllAsks(s.unanswered, kind);
      ZeroAsksNothing(kind);
      assert kind in Answered(s.state.waiting) <==> Asks(s.state.waiting, kind);
    }
  }

  /** Which events the tasklet reports for each word, by the bit numbers of the cause register: 6 and 7 for
      a received packet, 0 and 1 for a sent one, 2 for the link. */
  lemma TaskletActions(s: State)
    ensures var actions := AfterTasklet(s).1;
            && (PacketReceived in actions <==> Bit(s.waiting, 6) || Bit(s.waiting, 7))
            && (PacketSent in actions <==> Bit(s.waiting, 0) || Bit(s.waiting, 1))
            && (LinkChanged in actions <==> Bit(s.waiting, 2))
    ensures AfterTasklet(s).0 == s.(waiting := 0, scheduled := false)
  {
    ZeroBit(0);
    ZeroBit(1);
    ZeroBit(2);
    ZeroBit(6);
    ZeroBit(7);
  }

  lemma HandlerAccounts(s: System)
    requires Accounted(s)
    ensures Accounted(Next(s, Handler))
  {
    if s.state.icr != 0 {
      var t := Next(s, Handler);
      assert t.unanswered[..|s.unanswered|] == s.unanswered;
      assert t.state.waiting == OrAll(t.unanswered);
      assert s.log + [s.state.icr] == Reads(s.batches) + (s.unanswered + [s.state.icr]);
    }
  }

  lemma TaskletAccounts(s: System)
    requires Accounted(s)
    ensures Accounted(Next(s, Tasklet))
  {
    var t := Next(s, Tasklet);
    TaskletAnswers(s);
    assert t.batches[..|s.batches|] == s.batches;
    assert Reads(t.batches) == Reads(s.batches) + s.unanswered;
    assert OrAll([]) == 0;
  }

  lemma StepAccounts(s: System, step: Step)
    requires Accounted(s) && Enabled(s, step)
    ensures Accounted(Next(s, step))
  {
    match step {
      case Handler => HandlerAccounts(s);
      case Tasklet => TaskletAccounts(s);
      case _ =>
    }
  }

  /** Every cause read from ICR is either answered by the tasklet run that follows or still waiting;
      nothing is answered that was not read.  Opens and closes do not change that. */
  lemma {:induction false} CausesConserved(s: System, steps: seq<Step>, t: System)
    requires Accounted(s) && Reaches(s, steps, t)
    ensures Accounted(t)
    decreases |steps|
  {
    if steps != [] {
      StepAccounts(s, steps[0]);
      CausesConserved(Next(s, steps[0]), steps[1..], t);
    }
  }

  /** From the start: a cause bit was ever read if and only if it was in an answered batch or waits. */
  lemma NoCauseLost(s: System, steps: seq<Step>, t: System, i: nat)
    requires Initial(s) && Reaches(s, steps, t)
    ensures Reported(t.log, i) <==> Reported(Reads(t.batches), i) || Bit(t.state.waiting, i)
    ensures CleanInits(s, steps) ==> Promised(t)
  {
    CausesConserved(s, steps, t);
    PromisedIff(s, steps, t);
    OrAllBit(t.unanswered, i);
    ReportedConcat(Reads(t.batches), t.unanswered, i);
  }

  // ---- Waiting causes and a scheduled tasklet ----

  /** When what waits is sure to be answered, step by step.  An open breaks the promise exactly when causes
      wait; once broken only a handler that reads another cause restores it. */
  lemma PromiseStep(s: System, step: Step)
    requires Enabled(s, step)
    ensures Promised(Next(s, step)) <==>
            || (step.Handler? && s.state.icr != 0)
            || (if step.Init? then s.state.waiting == 0 else Promised(s))
  {
  }

  /** Every initialisation of a run meets an empty word. */
  ghost predicate CleanInits(s: System, steps: seq<Step>)
    decreases |steps|
  {
    steps == [] || ((steps[0].Init? ==> s.state.waiting == 0) && CleanInits(Next(s, steps[0]), steps[1..]))
  }

  ghost predicate PromisedThroughout(s: System, steps: seq<Step>)
    decreases |steps|
  {
    Promised(s) && (steps == [] || PromisedThroughout(Next(s, steps[0]), steps[1..]))
  }

  /** Waiting causes always find the tasklet scheduled if and only if no open finds causes waiting. */
  lemma {:induction false} PromisedIff(s: System, steps: seq<Step>, t: System)
    requires Promised(s) && Reaches(s, steps, t)
    ensures PromisedThroughout(s, steps) <==> CleanInits(s, steps)
    ensures CleanInits(s, steps) ==> Promised(t)
    decreases |steps|
  {
    if steps != [] {
      PromiseStep(s, steps[0]);
      if Promised(Next(s, steps[0])) {
        PromisedIff(Next(s, steps[0]), steps[1..], t);
      }
    }
  }

  /** A cause read just before a close is not answered after the next open: the word still holds it, the
      tasklet is enabled and not scheduled. */
  lemma ReopenStrandsCauses(s: System, causes: nat) returns (t: System)
    requires Initial(s) && s.state.icr == 0 && causes > 0
    ensures Reaches(s, [Init(true), Raise(causes), Handler, Uninit, Init(true)], t)
    ensures t.log == [causes] && t.batches == [] && t.state.waiting != 0
    ensures t.state.registered && t.state.enabled && !t.state.scheduled && !Enabled(t, Tasklet)
  {
    OrZero(causes);
    var s1 := Next(s, Init(true));
    var s2 := Next(s1, Raise(causes));
    assert s2.state.icr == Or(0, causes) == causes;
    var s3 := Next(s2, Handler);
    var s4 := Next(s3, Uninit);
    t := Next(s4, Init(true));
    var steps := [Init(true), Raise(causes), Handler, Uninit, Init(true)];
    assert steps[1..] == [Raise(causes), Handler, Uninit, Init(true)];
    assert steps[1..][1..] == [Handler, Uninit, Init(true)];
    assert steps[1..][1..][1..] == [Uninit, Init(true)];
    assert steps[1..][1..][1..][1..] == [Init(true)];
    assert steps[1..][1..][1..][1..][1..] == [];
    assert Reaches(s3, [Uninit, Init(true)], t);
  }

  lemma {:induction false} OrZero(n: nat)
    ensures Or(0, n) == n
  {
    if n != 0 {
      OrZero(n / 2);
    }
  }

  // ---- The tasklet is not atomic ----

  /** The order of the tasklet's three tests. */
  function Test(kind: Kind): nat {
    match kind
    case PacketReceived => 0
    case PacketSent => 1
    case LinkChanged => 2
  }

  /** The handler runs when the tasklet has made j of its tests: the others see the new word.  Then the
      tasklet stores 0. */
  function Interrupted(s: State, j: nat): (State, Actions) {
    var t := AfterHandler(s);
    (t.(waiting := 0),
     set kind | kind in {PacketReceived, PacketSent, LinkChanged}
                && Asks(if Test(kind) < j then s.waiting else t.waiting, kind))
  }

  /** The same for an interrupted tasklet: received packets are tested for first, then sent ones, then the
      link, and a test sees the new causes exactly when the handler came before it. */
  lemma InterruptedActions(s: State, j: nat)
    ensures var w, v, actions := s.waiting, AfterHandler(s).waiting, Interrupted(s, j).1;
            && (PacketReceived in actions <==> if j >= 1 then Bit(w, 6) || Bit(w, 7) else Bit(v, 6) || Bit(v, 7))
            && (PacketSent in actions <==> if j >= 2 then Bit(w, 0) || Bit(w, 1) else Bit(v, 0) || Bit(v, 1))
            && (LinkChanged in actions <==> if j >= 3 then Bit(w, 2) else Bit(v, 2))
  {
    var w, v, actions := s.waiting, AfterHandler(s).waiting, Interrupted(s, j).1;
    assert PacketReceived in actions <==> Asks(if 0 < j then w else v, PacketReceived);
    assert PacketSent in actions <==> Asks(if 1 < j then w else v, PacketSent);
    assert LinkChanged in actions <==> Asks(if 2 < j then w else v, LinkChanged);
  }

  lemma OrAsks(a: nat, b: nat, kind: Kind)
    ensures Asks(Or(a, b), kind) <==> Asks(a, kind) || Asks(b, kind)
  {
    OrBit(a, b, IMS_TXDW);
    OrBit(a, b, IMS_TXQE);
    OrBit(a, b, IMS_LSC);
    OrBit(a, b, IMS_RX0);
    OrBit(a, b, IMS_RXT0);
  }

  /** A handler in that window loses nothing exactly when the kinds it reads and the tasklet has already
      tested for are being answered: after it the word is 0, so nothing else will be. */
  lemma WindowLosesUnlessKnown(s: State, seen: seq<nat>, j: nat)
    requires s.waiting == OrAll(seen) && s.waiting != 0 && s.icr != 0
    ensures Right(Batch(seen + [s.icr], Interrupted(s, j).1)) <==>
            forall kind :: Test(kind) < j && Asks(s.icr, kind) ==> Asks(s.waiting, kind)
    ensures Interrupted(s, j).0.waiting == 0
  {
    var all := seen + [s.icr];
    assert all[..|seen|] == seen;
    forall kind
      ensures (exists k :: 0 <= k < |all| && Asks(all[k], kind)) <==> Asks(s.waiting, kind) || Asks(s.icr, kind)
      ensures kind in Interrupted(s, j).1 <==> Asks(s.waiting, kind) || (Test(kind) >= j && Asks(s.icr, kind))
    {
      OrAllAsks(seen, kind);
      OrAsks(s.waiting, s.icr, kind);
      if k :| 0 <= k < |seen| && Asks(seen[k], kind) {
        assert Asks(all[k], kind);
      }
      if Asks(s.icr, kind) {
        assert Asks(all[|seen|], kind);
      }
    }
  }

  /** So the run-to-completion assumption is needed: a received packet noted after the first test of a
      link-status tasklet is never reported. */
  lemma WindowLosesAPacket(j: nat)
    requires j >= 1
    ensures var s := State(Pow2(IMS_RXT0), Pow2(IMS_LSC), false, true, true);
            PacketReceived !in Interrupted(s, j).1 && Interrupted(s, j).0.waiting == 0 == Interrupted(s, j).0.icr
    ensures Asks(Pow2(IMS_RXT0), PacketReceived)
  {
    ShiftedOne(IMS_LSC, IMS_RX0);
    ShiftedOne(IMS_LSC, IMS_RXT0);
    ShiftedOne(IMS_RXT0, IMS_RXT0);
    ZeroBit(IMS_RXT0);
  }

  // ---- The driver's code ----

  class Adapter {
    var icr: nat
    var waitingIntr: nat
    var scheduled: bool
    var registered: bool
    var enabled: bool

    ghost function Abs(): State
      reads this
    {
      State(icr, waitingIntr, scheduled, registered, enabled)
    }

    /** ICR is cleared by being read. */
    method ReadIcr() returns (causes: nat)
      modifies this`icr
      ensures causes == old(icr) && icr == 0
    {
      causes := icr;
      icr := 0;
    }

    method Handle() returns (handled: bool)
      modifies this
      ensures Abs() == AfterHandler(old(Abs())) && handled == (old(icr) != 0)
    {
      var intr := ReadIcr();
      if intr == 0 {
        return false;
      }
      waitingIntr := Or(waitingIntr, intr);
      scheduled := true;
      return true;
    }

    /** `init_interrupt`; irqOk: what request_irq answers. */
    method InitInterrupt(irqOk: bool) returns (ok: bool)
      modifies this
      ensures Abs() == AfterInit(old(Abs()), irqOk) && ok == irqOk
    {
      scheduled, enabled := false, true; // tasklet_init
      registered := irqOk;
      return irqOk;
    }

    method UninitInterrupt()
      modifies this
      ensures Abs() == AfterUninit(old(Abs()))
    {
      registered := false;
      enabled := false; // tasklet_disable
    }

    method IntrTask() returns (actions: Actions)
      modifies this
      ensures (Abs(), actions) == AfterTasklet(old(Abs()))
    {
      scheduled := false;
      actions := {};
      if waitingIntr == 0 {
        return;
      }
      if Bit(waitingIntr, IMS_RX0) || Bit(waitingIntr, IMS_RXT0) {
        actions := actions + {PacketReceived};
      }
      if Bit(waitingIntr, IMS_TXDW) || Bit(waitingIntr, IMS_TXQE) {
        actions := actions + {PacketSent};
      }
      if Bit(waitingIntr, IMS_LSC) {
        actions := actions + {LinkChanged};
      }
      assert actions == Answered(waitingIntr);
      waitingIntr := 0;
    }
  }
}
