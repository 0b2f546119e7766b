/** Write requests that run in parallel.

    The Windows driver dispatches requests in parallel (device.c) and takes no lock around the loop
    that polls LSR and writes THR, so several requests can see THR empty before one of them writes.
    Polls, writes and the line are the steps here, interleaved freely.
 */
module ParallelWriters {
  import opened MaskedRegister
  import opened Uart

  /** ready: the requests that have seen THR empty and not yet written their byte. */
  datatype State = State(uart: Uart, ready: set<nat>)

  datatype Step = Line(e: EnvStep) | Poll(i: nat) | Put(i: nat, b: Byte)

  /** n requests are running; each polls until THR is empty, then writes. */
  predicate Possible(n: nat, s: State, step: Step) {
    match step
    case Line(_) => true
    case Poll(i) => i < n && i !in s.ready
    case Put(i, _) => i in s.ready
  }

  function Next(s: State, step: Step): State {
    match step
    case Line(e) => s.(uart := AfterEnv(s.uart, e))
    case Poll(i) => if Bit(LineStatus(s.uart), LSR_THR_EMPTY) then s.(ready := s.ready + {i}) else s
    case Put(i, b) => State(WriteEffect(s.uart, DATA, b), s.ready - {i})
  }

  ghost predicate Reaches(n: nat, s: State, steps: seq<Step>, t: State)
    decreases |steps|
  {
    if steps == [] then s == t else Possible(n, s, steps[0]) && Reaches(n, Next(s, steps[0]), steps[1..], t)
  }

  function Ids(n: nat): (ids: set<nat>)
    ensures forall i: nat :: i in ids <==> i < n
  {
    if n == 0 then {} else Ids(n - 1) + {n - 1}
  }

  lemma {:induction false} IdsCount(n: nat)
    ensures |Ids(n)| == n
  {
    if n > 0 {
      IdsCount(n - 1);
    }
  }

  lemma {:induction false} SubsetCount(a: set<nat>, b: set<nat>)
    requires a <= b
    ensures |a| <= |b|
    decreases |a|
  {
    if x :| x in a {
      SubsetCount(a - {x}, b - {x});
    }
  }

  // ---- Few enough requests lose nothing ----

  /** Since THR was last seen empty at most the other requests have written. */
  ghost predicate Inv(n: nat, s: State) {
    && !Dlab(s.uart.ctl) && s.ready <= Ids(n)
    && (s.ready != {} ==> |s.uart.thr| + |s.ready| <= n)
  }

  lemma StepKeepsInv(n: nat, s: State, step: Step)
    requires Inv(n, s) && Possible(n, s, step)
    ensures Inv(n, Next(s, step)) && Next(s, step).uart.ctl == s.uart.ctl
    ensures n <= Depth(s.uart.ctl) ==> Next(s, step).uart.lost == s.uart.lost
    ensures n <= Depth(s.uart.ctl) && LineOk(s.uart) ==> LineOk(Next(s, step).uart)
  {
    match step {
      case Line(e) => EnvStepConserves(s.uart, e);
      case Poll(i) =>
        LineStatusBits(s.uart);
        SubsetCount(s.ready + {i}, Ids(n));
        IdsCount(n);
      case Put(i, b) =>
        assert s.uart.wire + (s.uart.thr + [b]) == s.uart.wire + s.uart.thr + [b];
    }
  }

  lemma {:induction false} FewLoseNothing(n: nat, s: State, steps: seq<Step>, t: State)
    requires Inv(n, s) && n <= Depth(s.uart.ctl) && Reaches(n, s, steps, t)
    ensures t.uart.lost == s.uart.lost && (LineOk(s.uart) ==> LineOk(t.uart))
    decreases |steps|
  {
    if steps != [] {
      StepKeepsInv(n, s, steps[0]);
      FewLoseNothing(n, Next(s, steps[0]), steps[1..], t);
    }
  }

  // ---- One request too many can lose a byte ----

  lemma {:induction false} Join(n: nat, s: State, xs: seq<Step>, m: State, ys: seq<Step>, t: State)
    requires Reaches(n, s, xs, m) && Reaches(n, m, ys, t)
    ensures Reaches(n, s, xs + ys, t)
    decreases |xs|
  {
    if xs == [] {
      assert xs + ys == ys;
    } else {
      Join(n, Next(s, xs[0]), xs[1..], m, ys, t);
      assert (xs + ys)[1..] == xs[1..] + ys;
    }
  }

  lemma OneMore(n: nat, s: State, step: Step, m: State, steps: seq<Step>, t: State)
    requires Possible(n, s, step) && m == Next(s, step) && Reaches(n, m, steps, t)
    ensures Reaches(n, s, [step] + steps, t)
  {
    assert ([step] + steps)[1..] == steps;
  }

  lemma {:induction false} DrainAll(n: nat, s: State) returns (steps: seq<Step>, t: State)
    ensures Reaches(n, s, steps, t) && t.uart.thr == [] && t.uart.ctl == s.uart.ctl
    ensures t.uart.lost == s.uart.lost && t.ready == s.ready
    decreases |s.uart.thr|
  {
    steps, t := [], s;
    if s.uart.thr != [] {
      var m := Next(s, Line(Drain));
      steps, t := DrainAll(n, m);
      OneMore(n, s, Line(Drain), m, steps, t);
      steps := [Line(Drain)] + steps;
    }
  }

  /** All the requests find THR empty. */
  lemma {:induction false} PollAll(n: nat, s: State, k: nat) returns (steps: seq<Step>, t: State)
    requires s.uart.thr == [] && k <= n && s.ready == Ids(k)
    ensures Reaches(n, s, steps, t) && t == State(s.uart, Ids(n))
    decreases n - k
  {
    steps, t := [], s;
    if k < n {
      LineStatusBits(s.uart);
      var m := Next(s, Poll(k));
      assert m.ready == Ids(k + 1);
      steps, t := PollAll(n, m, k + 1);
      OneMore(n, s, Poll(k), m, steps, t);
      steps := [Poll(k)] + steps;
    } else {
      assert k == n;
    }
  }

  /** Then they write, one after the other. */
  lemma {:induction false} PutAll(n: nat, s: State, k: nat) returns (steps: seq<Step>, t: State)
    requires !Dlab(s.uart.ctl) && s.ready == Ids(k)
    ensures Reaches(n, s, steps, t)
    ensures |t.uart.lost| == |s.uart.lost| + if k > Room(s.uart) then k - Room(s.uart) else 0
    decreases k
  {
    steps, t := [], s;
    if k > 0 {
      var step := Put(k - 1, 0);
      var m := Next(s, step);
      assert m.ready == Ids(k - 1);
      steps, t := PutAll(n, m, k - 1);
      OneMore(n, s, step, m, steps, t);
      steps := [step] + steps;
    }
  }

  lemma TooManyLose(n: nat, u: Uart) returns (steps: seq<Step>, t: State)
    requires !Dlab(u.ctl) && n > Depth(u.ctl)
    ensures Reaches(n, State(u, {}), steps, t) && t.uart.lost != u.lost
  {
    var s := State(u, {});
    var xs, x := DrainAll(n, s);
    assert x.ready == Ids(0);
    var ys, y := PollAll(n, x, 0);
    var zs, z := PutAll(n, y, n);
    Join(n, s, xs, x, ys, y);
    Join(n, s, xs + ys, y, zs, z);
    steps, t := xs + ys + zs, z;
  }

  ghost predicate LossFree(n: nat, s: State) {
    forall steps, t :: Reaches(n, s, steps, t) ==> t.uart.lost == s.uart.lost
  }

  /** Every interleaving of n parallel write requests is free of loss if and only if THR is deep enough
      for one byte of each: sixteen with the FIFO on, one without. */
  lemma LossFreeIffDeepEnough(n: nat, u: Uart)
    requires !Dlab(u.ctl)
    ensures LossFree(n, State(u, {})) <==> n <= Depth(u.ctl)
  {
    var s := State(u, {});
    if n <= Depth(u.ctl) {
      forall steps, t | Reaches(n, s, steps, t)
        ensures t.uart.lost == u.lost
      {
        FewLoseNothing(n, s, steps, t);
      }
    } else {
      var steps, t := TooManyLose(n, u);
      assert Reaches(n, s, steps, t);
    }
  }
}
