/** The option parser of `rathaxes generate`.

    The argument array is an ordered list of keyed elements.  A first pass over it notes the keys of
    every `/o value` pair, a second removes them by key, and the caller then reads the target system
    and the input file by position among what is left.
 */
module GenerateOptions {

  datatype Option<T> = None | Some(value: T)

  datatype Element = Element(key: nat, text: string)

  const OPTION: string := "/o"

  predicate StartsWithSlash(s: string) {
    s != "" && s[0] == '/'
  }

  /** The `/o` at position i has its argument. */
  predicate HasValue(args: seq<string>, i: nat) {
    i + 1 < |args| && !StartsWithSlash(args[i + 1])
  }

  ghost predicate WellFormed(args: seq<string>) {
    forall i: nat :: i < |args| && args[i] == OPTION ==> HasValue(args, i)
  }

  /** In full: each "/o" has a next argument that is empty or does not begin with a slash. */
  lemma WellFormedMeans(args: seq<string>)
    ensures WellFormed(args) <==>
            forall i: nat :: i < |args| && args[i] == "/o" ==>
              i + 1 < |args| && (args[i + 1] == "" || args[i + 1][0] != '/')
  {
    if WellFormed(args) {
      forall i: nat | i < |args| && args[i] == "/o"
        ensures i + 1 < |args| && (args[i + 1] == "" || args[i + 1][0] != '/')
      {
        assert HasValue(args, i);
      }
    }
  }

  /** What the parser is meant to leave: the list without its pairs, and the value of the last pair. */
  function Strip(args: seq<string>): seq<string>
    decreases |args|
  {
    if args == [] then []
    else if args[0] == OPTION then (if |args| >= 2 then Strip(args[2..]) else [])
    else [args[0]] + Strip(args[1..])
  }

  function LastOutput(args: seq<string>, default: Option<string>): Option<string>
    decreases |args|
  {
    if args == [] then default
    else if args[0] == OPTION then (if |args| >= 2 then LastOutput(args[2..], Some(args[1])) else default)
    else LastOutput(args[1..], default)
  }

  // ---- Where the pairs stand does not matter ----

  lemma WellFormedTail(args: seq<string>)
    requires WellFormed(args) && args != []
    ensures WellFormed(args[1..])
    ensures args[0] == OPTION ==> |args| >= 2 && WellFormed(args[2..])
  {
    forall i: nat | i < |args| - 1 && args[1..][i] == OPTION
      ensures HasValue(args[1..], i)
    {
      assert HasValue(args, i + 1);
    }
    if args[0] == OPTION {
      assert HasValue(args, 0);
      forall i: nat | i < |args| - 2 && args[2..][i] == OPTION
        ensures HasValue(args[2..], i)
      {
        assert HasValue(args, i + 2);
      }
    }
  }

  /** Parsing a list that does not end inside a pair is parsing its parts. */
  lemma {:induction false} StripConcat(xs: seq<string>, ys: seq<string>, default: Option<string>)
    requires WellFormed(xs)
    ensures Strip(xs + ys) == Strip(xs) + Strip(ys)
    ensures LastOutput(xs + ys, default) == LastOutput(ys, LastOutput(xs, default))
    decreases |xs|
  {
    if xs == [] {
      assert xs + ys == ys;
    } else {
      WellFormedTail(xs);
      if xs[0] == OPTION {
        assert (xs + ys)[2..] == xs[2..] + ys;
        StripConcat(xs[2..], ys, Some(xs[1]));
      } else {
        assert (xs + ys)[1..] == xs[1..] + ys;
        StripConcat(xs[1..], ys, default);
      }
    }
  }

  lemma PairStrips(v: string, default: Option<string>)
    requires !StartsWithSlash(v)
    ensures WellFormed([OPTION, v]) && Strip([OPTION, v]) == [] && LastOutput([OPTION, v], default) == Some(v)
  {
    var pair := [OPTION, v];
    assert StartsWithSlash(OPTION);
    assert HasValue(pair, 0);
    assert pair[2..] == [];
  }

  /** A pair may stand anywhere between whole arguments: what is left is the same. */
  lemma PairMayStandAnywhere(xs: seq<string>, v: string, ys: seq<string>)
    requires WellFormed(xs) && !StartsWithSlash(v)
    ensures Strip(xs + ([OPTION, v] + ys)) == Strip(xs + ys)
  {
    PairStrips(v, None);
    StripConcat(xs, [OPTION, v] + ys, None);
    StripConcat([OPTION, v], ys, None);
    StripConcat(xs, ys, None);
    assert [] + Strip(ys) == Strip(ys);
  }

  /** So target system and input file, the fourth and fifth of what is left, do not depend on it: here
      a pair moves from one place to another, past any arguments. */
  lemma TargetAndInputFixed(xs: seq<string>, ys: seq<string>, zs: seq<string>, v: string, k: nat)
    requires WellFormed(xs) && WellFormed(ys) && !StartsWithSlash(v)
    requires k < |Strip(xs + ys + zs)|
    ensures var early, late := xs + ([OPTION, v] + (ys + zs)), xs + ys + ([OPTION, v] + zs);
            && Strip(early) == Strip(late)
            && k < |Strip(early)| && Strip(early)[k] == Strip(late)[k] == Strip(xs + ys + zs)[k]
  {
    EarlyPair(xs, ys, zs, v);
    WellFormedConcat(xs, ys);
    PairMayStandAnywhere(xs + ys, v, zs);
  }

  lemma EarlyPair(xs: seq<string>, ys: seq<string>, zs: seq<string>, v: string)
    requires WellFormed(xs) && !StartsWithSlash(v)
    ensures Strip(xs + ([OPTION, v] + (ys + zs))) == Strip(xs + ys + zs)
  {
    PairMayStandAnywhere(xs, v, ys + zs);
    assert xs + (ys + zs) == xs + ys + zs;
  }

  lemma WellFormedConcat(xs: seq<string>, ys: seq<string>)
    requires WellFormed(xs) && WellFormed(ys)
    ensures WellFormed(xs + ys)
  {
    forall i: nat | i < |xs + ys| && (xs + ys)[i] == OPTION
      ensures HasValue(xs + ys, i)
    {
      if i < |xs| {
        assert HasValue(xs, i);
      } else {
        assert HasValue(ys, i - |xs|);
      }
    }
  }

  /** With several pairs the last one names the output. */
  lemma LastPairWins(xs: seq<string>, v: string, ys: seq<string>)
    requires WellFormed(xs) && !StartsWithSlash(v) && OPTION !in ys
    ensures LastOutput(xs + ([OPTION, v] + ys), None) == Some(v)
  {
    PairStrips(v, LastOutput(xs, None));
    StripConcat(xs, [OPTION, v] + ys, None);
    StripConcat([OPTION, v], ys, LastOutput(xs, None));
    NoPairNoOutput(ys, Some(v));
  }

  lemma {:induction false} NoPairNoOutput(ys: seq<string>, default: Option<string>)
    requires OPTION !in ys
    ensures LastOutput(ys, default) == default && Strip(ys) == ys
    decreases |ys|
  {
    if ys != [] {
      NoPairNoOutput(ys[1..], default);
      assert ys == [ys[0]] + ys[1..];
    }
  }

  // ---- Removal by key ----

  function Keyed(args: seq<string>): seq<Element> {
    seq(|args|, i requires 0 <= i < |args| => Element(i, args[i]))
  }

  function Without(es: seq<Element>, keys: set<nat>): seq<Element> {
    if es == [] then []
    else if es[0].key in keys then Without(es[1..], keys)
    else [es[0]] + Without(es[1..], keys)
  }

  function Texts(es: seq<Element>): seq<string> {
    if es == [] then [] else [es[0].text] + Texts(es[1..])
  }

  lemma {:induction false} WithoutTwice(es: seq<Element>, keys: set<nat>, k: nat)
    ensures Without(Without(es, keys), {k}) == Without(es, keys + {k})
  {
    if es != [] {
      WithoutTwice(es[1..], keys, k);
      if es[0].key !in keys {
        assert Without(es, keys)[1..] == Without(es[1..], keys);
      }
    }
  }

  /** Position i belongs to a pair. */
  predicate InPair(args: seq<string>, i: nat)
    requires i < |args|
  {
    args[i] == OPTION || (i > 0 && args[i - 1] == OPTION)
  }

  ghost predicate ExactlyPairs(args: seq<string>, keys: set<nat>) {
    forall i: nat :: i < |args| ==> (i in keys <==> InPair(args, i))
  }

  lemma {:induction false} RemovalStrips(args: seq<string>, keys: set<nat>, i: nat)
    requires WellFormed(args) && ExactlyPairs(args, keys) && i <= |args| && (i > 0 ==> args[i - 1] != OPTION)
    ensures Texts(Without(Keyed(args)[i..], keys)) == Strip(args[i..])
    decreases |args| - i
  {
    if i < |args| {
      var es := Keyed(args);
      assert es[i..][1..] == es[i + 1..] && args[i..][1..] == args[i + 1..];
      if args[i] == OPTION {
        assert HasValue(args, i);
        assert StartsWithSlash(OPTION);
        assert args[i + 1] != OPTION;
        assert InPair(args, i) && InPair(args, i + 1);
        assert es[i + 1..][1..] == es[i + 2..] && args[i..][2..] == args[i + 2..];
        RemovalStrips(args, keys, i + 2);
      } else {
        assert !InPair(args, i);
        RemovalStrips(args, keys, i + 1);
        var rest := Without(es[i + 1..], keys);
        assert Without(es[i..], keys) == [es[i]] + rest;
        assert ([es[i]] + rest)[1..] == rest;
      }
    }
  }

  // ---- The code ----

  /** The output the first pass has seen after n elements. */
  function OutputSoFar(args: seq<string>, n: nat): Option<string>
    requires n <= |args|
  {
    if n == 0 then None
    else if args[n - 1] == OPTION && HasValue(args, n - 1) then Some(args[n])
    else OutputSoFar(args, n - 1)
  }

  lemma {:induction false} OutputIsLast(args: seq<string>, i: nat)
    requires WellFormed(args) && i <= |args| && (i > 0 ==> args[i - 1] != OPTION)
    ensures LastOutput(args[i..], OutputSoFar(args, i)) == OutputSoFar(args, |args|)
    decreases |args| - i
  {
    if i < |args| {
      assert args[i..][1..] == args[i + 1..];
      if args[i] == OPTION {
        assert HasValue(args, i) && StartsWithSlash(OPTION);
        assert args[i..][2..] == args[i + 2..];
        OutputIsLast(args, i + 2);
      } else {
        OutputIsLast(args, i + 1);
      }
    }
  }

  /** `rtxParseGenerateOptions`: an error for the first `/o` without a value, else the list without its
      pairs, in order, and the value of the last pair. */
  method ParseOptions(args: seq<string>) returns (ok: bool, argv: seq<Element>, output: Option<string>)
    ensures ok <==> WellFormed(args)
    ensures ok ==> Texts(argv) == Strip(args) && output == LastOutput(args, None)
  {
    argv := Keyed(args);
    output := None;
    var toRemove: seq<nat> := [];
    for n := 0 to |args|
      invariant argv == Keyed(args) && output == OutputSoFar(args, n)
      invariant forall i: nat :: i < n && args[i] == OPTION ==> HasValue(args, i)
      invariant forall k :: k in toRemove ==> k < |args| && InPair(args, k)
      invariant forall i: nat :: i < n && args[i] == OPTION ==> i in toRemove && i + 1 in toRemove
    {
      var item := argv[n];
      if item.text == OPTION {
        var argKey := item.key + 1;
        if argKey < |argv| && !StartsWithSlash(argv[argKey].text) {
          output := Some(argv[argKey].text);
          toRemove := toRemove + [item.key];
          toRemove := toRemove + [argKey];
        } else {
          assert !HasValue(args, n);
          return false, argv, output;
        }
      }
    }
    ghost var keys: set<nat> := {};
    assert Without(argv, keys) == argv by { WithoutNothing(argv); }
    for j := 0 to |toRemove|
      invariant argv == Without(Keyed(args), keys) && keys == set k | k in toRemove[..j]
    {
      argv := RemoveElement(argv, toRemove[j]);
      WithoutTwice(Keyed(args), keys, toRemove[j]);
      assert toRemove[..j + 1] == toRemove[..j] + [toRemove[j]];
      keys := keys + {toRemove[j]};
    }
    assert toRemove[..|toRemove|] == toRemove;
    assert ExactlyPairs(args, keys);
    RemovalStrips(args, keys, 0);
    OutputIsLast(args, 0);
    assert Keyed(args)[0..] == Keyed(args) && args[0..] == args;
    ok := true;
  }

  lemma {:induction false} WithoutNothing(es: seq<Element>)
    ensures Without(es, {}) == es
  {
    if es != [] {
      WithoutNothing(es[1..]);
    }
  }

  method RemoveElement(es: seq<Element>, key: nat) returns (rest: seq<Element>)
    ensures rest == Without(es, {key})
  {
    rest := [];
    for i := 0 to |es|
      invariant Without(es, {key}) == rest + Without(es[i..], {key})
    {
      assert es[i..][1..] == es[i + 1..];
      if es[i].key != key {
        rest := rest + [es[i]];
      }
    }
    assert es[|es|..] == [];
  }
}
