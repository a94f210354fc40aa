/**
  Scripts of faults. Every durable effect of a composition is one step; the script says of each step in turn whether it
  works, fails with an error, or the process dies just before it. What the script does not mention works.
 */
module FaultScript {
  datatype Fault = Fine | Fails | Crashes

  datatype Signal = Done | Failed | Crashed

  type Script = seq<Fault>

  function Meaning(f: Fault): Signal { match f case Fine => Done case Fails => Failed case Crashes => Crashed }

  /** The first `n` steps all work. */
  predicate FineFor(n: nat, script: Script) {
    n == 0 || script == [] || (script[0] == Fine && FineFor(n - 1, script[1..]))
  }

  /** What is left of the script after `n` steps. */
  function Drop(n: nat, script: Script): Script {
    if n == 0 || script == [] then script else Drop(n - 1, script[1..])
  }

  /** The number of steps that do not work. */
  function Strikes(script: Script): nat {
    if script == [] then 0 else (if script[0] == Fine then 0 else 1) + Strikes(script[1..])
  }

  /** The next step is struck and so is the clean-up that an error, unlike a crash, still allows. */
  predicate StruckForGood(script: Script) {
    script != [] && (script[0] == Crashes || (script[0] == Fails && |script| > 1 && script[1] != Fine))
  }

  /**
    How `n` steps end that all have to work: they do exactly when the script lets them and `ok`, which stands for the
    checks made on the way, holds. Every other ending costs the script a strike or is such a check; only a crash in the
    script crashes.
   */
  ghost predicate Ran(n: nat, ok: bool, before: Script, after: Script, s: Signal) {
    && (s == Done <==> ok && FineFor(n, before)) && (s == Done ==> after == Drop(n, before))
    && Strikes(after) + (if s == Crashed || (s == Failed && ok) then 1 else 0) <= Strikes(before)
    && (Crashes !in before ==> Crashes !in after && s != Crashed)
  }

  lemma NoSteps(script: Script)
    ensures Ran(0, true, script, script, Done)
  {
  }

  lemma OneStep(script: Script)
    ensures FineFor(1, script) <==> (|script| > 0 ==> script[0] == Fine)
    ensures Drop(1, script) == if |script| > 0 then script[1..] else []
  {
    if |script| > 0 { assert FineFor(0, script[1..]) && Drop(0, script[1..]) == script[1..]; }
  }

  lemma TwoSteps(script: Script)
    ensures FineFor(2, script) <==> (|script| > 0 ==> script[0] == Fine) && (|script| > 1 ==> script[1] == Fine)
    ensures Drop(2, script) == if |script| > 1 then script[2..] else []
  {
    if |script| > 0 {
      OneStep(script[1..]);
      if |script| > 1 { assert script[1..][1..] == script[2..]; }
    }
  }

  /** A part that works uses up its steps; one that fails costs a strike. */
  ghost predicate Follows(steps: nat, script: Script, next: Script) {
    if FineFor(steps, script) then next == Drop(steps, script) else Strikes(next) < Strikes(script)
  }

  lemma RanFollows(n: nat, before: Script, after: Script, s: Signal)
    requires Ran(n, true, before, after, s)
    ensures Follows(n, before, after)
  {
  }

  lemma {:induction false} DropSum(a: nat, b: nat, script: Script)
    ensures FineFor(a + b, script) <==> FineFor(a, script) && FineFor(b, Drop(a, script))
    ensures Drop(a + b, script) == Drop(b, Drop(a, script))
  {
    if a > 0 && script != [] { DropSum(a - 1, b, script[1..]); }
  }

  /** The first part works, then the second part decides. */
  lemma RanOn(a: nat, ok1: bool, b: nat, ok2: bool, s0: Script, s1: Script, s2: Script, s: Signal)
    requires Ran(a, ok1, s0, s1, Done) && Ran(b, ok2, s1, s2, s)
    ensures Ran(a + b, ok1 && ok2, s0, s2, s)
  {
    DropSum(a, b, s0);
  }

  /** The first part does not work: there is no second part. */
  lemma RanOut(a: nat, ok1: bool, b: nat, ok2: bool, s0: Script, s1: Script, s: Signal)
    requires Ran(a, ok1, s0, s1, s) && s != Done
    ensures Ran(a + b, ok1 && ok2, s0, s1, s)
  {
    DropSum(a, b, s0);
  }

  /** How two parts end together when an error in the first does not stop the second. */
  function Worse(first: Signal, second: Signal): Signal {
    if second == Crashed then Crashed else if first == Failed || second == Failed then Failed else Done
  }

  lemma RanBoth(a: nat, b: nat, s0: Script, s1: Script, s2: Script, first: Signal, second: Signal)
    requires Ran(a, true, s0, s1, first) && first != Crashed && Ran(b, true, s1, s2, second)
    ensures Ran(a + b, true, s0, s2, Worse(first, second))
  {
    DropSum(a, b, s0);
  }

  lemma {:induction false} NoStrikes(n: nat, script: Script)
    requires Strikes(script) == 0
    ensures FineFor(n, script) && Crashes !in script
  {
    if script != [] {
      NoStrikes(if n == 0 then 0 else n - 1, script[1..]);
      assert script == [script[0]] + script[1..];
    }
  }

  /** `n` steps that work, then `rest`. */
  function Fines(n: nat, rest: Script): Script { if n == 0 then rest else [Fine] + Fines(n - 1, rest) }

  lemma {:induction false} FinesGive(m: nat, n: nat, rest: Script)
    requires m <= n
    ensures FineFor(m, Fines(n, rest)) && Drop(m, Fines(n, rest)) == Fines(n - m, rest)
  {
    if m > 0 {
      FinesGive(m - 1, n - 1, rest);
      assert Fines(n, rest)[1..] == Fines(n - 1, rest);
    }
  }

  lemma FinesEnd(rest: Script)
    ensures Fines(0, rest) == rest
  {
  }
}
