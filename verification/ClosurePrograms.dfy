/**
 How JavaScript runs a body, told independently of Closures.Trace and Closures.Throws: an abstract
 machine with a stack of the calls in progress. A `finally` without `catch` lets an exception through.
 */
module ClosurePrograms {
  import opened Wrappers
  import opened Closures

  /** A call in progress: whether its caller catches what it throws, and what the caller does next. */
  datatype Frame = Frame(catches: bool, rest: Body)

  datatype Machine =
    | Running(code: Body, stack: seq<Frame>)
    | Unwinding(stack: seq<Frame>)
    | Returned
    | Threw

  /** One statement, or one frame of an unwinding exception; the event it causes, if any. */
  function Next(m: Machine): (Machine, seq<Event>) {
    match m
    case Running(Call(inner, catches, rest), stack) => (Running(inner, [Frame(catches, rest)] + stack), [Enter])
    case Running(DropOwner(rest), stack) => (Running(rest, stack), [Drop])
    case Running(ReleaseOwner(rest), stack) => (Running(rest, stack), [Release])
    case Running(End(true), stack) => (Unwinding(stack), [])
    case Running(End(false), stack) =>
      if stack == [] then (Returned, []) else (Running(stack[0].rest, stack[1..]), [Leave])
    case Unwinding(stack) =>
      if stack == [] then (Threw, [])
      else if stack[0].catches then (Running(stack[0].rest, stack[1..]), [Leave])
      else (Unwinding(stack[1..]), [Leave])
    case _ => (m, [])
  }

  /** The events of a machine that stops within `fuel` steps, and how it stops. */
  function Run(m: Machine, fuel: nat): (Machine, seq<Event>)
    decreases fuel
  {
    if fuel == 0 then (m, [])
    else
      var (next, es) := Next(m);
      var (last, fs) := Run(next, fuel - 1);
      (last, es + fs)
  }

  lemma {:induction false} RunAppend(m: Machine, i: nat, j: nat)
    ensures Run(m, i + j) == (Run(Run(m, i).0, j).0, Run(m, i).1 + Run(Run(m, i).0, j).1)
    decreases i
  {
    if i == 0 {
      assert [] + Run(m, j).1 == Run(m, j).1;
    } else {
      var (next, es) := Next(m);
      RunAppend(next, i - 1, j);
      assert es + (Run(next, i - 1).1 + Run(Run(next, i - 1).0, j).1)
          == (es + Run(next, i - 1).1) + Run(Run(next, i - 1).0, j).1;
    }
  }

  lemma OneStep(m: Machine)
    ensures Run(m, 1) == Next(m)
  {
    var (next, es) := Next(m);
    assert Run(next, 0) == (next, []) && es + [] == es;
  }

  /** After `n` steps comes one more. */
  lemma StepAfter(m: Machine, n: nat)
    ensures var (was, es) := Run(m, n);
      Run(m, n + 1) == (Next(was).0, es + Next(was).1)
  {
    RunAppend(m, n, 1);
    OneStep(Run(m, n).0);
  }

  /** Before `n` steps comes one more. */
  lemma StepBefore(m: Machine, n: nat)
    ensures var (next, es) := Next(m);
      Run(m, n + 1) == (Run(next, n).0, es + Run(next, n).1)
  {
  }

  /** Where a body leaves the machine: it lets an exception fly, or comes to the end of its code. */
  function Outcome(b: Body, stack: seq<Frame>): Machine {
    if Throws(b) then Unwinding(stack) else Running(End(false), stack)
  }

  /** The machine, set to a body, runs through exactly the events of its trace, and then unwinds
      exactly if the body throws. */
  lemma {:induction false} MachineRunsTrace(b: Body, stack: seq<Frame>) returns (n: nat)
    ensures Run(Running(b, stack), n) == (Outcome(b, stack), Trace(b))
    decreases b, 1
  {
    match b {
      case End(throws) =>
        n := if throws then 1 else 0;
        OneStep(Running(b, stack));
      case DropOwner(rest) =>
        n := MachineRunsTrace(rest, stack);
        StepBefore(Running(b, stack), n);
        n := n + 1;
      case ReleaseOwner(rest) =>
        n := MachineRunsTrace(rest, stack);
        StepBefore(Running(b, stack), n);
        n := n + 1;
      case Call(inner, catches, rest) =>
        n := CallReturns(inner, catches, rest, stack);
        if Throws(inner) && !catches {
          RestNeverRuns(inner, rest, rest);
        } else {
          var j := MachineRunsTrace(rest, stack);
          RunAppend(Running(b, stack), n, j);
          n := n + j;
        }
    }
  }

  /** The call of a body, up to where its caller goes on or the exception flies on. */
  lemma {:induction false} CallReturns(inner: Body, catches: bool, rest: Body, stack: seq<Frame>) returns (n: nat)
    ensures Run(Running(Call(inner, catches, rest), stack), n) ==
      (if Throws(inner) && !catches then Unwinding(stack) else Running(rest, stack), [Enter] + Trace(inner) + [Leave])
    decreases Call(inner, catches, rest), 0
  {
    var m, frames := Running(Call(inner, catches, rest), stack), [Frame(catches, rest)] + stack;
    n := MachineRunsTrace(inner, frames);
    assert frames[0] == Frame(catches, rest) && frames[1..] == stack;
    StepBefore(m, n);
    n := n + 1;
    StepAfter(m, n);
    n := n + 1;
  }

  /** A whole call: the machine stops with the events of the trace, by an exception exactly if the
      body throws. */
  lemma BodyRuns(b: Body) returns (n: nat)
    ensures Run(Running(b, []), n) == (if Throws(b) then Threw else Returned, Trace(b))
  {
    n := MachineRunsTrace(b, []);
    StepAfter(Running(b, []), n);
    n := n + 1;
    assert Trace(b) + [] == Trace(b);
  }

  // ----- What that means ----------------------------------------------------------------------------

  /** Nothing that follows an uncaught exception happens: the rest of the body could be any other. */
  lemma RestNeverRuns(inner: Body, rest: Body, other: Body)
    requires Throws(inner)
    ensures Trace(Call(inner, false, rest)) == Trace(Call(inner, false, other)) == [Enter] + Trace(inner) + [Leave]
    ensures Throws(Call(inner, false, rest)) && Throws(Call(inner, false, other))
  {
    assert [Enter] + Trace(inner) + [Leave] + [] == [Enter] + Trace(inner) + [Leave];
  }

  /** How many calls are open after the events, started from `depth`; None if one too many is closed. */
  function Depth(depth: nat, es: seq<Event>): Option<nat>
    decreases |es|
  {
    if es == [] then Some(depth)
    else if es[0] == Enter then Depth(depth + 1, es[1..])
    else if es[0] == Leave then (if depth == 0 then None else Depth(depth - 1, es[1..]))
    else Depth(depth, es[1..])
  }

  lemma {:induction false} DepthAppend(depth: nat, es: seq<Event>, fs: seq<Event>)
    requires Depth(depth, es).Some?
    ensures Depth(depth, es + fs) == Depth(Depth(depth, es).value, fs)
    decreases |es|
  {
    if es == [] {
      assert es + fs == fs;
    } else {
      assert (es + fs)[1..] == es[1..] + fs;
      DepthAppend(if es[0] == Enter then depth + 1 else if es[0] == Leave then depth - 1 else depth, es[1..], fs);
    }
  }

  /** However a body ends, every Enter has its Leave. */
  lemma {:induction false} CallsAreClosed(b: Body, depth: nat)
    ensures Depth(depth, Trace(b)) == Some(depth)
    decreases b
  {
    match b {
      case End(_) =>
      case DropOwner(rest) =>
        CallsAreClosed(rest, depth);
        assert Trace(b)[1..] == Trace(rest);
      case ReleaseOwner(rest) =>
        CallsAreClosed(rest, depth);
        assert Trace(b)[1..] == Trace(rest);
      case Call(inner, catches, rest) =>
        var call := [Enter] + Trace(inner) + [Leave];
        CallsAreClosed(inner, depth + 1);
        DepthAppend(depth + 1, Trace(inner), [Leave]);
        assert call[1..] == Trace(inner) + [Leave];
        CallsAreClosed(rest, depth);
        DepthAppend(depth, call, if Throws(inner) && !catches then [] else Trace(rest));
    }
  }
}
