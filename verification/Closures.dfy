/**
 The two closure wrappers of webrtc/src/wasm/web_rtccam.js, which lend a Rust environment to
 JavaScript: the reference-counted one of makeMutClosure and the stack one of __wbg_new.
 Pointer 0 stands for "not here"; a destructor called with 0 does nothing.
 */
module Closures {
  // ----- The lending protocol as a state machine ----------------------------------------------

  /** What has become of the Rust `Closure` that created the wrapper. */
  datatype Owner = Held | Dropped | Released

  /** `frames` holds the local `a` of every call in progress, outermost first; `freed` the
      environments destroyed so far. */
  datatype State = State(a: nat, cnt: int, frames: seq<nat>, freed: seq<nat>, owner: Owner, collected: bool)

  /** A call starts; the innermost call ends, by return or throw; Rust drops its closure; Rust
      hands its reference to JavaScript for good; the unreachable wrapper is finalized. */
  datatype Event = Enter | Leave | Drop | Release | Collect

  function Init(env: nat): State {
    State(env, 1, [], [], Held, false)
  }

  function Destroyed(freed: seq<nat>, a: nat): seq<nat> {
    if a == 0 then freed else freed + [a]
  }

  predicate Enabled(s: State, e: Event) {
    match e
    case Enter => !s.collected
    case Leave => s.frames != []
    case Drop => s.owner == Held
    case Release => s.owner == Held
    case Collect => s.owner != Held && s.frames == [] && !s.collected
  }

  /** One event, over the environment at `env`; an event that cannot happen changes nothing. */
  function Step(env: nat, s: State, e: Event): State {
    if !Enabled(s, e) then s
    else match e
      case Enter => s.(cnt := s.cnt + 1, frames := s.frames + [s.a], a := 0)
      case Leave =>
        var n := |s.frames| - 1;
        var a := s.frames[n];
        if s.cnt == 1 then s.(cnt := 0, frames := s.frames[..n], freed := Destroyed(s.freed, a))
        else s.(cnt := s.cnt - 1, frames := s.frames[..n], a := a)
      case Drop =>
        if s.cnt == 1 then s.(cnt := 0, a := 0, freed := s.freed + [env], owner := Dropped)
        else s.(cnt := s.cnt - 1, owner := Dropped)
      case Release => s.(owner := Released)
      case Collect => s.(collected := true, freed := Destroyed(s.freed, s.a))
  }

  function Exec(env: nat, s: State, es: seq<Event>): State
    decreases |es|
  {
    if es == [] then s else Exec(env, Step(env, s, es[0]), es[1..])
  }

  /** The environment is in exactly one place: lent to the outermost call, kept in `state.a`, or
      destroyed; and the count says who may still need it. */
  ghost predicate Lent(env: nat, s: State) {
    && s.cnt == (if s.owner == Dropped then 0 else 1) + |s.frames|
    && (forall i :: 0 < i < |s.frames| ==> s.frames[i] == 0) && (s.collected ==> s.frames == [])
    && (if s.freed == [] then
          !s.collected && (if s.frames == [] then s.a == env && s.owner != Dropped else s.a == 0 && s.frames[0] == env)
        else
          && s.freed == [env] && (s.frames != [] ==> s.frames[0] == 0)
          && (if s.owner == Dropped then s.a == 0 else s.owner == Released && s.collected && s.frames == []))
  }

  lemma StepKeepsLent(env: nat, s: State, e: Event)
    requires env != 0 && Lent(env, s)
    ensures Lent(env, Step(env, s, e))
  {
  }

  lemma {:induction false} ExecKeepsLent(env: nat, s: State, es: seq<Event>)
    requires env != 0 && Lent(env, s)
    ensures Lent(env, Exec(env, s, es))
    decreases |es|
  {
    if es != [] {
      StepKeepsLent(env, s, es[0]);
      ExecKeepsLent(env, Step(env, s, es[0]), es[1..]);
    }
  }

  lemma {:induction false} ExecAppend(env: nat, s: State, es: seq<Event>, fs: seq<Event>)
    ensures Exec(env, s, es + fs) == Exec(env, Exec(env, s, es), fs)
    decreases |es|
  {
    if es == [] {
      assert es + fs == fs;
    } else {
      assert (es + fs)[1..] == es[1..] + fs;
      ExecAppend(env, Step(env, s, es[0]), es[1..], fs);
    }
  }

  /** In every run, however calls nest and whenever the owner lets go: the environment is in
      exactly one place, it is destroyed at most once, and never while a call still has it. Only the
      finalizer leaves a copy behind, in a state that nothing can call any more. */
  lemma EnvironmentIsLinear(env: nat, es: seq<Event>)
    requires env != 0
    ensures var s := Exec(env, Init(env), es);
      && s.cnt == (if s.owner == Dropped then 0 else 1) + |s.frames|
      && (!s.collected ==> multiset([s.a] + s.frames + s.freed)[env] == 1)
      && (s.collected ==> s.freed == [env] && s.frames == [] && !Enabled(s, Enter) && !Enabled(s, Collect))
      && |s.freed| <= 1 && (forall x :: x in s.freed ==> x == env)
      && (env in s.frames ==> s.freed == [])
      && (env in s.frames ==> s.frames[0] == env && env !in s.frames[1..])
  {
    ExecKeepsLent(env, Init(env), es);
    var s := Exec(env, Init(env), es);
    var zeros := if s.frames == [] then [] else s.frames[1..];
    assert forall x :: x in zeros ==> x == 0;
    assert s.frames != [] ==> s.frames == [s.frames[0]] + zeros;
    assert multiset(zeros)[env] == 0;
  }

  /** The next call is given the environment exactly when no call is running and nobody has
      destroyed it: two calls never share the mutable environment. */
  lemma CallGetsEnvironmentIff(env: nat, es: seq<Event>)
    requires env != 0
    ensures var s := Exec(env, Init(env), es);
      Enabled(s, Enter) ==> (s.a == env <==> s.frames == [] && s.freed == [])
  {
    ExecKeepsLent(env, Init(env), es);
  }

  /** Once Rust has dropped its closure and the last call has ended, the environment is gone, and
      a late finalizer destroys nothing; until then a held closure keeps it. */
  lemma DestroyedWhenDone(env: nat, es: seq<Event>)
    requires env != 0
    ensures var s := Exec(env, Init(env), es);
      && (s.frames == [] ==> (s.freed == [env] <==> s.owner == Dropped || s.collected))
      && (s.owner == Held ==> s.freed == [])
      && (s.owner == Dropped && s.frames == [] ==> Step(env, s, Collect).freed == s.freed)
  {
    ExecKeepsLent(env, Init(env), es);
  }

  /** Runs that take place: a drop between calls destroys at once, one during a call when that call
      ends; nested calls find the environment taken and give it back; and a released closure goes with
      its wrapper. */
  lemma WhenDestroyed(env: nat)
    requires env != 0
    ensures Exec(env, Init(env), [Drop]).freed == [env]
    ensures Exec(env, Init(env), [Enter, Drop]).freed == [] && Exec(env, Init(env), [Enter, Drop]).frames == [env]
    ensures Exec(env, Init(env), [Enter, Drop, Leave]).freed == [env]
    ensures Exec(env, Init(env), [Enter, Enter]).frames == [env, 0]
    ensures Exec(env, Init(env), [Enter, Enter, Leave, Leave]) == Init(env)
    ensures Exec(env, Init(env), [Release, Collect]).freed == [env]
  {
    assert [Enter, Drop][1..] == [Drop] && [Enter, Drop, Leave][1..] == [Drop, Leave] && [Drop, Leave][1..] == [Leave];
    assert [Enter, Enter][1..] == [Enter] && [Enter, Enter, Leave, Leave][1..] == [Enter, Leave, Leave];
    assert [Enter, Leave, Leave][1..] == [Leave, Leave] && [Leave, Leave][1..] == [Leave];
    assert [Release, Collect][1..] == [Collect];
  }

  // ----- Programs: arbitrarily nested calls -----------------------------------------------------

  /** What the body of one call does: calls the wrapper again (perhaps catching what it throws),
      has Rust drop or release the closure, and in the end returns or throws. */
  datatype Body =
    | End(throws: bool)
    | Call(inner: Body, catches: bool, rest: Body)
    | DropOwner(rest: Body)
    | ReleaseOwner(rest: Body)

  predicate Throws(b: Body) {
    match b
    case End(throws) => throws
    case Call(inner, catches, rest) => (Throws(inner) && !catches) || Throws(rest)
    case DropOwner(rest) => Throws(rest)
    case ReleaseOwner(rest) => Throws(rest)
  }

  /** The events of a body up to its end or to the first exception that leaves it. */
  function Trace(b: Body): seq<Event> {
    match b
    case End(_) => []
    case Call(inner, catches, rest) =>
      [Enter] + Trace(inner) + [Leave] + (if Throws(inner) && !catches then [] else Trace(rest))
    case DropOwner(rest) => [Drop] + Trace(rest)
    case ReleaseOwner(rest) => [Release] + Trace(rest)
  }

  // ----- The wrapper itself -----------------------------------------------------------------------

  /** What makeMutClosure returns, with the state it closes over. */
  class MutClosure {
    const env: nat
    var a: nat
    var cnt: int
    ghost var frames: seq<nat>
    ghost var freed: seq<nat>
    var owner: Owner  // kept by Rust
    ghost var collected: bool

    ghost function View(): State
      reads this
    {
      State(a, cnt, frames, freed, owner, collected)
    }

    constructor (arg0: nat)
      ensures env == arg0 && View() == Init(arg0)
    {
      env, a, cnt := arg0, arg0, 1;
      frames, freed, owner, collected := [], [], Held, false;
    }

    /** The exported destructor. */
    ghost method Destroy(p: nat)
      modifies this`freed
      ensures freed == Destroyed(old(freed), p)
    {
      if p != 0 {
        freed := freed + [p];
      }
    }

    /** The part of a call before the `try`. */
    method BeginCall() returns (local: nat)
      requires !collected
      modifies this
      ensures View() == Step(env, old(View()), Enter) && frames == old(frames) + [local]
    {
      cnt := cnt + 1;
      local := a;
      a := 0;
      frames := frames + [local];
    }

    /** The `finally` of a call. */
    method EndCall(local: nat)
      requires frames != [] && frames[|frames| - 1] == local
      modifies this
      ensures View() == Step(env, old(View()), Leave)
    {
      cnt := cnt - 1;
      if cnt == 0 {
        Destroy(local);
      } else {
        a := local;
      }
      frames := frames[..|frames| - 1];
    }

    /** __wbindgen_cb_drop, and the Rust caller that destroys the environment on true. */
    method CbDrop() returns (last: bool)
      requires owner == Held
      modifies this
      ensures View() == Step(env, old(View()), Drop) && last == (old(cnt) == 1)
    {
      owner := Dropped;
      cnt := cnt - 1;
      if cnt == 0 {
        a := 0;
        freed := freed + [env];
        return true;
      }
      return false;
    }

    /** The FinalizationRegistry callback, once nothing can call the wrapper any more. */
    method Finalize()
      requires owner != Held && frames == [] && !collected
      modifies this
      ensures View() == Step(env, old(View()), Collect)
    {
      Destroy(a);
      collected := true;
    }

    /** A whole call of the wrapper, whose body does `body`. */
    method CallReal(body: Body) returns (threw: bool)
      requires !collected
      modifies this
      ensures View() == Exec(env, old(View()), [Enter] + Trace(body) + [Leave]) && threw == Throws(body)
      ensures frames == old(frames) && !collected
      decreases body, 1
    {
      ghost var start := View();
      var local := BeginCall();
      ghost var inside := View();
      threw := RunBody(body);
      EndCall(local);
      ExecAppend(env, start, [Enter] + Trace(body), [Leave]);
      ExecAppend(env, start, [Enter], Trace(body));
      assert Exec(env, start, [Enter]) == inside;
    }

    /** The statements of a body, up to the first exception that leaves it. */
    method RunBody(body: Body) returns (threw: bool)
      requires !collected
      modifies this
      ensures View() == Exec(env, old(View()), Trace(body)) && threw == Throws(body)
      ensures frames == old(frames) && !collected
      decreases body, 0
    {
      ghost var start := View();
      match body {
        case End(throws) =>
          threw := throws;
        case DropOwner(rest) =>
          if owner == Held {
            var _ := CbDrop();
          }
          ExecAppend(env, start, [Drop], Trace(rest));
          threw := RunBody(rest);
        case ReleaseOwner(rest) =>
          if owner == Held {
            owner := Released;
          }
          ExecAppend(env, start, [Release], Trace(rest));
          threw := RunBody(rest);
        case Call(inner, catches, rest) =>
          threw := CallReal(inner);
          ExecAppend(env, start, [Enter] + Trace(inner) + [Leave], if threw && !catches then [] else Trace(rest));
          if !threw || catches {
            threw := RunBody(rest);
          }
      }
    }
  }

  // ----- The stack closure of __wbg_new ---------------------------------------------------------

  /** `returned` once the `finally` of __wbg_new has cleared the state. */
  datatype StackState = StackState(a: nat, frames: seq<nat>, returned: bool)

  datatype StackEvent = EnterCb | LeaveCb | Return

  /** The executor runs synchronously, so __wbg_new cannot return while it is in progress. */
  function StackStep(s: StackState, e: StackEvent): StackState {
    match e
    case EnterCb => s.(frames := s.frames + [s.a], a := 0)
    case LeaveCb =>
      if s.frames == [] then s
      else s.(a := s.frames[|s.frames| - 1], frames := s.frames[..|s.frames| - 1])
    case Return => if s.frames == [] then s.(a := 0, returned := true) else s
  }

  function StackExec(s: StackState, es: seq<StackEvent>): StackState
    decreases |es|
  {
    if es == [] then s else StackExec(StackStep(s, es[0]), es[1..])
  }

  ghost predicate StackLent(env: nat, s: StackState) {
    && (forall i :: 0 <= i < |s.frames| && (i > 0 || s.returned) ==> s.frames[i] == 0)
    && s.a == (if s.returned || s.frames != [] then 0 else env)
    && (!s.returned && s.frames != [] ==> s.frames[0] == env)
  }

  lemma {:induction false} StackExecKeepsLent(env: nat, s: StackState, es: seq<StackEvent>)
    requires StackLent(env, s)
    ensures StackLent(env, StackExec(s, es))
    decreases |es|
  {
    if es != [] {
      StackExecKeepsLent(env, StackStep(s, es[0]), es[1..]);
    }
  }

  /** The pointer into the Rust stack frame is lent to at most one callback at a time, and never
      again, however often JavaScript keeps calling, once __wbg_new has returned. */
  lemma StackPointerDoesNotEscape(env: nat, es: seq<StackEvent>)
    requires env != 0
    ensures var s := StackExec(StackState(env, [], false), es);
      && (s.returned ==> s.a == 0 && env !in s.frames)
      && multiset([s.a] + s.frames)[env] == (if s.returned then 0 else 1)
  {
    var s := StackExec(StackState(env, [], false), es);
    StackExecKeepsLent(env, StackState(env, [], false), es);
    var zeros := if s.frames == [] then [] else s.frames[1..];
    assert forall x :: x in zeros ==> x == 0;
    assert s.frames != [] ==> s.frames == [s.frames[0]] + zeros;
    assert multiset(zeros)[env] == 0;
  }

  /** The state that __wbg_new shares with its callback. */
  class StackClosure {
    var a: nat
    ghost var frames: seq<nat>
    ghost var returned: bool

    ghost function View(): StackState
      reads this
    {
      StackState(a, frames, returned)
    }

    constructor (arg0: nat)
      ensures View() == StackState(arg0, [], false)
    {
      a, frames, returned := arg0, [], false;
    }

    method BeginCallback() returns (local: nat)
      modifies this
      ensures View() == StackStep(old(View()), EnterCb) && frames == old(frames) + [local]
    {
      local := a;
      a := 0;
      frames := frames + [local];
    }

    method EndCallback(local: nat)
      requires frames != [] && frames[|frames| - 1] == local
      modifies this
      ensures View() == StackStep(old(View()), LeaveCb)
    {
      a := local;
      frames := frames[..|frames| - 1];
    }

    method ReturnFromNew()
      requires frames == []
      modifies this
      ensures View() == StackStep(old(View()), Return)
    {
      a := 0;
      returned := true;
    }
  }
}
