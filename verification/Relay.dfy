/**
 The signaling server (signaling/src/main.rs) as an actor system: one server actor, one session
 actor per socket, a FIFO mailbox each, and sends that never block and are lost when the target
 is dead. Every text the server accepts is numbered, so that it can be followed.
 */
module Relay {
  import opened Wrappers
  import opened Messages

  /** An actor address: the place of the session among all sessions ever started. */
  type Addr = nat

  datatype Envelope =
    | Register(id: Id, addr: Addr)
    | Unregister(id: Id)
    | Send(to: Id, text: Text, k: nat)

  datatype Post = Post(text: Text, k: nat)

  /** What a session writes on its socket. */
  datatype Out = Hello(greeting: Text) | Forward(post: Post)

  function OutText(o: Out): Text {
    match o case Hello(t) => t case Forward(p) => p.text
  }

  /** `Registering`: inside `started`, between the registration and the greeting. */
  datatype Phase = Created | Registering | Running | Stopped

  datatype Session = Session(id: Id, phase: Phase, mailbox: seq<Post>, output: seq<Out>)

  datatype Accepted = Accepted(from: Addr, to: Id, text: Text)

  /** `accepted` lists the texts that parsed, in the order the server mailbox received them;
      `unknown` and `dead` the numbers of those dropped for want of a recipient. */
  datatype State = State(
    server: seq<Envelope>, sessions: map<Id, Addr>, actors: seq<Session>,
    accepted: seq<Accepted>, unknown: seq<nat>, dead: seq<nat>)

  datatype Label =
    | Connect(id: Id)
    | Start(a: Addr)
    | Greet(a: Addr)
    | Receive(a: Addr, text: Text)
    | Stop(a: Addr)
    | ServerHandle
    | SessionHandle(a: Addr)

  const INIT := State([], map[], [], [], [], [])

  predicate InPhase(s: State, a: Addr, phase: Phase) {
    a < |s.actors| && s.actors[a].phase == phase
  }

  /** `Uuid::new_v4` never repeats an id. */
  predicate IdInUse(s: State, id: Id) {
    exists a :: 0 <= a < |s.actors| && s.actors[a].id == id
  }

  predicate Enabled(s: State, l: Label) {
    match l
    case Connect(id) => !IdInUse(s, id)
    case Start(a) => InPhase(s, a, Created)
    case Greet(a) => InPhase(s, a, Registering)
    case Receive(a, _) => InPhase(s, a, Running)
    case Stop(a) => InPhase(s, a, Running)
    case ServerHandle => s.server != [] && (s.server[0].Send? && s.server[0].to in s.sessions ==>
        s.sessions[s.server[0].to] < |s.actors|)
    case SessionHandle(a) => InPhase(s, a, Running) && s.actors[a].mailbox != []
  }

  /** Numbers of the posts in a mailbox, of the forwarded outputs, of the sends in a mailbox. */
  function PostKs(ps: seq<Post>): (ks: seq<nat>)
    ensures |ks| == |ps|
  {
    seq(|ps|, i requires 0 <= i < |ps| => ps[i].k)
  }

  function OutKs(os: seq<Out>): seq<nat> {
    if os == [] then []
    else OutKs(os[..|os| - 1]) + (if os[|os| - 1].Forward? then [os[|os| - 1].post.k] else [])
  }

  function SendKs(q: seq<Envelope>): seq<nat> {
    if q == [] then [] else (if q[0].Send? then [q[0].k] else []) + SendKs(q[1..])
  }

  /** do_send to a session. */
  function Deliver(s: State, a: Addr, p: Post): State
    requires a < |s.actors|
  {
    if s.actors[a].phase == Stopped then s.(dead := s.dead + [p.k])
    else s.(actors := s.actors[a := s.actors[a].(mailbox := s.actors[a].mailbox + [p])])
  }

  /** The three handlers of the server. */
  function Handle(s: State, e: Envelope): State
    requires e.Send? && e.to in s.sessions ==> s.sessions[e.to] < |s.actors|
  {
    match e
    case Register(id, addr) => s.(sessions := s.sessions[id := addr])
    case Unregister(id) => s.(sessions := s.sessions - {id})
    case Send(to, text, k) =>
      if to in s.sessions then Deliver(s, s.sessions[to], Post(text, k)) else s.(unknown := s.unknown + [k])
  }

  function WithActor(s: State, a: Addr, x: Session): State
    requires a < |s.actors|
  {
    s.(actors := s.actors[a := x])
  }

  /** One step; a step that cannot happen changes nothing. */
  function Step(s: State, l: Label): State {
    if !Enabled(s, l) then s
    else match l
      case Connect(id) => s.(actors := s.actors + [Session(id, Created, [], [])])
      case Start(a) =>
        WithActor(s, a, s.actors[a].(phase := Registering)).(server := s.server + [Register(s.actors[a].id, a)])
      case Greet(a) =>
        WithActor(s, a, s.actors[a].(phase := Running, output := s.actors[a].output + [Hello(Welcome(s.actors[a].id))]))
      case Receive(a, text) =>
        var to := ServerParse(text);
        if to.None? then s
        else s.(accepted := s.accepted + [Accepted(a, to.value, text)],
                server := s.server + [Send(to.value, text, |s.accepted|)])
      case Stop(a) =>
        WithActor(s, a, s.actors[a].(phase := Stopped, mailbox := []))
          .(server := s.server + [Unregister(s.actors[a].id)], dead := s.dead + PostKs(s.actors[a].mailbox))
      case ServerHandle => Handle(s.(server := s.server[1..]), s.server[0])
      case SessionHandle(a) =>
        var x := s.actors[a];
        WithActor(s, a, x.(mailbox := x.mailbox[1..], output := x.output + [Forward(x.mailbox[0])]))
  }

  /** A run: from `s`, the labels of `ls` in order. */
  function Exec(s: State, ls: seq<Label>): State {
    if ls == [] then s else Step(Exec(s, ls[..|ls| - 1]), ls[|ls| - 1])
  }

  lemma {:induction false} ExecAppend(s: State, ls: seq<Label>, ms: seq<Label>)
    ensures Exec(s, ls + ms) == Exec(Exec(s, ls), ms)
  {
    if ms == [] {
      assert ls + ms == ls;
    } else {
      var n := |ms| - 1;
      ExecAppend(s, ls, ms[..n]);
      assert (ls + ms)[..|ls + ms| - 1] == ls + ms[..n];
    }
  }
}
