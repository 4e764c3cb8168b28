/** Where the accepted texts are, in what order they arrive, and that they all arrive somewhere. */
module RelayRouting {
  import opened Wrappers
  import opened Messages
  import opened Relay
  import opened RelayInvariants

  predicate Ascending(ks: seq<nat>) {
    forall i, j :: 0 <= i < j < |ks| ==> ks[i] < ks[j]
  }

  /** The numbers of the texts a session has output and then of those it still has to output. */
  function Trail(x: Session): seq<nat> {
    OutKs(x.output) + PostKs(x.mailbox)
  }

  /** How many accepted texts the server has already handled. */
  function Handled(s: State): int {
    |s.accepted| - |SendKs(s.server)|
  }

  predicate Genuine(s: State, p: Post, to: Id) {
    p.k < |s.accepted| && s.accepted[p.k].to == to && s.accepted[p.k].text == p.text
  }

  /** Mailbox and output of a session hold texts that were accepted for it, oldest first. */
  predicate Routed(s: State, x: Session) {
    && Ascending(Trail(x))
    && (forall k :: k in Trail(x) ==> k < Handled(s))
    && (forall i :: 0 <= i < |x.mailbox| ==> Genuine(s, x.mailbox[i], x.id))
    && (forall i :: 0 <= i < |x.output| && x.output[i].Forward? ==> Genuine(s, x.output[i].post, x.id))
  }

  /** The server mailbox holds exactly the latest accepted texts, in order. */
  predicate Numbered(s: State) {
    && Handled(s) >= 0
    && (forall i :: 0 <= i < |SendKs(s.server)| ==> SendKs(s.server)[i] == Handled(s) + i)
    && (forall i :: 0 <= i < |s.server| && s.server[i].Send? ==>
          Genuine(s, Post(s.server[i].text, s.server[i].k), s.server[i].to))
  }

  ghost predicate Routing(s: State) {
    Numbered(s) && forall a :: 0 <= a < |s.actors| ==> Routed(s, s.actors[a])
  }

  lemma {:induction false} SendKsSnoc(q: seq<Envelope>, e: Envelope)
    ensures SendKs(q + [e]) == SendKs(q) + (if e.Send? then [e.k] else [])
  {
    if q != [] {
      assert (q + [e])[1..] == q[1..] + [e];
      SendKsSnoc(q[1..], e);
    }
  }

  lemma TrailMoves(x: Session)
    requires x.mailbox != []
    ensures Trail(x.(mailbox := x.mailbox[1..], output := x.output + [Forward(x.mailbox[0])])) == Trail(x)
  {
    var os := x.output + [Forward(x.mailbox[0])];
    assert os[..|os| - 1] == x.output;
    assert PostKs(x.mailbox) == [x.mailbox[0].k] + PostKs(x.mailbox[1..]);
  }

  lemma TrailGrows(x: Session, p: Post)
    ensures Trail(x.(mailbox := x.mailbox + [p])) == Trail(x) + [p.k]
  {
    assert PostKs(x.mailbox + [p]) == PostKs(x.mailbox) + [p.k];
  }

  lemma TrailOfGreeting(x: Session, t: Text)
    ensures Trail(x.(output := x.output + [Hello(t)])) == Trail(x)
  {
    var os := x.output + [Hello(t)];
    assert os[..|os| - 1] == x.output;
  }

  lemma TrailOfStop(x: Session)
    requires Ascending(Trail(x))
    ensures Trail(x.(phase := Stopped, mailbox := [])) == OutKs(x.output) && Ascending(OutKs(x.output))
    ensures forall k :: k in OutKs(x.output) ==> k in Trail(x)
  {
    var ks := OutKs(x.output);
    assert forall i :: 0 <= i < |ks| ==> Trail(x)[i] == ks[i];
  }

  /** Sessions are not disturbed when more is accepted or more has been handled. */
  lemma RoutedLater(s: State, t: State, x: Session)
    requires Routed(s, x) && Handled(s) <= Handled(t)
    requires |s.accepted| <= |t.accepted| && s.accepted == t.accepted[..|s.accepted|]
    ensures Routed(t, x)
  {
    forall p: Post, to | Genuine(s, p, to) ensures Genuine(t, p, to) {
      assert t.accepted[p.k] == t.accepted[..|s.accepted|][p.k];
    }
  }

  lemma ReceiveKeepsRouting(s: State, a: Addr, text: Text)
    requires Routing(s) && Enabled(s, Receive(a, text)) && ServerParse(text).Some?
    ensures Routing(Step(s, Receive(a, text)))
  {
    var t := Step(s, Receive(a, text));
    var e := Send(ServerParse(text).value, text, |s.accepted|);
    SendKsSnoc(s.server, e);
    forall b | 0 <= b < |t.actors| ensures Routed(t, t.actors[b]) {
      RoutedLater(s, t, s.actors[b]);
    }
    forall i | 0 <= i < |t.server| && t.server[i].Send?
      ensures Genuine(t, Post(t.server[i].text, t.server[i].k), t.server[i].to)
    {
      if i < |s.server| {
        assert t.accepted[s.server[i].k] == s.accepted[s.server[i].k];
      }
    }
  }

  /** Taking the first envelope off the server mailbox. */
  lemma DequeueKeepsNumbered(s: State, t: State)
    requires Numbered(s) && s.server != [] && t.server == s.server[1..] && t.accepted == s.accepted
    ensures Numbered(t) && Handled(t) == Handled(s) + (if s.server[0].Send? then 1 else 0)
    ensures s.server[0].Send? ==> s.server[0].k == Handled(s)
  {
    var ks, ls := SendKs(s.server), SendKs(t.server);
    assert ks == (if s.server[0].Send? then [s.server[0].k] else []) + ls;
    if s.server[0].Send? {
      assert ks[0] == s.server[0].k;
    }
    forall i | 0 <= i < |ls| ensures ls[i] == Handled(t) + i {
      assert ls[i] == ks[i + |ks| - |ls|];
    }
  }

  lemma DeliverKeepsRouted(s: State, t: State, x: Session, p: Post)
    requires Routed(s, x) && t.accepted == s.accepted && Handled(t) == Handled(s) + 1
    requires p.k == Handled(s) && Genuine(s, p, x.id)
    ensures Routed(t, x.(mailbox := x.mailbox + [p]))
  {
    TrailGrows(x, p);
    assert forall i :: 0 <= i < |Trail(x)| ==> Trail(x)[i] in Trail(x);
  }

  lemma ServerKeepsRouting(s: State)
    requires Lifecycle(s) && Routing(s) && s.server != []
    ensures Routing(Step(s, ServerHandle))
  {
    var t, e := Step(s, ServerHandle), s.server[0];
    DequeueKeepsNumbered(s, t);
    forall b | 0 <= b < |t.actors| ensures Routed(t, t.actors[b]) {
      RoutedLater(s, t, s.actors[b]);
      if t.actors[b] != s.actors[b] {
        DeliverKeepsRouted(s, t, s.actors[b], Post(e.text, e.k));
      }
    }
  }

  lemma SessionKeepsRouting(s: State, l: Label, a: Addr)
    requires Routing(s) && Enabled(s, l) && l in {SessionHandle(a), Greet(a), Start(a), Stop(a)}
    ensures Routing(Step(s, l))
  {
    var t, x := Step(s, l), s.actors[a];
    if l.Start? {
      SendKsSnoc(s.server, Register(x.id, a));
    } else if l.Stop? {
      SendKsSnoc(s.server, Unregister(x.id));
    }
    RoutedLater(s, t, x);
    SessionStaysRouted(t, x);
    if l.SessionHandle? {
      HandlingStaysRouted(t, x);
    }
    forall b | 0 <= b < |t.actors| ensures Routed(t, t.actors[b]) {
      RoutedLater(s, t, s.actors[b]);
    }
  }

  /** What a session does by itself keeps its trail, or ends it. */
  lemma SessionStaysRouted(s: State, x: Session)
    requires Routed(s, x)
    ensures Routed(s, x.(phase := Registering)) && Routed(s, x.(phase := Stopped, mailbox := []))
    ensures Routed(s, x.(phase := Running, output := x.output + [Hello(Welcome(x.id))]))
  {
    TrailOfStop(x);
    TrailOfGreeting(x, Welcome(x.id));
  }

  lemma HandlingStaysRouted(s: State, x: Session)
    requires Routed(s, x) && x.mailbox != []
    ensures Routed(s, x.(mailbox := x.mailbox[1..], output := x.output + [Forward(x.mailbox[0])]))
  {
    TrailMoves(x);
  }

  lemma StepKeepsRouting(s: State, l: Label)
    requires Lifecycle(s) && Routing(s)
    ensures Routing(Step(s, l))
  {
    if Enabled(s, l) {
      match l
      case Receive(a, text) =>
        if ServerParse(text).Some? {
          ReceiveKeepsRouting(s, a, text);
        }
      case ServerHandle => ServerKeepsRouting(s);
      case Connect(id) =>
        var t := Step(s, l);
        forall b | 0 <= b < |t.actors| ensures Routed(t, t.actors[b]) {
          if b < |s.actors| {
            RoutedLater(s, t, s.actors[b]);
          }
        }
      case Start(a) => SessionKeepsRouting(s, l, a);
      case Greet(a) => SessionKeepsRouting(s, l, a);
      case Stop(a) => SessionKeepsRouting(s, l, a);
      case SessionHandle(a) => SessionKeepsRouting(s, l, a);
    }
  }

  lemma {:induction false} ExecKeepsRouting(s: State, ls: seq<Label>)
    requires Lifecycle(s) && Routing(s)
    ensures Routing(Exec(s, ls))
  {
    if ls != [] {
      ExecKeepsLifecycle(s, ls[..|ls| - 1]);
      ExecKeepsRouting(s, ls[..|ls| - 1]);
      StepKeepsRouting(Exec(s, ls[..|ls| - 1]), ls[|ls| - 1]);
    }
  }

  // ----- Order ------------------------------------------------------------------------------------

  /** Per-pair FIFO over all runs: what a session outputs are texts accepted for its id, word for
      word, in the order they were accepted and each at most once. */
  lemma OutputsAreSubsequence(ls: seq<Label>)
    ensures var s := Exec(INIT, ls);
      forall a :: 0 <= a < |s.actors| ==>
        && Ascending(OutKs(s.actors[a].output))
        && forall i :: 0 <= i < |s.actors[a].output| && s.actors[a].output[i].Forward? ==>
             Genuine(s, s.actors[a].output[i].post, s.actors[a].id)
  {
    ExecKeepsRouting(INIT, ls);
    var s := Exec(INIT, ls);
    forall a | 0 <= a < |s.actors| ensures Ascending(OutKs(s.actors[a].output)) {
      assert Routed(s, s.actors[a]);
      TrailOfStop(s.actors[a]);
    }
  }

  /** What a client built as an offer, an answer or a candidate comes out of the relay as just that: in
      every run, a forwarded output is the accepted text itself, and its receiver takes it for what it
      was. */
  lemma KindArrives(ls: seq<Label>, a: Addr, i: nat, from: Option<Id>, to: Option<Id>, sdp: Sdp, candidate: nat)
    requires var s := Exec(INIT, ls);
      a < |s.actors| && i < |s.actors[a].output| && s.actors[a].output[i].Forward?
    ensures var s := Exec(INIT, ls);
      var (out, k) := (OutText(s.actors[a].output[i]), s.actors[a].output[i].post.k);
      && k < |s.accepted| && out == s.accepted[k].text && s.accepted[k].to == s.actors[a].id
      && (Outgoing(from, to, "offer", sdp) == Some(s.accepted[k].text) ==>
            Dispatch(out) == ToOffer && !IsAnswer(out) && out.sdp == Some(sdp) && out.from == from)
      && (Outgoing(from, to, "answer", sdp) == Some(s.accepted[k].text) ==>
            Dispatch(out) == ToAnswer && !IsOffer(out) && out.sdp == Some(sdp) && out.from == from)
      && (OutgoingCandidate(from, to, candidate) == Some(s.accepted[k].text) ==>
            Dispatch(out) == ToCandidate && !IsSdp(out) && out.candidate == Some(candidate) && out.from == from)
  {
    OutputsAreSubsequence(ls);
    var s := Exec(INIT, ls);
    assert Genuine(s, s.actors[a].output[i].post, s.actors[a].id);
    GuardsAreExclusive(s.actors[a].output[i].post.text);
  }

  /** The numbers of the sends to `id` still in the server mailbox. */
  function Pending(q: seq<Envelope>, id: Id): seq<nat> {
    if q == [] then [] else (if q[0].Send? && q[0].to == id then [q[0].k] else []) + Pending(q[1..], id)
  }

  /** The numbers, from `lo` on, of the texts accepted for `id`. */
  function Addressed(accepted: seq<Accepted>, lo: nat, id: Id): seq<nat>
    requires lo <= |accepted|
  {
    if |accepted| == lo then []
    else
      var n := |accepted| - 1;
      Addressed(accepted[..n], lo, id) + (if accepted[n].to == id then [n] else [])
  }

  lemma {:induction false} PendingSnoc(q: seq<Envelope>, e: Envelope, id: Id)
    ensures Pending(q + [e], id) == Pending(q, id) + (if e.Send? && e.to == id then [e.k] else [])
  {
    if q != [] {
      assert (q + [e])[1..] == q[1..] + [e];
      PendingSnoc(q[1..], e, id);
    }
  }

  /** Everything on its way to the session at `a`, or already there. */
  function Stream(s: State, a: Addr): seq<nat>
    requires a < |s.actors|
  {
    Trail(s.actors[a]) + Pending(s.server, s.actors[a].id)
  }

  /** A session that the server knows and that has not stopped, greeted or not. */
  predicate Live(s: State, a: Addr) {
    && a < |s.actors| && s.actors[a].phase != Stopped
    && s.actors[a].id in s.sessions && s.sessions[s.actors[a].id] == a
    && Life(s.server, s.actors[a].id) == []
  }

  /** Live is just what it says: the other clause follows in every run. */
  lemma MappedIsLive(ls: seq<Label>, id: Id)
    ensures var s := Exec(INIT, ls);
      id in s.sessions ==>
        s.sessions[id] < |s.actors| && (Live(s, s.sessions[id]) <==> s.actors[s.sessions[id]].phase != Stopped)
  {
    ExecKeepsLifecycle(INIT, ls);
    var s := Exec(INIT, ls);
    if id in s.sessions {
      assert LifeOk(s, s.sessions[id]);
    }
  }

  /** While a session lives, a step neither loses, repeats nor reorders anything addressed to it. */
  lemma StepKeepsStream(s: State, l: Label, a: Addr)
    requires Lifecycle(s) && Live(s, a) && l != Stop(a)
    ensures var t := Step(s, l);
      && Live(t, a) && t.actors[a].id == s.actors[a].id && |s.accepted| <= |t.accepted|
      && Stream(t, a) == Stream(s, a) + Addressed(t.accepted, |s.accepted|, s.actors[a].id)
  {
    var id := s.actors[a].id;
    if Enabled(s, l) {
      match l
      case Start(b) => QueueKeepsStream(s, l, a, Register(s.actors[b].id, b));
      case Stop(b) => QueueKeepsStream(s, l, a, Unregister(s.actors[b].id));
      case Receive(b, text) =>
        if ServerParse(text).Some? {
          QueueKeepsStream(s, l, a, Send(ServerParse(text).value, text, |s.accepted|));
        }
      case SessionHandle(b) => TrailMoves(s.actors[b]);
      case ServerHandle => ServerKeepsStream(s, a);
      case Greet(b) => TrailOfGreeting(s.actors[b], Welcome(s.actors[b].id));
      case Connect(_) =>
    }
  }

  lemma ServerKeepsStream(s: State, a: Addr)
    requires Lifecycle(s) && Live(s, a) && Enabled(s, ServerHandle)
    ensures var t := Step(s, ServerHandle);
      Live(t, a) && t.actors[a].id == s.actors[a].id && t.accepted == s.accepted && Stream(t, a) == Stream(s, a)
  {
    var id, e := s.actors[a].id, s.server[0];
    if e.Send? && e.to == id {
      TrailGrows(s.actors[a], Post(e.text, e.k));
    }
  }

  lemma QueueKeepsStream(s: State, l: Label, a: Addr, e: Envelope)
    requires Lifecycle(s) && Live(s, a) && l != Stop(a) && Enabled(s, l) && (l.Start? || l.Stop? || l.Receive?)
    requires Step(s, l).server == s.server + [e]
    ensures var t := Step(s, l);
      && Live(t, a) && t.actors[a].id == s.actors[a].id && |s.accepted| <= |t.accepted|
      && Stream(t, a) == Stream(s, a) + Addressed(t.accepted, |s.accepted|, s.actors[a].id)
  {
    var t, id := Step(s, l), s.actors[a].id;
    assert LifeOk(s, a);
    assert t.server[|s.server|] == e;
    LifeSnoc(s.server, e, id);
    PendingSnoc(s.server, e, id);
    if |t.accepted| > |s.accepted| {
      assert t.accepted[..|s.accepted|] == s.accepted;
    }
  }

  lemma StreamGoesOn(s: State, m: State, t: State, a: Addr, id: Id)
    requires a < |s.actors| && a < |m.actors| && a < |t.actors|
    requires s.accepted <= m.accepted <= t.accepted
    requires Stream(m, a) == Stream(s, a) + Addressed(m.accepted, |s.accepted|, id)
    requires Stream(t, a) == Stream(m, a) + Addressed(t.accepted, |m.accepted|, id)
    ensures Stream(t, a) == Stream(s, a) + Addressed(t.accepted, |s.accepted|, id)
  {
    AddressedAgain(s.accepted, m.accepted, t.accepted, id);
  }

  /** The same over a whole run in which the session does not stop: everything accepted for it
      meanwhile is behind what was on its way before, in order. */
  lemma {:induction false} StreamOfLiveSession(s: State, ls: seq<Label>, a: Addr)
    requires Lifecycle(s) && Live(s, a) && Stop(a) !in ls
    ensures var t := Exec(s, ls);
      && Live(t, a) && t.actors[a].id == s.actors[a].id && s.accepted <= t.accepted
      && Stream(t, a) == Stream(s, a) + Addressed(t.accepted, |s.accepted|, s.actors[a].id)
  {
    if ls == [] {
      assert Stream(s, a) + [] == Stream(s, a);
    } else {
      var n := |ls| - 1;
      var m, id := Exec(s, ls[..n]), s.actors[a].id;
      StreamOfLiveSession(s, ls[..n], a);
      ExecKeepsLifecycle(s, ls[..n]);
      StepKeepsStream(m, ls[n], a);
      StepKeepsAccepted(m, ls[n]);
      assert Exec(s, ls) == Step(m, ls[n]);
      StreamGoesOn(s, m, Step(m, ls[n]), a, id);
    }
  }

  /** A registered session that does not stop, greeted yet or not, misses nothing: its output is a prefix of what was
      on its way to it followed by everything accepted for it since. */
  lemma LiveSessionMissesNothing(s: State, ls: seq<Label>, a: Addr)
    requires Lifecycle(s) && Live(s, a) && Stop(a) !in ls
    ensures var t := Exec(s, ls);
      && a < |t.actors| && |s.accepted| <= |t.accepted|
      && OutKs(t.actors[a].output) <= Stream(s, a) + Addressed(t.accepted, |s.accepted|, s.actors[a].id)
  {
    StreamOfLiveSession(s, ls, a);
    assert OutKs(Exec(s, ls).actors[a].output) <= Stream(Exec(s, ls), a);
  }

  lemma StepKeepsAccepted(s: State, l: Label)
    ensures s.accepted <= Step(s, l).accepted
  {
  }

  lemma {:induction false} AddressedSplits(accepted: seq<Accepted>, lo: nat, mid: nat, id: Id)
    requires lo <= mid <= |accepted|
    ensures Addressed(accepted, lo, id) == Addressed(accepted[..mid], lo, id) + Addressed(accepted, mid, id)
  {
    if mid == |accepted| {
      assert accepted[..mid] == accepted;
    } else {
      var n := |accepted| - 1;
      AddressedSplits(accepted[..n], lo, mid, id);
      assert accepted[..n][..mid] == accepted[..mid];
    }
  }

  lemma AddressedAgain(was: seq<Accepted>, then_: seq<Accepted>, now: seq<Accepted>, id: Id)
    requires was <= then_ <= now
    ensures Addressed(now, |was|, id) == Addressed(then_, |was|, id) + Addressed(now, |then_|, id)
  {
    AddressedSplits(now, |was|, |then_|, id);
    assert now[..|then_|] == then_;
  }

  // ----- Conservation ---------------------------------------------------------------------------

  /** How often `k` occurs. */
  function Count(ks: seq<nat>, k: nat): nat {
    if ks == [] then 0 else (if ks[0] == k then 1 else 0) + Count(ks[1..], k)
  }

  lemma {:induction false} CountAppend(ks: seq<nat>, ls: seq<nat>, k: nat)
    ensures Count(ks + ls, k) == Count(ks, k) + Count(ls, k)
  {
    if ks == [] {
      assert ks + ls == ls;
    } else {
      assert (ks + ls)[1..] == ks[1..] + ls;
      CountAppend(ks[1..], ls, k);
    }
  }

  lemma CountSnoc(ks: seq<nat>, j: nat, k: nat)
    ensures Count(ks + [j], k) == Count(ks, k) + (if j == k then 1 else 0)
  {
    CountAppend(ks, [j], k);
  }

  function InTrails(actors: seq<Session>, k: nat): nat {
    if actors == [] then 0
    else InTrails(actors[..|actors| - 1], k) + Count(Trail(actors[|actors| - 1]), k)
  }

  /** In how many places the text with number `k` is. */
  function Places(s: State, k: nat): nat {
    Count(SendKs(s.server), k) + InTrails(s.actors, k) + Count(s.unknown, k) + Count(s.dead, k)
  }

  lemma {:induction false} TrailsUpdate(actors: seq<Session>, a: Addr, x: Session, k: nat)
    requires a < |actors|
    ensures InTrails(actors[a := x], k) + Count(Trail(actors[a]), k) == InTrails(actors, k) + Count(Trail(x), k)
  {
    var n := |actors| - 1;
    if a == n {
      assert actors[a := x][..n] == actors[..n];
    } else {
      TrailsUpdate(actors[..n], a, x, k);
      assert actors[a := x][..n] == actors[..n][a := x];
    }
  }

  lemma SendsSnoc(q: seq<Envelope>, e: Envelope, k: nat)
    ensures Count(SendKs(q + [e]), k) == Count(SendKs(q), k) + (if e.Send? && e.k == k then 1 else 0)
  {
    SendKsSnoc(q, e);
    CountAppend(SendKs(q), if e.Send? then [e.k] else [], k);
  }

  lemma StopConserves(s: State, a: Addr, k: nat)
    requires Enabled(s, Stop(a))
    ensures Places(Step(s, Stop(a)), k) == Places(s, k)
  {
    var x, y := s.actors[a], Step(s, Stop(a)).actors[a];
    SendsSnoc(s.server, Unregister(x.id), k);
    CountAppend(OutKs(x.output), PostKs(x.mailbox), k);
    CountAppend(s.dead, PostKs(x.mailbox), k);
    assert Trail(y) == OutKs(x.output);
    TrailsUpdate(s.actors, a, y, k);
  }

  lemma SessionConserves(s: State, l: Label, a: Addr, k: nat)
    requires Enabled(s, l) && l in {SessionHandle(a), Greet(a), Start(a)}
    ensures Places(Step(s, l), k) == Places(s, k)
  {
    var x, y := s.actors[a], Step(s, l).actors[a];
    match l {
      case Start(_) => SendsSnoc(s.server, Register(x.id, a), k);
      case Greet(_) => TrailOfGreeting(x, Welcome(x.id));
      case SessionHandle(_) => TrailMoves(x);
    }
    TrailsUpdate(s.actors, a, y, k);
  }

  lemma DeliverConserves(s: State, a: Addr, p: Post, k: nat)
    requires a < |s.actors|
    ensures Places(Deliver(s, a, p), k) == Places(s, k) + (if p.k == k then 1 else 0)
  {
    CountSnoc(s.dead, p.k, k);
    if s.actors[a].phase != Stopped {
      TrailGrows(s.actors[a], p);
      CountSnoc(Trail(s.actors[a]), p.k, k);
      TrailsUpdate(s.actors, a, s.actors[a].(mailbox := s.actors[a].mailbox + [p]), k);
    }
  }

  lemma ServerConserves(s: State, k: nat)
    requires Lifecycle(s) && s.server != []
    ensures Places(Step(s, ServerHandle), k) == Places(s, k)
  {
    var e, rest := s.server[0], s.(server := s.server[1..]);
    assert SendKs(s.server) == (if e.Send? then [e.k] else []) + SendKs(rest.server);
    if e.Send? {
      assert SendKs(s.server)[1..] == SendKs(rest.server);
      assert Places(s, k) == Places(rest, k) + (if e.k == k then 1 else 0);
      CountSnoc(s.unknown, e.k, k);
      if e.to in s.sessions {
        DeliverConserves(rest, s.sessions[e.to], Post(e.text, e.k), k);
      }
    } else {
      assert SendKs(s.server) == SendKs(rest.server);
    }
  }

  lemma ConnectConserves(s: State, id: Id, k: nat)
    ensures Places(Step(s, Connect(id)), k) == Places(s, k)
  {
    var t := Step(s, Connect(id));
    if |t.actors| > |s.actors| {
      assert t.actors[..|t.actors| - 1] == s.actors;
      assert Trail(t.actors[|t.actors| - 1]) == [];
    }
  }

  /** A step moves texts from place to place; only an accepted text adds its number. */
  lemma StepConserves(s: State, l: Label, k: nat)
    requires Lifecycle(s)
    ensures var t := Step(s, l);
      Places(t, k) == Places(s, k) + (if |s.accepted| == k < |t.accepted| then 1 else 0)
  {
    if Enabled(s, l) {
      match l
      case Connect(id) => ConnectConserves(s, id, k);
      case Receive(a, text) =>
        if ServerParse(text).Some? {
          SendsSnoc(s.server, Send(ServerParse(text).value, text, |s.accepted|), k);
        }
      case ServerHandle => ServerConserves(s, k);
      case Start(a) => SessionConserves(s, l, a, k);
      case Greet(a) => SessionConserves(s, l, a, k);
      case Stop(a) => StopConserves(s, a, k);
      case SessionHandle(a) => SessionConserves(s, l, a, k);
    }
  }

  /** In every run each accepted text is in exactly one place: the server mailbox, the mailbox or
      the output of one session, dropped as unknown or dropped as dead. */
  lemma {:induction false} EachTextIsInOnePlace(ls: seq<Label>, k: nat)
    ensures var s := Exec(INIT, ls); Places(s, k) == if k < |s.accepted| then 1 else 0
  {
    if ls != [] {
      var s, l := Exec(INIT, ls[..|ls| - 1]), ls[|ls| - 1];
      EachTextIsInOnePlace(ls[..|ls| - 1], k);
      ExecKeepsLifecycle(INIT, ls[..|ls| - 1]);
      StepConserves(s, l, k);
      StepKeepsAccepted(s, l);
      AcceptsOneAtMost(s, l);
    }
  }

  lemma AcceptsOneAtMost(s: State, l: Label)
    ensures |Step(s, l).accepted| <= |s.accepted| + 1
  {
  }

  // ----- Quiescence -----------------------------------------------------------------------------

  function Boxes(actors: seq<Session>): nat {
    if actors == [] then 0 else Boxes(actors[..|actors| - 1]) + |actors[|actors| - 1].mailbox|
  }

  /** An envelope may still become a post, so it weighs two. */
  function Work(s: State): nat {
    2 * |s.server| + Boxes(s.actors)
  }

  lemma {:induction false} BoxesUpdate(actors: seq<Session>, a: Addr, x: Session)
    requires a < |actors|
    ensures Boxes(actors[a := x]) + |actors[a].mailbox| == Boxes(actors) + |x.mailbox|
  {
    var n := |actors| - 1;
    if a == n {
      assert actors[a := x][..n] == actors[..n];
    } else {
      BoxesUpdate(actors[..n], a, x);
      assert actors[a := x][..n] == actors[..n][a := x];
    }
  }

  /** Every handling step leaves less to do. */
  lemma HandlingDecreasesWork(s: State, l: Label)
    requires Lifecycle(s) && Enabled(s, l) && (l.ServerHandle? || l.SessionHandle?)
    ensures Work(Step(s, l)) < Work(s)
  {
    var t := Step(s, l);
    if l.SessionHandle? {
      BoxesUpdate(s.actors, l.a, t.actors[l.a]);
    } else if s.server[0].Send? && s.server[0].to in s.sessions {
      var a := s.sessions[s.server[0].to];
      BoxesUpdate(s.actors, a, t.actors[a]);
    }
  }

  predicate Quiet(s: State) {
    s.server == [] && forall a :: 0 <= a < |s.actors| ==> s.actors[a].phase == Running ==> s.actors[a].mailbox == []
  }

  /** Without new input the relay drains: the handling steps alone reach, from any state, one where
      the server and every running session have nothing left to handle. */
  lemma {:induction false} RelayDrains(s: State) returns (ls: seq<Label>)
    requires Lifecycle(s)
    ensures |ls| <= Work(s) && Quiet(Exec(s, ls))
    ensures forall l :: l in ls ==> l.ServerHandle? || l.SessionHandle?
    decreases Work(s)
  {
    if Quiet(s) {
      return [];
    }
    var l;
    if s.server != [] {
      l := ServerHandle;
    } else {
      var a :| 0 <= a < |s.actors| && s.actors[a].phase == Running && s.actors[a].mailbox != [];
      l := SessionHandle(a);
    }
    HandlingDecreasesWork(s, l);
    StepKeepsLifecycle(s, l);
    var rest := RelayDrains(Step(s, l));
    ls := [l] + rest;
    assert Exec(s, [l]) == Step(s, l) by {
      assert [l][..0] == [];
    }
    ExecAppend(s, [l], rest);
  }
}
