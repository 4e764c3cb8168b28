/**
 Two clients' sockets and the relay between them: what is on its way from each to the other, as
 two lists of texts that the relay can only move along.
 */
module Wire {
  import opened Wrappers
  import opened Messages
  import opened RelayInvariants
  import opened RelayRouting
  import R = Relay

  /** A client's socket: `taken` of the texts it sent have reached its session, and `seen` of its
      session's outputs have reached it. */
  datatype Port = Port(addr: R.Addr, id: Id, sent: seq<Text>, taken: nat, seen: nat)

  predicate CanGoUp(r: R.State, c: Port) {
    c.taken < |c.sent| && R.InPhase(r, c.addr, R.Running)
  }

  predicate CanComeDown(r: R.State, c: Port) {
    c.addr < |r.actors| && c.seen < |r.actors[c.addr].output|
  }

  function GoUp(r: R.State, c: Port): R.State
    requires CanGoUp(r, c)
  {
    R.Step(r, R.Receive(c.addr, c.sent[c.taken]))
  }

  function NextText(r: R.State, c: Port): Text
    requires CanComeDown(r, c)
  {
    R.OutText(r.actors[c.addr].output[c.seen])
  }

  /** The relay is in a state that some run of it reaches. */
  ghost predicate RelayOk(r: R.State) {
    exists ls :: r == R.Exec(R.INIT, ls)
  }

  lemma RelayFacts(r: R.State)
    requires RelayOk(r)
    ensures Lifecycle(r) && Routing(r) && AllGreeted(r)
  {
    var ls :| r == R.Exec(R.INIT, ls);
    ExecKeepsLifecycle(R.INIT, ls);
    ExecKeepsRouting(R.INIT, ls);
    WelcomeFirstAndOnce(ls);
  }

  lemma StepKeepsRelayOk(r: R.State, l: R.Label)
    requires RelayOk(r)
    ensures RelayOk(R.Step(r, l))
  {
    var ls :| r == R.Exec(R.INIT, ls);
    assert (ls + [l])[..|ls|] == ls;
    assert R.Step(r, l) == R.Exec(R.INIT, ls + [l]);
  }

  ghost predicate ClientOk(r: R.State, c: Port) {
    && Live(r, c.addr) && R.InPhase(r, c.addr, R.Running) && r.actors[c.addr].id == c.id
    && 1 <= c.seen <= |r.actors[c.addr].output| && c.taken <= |c.sent|
  }

  lemma {:induction false} OutKsOfGreeted(os: seq<R.Out>)
    requires os != [] && os[0].Hello? && forall i :: 0 < i < |os| ==> os[i].Forward?
    ensures |R.OutKs(os)| == |os| - 1
    ensures forall i :: 0 < i < |os| ==> R.OutKs(os)[i - 1] == os[i].post.k
  {
    if |os| == 1 {
      assert os[..0] == [];
    } else {
      OutKsOfGreeted(os[..|os| - 1]);
    }
  }

  lemma SeenFits(r: R.State, c: Port)
    requires RelayOk(r) && ClientOk(r, c)
    ensures c.seen - 1 <= |R.OutKs(r.actors[c.addr].output)| <= |Stream(r, c.addr)|
  {
    RelayFacts(r);
    assert Greeted(r.actors[c.addr]);
    OutKsOfGreeted(r.actors[c.addr].output);
  }

  /** The numbers of the accepted texts that have not yet come down to the client. */
  ghost function Unseen(r: R.State, c: Port): seq<nat>
    requires RelayOk(r) && ClientOk(r, c)
  {
    SeenFits(r, c);
    Stream(r, c.addr)[c.seen - 1..]
  }

  function Texts(accepted: seq<R.Accepted>, ks: seq<nat>): (ts: seq<Text>)
    ensures |ts| == |ks|
  {
    seq(|ks|, i requires 0 <= i < |ks| => if ks[i] < |accepted| then accepted[ks[i]].text else NotJson(""))
  }

  /** Everything on its way from one client to the other. */
  ghost function Channel(r: R.State, from: Port, to: Port): seq<Text>
    requires RelayOk(r) && ClientOk(r, from) && ClientOk(r, to)
  {
    Texts(r.accepted, Unseen(r, to)) + from.sent[from.taken..]
  }

  lemma {:induction false} PendingBounded(s: R.State, q: seq<R.Envelope>, id: Id)
    requires forall i :: 0 <= i < |q| && q[i].Send? ==> q[i].k < |s.accepted|
    ensures forall k :: k in Pending(q, id) ==> k < |s.accepted|
  {
    if q != [] {
      PendingBounded(s, q[1..], id);
    }
  }

  lemma StreamBounded(r: R.State, a: R.Addr)
    requires RelayOk(r) && a < |r.actors|
    ensures forall k :: k in Stream(r, a) ==> k < |r.accepted|
  {
    RelayFacts(r);
    assert Routed(r, r.actors[a]);
    PendingBounded(r, r.server, r.actors[a].id);
  }

  /** Whether the step makes the server accept a text for `id`. */
  predicate Addresses(l: R.Label, id: Id) {
    l.Receive? && ServerParse(l.text) == Some(id)
  }

  lemma NothingAddressed(r: R.State, l: R.Label, id: Id)
    requires !Addresses(l, id)
    ensures Addressed(R.Step(r, l).accepted, |r.accepted|, id) == []
  {
    var t := R.Step(r, l);
    if |t.accepted| > |r.accepted| {
      assert t.accepted[..|r.accepted|] == r.accepted;
    }
  }

  lemma OutputsGrow(r: R.State, l: R.Label, a: R.Addr)
    requires a < |r.actors|
    ensures var t := R.Step(r, l); a < |t.actors| && |r.actors[a].output| <= |t.actors[a].output|
    ensures R.InPhase(r, a, R.Running) && l != R.Stop(a) ==> R.InPhase(R.Step(r, l), a, R.Running)
  {
  }

  /** A relay step that accepts nothing for the client leaves what it has yet to see as it was. */
  lemma RelayKeepsUnseen(r: R.State, l: R.Label, c: Port)
    requires RelayOk(r) && ClientOk(r, c) && l != R.Stop(c.addr) && !Addresses(l, c.id)
    ensures var t := R.Step(r, l);
      && RelayOk(t) && ClientOk(t, c)
      && Unseen(t, c) == Unseen(r, c) && Texts(t.accepted, Unseen(t, c)) == Texts(r.accepted, Unseen(r, c))
  {
    var t := R.Step(r, l);
    RelayFacts(r);
    StepKeepsRelayOk(r, l);
    StepKeepsStream(r, l, c.addr);
    NothingAddressed(r, l, c.id);
    OutputsGrow(r, l, c.addr);
    StepKeepsAccepted(r, l);
    assert Stream(t, c.addr) == Stream(r, c.addr);
    UnseenStays(r, t, c);
  }

  lemma UnseenBounded(r: R.State, c: Port)
    requires RelayOk(r) && ClientOk(r, c)
    ensures forall k :: k in Unseen(r, c) ==> k < |r.accepted|
  {
    SeenFits(r, c);
    StreamBounded(r, c.addr);
    forall i | 0 <= i < |Unseen(r, c)| ensures Unseen(r, c)[i] < |r.accepted| {
      assert Unseen(r, c)[i] == Stream(r, c.addr)[c.seen - 1 + i];
      assert Stream(r, c.addr)[c.seen - 1 + i] in Stream(r, c.addr);
    }
  }

  lemma UnseenStays(r: R.State, t: R.State, c: Port)
    requires RelayOk(r) && ClientOk(r, c) && RelayOk(t) && ClientOk(t, c) && r.accepted <= t.accepted
    requires Stream(t, c.addr) == Stream(r, c.addr)
    ensures Unseen(t, c) == Unseen(r, c) && Texts(t.accepted, Unseen(t, c)) == Texts(r.accepted, Unseen(r, c))
  {
    UnseenBounded(r, c);
    TextsLater(r.accepted, t.accepted, Unseen(r, c));
  }

  lemma TextsLater(was: seq<R.Accepted>, now: seq<R.Accepted>, ks: seq<nat>)
    requires was <= now && forall k :: k in ks ==> k < |was|
    ensures Texts(now, ks) == Texts(was, ks)
  {
    forall i | 0 <= i < |ks| ensures Texts(now, ks)[i] == Texts(was, ks)[i] {
      assert ks[i] in ks;
    }
  }

  lemma OneAddressed(was: seq<R.Accepted>, x: R.Accepted)
    ensures Addressed(was + [x], |was|, x.to) == [|was|]
  {
    assert (was + [x])[..|was|] == was;
    assert Addressed((was + [x])[..|was|], |was|, x.to) == [];
  }

  lemma TextsSnoc(was: seq<R.Accepted>, x: R.Accepted, ks: seq<nat>)
    requires forall k :: k in ks ==> k < |was|
    ensures Texts(was + [x], ks + [|was|]) == Texts(was, ks) + [x.text]
  {
    TextsLater(was, was + [x], ks);
    assert Texts(was + [x], ks + [|was|]) == Texts(was + [x], ks) + [x.text];
  }

  /** A text accepted for the client is the last thing it will see. */
  lemma RelayAddsUnseen(r: R.State, from: R.Addr, text: Text, c: Port)
    requires RelayOk(r) && ClientOk(r, c) && R.InPhase(r, from, R.Running) && ServerParse(text) == Some(c.id)
    ensures var t := R.Step(r, R.Receive(from, text));
      && RelayOk(t) && ClientOk(t, c)
      && Texts(t.accepted, Unseen(t, c)) == Texts(r.accepted, Unseen(r, c)) + [text]
  {
    var l := R.Receive(from, text);
    var t, x := R.Step(r, l), R.Accepted(from, c.id, text);
    RelayFacts(r);
    StepKeepsRelayOk(r, l);
    StepKeepsStream(r, l, c.addr);
    OutputsGrow(r, l, c.addr);
    OneAddressed(r.accepted, x);
    UnseenSnoc(r, t, x, c);
  }

  lemma UnseenSnoc(r: R.State, t: R.State, x: R.Accepted, c: Port)
    requires RelayOk(r) && ClientOk(r, c) && RelayOk(t) && ClientOk(t, c) && t.accepted == r.accepted + [x]
    requires Stream(t, c.addr) == Stream(r, c.addr) + [|r.accepted|]
    ensures Texts(t.accepted, Unseen(t, c)) == Texts(r.accepted, Unseen(r, c)) + [x.text]
  {
    SeenFits(r, c);
    assert Unseen(t, c) == Unseen(r, c) + [|r.accepted|];
    UnseenBounded(r, c);
    TextsSnoc(r.accepted, x, Unseen(r, c));
  }

  /** The next output is the head of what the client has yet to see. */
  lemma NextIsHead(r: R.State, c: Port)
    requires RelayOk(r) && ClientOk(r, c) && CanComeDown(r, c)
    ensures var out := r.actors[c.addr].output[c.seen];
      && out.Forward? && Genuine(r, out.post, c.id)
      && Unseen(r, c) != [] && Unseen(r, c)[0] == out.post.k
  {
    var x := r.actors[c.addr];
    RelayFacts(r);
    assert Greeted(x) && Routed(r, x);
    OutKsOfGreeted(x.output);
    SeenFits(r, c);
    assert Unseen(r, c)[0] == R.OutKs(x.output)[c.seen - 1];
  }

  /** What comes down next is the oldest text the client has not seen. */
  lemma NextDown(r: R.State, c: Port)
    requires RelayOk(r) && ClientOk(r, c) && CanComeDown(r, c)
    ensures var ts := Texts(r.accepted, Unseen(r, c));
      && ClientOk(r, c.(seen := c.seen + 1)) && ts != []
      && ts[0] == NextText(r, c)
      && Texts(r.accepted, Unseen(r, c.(seen := c.seen + 1))) == ts[1..]
  {
    NextIsHead(r, c);
    SeenFits(r, c);
    assert Unseen(r, c.(seen := c.seen + 1)) == Unseen(r, c)[1..];
  }

  /** `toD` is on its way from `c` to `d`, and `toC` the other way. */
  ghost predicate Carries(r: R.State, c: Port, d: Port, toD: seq<Text>, toC: seq<Text>) {
    && RelayOk(r) && ClientOk(r, c) && ClientOk(r, d) && c.addr != d.addr && c.id != d.id
    && Channel(r, c, d) == toD && Channel(r, d, c) == toC
  }

  /** Whatever else the relay does, both channels keep their contents and order. */
  lemma CarriesOn(r: R.State, l: R.Label, c: Port, d: Port, toD: seq<Text>, toC: seq<Text>)
    requires Carries(r, c, d, toD, toC)
    requires l != R.Stop(c.addr) && l != R.Stop(d.addr) && !Addresses(l, c.id) && !Addresses(l, d.id)
    ensures Carries(R.Step(r, l), c, d, toD, toC)
  {
    RelayKeepsUnseen(r, l, c);
    RelayKeepsUnseen(r, l, d);
  }

  lemma NextUp(r: R.State, c: Port, d: Port)
    requires RelayOk(r) && ClientOk(r, c) && ClientOk(r, d) && CanGoUp(r, c)
    ensures c.sent[c.taken] in Channel(r, c, d)
  {
    assert Channel(r, c, d)[|Unseen(r, d)|] == c.sent[c.taken];
  }

  /** A text that goes up a socket only moves along its channel. */
  lemma CarriesUp(r: R.State, c: Port, d: Port, toD: seq<Text>, toC: seq<Text>)
    requires Carries(r, c, d, toD, toC) && CanGoUp(r, c)
    requires forall t :: t in toD ==> ServerParse(t) == Some(d.id)
    ensures Carries(GoUp(r, c), c.(taken := c.taken + 1), d, toD, toC)
  {
    var text := c.sent[c.taken];
    assert c.sent[c.taken..] == [text] + c.sent[c.taken + 1..];
    NextUp(r, c, d);
    RelayAddsUnseen(r, c.addr, text, d);
    RelayKeepsUnseen(r, R.Receive(c.addr, text), c);
    SameUnseen(GoUp(r, c), c, c.(taken := c.taken + 1));
  }

  /** What comes down a socket is the head of its channel. */
  lemma CarriesDown(r: R.State, c: Port, d: Port, toD: seq<Text>, toC: seq<Text>)
    requires Carries(r, c, d, toD, toC) && CanComeDown(r, d)
    ensures toD != [] && NextText(r, d) == toD[0]
    ensures Carries(r, c, d.(seen := d.seen + 1), toD[1..], toC)
  {
    NextDown(r, d);
  }

  lemma CarriesSaid(r: R.State, c: Port, d: Port, toD: seq<Text>, toC: seq<Text>, said: seq<Text>)
    requires Carries(r, c, d, toD, toC)
    ensures Carries(r, c.(sent := c.sent + said), d, toD + said, toC)
  {
    SameUnseen(r, c, c.(sent := c.sent + said));
    assert (c.sent + said)[c.taken..] == c.sent[c.taken..] + said;
  }

  lemma CarriesBack(r: R.State, c: Port, d: Port, toD: seq<Text>, toC: seq<Text>)
    requires Carries(r, c, d, toD, toC)
    ensures Carries(r, d, c, toC, toD)
  {
  }

  /** What a client has yet to see does not depend on what it has sent. */
  lemma SameUnseen(r: R.State, c: Port, d: Port)
    requires RelayOk(r) && ClientOk(r, c) && c.addr == d.addr && c.id == d.id && c.seen == d.seen && d.taken <= |d.sent|
    ensures ClientOk(r, d) && Unseen(r, d) == Unseen(r, c)
  {
  }
}
