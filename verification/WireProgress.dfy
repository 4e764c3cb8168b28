/** How far a text on its way has got, and that the relay only ever brings it nearer. */
module WireProgress {
  import opened Messages
  import opened RelayInvariants
  import opened RelayRouting
  import opened Wire
  import R = Relay

  /** Where the only text on its way is: 3 in the sender's socket, 2 in the server mailbox behind
      `ahead` other envelopes, 1 in the recipient's mailbox, 0 in the recipient's socket. */
  datatype Place = Place(hop: nat, ahead: nat)

  predicate Nearer(a: Place, b: Place) {
    a.hop < b.hop || (a.hop == b.hop && a.ahead < b.ahead)
  }

  /** The envelopes before the first send to `id`. */
  function Ahead(q: seq<R.Envelope>, id: Id): nat {
    if q == [] || (q[0].Send? && q[0].to == id) then 0 else 1 + Ahead(q[1..], id)
  }

  function Where(r: R.State, c: Port, d: Port): Place
    requires d.addr < |r.actors|
  {
    if c.taken < |c.sent| then Place(3, 0)
    else if d.seen < |r.actors[d.addr].output| then Place(0, 0)
    else if r.actors[d.addr].mailbox != [] then Place(1, 0)
    else Place(2, Ahead(r.server, d.id))
  }

  lemma {:induction false} AheadSnoc(q: seq<R.Envelope>, e: R.Envelope, id: Id)
    requires Pending(q, id) != []
    ensures Ahead(q + [e], id) == Ahead(q, id)
  {
    assert (q + [e])[1..] == q[1..] + [e];
    if !(q[0].Send? && q[0].to == id) {
      AheadSnoc(q[1..], e, id);
    }
  }

  /** In the server mailbox it really is. */
  lemma QueuedIsPending(r: R.State, c: Port, d: Port, t: Text, toC: seq<Text>)
    requires Carries(r, c, d, [t], toC) && Where(r, c, d).hop == 2
    ensures Pending(r.server, d.id) != []
  {
    var x := r.actors[d.addr];
    RelayFacts(r);
    assert Greeted(x);
    OutKsOfGreeted(x.output);
    assert c.sent[c.taken..] == [];
    assert |Unseen(r, d)| == 1;
    assert Stream(r, d.addr)[d.seen - 1..] == Pending(r.server, d.id);
  }

  /** Output grows, and a mailbox only empties onto the output. */
  lemma SessionGoesOn(r: R.State, l: R.Label, a: R.Addr)
    requires a < |r.actors| && l != R.Stop(a)
    ensures var t := R.Step(r, l);
      && a < |t.actors| && |r.actors[a].output| <= |t.actors[a].output|
      && (r.actors[a].mailbox != [] ==> t.actors[a].mailbox != [] || |r.actors[a].output| < |t.actors[a].output|)
  {
  }

  lemma QueueGoesOn(r: R.State, l: R.Label, id: Id)
    requires Pending(r.server, id) != [] && l != R.ServerHandle
    ensures Ahead(R.Step(r, l).server, id) == Ahead(r.server, id)
  {
    var q := R.Step(r, l).server;
    if q != r.server {
      var e := q[|r.server|];
      assert q == r.server + [e];
      AheadSnoc(r.server, e, id);
    }
  }

  lemma ServerHandsOn(r: R.State, a: R.Addr)
    requires Lifecycle(r) && Live(r, a) && r.server != []
    ensures var e, u := r.server[0], R.Step(r, R.ServerHandle);
      && R.Enabled(r, R.ServerHandle) && u.server == r.server[1..] && a < |u.actors|
      && (e.Send? && e.to == r.actors[a].id ==> u.actors[a].mailbox != [])
  {
  }

  /** The server hands its first envelope on, and any other one comes nearer. */
  lemma ServerBringsNearer(r: R.State, c: Port, d: Port, t: Text, toC: seq<Text>)
    requires Carries(r, c, d, [t], toC) && Where(r, c, d).hop == 2
    ensures R.Enabled(r, R.ServerHandle)
    ensures var u := R.Step(r, R.ServerHandle); d.addr < |u.actors| && Nearer(Where(u, c, d), Where(r, c, d))
  {
    RelayFacts(r);
    QueuedIsPending(r, c, d, t, toC);
    ServerHandsOn(r, d.addr);
    SessionGoesOn(r, R.ServerHandle, d.addr);
  }

  /** The recipient's session puts it on the socket. */
  lemma SessionBringsNearer(r: R.State, c: Port, d: Port, t: Text, toC: seq<Text>)
    requires Carries(r, c, d, [t], toC) && Where(r, c, d).hop == 1
    ensures R.Enabled(r, R.SessionHandle(d.addr))
    ensures var u := R.Step(r, R.SessionHandle(d.addr)); d.addr < |u.actors| && Nearer(Where(u, c, d), Where(r, c, d))
  {
  }

  /** From its sender's socket it goes up. */
  lemma UpBringsNearer(r: R.State, c: Port, d: Port, t: Text, toC: seq<Text>)
    requires Carries(r, c, d, [t], toC) && Where(r, c, d).hop == 3
    ensures CanGoUp(r, c)
    ensures var u := GoUp(r, c);
      d.addr < |u.actors| && Nearer(Where(u, c.(taken := c.taken + 1), d), Where(r, c, d))
  {
    SessionGoesOn(r, R.Receive(c.addr, c.sent[c.taken]), d.addr);
    assert |c.sent[c.taken..]| == 1;
  }

  /** Whatever the relay does otherwise, the text is not set back. */
  lemma NeverFarther(r: R.State, l: R.Label, c: Port, d: Port, t: Text, toC: seq<Text>)
    requires Carries(r, c, d, [t], toC) && l != R.Stop(d.addr)
    ensures var u := R.Step(r, l); d.addr < |u.actors| && !Nearer(Where(r, c, d), Where(u, c, d))
  {
    SessionGoesOn(r, l, d.addr);
    if Where(r, c, d).hop == 2 {
      if l == R.ServerHandle {
        ServerBringsNearer(r, c, d, t, toC);
      } else {
        QueuedIsPending(r, c, d, t, toC);
        QueueGoesOn(r, l, d.id);
      }
    }
  }
}
