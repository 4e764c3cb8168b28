/** Suspended activations do not disturb one another. */
module PageActivations {
  import opened Wrappers
  import opened Messages
  import opened PeerConnection
  import opened Page

  /** The activation whose awaited call ends in this step. */
  function Settled(p: Page, e: Event): Option<nat> {
    if Enabled(p, e) && e.Resolve? then Some(e.i)
    else if Enabled(p, e) && e.Reject? then Some(e.i)
    else None
  }

  /** Where activation `j` is after the step, unless it is the one that is settled. */
  function Moved(p: Page, e: Event, j: nat): nat {
    if |Step(p, e).acts| < |p.acts| && j > 0 && Settled(p, e).Some? && Settled(p, e).value < j then j - 1 else j
  }

  /** A step ends at most the activation that it settles. Every other one stays suspended, in its order
      and with what it has captured. */
  lemma OthersStay(p: Page, e: Event, j: nat)
    requires j < |p.acts| && Settled(p, e) != Some(j)
    ensures var q := Step(p, e);
      && Moved(p, e, j) < |q.acts| && q.acts[Moved(p, e, j)] == p.acts[j]
      && (forall k :: j < k < |p.acts| && Settled(p, e) != Some(k) ==> Moved(p, e, j) < Moved(p, e, k))
      && |p.acts| - 1 <= |q.acts| <= |p.acts| + 1 && p.sent <= q.sent
  {
    if Settled(p, e).Some? {
      SettlingTouchesOne(p, e);
    } else {
      OtherEventsAdd(p, e);
    }
  }

  lemma SettlingTouchesOne(p: Page, e: Event)
    requires Settled(p, e).Some?
    ensures var (q, i) := (Step(p, e), Settled(p, e).value);
      && i < |p.acts| && p.sent <= q.sent
      && (q.acts == p.acts[..i] + p.acts[i + 1..] || (|q.acts| == |p.acts| && q.acts == p.acts[i := q.acts[i]]))
  {
  }

  lemma OtherEventsAdd(p: Page, e: Event)
    requires Settled(p, e).None?
    ensures p.acts <= Step(p, e).acts && |Step(p, e).acts| <= |p.acts| + 1 && p.sent == Step(p, e).sent
  {
  }

  /** A failing call ends its own activation and no other, with the flag down. */
  lemma FailureEndsOne(p: Page, i: nat)
    requires i < |p.acts|
    ensures Step(p, Reject(i)) == p.(negotiating := false, acts := p.acts[..i] + p.acts[i + 1..])
  {
  }

  /** Where activation `j` is after a run that does not settle it. */
  function Follow(p: Page, j: nat, es: seq<Event>): nat {
    if es == [] then j
    else Moved(Exec(p, es[..|es| - 1]), es[|es| - 1], Follow(p, j, es[..|es| - 1]))
  }

  /** The run may settle any activation but this one. */
  predicate LeavesAlone(p: Page, j: nat, es: seq<Event>) {
    forall n :: 0 <= n < |es| ==> Settled(Exec(p, es[..n]), es[n]) != Some(Follow(p, j, es[..n]))
  }

  lemma {:induction false} Waits(p: Page, j: nat, es: seq<Event>)
    requires j < |p.acts| && LeavesAlone(p, j, es)
    ensures var q := Exec(p, es);
      Follow(p, j, es) < |q.acts| && q.acts[Follow(p, j, es)] == p.acts[j] && p.sent <= q.sent
  {
    if es != [] {
      var n := |es| - 1;
      assert LeavesAlone(p, j, es[..n]) by {
        forall m | 0 <= m < n ensures Settled(Exec(p, es[..n][..m]), es[..n][m]) != Some(Follow(p, j, es[..n][..m])) {
          assert es[..n][..m] == es[..m];
        }
      }
      Waits(p, j, es[..n]);
      OthersStay(Exec(p, es[..n]), es[n], Follow(p, j, es[..n]));
    }
  }

  /** The activation's own call succeeds, after any run that leaves it alone. */
  predicate Succeeds(p: Page, j: nat, es: seq<Event>, o: Outcome) {
    LeavesAlone(p, j, es) && Enabled(Exec(p, es), Resolve(Follow(p, j, es), o))
  }

  function After(p: Page, j: nat, es: seq<Event>, o: Outcome): Page {
    Step(Exec(p, es), Resolve(Follow(p, j, es), o))
  }

  /** A suspended createOffer whose own calls succeed sets its offer and sends it to the peer it has
      captured, whatever becomes of all other activations meanwhile. */
  lemma OfferIsSent(p: Page, j: nat, es: seq<Event>, o: Outcome, q: Page, fs: seq<Event>, u: Outcome, r: Page)
    requires j < |p.acts| && p.acts[j].Offering? && Truthy(p.acts[j].clientId)
    requires Succeeds(p, j, es, o) && q == After(p, j, es, o)
    requires Succeeds(q, Follow(p, j, es), fs, u) && r == After(q, Follow(p, j, es), fs, u)
    ensures var offer := CreateOffer(Exec(p, es).pc).1;
      && r.sent == Exec(q, fs).sent + [OfferText(p.acts[j].clientId.value, p.acts[j].peer, offer)]
      && r.pc.pendingLocal == Some(offer) && r.pc.state == HaveLocalOffer
  {
    Waits(p, j, es);
    var k := Follow(p, j, es);
    OfferIsMade(Exec(p, es), k, o);
    Waits(q, k, fs);
    OfferIsSet(Exec(q, fs), Follow(q, k, fs), u);
  }

  lemma OfferIsMade(p: Page, j: nat, o: Outcome)
    requires Enabled(p, Resolve(j, o)) && p.acts[j].Offering?
    ensures var q := Step(p, Resolve(j, o));
      j < |q.acts| && q.acts[j] == SettingOffer(p.acts[j].clientId, p.acts[j].peer, CreateOffer(p.pc).1)
  {
  }

  lemma OfferIsSet(p: Page, j: nat, o: Outcome)
    requires Enabled(p, Resolve(j, o)) && p.acts[j].SettingOffer? && Truthy(p.acts[j].clientId)
    ensures var r := Step(p, Resolve(j, o));
      && r.sent == p.sent + [OfferText(p.acts[j].clientId.value, p.acts[j].peer, p.acts[j].offer)]
      && r.pc.pendingLocal == Some(p.acts[j].offer) && r.pc.state == HaveLocalOffer
  {
  }

  /** A suspended handler of an offer whose own calls succeed answers the offer then pending, and sends
      the answer to the sender it has captured. */
  lemma AnswerIsSent(p: Page, j: nat, es: seq<Event>, o: Outcome, q: Page, fs: seq<Event>, u: Outcome, r: Page)
    requires j < |p.acts| && p.acts[j].Answering? && Truthy(p.acts[j].clientId) && p.acts[j].from.Some?
    requires Succeeds(p, j, es, o) && q == After(p, j, es, o)
    requires Succeeds(q, Follow(p, j, es), fs, u) && r == After(q, Follow(p, j, es), fs, u)
    ensures Exec(p, es).pc.pendingRemote.Some?
    ensures var was := Exec(p, es).pc;
      var answer := Answer(was.name, was.made, was.pendingRemote.value);
      && r.sent == Exec(q, fs).sent + [AnswerText(p.acts[j].clientId.value, p.acts[j].from.value, answer)]
      && r.pc.currentLocal == Some(answer) && r.pc.state == Stable && !r.negotiating
  {
    Waits(p, j, es);
    var k := Follow(p, j, es);
    AnswerIsMade(Exec(p, es), k, o);
    Waits(q, k, fs);
    AnswerIsGiven(Exec(q, fs), Follow(q, k, fs), u);
  }

  lemma AnswerIsMade(p: Page, j: nat, o: Outcome)
    requires Enabled(p, Resolve(j, o)) && p.acts[j].Answering?
    ensures p.pc.pendingRemote.Some? && j < |Step(p, Resolve(j, o)).acts|
    ensures Step(p, Resolve(j, o)).acts[j] == SettingAnswer(p.acts[j].clientId, p.acts[j].from,
                                                          Answer(p.pc.name, p.pc.made, p.pc.pendingRemote.value))
  {
  }

  lemma AnswerIsGiven(p: Page, j: nat, o: Outcome)
    requires Enabled(p, Resolve(j, o)) && p.acts[j].SettingAnswer? && p.acts[j].answer.Answer?
    requires Truthy(p.acts[j].clientId) && p.acts[j].from.Some?
    ensures var r := Step(p, Resolve(j, o));
      && r.sent == p.sent + [AnswerText(p.acts[j].clientId.value, p.acts[j].from.value, p.acts[j].answer)]
      && r.pc.currentLocal == Some(p.acts[j].answer) && r.pc.state == Stable && !r.negotiating
  {
  }

  /** An offer that has been set is answered by the same activation, with the flag up meanwhile. */
  lemma OfferIsTaken(p: Page, j: nat, es: seq<Event>, o: Outcome)
    requires j < |p.acts| && p.acts[j].SettingRemote? && Succeeds(p, j, es, o)
    ensures var q := After(p, j, es, o);
      if p.acts[j].sdp.Offer? then
        && |q.acts| == |Exec(p, es).acts| && q.acts[Follow(p, j, es)] == Answering(p.acts[j].clientId, p.acts[j].from)
        && q.negotiating && q.pc.pendingRemote == Some(p.acts[j].sdp)
      else |q.acts| == |Exec(p, es).acts| - 1 && q.sent == Exec(p, es).sent
  {
    Waits(p, j, es);
  }
}
