/** What frees a page whose flag sticks. */
module PageRecovery {
  import opened Wrappers
  import opened Messages
  import opened PeerConnection
  import opened Page
  import opened PageLimits
  import opened HooksOnPage
  import Hooks

  /** Whatever becomes of its last call, an activation that answers an offer leaves the flag down. */
  lemma SettingAnswerLowers(p: Page, clock: nat, fates: Hooks.Fates)
    requires |p.acts| == 1 && p.acts[0].SettingAnswer? && p.acts[0].answer.Answer?
    ensures !Settle(p, clock, fates).negotiating
  {
    assert Without(p.acts, 0) == [];
  }

  lemma AnsweringLowers(p: Page, clock: nat, fates: Hooks.Fates)
    requires |p.acts| == 1 && p.acts[0].Answering?
    ensures !Settle(p, clock, fates).negotiating
  {
    var e := NextEvent(p, fates(clock));
    assert Without(p.acts, 0) == [];
    if e.Resolve? {
      SettingAnswerLowers(Step(p, e), clock + 1, fates);
    }
  }

  /** A provisional answer that could be set is the one description that leaves a raised flag up. */
  predicate KeepsFlag(p: Page, sdp: Sdp, fate: Option<Outcome>) {
    p.negotiating && sdp.Pranswer? && Hooks.Succeeds(p.pc, Hooks.SetRemote(sdp), fate)
  }

  lemma SettingRemoteLowers(p: Page, clock: nat, fates: Hooks.Fates)
    requires |p.acts| == 1 && p.acts[0].SettingRemote?
    ensures Settle(p, clock, fates).negotiating ==> KeepsFlag(p, p.acts[0].sdp, fates(clock))
    ensures KeepsFlag(p, p.acts[0].sdp, fates(clock)) ==> Settle(p, clock, fates).negotiating
  {
    var e := NextEvent(p, fates(clock));
    assert Without(p.acts, 0) == [];
    if fates(clock).Some? {
      SameFate(p.pc, p.acts[0], Hooks.SetRemote(p.acts[0].sdp), fates(clock).value);
    }
    var q := Step(p, e);
    assert Settle(p, clock, fates) == Settle(q, clock + 1, fates);
    if e.Resolve? && p.acts[0].sdp.Offer? {
      AnsweringLowers(q, clock + 1, fates);
    } else {
      assert q.acts == [];
      assert Settle(q, clock + 1, fates) == q;
    }
  }

  /** A stuck page renders what is new, and stays stuck. */
  lemma Flush(p: Page) returns (es: seq<Event>, q: Page)
    requires Stuck(p)
    ensures es == [RunEffect, Render, RunEffect] && q == Exec(p, es) && Stuck(q)
    ensures q.rendered == q.next && !q.effectDue && q.pc == p.pc && q.next == p.next
  {
    es, q := Take(p, [], p, RunEffect);
    es, q := Take(p, es, q, Render);
    es, q := Take(p, es, q, RunEffect);
    assert es == [RunEffect, Render, RunEffect];
  }

  /** A flag that sticks comes down with the next offer or answer that comes in: once the page has
      rendered and handled it, and whether or not its calls succeed. Only a provisional answer that
      could be set leaves the flag up. */
  lemma MessageFrees(p: Page, text: Text, clock: nat, fates: Hooks.Fates) returns (es: seq<Event>, q: Page)
    requires Stuck(p) && Truthy(p.next.clientId) && IsSdp(text)
    ensures es == [RunEffect, Render, RunEffect, Message(text), Render, RunEffect] && q == Exec(p, es) && |q.acts| <= 1
    ensures Settle(q, clock, fates).negotiating <==> text.sdp.Some? && KeepsFlag(q, text.sdp.value, fates(clock))
  {
    GuardsAreExclusive(text);
    es, q := Flush(p);
    es, q := Take(p, es, q, Message(text));
    es, q := Take(p, es, q, Render);
    es, q := Take(p, es, q, RunEffect);
    if q.acts != [] {
      SettingRemoteLowers(q, clock, fates);
    }
  }
}
