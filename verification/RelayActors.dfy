/** The actors of signaling/src/main.rs as objects, each handler proved to be a step of Relay. */
module RelayActors {
  import opened Messages
  import opened Relay

  class WebSocketSession {
    const id: Id
    var phase: Phase
    var mailbox: seq<Post>
    var output: seq<Out>

    ghost function View(): Session
      reads this
    {
      Session(id, phase, mailbox, output)
    }

    constructor (id: Id)
      ensures View() == Session(id, Created, [], [])
    {
      this.id, phase, mailbox, output := id, Created, [], [];
    }

    /** The handler of a forwarded text. */
    method HandleWsMessage(msg: Post)
      modifies this`output
      ensures output == old(output) + [Forward(msg)]
    {
      output := output + [Forward(msg)];
    }
  }

  class SignalingServer {
    var sessions: map<Id, Addr>

    constructor ()
      ensures sessions == map[]
    {
      sessions := map[];
    }

    method HandleRegister(id: Id, addr: Addr)
      modifies this
      ensures sessions == old(sessions)[id := addr]
    {
      sessions := sessions[id := addr];
    }

    method HandleUnregister(id: Id)
      modifies this
      ensures sessions == old(sessions) - {id}
    {
      sessions := sessions - {id};
    }
  }

  /** The runtime: the server with its mailbox, and the sessions by address. */
  class ActorSystem {
    const server: SignalingServer
    var inbox: seq<Envelope>
    var actors: seq<WebSocketSession>
    var accepted: seq<Accepted>  // the log, in place of the printed one
    var unknown: seq<nat>
    var dead: seq<nat>

    ghost predicate Valid()
      reads this
    {
      forall i, j :: 0 <= i < j < |actors| ==> actors[i] != actors[j]
    }

    ghost function Sessions(): (xs: seq<Session>)
      reads this, actors
      ensures |xs| == |actors| && forall i :: 0 <= i < |xs| ==> xs[i] == actors[i].View()
    {
      seq(|actors|, i requires 0 <= i < |actors| reads this, actors => actors[i].View())
    }

    ghost function View(): State
      reads this, server, actors
    {
      State(inbox, server.sessions, Sessions(), accepted, unknown, dead)
    }

    constructor ()
      ensures Valid() && View() == INIT && fresh(server)
    {
      server := new SignalingServer();
      inbox, actors, accepted, unknown, dead := [], [], [], [], [];
    }

    /** ws_handler: a session with a fresh id. */
    method WsHandler(id: Id)
      requires Valid() && Enabled(View(), Connect(id))
      modifies this
      ensures Valid() && View() == Step(old(View()), Connect(id)) && fresh(actors[|actors| - 1])
    {
      var session := new WebSocketSession(id);
      ghost var was := Sessions();
      actors := actors + [session];
      assert Sessions() == was + [session.View()];
    }

    /** `started`, up to its do_send. */
    method StartedRegister(a: Addr)
      requires Valid() && Enabled(View(), Start(a))
      modifies this, actors
      ensures Valid() && actors == old(actors) && View() == Step(old(View()), Start(a))
    {
      ghost var was := Sessions();
      inbox := inbox + [Register(actors[a].id, a)];
      actors[a].phase := Registering;
      assert Sessions() == was[a := actors[a].View()];
    }

    /** The rest of `started`. */
    method StartedGreet(a: Addr)
      requires Valid() && Enabled(View(), Greet(a))
      modifies this, actors
      ensures Valid() && actors == old(actors) && View() == Step(old(View()), Greet(a))
    {
      ghost var was := Sessions();
      actors[a].output := actors[a].output + [Hello(Welcome(actors[a].id))];
      actors[a].phase := Running;
      assert Sessions() == was[a := actors[a].View()];
    }

    /** `stopping`; what is left in the mailbox dies with the actor. */
    method Stopping(a: Addr)
      requires Valid() && Enabled(View(), Stop(a))
      modifies this, actors
      ensures Valid() && actors == old(actors) && View() == Step(old(View()), Stop(a))
    {
      ghost var was := Sessions();
      inbox := inbox + [Unregister(actors[a].id)];
      dead := dead + PostKs(actors[a].mailbox);
      actors[a].mailbox := [];
      actors[a].phase := Stopped;
      assert Sessions() == was[a := actors[a].View()];
    }

    /** The stream handler for a text frame. */
    method HandleSocketText(a: Addr, text: Text)
      requires Valid() && Enabled(View(), Receive(a, text))
      modifies this
      ensures Valid() && actors == old(actors) && View() == Step(old(View()), Receive(a, text))
    {
      var to := ServerParse(text);
      if to.Some? {
        ghost var was := Sessions();
        inbox := inbox + [Send(to.value, text, |accepted|)];
        accepted := accepted + [Accepted(a, to.value, text)];
        assert Sessions() == was;
      }
    }

    /** do_send to a session: never blocks, lost if the session is dead. */
    method DoSend(a: Addr, msg: Post)
      requires Valid() && a < |actors|
      modifies this`dead, actors
      ensures Valid() && actors == old(actors) && View() == Deliver(old(View()), a, msg)
    {
      ghost var was := Sessions();
      if actors[a].phase == Stopped {
        dead := dead + [msg.k];
        assert Sessions() == was;
      } else {
        actors[a].mailbox := actors[a].mailbox + [msg];
        assert Sessions() == was[a := actors[a].View()];
      }
    }

    /** The server takes the next envelope and runs its handler. */
    method ServerTurn()
      requires Valid() && Enabled(View(), ServerHandle)
      modifies this, server, actors
      ensures Valid() && actors == old(actors) && View() == Step(old(View()), ServerHandle)
    {
      ghost var was := Sessions();
      var e := inbox[0];
      inbox := inbox[1..];
      assert Sessions() == was;
      match e
      case Register(id, addr) =>
        server.HandleRegister(id, addr);
        assert Sessions() == was;
      case Unregister(id) =>
        server.HandleUnregister(id);
        assert Sessions() == was;
      case Send(to, text, k) =>
        if to in server.sessions {
          DoSend(server.sessions[to], Post(text, k));
        } else {
          unknown := unknown + [k];
          assert Sessions() == was;
        }
    }

    /** A session takes the next forwarded text and writes it on its socket. */
    method SessionTurn(a: Addr)
      requires Valid() && Enabled(View(), SessionHandle(a))
      modifies this, actors
      ensures Valid() && actors == old(actors) && View() == Step(old(View()), SessionHandle(a))
    {
      ghost var was := Sessions();
      var msg := actors[a].mailbox[0];
      actors[a].mailbox := actors[a].mailbox[1..];
      actors[a].HandleWsMessage(msg);
      assert Sessions() == was[a := actors[a].View()];
    }
  }
}
