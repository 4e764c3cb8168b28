# A verified model of the WebRTC camera application

The application lets two browsers set up a video call. A small relay passes texts between clients
that know each other's ids; each client's page runs the offer/answer negotiation of its
`RTCPeerConnection`; a wasm module, reached through generated glue code, starts the camera. This
project models the four parts of it that keep state over many steps, and proves what they keep.

**The relay** (`Relay`, `RelayInvariants`, `RelayRouting`, `RelayHistory`, `RelayActors`). One server
actor and one session actor per socket, each with a FIFO mailbox; sending never blocks and is lost when
the target is dead. The steps are connect, the two halves of `started`, receive a text, `stopping`, and
one envelope handled by the server or by a session, in any interleaving of any number of clients. Every
accepted text is numbered, which is how order, uniqueness and conservation are stated. The actors are
also written as objects whose methods are proved to be those steps.

**The page** (`Messages`, `PeerConnection`, `Page`, `PageInvariants`, `PageSlot`, `PageActivations`,
`PageLimits`, `PageRecovery`, `HomePage`). Each synchronous stretch between two `await`s is one step,
and any number of handler activations may be suspended. React is explicit: setters change the next
state, closures and effects see the rendered one, and `pendingSDP` is a one-place slot. The peer
connection follows the state diagram of section 3.2 of RFC 9429; any call may fail; a remote offer may
bring senders of its own; a browser may or may not roll its own offer back. `HomePage` holds the
component as an object, method by method.

**The handshake** (`HandshakePages`, `Wire`, `WireProgress`, `Handshake`, `HandshakeRuns`,
`HandshakeProgress`, `HandshakeLiveness`, `HandshakeStart`). Two pages, their sockets and the whole
relay, when only one side presses connect (as often as it likes; presses that are not skipped call the
other side) and other clients, of which there may be any number, send nothing to the two. Any browser
call may fail, and both users type in the peer field as they please. It is shown that there is never
more than one SDP message in the system, that both sides agree whenever the caller is stable, and that
a measure of what is left of the round never grows but by a press. Whatever has failed before, a round
under way can be carried through, and under a weakly fair schedule it is, if nothing fails any more.

**The split hooks** (`Hooks`, `HooksOnPage`, `HookObjects`). `useWebRTC` and `useSignaling` repeat
the page's logic in two files. Run one handler at a time, with any call failing, they make the same
calls on the connection exactly for messages whose `type` matches their description.

**Strings and closures of the wasm glue** (`Unicode`, `WasmMemory`, `StringGlue`, `Closures`,
`ClosurePrograms`). UTF-16 and UTF-8 with the encoder and the fatal decoder of the WHATWG Encoding
Standard; a memory that grows, detaches its old buffer and has a non-deterministic allocator; the glue's
functions as methods over it; and the two closure wrappers as lending protocols under re-entrancy,
exceptions and drops.

## What turned out to differ

- An offer may leave the stream out although it is ready: `hasTracksAdded` counts the senders that a
  remote offer made. `OfferSendsStreamIff` says exactly when, `SilentOffer` gives a run, and
  `SilenceLasts` says for how long.
- A raised flag can stay up for good outside the stable state: an offer that is never answered, for
  instance to a mistyped id, makes the page skip every later press. `FlagSticksIff` says exactly when,
  `StuckHappens` gives a run, and `MessageFrees` says what ends it.
- The hooks follow the page only if a message's `type` and its `sdp.type` agree
  (`SameCallsIffConsistent`): the page looks at the description, the hooks at the message.
- The `catch` of `handleAnswer` does not lower the negotiation flag, the page's does. So the two
  forms stay in the same state exactly as long as no answer fails while a negotiation is under way
  (`NeverPartIff`); after that the page can offer again and the hooks cannot
  (`FailedAnswerBlocksHooks`), and `FailedAnswerHappens` gives a run.
- Without a `TextEncoder` the string glue still passes ASCII strings if there is a `realloc`
  (`StringGlue.Glue.PassString`).

## Model

| member | source | states |
|---|---|---|
| RelayInvariants.RegistrationLifecycle | signaling/src/main.rs:22-44 | in every run, for every session: at most one registration and then one removal queued; its id is mapped, to itself, exactly between their handling; all stopped and mailbox empty means map empty |
| RelayInvariants.RemovedNeverReturns | signaling/src/main.rs:112-118 | an id whose removal has been handled is never mapped again, whatever runs on |
| RelayInvariants.StepKeepsLifecycle | signaling/src/main.rs:97-118 | every single step of any actor keeps the life cycle invariant |
| RelayInvariants.WelcomeFirstAndOnce | signaling/src/main.rs:25-56 | in every interleaving a session's first output is the welcome with its own id, and every later one a forwarded text |
| RelayRouting.OutputsAreSubsequence | signaling/src/main.rs:50-70 | in every run each session outputs texts accepted for its id, word for word, in the order of acceptance and each at most once |
| RelayRouting.LiveSessionMissesNothing | signaling/src/main.rs:128-139 | a registered session that does not stop, greeted yet or not, outputs a prefix of everything accepted for it: nothing lost, repeated or overtaken |
| RelayRouting.MappedIsLive | signaling/src/main.rs:97-118 | in every run a mapped session is one of these exactly if it has not stopped |
| RelayRouting.StreamOfLiveSession | signaling/src/main.rs:128-139 | output, mailbox and queued sends of a live session together are extended by exactly the newly accepted texts |
| RelayRouting.ExecKeepsRouting | signaling/src/main.rs:58-70 | every run keeps mailboxes and outputs ascending and genuine, and the server mailbox the latest accepted texts in order |
| RelayRouting.EachTextIsInOnePlace | signaling/src/main.rs:128-139 | in every run each accepted text is in exactly one of: server mailbox, one session's mailbox or output, dropped as unknown, dropped as dead |
| RelayRouting.HandlingDecreasesWork | signaling/src/main.rs:97-139 | every handling step decreases twice the server mailbox plus the session mailboxes |
| RelayRouting.RelayDrains | signaling/src/main.rs:97-139 | from any state, within that many handling steps, the server and all running sessions have nothing left |
| RelayHistory.AcceptedIsReceived | signaling/src/main.rs:58-70 | in every run the accepted texts are exactly those that came in on the sockets of running sessions with an addressee, word for word and in order |
| RelayHistory.OutputsWereReceived | signaling/src/main.rs:50-70 | per-pair FIFO: what a session outputs came in on a socket, addressed to its id, as the same text, and is output in the order in which it came in, each text at most once |
| RelayHistory.DeadMeansStopped | signaling/src/main.rs:132-133 | in every run a text counts as dead only if the session it was for has stopped |
| RelayHistory.UnknownMeansUnmapped | signaling/src/main.rs:132-137 | in every run a text counts as unknown only if its addressee was unmapped when the server handled it |
| RelayHistory.ForwardedBeforeGreeting | signaling/src/main.rs:25-34 | a run in which the server forwards a text before `started` has greeted: it is output right after the greeting |
| RelayHistory.TextToStopped | signaling/src/main.rs:36-43 | a run in which a text under way to a session that stops is dead |
| RelayHistory.TextAfterRemoval | signaling/src/main.rs:112-118 | and one in which a text that comes after the removal is unknown |
| RelayActors.ActorSystem.WsHandler | signaling/src/main.rs:142-156 | a new session with a fresh id, as the step Connect |
| RelayActors.ActorSystem.StartedRegister | signaling/src/main.rs:25-31 | queues the registration with the session's own address, as the step Start |
| RelayActors.ActorSystem.StartedGreet | signaling/src/main.rs:33-34 | writes the welcome, as the step Greet |
| RelayActors.ActorSystem.Stopping | signaling/src/main.rs:36-43 | queues the removal and loses the mailbox, as the step Stop |
| RelayActors.ActorSystem.HandleSocketText | signaling/src/main.rs:58-70 | queues the raw text for the parsed addressee, or ignores it, as the step Receive |
| RelayActors.ActorSystem.ServerTurn | signaling/src/main.rs:97-139 | the three server handlers on the real map and mailboxes are the step ServerHandle |
| RelayActors.ActorSystem.SessionTurn | signaling/src/main.rs:50-56 | is the step SessionHandle |
| Messages.GuardsAreExclusive | webrtc/src/types/signaling.ts:80-98 | at most one guard holds of a message, so the order in which they are tried does not matter, and isSDPMessage is isOfferMessage or isAnswerMessage |
| Messages.AcceptedIff | signaling/src/main.rs:9-15 | the server accepts a text for an addressee exactly if it has a `from` and that `to`, whatever kind, description, candidate and id it has or lacks |
| Messages.KindSurvives | webrtc/src/hooks/useSignaling.ts:150-180 | an offer, answer or candidate that a welcomed client builds is accepted by the server for its addressee and dispatched as the same kind; the server's own welcome it would not accept |
| Messages.NoIdNoText | webrtc/src/app/page.tsx:206-210 | without a client id, or with an empty one, nothing is built; the greeting is taken as a welcome and brings the id |
| RelayRouting.KindArrives | signaling/src/main.rs:58-70 | in every run a forwarded output is the accepted text itself, so what a client built as an offer, answer or candidate is dispatched by its receiver as the same kind and no other, with the same contents and sender |
| PeerConnection.AddTracksAddsAll | webrtc/src/utils/webrtc-helpers.ts:32-52 | distinct tracks none of which is being sent all go in, once each, without an exception, and hasTracksAdded holds after |
| PeerConnection.TableIsDiagram | webrtc/src/app/page.tsx:265-326 | setting a description takes exactly the arrows of the state diagram of section 3.2 of RFC 9429, and a rollback leads back to stable |
| PeerConnection.RollbackUndoes | webrtc/src/app/page.tsx:321-322 | an offer and then a rollback leave the connection as it was |
| PeerConnection.ImplicitRollback | webrtc/src/app/page.tsx:321-322 | taking a remote offer in place of an own one is a rollback and then that offer, and its events show the stable state on the way |
| PeerConnection.ProvisionalRound | webrtc/src/app/page.tsx:321-322 | a provisional answer is pending until the answer replaces it, and only the answer makes anything current |
| PeerConnection.AnswerFits | webrtc/src/app/page.tsx:325-326 | an answer can be made exactly where it can be set |
| PageSlot.NewestOvertakes | webrtc/src/app/page.tsx:99-102 | in every run a received offer or answer takes the slot, whatever was in it, and what was there is never handled, unless its own effect is already due |
| PageSlot.NewestIsHandled | webrtc/src/app/page.tsx:197-203 | and it is the one that the next rendering shows to the effect, once there is a client id |
| PageSlot.EffectHandles | webrtc/src/app/page.tsx:197-309 | in every run the effect starts one activation, for the text as it was heard and with the client id rendered; the sender of an offer or answer becomes the peer exactly if none was rendered; nothing heard so far is handled after that |
| PageSlot.GoneForGood | webrtc/src/app/page.tsx:197-203 | a message neither in the slot nor due is never handled in any continuation |
| PageSlot.NothingBeforeWelcome | webrtc/src/app/page.tsx:198-201 | in every run without a welcome nothing is handled and nothing is sent, and what was heard last waits in the slot |
| PageSlot.WelcomeReleases | webrtc/src/app/page.tsx:197-203 | what waits is handled once a welcome has been rendered, even if it was rendered before |
| PageSlot.NoIdNoEffect | webrtc/src/app/page.tsx:198-198 | with no client id, or an empty one, the effect does nothing |
| PageSlot.MessageTouches | webrtc/src/app/page.tsx:91-108 | a message changes the client id, the slot or the peer to be rendered, according to its kind, and nothing else |
| PageActivations.OthersStay | webrtc/src/app/page.tsx:339-342 | every step ends at most the activation whose call it settles; all others stay suspended, in order and with what they have captured |
| PageActivations.FailureEndsOne | webrtc/src/app/page.tsx:276-279 | a failing call ends its own activation and lowers the flag, and does no more |
| PageActivations.OfferIsSent | webrtc/src/app/page.tsx:260-275 | a suspended createOffer whose own calls succeed sets its offer and sends it to the peer it has captured, whatever becomes of all other activations |
| PageActivations.OfferIsTaken | webrtc/src/app/page.tsx:321-325 | an offer that could be set is answered by the same activation, with the flag up |
| PageActivations.AnswerIsSent | webrtc/src/app/page.tsx:325-336 | and that activation answers the offer then pending and sends the answer to the sender it has captured, whatever becomes of all others |
| PageInvariants.StepKeepsFlagJustified | webrtc/src/app/page.tsx:178-187 | every step keeps: a raised flag in the stable state is owed to a suspended createOffer |
| PageInvariants.FlagNeverSticks | webrtc/src/app/page.tsx:219-280 | in every run, with any failures, stable and no createOffer suspended means the flag is down and a click on a filled-in page starts a new offer, which carries the stream exactly if there was no sender before or the stream was being sent |
| PageInvariants.OfferSendsStreamIff | webrtc/src/app/page.tsx:251-258 | in every run, stable or not, a click that starts an offer puts the stream in exactly under that condition: senders that a remote offer made count as added tracks |
| PageLimits.SilentOffer | webrtc/src/utils/webrtc-helpers.ts:49-52 | a run from a new page, for any ids, offer and tracks, whose click offers without the stream although it is ready |
| PageLimits.SilenceLasts | webrtc/src/app/page.tsx:311-319 | a page with senders and no local track stays so, whatever it offers or answers, as long as it has any sender |
| PageLimits.AnswerSendsStreamIff | webrtc/src/app/page.tsx:310-319 | in every run, handling an inbound offer puts the stream in exactly if there is one and no sender at all, or it was being sent already |
| PageLimits.FlagSticksIff | webrtc/src/app/page.tsx:241-244 | in every run, a raised flag stays up in all continuations without an inbound offer or answer exactly when no activation is under way and no message is pending; the connection is then not stable |
| PageLimits.StuckUntilHeard | webrtc/src/app/page.tsx:241-244 | and then no press, rendering or other event uses the connection or the socket again |
| PageRecovery.MessageFrees | webrtc/src/app/page.tsx:197-203 | any stuck page with its client id is freed by the next offer or answer, once it is rendered and handled and whatever becomes of its calls; exactly a provisional answer that could be set leaves the flag up |
| PageLimits.StuckHappens | webrtc/src/app/page.tsx:265-275 | a run from a new page that gets stuck by offering once to any peer id, such as a mistyped one |
| PageInvariants.TracksAreAllOrNothing | webrtc/src/app/page.tsx:251-319 | in every run the local tracks sent are none or exactly the stream's, each once, and addTrack never meets a track already added |
| PageInvariants.ReadyStreamIsSent | webrtc/src/app/page.tsx:311-319 | if the stream was ready before anything was begun, then in every later state it is being sent or still nothing has been begun |
| HomePage.AddTracksToConnection | webrtc/src/utils/webrtc-helpers.ts:32-44 | the loop adds the tracks in order up to the first that throws |
| HomePage.Home.OnMessage | webrtc/src/app/page.tsx:91-108 | the dispatch on real fields is the page's step Message |
| HomePage.Home.CreateOffer | webrtc/src/app/page.tsx:219-262 | guards, flag and tracks up to the first `await` are the step Click |
| HomePage.Home.HandleSdpMessage | webrtc/src/app/page.tsx:286-322 | peer adoption, tracks and the throwing cases up to the first `await` |
| HomePage.Home.PendingEffect | webrtc/src/app/page.tsx:197-203 | the effect handles the rendered message and empties the slot, as the step RunEffect |
| HomePage.Home.SendMessage | webrtc/src/app/page.tsx:206-213 | one text with `from` set goes out, or none before the welcome |
| HomePage.Home.OnSignalingStateChange | webrtc/src/app/page.tsx:178-187 | the flag goes down in the stable state and only there |
| HomePage.Home.Resume | webrtc/src/app/page.tsx:262-338 | an activation's continuation after a successful call, event first, is the step Resolve |
| HomePage.Home.Fail | webrtc/src/app/page.tsx:339-342 | the `catch` after a failed call is the step Reject |
| HandshakePages.CallerResolves | webrtc/src/app/page.tsx:260-275 | from each stage of the caller its awaited call leads to the next one, sending exactly the offer just set, or making current the offer and its answer |
| HandshakePages.CalleeResolves | webrtc/src/app/page.tsx:321-338 | the callee's answer is made for the offer it has set, set, and only then sent, to the offer's sender |
| HandshakePages.CallerFails | webrtc/src/app/page.tsx:276-279 | a failing call ends the caller's part with its flag down, its connection as it was and nothing sent |
| HandshakePages.CalleeFails | webrtc/src/app/page.tsx:339-342 | a failing call ends the callee's part with its flag down and no answer sent |
| HandshakePages.CalleeEffect | webrtc/src/app/page.tsx:197-203 | the effect takes the offer out of the slot into a handler exactly once |
| HandshakePages.CalleeAdoptsCaller | webrtc/src/app/page.tsx:294-308 | a callee that has typed no peer adopts the caller as its peer when it handles the offer, one that has keeps its own; either way the offer is handled without an exception and for its sender |
| Wire.CarriesOn | signaling/src/main.rs:128-139 | whatever else the relay does, what is on its way between two live clients keeps its contents and order |
| Wire.CarriesUp | signaling/src/main.rs:58-70 | a text going up its socket stays in its channel, at its place |
| Wire.CarriesDown | signaling/src/main.rs:50-56 | what comes down a socket is the head of its channel |
| Handshake.StepMovesRound | webrtc/src/app/page.tsx:197-343 | every step of the two pages, their users, the sockets and the relay leaves the round where it is, takes it to its next stage, or by a failing call to its end; only a press of connect begins one, once made its offer does not change, and only taking its answer makes the caller stable |
| HandshakeRuns.SingleToken | webrtc/src/app/page.tsx:197-343 | in every run, failures included, at most one SDP message exists among both clients' handlers and slots, their sockets and the relay |
| HandshakeRuns.SlotIsNeverOverwritten | webrtc/src/app/page.tsx:99-102 | whatever is received is an offer or answer that finds the slot empty and no handler busy |
| HandshakeRuns.Agreement | webrtc/src/app/page.tsx:219-343 | in every run, failures included, whenever the caller is stable, its remote description is the callee's answer to exactly its current local offer, which is the callee's remote description |
| HandshakeRuns.RoundsEndInAgreement | webrtc/src/app/page.tsx:178-187 | the step that makes the caller stable makes current the offer it had pending, on both sides, with both flags down and no handler left |
| HandshakeStart.StartHappens | webrtc/src/app/page.tsx:91-108 | two new pages and a new relay reach the starting point of these runs |
| HandshakeStart.CallHappens | webrtc/src/app/page.tsx:219-343 | from there a press of connect leads to a call, with the caller's offer current on both sides |
| HandshakeStart.FairRunHappens | webrtc/src/app/page.tsx:197-203 | an endless run with a fair schedule and no failures exists |
| WireProgress.ServerBringsNearer | signaling/src/main.rs:128-139 | the server can always handle an envelope, and each one it handles brings the travelling text nearer |
| WireProgress.NeverFarther | signaling/src/main.rs:97-139 | no relay step sets a travelling text back |
| HandshakeProgress.NothingSetsBack | webrtc/src/app/page.tsx:246-343 | in every run, failures included, what is left of the round (stages, then hops, then envelopes ahead) grows only by a press of connect at rest |
| HandshakeProgress.SomeoneCanMove | webrtc/src/app/page.tsx:246-343 | in every run, before the round is over, some step that is no press and no failure is possible and makes what is left strictly smaller |
| HandshakeProgress.EveryRoundCanFinish | webrtc/src/app/page.tsx:246-343 | from every reachable state, whatever has failed before, a round under way can be carried through without another press: both sides stable, agreeing, flags down, the offer that was out current; a run without failures can always be brought to rest |
| HandshakeProgress.CallSucceeds | webrtc/src/app/page.tsx:219-280 | from any starting point with the fields filled in, a press and such a run end with the caller's offer current on both sides |
| HandshakeLiveness.TurnStays | webrtc/src/app/page.tsx:246-343 | the step whose turn it is is possible, and stays possible and the turn whatever else happens, until less is left of the round |
| HandshakeLiveness.FairRoundsEnd | webrtc/src/app/page.tsx:246-343 | in every endless run in which no handling, carrying, rendering or settling step stays possible forever without happening, every round under way at a time after which no call fails ends at rest with its offer current |
| HandshakeProgress.RestIsIdle | webrtc/src/app/page.tsx:178-187 | whenever the caller is stable with its flag down nothing is left of the round, the callee is stable too, and both agree; without failures that is the only way to have nothing left |
| Hooks.HooksRefinePage | webrtc/src/hooks/useWebRTC.ts:184-236 | over any consistent messages, one at a time, with any call failing, the hooks make the same calls in the same order as the page and send the same answers |
| Hooks.SameCallsIffConsistent | webrtc/src/hooks/useSignaling.ts:106-127 | both forms make the same calls from all states, streams and failures exactly for messages whose kind is "offer" if and only if their description is an offer |
| Hooks.InconsistentDiffers | webrtc/src/app/page.tsx:310-319 | every other message is told apart on a new connection with a stream of one track |
| Hooks.FlagsPartIff | webrtc/src/hooks/useWebRTC.ts:218-236 | from the same state, one consistent message leaves the two forms in different states exactly when an answer fails under way |
| Hooks.NeverPartIff | webrtc/src/hooks/useWebRTC.ts:147-236 | over messages and presses of connect the two forms stay in step, flag included, exactly as long as no answer fails under way |
| Hooks.FailedAnswerBlocksHooks | webrtc/src/hooks/useWebRTC.ts:155-158 | after such a failure the page's next press makes calls and the hooks' makes none |
| Hooks.FailedAnswerHappens | webrtc/src/hooks/useWebRTC.ts:233-235 | a run from a new connection: press, an answer that cannot be set, press; the page's calls then go on and the hooks' do not |
| HooksOnPage.PageHearsAlone | webrtc/src/app/page.tsx:286-343 | the one-at-a-time form of handleSDPMessage is the await-granular page run with no other activation: same connection, flag and answer sent |
| HooksOnPage.PageOffersAlone | webrtc/src/app/page.tsx:219-280 | the same for createOffer |
| HookObjects.UseWebRtc.CreateOffer | webrtc/src/hooks/useWebRTC.ts:147-179 | on the real fields, calls, flag and result of createOffer with any call failing; the flag is up at its awaited calls |
| HookObjects.UseWebRtc.HandleOffer | webrtc/src/hooks/useWebRTC.ts:184-215 | on the real fields, calls, flag and result of handleOffer with any call failing; the flag is up at its awaited calls unless an own offer is rolled back |
| HookObjects.UseWebRtc.HandleAnswer | webrtc/src/hooks/useWebRTC.ts:220-236 | on the real fields, the call of handleAnswer, its flag left alone on failure |
| HookObjects.UseWebRtc.OnSignalingStateChange | webrtc/src/hooks/useWebRTC.ts:127-135 | the flag goes down in the stable state and only there |
| HookObjects.UseSignaling.OnMessage | webrtc/src/hooks/useSignaling.ts:106-127 | the dispatch to the handlers, and the client id of a welcome |
| HookObjects.UseSignaling.SendMessage | webrtc/src/hooks/useSignaling.ts:150-159 | one text with `from` put in goes out, or none before the welcome |
| HookObjects.UseSignaling.SendOffer | webrtc/src/hooks/useSignaling.ts:164-166 | once welcomed, sends one text that the server accepts for `to` and the receiver takes as an offer with this description |
| HookObjects.UseSignaling.SendAnswer | webrtc/src/hooks/useSignaling.ts:171-173 | the same for an answer |
| HookObjects.UseSignaling.SendCandidate | webrtc/src/hooks/useSignaling.ts:178-180 | the same for a candidate |
| Unicode.ScalarsReadTheRepairedString | webrtc/src/wasm/web_rtccam.js:73-73 | the encoder reads a string as if every lone surrogate were U+FFFD |
| Unicode.LoneSurrogate | webrtc/src/wasm/web_rtccam.js:73-73 | a lone surrogate is encoded as EF BF BD and comes back as U+FFFD |
| Unicode.RepairedAt | webrtc/src/wasm/web_rtccam.js:73-73 | U+FFFD stands exactly where a surrogate has no partner, and every other unit stays |
| Unicode.FirstPlaneExamples | webrtc/src/wasm/web_rtccam.js:73-73 | the encoder gives the bytes of the examples of section 7 of RFC 3629 |
| Unicode.OtherPlaneExamples | webrtc/src/wasm/web_rtccam.js:73-73 | and those beyond the first plane, and the pair of section 5 of RFC 2781 |
| Unicode.WellFormedStringIsUnchanged | webrtc/src/wasm/web_rtccam.js:73-73 | a string without lone surrogates is read as it is |
| Unicode.EncodeSplits | webrtc/src/wasm/web_rtccam.js:105-117 | encoding both parts of a string separately loses nothing at a cut that does not tear a pair |
| Unicode.UnsafeCutTears | webrtc/src/wasm/web_rtccam.js:105-117 | every other cut costs two bytes too many, so the condition is exact |
| Unicode.EncodeAscii | webrtc/src/wasm/web_rtccam.js:105-109 | an ASCII string is its own encoding |
| Unicode.EncodeFits | webrtc/src/wasm/web_rtccam.js:115-115 | the encoding has between one and three bytes a code unit |
| Unicode.EncodeIntoTakesAll | webrtc/src/wasm/web_rtccam.js:117-119 | with enough room `encodeInto` reads everything, so `read` may be ignored |
| Unicode.EncodeIntoIsPrefix | webrtc/src/wasm/web_rtccam.js:75-78 | `encodeInto` writes the encoding of what it has read, cut between two scalars, and stops only when the next does not fit |
| Unicode.BomIsKept | webrtc/src/wasm/web_rtccam.js:22-22 | with `ignoreBOM` a leading U+FEFF stays, without it would be lost |
| Unicode.AcceptedIsEncoded | webrtc/src/wasm/web_rtccam.js:22-22 | the fatal decoder accepts nothing but encodings: overlong forms, surrogates, stray and missing bytes throw |
| Unicode.DecodeEncode | webrtc/src/wasm/web_rtccam.js:35-38 | decoding an encoded string never throws and gives it back with its lone surrogates repaired, a leading U+FEFF included |
| Unicode.EncodeDecode | webrtc/src/wasm/web_rtccam.js:35-38 | whatever bytes are accepted, encoding the string they give yields them again |
| StringGlue.Glue.MemoryView | webrtc/src/wasm/web_rtccam.js:28-33 | from any cache that is current or dead, the view returned is of the whole current memory |
| StringGlue.Glue.EncodeString | webrtc/src/wasm/web_rtccam.js:75-86 | either encoder writes exactly the encoding if it fits and nothing outside the view; when it throws is stated exactly |
| StringGlue.Glue.PassWhole | webrtc/src/wasm/web_rtccam.js:90-96 | the path without `realloc`: one new block holding exactly the encoding, its length in WASM_VECTOR_LEN, nothing else changed |
| StringGlue.Glue.WriteAscii | webrtc/src/wasm/web_rtccam.js:101-109 | the loop stores the longest ASCII prefix inside the block and changes no other block |
| StringGlue.Glue.GrowAndEncode | webrtc/src/wasm/web_rtccam.js:115-119 | `realloc` gets the true old size, the prefix survives, and three bytes a unit hold the rest of the encoding, completely read |
| StringGlue.Glue.PassTwoPhase | webrtc/src/wasm/web_rtccam.js:98-125 | ASCII loop, grow, encode and shrink do to the heap exactly what the path without `realloc` does; the allocator is asked for one byte a unit and, beyond ASCII, for three a unit from there on and then the encoding's size, and for nothing else |
| StringGlue.Glue.PassString | webrtc/src/wasm/web_rtccam.js:88-125 | for every string and both paths the bytes at [ptr, ptr + WASM_VECTOR_LEN) are its encoding, other blocks are untouched, the cache stays good; without a trap it throws exactly if the encoder is missing and needed, and it asks the allocator for exactly the stated sizes |
| StringGlue.Glue.GetString | webrtc/src/wasm/web_rtccam.js:35-38 | for all i32 arguments: decodes the bytes of the current memory from the unsigned pointer to pointer plus signed length, clamped and counted from the end as `subarray` does, or throws |
| StringGlue.Glue.LookUp | webrtc/src/wasm/web_rtccam.js:191-194 | pointer and length survive their trip as i32, and the import reads the repaired string |
| StringGlue.Glue.RustRuns | webrtc/src/wasm/web_rtccam.js:133-133 | however Rust allocates, frees and resizes other blocks, the block it borrows keeps its place and its bytes |
| StringGlue.Glue.StartCamera | webrtc/src/wasm/web_rtccam.js:130-135 | however Rust works on the heap in between, the id that reaches getElementById is the repaired string that went in, and that string itself if it is well formed |
| WasmMemory.Instance.Malloc | webrtc/src/wasm/web_rtccam.js:99-99 | the allocator's side: a new block of at most `isize::MAX` bytes clear of all others, the memory perhaps grown and the old buffer detached, or a trap |
| WasmMemory.Instance.Realloc | webrtc/src/wasm/web_rtccam.js:115-120 | the same for `realloc`, which must be told the true size and keeps the common bytes |
| Closures.EnvironmentIsLinear | webrtc/src/wasm/web_rtccam.js:46-69 | over all nestings, throws and drops, until the wrapper is finalized the environment is in exactly one of state.a, one frame, freed; cnt is owner plus depth; never freed while a call has it, nor twice; after finalization it is freed, no call runs and none can start |
| Closures.CallGetsEnvironmentIff | webrtc/src/wasm/web_rtccam.js:52-54 | a call receives the environment exactly if no call is running and it has not been destroyed |
| Closures.DestroyedWhenDone | webrtc/src/wasm/web_rtccam.js:298-306 | dropped and no call running means destroyed, once; a late finalizer then destroys nothing |
| Closures.MutClosure.BeginCall | webrtc/src/wasm/web_rtccam.js:52-54 | the count goes up and the pointer is taken out, as the step Enter |
| Closures.MutClosure.EndCall | webrtc/src/wasm/web_rtccam.js:57-64 | destroys at count zero or puts the pointer back, as the step Leave |
| Closures.MutClosure.CbDrop | webrtc/src/wasm/web_rtccam.js:298-306 | says true exactly for the last reference, as the step Drop |
| Closures.WhenDestroyed | webrtc/src/wasm/web_rtccam.js:298-306 | runs that take place: a drop between calls destroys at once, one during a call at its end; nested calls find the environment taken and give it back |
| Closures.MutClosure.CallReal | webrtc/src/wasm/web_rtccam.js:48-65 | a whole call with an arbitrarily nested, throwing body is the run of that body's events, and throws exactly if the body does |
| ClosurePrograms.MachineRunsTrace | webrtc/src/wasm/web_rtccam.js:55-64 | the events of a body and whether it throws are those of an independent machine with a stack of calls and unwinding |
| ClosurePrograms.BodyRuns | webrtc/src/wasm/web_rtccam.js:55-64 | and that machine stops for every body, by an exception exactly if the body throws |
| ClosurePrograms.RestNeverRuns | webrtc/src/wasm/web_rtccam.js:55-64 | nothing that follows an uncaught exception happens |
| ClosurePrograms.CallsAreClosed | webrtc/src/wasm/web_rtccam.js:52-64 | however a body ends, every call that was entered is left |
| Closures.StackPointerDoesNotEscape | webrtc/src/wasm/web_rtccam.js:237-254 | the stack pointer is lent to at most one callback at a time and to none once the shim has returned |

## Left out

- Camera access, video elements, `getUserMedia` and the Rust body of `start_camera`: browser input and output; only the string that goes through is followed.
- ICE candidates, gathering and connection states, STUN: the browser's business. On the page a candidate message only adopts the peer id, as its first-render closure does; its relay transport is that of any text.
- Rendering, alerts, console output and `getWebSocketUrl`: user interface and environment.
- SDP bodies and JSON syntax: a description is known by its type, its maker and, for an answer, the offer it answers; a text by the fields that anyone reads. A JSON `null` is not told apart from a missing field.
- Authenticity of `from`: the server does not check it, and nothing is claimed about it.
- Glare and two offers handled at once: agreement does not hold there, and is stated for runs with one caller. The flag and track invariants hold for all runs.
- Stopping sessions and lost texts in the handshake runs: both clients stay connected. A caller whose offer comes to nothing is stuck until an offer or answer comes in (`PageLimits.FlagSticksIff`).
- Presses of connect, in the handshake runs, for somebody else than the callee: such a call is a round of its own with another client.
- Unmounting, a closed connection or socket, rejected media sections that take senders away: the connection lives as long as the run.
- The operations chain of the connection and React's batching: any order of suspended calls and any moment of rendering is allowed, which is more than a browser does.
- A session that stops between its registration and its greeting: `started` is not interrupted by actix; a stop comes after it.
- A remote offer that fails after the browser has already rolled back its own: the failure leaves the connection as it was. A rollback that makes way for an offer that is set is modelled, with the event it fires.
- `realloc` beyond `isize::MAX`, which Rust leaves undefined: taken as a trap.
- Strings of 2^30 code units and more, which no engine makes: three bytes a unit would not fit the address space.
- HooksOnPage.PageHearsAlone: for a page that has its client id; without it the effect does not run the handler.
- HooksOnPage.PageOffersAlone: for a page with the peer id and the ready flag rendered; the hook has neither guard.
- Hooks.HooksRefinePage: the hook's flag is a React state that its next call sees as rendered, so handlers are run one at a time; interleaved handlers are not compared.
- HandshakeLiveness.FairRoundsEnd: assumes weak fairness of the relay, the sockets and the browsers, and no failing call from then on; no bound on time is given.
- The other wasm imports, the externref table, module loading and the registry itself: foreign calls. The finalizer appears as one step.
- Docker, nginx, TLS and package configuration, `webrtc.ts` predicates, `getConnectionStateColor`: single lookups and settings.
