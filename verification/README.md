# A verified model of the iotd broker's delivery core

iotd is an MQTT 3.1.1 broker. This project models the parts of it that decide
whether a message arrives, where, and how often, and proves what they guarantee:

- **the delivery engine of a session** (`Engine`, `Session`): packet identifiers,
  the in-flight queue, the QoS 2 messages awaiting PUBREL, retransmission,
  takeover, save and restore;
- **inbound QoS 2 against an arbitrary client** (`Inbound`) and **end to end with a
  client that resends** over channels that lose their contents (`EndToEnd`,
  `EndToEndProofs`), and the same for QoS 1 (`AtLeastOnce`);
- **outbound QoS 1 and 2 over whole runs** (`Outbound`, `OutboundProofs`,
  `OutboundTheorems`, `OutboundContent`, `OutboundOrder`, `OutboundExpiry`);
- **what a takeover with the clean flag leaves behind** (`CleanStart`);
- **the router** (`Topics`, `Routing`, `RouterProofs`, `RetainedProofs`): the two
  subscription maps, the wildcard matcher, routing into mailboxes, the retained
  messages;
- **the wire codec** (`Wire`, `Codec`, `CodecProofs`, `PacketReading`, `Bits`);
- **the two storage backends** (`Storage`, `Sqlite`, `SqliteProofs`), what a save
  followed by a restore loses (`Persistence`, `Resumption`), and what the database makes
  of the sessions that runs lead to (`SaveLimits`).

`dafny verify dfyconfig.toml` checks the project.

## How it is built

Code that changes state in place is a class or a method with loops: `Codec.Buffer`,
`Codec.Cursor`, `Routing.Router`, `Storage.MemoryStorage`, `Sqlite.SqliteStorage`,
`Session.Runtime`. Each such method is proved to compute a function on values (module
`Wire` for the codec, `Engine` for the session, `Routing.Router.Lookup` for the router,
`MemoryState` and `Database` for storage), and the theorems are about these functions.

All sessions are polled from one task, so the code between two awaits is one step.
A write to the client succeeds or fails: `Session.Writer` accepts `credit` more packets.
Time is a number of milliseconds. The access list is an arbitrary function, UTF-8
validity an arbitrary predicate on bytes, and the order in which a hash map yields its
entries is arbitrary. Text is its UTF-8 bytes; the characters that matter (`/`, `+`, `#`,
NUL) are single bytes. Integer widths are kept: lengths and counters that are cast or
wrap do so in the model.

History is kept apart from state. The end-to-end models of QoS 1 and QoS 2 number the
submitted messages; the outbound model numbers the messages that got an identifier and writes
down when each was put up for transmission. Erasing the history gives the steps of a system
without it (`EndToEnd.HistoryIsFaithful`, `AtLeastOnce.HistoryIsFaithful`,
`Outbound.HistoryIsFaithful`). A restart in the end-to-end model restores what a save has
written, in memory or in the database; the step `Resumes` of the outbound model is shown to
be the restart with the memory storage (`SaveLimits.ResumesIsRestore`).

## Where the code falls short of a claim

Each of these is stated with the exact condition under which the claim holds, and with a
case in which it fails.

- *QoS 1 is delivered at least once* (README.md:56): a message is routed, now or later,
  exactly if its first transmission was not under way when a connection broke or its reply
  could not be written, because every repetition is acknowledged as a duplicate and dropped:
  `AtLeastOnce.RoutedUnlessLost`; the client is told otherwise in
  `AtLeastOnce.AcknowledgedAndLost`.
- *The PUBLISH is not sent again after its PUBREL* (section 4.3.3 of MQTT 3.1.1) holds,
  while no more than 65535 identifiers are allocated during the life of a message, exactly if
  no retransmission of the message is waiting in the mailbox when the PUBREC is answered:
  `OutboundOrder.QuietForGood`, `OutboundOrder.WaitingIsSent`; in
  `OutboundOrder.RuleCanBeBroken` the PUBREL is written and then the PUBLISH. The
  repository's README promises "exactly once" without this reservation (README.md:39).
- *A clean session starts from nothing* (section 3.1.2.4 of MQTT 3.1.1) holds after a
  takeover exactly if the old session held no received QoS 2 message, its mailbox was empty
  and it had no will: `CleanStart.CleanTakeoverStartsAfresh`. What each of the three
  lets through: `Inbound.CleanTakeoverKeepsOld`, `CleanStart.MailboxSurvives`,
  `CleanStart.ClearedIsSent` (a message that the takeover itself struck off), and
  `CleanStart.WillSurvives`. The next identifier is carried on as well, which is no fault.
- *Every message runs into the retry limit if it is not acknowledged* holds, after every run,
  exactly if the limit is below the largest u32 and the timer is on:
  `OutboundExpiry.ExpiryNeedsRoom`. Otherwise, and switching the timer off is a documented
  setting, whatever is in flight stays in flight however long the client is silent:
  `OutboundExpiry.NeverGivenUp`.
- *A session can be saved in the database* holds after a run exactly if no two messages in
  flight are a multiple of 65535 allocations apart: `SaveLimits.RunSaves`;
  `SaveLimits.WrappedCannotSave` is a run after which every save is rolled back.
- *Received QoS 2 messages survive a restart* ("exactly once", README.md:39) holds with the
  memory storage. With the database, if it has nothing older of the client, it holds exactly
  if the save went through or there were none: `EndToEndProofs.DatabaseKeepsHeldIf`;
  `EndToEndProofs.ExactlyOnceDelivery` covers all runs whose saves go through. Otherwise the new
  session answers the PUBREL of a message it does not have: `SaveLimits.RollbackLosesMessage`.
- *Messages in flight keep their order* holds across a restart with the memory storage
  (`OutboundTheorems.IdentifiersInOrder`). What the database may give back of one save is
  exactly its rows in any order (`SaveLimits.DatabaseRestoresAnyOrder`), so the order is sure
  exactly if there are fewer than two: `SqliteProofs.OrderIsSure`.
- *What was saved can be read back* holds in all runs exactly if the retry limit is below
  2^31 or the timer is off: `SaveLimits.ReadableByLimit`, with the failing run in
  `SaveLimits.OutgrownIsLost`.
- *`+` matches exactly one level* (docs/arch.md:158, section 4.7.1 of MQTT 3.1.1) holds of a
  valid filter on all valid topics exactly if it has no level `+` or is "+" alone:
  `Topics.PlusFreeAgrees`; the topics missed are those that match by the standard with a `+`
  facing an empty level, `Topics.PlusNeedsContent`, such as "/a" for "+/a",
  `Topics.PlusMissesEmpty`. The repository's tests want it so.

## Model

| member | source | states |
|---|---|---|
| EndToEndProofs.ExactlyOnceDelivery | src/session.rs:761-913 | For every run of submissions, resends, losses, reconnections, failed writes and restarts, from the memory storage or from a database whose saves go through, with identifiers reused: no submitted message is released twice, what is released is what was submitted, a message whose PUBCOMP the client has was released, every other is still in an exchange, and these are all the releases of the system without history |
| EndToEndProofs.DoKeeps | src/session.rs:761-913 | The relation between client exchanges, both channels and the held messages that every step keeps |
| EndToEndProofs.RestartKeepsHeld | src/session.rs:1202-1368 | Whatever a run has led to, restoring what was saved gives back exactly the held messages, dup bits aside |
| EndToEndProofs.DatabaseKeepsHeld | src/storage/sqlite.rs:441-483 | So does the database, in whatever order its rows come, if the save went through |
| EndToEndProofs.DatabaseKeepsHeldIf | src/storage/sqlite.rs:160-271 | If the database has nothing older of the client, the held messages come back exactly if the save went through or there were none |
| EndToEndProofs.RolledBackLoses | src/storage/sqlite.rs:160-271 | If the save is rolled back and nothing older is stored, the client gets its PUBCOMP for a message that is never released |
| SaveLimits.RollbackLosesMessage | src/storage/sqlite.rs:217-246 | A reachable case of that: 65536 unanswered messages on the way out cost a received one |
| EndToEndProofs.CanAlwaysFinish | src/session.rs:761-913 | From every state each unfinished exchange can be completed by a new connection, one resend and two round trips |
| EndToEnd.HistoryIsFaithful | src/session.rs:761-913 | Without the numbers the system takes the same steps |
| AtLeastOnce.HistoryIsFaithful | src/session.rs:849-873 | Without the numbers the QoS 1 system takes the same steps |
| AtLeastOnce.OnePlaceEach | src/session.rs:849-873 | In every run each submitted QoS 1 message is in exactly one place: under way for the first time, routed once and unaltered, or lost because its first transmission was under way at a break or failed write; what is routed is what the system without history routes |
| AtLeastOnce.RoutedUnlessLost | src/session.rs:849-873 | A message is routed, now or in some continuation, exactly if its first transmission was not lost |
| AtLeastOnce.LostForGood | src/session.rs:860-867 | In no continuation is a lost message routed, however often it is resent |
| AtLeastOnce.AcknowledgedAndLost | src/session.rs:852-867 | A run that leaves a message acknowledged and never to be routed |
| AtLeastOnce.LosesNothing | src/session.rs:849-873 | Without lost connections and failed writes nothing is lost |
| Inbound.HeldIsPending | src/session.rs:876-907 | Against any client, under an identifier the session holds exactly the first PUBLISH since the last answered PUBREL |
| Inbound.ReleaseIsPending | src/session.rs:761-814 | A PUBREL releases a message exactly if it could be answered and a PUBLISH is pending, and then that PUBLISH; nothing else is released |
| Inbound.InboundConservation | src/session.rs:761-913 | As multisets, accepted = routed + denied by the access list + still held, for every history |
| Inbound.HandedOn | src/session.rs:761-935 | For every history: a QoS 0 PUBLISH, and a QoS 1 PUBLISH with an identifier, without dup and whose PUBACK could be written, is handed on as it is; a PUBREL hands on the pending message; nothing else is handed on |
| Inbound.Answers | src/session.rs:761-935 | Which packet answers which, always under its own identifier, how the handler ends, and that QoS 0 and 1 leave the session as it was |
| Inbound.HandedConservation | src/session.rs:761-935 | As multisets, routed at once + taken in = routed + denied by the access list + still held, for every history |
| Inbound.ReceivedWellKept | src/session.rs:876-896 | Held messages are always QoS 2 messages under their own identifier |
| Inbound.CleanTakeoverForgets | src/session.rs:593-603 | After a clean takeover the session releases what a new one would, for every history of packets, exactly if it held no received message |
| Inbound.CleanTakeoverKeepsOld | src/session.rs:593-603 | A case in which the previous session's message is released instead |
| CleanStart.CleanTakeoverStartsAfresh | src/session.rs:577-605 | After a clean takeover a session writes and hands on what a new one would, for every sequence of events, exactly if it held no received message, its mailbox was empty and it had no will |
| CleanStart.CleanTakeoverAfterRun | src/session.rs:593-603 | After any run of outbound events the next client gets nothing of the previous one exactly if the mailbox was empty |
| CleanStart.MailboxSurvives | src/session.rs:593-603 | A run after which the next client is sent the previous one's message |
| CleanStart.ClearedIsSent | src/session.rs:601-602 | A run after which the next client is sent the retransmission of a message that the takeover cleared |
| CleanStart.WillSurvives | src/session.rs:1117-1133 | The previous client's will is published when the session ends |
| Outbound.HistoryIsFaithful | src/session.rs:630-690 | The machine with history does what the session does, for every event |
| OutboundProofs.StepKeeps | src/session.rs:630-737 | Every event keeps the identifiers, order, counters, spacing and accounting of the in-flight queue, the mailbox and what has left |
| OutboundProofs.RunKeeps | src/session.rs:630-737 | All of that holds after every run, of any events in any order, from a new session |
| Engine.NextIdOf | src/session.rs:195-203 | Allocation counts round the 65535 identifiers that are not zero |
| Engine.SameId | src/session.rs:195-203 | Two allocations give the same identifier exactly if a multiple of 65535 lies between them |
| OutboundTheorems.IdentifiersInOrder | src/session.rs:195-203 | In every run, across save and restore with the memory storage, the message numbered k has the k-th identifier and the queue stays in allocation order |
| OutboundTheorems.IdentifiersDistinct | src/session.rs:630-690 | In-flight identifiers are pairwise distinct while at most 65535 were allocated since the oldest in-flight message |
| OutboundTheorems.AcknowledgementIsPrecise | src/session.rs:692-712 | Under that bound an acknowledgement removes the message it names and no other |
| OutboundTheorems.OutboundConservation | src/session.rs:630-712 | Every message that got an identifier is in flight or has left by a failed first write, acknowledgement, expiry or clean takeover, and never both |
| OutboundTheorems.FateIsFinal | src/session.rs:1057-1099 | What has left never comes back and its fate never changes, in any continuation of any run |
| OutboundTheorems.NoFailureNoLoss | src/session.rs:640-648 | Only a failed write loses a message that was taken from the mailbox |
| OutboundTheorems.ExpiredTransmissions | src/session.rs:1044-1106 | An expired QoS 1 message was put up for transmission exactly 1 + limit times, an expired QoS 2 message between 1 + limit and 1 + 2 * limit times |
| OutboundExpiry.PatienceRunsOut | src/session.rs:1056-1099 | In any run a message that has been due often enough has expired: 1 + limit times at QoS 1, 1 + 2 * limit times at QoS 2 |
| OutboundExpiry.SilenceExpires | src/session.rs:1044-1099 | From any reachable state whatever is in flight expires when the timer has gone off often enough and nothing comes from the client |
| OutboundExpiry.ExpiryNeedsRoom | src/session.rs:1046-1069 | After every run all that is in flight runs into the limit in a long enough silence exactly if the limit is below the largest u32 and the timer is on; otherwise nothing expires in any run |
| OutboundExpiry.NeverGivenUp | src/session.rs:1046-1069 | At the largest u32 or with the timer off, whatever is in flight after a run stays there in every silence |
| OutboundTheorems.TransmissionsSpaced | src/config.rs:132-138 | Any two times at which one in-flight message is put up for transmission are at least 500 ms and the configured interval apart |
| OutboundTheorems.MailboxIdentifiers | src/session.rs:1101-1106 | Every PUBLISH in the mailbox is fresh without an identifier or repeats an allocated one |
| OutboundTheorems.AlwaysWellKept | src/session.rs:650-658 | In-flight packets always carry an identifier and the dup flag |
| OutboundContent.StepKeepsContent | src/session.rs:630-737 | Every event keeps this: an in-flight packet, and a dup PUBLISH in the mailbox, carries the message of its number as it stood in the mailbox |
| OutboundContent.KeptIsMessage | src/session.rs:650-682 | After every run what is kept for retransmission has topic, payload, level and retain flag of its message, its identifier and the dup flag |
| OutboundContent.WrittenIsMessage | src/session.rs:630-690 | After every run each PUBLISH written is the head of the mailbox: at QoS 0 as it stands, else with the next identifier and a new number, or again the message of an old number |
| OutboundContent.HeadIsWritten | src/session.rs:630-690 | The head of the mailbox is written whenever the connection takes it |
| OutboundContent.RelsInOrder | src/session.rs:1083-1091 | The PUBRELs of a tick are those of exactly the due, unexpired entries that wait for PUBCOMP, in send order |
| OutboundContent.TickWritesPubRels | src/session.rs:1056-1112 | After every run a tick writes one PUBREL for each message that waits for PUBCOMP, has waited 500 ms and the configured interval and has a retry left, and nothing else |
| OutboundContent.TickRepublishes | src/session.rs:1056-1106 | And puts one dup PUBLISH with the message of its number into the mailbox for each such message that waits for PUBACK or PUBREC |
| OutboundContent.PubRelsSpaced | src/session.rs:725-737 | The times at which the PUBREL of a message is due, from its PUBREC on, are 500 ms and the configured interval apart |
| OutboundContent.PubRelNotHurried | src/session.rs:731-733 | A PUBREL is not repeated within the interval of its PUBREC or of its last repetition |
| OutboundTheorems.RankFalls | src/session.rs:725-737 | The phase of a message never goes back, and its rank falls with every due tick and every effective PUBREC and never rises |
| OutboundTheorems.WorkBounded | src/session.rs:1052-1099 | Over any run, the due ticks and effective PUBRECs a message sees are covered by the fall of its rank |
| OutboundTheorems.EffortIsBounded | src/session.rs:1052-1099 | A message still in flight has seen at most 2 * limit + 1 of them, a QoS 1 message at most limit, however many PUBRECs are repeated |
| OutboundTheorems.BatchInOrder | src/session.rs:1052-1106 | A batch of retransmitted PUBLISH packets is the subsequence, in send order, of exactly the due entries that neither expire nor wait for PUBCOMP |
| OutboundOrder.QuietForGood | src/session.rs:1101-1106 | If no retransmission of a message waits when its PUBREC is taken in, none ever will while it is in flight, in runs that keep at most 65535 allocations since the oldest message in flight |
| OutboundOrder.WaitingIsSent | src/session.rs:683-686 | If one waits, working off the mailbox writes it after the PUBREL |
| OutboundOrder.RuleCanBeBroken | src/session.rs:1101-1106 | A run in which that happens: the PUBREL is written, and then the PUBLISH |
| Session.Runtime.NextPacketId | src/session.rs:195-203 | Hands out the identifiers one after the other, round the 65535 that are not zero |
| Session.Runtime.OnMessage | src/session.rs:630-690 | Computes `Engine.OnMessage` and writes what it calls for, or fails |
| Session.Runtime.OnPubAck | src/session.rs:692-712 | One walk over the queue keeps the entries with other identifiers, all of them and in their order |
| Session.Runtime.OnPubRec | src/session.rs:715-758 | The first waiting entry with the identifier, its packet unchanged, waits for PUBCOMP from now on with no retry yet; nothing else changes; PUBREL answers in any case |
| Session.Runtime.OnPubComp | src/session.rs:817-837 | One walk over the queue keeps the entries with other identifiers, all of them and in their order |
| Session.Runtime.OnPubRel | src/session.rs:761-814 | Answers first; only then takes the message out and hands it to the router if, and only if, the access list lets this client publish to its topic |
| Session.Runtime.OnPublish | src/session.rs:839-935 | Per QoS: the reply, the stored message, the routed message and the way the handler ends, also for a missing identifier and a failed write |
| Session.Runtime.CollectDue | src/session.rs:1056-1099 | One walk over the queue computes `Engine.OnTick` |
| Session.Runtime.OnRetransmit | src/session.rs:1044-1115 | PUBLISH packets go to the mailbox, PUBRELs to the client as far as writes succeed; nothing happens when retransmission is off |
| Session.Runtime.OnSubscribe | src/session.rs:937-1006 | Subscribes the authorised valid filters; one return code per filter in the order asked; then the retained messages, filter by filter |
| Session.AuthorizedAsks | src/session.rs:944-975 | What is asked of the router is what was asked for, but for the filters the client may not subscribe to |
| Session.CodesMean | src/session.rs:976-995 | The code for a filter is the level asked for, or 0x80 if the client may not or the filter is not valid |
| Session.AuthorizedAt | src/session.rs:979-989 | Where the router's code for an authorised filter is found among its codes |
| Session.Runtime.OnUnsubscribe | src/session.rs:1008-1029 | Removes exactly this session's subscriptions under the filters |
| Session.Runtime.PublishWill | src/session.rs:1117-1133 | Routes the will once, with its topic, payload and retain flag, at QoS 0 |
| Session.Runtime.OnTakeover | src/session.rs:577-605 | After a failed CONNACK nothing changes; a clean takeover clears in-flight queue, subscriptions and saved state; any other keeps them |
| Session.Runtime.SaveToStorage | src/session.rs:1136-1224 | Saves exactly the session's state and subscriptions, each row once |
| Session.Runtime.RestoreFromStorage | src/session.rs:1227-1368 | Takes exactly what was saved into the session and the router, and removes it from storage |
| Persistence.InboundIdentity | src/session.rs:1202-1368 | The received messages come back from their rows, in whatever order, exactly if they are QoS 2 messages under their own identifiers |
| Persistence.SaveRestoreIdentity | src/session.rs:1136-1368 | Restore after save is the identity on the delivery state, clock readings and inbound dup bits aside, exactly if the state is well kept |
| Resumption.DisconnectAndReturn | src/session.rs:1227-1368 | A session that saves and goes and one that restores in its place: same delivery state, keep-alive, will and subscriptions, now leading to the new mailbox; nobody else's subscriptions change |
| Resumption.SubscriptionsComeBack | src/session.rs:1285-1300 | Subscribing from the saved rows asks for exactly the saved filters and levels |
| Topics.JoinSplit | src/router.rs:390-391 | Joining the levels of a name gives the name back |
| Topics.SplitJoin | src/router.rs:390-391 | Splitting a join of levels gives the levels back, so names and level lists correspond |
| Topics.MatchPartsMeaning | src/router.rs:396-440 | The recursive matcher computes the level-by-level meaning for all topics and all filters, valid or not |
| Topics.ShortcutRedundant | src/router.rs:385-394 | The shortcut for equal strings changes no answer exactly if '#' stands nowhere but at the end |
| Topics.ValidFilterMeaning | src/router.rs:76-101 | For a valid filter matching is the declarative meaning |
| Topics.PlusNeedsContent | src/router.rs:422-430 | For a valid filter the matcher misses, of the topics that match by section 4.7.1 of MQTT 3.1.1, exactly those in which a '+' faces an empty level |
| Topics.PlusFreeAgrees | src/router.rs:385-440 | A valid filter is matched as in section 4.7.1 on all valid topics exactly if none of its levels is '+' or it is "+" alone |
| Topics.PlusMissesEmpty | src/router.rs:422-430 | A valid topic and a valid filter that match by the standard and not here |
| Topics.TopicsOfLevels | src/router.rs:52-69 | The valid topics are the joins of levels without NUL, but for the empty name |
| Topics.FiltersOfLevels | src/router.rs:76-101 | The valid filters are those in which, besides, every level is '+', or '#' in the last place, or has neither character |
| Topics.LiteralFilter | src/router.rs:71-73 | A filter without wildcards matches exactly itself |
| Routing.Router.Subscribe | src/router.rs:103-164 | Both maps stay consistent; the relation gains exactly the valid filters at the level last asked for; codes and retained messages line up with the filters |
| Routing.Router.FindRetainedForFilter | src/router.rs:167-211 | By scan or by key, with or without the list loaded for an earlier filter, finds exactly the retained messages the filter matches |
| Routing.ExactLookup | src/router.rs:199-205 | The lookup by key finds what a scan would |
| Routing.ScanExact | src/router.rs:187-197 | The scan of any listing finds exactly the matching messages, each once |
| Routing.Router.Unsubscribe | src/router.rs:239-255 | Removes exactly the named subscriptions of the session from both maps |
| Routing.Router.UnsubscribeAll | src/router.rs:257-267 | Removes one session from both maps and nothing else |
| Routing.Router.GetSubscriptions | src/router.rs:270-285 | Lists exactly the session's part of the relation, each filter once |
| Routing.Router.Route | src/router.rs:287-335 | Visits every matching (filter, session) pair exactly once and appends the forwarded copy to that subscription's mailbox; no other mailbox changes; an invalid topic goes nowhere |
| Routing.Router.HandleRetainedMessage | src/router.rs:338-382 | Deletes, stores, updates or drops at the limit |
| RouterProofs.RoutedIsFresh | src/router.rs:307-314 | Forwarded copies have no identifier and neither dup nor retain, and a level no higher than the publisher's |
| RouterProofs.VisitsMean | src/router.rs:302-331 | The subscriptions served are exactly those whose filter means the topic, each once |
| RouterProofs.SentAreCopies | src/router.rs:302-331 | What a mailbox gets is, visit by visit, a copy with the topic and payload of the message, no identifier and neither flag, at the lower of its level and the subscription's |
| RouterProofs.GrantedIsRecorded | src/router.rs:113-150 | A valid filter is answered with the number of the level that is recorded for it, an invalid one with 0x80 and no record |
| RouterProofs.CopiesCounted | src/router.rs:302-331 | Any packet arrives in a mailbox exactly as often as there are matching subscriptions that lead to it and of which it is the forwarded copy |
| RouterProofs.OnePerSubscription | src/router.rs:302-331 | Together they are as many as those subscriptions, and each has its copy among them |
| RouterProofs.LowerLevel | src/router.rs:16-25 | The forwarded level is one of the two and no higher than either |
| RetainedProofs.LastTouchDecides | src/router.rs:338-382 | For every history: a topic has a retained message exactly if its last retain publication was non-empty and was stored, and then it is that publication |
| RetainedProofs.RetainedIsLatest | src/router.rs:338-382 | What is retained is the most recent retain publication to the topic and is never empty |
| RetainedProofs.FoundAnnounces | src/router.rs:213-236 | What is found for a filter is one packet for each matching retained topic, with the stored payload, the retain flag and the lower of the stored and the subscribed level |
| RetainedProofs.SubscriberGetsLatest | src/router.rs:167-236 | After any history a new subscriber gets, for each retained topic its filter means, the payload of the most recent retain publication to it, and nothing else |
| RetainedProofs.SizeBounded | src/router.rs:350-360 | The number of retained messages never exceeds the limit or the initial number |
| RetainedProofs.DeletionFreesSlot | src/router.rs:339-360 | At the limit updates are accepted, new topics are not, and a deletion makes room |
| RetainedProofs.LimitUnnoticed | src/router.rs:350-360 | While the topics seen fit within the limit the store is the one without a limit |
| CodecProofs.LengthRoundTrip | src/protocol/packet.rs:263-302 | Decoding an encoded length up to 268435455 gives it back in at most four bytes and leaves the rest |
| CodecProofs.LengthIsShortest | src/protocol/packet.rs:263-302 | Whatever is accepted is at most 268435455, and the encoder's bytes for it are no more than were read |
| CodecProofs.LengthAccepted | src/protocol/packet.rs:263-302 | Exactly the lengths up to 268435455 survive; every larger one is refused as invalid |
| Codec.EncodeRemainingLength | src/protocol/packet.rs:289-302 | The loop appends the base-128 bytes |
| Codec.DecodeRemainingLength | src/protocol/packet.rs:263-287 | The loop computes the reading and never leaves the range of u32 |
| Codec.EncodePublish | src/protocol/packet.rs:479-505 | Appends header, length and body of the PUBLISH |
| Codec.Encode | src/protocol/packet.rs:246-261 | Appends exactly the packet's bytes; nothing for packets only clients send |
| Codec.DecodePublish | src/protocol/packet.rs:406-433 | Computes the reading of a PUBLISH body, errors included |
| Codec.DecodeConnect | src/protocol/packet.rs:325-404 | Computes the reading of a CONNECT body, errors included |
| Codec.DecodeFilters | src/protocol/packet.rs:439-449 | The loop reads filters until the body is used up, or fails |
| Codec.DecodeTopics | src/protocol/packet.rs:461-464 | The loop reads topics until the body is used up, or fails |
| Codec.Decode | src/protocol/packet.rs:174-244 | Reads the first packet of the stream and stops right behind it |
| CodecProofs.ConnectFlagsFit | src/protocol/packet.rs:332-353 | The six fields of the CONNECT flag byte can be taken apart again, in every combination |
| CodecProofs.ConnectRead | src/protocol/packet.rs:325-404 | Decoding inverts the encoding of every well-formed CONNECT |
| CodecProofs.FiltersRead | src/protocol/packet.rs:435-455 | Decoding inverts the encoding of filter lists of any length |
| CodecProofs.TopicsRead | src/protocol/packet.rs:457-470 | Decoding inverts the encoding of topic lists of any length |
| CodecProofs.PacketDecoded | src/protocol/packet.rs:174-244 | Every decoded packet is well formed, and decoding consumed a prefix of at least two bytes |
| CodecProofs.PacketRoundTrip | src/protocol/packet.rs:174-260 | A packet written before anything else is read back, leaving that untouched, exactly if it is well formed |
| CodecProofs.StreamRoundTrip | src/protocol/packet.rs:174-260 | Any list of well-formed packets, written one after the other, is read back as that list |
| PacketReading.ServerPacketReadBack | src/protocol/packet.rs:472-547 | CONNACK, SUBACK, UNSUBACK and PINGRESP are read back by a reader that follows the standard |
| PacketReading.WrittenIsHeard | src/protocol/packet.rs:246-261 | A client reads from the connection exactly the packets that were written to it, in order |
| PacketReading.PublishFirstByte | src/protocol/packet.rs:479-488 | The first byte of a PUBLISH in every combination of its flags |
| PacketReading.UnknownTypeRefused | src/protocol/packet.rs:177 | Types 0 and 15 are refused |
| PacketReading.ServerPacketRefused | src/protocol/packet.rs:238 | So is what only servers send |
| PacketReading.AcknowledgementAccepted | src/protocol/packet.rs:197-228 | An acknowledgement is accepted exactly with a body of two bytes, a PUBREL only with flags 2 |
| PacketReading.ThirdLevelRefused | src/protocol/packet.rs:406-413 | A PUBLISH with both QoS bits is refused |
| PacketReading.CutShortRefused | src/protocol/packet.rs:184-185 | A packet cut short is not read |
| PacketReading.ConnectFlagsRefused | src/protocol/packet.rs:332-353 | A password without user name and a will with both QoS bits are refused |
| Bits.TypeAndFlags | src/protocol/packet.rs:176-178 | Shift and mask of the first byte are division and remainder by 16, for every byte |
| Bits.QosBits | src/protocol/packet.rs:335-408 | Shift and mask of the QoS fields are division and remainder, for every byte |
| Bits.PublishBits | src/protocol/packet.rs:430-431 | So are the masks of the retain and dup flags |
| Bits.SessionBits | src/protocol/packet.rs:333-393 | The masks of the clean-session and will flags pick the fields that the model's reading of a CONNECT uses |
| Bits.CredentialBits | src/protocol/packet.rs:347-348 | And those of the user name and password flags |
| Bits.LengthBits | src/protocol/packet.rs:276-297 | The masks of a remaining-length byte are its base-128 digit and its continuation |
| Bits.PublishHeader | src/protocol/packet.rs:480-488 | The header byte that is put together with `or` and shift is the first byte of the model's PUBLISH |
| Storage.MemoryStorage.SaveSession | src/storage/memory.rs:42-70 | All four loads for the client then give what was saved; for any other client they give what they gave before |
| Storage.MemoryStorage.DeleteSession | src/storage/memory.rs:98-110 | No load for the client then finds anything; for any other client they give what they gave before |
| Storage.MemoryStorage.LoadAllRetainedMessages | src/storage/memory.rs:157-160 | Lists every retained message once |
| Sqlite.SqliteStorage.SaveSession | src/storage/sqlite.rs:160-271 | The transaction: all of it, or an unchanged database if an insertion meets a key |
| Sqlite.SqliteStorage.DeleteSession | src/storage/sqlite.rs:136-154 | No table then has a row of the client, and every other client's rows are as before |
| Sqlite.SqliteStorage.LoadSubscriptions | src/storage/sqlite.rs:370-389 | The client's rows, each once |
| Sqlite.SqliteStorage.LoadInflightMessages | src/storage/sqlite.rs:391-439 | The client's rows, each once, in ascending order of creation, or an error if a counter cannot be read |
| Sqlite.SqliteStorage.LoadInboundQos2Messages | src/storage/sqlite.rs:441-483 | The client's rows, each once, in ascending order of arrival |
| SqliteProofs.InsertAllSucceeds | src/storage/sqlite.rs:207-267 | A client's insertions go through exactly if their keys are distinct |
| SqliteProofs.SaveGoesThrough | src/storage/sqlite.rs:160-271 | A save goes through exactly if no list has a key twice |
| SqliteProofs.SaveTouchesOneClient | src/storage/sqlite.rs:160-271 | A save leaves other clients' rows alone |
| SqliteProofs.CreationIsKept | src/storage/sqlite.rs:170-200 | A session keeps the time of its first save |
| SqliteProofs.BackendsAgree | src/storage/sqlite.rs:160-329 | After any sequence of saves of proper lists and deletions the database holds what the memory storage holds, up to row order and time of creation |
| SqliteProofs.LoadsAgree | src/storage/sqlite.rs:370-483 | Both backends load the same subscriptions, in-flight and inbound rows; the in-flight rows fail to load exactly if a retry counter is too large |
| SqliteProofs.SessionLoads | src/storage/sqlite.rs:273-319 | Both backends load the same session row, but for its time of creation |
| SqliteProofs.InflightReadable | src/storage/sqlite.rs:391-439 | In-flight rows can be read exactly if no retry counter has outgrown a signed 32-bit number |
| SaveLimits.RunSaves | src/storage/sqlite.rs:217-246 | After every run a save goes through exactly if no two messages in flight are a multiple of 65535 allocations apart |
| SaveLimits.WrappedCannotSave | src/storage/sqlite.rs:217-246 | A run of 65536 unanswered messages after which every save is rolled back |
| SaveLimits.ReadableByLimit | src/storage/sqlite.rs:391-439 | What the sessions of a configuration save can always be read back exactly if the retry limit is below 2^31 or the timer is off |
| SaveLimits.OutgrownIsLost | src/storage/sqlite.rs:391-439 | A run whose save goes through and cannot be read back |
| SqliteProofs.AnyOrderLoads | src/storage/sqlite.rs:391-439 | What the database may give back of one save's in-flight rows is exactly these rows in any order |
| SqliteProofs.OrderIsSure | src/storage/sqlite.rs:391-439 | The order of the saved messages is sure to come back exactly if there are fewer than two |
| SaveLimits.DatabaseRestoresAnyOrder | src/storage/sqlite.rs:391-439 | So after every run the in-flight messages may come back in any order |
| SaveLimits.ResumesIsRestore | src/session.rs:1136-1368 | In every run of the outbound model resuming is restoring what was saved, in the saved order |
| SqliteProofs.SessionSaveGoesThrough | src/storage/sqlite.rs:160-271 | A session's save goes through exactly if its in-flight identifiers are distinct |

## Left out

- Sockets, TLS, listeners, timers and `select!`: decoding is atomic on the bytes at hand, and a run is a sequence of handler calls.
- The `run` state loop, `on_connect`, authentication, keep-alive and the broker's tables of sessions and client names: resumption is a step that keeps the delivery state.
- Configuration parsing and access-control files.
- Which byte strings are valid UTF-8: any predicate will do.
- Reading past the end of a packet body, which aborts the program, is the outcome `ShortRead`.
- Bounded mailboxes: a send appends. Back-pressure and the session waiting for room in its own mailbox are not modelled.
- A mailbox whose session is gone: the send that only logs a warning is an append.
- Time of the clock running out, and the cast of an elapsed time to 64 bits.
- Durability across a crash: a restart saves first; with the database, a save that is rolled back leaves what was stored before.
- Session expiry (`delete_expired_sessions`) and time stamps as text; the retained messages of the database, which are one keyed table with an upsert.
- OutboundTheorems.IdentifiersInOrder: covers restarts with the memory storage; the database promises no order (`SaveLimits.DatabaseRestoresAnyOrder`).
- Outbound exactly-once end to end: only the facts about the queue and the mailbox hold, because PUBACK and PUBCOMP remove an entry by identifier whatever its level and phase.
- SqliteProofs.LoadsAgree: says nothing about the order of in-flight rows, because all rows of one save have the same time of creation and any order may come back (`SqliteProofs.AnyOrderLoads`).
- AtLeastOnce.OnePlaceEach: counts a message as routed when it is handed to the access list, like `Inbound.InboundConservation`.
- The overflow checks of debug builds: counters wrap as they do in a release build.
- Inbound.InboundConservation: counts a message as released when it is handed to the access list; `Session.Runtime.OnPubRel` ties that to the router.
- Resumption.DisconnectAndReturn: composes save, unsubscription and restore; the will that the old session publishes when it is cancelled is a separate call.
