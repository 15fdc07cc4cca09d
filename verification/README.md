# Messaging core of the SimpleX web client

This project models the messaging core of the SimpleX web client and proves properties of
it: the browser double ratchet and the native ratchet, the contact client over its durable
store, retry scheduler and queue client, the SMP wire codec and relay, and XFTP web files.

Cryptography is symbolic where protocols are concerned. KDF outputs are free terms, a DH
secret is the unordered pair of two key names, and a sealed box opens only under its own
key, nonce and header (`Ratchet`, `NativeRatchet`, `ContactHandshake`). Where bytes matter,
the Salsa20 block function, Poly1305, the hashes, UTF-8, base64 and decimal texts are
parameters with the algebra they are used for; the base64 reader rejects the empty text.
Record ids are built as the code builds them, from a hash of which only the length is
known: no theorem assumes that hashes never collide.

Everything assumed of such a parameter can be met. Beside each assumption stands a lemma
with a witness (`NamingHolds`, `ConfigHolds`, `ScheduleHolds`, `ShowsHolds`, `TextsHold`,
`SpellingHolds`, `CipherHolds`, `Utf8Holds`, `CodecsHold`, `SuiteHolds`, `SettingHolds`).

| modules | what they hold |
|---|---|
| Ratchet, RatchetKeys, RatchetSession, RatchetTheorems, RatchetSends, RatchetRecord | the browser ratchet in place, its key schedule, its stored form, two parties over an arbitrary network, and what holds after every run |
| Store, StoreValues, Scheduler, RetryTasks | the key space with its capped list index, what survives encoding, the retry list and what each operation leaves of it, task by task |
| ContactRecords, ContactDevice, ContactClient | the records of one contact, each stretch between two awaits as a function on them, and the client doing it in place on store and scheduler |
| ContactWorld, ContactTheorems, ContactSends, ContactHandshake | two clients and a broker under every interleaving, what becomes of messages and of packets; the handshake before it |
| QueueClient, QueueAnswers, QueueOrder | the shared bounded buffer, whom it answers, and its order |
| NativeRatchet, NativeWire, AgentWire, AgentGrammar | X3DH and the ratchet with encrypted headers, its packets, the layers inside a message body, and which byte strings they are |
| Bytes, Base64, SecretBox, SmpCommands, SmpGrammar, SmpTransmission, Relay | padding and words, base64url texts, the keystream box, commands and their grammar, signed transmissions and blocks, the relay's incremental parsers |
| XftpPlan, XftpEnvelope, XftpDescription, XftpText, XftpGrammar, XftpTransfer, XftpDeletion | chunk sizes, file envelope, descriptions, their text form and which texts they are, upload with rollback, download, deletion |

A method that works in place is proved equal to a function on values, and the theorems are
about that function. `Reload` events in a session stand for storing a ratchet and reading
it back.

What the proofs turned up, in the terms of the code:

- `encodeValue` keeps the first 1000 items of a list, so a stored ratchet keeps only its
  oldest 1000 skipped keys although the ratchet itself holds 2000
  (`StoreValues.LongListsAreCut`, `RatchetRecord.StoredIsReloaded`). Order and safety results hold with that loss;
  `RatchetTheorems.AnyOrderOpens` excludes runs in which keys were lost.
- A second `requestContact` for the same contact replaces the ratchet, and the inviter may
  act on the first confirmation: the ends then do not match
  (`ContactHandshake.BothActiveMatch`, `OtherTextsFail`).
- A retry list of 1000 tasks drops the next one without an error, and completed tasks are
  not removed from it by the client (`Scheduler.RequeuedHolds`).
- A second send under a client message id that is still in use takes the place of the first
  in the retry list, or completes it (`ContactSends.ReusedIdDrops`).
- An error text that trims to "CMD" is read as a plain error: the default code "SYNTAX" of
  the parser is never reached (`SmpGrammar.BrokerReadExactly`).
- A native packet cut off inside its tag, or behind its header, is not refused by the parser
  but parsed with a short tag and no body (`NativeWire.PacketReadExactly`).
- An id of more than 153 characters makes `deleteContact` throw after the received records
  are gone and before the ratchet is (`DeleteContact`).
- A call for a queue looks at the buffer only when it begins. Messages of a queue stay in
  order exactly until such a call takes one from its batch while an older one is buffered
  (`QueueOrder.OrderExactly`); `OverlapReorders` gives a run, and calls one at a time never
  do it.
- A delivery that receiveNext refuses is neither acknowledged nor queued
  (`ContactTheorems.DeliveryAcksExactly`). That includes the second copy of a message whose
  send was stored by the broker although its answer was lost (`SecondCopyIsInert`).
- The only contact whose sends and ACKs can share a task id is one called "ack", for a
  message id of the three bytes that read "send" (`ContactWorld.SendAndAckIdsMeet`).
- A native block whose length field is below 5 or above its size minus 2 makes the relay's
  data event throw with later blocks still buffered, so how the stream is cut then matters
  (`Relay.NativeCutsMatterExactly`).
- The id list of a kind is stored where a record of the kind "list" would be
  (`Store.ListKeysMeet`).
- The received `previousSendCount` is parsed and never used: a late message of an older
  epoch opens only if its key was passed over before the epoch ended.

## Model

| member | source | states |
|---|---|---|
| RatchetTheorems.ArrivalExact | src/browser-simplex-ratchet.mjs:200-219 | After every run of sends, losses, repeats, reorderings and reloads, a packet of the peer opens to its own text if and only if its key is held, or it is at most 2000 ahead on the current chain, or it opens the next epoch with at most 2000 missing; otherwise nothing changes |
| RatchetTheorems.ReadAtMostOnce | src/browser-simplex-ratchet.mjs:140-219 | No packet is read twice, nothing is read that was not sent, and what was read is refused from then on |
| RatchetTheorems.InOrderOpens | src/browser-simplex-ratchet.mjs:191-219 | Over a channel that drops but never reorders, every packet with a gap of at most 2000 opens, through any number of DH epochs |
| RatchetTheorems.AnyOrderOpens | src/browser-simplex-ratchet.mjs:140-219 | Within one epoch any order works: every unread message opens while never more than 2000 keys were held and none was lost in the store |
| RatchetTheorems.KeysNeverReused | src/browser-simplex-ratchet.mjs:120-189 | No message key seals two packets, on one side or across the two |
| RatchetTheorems.RunKeeps | src/browser-simplex-ratchet.mjs:153-219 | Both stored ratchets stay on one key schedule, at most one epoch apart, through every run |
| RatchetSession.OpensExactly | src/browser-simplex-ratchet.mjs:200-219 | One arrival opens exactly if acceptable, and then to what was sealed |
| RatchetKeys.KeyInjective | src/browser-simplex-ratchet.mjs:54-62 | A message key fixes its epoch and number |
| RatchetKeys.StaleStepMissesKey | src/browser-simplex-ratchet.mjs:153-165 | A DH step towards an epoch already behind derives no key of the schedule |
| Ratchet.SealsExactly | src/browser-simplex-ratchet.mjs:167-189 | A text is sealed if and only if there is a sending chain and it fits: at most 65533 bytes without a padded length, then in at least 64 bytes, or with one if it leaves room for two bytes and the length is at most 65535; and which error it is otherwise |
| RatchetSends.SendsExactly | src/browser-simplex-ratchet.mjs:167-189 | After every run the initiator, and the responder once it has received something, can send every text that fits, as one packet of that text, nonce and size; no other send changes anything |
| RatchetSends.HeadersAreTrue | src/browser-simplex-ratchet.mjs:120-189 | After every run the counters and every header say how many packets came before in this epoch and in the one before |
| Ratchet.EncryptRatchetMessage | src/browser-simplex-ratchet.mjs:167-189 | The in-place encryption on a copied state is the state transition used in all runs |
| Ratchet.DecryptRatchetMessage | src/browser-simplex-ratchet.mjs:200-219 | The in-place decryption on a copied state is the state transition used in all runs, with the same faults |
| Ratchet.WorkingState.SkipUntil | src/browser-simplex-ratchet.mjs:191-198 | The loop that saves one key at a time ends in the closed form, or fails past 2000, or finds no chain |
| Ratchet.WorkingState.RatchetReceiveStep | src/browser-simplex-ratchet.mjs:153-165 | Two root steps, a new own key, counters reset |
| Ratchet.WorkingState.SaveSkipped | src/browser-simplex-ratchet.mjs:140-143 | Push then shift keeps the newest 2000 keys |
| Ratchet.WorkingState.TakeSkipped | src/browser-simplex-ratchet.mjs:145-151 | The first entry of that DH key and number is removed, all others stay in order |
| Ratchet.WorkingState.AdvanceSending | src/browser-simplex-ratchet.mjs:120-126 | One chain step and one count, or nothing without a chain |
| Ratchet.WorkingState.AdvanceReceiving | src/browser-simplex-ratchet.mjs:128-134 | One chain step and one count, or nothing without a chain |
| ContactTheorems.RunKeeps | src/browser-simplex-contact-client.mjs:1092-1659 | Through every interleaving of stretches of two clients, broker deliveries, lost replies, retries and restarts, each stored ratchet is that of one session run |
| ContactTheorems.OneKeyOnePacket | src/browser-simplex-contact-client.mjs:1092-1130 | Two packets ever handed to the transport under one message key are the same packet |
| ContactTheorems.RetryRepeatsBytes | src/browser-simplex-contact-client.mjs:1617-1626 | A drained retry hands over a packet one earlier send sealed and takes no ratchet step |
| ContactTheorems.ReadAtMostOnce | src/browser-simplex-contact-client.mjs:1411-1570 | A text reaches the caller at most once per message id and at most once per packet, and is the text sealed in it |
| ContactTheorems.SeenIdIsInert | src/browser-simplex-contact-client.mjs:1415-1439 | A message id that was read gives no text and no ratchet step again, and with a changed body changes nothing at all |
| ContactTheorems.EverySeenIsAccounted | src/browser-simplex-contact-client.mjs:1303-1330 | Every message recorded as received is acknowledged, or its ACK is in flight or has an open ackMessage task, unless acknowledging or retrying was off, the client restarted, or the list had no room; only an id that reads "send" of a contact "ack" is excepted |
| ContactTheorems.AnswersEnd | src/browser-simplex-contact-client.mjs:1106-1659 | After every run an answer of the broker ends the one call it answers and no other, and an answer to no call in flight changes nothing |
| ContactTheorems.AcknowledgedOrQueued | src/browser-simplex-contact-client.mjs:1303-1330 | With acknowledging and ACK retries left on, no restart, and the retry list within its limits, every message received at any point of a run is at its end acknowledged, or its ACK is in flight, or an open ackMessage task will repeat it; same exception |
| ContactTheorems.DeliveryAcksExactly | src/browser-simplex-contact-client.mjs:1415-1583 | With acknowledging on, a delivery starts one ACK and is recorded if and only if it repeats a recorded body, or is boxed for this queue and id and holds an acceptable packet with a valid payload; any other delivery changes nothing, so it is neither acknowledged nor queued |
| ContactTheorems.SecondCopyIsInert | src/browser-simplex-contact-client.mjs:1415-1583 | The packet of a text already read, delivered under a new message id as after a send whose answer was lost, changes nothing after any run |
| ContactTheorems.DeliveryExact | src/browser-simplex-contact-client.mjs:1411-1600 | A delivery whose record id is new is read exactly if the ratchet accepts the packet and the payload is valid, and otherwise changes nothing |
| ContactTheorems.InOrderIsRead | src/browser-simplex-contact-client.mjs:1411-1600 | On a channel that never reorders also a packet that was retried is read, if its gap is at most 2000 |
| ContactTheorems.FirstTextIsRead | src/browser-simplex-contact-client.mjs:1092-1600 | From every start the first text of the initiator is read by the responder, under every message id, if it fits its padding and is a valid payload |
| ContactTheorems.HandshakeStartsRun | src/browser-simplex-contact-client.mjs:516-849 | A handshake with one request leaves the two ends such runs start from |
| ContactTheorems.SendDropsAckTask | src/browser-simplex-contact-client.mjs:1105-1109 | An accepted send can complete an open ACK task, which is then never repeated, if and only if the contact is called "ack" and the message id is the three bytes that read "send" |
| ContactTheorems.ReceiveRecords | src/browser-simplex-contact-client.mjs:1399-1600 | What a whole receiveNext leaves in the record of its message: acknowledged once the broker confirmed it, pending exactly while a retry task was queued, both as before where the call throws; a refusal leaves everything |
| ContactSends.AcceptedOrQueued | src/browser-simplex-contact-client.mjs:1092-1130 | With client message ids used once, retries left on, room for every send task and no restart during a send, every packet ever sealed was accepted by the broker, is in flight, or is in an open sendPacket task |
| ContactSends.SendReplyExactly | src/browser-simplex-contact-client.mjs:1106-1129 | A send that failed with retries on leaves its packet in an open task if and only if the list could be written and had room, or an earlier task of it is there; an accepted one leaves none open under its id; with retries off the list is as before |
| ContactSends.ReusedIdDrops | src/browser-simplex-contact-client.mjs:1105-1126 | A second send under a client message id still in use ends the retries of the first packet if and only if it is accepted and completed, or fails and is queued in its place |
| ContactSends.SendsExactly | src/browser-simplex-contact-client.mjs:1092-1105 | After every run the initiator, and the responder once it has read something, can send every text that fits: exactly one packet of it is handed over; no other send does anything |
| ContactSends.DrainReplyExactly | src/browser-simplex-contact-client.mjs:1651-1655 | A retried task is completed if it was accepted and the list can be written, else put off if that can be written, else left; no other task changes |
| ContactWorld.SendAndAckIdsMeet | src/browser-simplex-contact-client.mjs:1105-1105 | A send task id equals the ACK task id of a message if and only if the contact is called "ack" and the message id is b1 e9 dd, whose base64url text is "send" |
| ContactRecords.AckIdInjective | src/browser-simplex-contact-client.mjs:367-369 | The message id of a contact can be read off its ACK task id up to 72 bytes |
| ContactRecords.AckIdSafe | src/browser-simplex-contact-client.mjs:367-369 | ACK task ids are always accepted by scheduler and store |
| ContactRecords.RecordIdSafe | src/browser-simplex-contact-client.mjs:375-382 | So are record ids |
| ContactRecords.RecordIdsMeet | src/browser-simplex-contact-client.mjs:375-382 | Two messages share a received record if and only if contact and message id agree or the SHA-256 hashes of two different texts do |
| Base64.ReadInverts | src/browser-smp-core.mjs:803-811 | The bytes can be read off their unpadded base64url text, so no two byte strings share one |
| Base64.Alphabet | src/browser-smp-core.mjs:803-811 | The 64 symbols are A-Z, a-z, 0-9, - and _ in this order |
| Base64.TextBits | src/browser-smp-core.mjs:803-811 | Each symbol stands for its six bits of the bytes, three at a time, high bits first, zeros behind the end |
| ContactWorld.AckFailsKeeps | src/browser-simplex-contact-client.mjs:1303-1324 | After a failed ACK its task is in the stored list if and only if the list could be written and had room, or an earlier one is there |
| ContactWorld.DeliveryKeeps | src/browser-simplex-contact-client.mjs:1415-1600 | A delivery moves the device as the session moves, and keeps every account of packets, readings and ACKs |
| ContactWorld.SendAnswerKeeps | src/browser-simplex-contact-client.mjs:1106-1129 | Completing or queueing a send keeps the account of packets and readings, and every ACK task its id cannot meet |
| ContactClient.BrowserSimplexContactClient.PrepareSend | src/browser-simplex-contact-client.mjs:1092-1105 | It succeeds if and only if the contact is active and has an outbound queue, the ratchet can send and the text fits; the ratchet is saved before the send, and a refusal changes nothing; no other record changes |
| ContactClient.BrowserSimplexContactClient.SendAnswered | src/browser-simplex-contact-client.mjs:1106-1129 | An accepted send completes tasks of its id; a failed one queues the sealed packet itself |
| ContactClient.BrowserSimplexContactClient.TakeBody | src/browser-simplex-contact-client.mjs:1411-1570 | Seen check, server box, ratchet and payload in this order; ratchet and record saved only when all succeed; other contacts untouched |
| ContactClient.BrowserSimplexContactClient.Acknowledged | src/browser-simplex-contact-client.mjs:1303-1330 | What an ACK answer leaves in the task list and in the record |
| ContactClient.BrowserSimplexContactClient.ReceiveNext | src/browser-simplex-contact-client.mjs:1399-1600 | The whole receive call on the store is the device transition |
| ContactClient.BrowserSimplexContactClient.DrainDueRetries | src/browser-simplex-contact-client.mjs:1609-1659 | The tasks attempted are the first due ones in list order, 25 without a limit; each reachable packet task hands over its stored packet; each attempt completes its task exactly if it was accepted and the list can be written, else puts it off, and no other task and no other record changes |
| ContactClient.BrowserSimplexContactClient.DrainTasks | src/browser-simplex-contact-client.mjs:1612-1657 | The loop over the due tasks: attempt k is about task k, decides that task alone, and only the last can throw |
| ContactClient.BrowserSimplexContactClient.AnswerTask | src/browser-simplex-contact-client.mjs:1651-1655 | An accepted attempt completes every task of its id if that list can be written; any other gives it one more attempt and its delay, or throws and leaves the list |
| ContactClient.ReachesExactly | src/browser-simplex-contact-client.mjs:1617-1645 | An attempt gets to the transport if and only if the contact of the task is stored and so is the queue it needs |
| ContactClient.LookupsExactly | src/browser-simplex-contact-client.mjs:1092-1097 | Contact, queue and outbound queue are what the stored records say |
| ContactClient.BrowserSimplexContactClient.RequestContact | src/browser-simplex-contact-client.mjs:528-583 | Exactly the inbox queue if there is one, the contact, the outbox queue and the initiator ratchet are written; an id too long for its outbox throws before the last two, and no other record changes |
| ContactClient.BrowserSimplexContactClient.AcceptRequest | src/browser-simplex-contact-client.mjs:725-770 | Exactly the outbox queue if one was asked for, the active contact and a responder ratchet that cannot send yet are written, or nothing if the id is too long for its outbox |
| ContactClient.BrowserSimplexContactClient.AcceptConfirmed | src/browser-simplex-contact-client.mjs:833-837 | An accept makes the requester active and writes no other record |
| ContactClient.BrowserSimplexContactClient.DeleteContact | src/browser-simplex-contact-client.mjs:1020-1058 | It completes if and only if the id leaves room for its queue ids, the contact can be read and the retry list written; then its tasks, received records, queues and ratchet are gone; otherwise the ratchet is still there |
| ContactClient.BrowserSimplexContactClient.DeleteContactEverywhere | src/browser-simplex-contact-client.mjs:1060-1083 | Local scrubbing happens only after every stored inbox queue was deleted remotely; one refusal leaves everything unchanged |
| ContactClient.CreateBrowserSimplexContactClient | src/browser-simplex-contact-client.mjs:471-481 | A client on a new store with a new scheduler: empty, and ready for every method |
| ContactClient.OtherDeviceKept | src/browser-simplex-contact-client.mjs:1092-1600 | A stretch of one contact leaves ratchet and received records of every other contact as they were, unless a record hash of the other collides with the one written |
| ContactClient.RequestedShows | src/browser-simplex-contact-client.mjs:528-583 | After requestContact the store holds the end of the initiator as runs start from it |
| ContactClient.AcceptedShows | src/browser-simplex-contact-client.mjs:725-770 | After receiveContactRequest the store holds the end of the inviter as runs start from it |
| ContactClient.NothingRemains | src/browser-simplex-contact-client.mjs:1020-1058 | On a scannable backend no received record, queue, ratchet or retry task of a deleted contact is left, listed or evicted, also of queues it names; its record is gone or a tombstone |
| ContactClient.OtherTasksRemain | src/browser-simplex-contact-client.mjs:1025-1026 | Every retry task of another contact is still there, in order, up to the 1000 a list can hold |
| ContactClient.OwnedInboxesExactly | src/browser-simplex-contact-client.mjs:454-460 | The inboxes deleted remotely are the one the contact names and the default one, each once |
| ContactClient.RequestedRecords | src/browser-simplex-contact-client.mjs:528-583 | Record by record what requestContact writes, with every key and queue in its place |
| ContactClient.AcceptedRecords | src/browser-simplex-contact-client.mjs:725-770 | And what receiveContactRequest writes |
| ContactClient.OthersRemain | src/browser-simplex-contact-client.mjs:1020-1058 | Records of another contact are untouched if the deleted contact names no queues but its own |
| ContactHandshake.BothActiveMatch | src/browser-simplex-contact-client.mjs:516-849 | The requester is active only if the inviter is; once both are, their ratchets are two ends of one session if and only if the inviter acted on the confirmation of the last requestContact |
| ContactHandshake.OneRequestMatches | src/browser-simplex-contact-client.mjs:516-849 | With one requestContact the ends match whatever was lost, repeated or retried |
| ContactHandshake.FirstTextOpens | src/browser-simplex-contact-client.mjs:762-770 | Matching ends: the requester's first text opens; the inviter cannot send before and can after |
| ContactHandshake.OtherTextsFail | src/browser-simplex-contact-client.mjs:762-770 | Ends that do not match: no first text opens |
| ContactHandshake.StepKeeps | src/browser-simplex-contact-client.mjs:691-849 | What every handshake event keeps |
| ContactHandshake.RequestTaken | src/browser-simplex-contact-client.mjs:691-790 | After every run a waiting call accepts a confirmation ever sent if and only if it is a request and the queue is secured; the inviter is then active on a ratchet of the two keys |
| ContactHandshake.AcceptTaken | src/browser-simplex-contact-client.mjs:805-849 | The requester becomes active if and only if the confirmation is an accept for the queue it listens on and the queue is secured |
| ContactHandshake.HandshakeCompletes | src/browser-simplex-contact-client.mjs:516-849 | A handshake in which nothing is lost ends with both sides active on matching ratchets |
| Scheduler.RequeuedHolds | src/browser-simplex-scheduler.mjs:90-109 | A queued task is in the list afterwards exactly if the list could be written and had room, or was there before |
| Scheduler.RequeuedKeeps | src/browser-simplex-scheduler.mjs:90-109 | Queueing one task keeps every open task of another id |
| Scheduler.FailingKeeps | src/browser-simplex-scheduler.mjs:103-109 | A failure keeps every open task open |
| Scheduler.CompletingKeeps | src/browser-simplex-scheduler.mjs:111-117 | Completing one id keeps every open task of another id |
| Scheduler.BrowserSimplexRetryScheduler.Enqueue | src/browser-simplex-scheduler.mjs:90-96 | An earlier task of the id is replaced, the stored list is cut to its oldest 1000, and a list that cannot be written changes nothing |
| Scheduler.BrowserSimplexRetryScheduler.Fail | src/browser-simplex-scheduler.mjs:103-109 | Attempts and next time of that id move on, or nothing changes |
| Scheduler.BrowserSimplexRetryScheduler.Complete | src/browser-simplex-scheduler.mjs:111-117 | That id is marked complete, or nothing changes |
| Scheduler.BrowserSimplexRetryScheduler.RemoveWhere | src/browser-simplex-scheduler.mjs:119-125 | Exactly the picked tasks go, or nothing changes |
| Scheduler.BrowserSimplexRetryScheduler.Due | src/browser-simplex-scheduler.mjs:98-101 | The open tasks whose time has come, in order |
| RetryTasks.DueInOrder | src/browser-simplex-scheduler.mjs:98-101 | The due tasks are those neither completed nor put off past now, in list order |
| RetryTasks.EnqueuedExactly | src/browser-simplex-scheduler.mjs:90-96 | enqueue writes all other tasks in order and behind them the new one, due at once with no attempts, if there is room |
| RetryTasks.CompletedExactly | src/browser-simplex-scheduler.mjs:111-117 | complete sets the completion time of every task of that id and nothing else |
| RetryTasks.FailedExactly | src/browser-simplex-scheduler.mjs:103-109 | fail gives every task of that id one more attempt, to be made after the delay of that many attempts, and changes nothing else |
| RetryTasks.RequeuedExactly | src/browser-simplex-scheduler.mjs:90-109 | enqueue then fail: neither throws exactly if the id is sound and both lists can be written; a throw leaves the list as the step before |
| RetryTasks.DroppingPicks | src/browser-simplex-scheduler.mjs:119-125 | removeWhere keeps exactly the tasks that fail the test, in order |
| RetryTasks.DistinctKept | src/browser-simplex-scheduler.mjs:90-125 | A list that names each task once still does after every operation |
| RetryTasks.DrainedDue | src/browser-simplex-scheduler.mjs:98-117 | After a drain a completed task is due at no later time, one put off only once its delay is over, and no open task has the id of a completed one |
| StoreValues.ComesBackExactly | src/browser-simplex-store.mjs:50-84 | A value comes back from the store if and only if it has no empty bytes, no NaN, texts and lists within their caps, plain field names and no text field that reads as a tag |
| StoreValues.LongListsAreCut | src/browser-simplex-store.mjs:50-84 | A value that is stable but for long lists comes back without an error, each list cut to its first 1000 items |
| StoreValues.OthersComeBackAs | src/browser-simplex-store.mjs:50-84 | What becomes of values that do not come back: long texts and lists are cut, NaN is read as 0, fields of other names are dropped, empty bytes cannot be read |
| RatchetRecord.StoredIsReloaded | src/browser-simplex-ratchet.mjs:64-80 | A stored ratchet comes back whole but for its skipped keys, of which only the oldest 1000 come back |
| RatchetRecord.StoredFields | src/browser-simplex-ratchet.mjs:64-80 | Each part of the state is read back under its own field name; of the kept keys the oldest 1000 |
| Store.KeysDiffer | src/browser-simplex-store.mjs:38-48 | Within a namespace keys are equal only for equal kind and id, and record keys are never list keys, when kinds have no colon |
| Store.KeysMeet | src/browser-simplex-store.mjs:38-40 | For kinds of any text two records share a key if and only if kind and id agree, or the longer kind continues the shorter behind a colon and the id of the shorter says so |
| Store.ListKeysMeet | src/browser-simplex-store.mjs:38-48 | A record key is the list key of a kind if and only if the record has the kind "list" and that kind as its id, or its kind starts with "list:" and spells the rest |
| Store.ListRecordWipes | src/browser-simplex-store.mjs:185-196 | Saving a record of the kind "list" empties the id list of the kind it is named after |
| Store.SaveLoads | src/browser-simplex-store.mjs:185-201 | What loads after a save: the saved record as it comes back, every other record unchanged |
| Store.SaveIndexes | src/browser-simplex-store.mjs:185-196 | The list index stays free of repeats, gains the id at its end and evicts the oldest past 1000 |
| Store.DeleteLoads | src/browser-simplex-store.mjs:225-230 | What loads after a delete |
| Store.DeleteIndexes | src/browser-simplex-store.mjs:225-230 | A deletion takes its own id off the index and leaves all others listed, in order; other indexes are untouched |
| Store.PlainKeysTaken | src/browser-simplex-store.mjs:32-40 | Saves and loads refuse exactly kinds and ids that are not 1 to 160 letters, digits and "_.:-" |
| Store.SweepLoads | src/browser-simplex-store.mjs:232-253 | After a sweep the condemned records are gone and no other record has changed |
| Store.BrowserSimplexStore.Save | src/browser-simplex-store.mjs:185-196 | Record and index are written, or an unsafe key or a record too large changes nothing |
| Store.BrowserSimplexStore.WriteList | src/browser-simplex-store.mjs:137-144 | The loop from the newest id keeps each id once where it stands last, at most 1000 |
| Store.BrowserSimplexStore.ScanStorageIds | src/browser-simplex-store.mjs:146-164 | Exactly the safe ids with a physical record of the kind |
| Store.BrowserSimplexStore.DeleteWhere | src/browser-simplex-store.mjs:232-253 | Exactly the records the test picks, and if asked the unreadable ones, are deleted, also those evicted from the list when the backend can be scanned; exactly the others stay listed |
| QueueClient.NothingDuplicated | src/browser-simplex-client.mjs:134-208 | Under every interleaving of calls each transmission is given to one caller, or buffered, or evicted, or lost in a batch: counts add up exactly |
| QueueClient.LostExactly | src/browser-simplex-client.mjs:171-205 | A batch loses something if and only if a transmission without correlation id reaches a correlation wait or something follows one the call can take |
| QueueClient.SinglesNeverLost | src/browser-simplex-client.mjs:157-208 | With one transmission with a correlation id per batch none is lost |
| QueueAnswers.GivenAnswers | src/browser-simplex-client.mjs:134-208 | Under every interleaving whatever a caller is given answers that caller: its own response, a message of its queue, or a broker error |
| QueueAnswers.BeginsRight | src/browser-simplex-client.mjs:142-168 | A call that begins is given the first transmission of the buffer it awaits, and waits if there is none |
| QueueAnswers.WaitsRight | src/browser-simplex-client.mjs:171-205 | A waiting call is given the first answer of its batch; without one it waits on, for one batch less |
| QueueAnswers.BatchExactly | src/browser-simplex-client.mjs:171-205 | What stood before the answer goes to the buffer, which pushes out its oldest past the cap, or is dropped; what stood behind it is lost |
| QueueAnswers.ReceiveExactly | src/browser-simplex-client.mjs:157-208 | A whole call: the first awaited of the buffer, else the first answer of the first batch with one, else a timeout, or the fault of a transport that ends before |
| QueueClient.BrowserSimplexClient.RememberPending | src/browser-simplex-client.mjs:134-140 | Push, then splice the oldest past the cap |
| QueueClient.BrowserSimplexClient.TakePending | src/browser-simplex-client.mjs:142-149 | The first wanted entry is removed, or nothing changes |
| QueueClient.BrowserSimplexClient.ReceiveFor | src/browser-simplex-client.mjs:157-208 | The receive loop over batches equals its specification |
| QueueOrder.EvictsOldest | src/browser-simplex-client.mjs:134-140 | The buffer is in arrival order and all evicted are older than all that stayed, under every interleaving |
| QueueOrder.OrderExactly | src/browser-simplex-client.mjs:134-208 | Under every interleaving, at every point of a run the messages of a queue went out in arrival order and before all still buffered, if and only if no waiting call for the queue ever took one from its batch while one stayed buffered |
| QueueOrder.SingleOvertakes | src/browser-simplex-client.mjs:189-205 | With one transmission a batch, a call overtakes exactly if it waits for the queue and is handed its message while one is buffered |
| QueueOrder.QueueInOrder | src/browser-simplex-client.mjs:142-208 | Calls one at a time never overtake, so they keep every queue in order |
| QueueOrder.OverlapReorders | src/browser-simplex-client.mjs:157-208 | A correlation wait that reads a message of a queue while a call for it waits makes that call overtake |
| NativeRatchet.X3dhAgrees | src/browser-simplex-agent.mjs:193-234 | Both sides of X3DH derive the same keys and associated data |
| NativeRatchet.OpensOnlyNext | src/browser-simplex-native-ratchet.mjs:309-399 | A native packet opens if and only if it is the peer's next unread one; any other arrival changes nothing |
| NativeRatchet.ChainsEqual | src/browser-simplex-native-ratchet.mjs:309-399 | Whoever has read all stands on the chain key and header key the peer uses next |
| NativeRatchet.RootsSettle | src/browser-simplex-native-ratchet.mjs:309-399 | After one DH step each way the root keys never change again |
| NativeRatchet.SealsExactly | src/browser-simplex-native-ratchet.mjs:309-357 | What the native ratchet can seal, and in how many bytes |
| NativeRatchet.SendsExactly | src/browser-simplex-native-ratchet.mjs:309-357 | After every run the joiner, and the inviter once it has read something, can send every text that fits, with the number of the messages before it in its header |
| NativeRatchet.CountsAreTrue | src/browser-simplex-native-ratchet.mjs:309-399 | After every run the counters are true, and what was read is what was sent first, in order |
| NativeRatchet.EncryptNativeRatchetMessage | src/browser-simplex-native-ratchet.mjs:309-357 | The in-place encryption equals the transition used in runs |
| NativeRatchet.DecryptNativeRatchetMessage | src/browser-simplex-native-ratchet.mjs:359-399 | The current-then-next header key attempt equals the transition used in runs |
| NativeWire.PartInverts | src/browser-simplex-native-ratchet.mjs:280-292 | A length-prefixed part is read back if and only if a one-byte length is at least 32 or a two-byte length is below 8192 |
| NativeWire.PacketInverts | src/browser-simplex-native-ratchet.mjs:294-307 | Packets with header texts of 32 to 8000 bytes are read back part by part in every version |
| NativeWire.SealedReadExactly | src/browser-simplex-native-ratchet.mjs:294-307 | The header parser accepts exactly version, 16 bytes, 16 more and a text with its length |
| NativeWire.PacketReadExactly | src/browser-simplex-native-ratchet.mjs:359-372 | The packet parser accepts exactly a header with its length, a tag and a body, and such a packet that ends early in its tag or behind a header that is whole |
| AgentWire.ClientInverts | src/browser-simplex-agent.mjs:572-630 | A client message is sealed if and only if its nonce has 24 bytes and it fits its padding, and then opens to itself if and only if its keys have at most 255 bytes, which no encoder checks |
| AgentWire.PublicInverts | src/browser-simplex-agent.mjs:235-255 | The public header comes back if and only if its key fits one length byte, which no encoder checks |
| AgentWire.PrivateInverts | src/browser-simplex-agent.mjs:257-278 | The private header comes back if and only if its key fits one length byte |
| AgentWire.BoxedInverts | src/browser-simplex-agent.mjs:632-684 | A received body is boxed exactly if its timestamp has 64 bits and it fits its padding, and then opens to itself under its message id |
| AgentWire.ParseRcvMessageBody | src/browser-simplex-agent.mjs:651-666 | The flag loop skips to the next space or fails |
| AgentWire.AgentInverts | src/browser-simplex-agent.mjs:496-570 | A native agent message is encoded exactly if its id, hash and receipts fit their lengths, and comes back, a message id of 0 as 1 |
| AgentWire.ReadReceipts | src/browser-simplex-agent.mjs:527-539 | The receipt loop equals the recursive reader |
| AgentGrammar.AgentReadExactly | src/browser-simplex-agent.mjs:527-570 | The parser of native agent messages accepts exactly the byte strings that are messages, receipts included, and reads each as the message it is |
| AgentGrammar.ReceivedReadExactly | src/browser-simplex-agent.mjs:651-666 | The parser of received bodies accepts exactly eight bytes of time, a flag, anything up to a space, and the body |
| AgentGrammar.PublicReadExactly | src/browser-simplex-agent.mjs:235-255 | The public header is read off the front exactly if it stands there |
| AgentGrammar.PrivateReadExactly | src/browser-simplex-agent.mjs:257-278 | And the private one |
| Bytes.UnpadInverts | src/browser-smp-core.mjs:695-717 | Unpadding gives back every payload that fits |
| Bytes.PadInverts | src/browser-smp-core.mjs:695-717 | An accepted block is the only block its payload pads to |
| Bytes.PadForm | src/browser-smp-core.mjs:695-705 | A padded block is the length, high byte first, the payload, and the byte 0x23 up to the size |
| Bytes.SmallExactly | src/browser-smp-core.mjs:186-242 | A small string is encoded and read exactly behind its length byte, up to 255 bytes |
| Bytes.XorAt | src/browser-smp-core.mjs:1228-1247 | A bit of the XOR is set exactly where the two bytes differ |
| Bytes.IdNonceForm | src/browser-simplex-agent.mjs:632-640 | A message id is cut or filled with zeros to 24 bytes |
| Bytes.PadBlock | src/browser-smp-core.mjs:695-705 | The buffer filled in place is length, payload, padding; sizes over 65535 are refused |
| Bytes.UnpadBlockLoop | src/browser-smp-core.mjs:707-717 | The padding loop accepts exactly well-padded blocks of the size |
| Bytes.EncodeWord64 | src/browser-smp-core.mjs:167-176 | The shift loop is the big-endian form; larger values are refused |
| Bytes.DecodeWord64 | src/browser-smp-core.mjs:178-184 | The shift loop reads the big-endian form |
| SecretBox.XorLoop | src/browser-smp-core.mjs:1228-1247 | The block-wise loop equals XOR with the keystream from byte 32 for every length |
| SecretBox.OpenInvertsSeal | src/browser-smp-core.mjs:1249-1268 | A packet opens to a plaintext if and only if it is the box of that plaintext |
| SecretBox.SealForm | src/browser-smp-core.mjs:1249-1268 | A box byte by byte: the tag under the first half of block 0, then the plaintext XORed with the stream behind it |
| SecretBox.TailIsSameBox | src/browser-xftp-web-client.mjs:98-149 | The XFTP form is the same ciphertext and tag with the tag at the other end |
| SecretBox.TailOpensExactly | src/browser-xftp-web-client.mjs:127-149 | The tail form opens exactly its own boxes |
| SecretBox.DecryptInverts | src/browser-smp-core.mjs:1270-1286 | A message is encrypted if and only if it fits its padding, and then comes back |
| SmpCommands.CommandInverts | src/browser-smp-core.mjs:374-488 | For every version a parsed command is what that version keeps of the encoded one |
| SmpCommands.BrokerInverts | src/browser-smp-core.mjs:490-602 | For every version a broker message comes back if and only if its texts survive trimming and its nonce has 24 bytes |
| SmpGrammar.CommandReadExactly | src/browser-smp-core.mjs:374-488 | In every version the command parser accepts exactly the byte strings that are commands, and reads each as the command it is |
| SmpGrammar.BrokerReadExactly | src/browser-smp-core.mjs:490-602 | In every version the broker parser accepts exactly the byte strings that are broker messages, texts trimmed, and reads each as the message it is |
| SmpCommands.ParseCommandTag | src/browser-smp-core.mjs:244-263 | The token loop cuts tag and parameters |
| SmpCommands.ParseMsgFlags | src/browser-smp-core.mjs:357-368 | The flag loop skips to the next space or fails |
| SmpTransmission.SignedInverts | src/browser-smp-core.mjs:608-693 | Every part comes back and the rebuilt signed region is the one signed, below and from version 7; broker queue ids come back if and only if they are not misread |
| SmpTransmission.SignedBatchInverts | src/browser-smp-core.mjs:638-748 | A block of signed commands, broker messages or raw transmissions is received as sent, every part and content in order; of broker messages if and only if no queue id is misread and every text survives trimming |
| SmpTransmission.BlockInverts | src/browser-smp-core.mjs:719-748 | Decoding inverts encoding for 1 to 255 transmissions from version 4, for exactly one before |
| SmpTransmission.BlockFits | src/browser-smp-core.mjs:719-731 | Which batches make a block |
| SmpTransmission.MisreadLooksBare | src/browser-smp-core.mjs:660-672 | The broker parser misreads exactly queue ids of 69 bytes starting "RR " and of 80 bytes starting "ONG" |
| SmpTransmission.ParseSignedTransmission | src/browser-smp-core.mjs:650-693 | Parts, misreading of bare broker messages and the parse of the command or message that follows equal the specification, with its first fault |
| SmpTransmission.CommandArrives | src/browser-smp-core.mjs:608-693 | A signed client command is read as sent: every part, the signed region, and what the version keeps of the command |
| SmpTransmission.AnswerArrives | src/browser-smp-core.mjs:608-693 | A broker transmission is read as sent if and only if its queue id is not misread, its texts survive trimming and its nonce has 24 bytes |
| SmpTransmission.DecodeTransportBlock | src/browser-smp-core.mjs:733-748 | The batch loop equals the specification, first fault first |
| Relay.DecodeInverts | src/browser-smp-native-tls-relay.mjs:97-123 | A masked client frame (sections 5.2 and 5.3 of RFC 6455) is read back with what follows it untouched |
| Relay.DecodeExtends | src/browser-smp-native-tls-relay.mjs:97-123 | More bytes behind a frame or a fault change nothing about it |
| Relay.CutsDoNotMatter | src/browser-smp-native-tls-relay.mjs:305-329 | However the stream is cut into data events, the same actions result |
| Relay.NativeCutsMatterExactly | src/browser-smp-native-tls-relay.mjs:292-301 | Every cutting of the native stream into data events writes the same blocks to the browser, keeps the same bytes and throws as often, if and only if every whole block before the last converts |
| Relay.CutMatters | src/browser-smp-native-tls-relay.mjs:125-135 | A data event that ends with the first block that does not convert lets the next event go on behind it, where one event would stop |
| Relay.AllWritten | src/browser-smp-native-tls-relay.mjs:125-135 | No event throws if and only if every whole block has a length field of 5 to size - 2, and then each is written, converted and in order |
| Relay.BlockThereAndBack | src/browser-smp-native-tls-relay.mjs:125-143 | A block survives both conversions if and only if its payload has at least 5 bytes |
| Relay.FramesAnswered | src/browser-smp-native-tls-relay.mjs:305-323 | Each frame a client sends is answered as it should be, in order, up to the first that ends the connection: final binary frames of one block are forwarded, pings answered, a close closes, and anything else closes with 1003 |
| Relay.BadFrameEnds | src/browser-smp-native-tls-relay.mjs:97-123 | A frame without a mask, or longer than a number can say, closes with 1002 |
| Relay.NativeForm | src/browser-smp-native-tls-relay.mjs:125-143 | The native form of a block is length, payload and zeros, and the way back looks at length and payload only |
| Relay.DecodeClientFrame | src/browser-smp-native-tls-relay.mjs:97-123 | The parser equals the specification |
| Relay.UnmaskInPlace | src/browser-smp-native-tls-relay.mjs:118-121 | The in-place loop is XOR with the repeated mask |
| Relay.HandleData | src/browser-smp-native-tls-relay.mjs:305-329 | The data handler loop equals its specification |
| Relay.OnNativeData | src/browser-smp-native-tls-relay.mjs:293-301 | The block loop with its conversion equals its specification: a block that does not convert is taken off, throws, and leaves the rest buffered |
| XftpPlan.PlanIsTight | src/browser-xftp-web-client.mjs:452-486 | The band is the smallest whose three big chunks hold the payload, else the last; the planned total is the least multiple of its small size not below the payload; chunks do not grow; at most three are small |
| XftpPlan.PlanMonotone | src/browser-xftp-web-client.mjs:459-486 | A bigger payload never gets a smaller plan, also across bands |
| XftpPlan.ChunkSpecs | src/browser-xftp-web-client.mjs:488-495 | The running offsets tile the planned total |
| XftpEnvelope.OpenInvertsSealFile | src/browser-xftp-web-client.mjs:610-693 | An envelope fills its plan exactly and opens to the header and content sealed in it |
| XftpEnvelope.HeaderInverts | src/browser-xftp-web-client.mjs:534-550 | The header is read back and the content starts right behind it |
| XftpEnvelope.SealsExactly | src/browser-xftp-web-client.mjs:526-645 | A file is sealed if and only if its name has no separator or control character and fits 255 bytes, its extra text does too, and its size with header, length and tag is a safe integer |
| XftpDescription.SeedOfExactly | src/browser-xftp-web-client.mjs:1084-1095 | A private key is read as a seed if and only if it is the 32 bytes, alone or behind the 16 bytes of its PKCS8 form |
| XftpDescription.AcceptedExactly | src/browser-xftp-web-client.mjs:1217-1265 | Which descriptions are accepted, field by field with their bounds, and the two fields that are filled in |
| XftpDescription.AcceptedTiles | src/browser-xftp-web-client.mjs:1205-1265 | In every accepted description each byte of the file lies in exactly one chunk |
| XftpDescription.ValidateChunkPlan | src/browser-xftp-web-client.mjs:1205-1215 | The loop accepts exactly plans whose sorted chunks are numbered from 1 and meet end to end |
| XftpText.ParseInverts | src/browser-xftp-web-client.mjs:1131-1203 | Printing then parsing gives the same description with chunks sorted, if and only if fileExtra is absent or not empty |
| XftpText.SizeInverts | src/browser-xftp-web-client.mjs:589-602 | Every size is read as it was written, whatever suffix it got |
| XftpText.LinesComeBack | src/browser-xftp-web-client.mjs:1160-1164 | Printed lines survive joining, splitting and the filter of blank lines and comments |
| XftpGrammar.ParseExactly | src/browser-xftp-web-client.mjs:1160-1203 | A text is read as a description if and only if it has 1 to 1048576 characters and its lines that say something are the ten of the head and those of the chunks, spelled as listed, of a description that is accepted; and it is read as that one |
| XftpGrammar.SizeExactly | src/browser-xftp-web-client.mjs:597-602 | Which texts are sizes: decimal digits, alone or before kb, mb or gb in either case, and how many bytes each is |
| XftpGrammar.FormatExactly | src/browser-xftp-web-client.mjs:589-595 | A size is written in whole megabytes, else in whole kilobytes, else in bytes: the first of the three branches is never needed |
| XftpGrammar.SplitExactly | src/browser-xftp-web-client.mjs:1163 | Every text is divided into lines in one way, at line feeds and the carriage return before each, and split finds it |
| XftpGrammar.KeptExactly | src/browser-xftp-web-client.mjs:1163 | The filter keeps, in order, exactly the lines whose first character that is not white space is there and is no # |
| XftpText.ParseReplicas | src/browser-xftp-web-client.mjs:1183-1189 | The inner loop takes replicas as long as a line names a server |
| XftpText.ParseChunks | src/browser-xftp-web-client.mjs:1176-1191 | The outer loop reads chunks to the last line |
| XftpTransfer.UploadXftpWebFile | src/browser-xftp-web-client.mjs:1298-1392 | It succeeds if and only if the file can be sealed and every FNEW and FPUT is served. If anything throws, every file whose FNEW came back was sent FDEL, and a server that loses no FNEW reply and refuses no FDEL is as before; on success the recipient description leads to the whole envelope, and the sender description names, chunk by chunk, the files created for it with the keys that delete them, and nothing else was created |
| XftpTransfer.UploadChunks | src/browser-xftp-web-client.mjs:1309-1369 | The chunk loop with its rollback, and when it succeeds |
| XftpTransfer.RollBack | src/browser-xftp-web-client.mjs:1362-1369 | Newest first, each failure swallowed, every record sent FDEL |
| XftpTransfer.UploadChunk | src/browser-xftp-web-client.mjs:1315-1347 | One chunk is created and filled, exactly if both commands are served, or its file is deleted again |
| XftpTransfer.DownloadXftpWebFile | src/browser-xftp-web-client.mjs:1394-1430 | A download that succeeds, or whose server answers every FGET, gives the specified result |
| XftpTransfer.DownloadInvertsUpload | src/browser-xftp-web-client.mjs:1298-1430 | Downloading the recipient description of an upload gives back header and content for every file of at most 4096 chunks |
| XftpDeletion.DeleteUploadedXftpWebFile | src/browser-xftp-web-client.mjs:1432-1442 | The deletion loop equals its specification: what is let through, in which order, and where it stops |
| XftpDeletion.RefusedExactly | src/browser-xftp-web-client.mjs:1276-1296 | What is refused before any FDEL is sent: a recipient description, no chunks, a chunk number or an id out of range |
| XftpDeletion.DeletesExactly | src/browser-xftp-web-client.mjs:1432-1442 | For any chunks: the loop gets through if and only if each names a file of its own on this server with the key that deletes it and every FDEL is served; then exactly these files are gone |
| XftpDeletion.DeleteUndoesUpload | src/browser-xftp-web-client.mjs:1298-1442 | Deleting by the sender description of an upload is let through, and leaves the server files as before the upload if and only if every FDEL is served; else it stops at the first that is not, with exactly the files before it gone, and its own if only the reply was lost |

## Left out

- Real cryptography: curves, AES-GCM, HKDF, hashes, the Salsa20 block function and Poly1305 are terms or parameters.
- JSON text: a stored record or packet is its value; `StoreValues` models the encoding below JSON, without `undefined` and without a field named `__proto__`.
- Random ids, timestamps and jitter: ids, nonces and new key names are inputs of each step, and the retry delay is a function of the attempt count.
- Sockets, fetch, TLS, WebSocket opening, timers and URL parsing: a transport answers each call with yes or no.
- User interface, session store, facade, adapters and profile validators: clamping and single-branch checks.
- src/browser-xftp-core.mjs and src/browser-xftp-client.mjs: a simpler chunk round trip than the web client.
- X.509, DER and server identity proofs.
- Native contacts in the contact client: native sends, receipts and accepts, their message ids and hash chain, and native retry packets, which are stored as text and cut at 8192 characters.
- Native ratchet parameters of version 3 and up: the encoder omits a tag its parser reads; agent envelopes that carry them are left out with them.
- Deletion of a contact while another operation on it is suspended.
- Trimming of ids and labels: ids are given as trimmed.
- XftpGrammar.ParseExactly: counts characters where the code counts UTF-16 units, which differ outside the basic plane only.
- A retry list that was edited by hand into something unreadable: every write of the program leaves it readable.
- Runs are about one contact on each side, whose message ids have at most 72 bytes (SMP brokers make 24): ackTaskId cuts longer ones, and it cuts contact ids too, so two contacts that share their first 36 bytes and a message id would share an ACK task.
- With acknowledging off, the record of a repeated message is saved in the stretch that received it; the source awaits a settled promise in between.
- The relay's data handler throws outside any handler of its own; what the process does about that is left out, and later data events find the buffer as the throw left it.
- Options with queue, mode or subscription words other than the defined ones: commands are typed, so the encoder's complaints about unknown words are not modelled.
- QueueOrder.OrderExactly: is about runs in which every message names its queue, every queue call names one, and no awaited correlation id is one of a message, as the codec and the contact client make them.
- The XFTP server of an upload makes a finite number of ids and refuses FNEW once two of them are not left; which FNEW and FPUT it serves is otherwise arbitrary.
- XftpTransfer.DownloadInvertsUpload: the server address of the description is the one the client is connected to; no override of it is modelled.
- XftpTransfer.UploadChunk: the two commands of a chunk are FNEW and FPUT to one server with one replica, as the upload makes them.
