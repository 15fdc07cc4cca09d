/** What the durable state of one contact is, and what each stretch of the contact
    client between two awaits does to it (src/browser-simplex-contact-client.mjs). */
module ContactDevice {
  import opened Outcomes
  import opened Bytes
  import opened ContactRecords
  import opened Scheduler
  import Ratchet
  import RatchetSession

  /** `seen` holds, by record id, one record for every message the contact has received. */
  datatype Device = Device(ratchet: Ratchet.State, seen: map<string, Received>, tasks: seq<Task>)

  /** The environment a client runs in. */
  datatype Setup = Setup(
    contactId: string, queue: Queue, naming: Naming,
    fits: seq<Task> -> bool, delay: nat -> nat,
    payloadOk: string -> bool)
  {
    function RecordId(msgId: bytes): string {
      naming.received(contactId, msgId)
    }
  }

  datatype Refusal = Replay | Sealed | NoPacket | Ratchet(fault: Ratchet.Fault) | BadPayload

  datatype Outcome = Opens(text: string) | Duplicate | Refuses(why: Refusal)

  function InboxId(contactId: string): string {
    contactId + ":inbox"
  }

  function OutboxId(contactId: string): string {
    contactId + ":outbox"
  }

  function SendTaskId(contactId: string, clientMessageId: string): string {
    contactId + ":send:" + clientMessageId
  }

  /** receiveNext from the arrival of a body to its ACK.  Nothing is kept unless the body
      was not seen before, opens in every layer and holds a valid payload. */
  function Take(u: Setup, d: Device, msgId: bytes, body: Mail, freshDh: nat): (Device, Outcome) {
    var id := u.RecordId(msgId);
    if id in d.seen then
      if d.seen[id].body != body then (d, Refuses(Replay)) else (d, Duplicate)
    else if body.serverSecret != u.queue.serverSecret || body.nonce != IdNonce(msgId) then (d, Refuses(Sealed))
    else if body.packet.None? then (d, Refuses(NoPacket))
    else
      match Ratchet.Decrypt(d.ratchet, body.packet.value, freshDh)
      case Err(e) => (d, Refuses(Refusal.Ratchet(e)))
      case Ok((state, text)) =>
        if !u.payloadOk(text) then (d, Refuses(BadPayload))
        else (d.(ratchet := RatchetSession.Reloaded(state),
                 seen := d.seen[id := Received(u.contactId, msgId, body, false, false)]), Opens(text))
  }

  /** After the ACK, the record is saved again with what became of it. */
  function Note(d: Device, id: string, ackPending: bool, acknowledged: bool): Device
    requires id in d.seen
  {
    d.(seen := d.seen[id := d.seen[id].(ackPending := ackPending, acknowledged := acknowledged)])
  }

  /** An ACK in flight; `known` says whether the record in hand was acknowledged before. */
  datatype Ack = Ack(msgId: bytes, known: bool)

  function AckPayload(u: Setup, msgId: bytes): Payload {
    AckMessage(u.contactId, InboxId(u.contactId), msgId)
  }

  /** A failed ACK becomes a retry task; if that throws, the record is not saved again. */
  function AckFails(u: Setup, d: Device, ack: Ack, now: nat): Device
    requires u.RecordId(ack.msgId) in d.seen
  {
    var id, payload := u.naming.ack(u.contactId, ack.msgId), AckPayload(u, ack.msgId);
    var queued := d.(tasks := Requeued(u.fits, d.tasks, id, payload, now, u.delay));
    if Requeues(u.fits, d.tasks, id, payload, now, u.delay) 
    then Note(queued, u.RecordId(ack.msgId), true, ack.known) else queued
  }

  /** sendPlaintext up to the send: the ratchet is saved before anything is sent. */
  function Prepare(d: Device, text: string, nonce: nat,
                   paddedLength: nat): Result<(Device, Ratchet.Packet), Ratchet.Fault>
  {
    match Ratchet.Encrypt(d.ratchet, text, nonce, paddedLength)
    case Err(e) => Err(e)
    case Ok((state, packet)) => Ok((d.(ratchet := RatchetSession.Reloaded(state)), packet))
  }

  /** A failed send becomes a retry task holding the packet itself. */
  function SendFails(u: Setup, d: Device, clientMessageId: string, packet: Ratchet.Packet, now: nat): Device {
    d.(tasks := Requeued(u.fits, d.tasks, SendTaskId(u.contactId, clientMessageId),
                         SendPacket(u.contactId, OutboxId(u.contactId), packet), now, u.delay))
  }

  /** After a send: an accepted one completes earlier tasks of its id.  If that throws,
      the send counts as failed. */
  function SendReply(u: Setup, d: Device, clientMessageId: string, packet: Ratchet.Packet, accepted: bool, retry: bool,
                     now: nat): Device
  {
    var completed := if accepted then Completed(u.fits, d.tasks, SendTaskId(u.contactId, clientMessageId), now) else None;
    if completed.Some? then d.(tasks := completed.value)
    else if retry then SendFails(u, d, clientMessageId, packet, now) else d
  }

  /** After a retried task: completed, or failed once more. */
  function DrainReply(u: Setup, d: Device, id: string, ok: bool, now: nat): Device {
    var answered := Answered(u.fits, d.tasks, id, ok, now, u.delay);
    if answered.Some? then d.(tasks := answered.value) else d
  }

  /** receiveNext as one call: ACK settings and the broker's answer to the ACK are given.
      A failed ACK that is not retried, or whose task cannot be stored, makes the call
      throw after the message was recorded. */
  function Receive(u: Setup, d: Device, msgId: bytes, body: Mail, freshDh: nat,
                   acknowledge: bool, accepted: bool, retry: bool, now: nat): (Device, Outcome)
  {
    var (taken, outcome) := Take(u, d, msgId, body, freshDh);
    if outcome.Refuses? then (taken, outcome)
    else
      var id, known := u.RecordId(msgId), taken.seen[u.RecordId(msgId)].acknowledged;
      (if !acknowledge then Note(taken, id, false, known)
       else if accepted then Note(taken, id, false, true)
       else if !retry then taken
       else AckFails(u, taken, Ack(msgId, known), now), outcome)
  }
}
