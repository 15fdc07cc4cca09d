/** Records the contact client keeps in the durable store
    (src/browser-simplex-contact-client.mjs, src/browser-simplex-scheduler.mjs). */
module ContactRecords {
  import opened Outcomes
  import opened Base64
  import opened Bytes
  import opened Store
  import Ratchet
  import RatchetSession

  datatype Phase = Invited | Requested | Active | Suspended | Deleted

  /** Empty queue ids stand for absent ones, as in the stored record. */
  datatype Contact = Contact(id: string, phase: Phase, inboxQueueId: string, outboxQueueId: string,
                             outbound: Option<Queue>)

  /** The two secrets of a queue the client receives from: the server's and its own DH key. */
  datatype Queue = Queue(serverSecret: nat, rcvDh: nat)

  /** A body as the broker hands it over: it opens only under the queue's server secret
      and a message id with the nonce it was sealed under.  Inside are a header, which
      holds a timestamp and flags, and a packet; None stands for bytes that hold none. */
  datatype Mail = Mail(serverSecret: nat, nonce: bytes, header: bytes, packet: Option<Ratchet.Packet>)

  /** The body the server of a queue seals for a packet. */
  function MailFor(queue: Queue, msgId: bytes, header: bytes, packet: Ratchet.Packet): Mail {
    Mail(queue.serverSecret, IdNonce(msgId), header, Some(packet))
  }

  datatype Received = Received(contactId: string, msgId: bytes, body: Mail, ackPending: bool, acknowledged: bool)

  datatype Payload =
    | SendPacket(contactId: string, queueId: string, packet: Ratchet.Packet)
    | AckMessage(contactId: string, queueId: string, msgId: bytes)
    | InitialConfirmation(contactId: string, transmission: bytes, corrId: bytes)

  /** completedAt is 0 until completion. */
  datatype Task = Task(id: string, payload: Payload, attempts: nat, createdAt: nat, updatedAt: nat,
                       nextAttemptAt: nat, completedAt: nat)

  datatype Record =
    | ContactRecord(contact: Contact)
    | QueueRecord(queue: Queue)
    | RatchetRecord(ratchet: Ratchet.State)
    | ReceivedRecord(received: Received)
    | PendingRecord(tasks: seq<Task>)

  /** The store cuts the list of kept keys of a ratchet and refuses a retry list whose
      text is too long. */
  function RecordTrip(fits: seq<Task> -> bool, r: Record): Trip<Record> {
    match r
    case RatchetRecord(state) => Kept(RatchetRecord(RatchetSession.Reloaded(state)))
    case PendingRecord(tasks) => if fits(tasks) then Kept(r) else TooLarge
    case _ => Kept(r)
  }

  ghost predicate Keeps(s: Shelf<Record>, fits: seq<Task> -> bool) {
    forall r :: s.trip(r) == RecordTrip(fits, r)
  }

  function Code(c: char): (b: byte)
    requires SafeChar(c)
    ensures b == c as int
  {
    c as int
  }

  function Codes(text: string): bytes
    requires forall i :: 0 <= i < |text| ==> SafeChar(text[i])
  {
    seq(|text|, i requires 0 <= i < |text| && SafeChar(text[i]) => Code(text[i]))
  }

  /** Ids built from hashes and base64url texts.  Of the hash only the length of its result
      is known; the ids the store takes are ASCII, so their UTF-8 bytes are their codes. */
  datatype Naming = Naming(hash: bytes -> bytes, utf8: string -> bytes) {
    /** receivedRecordId */
    function received(contactId: string, msgId: bytes): string {
      "rx:" + EncodeUrl(hash(utf8(contactId) + [0] + msgId))
    }

    /** ackTaskId, which cuts both texts. */
    function ack(contactId: string, msgId: bytes): string {
      "ack:" + Clip(EncodeUrl(msgId), 96) + ":" + Clip(EncodeUrl(utf8(contactId)), 48)
    }

    ghost predicate Valid() {
      (forall b :: |hash(b)| == 32) && (forall c :: SafePart(c) ==> utf8(c) == Codes(c))
    }
  }

  lemma NamingHolds()
    ensures exists n: Naming :: n.Valid()
  {
    var n := Naming(_ => Repeat(0, 32), (c: string) => if SafePart(c) then Codes(c) else []);
    assert n.Valid();
  }

  function Clip(s: string, n: nat): string {
    if |s| <= n then s else s[..n]
  }

  /** Up to this length the base64 text of a message id is not cut in an ACK task id. */
  const MAX_MSG_ID: nat := 72

  lemma RecordIdSafe(n: Naming, c: string, m: bytes)
    requires n.Valid()
    ensures SafePart(n.received(c, m))
  {
    var id, text := n.received(c, m), EncodeUrl(n.hash(n.utf8(c) + [0] + m));
    forall i | 0 <= i < |id| ensures SafeChar(id[i]) {
      if i < 3 { assert id[i] == "rx:"[i]; } else { assert id[i] == text[i - 3]; }
    }
  }

  /** Two messages share a record exactly if they are the same, or their hashes collide. */
  lemma RecordIdsMeet(n: Naming, c: string, m: bytes, c': string, m': bytes)
    requires n.Valid() && SafePart(c) && SafePart(c')
    ensures var x, y := n.utf8(c) + [0] + m, n.utf8(c') + [0] + m';
            && (x == y <==> c == c' && m == m')
            && (n.received(c, m) == n.received(c', m') <==> (c == c' && m == m') || (x != y && n.hash(x) == n.hash(y)))
  {
    var x, y := n.utf8(c) + [0] + m, n.utf8(c') + [0] + m';
    AfterHead("rx:", EncodeUrl(n.hash(x)), EncodeUrl(n.hash(y)));
    ReadInverts(n.hash(x));
    ReadInverts(n.hash(y));
    if x == y { ZeroSplits(c, m, c', m'); }
  }

  lemma ZeroSplits(c: string, m: bytes, c': string, m': bytes)
    requires SafePart(c) && SafePart(c') && Codes(c) + [0] + m == Codes(c') + [0] + m'
    ensures c == c' && m == m'
  {
    var x, y := Codes(c) + [0] + m, Codes(c') + [0] + m';
    assert x[|c|] == 0 && y[|c'|] == 0;
    assert forall i :: 0 <= i < |c| ==> x[i] == c[i] as int != 0;
    assert forall i :: 0 <= i < |c'| ==> y[i] == c'[i] as int != 0;
    assert |c| == |c'|;
    assert x[|c| + 1..] == m && y[|c'| + 1..] == m';
  }

  lemma AckIdSafe(n: Naming, c: string, m: bytes)
    ensures SafePart(n.ack(c, m)) && "ack:" <= n.ack(c, m)
  {
    var a, b := Clip(EncodeUrl(m), 96), Clip(EncodeUrl(n.utf8(c)), 48);
    var id := n.ack(c, m);
    assert id == "ack:" + (a + ":" + b);
    forall i | 0 <= i < |id| ensures SafeChar(id[i]) {
      if i < 4 {
        assert id[i] == "ack:"[i];
      } else if i < 4 + |a| {
        assert id[i] == a[i - 4];
      } else if i > 4 + |a| {
        assert id[i] == b[i - 5 - |a|];
      }
    }
  }

  /** Two texts between a head and a tail, all without colons, are told apart. */
  lemma MiddleSplits(head: string, a: string, a': string, b: string, b': string)
    requires ':' !in a && ':' !in a' && head + a + ":" + b == head + a' + ":" + b'
    ensures a == a'
  {
    assert head + a + ":" + b == head + (a + ":" + b) && head + a' + ":" + b' == head + (a' + ":" + b');
    AfterHead(head, a + ":" + b, a' + ":" + b');
    ColonSplits(a, b, a', b');
  }

  /** The message id of one contact can be read off its ACK task id, if it is not too long. */
  lemma AckIdInjective(n: Naming, c: string, m: bytes, m': bytes)
    requires |m| <= MAX_MSG_ID && |m'| <= MAX_MSG_ID && n.ack(c, m) == n.ack(c, m')
    ensures m == m'
  {
    var a, a', b := EncodeUrl(m), EncodeUrl(m'), Clip(EncodeUrl(n.utf8(c)), 48);
    assert n.ack(c, m) == "ack:" + a + ":" + b && n.ack(c, m') == "ack:" + a' + ":" + b;
    MiddleSplits("ack:", a, a', b, b);
    ReadInverts(m);
    ReadInverts(m');
  }
}
