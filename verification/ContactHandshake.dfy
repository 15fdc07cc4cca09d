/** The browser-profile handshake: an invitation, requests made from it, and the accept
    sent back (src/browser-simplex-contact-client.mjs). */
module ContactHandshake {
  import opened Outcomes
  import opened ContactRecords
  import R = Ratchet
  import S = RatchetSession
  import opened RatchetKeys

  /** What one side has stored about the contact. */
  datatype End = End(phase: Phase, ratchet: Option<R.State>)

  /** A confirmation is sealed under the DH of its sender's key and the queue's key. */
  datatype Confirmation = Confirmation(senderDh: nat, secret: R.Secret, content: Content)

  datatype Content = ContactRequest(replyDh: Option<nat>) | ContactAccept | Other

  /** The content, if the confirmation was sealed to this queue. */
  function Open(c: Confirmation, queueDh: nat): Option<Content> {
    if c.secret == R.Dh(queueDh, c.senderDh) then Some(c.content) else None
  }

  /** requestContact, whatever was stored before. */
  function RequestFrom(ownDh: nat, inviterDh: nat): End {
    End(Requested, Some(R.CreateState(R.Dh(ownDh, inviterDh), ownDh, Some(inviterDh), true)))
  }

  /** receiveContactRequest once the queue is secured. */
  function AcceptFor(queueDh: nat, senderDh: nat): End {
    End(Active, Some(R.CreateState(R.Dh(queueDh, senderDh), queueDh, None, false)))
  }

  /** receiveContactAccept once the queue is secured: only the phase changes. */
  function Activated(e: End): End {
    e.(phase := Active)
  }

  // ------------------------------------------------------------------- runs

  /** `calls` are unfinished calls of receiveContactRequest.  `wire` holds every
      confirmation ever sent: each can arrive any number of times or never.  `made` are
      the keys of the requester, one for each call of requestContact, and `used` is the
      key in the confirmation the inviter acted on last. */
  datatype Handshake = Handshake(
    inviter: End, requester: End, calls: nat, wire: set<Confirmation>, made: seq<nat>, used: Option<nat>)

  datatype Event =
    | Request(ownDh: nat, replyDh: Option<nat>)
    | BeginReceive
    | TakeRequest(confirmation: Confirmation, secured: bool, acceptDh: nat)
    | TakeAccept(confirmation: Confirmation, queueDh: nat, secured: bool)

  /** Nothing stored yet on the requester's side is a contact in no usable phase. */
  function Start(): Handshake {
    Handshake(End(Invited, None), End(Deleted, None), 0, {}, [], None)
  }

  /** One event of a handshake from an invitation with queue key `b`.  The requester's key
      is generated or given by its caller, so it may repeat; only the inviter holds `b`. */
  function Step(b: nat, h: Handshake, ev: Event): Handshake {
    match ev
    case Request(ownDh, replyDh) =>
      if ownDh == b then h
      else
        h.(requester := RequestFrom(ownDh, b), made := h.made + [ownDh],
           wire := h.wire + {Confirmation(ownDh, R.Dh(ownDh, b), ContactRequest(replyDh))})
    case BeginReceive => if h.inviter.phase == Invited then h.(calls := h.calls + 1) else h
    case TakeRequest(c, secured, acceptDh) =>
      if h.calls == 0 || c !in h.wire then h
      else
        var ended := h.(calls := h.calls - 1);
        var content := Open(c, b);
        if content.None? || !content.value.ContactRequest? || !secured then ended
        else ended.(inviter := AcceptFor(b, c.senderDh), used := Some(c.senderDh),
                    wire := if content.value.replyDh.None? then h.wire
                            else
                              h.wire + {Confirmation(acceptDh, R.Dh(acceptDh, content.value.replyDh.value), ContactAccept)})
    case TakeAccept(c, queueDh, secured) =>
      if c !in h.wire || (h.requester.phase != Requested && h.requester.phase != Active) then h
      else
        var content := Open(c, queueDh);
        if content.None? || !content.value.ContactAccept? || !secured then h
        else h.(requester := Activated(h.requester))
  }

  function Run(b: nat, events: seq<Event>): Handshake {
    if events == [] then Start() else Step(b, Run(b, events[..|events| - 1]), events[|events| - 1])
  }

  // ---------------------------------------------------------------- invariant

  ghost predicate WireOk(b: nat, h: Handshake, c: Confirmation) {
    match c.content
    case ContactRequest(_) => c.senderDh in h.made && c.secret == R.Dh(c.senderDh, b)
    case ContactAccept => h.used.Some?
    case Other => false
  }

  ghost predicate Inv(b: nat, h: Handshake) {
    && (forall c :: c in h.wire ==> WireOk(b, h, c))
    && (h.used.None? ==> h.inviter == End(Invited, None))
    && (h.used.Some? ==> h.used.value in h.made && h.inviter == AcceptFor(b, h.used.value))
    && (h.made == [] ==> h.requester.phase == Deleted)
    && (h.made != [] ==> h.requester.ratchet == RequestFrom(h.made[|h.made| - 1], b).ratchet
                         && (h.requester.phase == Requested || h.requester.phase == Active))
    && (h.requester.phase == Active ==> h.used.Some?)
    && b !in h.made
  }

  lemma StepKeeps(b: nat, h: Handshake, ev: Event)
    requires Inv(b, h)
    ensures Inv(b, Step(b, h, ev))
  {
    var h' := Step(b, h, ev);
    forall c | c in h'.wire ensures WireOk(b, h', c) {
      if c in h.wire { assert WireOk(b, h, c); }
    }
    if ev.TakeRequest? && ev.confirmation in h.wire { assert WireOk(b, h, ev.confirmation); }
    if ev.TakeAccept? && ev.confirmation in h.wire { assert WireOk(b, h, ev.confirmation); }
  }

  lemma {:induction false} RunKeeps(b: nat, events: seq<Event>)
    ensures Inv(b, Run(b, events))
  {
    if events != [] {
      RunKeeps(b, events[..|events| - 1]);
      StepKeeps(b, Run(b, events[..|events| - 1]), events[|events| - 1]);
    }
  }

  // ------------------------------------------------------------- what is accepted

  lemma OneMore(b: nat, events: seq<Event>, ev: Event)
    ensures Run(b, events + [ev]) == Step(b, Run(b, events), ev)
  {
    assert (events + [ev])[..|events|] == events;
  }

  /** After every run, a call that waits for a request and gets a confirmation ever sent
      accepts it, once the queue is secured, if and only if it is a request: the inviter is
      then active, on a ratchet of the two keys, and answers if it was asked to. */
  lemma RequestTaken(b: nat, events: seq<Event>, c: Confirmation, secured: bool, acceptDh: nat)
    requires Run(b, events).calls > 0 && c in Run(b, events).wire
    ensures var h, h' := Run(b, events), Run(b, events + [TakeRequest(c, secured, acceptDh)]);
            && h'.calls == h.calls - 1 && h'.requester == h.requester && h'.made == h.made
            && if secured && c.content.ContactRequest?
               then && h'.inviter.phase == Active && h'.used == Some(c.senderDh)
                    && h'.inviter.ratchet == Some(R.State(R.Dh(b, c.senderDh), b, None, None, None, 0, 0, 0, []))
                    && h'.wire == h.wire + if c.content.replyDh.None? then {}
                                           else {Confirmation(acceptDh, R.Dh(acceptDh, c.content.replyDh.value), ContactAccept)}
               else h'.inviter == h.inviter && h'.wire == h.wire
  {
    OneMore(b, events, TakeRequest(c, secured, acceptDh));
    RunKeeps(b, events);
    assert WireOk(b, Run(b, events), c);
    hide Run, WireOk;
  }

  /** And a requester that gets one is active from then on if and only if it is an accept for
      the queue it listens on, and the queue is secured. */
  lemma AcceptTaken(b: nat, events: seq<Event>, c: Confirmation, queueDh: nat, secured: bool)
    requires Run(b, events).requester.phase == Requested && c in Run(b, events).wire
    ensures var h, h' := Run(b, events), Run(b, events + [TakeAccept(c, queueDh, secured)]);
            && h' == h.(requester := h.requester.(phase := h'.requester.phase))
            && (h'.requester.phase == Active
                <==> secured && c.content.ContactAccept? && c.secret == R.Dh(queueDh, c.senderDh))
            && (h'.requester.phase == Active || h'.requester.phase == Requested)
  {
    OneMore(b, events, TakeAccept(c, queueDh, secured));
    hide Run;
  }

  /** So a handshake in which nothing is lost ends with both sides active, on matching ratchets. */
  lemma HandshakeCompletes(b: nat, r: nat, reply: nat, acceptDh: nat)
    requires b != r
    ensures var request := Confirmation(r, R.Dh(r, b), ContactRequest(Some(reply)));
            var accept := Confirmation(acceptDh, R.Dh(acceptDh, reply), ContactAccept);
            var h := Run(b, [Request(r, Some(reply)), BeginReceive, TakeRequest(request, true, acceptDh),
                             TakeAccept(accept, reply, true)]);
            h.inviter.phase == Active && h.requester.phase == Active && h.made == [r] && Matching(h, b, r)
  {
    var request := Confirmation(r, R.Dh(r, b), ContactRequest(Some(reply)));
    var accept := Confirmation(acceptDh, R.Dh(acceptDh, reply), ContactAccept);
    var e1, e2 := [Request(r, Some(reply))], [Request(r, Some(reply)), BeginReceive];
    var e3 := e2 + [TakeRequest(request, true, acceptDh)];
    var all := e3 + [TakeAccept(accept, reply, true)];
    OneMore(b, [], Request(r, Some(reply)));
    OneMore(b, e1, BeginReceive);
    assert [] + [Request(r, Some(reply))] == e1 && e1 + [BeginReceive] == e2;
    RequestTaken(b, e2, request, true, acceptDh);
    AcceptTaken(b, e3, accept, reply, true);
    assert all == [Request(r, Some(reply)), BeginReceive, TakeRequest(request, true, acceptDh),
                   TakeAccept(accept, reply, true)];
    OneRequestMatches(b, all);
    hide Run, Matching, Step;
  }

  // ---------------------------------------------------------------- matching

  /** Names for the keys of all epochs: the inviter's, the requester's, then new ones. */
  function Names(b: nat, r: nat): Schedule {
    var m := if b < r then r + 1 else b + 1;
    Schedule(R.Dh(r, b), j => if j == 0 then b else if j == 1 then r else m + j,
             n => if n == b then 0 else if n == r then 1 else if n >= m then n - m else 0)
  }

  /** The two stored ratchets are the two ends of one session. */
  ghost predicate Matching(h: Handshake, b: nat, r: nat) {
    var s := S.Start(Names(b, r));
    h.inviter.ratchet == Some(s.responder.state) && h.requester.ratchet == Some(s.initiator.state)
  }

  lemma NamesValid(b: nat, r: nat)
    requires b != r
    ensures Names(b, r).Valid()
  {
  }

  /** The requester is active only if the inviter is; and once both are, their ratchets are
      the two ends of one session if and only if the inviter acted on the confirmation of
      the requester's last requestContact. */
  lemma BothActiveMatch(b: nat, events: seq<Event>)
    ensures var h := Run(b, events);
            && (h.requester.phase == Active ==> h.inviter.phase == Active)
            && (h.inviter.phase == Active ==> h.made != [] && h.used.Some?)
            && (h.inviter.phase == Active ==>
                  (Matching(h, b, h.made[|h.made| - 1]) <==> h.used == Some(h.made[|h.made| - 1])))
  {
    RunKeeps(b, events);
    var h := Run(b, events);
    if h.inviter.phase == Active {
      var r, used := h.made[|h.made| - 1], h.used.value;
      DhInjective(b, r, used);
    }
  }

  lemma DhInjective(b: nat, r: nat, used: nat)
    ensures R.Dh(b, used) == R.Dh(r, b) <==> used == r
  {
  }

  /** With one call of requestContact they always match, whatever was lost, repeated or
      retried. */
  lemma OneRequestMatches(b: nat, events: seq<Event>)
    requires Run(b, events).inviter.phase == Active && |Run(b, events).made| == 1
    ensures Matching(Run(b, events), b, Run(b, events).made[0])
  {
    RunKeeps(b, events);
    BothActiveMatch(b, events);
  }

  /** Matching ends: the requester's first text opens, and before it the inviter cannot send. */
  lemma FirstTextOpens(b: nat, r: nat, text: string, nonce: nat, paddedLength: nat, freshDh: nat)
    requires b != r
    ensures var inviter, requester := AcceptFor(b, r).ratchet.value, RequestFrom(r, b).ratchet.value;
            var sealed := R.Encrypt(requester, text, nonce, paddedLength);
            && R.Encrypt(inviter, text, nonce, paddedLength) == Err(R.NoSendingChain)
            && (sealed.Ok? ==>
                  var opens := R.Decrypt(inviter, sealed.value.1, freshDh);
                  opens.Ok? && opens.value.1 == text
                  && (sealed.Ok? ==> R.Encrypt(opens.value.0, text, nonce, paddedLength).Ok?))
  {
  }

  /** Ends that do not match: no text the requester seals from its first key opens. */
  lemma OtherTextsFail(b: nat, r: nat, used: nat, text: string, nonce: nat, paddedLength: nat, freshDh: nat)
    requires used != r
    ensures var inviter, requester := AcceptFor(b, used).ratchet.value, RequestFrom(r, b).ratchet.value;
            var sealed := R.Encrypt(requester, text, nonce, paddedLength);
            sealed.Ok? ==> R.Decrypt(inviter, sealed.value.1, freshDh).Err?
  {
  }
}
