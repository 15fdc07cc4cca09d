/** The key schedule two ratchets share: which root, chain and message key belongs
    to which DH epoch, and why no two of them are the same term. */
module RatchetKeys {
  import opened Ratchet

  /** Epoch j is opened by the key pair name(j): even names are made by the
      responder (the inviter), odd ones by the initiator (the requester). Every
      generated key pair is new, so a name tells its epoch. */
  datatype Schedule = Schedule(root: Secret, name: nat -> nat, epochOf: nat -> nat) {
    ghost predicate Valid() {
      forall j :: epochOf(name(j)) == j
    }

    function Root(j: nat): Secret {
      if j == 0 then root else RootOf(Root(j - 1), Dh(name(j - 1), name(j)))
    }

    function Chain(j: nat): Secret
      requires j >= 1
    {
      ChainOf(Root(j - 1), Dh(name(j - 1), name(j)))
    }

    function Key(j: nat, n: nat): Secret
      requires j >= 1
    {
      MessageKey(Ratcheted(Chain(j), n))
    }
  }

  lemma ScheduleHolds(root: Secret)
    ensures exists k: Schedule :: k.Valid() && k.root == root
  {
    var k := Schedule(root, j => j, n => n);
    assert k.Valid();
  }

  function RootDepth(s: Secret): nat {
    match s
    case RootOf(root, _) => 1 + RootDepth(root)
    case _ => 0
  }

  function ChainSteps(s: Secret): nat {
    match s
    case NextChain(chain) => 1 + ChainSteps(chain)
    case _ => 0
  }

  function ChainStart(s: Secret): Secret {
    match s
    case NextChain(chain) => ChainStart(chain)
    case _ => s
  }

  lemma {:induction false} RatchetedShape(root: Secret, dh: Secret, k: nat)
    ensures var c := Ratcheted(ChainOf(root, dh), k);
            ChainSteps(c) == k && ChainStart(c) == ChainOf(root, dh)
  {
    if k > 0 { RatchetedShape(root, dh, k - 1); }
  }

  lemma {:induction false} RootDepthAt(s: Schedule, j: nat)
    ensures RootDepth(s.Root(j)) == j + RootDepth(s.root)
  {
    if j > 0 { RootDepthAt(s, j - 1); }
  }

  /** A message key fixes its epoch and its number: no key is ever reached twice. */
  lemma KeyInjective(s: Schedule, j: nat, n: nat, j': nat, n': nat)
    requires j >= 1 && j' >= 1
    requires s.Key(j, n) == s.Key(j', n')
    ensures j == j' && n == n'
  {
    RatchetedShape(s.Root(j - 1), Dh(s.name(j - 1), s.name(j)), n);
    RatchetedShape(s.Root(j' - 1), Dh(s.name(j' - 1), s.name(j')), n');
    RootDepthAt(s, j - 1);
    RootDepthAt(s, j' - 1);
  }

  /** Stepping towards an epoch that is already behind derives no key of the schedule. */
  lemma StaleStepMissesKey(s: Schedule, e: nat, j: nat, dh: Secret, k: nat, n: nat)
    requires 1 <= j <= e
    ensures MessageKey(Ratcheted(ChainOf(s.Root(e), dh), k)) != s.Key(j, n)
  {
    RatchetedShape(s.Root(e), dh, k);
    RatchetedShape(s.Root(j - 1), Dh(s.name(j - 1), s.name(j)), n);
    RootDepthAt(s, e);
    RootDepthAt(s, j - 1);
  }

  lemma {:induction false} RatchetedTwice(chain: Secret, a: nat, b: nat)
    ensures Ratcheted(Ratcheted(chain, a), b) == Ratcheted(chain, a + b)
  {
    if b > 0 { RatchetedTwice(chain, a, b - 1); }
  }
}
