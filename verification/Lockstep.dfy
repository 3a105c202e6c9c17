/** Two matching sessions and a network that loses, reorders, duplicates, reflects and
    alters messages.  Everything that happened is recorded in a `History`; the invariant
    says that both sessions are functions of it, at most one ratchet step apart. */
module Lockstep {
  import opened Prelude
  import opened Crypto
  import opened Ratchet
  import opened Session
  import opened SkippedKeys
  import opened ReceiverChains

  datatype Role = Initiator | Responder

  function Other(r: Role): Role { if r.Initiator? then Responder else Initiator }

  datatype Sent = Sent(plaintext: Bytes, previous: nat)

  /** One sending chain: what was sent on it, and, at the receiving end, the next counter,
      the counters accepted and the floor below which skipped keys were dropped. */
  datatype Ledger = Ledger(sent: seq<Sent>, next: nat, taken: set<nat>, floor: nat)

  datatype History = History(
    secrets: seq<Dh>, initiatorId: KeyId, responderId: KeyId, keys: seq<KeyId>, ledgers: seq<Ledger>)
  {
    function Id(r: Role): KeyId { if r.Initiator? then initiatorId else responderId }

    function Chain(e: nat): ChainSecret
      requires e < |keys|
    {
      ChainAt(secrets, keys, e)
    }

    ghost predicate Valid() {
      && |keys| == |ledgers| >= 2
      && (forall i, j :: 0 <= i < j < |keys| ==> keys[i] != keys[j])
      && (forall e :: 0 <= e < |ledgers| ==> |ledgers[e].sent| < U32_SIZE)
      && ledgers[|keys| - 1].(sent := []) == EmptyLedger
    }
  }

  const EmptyLedger := Ledger([], 0, {}, 0)

  /** Odd epochs belong to the initiator, even ones to the responder. */
  function Speaker(e: nat): Role { if e % 2 == 1 then Initiator else Responder }

  /** The sending epoch of a party: its latest one. */
  function Epoch(h: History, r: Role): (n: nat)
    requires h.Valid()
    ensures n < |h.keys| && Speaker(n) == r
    ensures |h.keys| <= n + 2
  {
    SpeakersAlternate(|h.keys| - 2);
    if Speaker(|h.keys| - 1) == r then |h.keys| - 1 else |h.keys| - 2
  }

  lemma SpeakersAlternate(e: nat)
    ensures Speaker(e + 1) == Other(Speaker(e))
  {
  }

  /** How many receiver chains a party in sending epoch `n` keeps, and the epoch in each slot. */
  function Kept(n: nat): nat { Min(MAX_RECEIVER_CHAINS, (n + 1) / 2) }

  function SlotEpoch(n: nat, j: nat): (e: nat)
    requires j < Kept(n)
    ensures e < n && Speaker(e) == Other(Speaker(n))
  {
    n + 1 - 2 * (Kept(n) - j)
  }

  /** The counter field that announces the previous sending chain: its last counter. */
  function PreviousCounter(h: History, n: nat): nat
    requires n < |h.ledgers|
  {
    if n < 2 || |h.ledgers[n - 2].sent| == 0 then 0 else |h.ledgers[n - 2].sent| - 1
  }

  /** A retained receiver chain is the peer's sending chain advanced to the recorded index,
      with exactly the skipped and unconsumed keys in its cache. */
  ghost predicate ChainOk(rc: ReceiverChain, h: History, e: nat)
    requires h.Valid() && e < |h.keys|
  {
    && rc.ratchetKey == h.keys[e]
    && Tracks(rc, h.Chain(e))
    && WindowOf(rc).next == h.ledgers[e].next <= |h.ledgers[e].sent|
    && Exact(WindowOf(rc), h.ledgers[e].floor, h.ledgers[e].taken)
  }

  ghost predicate SessionOk(s: Session, h: History, r: Role)
    requires h.Valid()
  {
    var n := Epoch(h, r);
    && s.rawVersion == CURRENT_VERSION
    && s.localIdentity == h.Id(r)
    && s.remoteIdentity == Some(h.Id(Other(r)))
    && s.root == RootAt(h.secrets, h.keys, n)
    && s.sender == Some(SenderChain(h.keys[n], KeyAt(h.Chain(n), |h.ledgers[n].sent|)))
    && s.previousCounter == PreviousCounter(h, n)
    && |s.receivers| == Kept(n)
    && forall j :: 0 <= j < Kept(n) ==> ChainOk(s.receivers[j], h, SlotEpoch(n, j))
  }

  datatype System = System(initiator: Session, responder: Session, past: History) {
    function Of(r: Role): Session { if r.Initiator? then initiator else responder }

    function With(r: Role, s: Session, h: History): System {
      if r.Initiator? then System(s, responder, h) else System(initiator, s, h)
    }
  }

  /** Both parties are at the last two epochs of one history and agree with it. */
  ghost predicate Inv(sys: System) {
    && sys.past.Valid()
    && SessionOk(sys.initiator, sys.past, Initiator)
    && SessionOk(sys.responder, sys.past, Responder)
  }

  /** The `i`-th message sent in epoch `e`. */
  function MessageAt(h: History, e: nat, i: nat): SignalMessage
    requires e < |h.keys| == |h.ledgers| && i < |h.ledgers[e].sent| && i < U32_SIZE
  {
    var sent := h.ledgers[e].sent[i];
    Seal(KeysOf(KeyAt(h.Chain(e), i)), CURRENT_VERSION, h.keys[e], i, sent.previous, sent.plaintext,
         h.Id(Speaker(e)), h.Id(Other(Speaker(e))))
  }

  /** What the network can present: any message at all, except that it cannot compute a MAC
      under a key derived from this session's secrets; it can only repeat one it has seen. */
  ghost predicate Network(h: History, m: SignalMessage)
    requires h.Valid()
  {
    || m.tag.Junk?
    || ChainOrigin(m.tag.key.chain) != h.secrets
    || exists e, i :: 0 <= e < |h.keys| && 0 <= i < |h.ledgers[e].sent| && m.tag == MessageAt(h, e, i).tag
  }

  datatype Step =
    | Send(who: Role, plaintext: Bytes)
    | Deliver(whom: Role, message: SignalMessage, newKey: KeyId)

  ghost predicate Enabled(sys: System, step: Step)
    requires sys.past.Valid()
  {
    match step
    case Send(r, _) => |sys.past.ledgers[Epoch(sys.past, r)].sent| + 1 < U32_SIZE
    case Deliver(_, m, newKey) => newKey !in sys.past.keys && Network(sys.past, m)
  }

  /** Epoch `n` has sent one more message. */
  function Logged(h: History, n: nat, entry: Sent): History
    requires n < |h.ledgers|
  {
    h.(ledgers := h.ledgers[n := h.ledgers[n].(sent := h.ledgers[n].sent + [entry])])
  }

  /** Counter `c` of epoch `e` was accepted by a chain whose window was `w`. */
  function Received(h: History, e: nat, c: nat, w: Window): History
    requires e < |h.ledgers|
  {
    var l := h.ledgers[e];
    h.(ledgers := h.ledgers[e :=
      Ledger(l.sent, if c < l.next then l.next else c + 1, l.taken + {c}, FloorAfter(w, l.floor, c))])
  }

  /** A party moved on to a new sending chain. */
  function Ratcheted(h: History, newKey: KeyId): History {
    h.(keys := h.keys + [newKey], ledgers := h.ledgers + [EmptyLedger])
  }

  /** The history after a session accepted a message. */
  function AfterAccept(h: History, s: Session, m: SignalMessage, newKey: KeyId): History
    requires |h.ledgers| == |h.keys|
  {
    var e, c := IndexOf(h.keys, m.content.ratchetKey), m.content.counter;
    if e == |h.keys| then h
    else
      var j := FindChain(s.receivers, m.content.ratchetKey);
      if j < |s.receivers| then Received(h, e, c, WindowOf(s.receivers[j]))
      else Ratcheted(Received(h, e, c, Window(0, [])), newKey)
  }

  /** A failed attempt works on a clone, so it leaves the session as it was. */
  function Apply(sys: System, step: Step): System
    requires |sys.past.keys| == |sys.past.ledgers| >= 2
  {
    match step
    case Send(r, plaintext) =>
      var s, h := sys.Of(r), sys.past;
      var n := if Speaker(|h.keys| - 1) == r then |h.keys| - 1 else |h.keys| - 2;
      sys.With(r, Encrypt(s, plaintext).0, Logged(h, n, Sent(plaintext, s.previousCounter)))
    case Deliver(r, m, newKey) =>
      var s := sys.Of(r);
      var (after, result) := Decrypt(s, m, newKey);
      if result.Err? then sys else sys.With(r, after, AfterAccept(sys.past, s, m, newKey))
  }

  // ----------------------------------------------------------------------- lookups

  lemma SlotIsFound(s: Session, h: History, r: Role, j: nat)
    requires h.Valid() && SessionOk(s, h, r) && j < Kept(Epoch(h, r))
    ensures FindChain(s.receivers, h.keys[SlotEpoch(Epoch(h, r), j)]) == j
  {
    var n := Epoch(h, r);
    assert ChainOk(s.receivers[j], h, SlotEpoch(n, j));
    forall i | 0 <= i < j ensures s.receivers[i].ratchetKey != h.keys[SlotEpoch(n, j)] {
      assert ChainOk(s.receivers[i], h, SlotEpoch(n, i));
    }
  }

  /** Which epochs of the peer still have a receiver chain. */
  lemma EpochLookup(s: Session, h: History, r: Role, e: nat)
    requires h.Valid() && SessionOk(s, h, r)
    requires e < |h.keys| && Speaker(e) == Other(r)
    ensures var n, j := Epoch(h, r), FindChain(s.receivers, h.keys[e]);
      if e < n && e + 10 > n then j < |s.receivers| && SlotEpoch(n, j) == e
      else j == |s.receivers|
  {
    var n := Epoch(h, r);
    if e < n && e + 2 * MAX_RECEIVER_CHAINS > n {
      var j := Kept(n) - (n + 1 - e) / 2;
      assert SlotEpoch(n, j) == e;
      SlotIsFound(s, h, r, j);
    } else {
      forall i | 0 <= i < |s.receivers| ensures s.receivers[i].ratchetKey != h.keys[e] {
        assert ChainOk(s.receivers[i], h, SlotEpoch(n, i));
      }
    }
  }

  // ------------------------------------------------------------- decryption attempts

  /** An attempt on a retained chain: the window decides, and the key is that of the epoch. */
  lemma KnownChainAttempt(s: Session, h: History, r: Role, m: SignalMessage, newKey: KeyId, e: nat)
    requires h.Valid() && SessionOk(s, h, r)
    requires m.content.version == CURRENT_VERSION
    requires FindChain(s.receivers, m.content.ratchetKey) < |s.receivers|
    requires e == SlotEpoch(Epoch(h, r), FindChain(s.receivers, m.content.ratchetKey))
    ensures var j, c := FindChain(s.receivers, m.content.ratchetKey), m.content.counter;
      && ChainOk(s.receivers[j], h, e)
      && Decrypt(s, m, newKey).1 ==
        (match Receive(WindowOf(s.receivers[j]), c)
         case Accepted(_) => Open(m, KeysOf(KeyAt(h.Chain(e), c)), h.Id(Other(r)), h.Id(r))
         case Duplicate => Err(DuplicatedMessage(h.ledgers[e].next, c))
         case TooFar => Err(TooFarIntoTheFuture))
      && (Decrypt(s, m, newKey).1.Ok? ==>
        Decrypt(s, m, newKey).0 == s.(receivers := s.receivers[j := TakeKeys(s.receivers[j], c).0], pending := None))
  {
    hide TakeKeys, KeyAt, RootAt;
    var j := FindChain(s.receivers, m.content.ratchetKey);
    assert ChainOk(s.receivers[j], h, SlotEpoch(Epoch(h, r), j));
    TakeKeysRefines(s.receivers[j], h.Chain(e), m.content.counter);
  }

  /** The chain that a party in epoch `n` opens on an unknown ratchet key. */
  function OpenedChain(h: History, r: Role, theirs: KeyId): ChainSecret
    requires h.Valid()
  {
    var n := Epoch(h, r);
    RatchetChain(CURRENT_VERSION, RootAt(h.secrets, h.keys, n), Agree(theirs, h.keys[n]))
  }

  /** An attempt with an unknown ratchet key opens a new chain on the current root. */
  lemma NewChainAttempt(s: Session, h: History, r: Role, m: SignalMessage, newKey: KeyId)
    requires h.Valid() && SessionOk(s, h, r)
    requires m.content.version == CURRENT_VERSION
    requires FindChain(s.receivers, m.content.ratchetKey) == |s.receivers|
    ensures var theirs, c := m.content.ratchetKey, m.content.counter;
      var base := OpenedChain(h, r, theirs);
      var opened' := ReceiverChain(theirs, KeyAt(base, 0), []);
      var s1 := RatchetStep(s, theirs, newKey);
      && s1.receivers == PushChain(s.receivers, opened')
      && Decrypt(s, m, newKey).1 ==
        (if c > 2000 then Err(TooFarIntoTheFuture)
         else Open(m, KeysOf(KeyAt(base, c)), h.Id(Other(r)), h.Id(r)))
      && (Decrypt(s, m, newKey).1.Ok? ==>
        Decrypt(s, m, newKey).0 ==
          s1.(receivers := s1.receivers[|s1.receivers| - 1 := TakeKeys(opened', c).0], pending := None))
  {
    hide TakeKeys, RootAt;
    var theirs := m.content.ratchetKey;
    var rc := ReceiverChain(theirs, KeyAt(OpenedChain(h, r, theirs), 0), []);
    PushedChainIsFound(s.receivers, rc);
    TracksWindow(rc, OpenedChain(h, r, theirs), 0, []);
    TakeKeysRefines(rc, OpenedChain(h, r, theirs), m.content.counter);
  }

  // ------------------------------------------------------- what exactly is accepted

  /** The condition of the delivery theorem, in terms of the past alone: the chain is new or
      among the last five, the counter is at most 2000 ahead, it was not accepted before and
      its key was not evicted. */
  ghost predicate Deliverable(h: History, r: Role, e: nat, i: nat)
    requires h.Valid()
  {
    && e < |h.keys| && Speaker(e) == Other(r)
    && e + 10 > Epoch(h, r)
    && i < |h.ledgers[e].sent|
    && i !in h.ledgers[e].taken
    && h.ledgers[e].floor <= i <= h.ledgers[e].next + 2000
  }

  lemma {:induction false} EpochOfKey(h: History, e: nat)
    requires h.Valid() && e < |h.keys|
    ensures IndexOf(h.keys, h.keys[e]) == e
  {
  }

  lemma HonestTagMatch(h: History, m: SignalMessage, from: KeyId, whom: KeyId, key: ChainSecret)
    returns (e: nat, i: nat)
    requires h.Valid() && Network(h, m)
    requires ChainOrigin(key) == h.secrets
    requires m.tag == Hmac(Slice(CURRENT_VERSION, key, 32, 64), from, whom, m.content)
    ensures e < |h.keys| && i < |h.ledgers[e].sent| && m == MessageAt(h, e, i)
    ensures Nth(h.Chain(e), i) == key
  {
    e, i :| 0 <= e < |h.keys| && 0 <= i < |h.ledgers[e].sent| && m.tag == MessageAt(h, e, i).tag;
  }

  lemma AuthenticOnKnownChain(s: Session, h: History, r: Role, m: SignalMessage, newKey: KeyId)
    requires h.Valid() && SessionOk(s, h, r) && Network(h, m)
    requires FindChain(s.receivers, m.content.ratchetKey) < |s.receivers|
    requires Decrypt(s, m, newKey).1.Ok?
    ensures var e, i := SlotEpoch(Epoch(h, r), FindChain(s.receivers, m.content.ratchetKey)), m.content.counter;
      && Deliverable(h, r, e, i)
      && m == MessageAt(h, e, i)
      && Decrypt(s, m, newKey).1 == Ok(h.ledgers[e].sent[i].plaintext)
  {
    var c := m.content.counter;
    var j := FindChain(s.receivers, m.content.ratchetKey);
    var e := SlotEpoch(Epoch(h, r), j);
    KnownChainAttempt(s, h, r, m, newKey, e);
    RootAtFacts(h.secrets, h.keys, e);
    NthFacts(h.Chain(e), c);
    var e', i' := HonestTagMatch(h, m, h.Id(Other(r)), h.Id(r), Nth(h.Chain(e), c));
    ChainSecretsDistinct(h.secrets, h.keys, e', i', e, c);
    AcceptanceCondition(WindowOf(s.receivers[j]), h.ledgers[e].floor, h.ledgers[e].taken, c);
  }

  /** A message that opens under a freshly opened chain comes from the peer's next epoch. */
  lemma OpensOnlyFromNextEpoch(h: History, r: Role, m: SignalMessage)
    requires h.Valid() && Network(h, m) && m.content.counter <= MAX_FORWARD_JUMPS
    requires Open(m, KeysOf(KeyAt(OpenedChain(h, r, m.content.ratchetKey), m.content.counter)),
                  h.Id(Other(r)), h.Id(r)).Ok?
    ensures Deliverable(h, r, Epoch(h, r) + 1, m.content.counter)
    ensures m == MessageAt(h, Epoch(h, r) + 1, m.content.counter)
  {
    var c, n := m.content.counter, Epoch(h, r);
    var base := OpenedChain(h, r, m.content.ratchetKey);
    RootAtFacts(h.secrets, h.keys, n);
    NthFacts(base, c);
    var e', i' := HonestTagMatch(h, m, h.Id(Other(r)), h.Id(r), Nth(base, c));
    OpenedChainMeetsOnlyNextEpoch(h.secrets, h.keys, n, base.shared, c, e', i');
    SpeakersAlternate(n);
  }

  lemma AuthenticOnNewChain(s: Session, h: History, r: Role, m: SignalMessage, newKey: KeyId)
    requires h.Valid() && SessionOk(s, h, r) && Network(h, m)
    requires FindChain(s.receivers, m.content.ratchetKey) == |s.receivers|
    requires Decrypt(s, m, newKey).1.Ok?
    ensures Deliverable(h, r, Epoch(h, r) + 1, m.content.counter)
    ensures m == MessageAt(h, Epoch(h, r) + 1, m.content.counter)
    ensures Decrypt(s, m, newKey).1 == Ok(h.ledgers[Epoch(h, r) + 1].sent[m.content.counter].plaintext)
  {
    NewChainAttempt(s, h, r, m, newKey);
    OpensOnlyFromNextEpoch(h, r, m);
  }

  /** Authenticity and no replay: whatever the network presents, an accepted message is one
      that the peer sent, bit for bit, was not accepted before, and yields its plaintext. */
  lemma Authenticity(sys: System, r: Role, m: SignalMessage, newKey: KeyId)
    requires Inv(sys) && Network(sys.past, m)
    requires Decrypt(sys.Of(r), m, newKey).1.Ok?
    ensures var h, i := sys.past, m.content.counter;
      var e := IndexOf(h.keys, m.content.ratchetKey);
      && Deliverable(h, r, e, i)
      && m == MessageAt(h, e, i)
      && Decrypt(sys.Of(r), m, newKey).1 == Ok(h.ledgers[e].sent[i].plaintext)
  {
    hide Decrypt;
    var s, h := sys.Of(r), sys.past;
    var j := FindChain(s.receivers, m.content.ratchetKey);
    var e: nat;
    if j < |s.receivers| {
      AuthenticOnKnownChain(s, h, r, m, newKey);
      e := SlotEpoch(Epoch(h, r), j);
    } else {
      AuthenticOnNewChain(s, h, r, m, newKey);
      e := Epoch(h, r) + 1;
    }
    EpochOfKey(h, e);
  }

  lemma DeliveryOnKnownChain(s: Session, h: History, r: Role, e: nat, i: nat, newKey: KeyId)
    requires h.Valid() && SessionOk(s, h, r) && Deliverable(h, r, e, i) && e < Epoch(h, r)
    ensures Decrypt(s, MessageAt(h, e, i), newKey).1 == Ok(h.ledgers[e].sent[i].plaintext)
  {
    EpochLookup(s, h, r, e);
    KnownChainAttempt(s, h, r, MessageAt(h, e, i), newKey, e);
    var j := FindChain(s.receivers, h.keys[e]);
    AcceptanceCondition(WindowOf(s.receivers[j]), h.ledgers[e].floor, h.ledgers[e].taken, i);
  }

  lemma DeliveryOnNewChain(s: Session, h: History, r: Role, e: nat, i: nat, newKey: KeyId)
    requires h.Valid() && SessionOk(s, h, r) && Deliverable(h, r, e, i) && e > Epoch(h, r)
    ensures Decrypt(s, MessageAt(h, e, i), newKey).1 == Ok(h.ledgers[e].sent[i].plaintext)
  {
    hide ChainOk, PreviousCounter;
    EpochLookup(s, h, r, e);
    NewChainAttempt(s, h, r, MessageAt(h, e, i), newKey);
    assert OpenedChain(h, r, h.keys[e]) == h.Chain(e);
  }

  /** An honest message is decrypted to what was encrypted exactly when it is deliverable. */
  lemma DeliveryIff(sys: System, r: Role, e: nat, i: nat, newKey: KeyId)
    requires Inv(sys)
    requires e < |sys.past.keys| && Speaker(e) == Other(r) && i < |sys.past.ledgers[e].sent|
    ensures Decrypt(sys.Of(r), MessageAt(sys.past, e, i), newKey).1.Ok? <==> Deliverable(sys.past, r, e, i)
    ensures Deliverable(sys.past, r, e, i) ==>
      Decrypt(sys.Of(r), MessageAt(sys.past, e, i), newKey).1 == Ok(sys.past.ledgers[e].sent[i].plaintext)
  {
    hide Decrypt;
    var s, h := sys.Of(r), sys.past;
    var m := MessageAt(h, e, i);
    if Decrypt(s, m, newKey).1.Ok? {
      Authenticity(sys, r, m, newKey);
      EpochOfKey(h, e);
    }
    if Deliverable(h, r, e, i) {
      if e < Epoch(h, r) {
        DeliveryOnKnownChain(s, h, r, e, i, newKey);
      } else {
        DeliveryOnNewChain(s, h, r, e, i, newKey);
      }
    }
  }

  // --------------------------------------------------------- the invariant is kept

  /** `h'` extends `h` without touching the receiving side of epoch `e`. */
  ghost predicate SameReceipts(h: History, h': History, e: nat) {
    && e < |h.ledgers| && e < |h'.ledgers|
    && h'.ledgers[e].(sent := h.ledgers[e].sent) == h.ledgers[e]
    && |h.ledgers[e].sent| <= |h'.ledgers[e].sent|
  }

  ghost predicate Extends(h: History, h': History) {
    && h.Valid() && h'.Valid()
    && h'.secrets == h.secrets && h'.initiatorId == h.initiatorId && h'.responderId == h.responderId
    && h.keys <= h'.keys
  }

  lemma ChainFrame(rc: ReceiverChain, h: History, h': History, e: nat)
    requires Extends(h, h') && e < |h.keys| && SameReceipts(h, h', e) && ChainOk(rc, h, e)
    ensures ChainOk(rc, h', e)
  {
    assert h'.keys == h.keys + h'.keys[|h.keys|..];
    EpochPrefix(h.secrets, h.keys, h'.keys[|h.keys|..], e);
  }

  lemma SessionFrame(s: Session, h: History, h': History, r: Role)
    requires Extends(h, h') && SessionOk(s, h, r)
    requires Epoch(h', r) == Epoch(h, r)
    requires |h'.ledgers[Epoch(h, r)].sent| == |h.ledgers[Epoch(h, r)].sent|
    requires PreviousCounter(h', Epoch(h, r)) == PreviousCounter(h, Epoch(h, r))
    requires forall e :: 0 <= e < Epoch(h, r) && Speaker(e) == Other(r) ==> SameReceipts(h, h', e)
    ensures SessionOk(s, h', r)
  {
    var n := Epoch(h, r);
    assert h'.keys == h.keys + h'.keys[|h.keys|..];
    EpochPrefix(h.secrets, h.keys, h'.keys[|h.keys|..], n);
    forall j | 0 <= j < Kept(n) ensures ChainOk(s.receivers[j], h', SlotEpoch(n, j)) {
      ChainFrame(s.receivers[j], h, h', SlotEpoch(n, j));
    }
  }

  lemma LoggedFacts(h: History, r: Role, entry: Sent)
    requires h.Valid() && |h.ledgers[Epoch(h, r)].sent| + 1 < U32_SIZE
    ensures var h' := Logged(h, Epoch(h, r), entry);
      && Extends(h, h')
      && Epoch(h', r) == Epoch(h, r)
      && Epoch(h', Other(r)) == Epoch(h, Other(r)) != Epoch(h, r)
      && forall e :: 0 <= e < |h.keys| ==> SameReceipts(h, h', e)
  {
  }

  lemma SenderAfterSend(s: Session, h: History, r: Role, plaintext: Bytes)
    requires h.Valid() && SessionOk(s, h, r) && |h.ledgers[Epoch(h, r)].sent| + 1 < U32_SIZE
    ensures var h' := Logged(h, Epoch(h, r), Sent(plaintext, s.previousCounter));
      h'.Valid() && SessionOk(Encrypt(s, plaintext).0, h', r)
  {
    var n := Epoch(h, r);
    var h' := Logged(h, n, Sent(plaintext, s.previousCounter));
    LoggedFacts(h, r, Sent(plaintext, s.previousCounter));
    assert Next(KeyAt(h.Chain(n), |h.ledgers[n].sent|)) == KeyAt(h.Chain(n), |h.ledgers[n].sent| + 1);
    forall j | 0 <= j < Kept(n) ensures ChainOk(s.receivers[j], h', SlotEpoch(n, j)) {
      ChainFrame(s.receivers[j], h, h', SlotEpoch(n, j));
    }
  }

  lemma BothSidesOk(sys: System, r: Role, s: Session, h: History)
    requires h.Valid() && SessionOk(s, h, r) && SessionOk(sys.Of(Other(r)), h, Other(r))
    ensures Inv(sys.With(r, s, h))
  {
  }

  lemma ListenerAfterSend(s: Session, h: History, r: Role, entry: Sent)
    requires h.Valid() && SessionOk(s, h, Other(r)) && |h.ledgers[Epoch(h, r)].sent| + 1 < U32_SIZE
    ensures var h' := Logged(h, Epoch(h, r), entry);
      h'.Valid() && SessionOk(s, h', Other(r))
  {
    LoggedFacts(h, r, entry);
    SessionFrame(s, h, Logged(h, Epoch(h, r), entry), Other(r));
  }

  lemma SendOutcome(sys: System, r: Role, plaintext: Bytes)
    requires sys.past.Valid()
    ensures var s, h := sys.Of(r), sys.past;
      Apply(sys, Send(r, plaintext))
        == sys.With(r, Encrypt(s, plaintext).0, Logged(h, Epoch(h, r), Sent(plaintext, s.previousCounter)))
  {
  }

  lemma DeliverOutcome(sys: System, r: Role, m: SignalMessage, newKey: KeyId)
    requires sys.past.Valid() && Decrypt(sys.Of(r), m, newKey).1.Ok?
    ensures var s, h := sys.Of(r), sys.past;
      Apply(sys, Deliver(r, m, newKey)) == sys.With(r, Decrypt(s, m, newKey).0, AfterAccept(h, s, m, newKey))
  {
  }

  lemma SendKeepsInv(sys: System, r: Role, plaintext: Bytes)
    requires Inv(sys) && Enabled(sys, Send(r, plaintext))
    ensures Inv(Apply(sys, Send(r, plaintext)))
  {
    var s, h := sys.Of(r), sys.past;
    SenderAfterSend(s, h, r, plaintext);
    ListenerAfterSend(sys.Of(Other(r)), h, r, Sent(plaintext, s.previousCounter));
    BothSidesOk(sys, r, Encrypt(s, plaintext).0, Logged(h, Epoch(h, r), Sent(plaintext, s.previousCounter)));
    SendOutcome(sys, r, plaintext);
  }

  /** What a send returns is the message that the history records. */
  lemma SendReturnsLoggedMessage(sys: System, r: Role, plaintext: Bytes)
    requires Inv(sys) && Enabled(sys, Send(r, plaintext))
    ensures var h' := Apply(sys, Send(r, plaintext)).past;
      var n := Epoch(sys.past, r);
      var i := |sys.past.ledgers[n].sent|;
      && |h'.ledgers[n].sent| == i + 1 && h'.ledgers[n].sent[i].plaintext == plaintext
      && Encrypt(sys.Of(r), plaintext).1.Ok?
      && Inner(Encrypt(sys.Of(r), plaintext).1.value) == MessageAt(h', n, i)
  {
    hide ChainOk;
  }

  /** Acceptance on one chain, seen by that chain. */
  lemma ChainAfterAccept(rc: ReceiverChain, h: History, e: nat, c: u32, h': History)
    requires h.Valid() && h'.Valid() && e < |h.keys| && e < |h'.keys| && c < |h.ledgers[e].sent|
    requires ChainOk(rc, h, e) && Receive(WindowOf(rc), c).Accepted?
    requires h'.keys[e] == h.keys[e] && h'.Chain(e) == h.Chain(e)
    requires h'.ledgers[e] == Received(h, e, c, WindowOf(rc)).ledgers[e]
    ensures ChainOk(TakeKeys(rc, c).0, h', e)
  {
    TakeKeysRefines(rc, h.Chain(e), c);
    ReceiveKeepsExact(WindowOf(rc), h.ledgers[e].floor, h.ledgers[e].taken, c);
  }

  lemma ReceivedFacts(h: History, e: nat, c: nat, w: Window)
    requires h.Valid() && e < |h.keys| - 1
    ensures var h' := Received(h, e, c, w);
      && Extends(h, h')
      && Epoch(h', Initiator) == Epoch(h, Initiator) && Epoch(h', Responder) == Epoch(h, Responder)
      && PreviousCounter(h', Epoch(h, Initiator)) == PreviousCounter(h, Epoch(h, Initiator))
      && PreviousCounter(h', Epoch(h, Responder)) == PreviousCounter(h, Epoch(h, Responder))
      && forall i :: 0 <= i < |h.keys| && i != e ==> SameReceipts(h, h', i)
  {
  }

  lemma ReceiverAfterAccept(s: Session, h: History, r: Role, j: nat, c: u32)
    requires h.Valid() && SessionOk(s, h, r) && j < Kept(Epoch(h, r))
    requires c < |h.ledgers[SlotEpoch(Epoch(h, r), j)].sent|
    requires Receive(WindowOf(s.receivers[j]), c).Accepted?
    ensures var h' := Received(h, SlotEpoch(Epoch(h, r), j), c, WindowOf(s.receivers[j]));
      h'.Valid() && SessionOk(s.(receivers := s.receivers[j := TakeKeys(s.receivers[j], c).0], pending := None), h', r)
  {
    hide Tracks, Exact, TakeKeys, PreviousCounter;
    var n := Epoch(h, r);
    var e, w := SlotEpoch(n, j), WindowOf(s.receivers[j]);
    var h' := Received(h, e, c, w);
    ReceivedFacts(h, e, c, w);
    ChainAfterAccept(s.receivers[j], h, e, c, h');
    var receivers := s.receivers[j := TakeKeys(s.receivers[j], c).0];
    forall i | 0 <= i < Kept(n) ensures ChainOk(receivers[i], h', SlotEpoch(n, i)) {
      if i != j { ChainFrame(s.receivers[i], h, h', SlotEpoch(n, i)); }
    }
  }

  lemma SpeakerAfterAccept(s: Session, h: History, r: Role, e: nat, c: nat, w: Window)
    requires h.Valid() && SessionOk(s, h, Other(r)) && e < |h.keys| - 1 && Speaker(e) == Other(r)
    ensures Received(h, e, c, w).Valid() && SessionOk(s, Received(h, e, c, w), Other(r))
  {
    hide PreviousCounter;
    ReceivedFacts(h, e, c, w);
    SessionFrame(s, h, Received(h, e, c, w), Other(r));
  }

  lemma KnownChainEffect(s: Session, h: History, r: Role, m: SignalMessage, newKey: KeyId)
    requires h.Valid() && SessionOk(s, h, r) && Network(h, m)
    requires FindChain(s.receivers, m.content.ratchetKey) < |s.receivers|
    requires Decrypt(s, m, newKey).1.Ok?
    ensures var j, c := FindChain(s.receivers, m.content.ratchetKey), m.content.counter;
      var e := SlotEpoch(Epoch(h, r), j);
      && c < |h.ledgers[e].sent|
      && Receive(WindowOf(s.receivers[j]), c).Accepted?
      && Decrypt(s, m, newKey).0 == s.(receivers := s.receivers[j := TakeKeys(s.receivers[j], c).0], pending := None)
      && AfterAccept(h, s, m, newKey) == Received(h, e, c, WindowOf(s.receivers[j]))
  {
    var e := SlotEpoch(Epoch(h, r), FindChain(s.receivers, m.content.ratchetKey));
    KnownChainAttempt(s, h, r, m, newKey, e);
    AuthenticOnKnownChain(s, h, r, m, newKey);
    EpochOfKey(h, e);
  }

  lemma AcceptOnKnownChainKeepsInv(sys: System, r: Role, m: SignalMessage, newKey: KeyId)
    requires Inv(sys) && Network(sys.past, m)
    requires FindChain(sys.Of(r).receivers, m.content.ratchetKey) < |sys.Of(r).receivers|
    requires Decrypt(sys.Of(r), m, newKey).1.Ok?
    ensures Inv(Apply(sys, Deliver(r, m, newKey)))
  {
    hide Decrypt;
    var s, h := sys.Of(r), sys.past;
    var j := FindChain(s.receivers, m.content.ratchetKey);
    KnownChainEffect(s, h, r, m, newKey);
    ReceiverAfterAccept(s, h, r, j, m.content.counter);
    SpeakerAfterAccept(sys.Of(Other(r)), h, r, SlotEpoch(Epoch(h, r), j), m.content.counter, WindowOf(s.receivers[j]));
    BothSidesOk(sys, r, Decrypt(s, m, newKey).0, AfterAccept(h, s, m, newKey));
    DeliverOutcome(sys, r, m, newKey);
  }

  // ----------------------------------------------------------------- a ratchet step

  /** Where a slot moves when a chain is pushed. */
  lemma SlotShift(n: nat, j: nat)
    requires j < Kept(n + 2) - 1
    ensures var i := if Kept(n) == MAX_RECEIVER_CHAINS then j + 1 else j;
      i < Kept(n) && SlotEpoch(n + 2, j) == SlotEpoch(n, i)
  {
  }

  lemma RatchetedFacts(h: History, r: Role, c: nat, newKey: KeyId)
    requires h.Valid() && newKey !in h.keys && |h.keys| == Epoch(h, r) + 2
    ensures var n := Epoch(h, r);
      var h' := Ratcheted(Received(h, n + 1, c, Window(0, [])), newKey);
      && Extends(h, h')
      && Epoch(h', r) == n + 2
      && Epoch(h', Other(r)) == Epoch(h, Other(r)) == n + 1
      && forall i :: 0 <= i < n + 1 ==> SameReceipts(h, h', i)
  {
    SpeakersAlternate(Epoch(h, r));
    SpeakersAlternate(Epoch(h, r) + 1);
  }

  lemma NewChainAfterRatchet(h: History, r: Role, c: u32, newKey: KeyId)
    requires h.Valid() && newKey !in h.keys
    requires |h.keys| == Epoch(h, r) + 2
    requires c <= MAX_FORWARD_JUMPS && c < |h.ledgers[Epoch(h, r) + 1].sent|
    ensures var n := Epoch(h, r);
      var h' := Ratcheted(Received(h, n + 1, c, Window(0, [])), newKey);
      var rc := ReceiverChain(h.keys[n + 1], KeyAt(OpenedChain(h, r, h.keys[n + 1]), 0), []);
      h'.Valid() && ChainOk(TakeKeys(rc, c).0, h', n + 1)
  {
    var n := Epoch(h, r);
    var theirs := h.keys[n + 1];
    var rc := ReceiverChain(theirs, KeyAt(OpenedChain(h, r, theirs), 0), []);
    RatchetedFacts(h, r, c, newKey);
    TracksWindow(rc, OpenedChain(h, r, theirs), 0, []);
    EpochPrefix(h.secrets, h.keys, [newKey], n + 1);
    assert ChainOk(rc, h, n + 1);
    ChainAfterAccept(rc, h, n + 1, c, Ratcheted(Received(h, n + 1, c, Window(0, [])), newKey));
  }

  /** An old chain of the accepting party, one slot further down if the oldest was dropped. */
  lemma OldChainAfterRatchet(s: Session, h: History, r: Role, c: u32, newKey: KeyId, j: nat)
    requires h.Valid() && SessionOk(s, h, r) && newKey !in h.keys && |h.keys| == Epoch(h, r) + 2
    requires j < Kept(Epoch(h, r) + 2) - 1
    ensures var n := Epoch(h, r);
      var h' := Ratcheted(Received(h, n + 1, c, Window(0, [])), newKey);
      var i := if Kept(n) == MAX_RECEIVER_CHAINS then j + 1 else j;
      h'.Valid() && i < |s.receivers| && ChainOk(s.receivers[i], h', SlotEpoch(n + 2, j))
  {
    hide Tracks, Exact, PreviousCounter;
    var n := Epoch(h, r);
    RatchetedFacts(h, r, c, newKey);
    SlotShift(n, j);
    var i := if Kept(n) == MAX_RECEIVER_CHAINS then j + 1 else j;
    ChainFrame(s.receivers[i], h, Ratcheted(Received(h, n + 1, c, Window(0, [])), newKey), SlotEpoch(n, i));
  }

  /** The chains of the accepting party after it opened and used a new one. */
  lemma ChainsAfterRatchet(s: Session, h: History, r: Role, c: u32, newKey: KeyId)
    requires h.Valid() && SessionOk(s, h, r) && newKey !in h.keys
    requires |h.keys| == Epoch(h, r) + 2
    requires c <= MAX_FORWARD_JUMPS && c < |h.ledgers[Epoch(h, r) + 1].sent|
    ensures var n := Epoch(h, r);
      var h' := Ratcheted(Received(h, n + 1, c, Window(0, [])), newKey);
      var rc := ReceiverChain(h.keys[n + 1], KeyAt(OpenedChain(h, r, h.keys[n + 1]), 0), []);
      var q := PushChain(s.receivers, rc);
      var receivers := q[|q| - 1 := TakeKeys(rc, c).0];
      && h'.Valid() && |receivers| == Kept(n + 2)
      && forall j :: 0 <= j < Kept(n + 2) ==> ChainOk(receivers[j], h', SlotEpoch(n + 2, j))
  {
    hide Tracks, Exact, TakeKeys, PreviousCounter;
    var n := Epoch(h, r);
    var theirs := h.keys[n + 1];
    var h' := Ratcheted(Received(h, n + 1, c, Window(0, [])), newKey);
    var rc := ReceiverChain(theirs, KeyAt(OpenedChain(h, r, theirs), 0), []);
    RatchetedFacts(h, r, c, newKey);
    NewChainAfterRatchet(h, r, c, newKey);
    var q := PushChain(s.receivers, rc);
    var receivers := q[|q| - 1 := TakeKeys(rc, c).0];
    forall j | 0 <= j < Kept(n + 2) ensures ChainOk(receivers[j], h', SlotEpoch(n + 2, j)) {
      if j < Kept(n + 2) - 1 { OldChainAfterRatchet(s, h, r, c, newKey, j); }
    }
  }

  /** The accepting party moves two epochs on, to a chain of its own. */
  lemma SessionAfterRatchet(s: Session, h: History, r: Role, c: u32, newKey: KeyId)
    requires h.Valid() && SessionOk(s, h, r) && newKey !in h.keys
    requires |h.keys| == Epoch(h, r) + 2
    requires c <= MAX_FORWARD_JUMPS && c < |h.ledgers[Epoch(h, r) + 1].sent|
    ensures var n := Epoch(h, r);
      var h' := Ratcheted(Received(h, n + 1, c, Window(0, [])), newKey);
      var rc := ReceiverChain(h.keys[n + 1], KeyAt(OpenedChain(h, r, h.keys[n + 1]), 0), []);
      var s1 := RatchetStep(s, h.keys[n + 1], newKey);
      s1.receivers == PushChain(s.receivers, rc)
      && h'.Valid()
      && SessionOk(s1.(receivers := s1.receivers[|s1.receivers| - 1 := TakeKeys(rc, c).0], pending := None), h', r)
  {
    hide ChainOk;
    var n := Epoch(h, r);
    var h' := Ratcheted(Received(h, n + 1, c, Window(0, [])), newKey);
    ChainsAfterRatchet(s, h, r, c, newKey);
    RatchetedFacts(h, r, c, newKey);
    EpochPrefix(h.secrets, h.keys, [newKey], n + 1);
    AgreeInjective(h.keys[n + 1], newKey, newKey);
    assert RootAt(h'.secrets, h'.keys, n + 2) == RatchetStep(s, h.keys[n + 1], newKey).root;
  }

  lemma SpeakerAfterRatchet(s: Session, h: History, r: Role, c: nat, newKey: KeyId)
    requires h.Valid() && SessionOk(s, h, Other(r)) && newKey !in h.keys && |h.keys| == Epoch(h, r) + 2
    ensures var h' := Ratcheted(Received(h, Epoch(h, r) + 1, c, Window(0, [])), newKey);
      h'.Valid() && SessionOk(s, h', Other(r))
  {
    RatchetedFacts(h, r, c, newKey);
    SessionFrame(s, h, Ratcheted(Received(h, Epoch(h, r) + 1, c, Window(0, [])), newKey), Other(r));
  }

  lemma NewChainEffect(s: Session, h: History, r: Role, m: SignalMessage, newKey: KeyId)
    requires h.Valid() && SessionOk(s, h, r) && Network(h, m)
    requires FindChain(s.receivers, m.content.ratchetKey) == |s.receivers|
    requires Decrypt(s, m, newKey).1.Ok?
    ensures var n, c := Epoch(h, r), m.content.counter;
      && |h.keys| == n + 2
      && c <= MAX_FORWARD_JUMPS && c < |h.ledgers[n + 1].sent|
      && m.content.ratchetKey == h.keys[n + 1]
      && AfterAccept(h, s, m, newKey) == Ratcheted(Received(h, n + 1, c, Window(0, [])), newKey)
  {
    AuthenticOnNewChain(s, h, r, m, newKey);
    EpochOfKey(h, Epoch(h, r) + 1);
  }

  lemma AcceptorAfterRatchet(s: Session, h: History, r: Role, m: SignalMessage, newKey: KeyId)
    requires h.Valid() && SessionOk(s, h, r) && Network(h, m) && newKey !in h.keys
    requires FindChain(s.receivers, m.content.ratchetKey) == |s.receivers|
    requires Decrypt(s, m, newKey).1.Ok?
    ensures AfterAccept(h, s, m, newKey).Valid()
    ensures SessionOk(Decrypt(s, m, newKey).0, AfterAccept(h, s, m, newKey), r)
  {
    NewChainEffect(s, h, r, m, newKey);
    NewChainAttempt(s, h, r, m, newKey);
    SessionAfterRatchet(s, h, r, m.content.counter, newKey);
  }

  lemma AcceptOnNewChainKeepsInv(sys: System, r: Role, m: SignalMessage, newKey: KeyId)
    requires Inv(sys) && Network(sys.past, m) && newKey !in sys.past.keys
    requires FindChain(sys.Of(r).receivers, m.content.ratchetKey) == |sys.Of(r).receivers|
    requires Decrypt(sys.Of(r), m, newKey).1.Ok?
    ensures Inv(Apply(sys, Deliver(r, m, newKey)))
  {
    hide Decrypt;
    var s, h := sys.Of(r), sys.past;
    AcceptorAfterRatchet(s, h, r, m, newKey);
    NewChainEffect(s, h, r, m, newKey);
    SpeakerAfterRatchet(sys.Of(Other(r)), h, r, m.content.counter, newKey);
    BothSidesOk(sys, r, Decrypt(s, m, newKey).0, AfterAccept(h, s, m, newKey));
    DeliverOutcome(sys, r, m, newKey);
  }
}
