/** Whole runs of the two-party system of `Lockstep`. */
module Runs {
  import opened Prelude
  import opened Crypto
  import opened Ratchet
  import opened Session
  import opened SkippedKeys
  import opened ReceiverChains
  import opened Lockstep

  lemma StepKeepsInv(sys: System, step: Step)
    requires Inv(sys) && Enabled(sys, step)
    ensures Inv(Apply(sys, step))
  {
    hide Decrypt;
    match step
    case Send(r, plaintext) => SendKeepsInv(sys, r, plaintext);
    case Deliver(r, m, newKey) =>
      if Decrypt(sys.Of(r), m, newKey).1.Ok? {
        if FindChain(sys.Of(r).receivers, m.content.ratchetKey) < |sys.Of(r).receivers| {
          AcceptOnKnownChainKeepsInv(sys, r, m, newKey);
        } else {
          AcceptOnNewChainKeepsInv(sys, r, m, newKey);
        }
      }
  }

  /** `steps` is a run from `sys` that ends in `end`. */
  ghost predicate Run(sys: System, steps: seq<Step>, end: System)
    decreases |steps|
  {
    if steps == [] then sys == end
    else sys.past.Valid() && Enabled(sys, steps[0]) && Run(Apply(sys, steps[0]), steps[1..], end)
  }

  /** In every run both sessions stay functions of one history, one ratchet step apart. */
  lemma {:induction false} RunKeepsInv(sys: System, steps: seq<Step>, end: System)
    requires Inv(sys) && Run(sys, steps, end)
    ensures Inv(end)
    decreases |steps|
  {
    if steps != [] {
      StepKeepsInv(sys, steps[0]);
      RunKeepsInv(Apply(sys, steps[0]), steps[1..], end);
    }
  }

  /** What the invariant says about the two root keys: the party that is ahead holds the root
      that the other one reaches by one ratchet step with both current ratchet keys. */
  lemma OneStepApart(sys: System)
    requires Inv(sys)
    ensures var ahead := Speaker(|sys.past.keys| - 1);
      var a, b := sys.Of(ahead), sys.Of(Other(ahead));
      && a.sender.Some? && b.sender.Some?
      && a.root == CreateChain(CURRENT_VERSION, b.root, a.sender.value.ratchetKey, b.sender.value.ratchetKey).0
  {
    SpeakersAlternate(|sys.past.keys| - 2);
  }

  // ------------------------------------------------------------------- growing pasts

  /** Nothing that was sent or accepted is ever forgotten, and no floor ever falls. */
  ghost predicate Grows(h: History, h': History) {
    && Extends(h, h')
    && forall e :: 0 <= e < |h.keys| ==> LedgerGrows(h.ledgers[e], h'.ledgers[e])
  }

  ghost predicate LedgerGrows(l: Ledger, l': Ledger) {
    l.sent <= l'.sent && l.taken <= l'.taken && l.floor <= l'.floor && l.next <= l'.next
  }

  lemma GrowsTransitively(h: History, h': History, h'': History)
    requires Grows(h, h') && Grows(h', h'')
    ensures Grows(h, h'')
  {
    forall e | 0 <= e < |h.keys| ensures LedgerGrows(h.ledgers[e], h''.ledgers[e]) {
      assert LedgerGrows(h.ledgers[e], h'.ledgers[e]) && LedgerGrows(h'.ledgers[e], h''.ledgers[e]);
    }
  }

  lemma LoggedGrows(h: History, n: nat, entry: Sent)
    requires h.Valid() && n < |h.keys| && Logged(h, n, entry).Valid()
    ensures Grows(h, Logged(h, n, entry))
  {
  }

  lemma ReceivedGrows(h: History, e: nat, c: nat, w: Window)
    requires h.Valid() && e < |h.keys| && Exact(w, h.ledgers[e].floor, h.ledgers[e].taken)
    ensures Received(h, e, c, w).Valid() ==> Grows(h, Received(h, e, c, w))
    ensures forall k: KeyId :: Ratcheted(Received(h, e, c, w), k).Valid() ==>
      Grows(h, Ratcheted(Received(h, e, c, w), k))
  {
    FloorNeverFalls(w, h.ledgers[e].floor, h.ledgers[e].taken, c);
  }

  lemma AcceptGrows(h: History, s: Session, r: Role, m: SignalMessage, newKey: KeyId)
    requires h.Valid() && SessionOk(s, h, r) && Network(h, m) && Decrypt(s, m, newKey).1.Ok?
    requires AfterAccept(h, s, m, newKey).Valid()
    ensures Grows(h, AfterAccept(h, s, m, newKey))
  {
    hide Decrypt, Network, Grows, Tracks;
    var j, c := FindChain(s.receivers, m.content.ratchetKey), m.content.counter;
    if j < |s.receivers| {
      var e := SlotEpoch(Epoch(h, r), j);
      KnownChainEffect(s, h, r, m, newKey);
      assert ChainOk(s.receivers[j], h, e);
      ReceivedGrows(h, e, c, WindowOf(s.receivers[j]));
    } else {
      NewChainEffect(s, h, r, m, newKey);
      ReceivedGrows(h, Epoch(h, r) + 1, c, Window(0, []));
    }
  }

  lemma StepGrows(sys: System, step: Step)
    requires Inv(sys) && Enabled(sys, step)
    ensures Grows(sys.past, Apply(sys, step).past)
  {
    hide Decrypt, Encrypt, SessionOk;
    StepKeepsInv(sys, step);
    match step
    case Send(r, plaintext) =>
      SendOutcome(sys, r, plaintext);
      LoggedGrows(sys.past, Epoch(sys.past, r), Sent(plaintext, sys.Of(r).previousCounter));
    case Deliver(r, m, newKey) =>
      if Decrypt(sys.Of(r), m, newKey).1.Ok? {
        DeliverOutcome(sys, r, m, newKey);
        AcceptGrows(sys.past, sys.Of(r), r, m, newKey);
      }
  }

  lemma {:induction false} RunGrows(sys: System, steps: seq<Step>, end: System)
    requires Inv(sys) && Run(sys, steps, end)
    ensures Grows(sys.past, end.past)
    decreases |steps|
  {
    if steps != [] {
      var next := Apply(sys, steps[0]);
      StepKeepsInv(sys, steps[0]);
      StepGrows(sys, steps[0]);
      RunGrows(next, steps[1..], end);
      GrowsTransitively(sys.past, next.past, end.past);
    }
  }

  /** The identity of a sent message does not change as the history grows. */
  lemma MessageStays(h: History, h': History, e: nat, i: nat)
    requires Grows(h, h') && e < |h.keys| && i < |h.ledgers[e].sent|
    ensures i < |h'.ledgers[e].sent| && MessageAt(h', e, i) == MessageAt(h, e, i)
  {
    assert h'.keys == h.keys + h'.keys[|h.keys|..];
    EpochPrefix(h.secrets, h.keys, h'.keys[|h.keys|..], e);
  }

  /** An accepted message is one the peer sent, and the history remembers its acceptance. */
  lemma AcceptanceIsRemembered(sys: System, r: Role, m: SignalMessage, k: KeyId)
    requires Inv(sys) && Enabled(sys, Deliver(r, m, k)) && Decrypt(sys.Of(r), m, k).1.Ok?
    ensures var h, h' := sys.past, Apply(sys, Deliver(r, m, k)).past;
      var e, i := IndexOf(h.keys, m.content.ratchetKey), m.content.counter;
      && e < |h.keys| && Speaker(e) == Other(r) && i < |h.ledgers[e].sent|
      && m == MessageAt(h, e, i)
      && e < |h'.ledgers| && i in h'.ledgers[e].taken
  {
    hide Decrypt, SessionOk, Network;
    Authenticity(sys, r, m, k);
    DeliverOutcome(sys, r, m, k);
  }

  /** The skipped-key cache of every retained chain, at the end of every run: in strict counter
      order, at most 2000 entries, exactly the skipped and unconsumed counters from the floor
      on, and each entry is the key recomputed from the start of the peer's chain. */
  lemma CachesAreExact(sys: System, steps: seq<Step>, end: System, r: Role, j: nat)
    requires Inv(sys) && Run(sys, steps, end) && j < |end.Of(r).receivers|
    ensures end.past.Valid() && j < Kept(Epoch(end.past, r))
    ensures var e, rc := SlotEpoch(Epoch(end.past, r), j), end.Of(r).receivers[j];
      var l, counters := end.past.ledgers[e], WindowOf(rc).cached;
      && rc.skipped == Cache(end.past.Chain(e), counters)
      && Ascending(counters) && |counters| <= 2000
      && (forall c: nat :: c in counters <==> l.floor <= c < l.next && c !in l.taken)
  {
    RunKeepsInv(sys, steps, end);
    assert ChainOk(end.Of(r).receivers[j], end.past, SlotEpoch(Epoch(end.past, r), j));
  }

  /** No message is accepted twice, whatever happens in between. */
  lemma NoReplay(sys: System, r: Role, m: SignalMessage, k: KeyId, steps: seq<Step>, end: System, k': KeyId)
    requires Inv(sys) && Enabled(sys, Deliver(r, m, k)) && Decrypt(sys.Of(r), m, k).1.Ok?
    requires Run(Apply(sys, Deliver(r, m, k)), steps, end)
    ensures Decrypt(end.Of(r), m, k').1.Err?
  {
    var e, i := IndexOf(sys.past.keys, m.content.ratchetKey), m.content.counter;
    AcceptanceIsRemembered(sys, r, m, k);
    StepGrows(sys, Deliver(r, m, k));
    StepKeepsInv(sys, Deliver(r, m, k));
    RunKeepsInv(Apply(sys, Deliver(r, m, k)), steps, end);
    RunGrows(Apply(sys, Deliver(r, m, k)), steps, end);
    TakenIsRejected(sys.past, Apply(sys, Deliver(r, m, k)).past, end, r, e, i, k');
  }

  lemma TakenIsRejected(h: History, h': History, end: System, r: Role, e: nat, i: nat, k: KeyId)
    requires Grows(h, h') && Grows(h', end.past) && Inv(end)
    requires e < |h.keys| && Speaker(e) == Other(r) && i < |h.ledgers[e].sent| && i in h'.ledgers[e].taken
    ensures Decrypt(end.Of(r), MessageAt(h, e, i), k).1.Err?
  {
    GrowsTransitively(h, h', end.past);
    MessageStays(h, end.past, e, i);
    DeliveryIff(end, r, e, i, k);
  }

  /** First delivery: a message sent at any point of a run and delivered at any later point
      at which it is deliverable decrypts to exactly the plaintext that was encrypted. */
  lemma FirstDelivery(sys: System, r: Role, plaintext: Bytes, steps: seq<Step>, end: System, k: KeyId)
    requires Inv(sys) && Enabled(sys, Send(r, plaintext))
    requires Run(Apply(sys, Send(r, plaintext)), steps, end)
    ensures var n := Epoch(sys.past, r);
      var i := |sys.past.ledgers[n].sent|;
      var wire := Encrypt(sys.Of(r), plaintext).1;
      && end.past.Valid()
      && wire.Ok?
      && (Decrypt(end.Of(Other(r)), Inner(wire.value), k).1.Ok? <==> Deliverable(end.past, Other(r), n, i))
      && (Deliverable(end.past, Other(r), n, i) ==>
        Decrypt(end.Of(Other(r)), Inner(wire.value), k).1 == Ok(plaintext))
  {
    var mid := Apply(sys, Send(r, plaintext));
    var n := Epoch(sys.past, r);
    var i := |sys.past.ledgers[n].sent|;
    StepKeepsInv(sys, Send(r, plaintext));
    RunKeepsInv(mid, steps, end);
    RunGrows(mid, steps, end);
    SendReturnsLoggedMessage(sys, r, plaintext);
    assert LedgerGrows(mid.past.ledgers[n], end.past.ledgers[n]);
    MessageStays(mid.past, end.past, n, i);
    DeliveryIff(end, Other(r), n, i, k);
  }

  // ---------------------------------------------------------------------- reordering

  /** Delivering the counters of `order` of epoch `e` one after the other succeeds each time
      and yields each plaintext. */
  ghost predicate AllDelivered(sys: System, r: Role, e: nat, order: seq<nat>, newKeys: seq<KeyId>)
    decreases |order|
  {
    order == [] ||
    (&& sys.past.Valid() && e < |sys.past.keys| && |newKeys| == |order|
     && order[0] < |sys.past.ledgers[e].sent|
     && (var m := MessageAt(sys.past, e, order[0]);
         && Decrypt(sys.Of(r), m, newKeys[0]).1 == Ok(sys.past.ledgers[e].sent[order[0]].plaintext)
         && AllDelivered(Apply(sys, Deliver(r, m, newKeys[0])), r, e, order[1..], newKeys[1..])))
  }

  /** What one delivery does to the ledger of its epoch. */
  lemma LedgerAfterDelivery(sys: System, r: Role, e: nat, c: nat, newKey: KeyId, from: nat)
    requires Inv(sys) && Deliverable(sys.past, r, e, c) && newKey !in sys.past.keys
    requires sys.past.ledgers[e].floor <= from <= c < from + MAX_MESSAGE_KEYS + 1
    requires from <= sys.past.ledgers[e].next
    ensures var h' := Apply(sys, Deliver(r, MessageAt(sys.past, e, c), newKey)).past;
      && e < |h'.ledgers| == |h'.keys|
      && h'.ledgers[e].sent == sys.past.ledgers[e].sent
      && h'.ledgers[e].taken == sys.past.ledgers[e].taken + {c}
      && h'.ledgers[e].floor <= from <= h'.ledgers[e].next
      && (h'.keys == sys.past.keys || h'.keys == sys.past.keys + [newKey])
      && (e > Epoch(sys.past, r) ==> |h'.keys| == e + 2)
      && (e < Epoch(sys.past, r) ==> h'.keys == sys.past.keys)
  {
    hide Decrypt, PreviousCounter;
    var s, h, m := sys.Of(r), sys.past, MessageAt(sys.past, e, c);
    DeliveryIff(sys, r, e, c, newKey);
    DeliverOutcome(sys, r, m, newKey);
    EpochOfKey(h, e);
    EpochLookup(s, h, r, e);
    if e < Epoch(h, r) {
      var j := FindChain(s.receivers, h.keys[e]);
      assert ChainOk(s.receivers[j], h, e);
      FloorStaysBelow(WindowOf(s.receivers[j]), h.ledgers[e].floor, h.ledgers[e].taken, c, from);
    } else {
      FloorStaysBelow(Window(0, []), 0, {}, c, from);
    }
  }

  lemma HonestMessageTravels(h: History, e: nat, i: nat)
    requires h.Valid() && e < |h.keys| && i < |h.ledgers[e].sent|
    ensures Network(h, MessageAt(h, e, i))
  {
  }

  /** Any order of up to 2001 consecutive messages of one chain, from the receiver's next
      counter on and each delivered once, is decrypted completely. */
  lemma {:induction false} AnyOrderIsDelivered(
    sys: System, r: Role, e: nat, from: nat, count: nat, order: seq<nat>, newKeys: seq<KeyId>)
    requires Inv(sys) && e < |sys.past.keys| && Speaker(e) == Other(r)
    requires e + 2 * MAX_RECEIVER_CHAINS > Epoch(sys.past, r)
    requires count <= MAX_MESSAGE_KEYS + 1 && from + count <= |sys.past.ledgers[e].sent|
    requires sys.past.ledgers[e].floor <= from <= sys.past.ledgers[e].next
    requires DistinctWithin(order, from, count)
    requires forall i :: 0 <= i < |order| ==> order[i] !in sys.past.ledgers[e].taken
    requires |newKeys| == |order|
    requires forall i :: 0 <= i < |newKeys| ==> newKeys[i] !in sys.past.keys
    requires forall i, j :: 0 <= i < j < |newKeys| ==> newKeys[i] != newKeys[j]
    ensures AllDelivered(sys, r, e, order, newKeys)
    decreases |order|
  {
    hide Decrypt, Apply, MessageAt, SessionOk;
    if order != [] {
      var c, h := order[0], sys.past;
      var m := MessageAt(h, e, c);
      DeliveryIff(sys, r, e, c, newKeys[0]);
      LedgerAfterDelivery(sys, r, e, c, newKeys[0], from);
      HonestMessageTravels(h, e, c);
      StepKeepsInv(sys, Deliver(r, m, newKeys[0]));
      AnyOrderIsDelivered(Apply(sys, Deliver(r, m, newKeys[0])), r, e, from, count, order[1..], newKeys[1..]);
    }
  }
}
