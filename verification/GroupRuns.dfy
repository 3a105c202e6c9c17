/** A sender and any number of members who join at different iterations. */
module GroupRuns {
  import opened Prelude
  import opened Crypto
  import opened SkippedKeys
  import opened SenderKeys

  function GroupNth(c: GroupSecret, i: nat): GroupSecret {
    if i == 0 then c else NextSeed(GroupNth(c, i - 1))
  }

  function GroupKeyAt(c: GroupSecret, i: nat): SenderChainKey { SenderChainKey(i, GroupNth(c, i)) }

  /** The list that holds the keys of the given iterations, oldest first. */
  function GroupCache(c: GroupSecret, iterations: seq<nat>): (r: seq<SenderMessageKey>)
    ensures |r| == |iterations|
    ensures forall j :: 0 <= j < |r| ==> r[j] == MessageKeyOf(GroupKeyAt(c, iterations[j]))
  {
    seq(|iterations|, j requires 0 <= j < |iterations| => MessageKeyOf(GroupKeyAt(c, iterations[j])))
  }

  function GroupWindow(st: GroupState): Window {
    Window(st.chainKey.iteration,
      seq(|st.messageKeys|, j requires 0 <= j < |st.messageKeys| => st.messageKeys[j].iteration))
  }

  /** Every key a state holds is the sender's own key for that iteration. */
  ghost predicate GroupTracks(st: GroupState, c: GroupSecret) {
    st.chainKey == GroupKeyAt(c, st.chainKey.iteration) && st.messageKeys == GroupCache(c, GroupWindow(st).cached)
  }

  lemma GroupTracksWindow(st: GroupState, c: GroupSecret, next: nat, cached: seq<nat>)
    requires st.chainKey == GroupKeyAt(c, next) && st.messageKeys == GroupCache(c, cached)
    ensures GroupTracks(st, c) && GroupWindow(st) == Window(next, cached)
  {
    assert GroupWindow(st).cached == cached;
  }

  lemma GroupPushRefines(c: GroupSecret, cached: seq<nat>, i: nat)
    requires |cached| <= MAX_MESSAGE_KEYS
    ensures AddMessageKey(GroupCache(c, cached), MessageKeyOf(GroupKeyAt(c, i))) == GroupCache(c, Push(cached, i))
  {
    assert GroupCache(c, cached) + [MessageKeyOf(GroupKeyAt(c, i))] == GroupCache(c, cached + [i]);
  }

  lemma {:induction false} GroupSkipRefines(c: GroupSecret, cached: seq<nat>, from: nat, upto: u32)
    requires from <= upto && |cached| <= MAX_MESSAGE_KEYS
    ensures SkipMessageKeys(GroupKeyAt(c, from), GroupCache(c, cached), upto)
         == (GroupKeyAt(c, upto), GroupCache(c, SkipTo(cached, from, upto)))
    decreases upto - from
  {
    if from < upto {
      GroupPushRefines(c, cached, from);
      assert NextKey(GroupKeyAt(c, from)) == GroupKeyAt(c, from + 1);
      GroupSkipRefines(c, Push(cached, from), from + 1, upto);
    }
  }

  lemma GroupFindRefines(c: GroupSecret, cached: seq<nat>, i: nat)
    ensures FindMessageKey(GroupCache(c, cached), i) == IndexOf(cached, i)
    ensures i in cached <==> IndexOf(cached, i) < |cached|
    ensures i in cached ==>
      RemoveAt(GroupCache(c, cached), IndexOf(cached, i)) == GroupCache(c, RemoveAt(cached, IndexOf(cached, i)))
  {
    var p, q := FindMessageKey(GroupCache(c, cached), i), IndexOf(cached, i);
    assert p <= q && q <= p;
  }

  /** `get_sender_key` answers exactly as the window does and hands out the sender's own key. */
  lemma TakeSenderKeyRefines(st: GroupState, c: GroupSecret, i: u32)
    requires GroupTracks(st, c) && |st.messageKeys| <= MAX_MESSAGE_KEYS
    ensures var (after, k) := TakeSenderKey(st, i);
      match Receive(GroupWindow(st), i)
      case Accepted(w) =>
        && k == Ok(MessageKeyOf(GroupKeyAt(c, i)))
        && (i + 1 < U32_SIZE ==> GroupTracks(after, c) && GroupWindow(after) == w)
        && after.id == st.id && after.signingKey == st.signingKey
      case Duplicate => k == Err(DuplicatedMessage(st.chainKey.iteration, i))
      case TooFar => k == Err(TooFarIntoTheFuture)
  {
    var w := GroupWindow(st);
    var after := TakeSenderKey(st, i).0;
    if i < w.next {
      GroupFindRefines(c, w.cached, i);
      if i in w.cached {
        GroupTracksWindow(after, c, w.next, RemoveAt(w.cached, IndexOf(w.cached, i)));
      }
    } else if i - w.next <= MAX_FORWARD_JUMPS {
      GroupSkipRefines(c, w.cached, w.next, i);
      if i + 1 < U32_SIZE {
        assert NextKey(GroupKeyAt(c, i)) == GroupKeyAt(c, i + 1);
        GroupTracksWindow(after, c, i + 1, SkipTo(w.cached, w.next, i));
      }
    }
  }

  // ---------------------------------------------------------------------- the group

  /** A member's store and its past: the iteration it joined at, what it accepted since, its
      floor, and how many distribution messages of other ids it processed since. */
  datatype Member = Member(store: GroupStore, start: nat, taken: set<nat>, floor: nat, others: nat)

  /** One sender key: its chain, its messages, the distribution messages issued so far (by
      iteration) and the members who processed one. */
  datatype Group = Group(
    name: nat, id: nat, seed: GroupSecret, signingKey: KeyId,
    sender: GroupStore, sent: seq<Bytes>, issued: set<nat>, members: map<nat, Member>)

  /** The state that a member holds for the sender's key: newer states of other ids precede it. */
  ghost predicate StateOk(st: GroupState, floor: nat, taken: set<nat>, g: Group) {
    && st.id == g.id && st.signingKey == g.signingKey
    && GroupTracks(st, g.seed)
    && GroupWindow(st).next <= |g.sent|
    && Exact(GroupWindow(st), floor, taken)
  }

  /** The queue holds the state behind one state per later distribution message, and has lost
      it after the fifth of them. */
  ghost predicate MemberOk(m: Member, g: Group) {
    && g.name in m.store && |m.store[g.name]| <= MAX_SENDER_KEY_STATES
    && m.start <= m.floor
    && var states := m.store[g.name];
      if m.others < MAX_SENDER_KEY_STATES
      then FindState(states, g.id) == m.others < |states| && StateOk(states[m.others], m.floor, m.taken, g)
      else FindState(states, g.id) == |states|
  }

  /** The member's state for the sender's key, while it has one. */
  function Held(m: Member, g: Group): GroupState
    requires g.name in m.store && m.others < |m.store[g.name]|
  {
    m.store[g.name][m.others]
  }

  ghost predicate GroupInv(g: Group) {
    && |g.sent| < U32_SIZE
    && g.name in g.sender
    && g.sender[g.name] == [GroupState(g.id, GroupKeyAt(g.seed, |g.sent|), g.signingKey, Some(g.signingKey), [])]
    && (forall i :: i in g.issued ==> i <= |g.sent|)
    && (forall u :: u in g.members ==> MemberOk(g.members[u], g))
  }

  function GroupMessageAt(g: Group, i: nat): SenderKeyMessage
    requires i < |g.sent| && i < U32_SIZE
  {
    var k := MessageKeyOf(GroupKeyAt(g.seed, i));
    var body := GroupCbc(CipherKey(k), Iv(k), g.sent[i]);
    SenderKeyMessage(g.id, i, body, Signed(g.signingKey, g.id, i, body))
  }

  /** The network repeats, reorders, drops and alters; it cannot sign for the sender. */
  ghost predicate GroupNetwork(g: Group, m: SenderKeyMessage)
    requires |g.sent| < U32_SIZE
  {
    || m.signature.Unverifiable? || m.signature.signer != g.signingKey
    || exists i :: 0 <= i < |g.sent| && m.signature == GroupMessageAt(g, i).signature
  }

  datatype GroupStep =
    | Speak(plaintext: Bytes)
    | Issue
    | Join(who: nat, store: GroupStore, at: nat)
    | Learn(who: nat, distribution: Distribution)
    | Hear(who: nat, message: SenderKeyMessage)

  /** A member joins, the first time with any store of its own, by a distribution message that
      was issued at any earlier time; it may do so again.  It may learn any other key id. */
  ghost predicate Enabled(g: Group, step: GroupStep)
    requires |g.sent| < U32_SIZE
  {
    match step
    case Speak(_) => |g.sent| + 1 < U32_SIZE
    case Issue => true
    case Join(_, _, at) => at in g.issued
    case Learn(u, d) => u in g.members && d.id != g.id
    case Hear(u, m) => u in g.members && GroupNetwork(g, m)
  }

  /** What `create_sender_key_distribution_message` issued at iteration `at`. */
  function IssuedAt(g: Group, at: nat): Distribution { Distribution(g.id, at, GroupNth(g.seed, at), g.signingKey) }

  /** A member after a message of the sender's id was presented to it. */
  function AfterHearing(g: Group, member: Member, m: SenderKeyMessage): Member {
    var (store, r) := GroupDecryptAt(member.store, g.name, m);
    if r.Err? || m.keyId != g.id || g.name !in member.store || member.others >= |member.store[g.name]|
      then member.(store := store)
    else
      var w := GroupWindow(Held(member, g));
      member.(store := store, taken := member.taken + {m.iteration}, floor := FloorAfter(w, member.floor, m.iteration))
  }

  function Advance(g: Group, step: GroupStep): Group {
    match step
    case Speak(plaintext) => g.(sender := GroupEncryptAt(g.sender, g.name, plaintext).0, sent := g.sent + [plaintext])
    case Issue => g.(issued := g.issued + {CreateDistributionAt(g.sender, g.name, 0, Seed(0), 0).1.iteration})
    case Join(u, store, at) =>
      var before := if u in g.members then g.members[u].store else store;
      g.(members := g.members[u := Member(ProcessDistributionAt(before, g.name, IssuedAt(g, at)), at, {}, at, 0)])
    case Learn(u, d) =>
      if u !in g.members then g
      else
        var member := g.members[u];
        g.(members := g.members[u := member.(store := ProcessDistributionAt(member.store, g.name, d),
          others := member.others + 1)])
    case Hear(u, m) => if u !in g.members then g else g.(members := g.members[u := AfterHearing(g, g.members[u], m)])
  }

  /** A distribution message issued by the sender is the sender's key at that iteration. */
  lemma IssuedIsCurrentKey(g: Group)
    requires GroupInv(g)
    ensures CreateDistributionAt(g.sender, g.name, 0, Seed(0), 0) == (g.sender, IssuedAt(g, |g.sent|))
  {
  }

  /** How a member that holds the state answers any message of the sender's key id. */
  lemma MemberAttempt(g: Group, member: Member, m: SenderKeyMessage)
    requires MemberOk(member, g) && member.others < MAX_SENDER_KEY_STATES && m.keyId == g.id
      && SignedBy(m, g.signingKey)
    ensures var st := Held(member, g);
      && GroupDecryptAt(member.store, g.name, m).1 ==
        (match Receive(GroupWindow(st), m.iteration)
         case Accepted(_) => OpenGroup(m, MessageKeyOf(GroupKeyAt(g.seed, m.iteration)))
         case Duplicate => Err(DuplicatedMessage(GroupWindow(st).next, m.iteration))
         case TooFar => Err(TooFarIntoTheFuture))
      && (GroupDecryptAt(member.store, g.name, m).1.Ok? ==>
        GroupDecryptAt(member.store, g.name, m).0
          == member.store[g.name := member.store[g.name][member.others := TakeSenderKey(st, m.iteration).0]])
  {
    TakeSenderKeyRefines(Held(member, g), g.seed, m.iteration);
  }

  /** Until the fifth distribution message of other ids since it joined, a member derives the
      sender's own key for every iteration at or after its start that is in reach and was not
      accepted, and reports a duplicate for every earlier one; after it, there is no state. */
  lemma MemberHearsIff(g: Group, u: nat, i: nat)
    requires GroupInv(g) && u in g.members && i < |g.sent|
    ensures var member := g.members[u];
      var r := GroupDecryptAt(member.store, g.name, GroupMessageAt(g, i)).1;
      if member.others >= 5 then r == Err(NoSenderKeyState)
      else
        var next := GroupWindow(Held(member, g)).next;
        && (r.Ok? <==> i !in member.taken && member.floor <= i <= next + 2000)
        && (r.Ok? ==> r == Ok(g.sent[i]))
        && (i < member.start ==> r == Err(DuplicatedMessage(next, i)))
        && (r.Err? && i < next ==> r == Err(DuplicatedMessage(next, i)))
  {
    var member := g.members[u];
    assert MemberOk(member, g);
    if member.others < MAX_SENDER_KEY_STATES {
      MemberAttempt(g, member, GroupMessageAt(g, i));
      AcceptanceCondition(GroupWindow(Held(member, g)), member.floor, member.taken, i);
    }
  }

  /** A message a member accepts under the sender's key id was sent by the sender, unaltered. */
  lemma GroupAuthenticity(g: Group, u: nat, m: SenderKeyMessage)
    requires GroupInv(g) && u in g.members && GroupNetwork(g, m) && m.keyId == g.id
    requires GroupDecryptAt(g.members[u].store, g.name, m).1.Ok?
    ensures m.iteration < |g.sent| && m == GroupMessageAt(g, m.iteration)
    ensures m.iteration !in g.members[u].taken && g.members[u].others < MAX_SENDER_KEY_STATES
    ensures GroupDecryptAt(g.members[u].store, g.name, m).1 == Ok(g.sent[m.iteration])
  {
    assert MemberOk(g.members[u], g);
    assert SignedBy(m, g.signingKey);
    var i :| 0 <= i < |g.sent| && m.signature == GroupMessageAt(g, i).signature;
    assert m == GroupMessageAt(g, i);
    MemberHearsIff(g, u, i);
  }

  /** A failed group decryption leaves the store unchanged. */
  lemma FailedGroupDecryptChangesNothing(store: GroupStore, name: nat, m: SenderKeyMessage)
    ensures GroupDecryptAt(store, name, m).1.Err? ==> GroupDecryptAt(store, name, m).0 == store
  {
  }

  // ------------------------------------------------------------- the queue of states

  /** A distribution message puts its state in front: lookups of its id find it, and a state of
      another id stays exactly when it was not the oldest of five. */
  lemma DistributionShadows(store: GroupStore, name: nat, d: Distribution, other: nat)
    requires other != d.id
    ensures var before, after := StatesAt(store, name), ProcessDistributionAt(store, name, d)[name];
      var j := FindState(before, other);
      && FindState(after, d.id) == 0 && after[0].chainKey == SenderChainKey(d.iteration, d.chain)
      && 1 <= |after| <= MAX_SENDER_KEY_STATES
      && (if j < |before| && j + 1 < 5
          then FindState(after, other) == j + 1 < |after| && after[j + 1] == before[j]
          else FindState(after, other) == |after|)
  {
    var before, after := StatesAt(store, name), ProcessDistributionAt(store, name, d)[name];
    var j, j' := FindState(before, other), FindState(after, other);
    forall i | 1 <= i < |after| ensures after[i] == before[i - 1] {
    }
    assert 0 < j' && (j' < |after| ==> before[j' - 1].id == other);
    if j < |before| && j + 1 < MAX_SENDER_KEY_STATES { assert after[j + 1] == before[j]; }
  }

  /** A member's message of another id changes neither the sender's state nor its place. */
  lemma OtherIdKeepsState(states: seq<GroupState>, j: nat, st: GroupState, id: nat)
    requires j < |states| && st.id == states[j].id != id
    ensures FindState(states[j := st], id) == FindState(states, id)
    ensures forall i :: 0 <= i < |states| && states[i].id == id ==> states[j := st][i] == states[i]
  {
    var p, q := FindState(states, id), FindState(states[j := st], id);
    assert p < |states| ==> states[j := st][p] == states[p];
    assert q < |states| ==> states[q].id == id;
  }

  lemma TakenStateKeepsId(st: GroupState, iteration: u32)
    ensures TakeSenderKey(st, iteration).0.id == st.id
  {
  }

  // ----------------------------------------------------------------------- all runs

  lemma MemberOkAsGroupGrows(m: Member, g: Group, g': Group)
    requires MemberOk(m, g) && |g.sent| <= |g'.sent|
    requires g'.name == g.name && g'.id == g.id && g'.seed == g.seed && g'.signingKey == g.signingKey
    ensures MemberOk(m, g')
  {
  }

  lemma SpeakKeepsInv(g: Group, plaintext: Bytes)
    requires GroupInv(g) && |g.sent| + 1 < U32_SIZE
    ensures GroupInv(Advance(g, Speak(plaintext)))
    ensures GroupEncryptAt(g.sender, g.name, plaintext).1 == Ok(GroupMessageAt(Advance(g, Speak(plaintext)), |g.sent|))
  {
    var g' := Advance(g, Speak(plaintext));
    assert NextKey(GroupKeyAt(g.seed, |g.sent|)) == GroupKeyAt(g.seed, |g.sent| + 1);
    forall u | u in g'.members ensures MemberOk(g'.members[u], g') {
      MemberOkAsGroupGrows(g.members[u], g, g');
    }
  }

  /** One member changed and nothing else. */
  lemma MemberChangeKeepsInv(g: Group, u: nat, m: Member)
    requires GroupInv(g) && MemberOk(m, g)
    ensures GroupInv(g.(members := g.members[u := m]))
  {
    hide StateOk;
    var g' := g.(members := g.members[u := m]);
    forall v | v in g'.members ensures MemberOk(g'.members[v], g') {
      MemberOkAsGroupGrows(g'.members[v], g, g');
    }
  }

  lemma JoinedMemberOk(g: Group, store: GroupStore, at: nat)
    requires at <= |g.sent|
    ensures MemberOk(Member(ProcessDistributionAt(store, g.name, IssuedAt(g, at)), at, {}, at, 0), g)
  {
    var states := ProcessDistributionAt(store, g.name, IssuedAt(g, at))[g.name];
    GroupTracksWindow(states[0], g.seed, at, []);
    assert FindState(states, g.id) == 0;
  }

  lemma LearnedMemberOk(g: Group, member: Member, d: Distribution)
    requires MemberOk(member, g) && d.id != g.id
    ensures MemberOk(member.(store := ProcessDistributionAt(member.store, g.name, d), others := member.others + 1), g)
  {
    hide GroupTracks, Exact;
    DistributionShadows(member.store, g.name, d, g.id);
  }

  /** A member after it accepted an iteration of the sender. */
  lemma HeardMemberOk(g: Group, u: nat, m: SenderKeyMessage)
    requires GroupInv(g) && u in g.members && GroupNetwork(g, m) && m.keyId == g.id
    requires GroupDecryptAt(g.members[u].store, g.name, m).1.Ok?
    ensures MemberOk(AfterHearing(g, g.members[u], m), g)
  {
    hide StateOk, TakeSenderKey, GroupDecryptAt;
    var member, i := g.members[u], m.iteration;
    assert MemberOk(member, g);
    GroupAuthenticity(g, u, m);
    MemberAttempt(g, member, m);
    HeardStateOk(g, member, i);
    var states, st := member.store[g.name], TakeSenderKey(Held(member, g), i).0;
    TakenStateKeepsId(Held(member, g), i);
    OwnIdKeepsPlace(states, st, g.id);
    AcceptedMember(g, member, m);
  }

  lemma AcceptedMember(g: Group, member: Member, m: SenderKeyMessage)
    requires MemberOk(member, g) && member.others < MAX_SENDER_KEY_STATES && m.keyId == g.id
    requires GroupDecryptAt(member.store, g.name, m).1.Ok?
    ensures AfterHearing(g, member, m) ==
      Member(member.store[g.name := member.store[g.name][member.others := TakeSenderKey(Held(member, g),
        m.iteration).0]],
             member.start, member.taken + {m.iteration},
             FloorAfter(GroupWindow(Held(member, g)), member.floor, m.iteration), member.others)
  {
    hide StateOk, TakeSenderKey;
  }

  lemma OwnIdKeepsPlace(states: seq<GroupState>, st: GroupState, id: nat)
    requires FindState(states, id) < |states| && st.id == id
    ensures FindState(states[FindState(states, id) := st], id) == FindState(states, id)
  {
    var j := FindState(states, id);
    assert states[j := st][j].id == id;
  }

  lemma HeardStateOk(g: Group, member: Member, i: u32)
    requires MemberOk(member, g) && member.others < MAX_SENDER_KEY_STATES && i < |g.sent| < U32_SIZE
    requires Receive(GroupWindow(Held(member, g)), i).Accepted?
    ensures var w := GroupWindow(Held(member, g));
      StateOk(TakeSenderKey(Held(member, g), i).0, FloorAfter(w, member.floor, i), member.taken + {i}, g)
    ensures member.floor <= FloorAfter(GroupWindow(Held(member, g)), member.floor, i)
  {
    TakeSenderKeyRefines(Held(member, g), g.seed, i);
    ReceiveKeepsExact(GroupWindow(Held(member, g)), member.floor, member.taken, i);
  }

  lemma ForeignMessageMemberOk(g: Group, member: Member, m: SenderKeyMessage)
    requires MemberOk(member, g) && m.keyId != g.id
    ensures MemberOk(AfterHearing(g, member, m), g)
  {
    hide TakeSenderKey, GroupTracks, Exact;
    var states := member.store[g.name];
    var j := FindState(states, m.keyId);
    if j < |states| {
      TakenStateKeepsId(states[j], m.iteration);
      OtherIdKeepsState(states, j, TakeSenderKey(states[j], m.iteration).0, g.id);
    }
  }

  lemma HearKeepsInv(g: Group, u: nat, m: SenderKeyMessage)
    requires GroupInv(g) && Enabled(g, Hear(u, m))
    ensures GroupInv(Advance(g, Hear(u, m)))
  {
    hide StateOk, GroupDecryptAt;
    var member := g.members[u];
    assert MemberOk(member, g);
    if m.keyId != g.id {
      ForeignMessageMemberOk(g, member, m);
    } else if GroupDecryptAt(member.store, g.name, m).1.Ok? {
      HeardMemberOk(g, u, m);
    } else {
      FailedGroupDecryptChangesNothing(member.store, g.name, m);
      assert AfterHearing(g, member, m) == member;
    }
    MemberChangeKeepsInv(g, u, AfterHearing(g, member, m));
  }

  lemma GroupStepKeepsInv(g: Group, step: GroupStep)
    requires GroupInv(g) && Enabled(g, step)
    ensures GroupInv(Advance(g, step))
  {
    hide StateOk;
    match step
    case Speak(plaintext) => SpeakKeepsInv(g, plaintext);
    case Issue =>
      IssuedIsCurrentKey(g);
      var g' := Advance(g, Issue);
      forall v | v in g'.members ensures MemberOk(g'.members[v], g') { MemberOkAsGroupGrows(g.members[v], g, g'); }
    case Join(u, store, at) =>
      var before := if u in g.members then g.members[u].store else store;
      JoinedMemberOk(g, before, at);
      MemberChangeKeepsInv(g, u, Advance(g, step).members[u]);
    case Learn(u, d) =>
      LearnedMemberOk(g, g.members[u], d);
      MemberChangeKeepsInv(g, u, Advance(g, step).members[u]);
    case Hear(u, m) => HearKeepsInv(g, u, m);
  }

  ghost predicate Run(g: Group, steps: seq<GroupStep>, end: Group)
    decreases |steps|
  {
    if steps == [] then g == end
    else |g.sent| < U32_SIZE && Enabled(g, steps[0]) && Run(Advance(g, steps[0]), steps[1..], end)
  }

  /** A sender that just created its key, before anybody joined. */
  function NewGroup(name: nat, id: nat, seed: GroupSecret, signingKey: KeyId): Group {
    Group(name, id, seed, signingKey, CreateDistributionAt(map[], name, id, seed, signingKey).0, [], {}, map[])
  }

  /** The sender's key is the same, nothing said is forgotten, and the member keeps its start and
      what it heard, its floor only rising. */
  ghost predicate Gains(g: Group, g': Group, u: nat) {
    && g'.name == g.name && g'.id == g.id && g'.seed == g.seed && g'.signingKey == g.signingKey
    && g.sent <= g'.sent
    && (u in g.members ==> u in g'.members && MemberGains(g.members[u], g'.members[u]))
  }

  ghost predicate MemberGains(m: Member, m': Member) {
    m'.start == m.start && m.taken <= m'.taken && m.floor <= m'.floor && m.others <= m'.others
  }

  lemma {:induction false} GroupRunKeepsInv(g: Group, steps: seq<GroupStep>, end: Group)
    requires GroupInv(g) && Run(g, steps, end)
    ensures GroupInv(end)
    decreases |steps|
  {
    if steps != [] {
      GroupStepKeepsInv(g, steps[0]);
      GroupRunKeepsInv(Advance(g, steps[0]), steps[1..], end);
    }
  }

  lemma HearGains(g: Group, u: nat, m: SenderKeyMessage)
    requires GroupInv(g) && Enabled(g, Hear(u, m))
    ensures MemberGains(g.members[u], AfterHearing(g, g.members[u], m))
  {
    var member := g.members[u];
    assert MemberOk(member, g);
    if GroupDecryptAt(member.store, g.name, m).1.Ok? && m.keyId == g.id {
      GroupAuthenticity(g, u, m);
      MemberAttempt(g, member, m);
      HeardStateOk(g, member, m.iteration);
    }
  }

  predicate Rejoins(step: GroupStep, u: nat) { step.Join? && step.who == u }

  lemma StepGains(g: Group, step: GroupStep, u: nat)
    requires GroupInv(g) && Enabled(g, step) && !Rejoins(step, u)
    ensures Gains(g, Advance(g, step), u)
  {
    hide GroupDecryptAt, MemberOk;
    if step.Hear? { HearGains(g, step.who, step.message); }
  }

  lemma {:induction false} RunGains(g: Group, steps: seq<GroupStep>, end: Group, u: nat)
    requires GroupInv(g) && Run(g, steps, end)
    requires forall k :: 0 <= k < |steps| ==> !Rejoins(steps[k], u)
    ensures Gains(g, end, u)
    decreases |steps|
  {
    if steps != [] {
      GroupStepKeepsInv(g, steps[0]);
      StepGains(g, steps[0], u);
      RunGains(Advance(g, steps[0]), steps[1..], end, u);
    }
  }

  /** In every run of a new group: what the sender said is what each member hears, exactly
      when it still holds the state and the message is in reach; what was said before a member's
      start is a duplicate to it. */
  lemma EveryMemberHears(name: nat, id: nat, seed: GroupSecret, signingKey: KeyId, steps: seq<GroupStep>, g: Group,
                         u: nat, i: nat)
    requires Run(NewGroup(name, id, seed, signingKey), steps, g)
    requires u in g.members && i < |g.sent|
    ensures GroupInv(g)
    ensures var member := g.members[u];
      var r := GroupDecryptAt(member.store, g.name, GroupMessageAt(g, i)).1;
      if member.others >= 5 then r == Err(NoSenderKeyState)
      else
        var next := GroupWindow(Held(member, g)).next;
        && (r.Ok? <==> i !in member.taken && member.floor <= i <= next + 2000)
        && (r.Ok? ==> r == Ok(g.sent[i]))
        && (i < member.start ==> r == Err(DuplicatedMessage(next, i)))
  {
    GroupRunKeepsInv(NewGroup(name, id, seed, signingKey), steps, g);
    MemberHearsIff(g, u, i);
  }

  /** No member accepts a message of the sender twice, unless it processes another distribution
      message of that id in between. */
  lemma NoGroupReplay(g: Group, u: nat, m: SenderKeyMessage, steps: seq<GroupStep>, end: Group)
    requires GroupInv(g) && Enabled(g, Hear(u, m)) && m.keyId == g.id
    requires GroupDecryptAt(g.members[u].store, g.name, m).1.Ok?
    requires Run(Advance(g, Hear(u, m)), steps, end)
    requires forall k :: 0 <= k < |steps| ==> !Rejoins(steps[k], u)
    ensures u in end.members && GroupDecryptAt(end.members[u].store, end.name, m).1.Err?
  {
    hide GroupDecryptAt;
    var mid := Advance(g, Hear(u, m));
    GroupAuthenticity(g, u, m);
    GroupStepKeepsInv(g, Hear(u, m));
    assert MemberOk(g.members[u], g);
    assert m.iteration in mid.members[u].taken;
    GroupRunKeepsInv(mid, steps, end);
    RunGains(mid, steps, end, u);
    assert m == GroupMessageAt(end, m.iteration);
    MemberHearsIff(end, u, m.iteration);
  }

  /** What another distribution message of the same id does: a member that processes the one
      issued at iteration `at` accepts again whatever was said from `at` on and is in reach, heard
      before or not, and nothing said before `at`. */
  lemma RejoiningResets(g: Group, u: nat, store: GroupStore, at: nat, i: nat)
    requires GroupInv(g) && Enabled(g, Join(u, store, at)) && i < |g.sent|
    ensures var g' := Advance(g, Join(u, store, at));
      var r := GroupDecryptAt(g'.members[u].store, g.name, GroupMessageAt(g, i)).1;
      && (r.Ok? <==> at <= i <= at + 2000)
      && (r.Ok? ==> r == Ok(g.sent[i]))
      && (i < at ==> r == Err(DuplicatedMessage(at, i)))
  {
    var g' := Advance(g, Join(u, store, at));
    GroupStepKeepsInv(g, Join(u, store, at));
    MemberHearsIff(g', u, i);
    assert GroupMessageAt(g', i) == GroupMessageAt(g, i);
  }

  /** Hearing the iterations of `order` one after the other succeeds each time. */
  ghost predicate AllHeard(g: Group, u: nat, order: seq<nat>)
    decreases |order|
  {
    order == [] ||
    (&& u in g.members && order[0] < |g.sent| < U32_SIZE
     && GroupDecryptAt(g.members[u].store, g.name, GroupMessageAt(g, order[0])).1 == Ok(g.sent[order[0]])
     && AllHeard(Advance(g, Hear(u, GroupMessageAt(g, order[0]))), u, order[1..]))
  }

  /** The member holds the state and would accept from iteration `from` on. */
  ghost predicate ListensFrom(g: Group, u: nat, from: nat)
    requires GroupInv(g) && u in g.members
  {
    var m := g.members[u];
    assert MemberOk(m, g);
    m.others < MAX_SENDER_KEY_STATES && m.floor <= from <= GroupWindow(Held(m, g)).next
  }

  lemma HeldAfterHearing(g: Group, member: Member, i: u32, from: nat)
    requires MemberOk(member, g) && member.others < MAX_SENDER_KEY_STATES && i < |g.sent| < U32_SIZE
    requires member.floor <= from <= i < from + MAX_MESSAGE_KEYS + 1
    requires from <= GroupWindow(Held(member, g)).next && Receive(GroupWindow(Held(member, g)), i).Accepted?
    ensures FloorAfter(GroupWindow(Held(member, g)), member.floor, i) <= from
         <= GroupWindow(TakeSenderKey(Held(member, g), i).0).next
  {
    TakeSenderKeyRefines(Held(member, g), g.seed, i);
    FloorStaysBelow(GroupWindow(Held(member, g)), member.floor, member.taken, i, from);
  }

  lemma HearingKeepsFloorLow(g: Group, u: nat, i: nat, from: nat)
    requires GroupInv(g) && u in g.members && i < |g.sent| && ListensFrom(g, u, from)
    requires from <= i < from + MAX_MESSAGE_KEYS + 1 && i !in g.members[u].taken
    ensures var g' := Advance(g, Hear(u, GroupMessageAt(g, i)));
      && GroupDecryptAt(g.members[u].store, g.name, GroupMessageAt(g, i)).1 == Ok(g.sent[i])
      && GroupInv(g') && g'.sent == g.sent && g'.name == g.name && u in g'.members
      && ListensFrom(g', u, from) && g'.members[u].taken == g.members[u].taken + {i}
  {
    hide TakeSenderKey, GroupDecryptAt;
    var member, m := g.members[u], GroupMessageAt(g, i);
    assert MemberOk(member, g);
    MemberHearsIff(g, u, i);
    MemberAttempt(g, member, m);
    AcceptedMember(g, member, m);
    HeldAfterHearing(g, member, i, from);
    assert GroupNetwork(g, m);
    GroupStepKeepsInv(g, Hear(u, m));
  }

  /** Any order of up to 2001 consecutive messages from a member's next iteration on, each
      delivered once, is decrypted completely. */
  lemma {:induction false} AnyOrderIsHeard(g: Group, u: nat, from: nat, count: nat, order: seq<nat>)
    requires GroupInv(g) && u in g.members && ListensFrom(g, u, from)
    requires count <= MAX_MESSAGE_KEYS + 1 && from + count <= |g.sent|
    requires DistinctWithin(order, from, count)
    requires forall k :: 0 <= k < |order| ==> order[k] !in g.members[u].taken
    ensures AllHeard(g, u, order)
    decreases |order|
  {
    hide MemberOk;
    if order != [] {
      HearingKeepsFloorLow(g, u, order[0], from);
      AnyOrderIsHeard(Advance(g, Hear(u, GroupMessageAt(g, order[0]))), u, from, count, order[1..]);
    }
  }
}
