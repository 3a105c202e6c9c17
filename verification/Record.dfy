/** `SessionRecord` and the session search of `decrypt_message_with_record`. */
module Record {
  import opened Prelude
  import opened Crypto
  import opened Session

  datatype Record = Record(current: Option<Session>, previous: seq<Session>)

  const FreshRecord := Record(None, [])

  predicate HasSession(rec: Record, version: nat, baseKey: KeyId) {
    || (rec.current.Some? && Is(rec.current.value, version, baseKey))
    || exists i :: 0 <= i < |rec.previous| && Is(rec.previous[i], version, baseKey)
  }

  predicate Is(s: Session, version: nat, baseKey: KeyId) {
    s.Version() == version && s.aliceBaseKey == Some(baseKey)
  }

  function Archive(rec: Record): Record {
    if rec.current.None? then rec
    else
      var q := [rec.current.value] + rec.previous;
      Record(None, if |q| > ARCHIVED_STATES_MAX_LENGTH then q[..|q| - 1] else q)
  }

  function Promote(rec: Record, s: Session): Record { Archive(rec).(current := Some(s)) }

  function PromoteOld(rec: Record, i: nat, s: Session): Record
    requires i < |rec.previous|
  {
    Promote(rec.(previous := RemoveAt(rec.previous, i)), s)
  }

  /** An attempt ends the search when it succeeds or reports a duplicate. */
  predicate Stops(s: Session, m: SignalMessage, newKey: KeyId) {
    Decrypt(s, m, newKey).1.Ok? || Decrypt(s, m, newKey).1.error.DuplicatedMessage?
  }

  function FirstStop(previous: seq<Session>, m: SignalMessage, newKey: KeyId): (i: nat)
    ensures i <= |previous|
    ensures i < |previous| ==> Stops(previous[i], m, newKey)
    ensures forall j :: 0 <= j < i ==> !Stops(previous[j], m, newKey)
  {
    IndexWhere(previous, s => Stops(s, m, newKey))
  }

  /** `decrypt_message_with_record`.  Every attempt draws its own new ratchet key; the draws
      of discarded attempts are lost, so one name stands for the draw that matters. */
  function DecryptRecord(rec: Record, m: SignalMessage, newKey: KeyId): (Record, Result<Bytes, Error>) {
    if rec.current.None? then (rec, Err(InvalidState))
    else
      var (s, r) := Decrypt(rec.current.value, m, newKey);
      if r.Ok? then (rec.(current := Some(s)), r)
      else if r.error.DuplicatedMessage? then (rec, r)
      else
        var i := FirstStop(rec.previous, m, newKey);
        if i == |rec.previous| then (rec, Err(NoMatchingSession))
        else
          var (s', r') := Decrypt(rec.previous[i], m, newKey);
          if r'.Ok? then (PromoteOld(rec, i, s'), r') else (rec, r')
  }

  class SessionRecord {
    var current: Option<Session>
    var previous: seq<Session>

    ghost function Value(): Record
      reads this
    {
      Record(current, previous)
    }

    constructor (rec: Record)
      ensures Value() == rec
    {
      current, previous := rec.current, rec.previous;
    }

    method HasSessionState(version: nat, baseKey: KeyId) returns (found: bool)
      ensures found == HasSession(Value(), version, baseKey)
    {
      if current.Some? && Is(current.value, version, baseKey) {
        return true;
      }
      for i := 0 to |previous|
        invariant forall j :: 0 <= j < i ==> !Is(previous[j], version, baseKey)
      {
        if Is(previous[i], version, baseKey) {
          return true;
        }
      }
      found := false;
    }

    method ArchiveCurrentState()
      modifies this
      ensures Value() == Archive(old(Value()))
    {
      if current.Some? {
        previous := [current.value] + previous;
        current := None;
        if |previous| > ARCHIVED_STATES_MAX_LENGTH {
          previous := previous[..|previous| - 1];
        }
      }
    }

    method PromoteState(s: Session)
      modifies this
      ensures Value() == Promote(old(Value()), s)
    {
      ArchiveCurrentState();
      current := Some(s);
    }

    /** Fails, changing nothing, for an index out of range. */
    method PromoteOldSession(i: nat, s: Session) returns (ok: bool)
      modifies this
      ensures ok == (i < |old(previous)|)
      ensures Value() == if ok then PromoteOld(old(Value()), i, s) else old(Value())
    {
      ok := i < |previous|;
      if ok {
        previous := RemoveAt(previous, i);
        PromoteState(s);
      }
    }

    /** The search works on clones and writes back only the session that accepted. */
    method DecryptMessage(m: SignalMessage, newKey: KeyId) returns (r: Result<Bytes, Error>)
      modifies this
      ensures Value() == DecryptRecord(old(Value()), m, newKey).0
      ensures r == DecryptRecord(old(Value()), m, newKey).1
    {
      hide Decrypt;
      if current.None? {
        return Err(InvalidState);
      }
      var clone := new SessionState(current.value);
      r := clone.DecryptMessage(m, newKey);
      if r.Ok? {
        var updated := clone.Snapshot();
        current := Some(updated);
        return;
      }
      if r.error.DuplicatedMessage? {
        return;
      }
      var i := 0;
      while i < |previous|
        invariant i <= |previous| && Value() == old(Value())
        invariant forall j :: 0 <= j < i ==> !Stops(previous[j], m, newKey)
      {
        var attempt := new SessionState(previous[i]);
        r := attempt.DecryptMessage(m, newKey);
        if r.Ok? {
          var updated := attempt.Snapshot();
          assert FirstStop(previous, m, newKey) == i;
          var _ := PromoteOldSession(i, updated);
          return;
        }
        if r.error.DuplicatedMessage? {
          assert FirstStop(previous, m, newKey) == i;
          return;
        }
        i := i + 1;
      }
      r := Err(NoMatchingSession);
    }
  }

  // --------------------------------------------------------------------- conservation

  /** Every retained session, the current one first. */
  function Sessions(rec: Record): seq<Session> {
    (if rec.current.Some? then [rec.current.value] else []) + rec.previous
  }

  lemma HasSessionIsMembership(rec: Record, version: nat, baseKey: KeyId)
    ensures HasSession(rec, version, baseKey) <==>
      exists i :: 0 <= i < |Sessions(rec)| && Is(Sessions(rec)[i], version, baseKey)
  {
    var all := Sessions(rec);
    if rec.current.Some? && Is(rec.current.value, version, baseKey) {
      assert all[0] == rec.current.value;
    }
    if i :| 0 <= i < |rec.previous| && Is(rec.previous[i], version, baseKey) {
      assert all[i + (if rec.current.Some? then 1 else 0)] == rec.previous[i];
    }
  }

  ghost predicate Bounded(rec: Record) { |rec.previous| <= ARCHIVED_STATES_MAX_LENGTH }

  /** Archiving keeps the newest 40 sessions: at most one is lost, the oldest, and only from a
      full archive. */
  lemma ArchiveKeepsNewest(rec: Record)
    requires Bounded(rec)
    ensures Archive(rec).current.None?
    ensures Sessions(Archive(rec)) == Sessions(rec)[..Min(|Sessions(rec)|, 40)]
  {
  }

  /** The same when a session is added, which becomes current in front of all others. */
  lemma PromoteKeepsNewest(rec: Record, s: Session)
    requires Bounded(rec)
    ensures Promote(rec, s).current == Some(s)
    ensures Sessions(Promote(rec, s)) == [s] + Sessions(rec)[..Min(|Sessions(rec)|, 40)]
  {
    ArchiveKeepsNewest(rec);
  }

  /** The index, in `Sessions`, of the session that accepted a message. */
  function Acceptor(rec: Record, m: SignalMessage, newKey: KeyId): (i: nat)
    requires DecryptRecord(rec, m, newKey).1.Ok?
    ensures i < |Sessions(rec)|
  {
    if Decrypt(rec.current.value, m, newKey).1.Ok? then 0 else 1 + FirstStop(rec.previous, m, newKey)
  }

  /** A decrypted message never changes what a session is, only where it stands. */
  lemma DecryptKeepsIdentity(s: Session, m: SignalMessage, newKey: KeyId)
    ensures var s' := Decrypt(s, m, newKey).0;
      && s'.rawVersion == s.rawVersion && s'.aliceBaseKey == s.aliceBaseKey
      && s'.localIdentity == s.localIdentity && s'.remoteIdentity == s.remoteIdentity
  {
    hide TakeKeys;
  }

  /** All or nothing: an error leaves the record alone; a success replaces one session by its
      successor, moves it to the front, keeps the others in order and drops none. */
  lemma DecryptConservesSessions(rec: Record, m: SignalMessage, newKey: KeyId)
    requires Bounded(rec)
    ensures var (rec', r) := DecryptRecord(rec, m, newKey);
      if r.Err? then rec' == rec
      else
        var i := Acceptor(rec, m, newKey);
        var (s, text) := Decrypt(Sessions(rec)[i], m, newKey);
        && text == r
        && Bounded(rec')
        && rec'.current == Some(s)
        && Sessions(rec') == [s] + RemoveAt(Sessions(rec), i)
        && (forall j :: 0 <= j < i ==> !Stops(Sessions(rec)[j], m, newKey))
  {
    hide Decrypt;
    var (rec', r) := DecryptRecord(rec, m, newKey);
    if r.Ok? {
      var i := Acceptor(rec, m, newKey);
      var all := Sessions(rec);
      if i == 0 {
        assert RemoveAt(all, 0) == rec.previous;
      } else {
        assert all[i] == rec.previous[i - 1];
        assert RemoveAt(all, i) == [rec.current.value] + RemoveAt(rec.previous, i - 1);
        assert Promote(rec.(previous := RemoveAt(rec.previous, i - 1)), rec'.current.value).previous
            == [rec.current.value] + RemoveAt(rec.previous, i - 1);
      }
    }
  }

  predicate SameId(s: Session, t: Session) { s.Version() == t.Version() && s.aliceBaseKey == t.aliceBaseKey }

  /** No two sessions share version and base key. */
  ghost predicate AllDistinct(all: seq<Session>) {
    forall i, j :: 0 <= i < j < |all| ==> !SameId(all[i], all[j])
  }

  ghost predicate DistinctIds(rec: Record) { AllDistinct(Sessions(rec)) }

  lemma MoveToFrontKeepsDistinct(all: seq<Session>, i: nat, s: Session)
    requires i < |all| && SameId(s, all[i])
    ensures AllDistinct([s] + RemoveAt(all, i)) <==> AllDistinct(all)
  {
    var all' := [s] + RemoveAt(all, i);
    if AllDistinct(all) {
      forall j, k | 0 <= j < k < |all'| ensures !SameId(all'[j], all'[k]) {
        assert all'[k] == all[if k <= i then k - 1 else k];
        if j > 0 { assert all'[j] == all[if j <= i then j - 1 else j]; }
      }
    }
    if AllDistinct(all') {
      forall j, k | 0 <= j < k < |all| ensures !SameId(all[j], all[k]) {
        if j != i { assert all[j] == all'[if j < i then j + 1 else j]; }
        if k != i { assert all[k] == all'[if k < i then k + 1 else k]; }
        assert !SameId(all'[0], all'[if j == i then k else if j < i then j + 1 else j]);
      }
    }
  }

  lemma DecryptKeepsDistinctIds(rec: Record, m: SignalMessage, newKey: KeyId)
    requires Bounded(rec)
    ensures DistinctIds(DecryptRecord(rec, m, newKey).0) <==> DistinctIds(rec)
  {
    hide Decrypt;
    DecryptConservesSessions(rec, m, newKey);
    var (rec', r) := DecryptRecord(rec, m, newKey);
    if r.Ok? {
      var i := Acceptor(rec, m, newKey);
      DecryptKeepsIdentity(Sessions(rec)[i], m, newKey);
      MoveToFrontKeepsDistinct(Sessions(rec), i, Decrypt(Sessions(rec)[i], m, newKey).0);
    }
  }

  lemma FrontKeepsDistinctIff(s: Session, q: seq<Session>)
    requires AllDistinct(q)
    ensures AllDistinct([s] + q) <==> forall i :: 0 <= i < |q| ==> !SameId(s, q[i])
  {
    hide SameId;
    var all' := [s] + q;
    if AllDistinct(all') {
      forall i | 0 <= i < |q| ensures !SameId(s, q[i]) { assert all'[0] == s && all'[i + 1] == q[i]; }
    }
  }

  /** Adding a session keeps ids distinct exactly when no retained session that survives the
      archive limit already has its version and base key. */
  lemma PromoteKeepsDistinctIdsIff(rec: Record, s: Session)
    requires Bounded(rec) && DistinctIds(rec) && s.aliceBaseKey.Some?
    ensures Bounded(Promote(rec, s))
    ensures DistinctIds(Promote(rec, s)) <==> !HasSession(Archive(rec), s.Version(), s.aliceBaseKey.value)
  {
    var q := Archive(rec).previous;
    assert q == Sessions(rec)[..|q|];
    assert AllDistinct(q) by { hide SameId; }
    assert Sessions(Promote(rec, s)) == [s] + q;
    FrontKeepsDistinctIff(s, q);
    hide AllDistinct;
    assert forall i :: 0 <= i < |q| ==> (SameId(s, q[i]) <==> Is(q[i], s.Version(), s.aliceBaseKey.value));
  }
}
