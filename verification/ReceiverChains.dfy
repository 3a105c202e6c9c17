/** A receiver chain of a session refines the counter window of `SkippedKeys`. */
module ReceiverChains {
  import opened Prelude
  import opened Crypto
  import opened Ratchet
  import opened Session
  import opened SkippedKeys

  /** The cache that holds the keys of the given counters of a chain; the session lists
      them newest first. */
  function Cache(c: ChainSecret, counters: seq<nat>): (r: seq<MessageKeys>)
    ensures |r| == |counters|
    ensures forall j :: 0 <= j < |r| ==> r[j] == KeysOf(KeyAt(c, counters[|counters| - 1 - j]))
  {
    seq(|counters|, j requires 0 <= j < |counters| => KeysOf(KeyAt(c, counters[|counters| - 1 - j])))
  }

  function WindowOf(rc: ReceiverChain): Window {
    var n := |rc.skipped|;
    Window(rc.chainKey.index, seq(n, j requires 0 <= j < n => rc.skipped[n - 1 - j].counter))
  }

  /** Every key a receiver chain holds is the key recomputed from the chain's start. */
  ghost predicate Tracks(rc: ReceiverChain, c: ChainSecret) {
    rc.chainKey == KeyAt(c, rc.chainKey.index) && rc.skipped == Cache(c, WindowOf(rc).cached)
  }

  lemma TracksWindow(rc: ReceiverChain, c: ChainSecret, next: nat, cached: seq<nat>)
    requires rc.chainKey == KeyAt(c, next) && rc.skipped == Cache(c, cached)
    ensures Tracks(rc, c) && WindowOf(rc) == Window(next, cached)
  {
    assert WindowOf(rc).cached == cached;
  }

  lemma PushRefines(c: ChainSecret, cached: seq<nat>, i: nat)
    ensures InsertKeys(Cache(c, cached), KeysOf(KeyAt(c, i))) == Cache(c, Push(cached, i))
  {
    assert [KeysOf(KeyAt(c, i))] + Cache(c, cached) == Cache(c, cached + [i]);
  }

  lemma {:induction false} SkipRefines(c: ChainSecret, cached: seq<nat>, from: nat, upto: u32)
    requires from <= upto
    ensures SkipKeys(KeyAt(c, from), Cache(c, cached), upto) == (KeyAt(c, upto), Cache(c, SkipTo(cached, from, upto)))
    decreases upto - from
  {
    if from < upto {
      PushRefines(c, cached, from);
      assert Next(KeyAt(c, from)) == KeyAt(c, from + 1);
      SkipRefines(c, Push(cached, from), from + 1, upto);
    }
  }

  lemma FindRefines(c: ChainSecret, cached: seq<nat>, counter: nat)
    requires Ascending(cached)
    ensures counter in cached <==> FindKeys(Cache(c, cached), counter) < |cached|
    ensures counter in cached ==> FindKeys(Cache(c, cached), counter) == |cached| - 1 - IndexOf(cached, counter)
  {
    var p := FindKeys(Cache(c, cached), counter);
    if counter in cached {
      var i := IndexOf(cached, counter);
      assert Cache(c, cached)[|cached| - 1 - i].counter == counter;
    }
  }

  lemma RemovalRefines(c: ChainSecret, cached: seq<nat>, i: nat)
    requires i < |cached|
    ensures RemoveAt(Cache(c, cached), |cached| - 1 - i) == Cache(c, RemoveAt(cached, i))
  {
  }

  lemma TakeCachedRefines(rc: ReceiverChain, c: ChainSecret, counter: u32)
    requires Tracks(rc, c) && Ascending(WindowOf(rc).cached)
    requires counter < rc.chainKey.index
    ensures var (after, keys) := TakeKeys(rc, counter);
      if counter in WindowOf(rc).cached then
        && keys == Ok(KeysOf(KeyAt(c, counter)))
        && Tracks(after, c)
        && WindowOf(after) == Receive(WindowOf(rc), counter).after
      else keys == Err(DuplicatedMessage(rc.chainKey.index, counter))
  {
    hide KeyAt;
    var w := WindowOf(rc);
    FindRefines(c, w.cached, counter);
    if counter in w.cached {
      var i := IndexOf(w.cached, counter);
      RemovalRefines(c, w.cached, i);
      TracksWindow(TakeKeys(rc, counter).0, c, w.next, RemoveAt(w.cached, i));
    }
  }

  lemma TakeForwardRefines(rc: ReceiverChain, c: ChainSecret, counter: u32)
    requires Tracks(rc, c)
    requires rc.chainKey.index <= counter <= rc.chainKey.index + MAX_FORWARD_JUMPS
    ensures var (after, keys) := TakeKeys(rc, counter);
      && keys == Ok(KeysOf(KeyAt(c, counter)))
      && (counter + 1 < U32_SIZE ==>
        Tracks(after, c)
          && WindowOf(after) == Window(counter + 1, SkipTo(WindowOf(rc).cached, rc.chainKey.index, counter)))
  {
    var w := WindowOf(rc);
    SkipRefines(c, w.cached, w.next, counter);
    if counter + 1 < U32_SIZE {
      assert Next(KeyAt(c, counter)) == KeyAt(c, counter + 1);
      TracksWindow(TakeKeys(rc, counter).0, c, counter + 1, SkipTo(w.cached, w.next, counter));
    }
  }

  /** `get_or_create_message_key` answers exactly as the window does, hands out the key that
      the chain's start determines, and keeps tracking the chain (up to the u32 limit). */
  lemma TakeKeysRefines(rc: ReceiverChain, c: ChainSecret, counter: u32)
    requires Tracks(rc, c) && Ascending(WindowOf(rc).cached)
    ensures var (after, keys) := TakeKeys(rc, counter);
      match Receive(WindowOf(rc), counter)
      case Accepted(w) =>
        && keys == Ok(KeysOf(KeyAt(c, counter)))
        && (counter + 1 < U32_SIZE ==> Tracks(after, c) && WindowOf(after) == w)
      case Duplicate => keys == Err(DuplicatedMessage(rc.chainKey.index, counter))
      case TooFar => keys == Err(TooFarIntoTheFuture)
    ensures TakeKeys(rc, counter).0.ratchetKey == rc.ratchetKey
  {
    if counter < rc.chainKey.index {
      TakeCachedRefines(rc, c, counter);
    } else if counter - rc.chainKey.index <= MAX_FORWARD_JUMPS {
      TakeForwardRefines(rc, c, counter);
    }
  }
}
