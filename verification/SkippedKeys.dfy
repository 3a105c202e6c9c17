/** The receiving half of a symmetric ratchet, reduced to counters: the next counter the
    chain would produce and the counters whose keys are cached.  The pairwise session
    (`get_or_create_message_key`) and the group state (`get_sender_key`) both refine it. */
module SkippedKeys {
  import opened Prelude

  /** `cached` is listed oldest first. */
  datatype Window = Window(next: nat, cached: seq<nat>)

  datatype Verdict = Accepted(after: Window) | Duplicate | TooFar

  function Push(cached: seq<nat>, c: nat): seq<nat> {
    var q := cached + [c];
    if |q| > MAX_MESSAGE_KEYS then q[1..] else q
  }

  function SkipTo(cached: seq<nat>, from: nat, to: nat): seq<nat>
    decreases if from < to then to - from else 0
  {
    if from >= to then cached else SkipTo(Push(cached, from), from + 1, to)
  }

  function Receive(w: Window, c: nat): Verdict {
    if c < w.next then
      if c in w.cached then Accepted(Window(w.next, RemoveAt(w.cached, IndexOf(w.cached, c))))
      else Duplicate
    else if c - w.next > MAX_FORWARD_JUMPS then TooFar
    else Accepted(Window(c + 1, SkipTo(w.cached, w.next, c)))
  }

  function Range(from: nat, to: nat): (r: seq<nat>)
    ensures |r| == if from <= to then to - from else 0
    ensures forall j :: 0 <= j < |r| ==> r[j] == from + j
  {
    seq(if from <= to then to - from else 0, j requires 0 <= j => from + j)
  }

  /** The newest `MAX_MESSAGE_KEYS` entries. */
  function Newest(q: seq<nat>): seq<nat> {
    if |q| <= MAX_MESSAGE_KEYS then q else q[|q| - MAX_MESSAGE_KEYS..]
  }

  predicate Ascending(q: seq<nat>) {
    forall i, j :: 0 <= i < j < |q| ==> q[i] < q[j]
  }

  /** The cache is exactly the skipped, unconsumed counters at or above the floor. */
  ghost predicate Exact(w: Window, floor: nat, taken: set<nat>) {
    && Ascending(w.cached)
    && |w.cached| <= 2000
    && floor <= w.next
    && (forall c :: c in taken ==> c < w.next)
    && (forall c: nat :: c in w.cached <==> floor <= c < w.next && c !in taken)
  }

  /** The floor after counter `c` was accepted: it rises past what eviction dropped. */
  function FloorAfter(w: Window, floor: nat, c: nat): nat {
    var q := w.cached + Range(w.next, c);
    if c < w.next || |q| <= MAX_MESSAGE_KEYS then floor else q[|q| - MAX_MESSAGE_KEYS]
  }

  /** Trimming early or late makes no difference. */
  lemma NewestAfterPush(cached: seq<nat>, c: nat, rest: seq<nat>)
    requires |cached| <= MAX_MESSAGE_KEYS
    ensures Newest(Push(cached, c) + rest) == Newest(cached + [c] + rest)
  {
    var q := cached + [c] + rest;
    if |cached| == MAX_MESSAGE_KEYS { assert Push(cached, c) + rest == q[1..]; }
  }

  lemma {:induction false} SkipToIsNewest(cached: seq<nat>, from: nat, to: nat)
    requires |cached| <= MAX_MESSAGE_KEYS
    ensures SkipTo(cached, from, to) == Newest(cached + Range(from, to))
    decreases if from < to then to - from else 0
  {
    if from < to {
      SkipToIsNewest(Push(cached, from), from + 1, to);
      NewestAfterPush(cached, from, Range(from + 1, to));
      hide Push, Newest;
      assert Range(from, to) == [from] + Range(from + 1, to);
      assert cached + Range(from, to) == cached + [from] + Range(from + 1, to);
    } else {
      assert cached + Range(from, to) == cached;
    }
  }

  lemma {:induction false} AscendingGap(q: seq<nat>, i: nat, j: nat)
    requires Ascending(q) && i <= j < |q|
    ensures q[j] >= q[i] + (j - i)
  {
    if i < j { AscendingGap(q, i, j - 1); }
  }

  /** Which counters an exact window accepts, in terms of its past alone. */
  lemma AcceptanceCondition(w: Window, floor: nat, taken: set<nat>, c: nat)
    requires Exact(w, floor, taken)
    ensures Receive(w, c).Accepted? <==> c !in taken && floor <= c <= w.next + 2000
  {
  }

  lemma RemovalMembers(q: seq<nat>, p: nat, d: nat)
    requires Ascending(q) && p < |q|
    ensures Ascending(RemoveAt(q, p))
    ensures d in RemoveAt(q, p) <==> d in q && d != q[p]
  {
    var r := RemoveAt(q, p);
    if d in q && d != q[p] {
      var k :| 0 <= k < |q| && q[k] == d;
      assert r[if k < p then k else k - 1] == d;
    }
  }

  /** Skipping up to `c` before any eviction. */
  lemma ExtensionMembers(w: Window, floor: nat, taken: set<nat>, c: nat)
    requires Exact(w, floor, taken) && w.next <= c
    ensures Ascending(w.cached + Range(w.next, c))
    ensures forall d: nat :: d in w.cached + Range(w.next, c) <==> floor <= d < c && d !in taken
  {
    var q := w.cached + Range(w.next, c);
    forall i, j | 0 <= i < j < |q| ensures q[i] < q[j] {
      if i < |w.cached| { assert w.cached[i] in w.cached; }
    }
    forall d: nat ensures d in q <==> floor <= d < c && d !in taken {
      if w.next <= d < c { assert q[|w.cached| + d - w.next] == d; }
      if d in w.cached { assert q[IndexOf(w.cached, d)] == d; }
    }
  }

  lemma NewestMembers(q: seq<nat>, d: nat)
    requires Ascending(q) && |q| > MAX_MESSAGE_KEYS
    ensures d in Newest(q) <==> d in q && q[|q| - MAX_MESSAGE_KEYS] <= d
  {
    var cut := |q| - MAX_MESSAGE_KEYS;
    if d in q && q[cut] <= d {
      var k := IndexOf(q, d);
      assert Newest(q)[k - cut] == d;
    }
    if d in Newest(q) {
      var k := IndexOf(Newest(q), d);
      assert q[cut + k] == d;
    }
  }

  lemma TakingKeepsExact(w: Window, floor: nat, taken: set<nat>, c: nat)
    requires Exact(w, floor, taken) && c in w.cached
    ensures Exact(Window(w.next, RemoveAt(w.cached, IndexOf(w.cached, c))), floor, taken + {c})
  {
    var p := IndexOf(w.cached, c);
    forall d: nat
      ensures d in RemoveAt(w.cached, p) <==> floor <= d < w.next && d !in taken + {c}
    {
      RemovalMembers(w.cached, p, d);
    }
    RemovalMembers(w.cached, p, 0);
  }

  /** Dropping the oldest entries beyond the limit keeps exactness with a higher floor. */
  lemma TrimKeepsExact(q: seq<nat>, next: nat, floor: nat, taken: set<nat>)
    requires Ascending(q) && floor <= next
    requires forall c :: c in taken ==> c < next
    requires forall d: nat :: d in q <==> floor <= d < next && d !in taken
    requires |q| > MAX_MESSAGE_KEYS
    ensures Exact(Window(next, Newest(q)), q[|q| - MAX_MESSAGE_KEYS], taken)
    ensures q[|q| - MAX_MESSAGE_KEYS] >= floor
  {
    var cut := q[|q| - MAX_MESSAGE_KEYS];
    assert cut in q;
    forall d: nat ensures d in Newest(q) <==> cut <= d < next && d !in taken {
      NewestMembers(q, d);
    }
  }

  lemma SkippingKeepsExact(w: Window, floor: nat, taken: set<nat>, c: nat)
    requires Exact(w, floor, taken) && w.next <= c
    ensures Exact(Window(c + 1, SkipTo(w.cached, w.next, c)), FloorAfter(w, floor, c), taken + {c})
    ensures FloorAfter(w, floor, c) >= floor
  {
    var q := w.cached + Range(w.next, c);
    SkipToIsNewest(w.cached, w.next, c);
    ExtensionMembers(w, floor, taken, c);
    if |q| > MAX_MESSAGE_KEYS {
      TrimKeepsExact(q, c + 1, floor, taken + {c});
    }
  }

  /** Accepting keeps the cache exact, consumes the counter and never lowers the floor. */
  lemma ReceiveKeepsExact(w: Window, floor: nat, taken: set<nat>, c: nat)
    requires Exact(w, floor, taken)
    requires Receive(w, c).Accepted?
    ensures Exact(Receive(w, c).after, FloorAfter(w, floor, c), taken + {c})
    ensures FloorAfter(w, floor, c) >= floor
  {
    if c < w.next {
      TakingKeepsExact(w, floor, taken, c);
    } else {
      SkippingKeepsExact(w, floor, taken, c);
    }
  }

  lemma FloorNeverFalls(w: Window, floor: nat, taken: set<nat>, c: nat)
    requires Exact(w, floor, taken)
    ensures FloorAfter(w, floor, c) >= floor
  {
    if c >= w.next { SkippingKeepsExact(w, floor, taken, c); }
  }

  /** A whole sequence of deliveries, all of which are accepted. */
  ghost predicate AllAccepted(w: Window, order: seq<nat>)
    decreases |order|
  {
    order == [] || (Receive(w, order[0]).Accepted? && AllAccepted(Receive(w, order[0]).after, order[1..]))
  }

  ghost predicate DistinctWithin(order: seq<nat>, from: nat, count: nat) {
    && (forall i :: 0 <= i < |order| ==> from <= order[i] < from + count)
    && (forall i, j :: 0 <= i < j < |order| ==> order[i] != order[j])
  }

  /** The jump limit and the cache limit together: a delivery inside a window of 2001
      counters never pushes the floor above the start of that window. */
  lemma FloorStaysBelow(w: Window, floor: nat, taken: set<nat>, c: nat, from: nat)
    requires Exact(w, floor, taken)
    requires floor <= from <= c < from + MAX_MESSAGE_KEYS + 1
    ensures FloorAfter(w, floor, c) <= from
  {
    var q := w.cached + Range(w.next, c);
    if c >= w.next && |q| > MAX_MESSAGE_KEYS {
      ExtensionMembers(w, floor, taken, c);
      AscendingGap(q, |q| - MAX_MESSAGE_KEYS, |q| - 1);
      assert q[|q| - 1] in q;
    }
  }

  lemma {:induction false} DistinctOrderAccepted(
    w: Window, floor: nat, taken: set<nat>, order: seq<nat>, from: nat, count: nat)
    requires Exact(w, floor, taken)
    requires floor <= from <= w.next
    requires count <= MAX_MESSAGE_KEYS + 1
    requires DistinctWithin(order, from, count)
    requires forall i :: 0 <= i < |order| ==> order[i] !in taken
    ensures AllAccepted(w, order)
    decreases |order|
  {
    if order != [] {
      var c := order[0];
      AcceptanceCondition(w, floor, taken, c);
      ReceiveKeepsExact(w, floor, taken, c);
      FloorStaysBelow(w, floor, taken, c, from);
      DistinctOrderAccepted(Receive(w, c).after, FloorAfter(w, floor, c), taken + {c}, order[1..], from, count);
    }
  }

  /** Every duplicate-free order of a run of `count` consecutive counters from the next one
      is accepted completely if and only if `count` is at most 2001. */
  lemma ReorderingLimit(w: Window, floor: nat, taken: set<nat>, count: nat)
    requires Exact(w, floor, taken)
    ensures (forall order :: DistinctWithin(order, w.next, count) ==> AllAccepted(w, order))
       <==> count <= 2001
  {
    if count <= MAX_FORWARD_JUMPS + 1 {
      forall order | DistinctWithin(order, w.next, count) ensures AllAccepted(w, order) {
        DistinctOrderAccepted(w, floor, taken, order, w.next, count);
      }
    } else {
      var late := [w.next + MAX_FORWARD_JUMPS + 1];
      assert DistinctWithin(late, w.next, count);
      assert !AllAccepted(w, late);
    }
  }
}
