/** Labels attached to the retained sessions of a store, and when they stay unique while
    records are reordered, extended and trimmed. */
module Labels {
  import opened Prelude
  import opened Crypto
  import opened Session
  import opened Record
  import opened Store

  type Label = Option<KeyId>

  function LabelsOf(f: Session -> Label, all: seq<Session>): (r: seq<Label>)
    ensures |r| == |all|
    ensures forall i :: 0 <= i < |r| ==> r[i] == f(all[i])
  {
    seq(|all|, i requires 0 <= i < |all| => f(all[i]))
  }

  function Row(f: Session -> Label, rec: Record): seq<Label> { LabelsOf(f, Sessions(rec)) }

  lemma LabelsMoved(f: Session -> Label, all: seq<Session>, i: nat, s: Session)
    requires i < |all|
    ensures LabelsOf(f, [s] + RemoveAt(all, i)) == [f(s)] + RemoveAt(LabelsOf(f, all), i)
  {
  }

  lemma LabelsPushed(f: Session -> Label, all: seq<Session>, n: nat, s: Session)
    requires n <= |all|
    ensures LabelsOf(f, [s] + all[..n]) == [f(s)] + LabelsOf(f, all)[..n]
  {
  }

  lemma LabelsTrimmed(f: Session -> Label, all: seq<Session>, n: nat)
    requires n <= |all|
    ensures LabelsOf(f, all[..n]) == LabelsOf(f, all)[..n]
  {
  }

  function Table(f: Session -> Label, sessions: map<Address, Record>): map<Address, seq<Label>> {
    map a | a in sessions :: Row(f, sessions[a])
  }

  /** No label occurs twice in the whole table. */
  ghost predicate Unique(t: map<Address, seq<Label>>) {
    forall a, i, b, j :: a in t && b in t && 0 <= i < |t[a]| && 0 <= j < |t[b]| && t[a][i].Some? && t[a][i] == t[b][j]
      ==> a == b && i == j
  }

  ghost predicate Absent(t: map<Address, seq<Label>>, k: KeyId) {
    forall a, i :: a in t && 0 <= i < |t[a]| ==> t[a][i] != Some(k)
  }

  /** A row that was changed by moving one entry to the front, under an old or unused label. */
  lemma ReplaceKeepsUnique(t: map<Address, seq<Label>>, a: Address, i: nat, l: Label)
    requires Unique(t) && a in t && i < |t[a]|
    requires l == t[a][i] || l.None? || Absent(t, l.value)
    ensures Unique(t[a := [l] + RemoveAt(t[a], i)])
  {
    var row, row' := t[a], [l] + RemoveAt(t[a], i);
    forall j | 1 <= j < |row'| ensures row'[j] == row[if j <= i then j - 1 else j] {
    }
  }

  /** A row that gained a new entry in front and may have lost some at the end. */
  lemma AddKeepsUnique(t: map<Address, seq<Label>>, a: Address, row: seq<Label>, l: Label, n: nat)
    requires Unique(t) && n <= |row|
    requires a in t ==> t[a] == row
    requires a !in t ==> row == []
    requires l.None? || Absent(t, l.value)
    ensures Unique(t[a := [l] + row[..n]])
  {
    var row' := [l] + row[..n];
    forall j | 1 <= j < |row'| ensures row'[j] == row[j - 1] {
    }
  }

  lemma RemovedStaysAbsent(t: map<Address, seq<Label>>, a: Address, i: nat, l: Label, k: KeyId)
    requires Absent(t, k) && a in t && i < |t[a]| && l != Some(k)
    ensures Absent(t[a := [l] + RemoveAt(t[a], i)], k)
  {
    var row, row' := t[a], [l] + RemoveAt(t[a], i);
    forall j | 0 <= j < |row'| ensures row'[j] != Some(k) {
      if j > 0 { assert row'[j] == row[if j <= i then j - 1 else j]; }
    }
  }

  lemma AddedStaysAbsent(t: map<Address, seq<Label>>, a: Address, row: seq<Label>, l: Label, n: nat, k: KeyId)
    requires Absent(t, k) && n <= |row| && l != Some(k)
    requires a in t ==> t[a] == row
    requires a !in t ==> row == []
    ensures Absent(t[a := [l] + row[..n]], k)
  {
    var row' := [l] + row[..n];
    forall j | 0 <= j < |row'| ensures row'[j] != Some(k) {
      if j > 0 { assert row'[j] == row[j - 1]; }
    }
  }

  lemma TableUpdate(f: Session -> Label, sessions: map<Address, Record>, a: Address, rec: Record)
    ensures Table(f, sessions[a := rec]) == Table(f, sessions)[a := Row(f, rec)]
  {
  }

  /** What promoting a new session does to a row. */
  lemma PromotedRow(f: Session -> Label, rec: Record, s: Session) returns (n: nat)
    requires Bounded(rec)
    ensures n <= |Row(f, rec)|
    ensures Bounded(Promote(rec, s)) && Row(f, Promote(rec, s)) == [f(s)] + Row(f, rec)[..n]
    ensures Promote(Archive(rec), s) == Promote(rec, s)
  {
    n := |Archive(rec).previous|;
    assert Archive(rec).previous == Sessions(rec)[..n];
    assert Sessions(Promote(rec, s)) == [s] + Sessions(rec)[..n];
    LabelsPushed(f, Sessions(rec), n, s);
  }

  lemma TrimKeepsUnique(t: map<Address, seq<Label>>, a: Address, n: nat)
    requires Unique(t) && a in t && n <= |t[a]|
    ensures Unique(t[a := t[a][..n]])
  {
  }

  /** Where the entries of a list go when entry `k` is replaced and moved to the front. */
  lemma MovedToFront<T>(all: seq<T>, k: nat, x: T, i: nat)
    requires k < |all| && i < |all|
    ensures var j := if i == k then 0 else if i < k then i + 1 else i;
      j < |all| && ([x] + RemoveAt(all, k))[j] == if i == k then x else all[i]
  {
  }
}
