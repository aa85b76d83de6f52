/** Yjs payloads. The server never looks inside a payload: here one is the finite
    set of operations it carries, and applying payloads to a document unites them. */
module Yjs {

  type Ops = set<nat>

  /** Everything a list of payloads carries. */
  function Merge(payloads: seq<Ops>): Ops
  {
    if payloads == [] then {} else Merge(payloads[1..]) + payloads[0]
  }

  lemma {:induction false} InMerge(payloads: seq<Ops>, op: nat)
    ensures op in Merge(payloads) <==> exists i :: 0 <= i < |payloads| && op in payloads[i]
  {
    if payloads != [] {
      InMerge(payloads[1..], op);
      if i :| 0 <= i < |payloads| && op in payloads[i] {
        assert i == 0 || payloads[1..][i - 1] == payloads[i];
      }
      if i :| 0 <= i < |payloads[1..]| && op in payloads[1..][i] {
        assert op in payloads[i + 1];
      }
    }
  }

  /** The client's view of hydration: start from `doc`, apply the payloads in order. */
  function Replay(doc: Ops, payloads: seq<Ops>): Ops
    decreases |payloads|
  {
    if payloads == [] then doc else Replay(doc + payloads[0], payloads[1..])
  }

  lemma {:induction false} ReplayIsMerge(doc: Ops, payloads: seq<Ops>)
    ensures Replay(doc, payloads) == doc + Merge(payloads)
    decreases |payloads|
  {
    if payloads != [] {
      ReplayIsMerge(doc + payloads[0], payloads[1..]);
    }
  }

  /** Replaying is idempotent and does not depend on order or repetition: two lists
      with the same payloads rebuild the same document, and a retry changes nothing. */
  lemma {:induction false} ReplayIsIdempotent(doc: Ops, payloads: seq<Ops>, again: seq<Ops>)
    requires forall p :: p in payloads <==> p in again
    ensures Replay(doc, payloads) == Replay(doc, again)
    ensures Replay(Replay(doc, payloads), again) == Replay(doc, payloads)
  {
    ReplayIsMerge(doc, payloads);
    ReplayIsMerge(doc, again);
    ReplayIsMerge(Replay(doc, payloads), again);
    SubsetMerge(payloads, again);
    SubsetMerge(again, payloads);
  }

  lemma {:induction false} SubsetMerge(a: seq<Ops>, b: seq<Ops>)
    requires forall p :: p in a ==> p in b
    ensures Merge(a) <= Merge(b)
  {
    forall op | op in Merge(a) ensures op in Merge(b) {
      InMerge(a, op);
      InMerge(b, op);
      var i :| 0 <= i < |a| && op in a[i];
      assert a[i] in b;
    }
  }

  lemma {:induction false} MergeConcat(a: seq<Ops>, b: seq<Ops>)
    ensures Merge(a + b) == Merge(a) + Merge(b)
  {
    if a == [] {
      assert a + b == b;
    } else {
      assert (a + b)[0] == a[0] && (a + b)[1..] == a[1..] + b;
      MergeConcat(a[1..], b);
    }
  }

  /** Every payload carries an operation that no other payload of the list carries. */
  ghost predicate Fresh(payloads: seq<Ops>)
  {
    forall i :: 0 <= i < |payloads| ==>
      exists op :: op in payloads[i] && OnlyIn(payloads, i, op)
  }

  ghost predicate OnlyIn(payloads: seq<Ops>, i: int, op: nat)
  {
    forall j :: 0 <= j < |payloads| && j != i ==> op !in payloads[j]
  }

  /** Leaving out [low, from) or [to, end) loses something, as each payload brings
      an operation of its own. */
  lemma {:induction false} MissingPart(payloads: seq<Ops>, low: nat, from: nat, to: nat)
    requires Fresh(payloads) && low <= from <= to <= |payloads|
    requires low < from || to < |payloads|
    ensures !(Merge(payloads) <= Merge(payloads[..low]) + Merge(payloads[from..to]))
  {
    var m := if low < from then low else to;
    var op :| op in payloads[m] && OnlyIn(payloads, m, op);
    InMerge(payloads, op);
    InMerge(payloads[..low], op);
    InMerge(payloads[from..to], op);
    assert forall i :: 0 <= i < low ==> payloads[..low][i] == payloads[i];
    assert forall i :: 0 <= i < to - from ==> payloads[from..to][i] == payloads[from + i];
  }

  lemma {:induction false} AllParts(payloads: seq<Ops>, low: nat)
    requires low <= |payloads|
    ensures Merge(payloads[..low]) + Merge(payloads[low..]) == Merge(payloads)
  {
    MergeConcat(payloads[..low], payloads[low..]);
    assert payloads == payloads[..low] + payloads[low..];
  }

  lemma {:induction false} WholeIffNothingMissing(payloads: seq<Ops>, low: nat, from: nat, to: nat)
    requires Fresh(payloads) && low <= from <= to <= |payloads|
    ensures Merge(payloads[..low]) + Merge(payloads[from..to]) == Merge(payloads) <==> low == from && to == |payloads|
  {
    if low == from && to == |payloads| {
      AllParts(payloads, low);
      assert payloads[from..to] == payloads[low..];
    } else {
      MissingPart(payloads, low, from, to);
    }
  }

  /** No operation is in two payloads. */
  ghost predicate Disjoint(payloads: seq<Ops>)
  {
    forall i, j :: 0 <= i < j < |payloads| ==> payloads[i] !! payloads[j]
  }

  lemma {:induction false} DisjointParts(payloads: seq<Ops>, n: nat)
    requires Disjoint(payloads) && n <= |payloads|
    ensures Merge(payloads[..n]) !! Merge(payloads[n..])
  {
    forall op | op in Merge(payloads[..n]) ensures op !in Merge(payloads[n..]) {
      InMerge(payloads[..n], op);
      InMerge(payloads[n..], op);
      var i :| 0 <= i < n && op in payloads[..n][i];
      forall j | n <= j < |payloads| ensures op !in payloads[j] {
        assert payloads[i] !! payloads[j];
      }
    }
  }

  /** What the first `n` payloads carry. */
  function Upto(payloads: seq<Ops>, n: nat): Ops { if n <= |payloads| then Merge(payloads[..n]) else {} }

  lemma UptoStable(payloads: seq<Ops>, more: seq<Ops>, n: nat)
    requires n <= |payloads| && payloads <= more
    ensures Upto(more, n) == Upto(payloads, n)
  {
    assert more[..n] == payloads[..n];
  }
}
