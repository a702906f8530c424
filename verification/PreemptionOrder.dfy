/** Whether preempted requests return to the queue in the order they arrived. */
module PreemptionOrder {
  import opened Common
  import opened Tensors
  import opened Arenas
  import opened ArenaProofs
  import opened Requests
  import opened Scheduling
  import opened LifecycleProofs
  import opened PreemptionProofs

  /** These requests stand in the order in which they arrived, by whatever clock. */
  ghost predicate InOrder(arrived: Id -> int, ids: seq<Id>) {
    forall i, j :: 0 <= i < j < |ids| ==> arrived(ids[i]) < arrived(ids[j])
  }

  lemma OrderSplit(arrived: Id -> int, a: seq<Id>, b: seq<Id>)
    ensures InOrder(arrived, a + b) <==>
      InOrder(arrived, a) && InOrder(arrived, b) && forall x, y :: x in a && y in b ==> arrived(x) < arrived(y)
  {
    var c := a + b;
    if InOrder(arrived, c) {
      assert forall i :: 0 <= i < |a| ==> a[i] == c[i];
      assert forall i :: 0 <= i < |b| ==> b[i] == c[|a| + i];
    }
  }

  lemma {:induction false} CandidatesInOrder(arrived: Id -> int, sys: Sys, ids: seq<Id>)
    requires InOrder(arrived, ids)
    ensures InOrder(arrived, Candidates(sys, ids)) && forall x :: x in Candidates(sys, ids) ==> x in ids
  {
    if ids != [] {
      assert ids == [ids[0]] + ids[1..];
      OrderSplit(arrived, [ids[0]], ids[1..]);
      CandidatesInOrder(arrived, sys, ids[1..]);
      OrderSplit(arrived, [ids[0]], Candidates(sys, ids[1..]));
    }
  }

  /** Enough is free, or there is at most one candidate, or preempting the newest alone frees enough: at
      most one request is preempted. */
  ghost predicate AtMostOneVictim(sys: Sys, needed: int) {
    var newestFirst := Reverse(Candidates(sys, sys.running));
    || needed <= NumFree(sys)
    || |newestFirst| <= 1
    || needed <= NumFree(PreemptMany(sys, newestFirst[..1]))
  }

  lemma StopsByOne(sys: Sys, needed: int, k: nat)
    requires StopsFirst(sys, Reverse(Candidates(sys, sys.running)), needed, k)
    ensures k <= 1 <==> AtMostOneVictim(sys, needed)
  {
    var newestFirst := Reverse(Candidates(sys, sys.running));
    assert newestFirst[..0] == [];
    if k > 1 {
      assert NumFree(PreemptMany(sys, newestFirst[..0])) < needed;
      assert NumFree(PreemptMany(sys, newestFirst[..1])) < needed;
    }
  }

  /** Victims return ahead of everything waiting, newest first. So, whenever running and waiting requests
      stood in the order they arrived, the queue afterwards does exactly when at most one was preempted:
      with two, the later arrival stands ahead of the earlier one. */
  lemma QueueInOrderIff(sys: Sys, hs: seq<Hist>, kvOf: Oracle, needed: int, arrived: Id -> int)
    requires Queues(sys) && Live(sys, hs, kvOf) && InOrder(arrived, sys.running + sys.waiting)
    ensures InOrder(arrived, PreemptToFree(sys, needed).0.waiting) <==> AtMostOneVictim(sys, needed)
  {
    hide Queues, Live, PreemptToFree, PreemptMany, Evicted, StopsFirst, AtMostOneVictim, Reverse, Candidates, InOrder;
    var hs', k := PreemptToFreeCorrect(sys, hs, kvOf, needed);
    var candidates := Candidates(sys, sys.running);
    var newestFirst := Reverse(candidates);
    StopsByOne(sys, needed, k);
    StopsWithin(sys, newestFirst, needed, k);
    ReversePrefix(candidates, k);
    OrderSplit(arrived, sys.running, sys.waiting);
    CandidatesInOrder(arrived, sys, sys.running);
    Requeue(arrived, candidates, k, sys.running, sys.waiting);
  }

  lemma Requeue(arrived: Id -> int, candidates: seq<Id>, k: nat, running: seq<Id>, waiting: seq<Id>)
    requires InOrder(arrived, candidates) && k <= |candidates| && InOrder(arrived, waiting)
    requires forall x :: x in candidates ==> x in running
    requires forall x, y :: x in running && y in waiting ==> arrived(x) < arrived(y)
    ensures InOrder(arrived, Reverse(candidates)[..k] + waiting) <==> k <= 1
  {
    hide Reverse, InOrder;
    var victims := Reverse(candidates)[..k];
    OrderSplit(arrived, victims, waiting);
    FewVictims(arrived, candidates, k);
    forall x | x in victims ensures x in candidates {
      var i :| 0 <= i < k && victims[i] == x;
      assert x == candidates[|candidates| - 1 - i];
    }
  }

  lemma FewVictims(arrived: Id -> int, candidates: seq<Id>, k: nat)
    requires InOrder(arrived, candidates) && k <= |candidates|
    ensures InOrder(arrived, Reverse(candidates)[..k]) <==> k <= 1
  {
    hide Reverse;
    var victims, n := Reverse(candidates)[..k], |candidates|;
    if k > 1 {
      assert victims[0] == candidates[n - 1] && victims[1] == candidates[n - 2];
      assert arrived(victims[1]) < arrived(victims[0]);
    }
  }
}
