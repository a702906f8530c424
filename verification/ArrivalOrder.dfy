/** Over every run that does not preempt, requests are admitted in the order they arrived. */
module ArrivalOrder {
  import opened Common
  import opened Tensors
  import opened Decoders
  import opened Arenas
  import opened Requests
  import opened Scheduling
  import opened Serving
  import opened EngineRuns

  /** The requests a scheduling step moves into `running`. */
  function AdmittedNow(cfg: Config, sys: Sys): seq<Id> {
    var after := Schedule(cfg, sys).0.running;
    if |sys.running| <= |after| then after[|sys.running|..] else []
  }

  /** Every admission of the run, in the order they happened. */
  function Admissions(d: Decoder, cfg: Config, en: Engine, actions: seq<Action>): seq<Id>
    decreases |actions|
  {
    if actions == [] then []
    else
      (if en.alive && actions[0].Iterate? && HasWork(en.sys) then AdmittedNow(cfg, en.sys) else [])
      + Admissions(d, cfg, Act(d, cfg, en, actions[0]), actions[1..])
  }

  function Ids(rs: seq<Request>): (r: seq<Id>)
    ensures |r| == |rs| && forall i :: 0 <= i < |rs| ==> r[i] == rs[i].id
  {
    seq(|rs|, i requires 0 <= i < |rs| => rs[i].id)
  }

  /** Every request the worker took out of its inbox, in the order it did. */
  function Arrivals(d: Decoder, cfg: Config, en: Engine, actions: seq<Action>): seq<Id>
    decreases |actions|
  {
    if actions == [] then []
    else
      (if en.alive && actions[0].DrainInbox? then Ids(en.inbox) else [])
      + Arrivals(d, cfg, Act(d, cfg, en, actions[0]), actions[1..])
  }

  lemma {:induction false} AdmitTakesPrefix(cfg: Config, sys: Sys, b: Batch) returns (k: nat)
    ensures k <= |sys.waiting|
    ensures var sys' := Admit(cfg, sys, b).0; sys'.running == sys.running + sys.waiting[..k] && sys'.waiting == sys.waiting[k..]
    decreases |sys.waiting|
  {
    hide Needed, Available;
    if sys.waiting == [] || |sys.running| >= cfg.maxBatch || |b.prefill| >= cfg.maxPrefills || Needed(sys, At(sys.reqs, sys.waiting[0])) > Available(cfg, sys) {
      k := 0;
      assert sys.running + sys.waiting[..0] == sys.running && sys.waiting[0..] == sys.waiting;
    } else {
      var id := sys.waiting[0];
      var sys1 := sys.(waiting := sys.waiting[1..], reqs := sys.reqs[id := At(sys.reqs, id).(state := Prefilling)], running := sys.running + [id]);
      var k1 := AdmitTakesPrefix(cfg, sys1, b.(prefill := b.prefill + [id]));
      k := k1 + 1;
      assert sys.running + sys.waiting[..k] == sys1.running + sys1.waiting[..k1];
      assert sys.waiting[k..] == sys1.waiting[k1..];
    }
  }

  lemma {:induction false} FailAllWaiting(en: Engine, ids: seq<Id>)
    ensures FailAll(en, ids).sys.waiting == en.sys.waiting
    decreases |ids|
  {
    if ids != [] {
      FailAllWaiting(FailOne(en, ids[0]), ids[1..]);
    }
  }

  lemma {:induction false} ApplyAllWaiting(cfg: Config, en: Engine, out: Output, ids: seq<Id>)
    ensures ApplyAll(cfg, en, out, ids).sys.waiting == en.sys.waiting
    decreases |ids|
  {
    if ids != [] {
      ApplyOneWaiting(cfg, en, out, ids[0]);
      hide ApplyOne;
      ApplyAllWaiting(cfg, ApplyOne(cfg, en, out, ids[0]), out, ids[1..]);
    }
  }

  lemma ApplyOneWaiting(cfg: Config, en: Engine, out: Output, id: Id)
    ensures ApplyOne(cfg, en, out, id).sys.waiting == en.sys.waiting
  {
  }

  lemma StepTakesPrefix(d: Decoder, cfg: Config, en: Engine, fuel: nat)
    ensures AdmittedNow(cfg, en.sys) + Step(d, cfg, en, fuel).sys.waiting == en.sys.waiting
  {
    hide Admit, Pick, Execute, FailAll, ApplyAll;
    var k := AdmitTakesPrefix(cfg, en.sys, Pick(cfg, en.sys.reqs, en.sys.running, Batch([], [])));
    var (sys, b) := Schedule(cfg, en.sys);
    assert AdmittedNow(cfg, en.sys) == en.sys.waiting[..k];
    var e := Execute(d, cfg, sys, b, fuel);
    var en1 := en.(sys := sys.(reqs := e.reqs, arena := e.arena));
    FailAllWaiting(en1, b.prefill + b.decode);
    ApplyAllWaiting(cfg, en1, e.out, b.prefill + b.decode);
  }

  lemma {:induction false} DrainQueues(en: Engine)
    ensures Drain(en).sys.waiting == en.sys.waiting + Ids(en.inbox)
    decreases |en.inbox|
  {
    hide Ids;
    if en.inbox == [] {
      assert en.sys.waiting + Ids(en.inbox) == en.sys.waiting;
    } else {
      var r := en.inbox[0];
      DrainQueues(en.(inbox := en.inbox[1..], emitters := if r.id in en.emitters then en.emitters else en.emitters + [r.id], sys := AddRequest(en.sys, r)));
      IdsFront(en.inbox);
      assert en.sys.waiting + ([r.id] + Ids(en.inbox[1..])) == (en.sys.waiting + [r.id]) + Ids(en.inbox[1..]);
    }
  }

  lemma IdsFront(rs: seq<Request>)
    requires rs != []
    ensures Ids(rs) == [rs[0].id] + Ids(rs[1..])
  {
  }

  /** Over any run, whatever faults strike: who was waiting and who arrived, in that order, is who was
      admitted, in that order, followed by who is still waiting. */
  lemma {:induction false} AdmissionIsArrivalOrder(d: Decoder, cfg: Config, en: Engine, actions: seq<Action>)
    ensures Admissions(d, cfg, en, actions) + Run(d, cfg, en, actions).sys.waiting == en.sys.waiting + Arrivals(d, cfg, en, actions)
    decreases |actions|
  {
    hide Step, Drain, AdmittedNow, HasWork, Ids;
    if actions == [] {
      assert [] + en.sys.waiting == en.sys.waiting + [];
    } else {
      var en1 := Act(d, cfg, en, actions[0]);
      var now := if en.alive && actions[0].Iterate? && HasWork(en.sys) then AdmittedNow(cfg, en.sys) else [];
      var came := if en.alive && actions[0].DrainInbox? then Ids(en.inbox) else [];
      if en.alive {
        DrainQueues(en);
        if actions[0].Iterate? {
          StepTakesPrefix(d, cfg, en, actions[0].fuel);
        }
      }
      assert now + en1.sys.waiting == en.sys.waiting + came;
      AdmissionIsArrivalOrder(d, cfg, en1, actions[1..]);
      var later, arrived := Admissions(d, cfg, en1, actions[1..]), Arrivals(d, cfg, en1, actions[1..]);
      var last := Run(d, cfg, en1, actions[1..]).sys.waiting;
      Rearrange(now, later, last, en1.sys.waiting, en.sys.waiting, came, arrived);
    }
  }

  lemma Rearrange(now: seq<Id>, later: seq<Id>, last: seq<Id>, mid: seq<Id>, first: seq<Id>, came: seq<Id>, arrived: seq<Id>)
    requires now + mid == first + came && later + last == mid + arrived
    ensures (now + later) + last == first + (came + arrived)
  {
    calc {
      (now + later) + last;
      now + (later + last);
      now + (mid + arrived);
      (now + mid) + arrived;
      (first + came) + arrived;
      first + (came + arrived);
    }
  }
}
