// Admission to the synchronous analysis endpoint: a bounded semaphore, a pool of
// workers and callers that may give up, as steps that interleave freely.
module Admission {
  const SLOTS := 4

  /** Where a request has got to; the slot is taken by Holding, Queued and Running requests. */
  datatype Stage =
    | Arrived      // not yet decided
    | Refused      // turned away before admission (400, 401, 413, 422)
    | Rejected     // no slot was free (503)
    | Holding      // slot taken, not yet submitted
    | Unsubmitted  // submission raised, slot given back
    | Queued       // submitted, waiting for a worker
    | Running      // a worker runs the analysis
    | Released     // the worker gave the slot back but has not settled the future
    | Done         // the future is settled and the worker is free

  datatype Caller = Waiting | Told(status: nat)

  datatype Request = Request(stage: Stage, caller: Caller, acquired: nat, released: nat)

  datatype System = System(free: int, requests: seq<Request>)

  datatype Event =
    | Arrive
    | Refuse(i: nat, status: nat)
    | Acquire(i: nat)
    | Submit(i: nat, ok: bool)
    | Start(i: nat)
    | Release(i: nat)
    | Settle(i: nat)
    | Answer(i: nat, ok: bool)
    | GiveUp(i: nat)

  /** The statuses with which a request is turned away before admission. */
  const REFUSALS: set<nat> := {400, 401, 403, 413, 422, 503}

  const FRESH := System(SLOTS, [])

  predicate Holds(r: Request) { r.stage.Holding? || r.stage.Queued? || r.stage.Running? }

  /** A pool thread is taken from the start of an analysis until its future is settled. */
  predicate Busy(r: Request) { r.stage.Running? || r.stage.Released? }

  function Holders(requests: seq<Request>): (n: nat)
    ensures n <= |requests|
  {
    if requests == [] then 0
    else Holders(requests[..|requests| - 1]) + if Holds(requests[|requests| - 1]) then 1 else 0
  }

  function BusyWorkers(requests: seq<Request>): nat {
    if requests == [] then 0
    else BusyWorkers(requests[..|requests| - 1]) + if Busy(requests[|requests| - 1]) then 1 else 0
  }

  /** What an event does to its own request and to the free slots; an event that is not enabled does nothing. */
  function Advance(r: Request, free: int, workersFree: bool, e: Event): (Request, int) {
    match e
    case Refuse(_, status) =>
      if r.stage.Arrived? && status in REFUSALS then (r.(stage := Refused, caller := Told(status)), free) else (r, free)
    case Acquire(_) =>
      if !r.stage.Arrived? then (r, free)
      else if free > 0 then (r.(stage := Holding, acquired := r.acquired + 1), free - 1)
      else (r.(stage := Rejected, caller := Told(503)), free)
    case Submit(_, ok) =>
      if !r.stage.Holding? then (r, free)
      else if ok then (r.(stage := Queued), free)
      else (r.(stage := Unsubmitted, caller := Told(500), released := r.released + 1), free + 1)
    case Start(_) => if r.stage.Queued? && workersFree then (r.(stage := Running), free) else (r, free)
    case Release(_) => if r.stage.Running? then (r.(stage := Released, released := r.released + 1), free + 1) else (r, free)
    case Settle(_) => if r.stage.Released? then (r.(stage := Done), free) else (r, free)
    case Answer(_, ok) =>
      if r.stage.Done? && r.caller.Waiting? then (r.(caller := Told(if ok then 200 else 500)), free) else (r, free)
    case GiveUp(_) =>
      if (r.stage.Queued? || r.stage.Running? || r.stage.Released?) && r.caller.Waiting? then (r.(caller := Told(504)), free)
      else (r, free)
    case Arrive => (r, free)
  }

  function Step(s: System, e: Event): System {
    if e.Arrive? then s.(requests := s.requests + [Request(Arrived, Waiting, 0, 0)])
    else if e.i >= |s.requests| then s
    else
      var (r, free) := Advance(s.requests[e.i], s.free, BusyWorkers(s.requests) < SLOTS, e);
      System(free, s.requests[e.i := r])
  }

  function Run(s: System, events: seq<Event>): System {
    if events == [] then s else Step(Run(s, events[..|events| - 1]), events[|events| - 1])
  }

  // ---- the invariant ----

  /** A request has taken at most one slot, and given it back exactly when it got past holding it. */
  predicate Honest(r: Request) {
    match r.stage
    case Arrived => r.acquired == 0 == r.released && r.caller.Waiting?
    case Refused => r.acquired == 0 == r.released
    case Rejected => r.acquired == 0 == r.released && r.caller == Told(503)
    case Holding => r.acquired == 1 && r.released == 0 && r.caller.Waiting?
    case Queued => r.acquired == 1 && r.released == 0
    case Running => r.acquired == 1 && r.released == 0
    case _ => r.acquired == 1 == r.released
  }

  ghost predicate Conserved(s: System) {
    && s.free >= 0 && s.free + Holders(s.requests) == SLOTS
    && BusyWorkers(s.requests) <= SLOTS
    && forall i :: 0 <= i < |s.requests| ==> Honest(s.requests[i])
  }

  // ---- what callers are told ----

  /** What the caller of a request at each stage can have been told. */
  predicate ToldRight(r: Request) {
    match r.stage
    case Arrived => r.caller.Waiting?
    case Refused => r.caller.Told? && r.caller.status in REFUSALS
    case Rejected => r.caller == Told(503)
    case Holding => r.caller.Waiting?
    case Unsubmitted => r.caller == Told(500)
    case Queued => r.caller == Waiting || r.caller == Told(504)
    case Running => r.caller == Waiting || r.caller == Told(504)
    case Released => r.caller == Waiting || r.caller == Told(504)
    case Done => r.caller == Waiting || r.caller == Told(200) || r.caller == Told(500) || r.caller == Told(504)
  }

  /** In every interleaving a caller has been told nothing but what the stage of its request allows. */
  lemma {:induction false} RunTellsRight(events: seq<Event>, i: nat)
    requires i < |Run(FRESH, events).requests|
    ensures ToldRight(Run(FRESH, events).requests[i])
  {
    hide BusyWorkers, Advance;
    if events != [] {
      var last := |events| - 1;
      var s := Run(FRESH, events[..last]);
      if i < |s.requests| {
        RunTellsRight(events[..last], i);
        AdvanceTellsRight(s.requests[i], s.free, BusyWorkers(s.requests) < SLOTS, events[last]);
      }
    }
  }

  lemma AdvanceTellsRight(r: Request, free: int, workersFree: bool, e: Event)
    requires ToldRight(r)
    ensures ToldRight(Advance(r, free, workersFree, e).0)
  {
  }

  /**
    What each event tells its caller: a refusal its status, a full house 503, a failed submission 500, a settled
    analysis 200 or 500, an expired wait 504; and nothing reaches a caller that was told before.
   */
  lemma EachAnswer(s: System, e: Event)
    requires !e.Arrive? && e.i < |s.requests| && ToldRight(s.requests[e.i])
    ensures var r, q := s.requests[e.i], Step(s, e).requests[e.i];
      && (r.caller.Told? ==> q.caller == r.caller)
      && (r.caller.Waiting? ==>
            && (q.caller == Told(503) && q.stage.Rejected? <==> e.Acquire? && r.stage.Arrived? && s.free <= 0)
            && (q.stage.Refused? <==> e.Refuse? && e.status in REFUSALS && r.stage.Arrived?)
            && (q.stage.Refused? ==> q.caller == Told(e.status))
            && (q.caller == Told(500) && q.stage.Unsubmitted? <==> e.Submit? && !e.ok && r.stage.Holding?)
            && (q.caller == Told(200) <==> e.Answer? && e.ok && r.stage.Done?)
            && (q.caller == Told(500) && q.stage.Done? <==> e.Answer? && !e.ok && r.stage.Done?)
            && (q.caller == Told(504) <==> e.GiveUp? && (r.stage.Queued? || r.stage.Running? || r.stage.Released?)))
  {
    hide BusyWorkers;
  }

  /** Told is told: no run takes an answer back or changes it. */
  lemma {:induction false} AnswersAreFinal(s: System, i: nat, events: seq<Event>)
    requires i < |s.requests| && ToldRight(s.requests[i]) && s.requests[i].caller.Told?
    ensures i < |Run(s, events).requests| && ToldRight(Run(s, events).requests[i])
    ensures Run(s, events).requests[i].caller == s.requests[i].caller
  {
    hide BusyWorkers, Advance;
    if events != [] {
      var last := |events| - 1;
      var t := Run(s, events[..last]);
      AnswersAreFinal(s, i, events[..last]);
      AdvanceTellsRight(t.requests[i], t.free, BusyWorkers(t.requests) < SLOTS, events[last]);
      AdvanceIsFinal(t.requests[i], t.free, BusyWorkers(t.requests) < SLOTS, events[last]);
    }
  }

  lemma AdvanceIsFinal(r: Request, free: int, workersFree: bool, e: Event)
    requires ToldRight(r) && r.caller.Told?
    ensures Advance(r, free, workersFree, e).0.caller == r.caller
  {
  }

  lemma {:induction false} CountUpdate(requests: seq<Request>, i: nat, r: Request)
    requires i < |requests|
    ensures Holders(requests[i := r]) ==
      Holders(requests) + (if Holds(r) then 1 else 0) - (if Holds(requests[i]) then 1 else 0)
    ensures BusyWorkers(requests[i := r]) ==
      BusyWorkers(requests) + (if Busy(r) then 1 else 0) - (if Busy(requests[i]) then 1 else 0)
  {
    var init, updated := requests[..|requests| - 1], requests[i := r];
    if i < |init| {
      CountUpdate(init, i, r);
      assert updated[..|requests| - 1] == init[i := r];
    } else {
      assert updated[..|requests| - 1] == init;
    }
  }

  /** One request's step moves its own slot and nothing else, and takes a worker only if one is free. */
  lemma AdvanceIsHonest(r: Request, free: nat, workersFree: bool, e: Event)
    requires Honest(r)
    ensures var (q, left) := Advance(r, free, workersFree, e);
      && Honest(q) && left >= 0
      && left + (if Holds(q) then 1 else 0) == free + (if Holds(r) then 1 else 0)
      && (Busy(q) ==> Busy(r) || workersFree)
  {
  }

  lemma StepConserves(s: System, e: Event)
    requires Conserved(s)
    ensures Conserved(Step(s, e))
  {
    if e.Arrive? {
      Arriving(s);
    } else if e.i < |s.requests| {
      OwnStepConserves(s, e);
    }
  }

  lemma OwnStepConserves(s: System, e: Event)
    requires Conserved(s) && !e.Arrive? && e.i < |s.requests|
    ensures Conserved(Step(s, e))
  {
    hide Advance, Holds, Busy, Honest, Holders, BusyWorkers;
    var workersFree := BusyWorkers(s.requests) < SLOTS;
    var (r, left) := Advance(s.requests[e.i], s.free, workersFree, e);
    AdvanceIsHonest(s.requests[e.i], s.free, workersFree, e);
    CountUpdate(s.requests, e.i, r);
  }

  lemma Arriving(s: System)
    requires Conserved(s)
    ensures Conserved(Step(s, Arrive))
  {
    var t := Step(s, Arrive);
    assert t.requests[..|s.requests|] == s.requests;
    assert Honest(t.requests[|s.requests|]);
    hide Honest;
  }

  /** In every interleaving the free slots and the requests holding one add up to four. */
  lemma {:induction false} RunConserves(events: seq<Event>)
    ensures Conserved(Run(FRESH, events))
  {
    if events != [] {
      RunConserves(events[..|events| - 1]);
      StepConserves(Run(FRESH, events[..|events| - 1]), events[|events| - 1]);
    }
  }

  lemma HonestMeans(r: Request)
    requires Honest(r)
    ensures r.released <= r.acquired <= 1
    ensures Holds(r) <==> r.released < r.acquired
    ensures r.acquired == 0 <==> r.stage.Arrived? || r.stage.Refused? || r.stage.Rejected?
  {
  }

  /** In every run a request releases exactly once if it was admitted and never otherwise, and holds a slot in between. */
  lemma OneReleaseEach(events: seq<Event>, i: nat)
    requires i < |Run(FRESH, events).requests|
    ensures var r := Run(FRESH, events).requests[i];
      && r.released <= r.acquired <= 1
      && (Holds(r) <==> r.released < r.acquired)
      && (r.acquired == 0 <==> r.stage.Arrived? || r.stage.Refused? || r.stage.Rejected?)
  {
    hide Run, Holders, BusyWorkers, Honest, Holds;
    RunConserves(events);
    HonestMeans(Run(FRESH, events).requests[i]);
  }

  // ---- what single steps do ----

  /** A caller that gives up, or is answered, changes no slot and no request's progress. */
  lemma CallersChangeNoSlot(s: System, e: Event)
    requires e.GiveUp? || e.Answer?
    ensures var t := Step(s, e);
      && t.free == s.free && |t.requests| == |s.requests|
      && Holders(t.requests) == Holders(s.requests)
      && forall k :: 0 <= k < |s.requests| ==> t.requests[k] == s.requests[k].(caller := t.requests[k].caller)
  {
    if e.i < |s.requests| {
      var (r, _) := Advance(s.requests[e.i], s.free, BusyWorkers(s.requests) < SLOTS, e);
      CountUpdate(s.requests, e.i, r);
    }
  }

  /** A request is rejected exactly when four others hold the slots. */
  lemma RejectedIffFull(s: System, i: nat)
    requires Conserved(s) && i < |s.requests| && s.requests[i].stage.Arrived?
    ensures Step(s, Acquire(i)).requests[i].stage == if Holders(s.requests) == SLOTS then Rejected else Holding
  {
    hide Honest, Holders, BusyWorkers;
  }

  /** Turned away means turned away for good, without ever having held a slot. */
  lemma {:induction false} TurnedAwayNeverHolds(s: System, i: nat, events: seq<Event>)
    requires i < |s.requests| && s.requests[i].acquired == 0
    requires s.requests[i].stage.Refused? || s.requests[i].stage.Rejected?
    ensures i < |Run(s, events).requests| && Run(s, events).requests[i] == s.requests[i]
  {
    if events != [] {
      TurnedAwayNeverHolds(s, i, events[..|events| - 1]);
    }
  }

  /** When no thread has yet to settle, every busy one holds a slot, and a queued request makes one holder more. */
  lemma {:induction false} BusyBound(requests: seq<Request>)
    requires forall k :: 0 <= k < |requests| ==> !requests[k].stage.Released?
    ensures BusyWorkers(requests) <= Holders(requests)
    ensures (exists k :: 0 <= k < |requests| && requests[k].stage.Queued?) ==> BusyWorkers(requests) < Holders(requests)
  {
    if requests != [] {
      var init := requests[..|requests| - 1];
      BusyBound(init);
      if k :| 0 <= k < |requests| && requests[k].stage.Queued? {
        assert k < |init| ==> init[k].stage.Queued?;
      }
    }
  }

  /** A queued request can start unless a thread that already released its slot has yet to settle. */
  lemma QueuedCanStart(s: System, i: nat)
    requires Conserved(s) && i < |s.requests| && s.requests[i].stage.Queued?
    requires forall k :: 0 <= k < |s.requests| ==> !s.requests[k].stage.Released?
    ensures Step(s, Start(i)).requests[i].stage.Running?
  {
    BusyBound(s.requests);
  }

  // ---- draining ----

  ghost predicate Quiet(s: System) {
    forall i :: 0 <= i < |s.requests| ==> !Holds(s.requests[i])
  }

  lemma {:induction false} NoHolders(requests: seq<Request>)
    requires forall i :: 0 <= i < |requests| ==> !Holds(requests[i])
    ensures Holders(requests) == 0
  {
    if requests != [] { NoHolders(requests[..|requests| - 1]); }
  }

  /** Once every worker has finished, all four slots are free, whatever the callers did. */
  lemma QuietMeansFree(s: System)
    requires Conserved(s) && Quiet(s)
    ensures s.free == SLOTS
  {
    NoHolders(s.requests);
  }

  /** Steps that request still needs before its thread is free again. */
  function Remaining(r: Request): nat {
    match r.stage
    case Holding => 4
    case Queued => 3
    case Running => 2
    case Released => 1
    case _ => 0
  }

  function Work(requests: seq<Request>): nat {
    if requests == [] then 0 else Work(requests[..|requests| - 1]) + Remaining(requests[|requests| - 1])
  }

  lemma {:induction false} WorkUpdate(requests: seq<Request>, i: nat, r: Request)
    requires i < |requests|
    ensures Work(requests[i := r]) == Work(requests) + Remaining(r) - Remaining(requests[i])
  {
    var init, updated := requests[..|requests| - 1], requests[i := r];
    if i < |init| {
      WorkUpdate(init, i, r);
      assert updated[..|requests| - 1] == init[i := r];
    } else {
      assert updated[..|requests| - 1] == init;
    }
  }

  /** The worker-side event a request is waiting for. */
  function Pending(r: Request, i: nat): Event {
    match r.stage
    case Holding => Submit(i, true)
    case Queued => Start(i)
    case Running => Release(i)
    case _ => Settle(i)
  }

  lemma PendingAdvances(s: System, i: nat)
    requires i < |s.requests| && Remaining(s.requests[i]) > 0
    requires s.requests[i].stage.Queued? ==> BusyWorkers(s.requests) < SLOTS
    ensures var t := Step(s, Pending(s.requests[i], i));
      |t.requests| == |s.requests| && Work(t.requests) < Work(s.requests)
  {
    hide Work, BusyWorkers;
    var r := s.requests[i];
    WorkUpdate(s.requests, i, Advance(r, s.free, BusyWorkers(s.requests) < SLOTS, Pending(r, i)).0);
  }

  /** Some worker-side event brings the system closer to rest: settle first, so that a thread is free to start. */
  lemma NextEvent(s: System, i: nat) returns (e: Event)
    requires Conserved(s) && i < |s.requests| && Remaining(s.requests[i]) > 0
    ensures !e.Arrive? && !e.Acquire?
    ensures |Step(s, e).requests| == |s.requests| && Work(Step(s, e).requests) < Work(s.requests)
  {
    hide Step, Work;
    var k := i;
    if j :| 0 <= j < |s.requests| && s.requests[j].stage.Released? {
      k := j;
    } else {
      hide Holders, BusyWorkers, Honest;
      BusyBound(s.requests);
    }
    hide Holders, BusyWorkers, Honest;
    PendingAdvances(s, k);
    e := Pending(s.requests[k], k);
  }

  lemma {:induction false} RunAppend(s: System, e: Event, events: seq<Event>)
    ensures Run(s, [e] + events) == Run(Step(s, e), events)
  {
    if events == [] {
      assert [e] + events == [e];
    } else {
      var last := |events| - 1;
      RunAppend(s, e, events[..last]);
      assert ([e] + events)[..|events|] == [e] + events[..last];
    }
  }

  /** From any reachable state the workers can finish without another admission, and then every slot is free. */
  lemma {:induction false} CanDrain(s: System) returns (events: seq<Event>)
    requires Conserved(s)
    ensures Run(s, events).free == SLOTS
    ensures forall k :: 0 <= k < |events| ==> !events[k].Arrive? && !events[k].Acquire?
    decreases Work(s.requests)
  {
    hide Step, Work, Holders, BusyWorkers, Honest;
    if i :| 0 <= i < |s.requests| && Remaining(s.requests[i]) > 0 {
      var e := NextEvent(s, i);
      StepConserves(s, e);
      var rest := CanDrain(Step(s, e));
      RunAppend(s, e, rest);
      events := [e] + rest;
    } else {
      QuietMeansFree(s);
      events := [];
    }
  }

  // ---- a submission that is not atomic ----

  /** The pool queues the work and then raises: the handler releases the slot although a worker will release it too. */
  function TornSubmit(s: System, i: nat): System
    requires i < |s.requests| && s.requests[i].stage.Holding?
  {
    var r := s.requests[i].(stage := Queued, caller := Told(500), released := s.requests[i].released + 1);
    System(s.free + 1, s.requests[i := r])
  }

  /** Without atomic submission there is always one slot too many. */
  lemma TornSubmitBreaks(s: System, i: nat)
    requires Conserved(s) && i < |s.requests| && s.requests[i].stage.Holding?
    ensures var t := TornSubmit(s, i); t.free + Holders(t.requests) == SLOTS + 1 && !Conserved(t)
  {
    CountUpdate(s.requests, i, TornSubmit(s, i).requests[i]);
  }

  predicate AdmitsOnly(events: seq<Event>) {
    forall k :: 0 <= k < |events| ==> events[k].Arrive? || events[k].Acquire?
  }

  /** Every free slot can be taken by a request that arrives. */
  lemma {:induction false} FillUp(s: System) returns (events: seq<Event>)
    requires s.free >= 0
    ensures AdmitsOnly(events)
    ensures Run(s, events).free == 0 && Holders(Run(s, events).requests) == Holders(s.requests) + s.free
    decreases s.free
  {
    if s.free == 0 {
      events := [];
    } else {
      var n, arrived := |s.requests|, Step(s, Arrive);
      assert arrived.requests[..n] == s.requests;
      var admitted := Step(arrived, Acquire(n));
      CountUpdate(arrived.requests, n, admitted.requests[n]);
      hide Step, Holders;
      var rest := FillUp(admitted);
      RunAppend(arrived, Acquire(n), rest);
      RunAppend(s, Arrive, [Acquire(n)] + rest);
      events := [Arrive] + ([Acquire(n)] + rest);
    }
  }

  /** After a torn submission five requests can hold a slot at once, by admissions alone. */
  lemma FifthIsAdmitted(s: System, i: nat) returns (events: seq<Event>)
    requires Conserved(s) && i < |s.requests| && s.requests[i].stage.Holding?
    ensures AdmitsOnly(events) && Holders(Run(TornSubmit(s, i), events).requests) == SLOTS + 1
  {
    hide Holders, BusyWorkers, Honest, Run;
    TornSubmitBreaks(s, i);
    events := FillUp(TornSubmit(s, i));
  }
}
