/** One pass of the outbox worker: as a loop over the table, and as steps of the outbox machine. */
module OutboxWorker {
  import opened Outbox

  /** How the calls of one attempt are answered, and what the clock says at its requeue. */
  datatype Answers = Answers(
    claim: Reply, taken: bool, acknowledged: bool, mark: Reply, requeue: Reply, requeuedAt: int)

  function Sent(e: Event, a: Answers): Event {
    e.(sends := e.sends + 1, delivered := e.delivered + if a.taken || a.acknowledged then 1 else 0)
  }

  function Requeued(e: Event, at: int): Event {
    e.(status := Pending, availableAt := at + RETRY_DELAY_MS)
  }

  predicate MarkedDone(a: Answers) {
    a.acknowledged && a.mark == Done
  }

  /** A claimed event after publish, mark and, if either failed, requeue. */
  function Tried(claimed: Event, a: Answers): Event {
    var sent := Sent(claimed, a);
    var marked := if a.acknowledged && a.mark != NotApplied then sent.(status := Published) else sent;
    if MarkedDone(a) || a.requeue == NotApplied then marked else Requeued(marked, a.requeuedAt)
  }

  /** An event after one attempt at it, and whether the pass goes on: a claim or a requeue that throws ends it. */
  function Attempt(e: Event, a: Answers): (Event, bool) {
    if a.claim == NotApplied then (e, false)
    else if e.status != Pending then (e, a.claim == Done)
    else if a.claim == Lost then (Claimed(e), false)
    else (Tried(Claimed(e), a), MarkedDone(a) || a.requeue == Done)
  }

  predicate InTable(events: seq<Event>, batch: seq<nat>) {
    forall k :: 0 <= k < |batch| ==> batch[k] < |events|
  }

  /** The table after attempts at the events of a batch in turn. */
  function Pass(events: seq<Event>, batch: seq<nat>, answers: nat -> Answers): seq<Event>
    requires InTable(events, batch)
    decreases |batch|
  {
    if batch == [] then events
    else
      var (e, goesOn) := Attempt(events[batch[0]], answers(batch[0]));
      var next := events[batch[0] := e];
      if goesOn then Pass(next, batch[1..], answers) else next
  }

  class Table {
    var events: seq<Event>
    var isProcessing: bool

    constructor ()
      ensures events == [] && !isProcessing
    {
      events, isProcessing := [], false;
    }

    method CreateDomainEventOutboxEntry(key: string, createdAt: int, availableAt: int)
      modifies this`events
      ensures events == Enqueue(old(events), key, createdAt, availableAt)
    {
      if key != "" && !HasKey(events, key) {
        events := events + [Event(key, createdAt, Pending, 0, availableAt, 0, 0)];
      }
    }

    /** The compare-and-set by which a worker takes an event. */
    method TryClaim(id: nat) returns (count: nat)
      requires id < |events|
      modifies this`events
      ensures count == if old(events)[id].status == Pending then 1 else 0
      ensures events == if count == 1 then old(events)[id := Claimed(old(events)[id])] else old(events)
    {
      if events[id].status != Pending {
        return 0;
      }
      events := events[id := events[id].(status := Publishing, attempts := events[id].attempts + 1)];
      return 1;
    }

    /** Publish, then mark; what fails in either is caught and requeued. */
    method PublishAndMark(id: nat, a: Answers) returns (goesOn: bool)
      requires id < |events| && events[id].status == Publishing
      modifies this`events
      ensures events == old(events)[id := Tried(old(events)[id], a)]
      ensures goesOn <==> MarkedDone(a) || a.requeue == Done
    {
      var delivered := if a.taken || a.acknowledged then events[id].delivered + 1 else events[id].delivered;
      events := events[id := events[id].(sends := events[id].sends + 1, delivered := delivered)];
      if a.acknowledged {
        if a.mark != NotApplied {
          events := events[id := events[id].(status := Published)];
        }
        if a.mark == Done {
          return true;
        }
      }
      if a.requeue != NotApplied {
        events := events[id := events[id].(status := Pending, availableAt := a.requeuedAt + RETRY_DELAY_MS)];
      }
      return a.requeue == Done;
    }

    /** The body of the loop. */
    method AttemptEvent(id: nat, a: Answers) returns (goesOn: bool)
      requires id < |events|
      modifies this`events
      ensures var (e, on) := Attempt(old(events)[id], a); events == old(events)[id := e] && goesOn == on
    {
      if a.claim == NotApplied {
        return false;
      }
      var claimed := TryClaim(id);
      if claimed == 0 || a.claim == Lost {
        return a.claim == Done;
      }
      goesOn := PublishAndMark(id, a);
    }

    /** A pass that is still going on turns a second one away; however a pass ends, the flag is taken back. */
    method ProcessOutboxBatch(answers: nat -> Answers, now: int)
      modifies this
      ensures old(isProcessing) ==> events == old(events) && isProcessing
      ensures !old(isProcessing) ==>
        && InTable(old(events), NextBatch(old(events), now))
        && events == Pass(old(events), NextBatch(old(events), now), answers) && !isProcessing
    {
      if isProcessing {
        return;
      }
      isProcessing := true;
      var batch := NextBatch(events, now);
      ghost var whole := Pass(events, batch, answers);
      var goesOn, k := true, 0;
      while goesOn && k < |batch|
        invariant k <= |batch| && |events| == |old(events)|
        invariant whole == if goesOn then Pass(events, batch[k..], answers) else events
        decreases |batch| - k, goesOn
      {
        assert batch[k..][1..] == batch[k + 1..];
        goesOn := AttemptEvent(batch[k], answers(batch[k]));
        k := k + 1;
      }
      isProcessing := false;
    }
  }

  // ---------- the same pass in steps of the machine ----------

  /** All calls of one attempt; a call that the worker is not at does nothing. */
  function AttemptInSteps(s: State, w: nat, a: Answers): State {
    var sent := Apply(Apply(s, ClaimStep(w, a.claim)), SendStep(w, a.taken, a.acknowledged));
    Apply(Apply(sent, MarkStep(w, a.mark)), RequeueStep(w, a.requeue, a.requeuedAt))
  }

  function PassInSteps(s: State, w: nat, batch: seq<nat>, answers: nat -> Answers): State
    decreases |batch|
  {
    if batch == [] then s else PassInSteps(AttemptInSteps(s, w, answers(batch[0])), w, batch[1..], answers)
  }

  lemma ClaimedInSteps(s: State, w: nat, batch: seq<nat>, a: Answers)
    requires WorkerOf(s, w) == Sending(batch) && batch != [] && batch[0] < |s.events|
    ensures var s' := Apply(Apply(Apply(s, SendStep(w, a.taken, a.acknowledged)), MarkStep(w, a.mark)),
                            RequeueStep(w, a.requeue, a.requeuedAt));
      && s'.events == s.events[batch[0] := Tried(s.events[batch[0]], a)]
      && WorkerOf(s', w) == if MarkedDone(a) || a.requeue == Done then Claiming(batch[1..]) else Resting
  {
  }

  lemma AttemptRefinesBody(s: State, w: nat, batch: seq<nat>, a: Answers)
    requires WorkerOf(s, w) == Claiming(batch) && batch != [] && batch[0] < |s.events|
    ensures var (e, goesOn) := Attempt(s.events[batch[0]], a); var s' := AttemptInSteps(s, w, a);
      && s'.events == s.events[batch[0] := e]
      && WorkerOf(s', w) == if goesOn then Claiming(batch[1..]) else Resting
  {
    var s1 := Apply(s, ClaimStep(w, a.claim));
    if WorkerOf(s1, w).Sending? {
      ClaimedInSteps(s1, w, batch, a);
    }
  }

  lemma {:induction false} RestingStays(s: State, w: nat, batch: seq<nat>, answers: nat -> Answers)
    requires WorkerOf(s, w).Resting?
    ensures PassInSteps(s, w, batch, answers) == s
    decreases |batch|
  {
    if batch != [] {
      RestingStays(s, w, batch[1..], answers);
    }
  }

  lemma {:induction false} PassRefinesSteps(s: State, w: nat, batch: seq<nat>, answers: nat -> Answers)
    requires WorkerOf(s, w) == Claiming(batch) && InTable(s.events, batch)
    ensures PassInSteps(s, w, batch, answers).events == Pass(s.events, batch, answers)
    decreases |batch|
  {
    if batch != [] {
      AttemptRefinesBody(s, w, batch, answers(batch[0]));
      var s' := AttemptInSteps(s, w, answers(batch[0]));
      if WorkerOf(s', w).Resting? {
        RestingStays(s', w, batch[1..], answers);
      } else {
        PassRefinesSteps(s', w, batch[1..], answers);
      }
    }
  }

  /** A worker that nobody disturbs does in its steps what the loop does, however its calls are answered. */
  lemma PassRefinesLoop(s: State, w: nat, answers: nat -> Answers, now: int)
    requires WorkerOf(s, w).Resting?
    ensures var batch := NextBatch(s.events, now);
      && InTable(s.events, batch)
      && PassInSteps(Apply(s, FetchStep(w, now)), w, batch, answers).events == Pass(s.events, batch, answers)
  {
    PassRefinesSteps(Apply(s, FetchStep(w, now)), w, NextBatch(s.events, now), answers);
  }

  // ---------- what a pass achieves ----------

  predicate Distinct(batch: seq<nat>) {
    forall k, l :: 0 <= k < l < |batch| ==> batch[k] != batch[l]
  }

  predicate AllPending(events: seq<Event>, batch: seq<nat>) {
    forall k :: 0 <= k < |batch| ==> batch[k] < |events| && events[batch[k]].status == Pending
  }

  lemma BatchIsFresh(events: seq<Event>, now: int)
    ensures Distinct(NextBatch(events, now)) && AllPending(events, NextBatch(events, now))
  {
    var batch := NextBatch(events, now);
    forall k, l | 0 <= k < l < |batch| ensures batch[k] != batch[l] {
      assert Before(events, batch[k], batch[l]);
    }
    forall k | 0 <= k < |batch| ensures batch[k] < |events| && events[batch[k]].status == Pending {
      assert Due(events[batch[k]], now);
    }
  }

  /** Every call on the tables of the attempt is answered, and takes effect. */
  predicate Answered(a: Answers) {
    a.claim == Done && a.mark == Done && a.requeue == Done
  }

  lemma {:induction false} AnsweredEvents(events: seq<Event>, batch: seq<nat>, answers: nat -> Answers, i: nat)
    requires Distinct(batch) && AllPending(events, batch) && i < |events|
    requires forall id :: Answered(answers(id))
    ensures var after := Pass(events, batch, answers);
      && |after| == |events|
      && after[i] == if i in batch then Attempt(events[i], answers(i)).0 else events[i]
    decreases |batch|
  {
    if batch != [] {
      var next := events[batch[0] := Attempt(events[batch[0]], answers(batch[0])).0];
      assert Answered(answers(batch[0]));
      assert batch == [batch[0]] + batch[1..] && batch[0] !in batch[1..];
      assert AllPending(next, batch[1..]);
      AnsweredEvents(next, batch[1..], answers, i);
    }
  }

  /**
   * With every table call answered, a pass publishes exactly the events of its batch that the broker acknowledges,
   * requeues the others for thirty seconds after their own clock reading, and touches no other event.
   */
  lemma AnsweredPass(events: seq<Event>, answers: nat -> Answers, now: int, i: nat)
    requires i < |events| && forall id :: Answered(answers(id))
    ensures var batch := NextBatch(events, now);
      && InTable(events, batch) && i < |Pass(events, batch, answers)|
      && var after, e, a := Pass(events, batch, answers)[i], events[i], answers(i);
         if i !in batch then after == e
         else if a.acknowledged then
           after == e.(status := Published, attempts := e.attempts + 1, sends := e.sends + 1,
                       delivered := e.delivered + 1)
         else
           after == e.(availableAt := a.requeuedAt + RETRY_DELAY_MS, attempts := e.attempts + 1,
                       sends := e.sends + 1, delivered := e.delivered + if a.taken then 1 else 0)
  {
    BatchIsFresh(events, now);
    AnsweredEvents(events, NextBatch(events, now), answers, i);
    assert Answered(answers(i));
    if i in NextBatch(events, now) {
      var k :| 0 <= k < |NextBatch(events, now)| && NextBatch(events, now)[k] == i;
      assert events[i].status == Pending;
    }
  }
}
