/**
 * The outbox of domain events and any number of workers that publish it. Workers hold batches that may be out of
 * date, may stop between any two calls, and may be told that a call failed although it took effect.
 */
module Outbox {

  datatype OutboxStatus = Pending | Publishing | Published | Failed

  /** An event row; its id is its index. `sends` and `delivered` count what the broker was asked and what it took. */
  datatype Event = Event(
    key: string, createdAt: int, status: OutboxStatus, attempts: nat, availableAt: int, sends: nat, delivered: nat)

  const BATCH_SIZE := 50
  const RETRY_DELAY_MS := 30000

  /** Where a worker stands in its batch; the event it works on is the first. */
  datatype Worker =
    | Resting
    | Claiming(batch: seq<nat>)
    | Sending(batch: seq<nat>)
    | Marking(batch: seq<nat>)
    | Requeueing(batch: seq<nat>)

  datatype State = State(events: seq<Event>, workers: map<nat, Worker>)

  // ---------- reading a batch ----------

  predicate Due(e: Event, now: int) {
    e.status == Pending && e.availableAt <= now
  }

  /** Oldest first; equal creation times are told apart by the row. */
  predicate Before(events: seq<Event>, i: nat, j: nat)
    requires i < |events| && j < |events|
  {
    events[i].createdAt < events[j].createdAt || (events[i].createdAt == events[j].createdAt && i < j)
  }

  predicate OldestFirst(events: seq<Event>, ids: seq<nat>) {
    && (forall k :: 0 <= k < |ids| ==> ids[k] < |events|)
    && (forall k, l :: 0 <= k < l < |ids| ==> Before(events, ids[k], ids[l]))
  }

  function Insert(events: seq<Event>, ids: seq<nat>, i: nat): (r: seq<nat>)
    requires OldestFirst(events, ids) && i < |events| && i !in ids
    ensures OldestFirst(events, r)
    ensures forall j :: j in r <==> j == i || j in ids
  {
    if ids == [] then [i]
    else if Before(events, i, ids[0]) then
      assert forall k :: 0 <= k < |ids| ==> ([i] + ids)[k + 1] == ids[k];
      [i] + ids
    else
      assert ids == [ids[0]] + ids[1..];
      var rest := Insert(events, ids[1..], i);
      assert forall k :: 0 <= k < |rest| ==> Before(events, ids[0], rest[k]) by {
        forall k | 0 <= k < |rest| ensures Before(events, ids[0], rest[k]) {
          assert rest[k] in rest;
          if rest[k] != i {
            var l :| 0 <= l < |ids[1..]| && ids[1..][l] == rest[k];
            assert ids[l + 1] == rest[k];
          }
        }
      }
      [ids[0]] + rest
  }

  function DueAmong(events: seq<Event>, now: int, n: nat): (ids: seq<nat>)
    requires n <= |events|
    ensures OldestFirst(events, ids)
    ensures forall j: nat :: j in ids <==> j < n && Due(events[j], now)
  {
    if n == 0 then []
    else
      var ids := DueAmong(events, now, n - 1);
      if Due(events[n - 1], now) then Insert(events, ids, n - 1) else ids
  }

  /** The oldest due events, at most a batch of them. */
  function NextBatch(events: seq<Event>, now: int): (batch: seq<nat>)
    ensures OldestFirst(events, batch) && |batch| <= BATCH_SIZE
    ensures forall k :: 0 <= k < |batch| ==> Due(events[batch[k]], now)
    ensures forall j: nat :: j < |events| && Due(events[j], now) && j !in batch ==>
      |batch| == BATCH_SIZE && forall k :: 0 <= k < |batch| ==> Before(events, batch[k], j)
  {
    var ids := DueAmong(events, now, |events|);
    assert forall k :: 0 <= k < |ids| ==> ids[k] in ids;
    if |ids| <= BATCH_SIZE then ids
    else
      assert forall j: nat :: j in ids && j !in ids[..BATCH_SIZE] ==>
        exists l :: BATCH_SIZE <= l < |ids| && ids[l] == j;
      ids[..BATCH_SIZE]
  }

  /** At most fifty PENDING events whose time has come, by creation, and whoever is left out is no older. */
  lemma BatchIsTheOldestDue(events: seq<Event>, now: int)
    ensures var batch := NextBatch(events, now);
      && |batch| <= 50
      && (forall i :: 0 <= i < |batch| ==>
            batch[i] < |events| && events[batch[i]].status == Pending && events[batch[i]].availableAt <= now)
      && (forall i, j :: 0 <= i < j < |batch| ==>
            batch[i] != batch[j] && events[batch[i]].createdAt <= events[batch[j]].createdAt)
      && (forall id: nat :: id < |events| && events[id].status == Pending && events[id].availableAt <= now ==>
            id in batch || (|batch| == 50 && forall i :: 0 <= i < 50 ==>
                              events[batch[i]].createdAt <= events[id].createdAt))
  {
    var batch := NextBatch(events, now);
    forall i, j | 0 <= i < j < |batch|
      ensures batch[i] != batch[j] && events[batch[i]].createdAt <= events[batch[j]].createdAt
    {
      assert Before(events, batch[i], batch[j]);
    }
    forall i | 0 <= i < |batch|
      ensures batch[i] < |events| && events[batch[i]].status == Pending && events[batch[i]].availableAt <= now
    {
      assert Due(events[batch[i]], now);
    }
    forall id: nat, i | id < |events| && events[id].status == Pending && events[id].availableAt <= now
                        && id !in batch && 0 <= i < |batch|
      ensures events[batch[i]].createdAt <= events[id].createdAt
    {
      assert Due(events[id], now) && Before(events, batch[i], id);
    }
  }

  // ---------- one call at a time ----------

  /** What a database call did, and whether its caller was told. */
  datatype Reply = Done | Lost | NotApplied

  datatype Step =
    | EnqueueStep(key: string, createdAt: int, availableAt: int)
    | FetchStep(w: nat, now: int)
    | ClaimStep(w: nat, reply: Reply)
    | SendStep(w: nat, taken: bool, acknowledged: bool)
    | MarkStep(w: nat, reply: Reply)
    | RequeueStep(w: nat, reply: Reply, now: int)
    | CrashStep(w: nat)

  function WorkerOf(s: State, w: nat): Worker {
    if w in s.workers then s.workers[w] else Resting
  }

  function Goto(s: State, w: nat, worker: Worker): State {
    s.(workers := s.workers[w := worker])
  }

  function SetEvent(s: State, id: nat, e: Event): State {
    if id < |s.events| then s.(events := s.events[id := e]) else s
  }

  predicate HasKey(events: seq<Event>, key: string) {
    exists i :: 0 <= i < |events| && events[i].key == key
  }

  /** The keyed upsert that changes nothing for a known key. */
  function Enqueue(events: seq<Event>, key: string, createdAt: int, availableAt: int): seq<Event> {
    if key == "" || HasKey(events, key) then events
    else events + [Event(key, createdAt, Pending, 0, availableAt, 0, 0)]
  }

  function Claimed(e: Event): Event {
    e.(status := Publishing, attempts := e.attempts + 1)
  }

  /** Compare-and-set on the status alone. */
  function Claim(s: State, w: nat, batch: seq<nat>, reply: Reply): State {
    if batch == [] || |s.events| <= batch[0] || reply == NotApplied then Goto(s, w, Resting)
    else
      var id, e := batch[0], s.events[batch[0]];
      var hit := e.status == Pending;
      var s' := if hit then SetEvent(s, id, Claimed(e)) else s;
      Goto(s', w, if reply == Lost then Resting else if hit then Sending(batch) else Claiming(batch[1..]))
  }

  function Apply(s: State, step: Step): State {
    match step
    case EnqueueStep(key, createdAt, availableAt) => s.(events := Enqueue(s.events, key, createdAt, availableAt))
    case FetchStep(w, now) =>
      if WorkerOf(s, w).Resting? then Goto(s, w, Claiming(NextBatch(s.events, now))) else s
    case ClaimStep(w, reply) =>
      if WorkerOf(s, w).Claiming? then Claim(s, w, WorkerOf(s, w).batch, reply) else s
    case SendStep(w, taken, acknowledged) => Send(s, w, taken, acknowledged)
    case MarkStep(w, reply) => Mark(s, w, reply)
    case RequeueStep(w, reply, now) => Requeue(s, w, reply, now)
    case CrashStep(w) => Goto(s, w, Resting)
  }

  predicate At(s: State, batch: seq<nat>) {
    batch != [] && batch[0] < |s.events|
  }

  /** A broker that acknowledges has taken the message; one that takes it may still fail to say so. */
  function Send(s: State, w: nat, taken: bool, acknowledged: bool): State {
    var worker := WorkerOf(s, w);
    if !worker.Sending? || !At(s, worker.batch) then s
    else
      var e := s.events[worker.batch[0]];
      var e' := e.(sends := e.sends + 1, delivered := e.delivered + if taken || acknowledged then 1 else 0);
      Goto(SetEvent(s, worker.batch[0], e'), w,
           if acknowledged then Marking(worker.batch) else Requeueing(worker.batch))
  }

  function Mark(s: State, w: nat, reply: Reply): State {
    var worker := WorkerOf(s, w);
    if !worker.Marking? || !At(s, worker.batch) then s
    else
      var e := s.events[worker.batch[0]];
      var s' := if reply == NotApplied then s else SetEvent(s, worker.batch[0], e.(status := Published));
      Goto(s', w, if reply == Done then Claiming(worker.batch[1..]) else Requeueing(worker.batch))
  }

  function Requeue(s: State, w: nat, reply: Reply, now: int): State {
    var worker := WorkerOf(s, w);
    if !worker.Requeueing? || !At(s, worker.batch) then s
    else
      var e := s.events[worker.batch[0]];
      var s' := if reply == NotApplied then s
                else SetEvent(s, worker.batch[0], e.(status := Pending, availableAt := now + RETRY_DELAY_MS));
      Goto(s', w, if reply == Done then Claiming(worker.batch[1..]) else Resting)
  }

  function Continue(s: State, steps: seq<Step>): State {
    if steps == [] then s else Apply(Continue(s, steps[..|steps| - 1]), steps[|steps| - 1])
  }

  const Start := State([], map[])

  /** A complete event whose key is new is added, PENDING and untried; for a known key nothing happens. */
  lemma EnqueueAddsOnce(events: seq<Event>, key: string, createdAt: int, availableAt: int)
    ensures var after := Enqueue(events, key, createdAt, availableAt);
      if key == "" || exists i :: 0 <= i < |events| && events[i].key == key then after == events
      else
        && |after| == |events| + 1 && after[..|events|] == events
        && after[|events|].key == key && after[|events|].status == Pending
        && after[|events|].createdAt == createdAt && after[|events|].availableAt == availableAt
        && after[|events|].attempts == 0 && after[|events|].sends == 0 && after[|events|].delivered == 0
  {
    assert HasKey(events, key) <==> exists i :: 0 <= i < |events| && events[i].key == key;
  }

  /** A requeued event goes back to PENDING and is in nobody's batch for thirty seconds. */
  lemma RequeuedEventWaits(s: State, w: nat, reply: Reply, now: int, later: int)
    requires WorkerOf(s, w).Requeueing? && At(s, WorkerOf(s, w).batch) && reply != NotApplied
    ensures var id, after := WorkerOf(s, w).batch[0], Apply(s, RequeueStep(w, reply, now)).events;
      && |after| == |s.events| && after[id].status == Pending && after[id].availableAt == now + 30000
      && after[id].attempts == s.events[id].attempts
      && (later < now + 30000 ==> id !in NextBatch(after, later))
      && forall i :: 0 <= i < |after| && i != id ==> after[i] == s.events[i]
  {
    var id, after := WorkerOf(s, w).batch[0], Apply(s, RequeueStep(w, reply, now)).events;
    assert later < now + 30000 ==> !Due(after[id], later);
  }

  // ---------- the invariant ----------

  /** The worker has claimed the event and has not let go of it. */
  predicate Owns(worker: Worker, id: nat) {
    !worker.Resting? && !worker.Claiming? && worker.batch != [] && worker.batch[0] == id
  }

  predicate Owned(s: State, id: nat) {
    exists w :: w in s.workers && Owns(s.workers[w], id)
  }

  predicate EventOk(e: Event) {
    && e.key != "" && e.status != Failed
    && e.delivered <= e.sends <= e.attempts
    && (e.status == Published ==> 1 <= e.delivered)
  }

  predicate DistinctKeys(events: seq<Event>) {
    forall i, j :: 0 <= i < j < |events| ==> events[i].key != events[j].key
  }

  predicate WorkerOk(events: seq<Event>, worker: Worker) {
    worker.Resting? ||
    (&& (forall k :: 0 <= k < |worker.batch| ==> worker.batch[k] < |events|)
     && (!worker.Claiming? ==> worker.batch != [] && OwnerOk(events[worker.batch[0]], worker)))
  }

  /** What the owner of an event may rely on. */
  predicate OwnerOk(e: Event, worker: Worker) {
    match worker
    case Sending(_) => e.status == Publishing && e.sends < e.attempts
    case Marking(_) => e.status == Publishing && 1 <= e.delivered
    case Requeueing(_) => e.status == Publishing || e.status == Published
    case _ => true
  }

  ghost predicate OneOwner(s: State) {
    forall v, w, id :: v in s.workers && w in s.workers && Owns(s.workers[v], id) && Owns(s.workers[w], id) ==> v == w
  }

  ghost predicate Inv(s: State) {
    && DistinctKeys(s.events)
    && (forall i :: 0 <= i < |s.events| ==> EventOk(s.events[i]))
    && (forall w :: w in s.workers ==> WorkerOk(s.events, s.workers[w]))
    && OneOwner(s)
  }

  /** A worker that moves on, in its own batch, disturbs no other worker and no event. */
  lemma GotoKeepsInv(s: State, w: nat, worker: Worker)
    requires Inv(s) && WorkerOk(s.events, worker)
    requires forall id :: Owns(worker, id) ==> forall v :: v in s.workers && v != w ==> !Owns(s.workers[v], id)
    ensures Inv(Goto(s, w, worker))
  {
  }

  /** An event that its owner, or nobody, holds may change as long as the holder can still rely on it. */
  lemma SetEventKeepsInv(s: State, w: nat, id: nat, e: Event, worker: Worker)
    requires Inv(s) && id < |s.events| && EventOk(e) && e.key == s.events[id].key
    requires forall v :: v in s.workers && v != w ==> !Owns(s.workers[v], id)
    requires worker.Resting? || ((forall k :: 0 <= k < |worker.batch| ==> worker.batch[k] < |s.events|)
      && (!worker.Claiming? ==> worker.batch != [] && worker.batch[0] == id && OwnerOk(e, worker)))
    ensures Inv(Goto(SetEvent(s, id, e), w, worker))
  {
    var s' := Goto(SetEvent(s, id, e), w, worker);
    forall v | v in s'.workers ensures WorkerOk(s'.events, s'.workers[v]) {
      if v != w {
        assert WorkerOk(s.events, s.workers[v]) && !Owns(s.workers[v], id);
      }
    }
  }

  lemma RestOfBatch(events: seq<Event>, batch: seq<nat>)
    requires batch != [] && forall k :: 0 <= k < |batch| ==> batch[k] < |events|
    ensures forall k :: 0 <= k < |batch[1..]| ==> batch[1..][k] < |events|
  {
  }

  lemma PendingIsUnowned(s: State, id: nat)
    requires Inv(s) && id < |s.events| && s.events[id].status == Pending
    ensures forall w :: w in s.workers ==> !Owns(s.workers[w], id)
  {
    forall w | w in s.workers ensures !Owns(s.workers[w], id) {
      assert WorkerOk(s.events, s.workers[w]);
    }
  }

  lemma ClaimedIsOk(e: Event)
    requires EventOk(e) && e.status == Pending
    ensures EventOk(Claimed(e)) && Claimed(e).sends < Claimed(e).attempts
  {
  }

  lemma HitIs(s: State, w: nat, batch: seq<nat>, reply: Reply)
    requires batch != [] && batch[0] < |s.events| && s.events[batch[0]].status == Pending && reply != NotApplied
    ensures var s' := SetEvent(s, batch[0], Claimed(s.events[batch[0]]));
      Claim(s, w, batch, reply) == Goto(s', w, if reply == Lost then Resting else Sending(batch))
  {
  }

  lemma HitKeepsInv(s: State, w: nat, batch: seq<nat>, reply: Reply)
    requires Inv(s) && w in s.workers && s.workers[w] == Claiming(batch)
    requires batch != [] && batch[0] < |s.events| && s.events[batch[0]].status == Pending && reply != NotApplied
    ensures Inv(Claim(s, w, batch, reply))
  {
    var e := s.events[batch[0]];
    assert WorkerOk(s.events, s.workers[w]) && EventOk(e);
    ClaimedIsOk(e);
    PendingIsUnowned(s, batch[0]);
    HitIs(s, w, batch, reply);
    if reply == Lost {
      SetEventKeepsInv(s, w, batch[0], Claimed(e), Resting);
    } else {
      SetEventKeepsInv(s, w, batch[0], Claimed(e), Sending(batch));
    }
  }

  lemma ClaimKeepsInv(s: State, w: nat, batch: seq<nat>, reply: Reply)
    requires Inv(s) && w in s.workers && s.workers[w] == Claiming(batch)
    ensures Inv(Claim(s, w, batch, reply))
  {
    assert WorkerOk(s.events, s.workers[w]);
    if batch == [] || reply == NotApplied {
      GotoKeepsInv(s, w, Resting);
    } else if s.events[batch[0]].status == Pending {
      HitKeepsInv(s, w, batch, reply);
    } else {
      RestOfBatch(s.events, batch);
      GotoKeepsInv(s, w, if reply == Lost then Resting else Claiming(batch[1..]));
    }
  }

  lemma OwnerMoves(s: State, w: nat)
    requires Inv(s) && w in s.workers && !s.workers[w].Resting? && !s.workers[w].Claiming?
    ensures var batch := s.workers[w].batch;
      && At(s, batch) && EventOk(s.events[batch[0]]) && OwnerOk(s.events[batch[0]], s.workers[w])
      && (forall k :: 0 <= k < |batch| ==> batch[k] < |s.events|)
      && (forall k :: 0 <= k < |batch[1..]| ==> batch[1..][k] < |s.events|)
      && (forall v :: v in s.workers && v != w ==> !Owns(s.workers[v], batch[0]))
  {
    assert WorkerOk(s.events, s.workers[w]) && Owns(s.workers[w], s.workers[w].batch[0]);
  }

  /** The owner of an event may change it and move on, as long as it can rely on what it moves on to. */
  lemma OwnerSetsEvent(s: State, w: nat, e: Event, worker: Worker)
    requires Inv(s) && w in s.workers && !s.workers[w].Resting? && !s.workers[w].Claiming?
    requires At(s, s.workers[w].batch) && EventOk(e) && e.key == s.events[s.workers[w].batch[0]].key
    requires worker == Resting || worker == Claiming(s.workers[w].batch[1..])
      || ((worker.Marking? || worker.Requeueing?) && worker.batch == s.workers[w].batch && OwnerOk(e, worker))
    ensures Inv(Goto(SetEvent(s, s.workers[w].batch[0], e), w, worker))
  {
    OwnerMoves(s, w);
    SetEventKeepsInv(s, w, s.workers[w].batch[0], e, worker);
  }

  lemma SentIsOk(e: Event, delivered: nat)
    requires EventOk(e) && e.sends < e.attempts && e.status == Publishing
    requires delivered == e.delivered || delivered == e.delivered + 1
    ensures EventOk(e.(sends := e.sends + 1, delivered := delivered))
  {
  }

  lemma SendKeepsInv(s: State, w: nat, taken: bool, acknowledged: bool)
    requires Inv(s)
    ensures Inv(Send(s, w, taken, acknowledged))
  {
    if WorkerOf(s, w).Sending? {
      OwnerMoves(s, w);
      var batch := s.workers[w].batch;
      var e := s.events[batch[0]];
      var delivered := e.delivered + if taken || acknowledged then 1 else 0;
      SentIsOk(e, delivered);
      OwnerSetsEvent(s, w, e.(sends := e.sends + 1, delivered := delivered),
                     if acknowledged then Marking(batch) else Requeueing(batch));
    }
  }

  lemma MarkKeepsInv(s: State, w: nat, reply: Reply)
    requires Inv(s)
    ensures Inv(Mark(s, w, reply))
  {
    if WorkerOf(s, w).Marking? {
      OwnerMoves(s, w);
      var batch := s.workers[w].batch;
      if reply == NotApplied {
        GotoKeepsInv(s, w, Requeueing(batch));
      } else {
        OwnerSetsEvent(s, w, s.events[batch[0]].(status := Published),
                       if reply == Done then Claiming(batch[1..]) else Requeueing(batch));
      }
    }
  }

  lemma RequeueKeepsInv(s: State, w: nat, reply: Reply, now: int)
    requires Inv(s)
    ensures Inv(Requeue(s, w, reply, now))
  {
    if WorkerOf(s, w).Requeueing? {
      OwnerMoves(s, w);
      var batch := s.workers[w].batch;
      if reply == NotApplied {
        GotoKeepsInv(s, w, Resting);
      } else {
        OwnerSetsEvent(s, w, s.events[batch[0]].(status := Pending, availableAt := now + RETRY_DELAY_MS),
                       if reply == Done then Claiming(batch[1..]) else Resting);
      }
    }
  }

  lemma EnqueueKeepsInv(s: State, key: string, createdAt: int, availableAt: int)
    requires Inv(s)
    ensures Inv(s.(events := Enqueue(s.events, key, createdAt, availableAt)))
  {
    var s' := s.(events := Enqueue(s.events, key, createdAt, availableAt));
    forall w | w in s'.workers ensures WorkerOk(s'.events, s'.workers[w]) {
      assert WorkerOk(s.events, s.workers[w]);
    }
  }

  lemma ApplyKeepsInv(s: State, step: Step)
    requires Inv(s)
    ensures Inv(Apply(s, step))
  {
    match step
    case EnqueueStep(key, createdAt, availableAt) => EnqueueKeepsInv(s, key, createdAt, availableAt);
    case FetchStep(w, now) =>
      if WorkerOf(s, w).Resting? {
        GotoKeepsInv(s, w, Claiming(NextBatch(s.events, now)));
      }
    case ClaimStep(w, reply) =>
      if WorkerOf(s, w).Claiming? {
        ClaimKeepsInv(s, w, s.workers[w].batch, reply);
      }
    case SendStep(w, taken, acknowledged) => SendKeepsInv(s, w, taken, acknowledged);
    case MarkStep(w, reply) => MarkKeepsInv(s, w, reply);
    case RequeueStep(w, reply, now) => RequeueKeepsInv(s, w, reply, now);
    case CrashStep(w) => GotoKeepsInv(s, w, Resting);
  }

  lemma {:induction false} ContinueKeepsInv(s: State, steps: seq<Step>)
    requires Inv(s)
    ensures Inv(Continue(s, steps))
  {
    if steps != [] {
      ContinueKeepsInv(s, steps[..|steps| - 1]);
      ApplyKeepsInv(Continue(s, steps[..|steps| - 1]), steps[|steps| - 1]);
    }
  }

  // ---------- safety over every run ----------

  /**
   * At most one worker owns an event; the broker is asked at most once per attempt; a published event reached the
   * broker; no event ever has another status.
   */
  lemma EveryRunIsSafe(steps: seq<Step>, id: nat, v: nat, w: nat)
    ensures var s := Continue(Start, steps);
      && (v in s.workers && w in s.workers && Owns(s.workers[v], id) && Owns(s.workers[w], id) ==> v == w)
      && (id < |s.events| ==>
            var e := s.events[id];
            && e.delivered <= e.sends <= e.attempts && e.status in {Pending, Publishing, Published}
            && (e.status == Published ==> 1 <= e.delivered))
  {
    ContinueKeepsInv(Start, steps);
    assert id < |Continue(Start, steps).events| ==> EventOk(Continue(Start, steps).events[id]);
  }

  predicate SameEvent(e: Event, e': Event) {
    && e.key == e'.key && e.createdAt == e'.createdAt
    && e.attempts <= e'.attempts && e.sends <= e'.sends && e.delivered <= e'.delivered
  }

  lemma StepKeepsEvents(s: State, step: Step, id: nat)
    requires id < |s.events|
    ensures id < |Apply(s, step).events| && SameEvent(s.events[id], Apply(s, step).events[id])
  {
  }

  /** No event is lost: its row stays where it is, under its key, and its counters only grow. */
  lemma {:induction false} NoEventIsLost(s: State, steps: seq<Step>, id: nat)
    requires id < |s.events|
    ensures id < |Continue(s, steps).events| && SameEvent(s.events[id], Continue(s, steps).events[id])
  {
    if steps != [] {
      NoEventIsLost(s, steps[..|steps| - 1], id);
      StepKeepsEvents(Continue(s, steps[..|steps| - 1]), steps[|steps| - 1], id);
    }
  }

  /** PUBLISHED is left only by the requeue of an owner that was not told that its mark took effect. */
  lemma PublishedIsLeftIff(s: State, step: Step, id: nat)
    requires Inv(s) && id < |s.events| && s.events[id].status == Published
    ensures Apply(s, step).events[id].status != Published <==>
      step.RequeueStep? && step.reply != NotApplied && WorkerOf(s, step.w).Requeueing? && Owns(WorkerOf(s, step.w), id)
  {
    if step.SendStep? && WorkerOf(s, step.w).Sending? {
      OwnerMoves(s, step.w);
    }
    if step.MarkStep? && WorkerOf(s, step.w).Marking? {
      OwnerMoves(s, step.w);
    }
    if step.RequeueStep? && WorkerOf(s, step.w).Requeueing? {
      OwnerMoves(s, step.w);
    }
  }

  predicate MarksAreAnswered(steps: seq<Step>) {
    forall i :: 0 <= i < |steps| && steps[i].MarkStep? ==> steps[i].reply != Lost
  }

  lemma PublishedStays(s: State, step: Step, id: nat)
    requires Inv(s) && id < |s.events| && !(step.MarkStep? && step.reply == Lost)
    requires s.events[id].status == Published ==> !Owned(s, id)
    ensures s.events[id].status == Published ==> Apply(s, step).events[id].status == Published
    ensures Apply(s, step).events[id].status == Published ==> !Owned(Apply(s, step), id)
  {
    var s' := Apply(s, step);
    if s.events[id].status == Published {
      PublishedIsLeftIff(s, step, id);
    }
    ApplyKeepsInv(s, step);
    if s'.events[id].status == Published {
      forall w | w in s'.workers ensures !Owns(s'.workers[w], id) {
        assert WorkerOk(s'.events, s'.workers[w]);
        if step.MarkStep? && WorkerOf(s, step.w).Marking? {
          OwnerMoves(s, step.w);
        }
      }
    }
  }

  /** So with every mark answered truthfully, PUBLISHED is final. */
  lemma {:induction false} PublishedIsFinal(steps: seq<Step>, more: seq<Step>, id: nat)
    requires MarksAreAnswered(steps + more)
    requires id < |Continue(Start, steps).events| && Continue(Start, steps).events[id].status == Published
    ensures id < |Continue(Start, steps + more).events|
    ensures Continue(Start, steps + more).events[id].status == Published
  {
    if more == [] {
      assert steps + more == steps;
    } else {
      var n := |more| - 1;
      assert (steps + more)[..|steps + more| - 1] == steps + more[..n];
      assert (steps + more)[|steps + more| - 1] == more[n];
      PublishedIsFinal(steps, more[..n], id);
      PublishedIsUnowned(steps + more[..n], id);
      ContinueKeepsInv(Start, steps + more[..n]);
      PublishedStays(Continue(Start, steps + more[..n]), more[n], id);
    }
  }

  lemma {:induction false} PublishedIsUnowned(steps: seq<Step>, id: nat)
    requires MarksAreAnswered(steps)
    requires id < |Continue(Start, steps).events| && Continue(Start, steps).events[id].status == Published
    ensures !Owned(Continue(Start, steps), id)
  {
    if steps != [] {
      var before, step := steps[..|steps| - 1], steps[|steps| - 1];
      ContinueKeepsInv(Start, before);
      var s := Continue(Start, before);
      if id < |s.events| {
        if s.events[id].status == Published {
          PublishedIsUnowned(before, id);
        }
        PublishedStays(s, step, id);
      }
    }
  }

  // ---------- events that no worker will take again ----------

  /** PUBLISHING, with nobody left who would finish or requeue it. */
  predicate Orphaned(s: State, id: nat) {
    id < |s.events| && s.events[id].status == Publishing && !Owned(s, id)
  }

  lemma OrphanStaysOneStep(s: State, step: Step, id: nat)
    requires Inv(s) && Orphaned(s, id)
    ensures Orphaned(Apply(s, step), id) && Apply(s, step).events[id] == s.events[id]
  {
    if !step.EnqueueStep? {
      assert step.w in s.workers ==> !Owns(s.workers[step.w], id);
    }
  }

  /** The batch query reads PENDING events only, so an orphan stays as it is for ever: never sent, never marked. */
  lemma {:induction false} OrphansStay(s: State, steps: seq<Step>, id: nat)
    requires Inv(s) && Orphaned(s, id)
    ensures Orphaned(Continue(s, steps), id) && Continue(s, steps).events[id] == s.events[id]
  {
    if steps != [] {
      OrphansStay(s, steps[..|steps| - 1], id);
      ContinueKeepsInv(s, steps[..|steps| - 1]);
      OrphanStaysOneStep(Continue(s, steps[..|steps| - 1]), steps[|steps| - 1], id);
    }
  }

  /** The three ways to become an orphan: the owner stops, a claim goes unanswered, a requeue fails. */
  predicate Abandons(s: State, step: Step, id: nat)
    requires id < |s.events|
  {
    match step
    case CrashStep(w) => Owns(WorkerOf(s, w), id) && s.events[id].status == Publishing
    case ClaimStep(w, reply) =>
      reply == Lost && s.events[id].status == Pending
      && WorkerOf(s, w).Claiming? && WorkerOf(s, w).batch != [] && WorkerOf(s, w).batch[0] == id
    case RequeueStep(w, reply, _) =>
      reply == NotApplied && WorkerOf(s, w).Requeueing? && Owns(WorkerOf(s, w), id) && s.events[id].status == Publishing
    case _ => false
  }

  lemma OrphanedIff(s: State, step: Step, id: nat)
    requires Inv(s) && id < |s.events| && !Orphaned(s, id)
    ensures Orphaned(Apply(s, step), id) <==> Abandons(s, step, id)
  {
    if Abandons(s, step, id) {
      AbandonedIsOrphaned(s, step, id);
    } else {
      StepKeepsEvents(s, step, id);
      if Apply(s, step).events[id].status == Publishing {
        StillOwned(s, step, id);
      }
    }
  }

  lemma AbandonedIsOrphaned(s: State, step: Step, id: nat)
    requires Inv(s) && id < |s.events| && Abandons(s, step, id)
    ensures Orphaned(Apply(s, step), id)
  {
    var s' := Apply(s, step);
    if s.events[id].status == Pending {
      PendingIsUnowned(s, id);
    } else {
      OwnerMoves(s, step.w);
    }
    assert forall v :: v in s'.workers && v != step.w ==> v in s.workers && s'.workers[v] == s.workers[v];
  }

  lemma StillOwned(s: State, step: Step, id: nat)
    requires Inv(s) && id < |s.events| && !Orphaned(s, id) && !Abandons(s, step, id)
    requires Apply(s, step).events[id].status == Publishing
    ensures Owned(Apply(s, step), id)
  {
    if s.events[id].status != Publishing {
      NewlyOwned(s, step, id);
    } else {
      var w :| w in s.workers && Owns(s.workers[w], id);
      KeepsOwning(s, step, id, w);
    }
  }

  lemma NewlyOwned(s: State, step: Step, id: nat)
    requires id < |s.events| && s.events[id].status != Publishing && !Abandons(s, step, id)
    requires Apply(s, step).events[id].status == Publishing
    ensures Owned(Apply(s, step), id)
  {
    var s' := Apply(s, step);
    assert step.ClaimStep? && step.w in s'.workers && Owns(s'.workers[step.w], id);
  }

  lemma KeepsOwning(s: State, step: Step, id: nat, w: nat)
    requires Inv(s) && id < |s.events| && s.events[id].status == Publishing && !Abandons(s, step, id)
    requires w in s.workers && Owns(s.workers[w], id) && Apply(s, step).events[id].status == Publishing
    ensures Owned(Apply(s, step), id)
  {
    OwnerMoves(s, w);
    assert w in Apply(s, step).workers && Owns(Apply(s, step).workers[w], id);
  }

  // ---------- runs that show it ----------

  lemma ContinueOne(s: State, steps: seq<Step>, step: Step)
    ensures Continue(s, steps + [step]) == Apply(Continue(s, steps), step)
  {
    assert (steps + [step])[..|steps + [step]| - 1] == steps;
  }

  const NEW_EVENT := Event("k", 0, Pending, 0, 0, 0, 0)

  /** One event, claimed by the first worker. */
  function ClaimedRun(): seq<Step> {
    [] + [EnqueueStep("k", 0, 0)] + [FetchStep(0, 0)] + [ClaimStep(0, Done)]
  }

  lemma ClaimedState()
    ensures var s := Continue(Start, ClaimedRun());
      s.events == [NEW_EVENT.(status := Publishing, attempts := 1)] && WorkerOf(s, 0) == Sending([0])
  {
    ContinueOne(Start, [], EnqueueStep("k", 0, 0));
    ContinueOne(Start, [] + [EnqueueStep("k", 0, 0)], FetchStep(0, 0));
    ContinueOne(Start, [] + [EnqueueStep("k", 0, 0)] + [FetchStep(0, 0)], ClaimStep(0, Done));
    OnlyEventIsTheBatch();
  }

  lemma OnlyEventIsTheBatch()
    ensures NextBatch([NEW_EVENT], 0) == [0]
  {
    assert DueAmong([NEW_EVENT], 0, 0) == [];
    assert Due([NEW_EVENT][0], 0);
    assert DueAmong([NEW_EVENT], 0, 1) == Insert([NEW_EVENT], [], 0) == [0];
  }

  /** A published event goes back to PENDING after its mark took effect without an answer. */
  function UnansweredMarkRun(): seq<Step> {
    ClaimedRun() + [SendStep(0, true, true)] + [MarkStep(0, Lost)] + [RequeueStep(0, Done, 0)]
  }

  lemma UnansweredMark(s: State)
    requires s.events == [NEW_EVENT.(status := Publishing, attempts := 1)] && WorkerOf(s, 0) == Sending([0])
    ensures var marked := Apply(Apply(s, SendStep(0, true, true)), MarkStep(0, Lost));
      && marked.events == [Event("k", 0, Published, 1, 0, 1, 1)] && WorkerOf(marked, 0) == Requeueing([0])
      && Apply(marked, RequeueStep(0, Done, 0)).events == [Event("k", 0, Pending, 1, RETRY_DELAY_MS, 1, 1)]
  {
  }

  lemma PublishedCanBeLeft()
    ensures var steps := UnansweredMarkRun();
      var marked, after := Continue(Start, steps[..5]), Continue(Start, steps);
      && |marked.events| == 1 && marked.events[0].status == Published
      && |after.events| == 1 && after.events[0].status == Pending && after.events[0].delivered == 1
  {
    var claimed := ClaimedRun();
    ClaimedState();
    UnansweredMark(Continue(Start, claimed));
    UnansweredMarkSteps(claimed);
    assert UnansweredMarkRun()[..5] == claimed + [SendStep(0, true, true)] + [MarkStep(0, Lost)];
  }

  lemma UnansweredMarkSteps(steps: seq<Step>)
    ensures var s := Continue(Start, steps);
      var marked := Apply(Apply(s, SendStep(0, true, true)), MarkStep(0, Lost));
      && Continue(Start, steps + [SendStep(0, true, true)] + [MarkStep(0, Lost)]) == marked
      && Continue(Start, steps + [SendStep(0, true, true)] + [MarkStep(0, Lost)] + [RequeueStep(0, Done, 0)])
           == Apply(marked, RequeueStep(0, Done, 0))
  {
    ContinueOne(Start, steps, SendStep(0, true, true));
    ContinueOne(Start, steps + [SendStep(0, true, true)], MarkStep(0, Lost));
    ContinueOne(Start, steps + [SendStep(0, true, true)] + [MarkStep(0, Lost)], RequeueStep(0, Done, 0));
  }

  /** An event whose owner stops before publishing it is never published, whatever happens afterwards. */
  lemma EventCanBeOrphaned(more: seq<Step>)
    ensures var s := Continue(Start, ClaimedRun() + [CrashStep(0)]);
      && Inv(s) && Orphaned(s, 0)
      && Orphaned(Continue(s, more), 0)
      && Continue(s, more).events[0] == NEW_EVENT.(status := Publishing, attempts := 1)
  {
    ClaimedState();
    ContinueOne(Start, ClaimedRun(), CrashStep(0));
    var s := Continue(Start, ClaimedRun() + [CrashStep(0)]);
    ContinueKeepsInv(Start, ClaimedRun());
    ContinueKeepsInv(Start, ClaimedRun() + [CrashStep(0)]);
    OrphanedIff(Continue(Start, ClaimedRun()), CrashStep(0), 0);
    OrphansStay(s, more, 0);
  }
}
