/**
 * The email fan-out producer (backend/services/email_outbox_service.py):
 * one email_outbox row per (analysis, active recipient), inserted as
 * `queued` with a 15-minute lease, and one "email" message per row the
 * call inserted.
 */
module EmailOutbox {
  import opened Wrappers
  import opened Store
  import QueueService

  const OutboxLeaseSeconds: int := 900

  function OutboxMessage(outboxId: int): QueueService.Body {
    QueueService.Json(map["email_outbox_id" := QueueService.JInt(outboxId)])
  }

  /** The messages announcing the consecutive ids lo, lo + 1, ..., hi - 1. */
  function OutboxMessages(lo: int, hi: int): (ms: seq<QueueService.Body>)
    requires lo <= hi
    ensures |ms| == hi - lo
    ensures forall k :: 0 <= k < hi - lo ==> ms[k] == OutboxMessage(lo + k)
    decreases hi - lo
  {
    if lo == hi then [] else [OutboxMessage(lo)] + OutboxMessages(lo + 1, hi)
  }

  lemma {:induction false} OutboxMessagesSnoc(lo: int, hi: int)
    requires lo <= hi
    ensures OutboxMessages(lo, hi + 1) == OutboxMessages(lo, hi) + [OutboxMessage(hi)]
  {
  }

  /** The row phase 1 inserts for one recipient. */
  function NewOutboxRow(analysisId: int, recipient: string, now: int): OutboxRow {
    OutboxRow(analysisId, recipient, Queued, 0, now, None, Some(now + OutboxLeaseSeconds))
  }

  predicate PairPresent(outbox: map<int, OutboxRow>, analysisId: int, recipient: string) {
    exists id :: id in outbox && outbox[id].analysisId == analysisId && outbox[id].recipient == recipient
  }

  /**
   * `after` is `before` plus new rows under the ids first .. next - 1, each a
   * fresh queued row for a listed recipient whose pair had no row before.
   */
  ghost predicate OutboxGrown(before: map<int, OutboxRow>, after: map<int, OutboxRow>, first: int, next: int,
                              analysisId: int, recipients: seq<string>, now: int) {
    && (forall id :: id in after <==> id in before || first <= id < next)
    && (forall id :: id in before ==> after[id] == before[id])
    && (forall id :: first <= id < next ==>
          after[id].recipient in recipients && after[id] == NewOutboxRow(analysisId, after[id].recipient, now))
    && (forall id :: first <= id < next ==> !PairPresent(before, analysisId, after[id].recipient))
  }

  /** Inserting a row for a recipient whose pair has no row yet, under the next id, keeps `OutboxGrown`. */
  lemma OutboxGrownInsert(before: map<int, OutboxRow>, mid: map<int, OutboxRow>, first: int, next: int,
                          analysisId: int, recipients: seq<string>, now: int, recipient: string)
    requires OutboxGrown(before, mid, first, next, analysisId, recipients, now)
    requires recipient in recipients && next !in mid && first <= next
    requires !PairPresent(mid, analysisId, recipient)
    ensures OutboxGrown(before, mid[next := NewOutboxRow(analysisId, recipient, now)], first, next + 1, analysisId, recipients, now)
  {
    assert !PairPresent(before, analysisId, recipient) by {
      forall j | j in before
        ensures !(before[j].analysisId == analysisId && before[j].recipient == recipient)
      {
        assert mid[j] == before[j];
      }
    }
  }

  /** One iteration of phase 1: the INSERT for one recipient, skipped on a UNIQUE or foreign-key violation. */
  method InsertOutboxRow(db: Database, analysisId: int, recipient: string, now: int,
                         ghost before: map<int, OutboxRow>, ghost first: int, ghost recipients: seq<string>)
    requires db.Valid() && recipient in recipients && first <= db.nextId
    requires OutboxGrown(before, db.outbox, first, db.nextId, analysisId, recipients, now)
    modifies db`outbox, db`nextId
    ensures db.Valid() && old(db.nextId) <= db.nextId <= old(db.nextId) + 1
    ensures OutboxGrown(before, db.outbox, first, db.nextId, analysisId, recipients, now)
    ensures analysisId in db.analyses ==> PairPresent(db.outbox, analysisId, recipient)
    ensures forall r :: PairPresent(old(db.outbox), analysisId, r) ==> PairPresent(db.outbox, analysisId, r)
    ensures analysisId !in db.analyses ==> db.outbox == old(db.outbox) && db.nextId == old(db.nextId)
  {
    if !PairPresent(db.outbox, analysisId, recipient) && analysisId in db.analyses {
      ghost var mid := db.outbox;
      OutboxGrownInsert(before, mid, first, db.nextId, analysisId, recipients, now, recipient);
      var id := db.InsertOutboxRow(NewOutboxRow(analysisId, recipient, now));
      assert db.outbox[id].analysisId == analysisId && db.outbox[id].recipient == recipient;
      forall r | PairPresent(mid, analysisId, r)
        ensures PairPresent(db.outbox, analysisId, r)
      {
        var j :| j in mid && mid[j].analysisId == analysisId && mid[j].recipient == r;
        assert db.outbox[j] == mid[j];
      }
    }
  }

  /**
   * Phase 1 of enqueue_for_analysis: one INSERT per recipient, in list
   * order. A pair that already has a row violates UNIQUE(analysis_id,
   * recipient) and an analysis id without a transcript_analyses row violates
   * the foreign key; either way that recipient is skipped. The inserted ids
   * are consecutive, from the counter's old value up.
   */
  method InsertOutboxRows(db: Database, analysisId: int, recipients: seq<string>, now: int)
    requires db.Valid()
    modifies db`outbox, db`nextId
    ensures db.Valid()
    ensures old(db.nextId) <= db.nextId <= old(db.nextId) + |recipients|
    ensures OutboxGrown(old(db.outbox), db.outbox, old(db.nextId), db.nextId, analysisId, recipients, now)
    ensures analysisId in db.analyses ==>
      forall k :: 0 <= k < |recipients| ==> PairPresent(db.outbox, analysisId, recipients[k])
    ensures analysisId !in db.analyses ==> db.outbox == old(db.outbox) && db.nextId == old(db.nextId)
  {
    var first := db.nextId;
    var i := 0;
    while i < |recipients|
      invariant 0 <= i <= |recipients|
      invariant db.Valid()
      invariant first <= db.nextId <= first + i
      invariant OutboxGrown(old(db.outbox), db.outbox, first, db.nextId, analysisId, recipients, now)
      invariant analysisId in db.analyses ==>
        forall k :: 0 <= k < i ==> PairPresent(db.outbox, analysisId, recipients[k])
      invariant analysisId !in db.analyses ==> db.outbox == old(db.outbox) && db.nextId == first
    {
      InsertOutboxRow(db, analysisId, recipients[i], now, old(db.outbox), first, recipients);
      i := i + 1;
    }
  }

  /**
   * The messages phase 2 leaves on the "email" queue for the ids first ..
   * hi - 1: push `k` of the call announces id `first + k` and lands only
   * when the server answers it.
   */
  function AnsweredMessages(available: bool, down: set<nat>, first: int, hi: int): (ms: seq<QueueService.Body>)
    requires first <= hi
    ensures |ms| <= hi - first
    decreases hi - first
  {
    if hi == first then []
    else
      var last := if QueueService.Answered(available, down, hi - 1 - first) then [OutboxMessage(hi - 1)] else [];
      AnsweredMessages(available, down, first, hi - 1) + last
  }

  /** With every push answered, every inserted id is announced once, in id order. */
  lemma {:induction false} AllAnswered(available: bool, down: set<nat>, first: int, hi: int)
    requires first <= hi
    requires available && forall k: nat :: k < hi - first ==> k !in down
    ensures AnsweredMessages(available, down, first, hi) == OutboxMessages(first, hi)
    decreases hi - first
  {
    if hi > first {
      AllAnswered(available, down, first, hi - 1);
      OutboxMessagesSnoc(first, hi - 1);
    }
  }

  /** With the server unreachable, nothing is announced. */
  lemma {:induction false} NoneAnswered(down: set<nat>, first: int, hi: int)
    requires first <= hi
    ensures AnsweredMessages(false, down, first, hi) == []
    decreases hi - first
  {
    if hi > first {
      NoneAnswered(down, first, hi - 1);
    }
  }

  /** An announced message names an id of the range whose push was answered. */
  lemma {:induction false} AnsweredNamesRange(available: bool, down: set<nat>, first: int, hi: int, m: QueueService.Body)
    requires first <= hi
    requires m in AnsweredMessages(available, down, first, hi)
    ensures exists id :: first <= id < hi && QueueService.Answered(available, down, id - first) && m == OutboxMessage(id)
    decreases hi - first
  {
    var ms := AnsweredMessages(available, down, first, hi - 1);
    if m in ms {
      AnsweredNamesRange(available, down, first, hi - 1, m);
    } else {
      assert m == OutboxMessage(hi - 1);
    }
  }

  /**
   * Phase 2 of enqueue_for_analysis: one push per inserted id, each in its
   * own try, counting the pushes that did not raise. `down` holds the
   * positions of the pushes the server does not answer.
   */
  method PushOutboxMessages(queue: QueueService.Queue, first: int, last: int, down: set<nat>) returns (created: nat)
    requires first <= last
    modifies queue`lists
    ensures queue.Pending("email") == old(queue.Pending("email")) + AnsweredMessages(queue.available, down, first, last)
    ensures forall name :: name != "email" ==> queue.Pending(name) == old(queue.Pending(name))
    ensures created == |AnsweredMessages(queue.available, down, first, last)|
  {
    created := 0;
    var id := first;
    while id < last
      invariant first <= id <= last
      invariant queue.Pending("email") == old(queue.Pending("email")) + AnsweredMessages(queue.available, down, first, id)
      invariant forall name :: name != "email" ==> queue.Pending(name) == old(queue.Pending(name))
      invariant created == |AnsweredMessages(queue.available, down, first, id)|
    {
      ghost var sent := AnsweredMessages(queue.available, down, first, id);
      var pushed := QueueService.Push(queue, "email", map["email_outbox_id" := QueueService.JInt(id)], down, id - first);
      assert AnsweredMessages(queue.available, down, first, id + 1) == sent + (if pushed then [OutboxMessage(id)] else []);
      if pushed {
        created := created + 1;
      }
      id := id + 1;
    }
  }

  /**
   * enqueue_for_analysis: no active recipients means no rows and 0;
   * otherwise phase 1 inserts the missing rows and phase 2 announces exactly
   * those whose push was answered, so pre-existing rows are never announced
   * again and the count is the number announced.
   */
  method EnqueueForAnalysis(db: Database, queue: QueueService.Queue, analysisId: int, now: int, down: set<nat>)
    returns (created: nat)
    requires db.Valid()
    modifies db`outbox, db`nextId, queue`lists
    ensures db.Valid()
    ensures old(db.nextId) <= db.nextId <= old(db.nextId) + |db.recipients|
    ensures db.recipients == [] ==> db.outbox == old(db.outbox) && db.nextId == old(db.nextId) && created == 0
    ensures OutboxGrown(old(db.outbox), db.outbox, old(db.nextId), db.nextId, analysisId, db.recipients, now)
    ensures analysisId in db.analyses ==>
      forall k :: 0 <= k < |db.recipients| ==> PairPresent(db.outbox, analysisId, db.recipients[k])
    ensures queue.Pending("email") == old(queue.Pending("email")) +
      AnsweredMessages(queue.available, down, old(db.nextId), db.nextId)
    ensures forall name :: name != "email" ==> queue.Pending(name) == old(queue.Pending(name))
    ensures created == |AnsweredMessages(queue.available, down, old(db.nextId), db.nextId)|
    ensures created <= db.nextId - old(db.nextId)
  {
    if db.recipients == [] {
      return 0;
    }
    var first := db.nextId;
    InsertOutboxRows(db, analysisId, db.recipients, now);
    created := PushOutboxMessages(queue, first, db.nextId, down);
  }
}
