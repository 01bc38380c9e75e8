/** The sync pass over the queue. The remote call is a stub in the client, so
    its outcome is an oracle `remote` from item id to success; a failed
    'synced' status write is folded into the failure outcome. */
module SyncQueue {
  import opened Results
  import opened OfflineStore

  /** `updateSyncStatus`: sets the status of the item with that id; a missing
      id resolves silently without a write. */
  function UpdateSyncStatus(s: Store, id: nat, status: SyncStatus): (s': Store)
    ensures id !in s.syncQueue ==> s' == s
    ensures id in s.syncQueue ==>
      && s'.syncQueue.Keys == s.syncQueue.Keys
      && s'.syncQueue[id].status == status
      && s'.syncQueue[id].attempts == s.syncQueue[id].attempts
      && s'.syncQueue[id] == s.syncQueue[id].(status := status)
      && (forall other | other in s.syncQueue && other != id :: s'.syncQueue[other] == s.syncQueue[other])
    ensures s'.masterData == s.masterData && s'.transactions == s.transactions
    ensures s'.nextSyncId == s.nextSyncId && s'.nextTxId == s.nextTxId
    ensures Valid(s) ==> Valid(s')
  {
    if id in s.syncQueue then s.(syncQueue := s.syncQueue[id := s.syncQueue[id].(status := status)]) else s
  }

  /** `incrementAttempts`: adds one to the attempts of the item with that id
      (attempts are always a number here, so the `|| 0` default never applies);
      a missing id resolves silently without a write. */
  function IncrementAttempts(s: Store, id: nat): (s': Store)
    ensures id !in s.syncQueue ==> s' == s
    ensures id in s.syncQueue ==>
      && s'.syncQueue.Keys == s.syncQueue.Keys
      && s'.syncQueue[id].attempts == s.syncQueue[id].attempts + 1
      && s'.syncQueue[id].status == s.syncQueue[id].status
      && s'.syncQueue[id] == s.syncQueue[id].(attempts := s.syncQueue[id].attempts + 1)
      && (forall other | other in s.syncQueue && other != id :: s'.syncQueue[other] == s.syncQueue[other])
    ensures s'.masterData == s.masterData && s'.transactions == s.transactions
    ensures s'.nextSyncId == s.nextSyncId && s'.nextTxId == s.nextTxId
    ensures Valid(s) ==> Valid(s')
  {
    if id in s.syncQueue then
      var item := s.syncQueue[id];
      s.(syncQueue := s.syncQueue[id := item.(attempts := item.attempts + 1)])
    else s
  }

  /** The status write is the general partial update restricted to the status
      field, except that a missing id resolves instead of rejecting. */
  lemma UpdateSyncStatusIsMerge(s: Store, id: nat, status: SyncStatus)
    ensures var u := ItemUpdate(None, None, None, Some(status), None, None);
      && (id in s.syncQueue ==> UpdateSyncQueueItem(s, id, u) == Ok(UpdateSyncStatus(s, id, status)))
      && (id !in s.syncQueue ==> UpdateSyncQueueItem(s, id, u).Err? && UpdateSyncStatus(s, id, status) == s)
  {
    var u := ItemUpdate(None, None, None, Some(status), None, None);
    if id in s.syncQueue {
      assert Merge(s.syncQueue[id], u) == s.syncQueue[id].(status := status);
    }
  }

  /** The ids a pass visits: the pending ids among [lo, hi), ascending. */
  function PendingFrom(q: map<nat, SyncItem>, lo: nat, hi: nat): (r: seq<nat>)
    ensures forall k | 0 <= k < |r| :: lo <= r[k] < hi && r[k] in q && q[r[k]].status == Pending
    ensures forall i, j | 0 <= i < j < |r| :: r[i] < r[j]
    decreases hi - lo
  {
    if lo >= hi then []
    else (if lo in q && q[lo].status == Pending then [lo] else []) + PendingFrom(q, lo + 1, hi)
  }

  lemma {:induction false} PendingFromComplete(q: map<nat, SyncItem>, lo: nat, hi: nat, id: nat)
    requires id in q && q[id].status == Pending && lo <= id < hi
    ensures id in PendingFrom(q, lo, hi)
    decreases hi - lo
  {
    if id != lo {
      PendingFromComplete(q, lo + 1, hi, id);
    }
  }

  /** The snapshot filtered to 'pending', in the store's ascending-id order. */
  function PendingIds(s: Store): (r: seq<nat>)
    requires Valid(s)
    ensures forall id :: id in r <==> id in s.syncQueue && s.syncQueue[id].status == Pending
    ensures forall i, j | 0 <= i < j < |r| :: r[i] < r[j]
  {
    var r := PendingFrom(s.syncQueue, 1, s.nextSyncId);
    assert forall id | id in s.syncQueue && s.syncQueue[id].status == Pending :: id in r by {
      forall id | id in s.syncQueue && s.syncQueue[id].status == Pending ensures id in r {
        PendingFromComplete(s.syncQueue, 1, s.nextSyncId, id);
      }
    }
    r
  }

  /** What a pass does to one pending item, by the remote outcome. */
  function Outcome(item: SyncItem, ok: bool): SyncItem {
    if ok then item.(status := Synced) else item.(status := Failed, attempts := item.attempts + 1)
  }

  /** One iteration of the pass for the item with that id: the try branch
      (mark synced) or the catch branch (mark failed, then count the attempt). */
  function SyncStep(s: Store, id: nat, ok: bool): (s': Store)
    requires id in s.syncQueue
    ensures s'.syncQueue == s.syncQueue[id := Outcome(s.syncQueue[id], ok)]
    ensures s'.masterData == s.masterData && s'.transactions == s.transactions
    ensures s'.nextSyncId == s.nextSyncId && s'.nextTxId == s.nextTxId
  {
    if ok then UpdateSyncStatus(s, id, Synced)
    else IncrementAttempts(UpdateSyncStatus(s, id, Failed), id)
  }

  /** Reference result of a whole pass: every item pending in the snapshot is
      settled by its own outcome, whatever happened to the others; every other
      item is left as it was. */
  function Settle(q: map<nat, SyncItem>, remote: nat -> bool): (r: map<nat, SyncItem>)
    ensures r.Keys == q.Keys
    ensures forall id | id in q && q[id].status != Pending :: r[id] == q[id]
    ensures forall id | id in q && q[id].status == Pending ::
      (remote(id) ==> r[id].status == Synced && r[id].attempts == q[id].attempts)
      && (!remote(id) ==> r[id].status == Failed && r[id].attempts == q[id].attempts + 1)
    ensures forall id | id in q ::
      && r[id].status != Pending
      && r[id].entityType == q[id].entityType && r[id].operation == q[id].operation
      && r[id].data == q[id].data && r[id].createdAt == q[id].createdAt
  {
    map id | id in q :: if q[id].status == Pending then Outcome(q[id], remote(id)) else q[id]
  }

  /** A rejected write inside the catch block at the pending item with that
      position: either the 'failed' status write rejects (`statusWritten` is
      false: the catch changes nothing) or the attempts write that follows it
      does (the item stays 'failed' with its attempt uncounted). The rejection
      leaves the loop and the pass's promise rejects. */
  datatype CatchFault = CatchFault(position: nat, statusWritten: bool)

  /** The fault takes effect only where a catch block runs: at an existing
      position whose item fails remotely. */
  predicate Fires(fault: Option<CatchFault>, processed: seq<nat>, remote: nat -> bool) {
    fault.Some? && fault.value.position < |processed| && !remote(processed[fault.value.position])
  }

  /** The item as a rejected catch block leaves it. */
  function Interrupted(item: SyncItem, statusWritten: bool): SyncItem {
    if statusWritten then item.(status := Failed) else item
  }

  /** `processSyncQueue`: snapshot the queue, keep the pending items, and for
      each in ascending id order try the remote; on success mark it synced, on
      failure mark it failed and count the attempt, then go on with the next.
      A rejected write in the catch block ends the pass there: the items before
      it are settled, it is left as `Interrupted` says, and later items stay
      pending. */
  method ProcessSyncQueue(s: Store, remote: nat -> bool, fault: Option<CatchFault>)
    returns (s': Store, processed: seq<nat>, result: Result<(), StorageError>)
    requires Valid(s)
    ensures Valid(s')
    ensures forall id :: id in processed <==> id in s.syncQueue && s.syncQueue[id].status == Pending
    ensures forall i, j | 0 <= i < j < |processed| :: processed[i] < processed[j]
    ensures result.Ok? <==> !Fires(fault, processed, remote)
    ensures result.Ok? ==> s'.syncQueue == Settle(s.syncQueue, remote)
    ensures result.Err? ==>
      var j := fault.value.position;
      && processed[j] in s.syncQueue
      && s'.syncQueue == SettledSoFar(s.syncQueue, set k | 0 <= k < j :: processed[k], remote)
                           [processed[j] := Interrupted(s.syncQueue[processed[j]], fault.value.statusWritten)]
      && (forall k | j < k < |processed| :: s'.syncQueue[processed[k]] == s.syncQueue[processed[k]])
    ensures s'.masterData == s.masterData && s'.transactions == s.transactions
    ensures s'.nextSyncId == s.nextSyncId && s'.nextTxId == s.nextTxId
  {
    processed := PendingIds(s);
    s', result := SettlePending(s, processed, remote, fault);
  }

  /** The loop of the pass over the snapshot's pending ids. */
  method SettlePending(s: Store, processed: seq<nat>, remote: nat -> bool, fault: Option<CatchFault>)
    returns (s': Store, result: Result<(), StorageError>)
    requires Valid(s)
    requires forall id :: id in processed <==> id in s.syncQueue && s.syncQueue[id].status == Pending
    requires forall i, j | 0 <= i < j < |processed| :: processed[i] < processed[j]
    ensures s' == s.(syncQueue := s'.syncQueue)
    ensures result.Ok? <==> !Fires(fault, processed, remote)
    ensures result.Ok? ==> s'.syncQueue == Settle(s.syncQueue, remote)
    ensures result.Err? ==>
      var j := fault.value.position;
      && processed[j] in s.syncQueue
      && s'.syncQueue == SettledSoFar(s.syncQueue, set k | 0 <= k < j :: processed[k], remote)
                           [processed[j] := Interrupted(s.syncQueue[processed[j]], fault.value.statusWritten)]
      && (forall k | j < k < |processed| :: s'.syncQueue[processed[k]] == s.syncQueue[processed[k]])
  {
    s' := s;
    result := Ok(());
    ghost var done: set<nat> := {};
    var i := 0;
    while i < |processed|
      invariant 0 <= i <= |processed|
      invariant done == set k | 0 <= k < i :: processed[k]
      invariant s' == s.(syncQueue := SettledSoFar(s.syncQueue, done, remote))
      invariant fault.Some? && fault.value.position < i ==> remote(processed[fault.value.position])
    {
      var id := processed[i];
      PrefixSetExtend(processed, i);
      if fault.Some? && fault.value.position == i && !remote(id) {
        s' := if fault.value.statusWritten then UpdateSyncStatus(s', id, Failed) else s';
        result := Err(StorageError("sync status write failed"));
        LaterUntouched(s.syncQueue, processed, i, remote, Interrupted(s.syncQueue[id], fault.value.statusWritten));
        return;
      }
      SettleOneMore(s.syncQueue, done, id, remote);
      s' := SyncStep(s', id, remote(id));
      done := done + {id};
      i := i + 1;
    }
    SettledAll(s.syncQueue, processed, done, remote);
  }

  /** When a pass stops at position `i`, the items after it are as the
      snapshot had them. */
  lemma LaterUntouched(q: map<nat, SyncItem>, p: seq<nat>, i: nat, remote: nat -> bool, item: SyncItem)
    requires forall a, b | 0 <= a < b < |p| :: p[a] < p[b]
    requires i < |p| && forall k | 0 <= k < |p| :: p[k] in q
    ensures forall k | i < k < |p| ::
      SettledSoFar(q, set m | 0 <= m < i :: p[m], remote)[p[i] := item][p[k]] == q[p[k]]
  {
    var done := set m | 0 <= m < i :: p[m];
    forall k | i < k < |p|
      ensures SettledSoFar(q, done, remote)[p[i] := item][p[k]] == q[p[k]]
    {
      assert p[k] !in done;
    }
  }

  /** The elements of a strictly ascending sequence's prefix grow by the next
      element, which is not among them yet. */
  lemma PrefixSetExtend(p: seq<nat>, i: nat)
    requires forall a, b | 0 <= a < b < |p| :: p[a] < p[b]
    requires i < |p|
    ensures p[i] !in (set k | 0 <= k < i :: p[k])
    ensures (set k | 0 <= k < i + 1 :: p[k]) == (set k | 0 <= k < i :: p[k]) + {p[i]}
  {
  }

  /** The queue after the items in `done` have been settled and the others not yet. */
  function SettledSoFar(q: map<nat, SyncItem>, done: set<nat>, remote: nat -> bool): (r: map<nat, SyncItem>)
    ensures r.Keys == q.Keys
    ensures forall id | id in q && id !in done :: r[id] == q[id]
  {
    map id | id in q :: if id in done then Outcome(q[id], remote(id)) else q[id]
  }

  /** Settling one more untouched item extends the settled part by that item. */
  lemma SettleOneMore(q: map<nat, SyncItem>, done: set<nat>, id: nat, remote: nat -> bool)
    requires id in q && id !in done
    ensures SettledSoFar(q, done, remote)[id := Outcome(SettledSoFar(q, done, remote)[id], remote(id))]
         == SettledSoFar(q, done + {id}, remote)
  {
  }

  /** Settling exactly the pending items is the whole pass. */
  lemma SettledAll(q: map<nat, SyncItem>, pending: seq<nat>, done: set<nat>, remote: nat -> bool)
    requires forall id :: id in pending <==> id in q && q[id].status == Pending
    requires done == set k | 0 <= k < |pending| :: pending[k]
    ensures SettledSoFar(q, done, remote) == Settle(q, remote)
  {
    assert forall id | id in q :: id in done <==> q[id].status == Pending by {
      forall id | id in q
        ensures id in done <==> q[id].status == Pending
      {
        if id in pending {
          var k :| 0 <= k < |pending| && pending[k] == id;
          assert id in done;
        }
      }
    }
  }

  /** After a pass nothing is pending, so a second pass (with any remote
      outcomes) changes nothing. */
  lemma SecondPassNoChange(q: map<nat, SyncItem>, first: nat -> bool, second: nat -> bool)
    ensures Settle(Settle(q, first), second) == Settle(q, first)
  {
  }

  /** Several passes in a row, one remote oracle per pass. */
  function Passes(q: map<nat, SyncItem>, remotes: seq<nat -> bool>): (r: map<nat, SyncItem>)
    ensures r.Keys == q.Keys
  {
    if |remotes| == 0 then q else Passes(Settle(q, remotes[0]), remotes[1..])
  }

  /** A failed item is never picked up again: any number of later passes
      leave it exactly as it is, with the same attempt count. */
  lemma {:induction false} FailedNeverReprocessed(q: map<nat, SyncItem>, remotes: seq<nat -> bool>, id: nat)
    requires id in q && q[id].status == Failed
    ensures Passes(q, remotes)[id] == q[id]
  {
    if |remotes| > 0 {
      FailedNeverReprocessed(Settle(q, remotes[0]), remotes[1..], id);
    }
  }

  /** Once a pass has run, further passes change nothing, whatever the remote does. */
  lemma {:induction false} PassesAfterFirstAreIdle(q: map<nat, SyncItem>, remotes: seq<nat -> bool>)
    requires |remotes| >= 1
    ensures Passes(q, remotes) == Settle(q, remotes[0])
    decreases |remotes|
  {
    if |remotes| > 1 {
      SecondPassNoChange(q, remotes[0], remotes[1]);
      PassesAfterFirstAreIdle(Settle(q, remotes[0]), remotes[1..]);
    }
  }
}
