/**
 What the execution loops of leader_try_to_execute and try_to_execute amount
 to inside one view, without reference to the loops.
 */
module ConsensusExec {
  import opened Basics
  import opened ViewStamps
  import opened Bitmap
  import opened ConsensusNode

  /** The record number of request k of view v. */
  function Key(v: nat, k: nat): nat {
    k + v * TWO_32
  }

  /** Requests lo+1..hi of view v are in the database. */
  predicate Present(db: map<nat, Record>, v: nat, lo: nat, hi: nat) {
    forall k: nat {:trigger Key(v, k)} :: lo < k <= hi ==> Key(v, k) in db
  }

  /** Requests lo+1..hi of view v, as the user callback gets them. */
  function Entries(db: map<nat, Record>, v: nat, lo: nat, hi: nat): (r: seq<Delivery>)
    requires lo <= hi && Present(db, v, lo, hi)
    ensures |r| == hi - lo
    ensures forall j :: 0 <= j < hi - lo ==> r[j] == Delivery(Key(v, lo + 1 + j), db[Key(v, lo + 1 + j)].data)
  {
    if lo == hi then [] else Entries(db, v, lo, hi - 1) + [Delivery(Key(v, hi), db[Key(v, hi)].data)]
  }

  // ---------- the leader's loop ----------

  predicate HasQuorum(db: map<nat, Record>, groupSize: nat, key: nat) {
    key in db && ReachedQuorum(db[key].bitMap, groupSize)
  }

  /** From `lo` on, the leader moved its marks to `hi`: over a prefix in which every
      record has its quorum, and no further than the first record without one. */
  predicate Advanced(db: map<nat, Record>, groupSize: nat, v: nat, lo: nat, hi: nat, end: nat) {
    && lo <= hi <= end
    && (forall k: nat {:trigger Key(v, k)} :: lo < k <= hi ==> HasQuorum(db, groupSize, Key(v, k)))
    && (hi < end ==> !HasQuorum(db, groupSize, Key(v, hi + 1)))
  }

  /** A database with every record is good enough for the loop. */
  lemma {:induction false} AllLoaded(db: map<nat, Record>, groupSize: nat, index: nat, end: nat)
    requires forall key :: index <= key <= end ==> key in db
    ensures Loaded(db, groupSize, index, end)
    decreases end + 1 - index
  {
    if index <= end {
      AllLoaded(db, groupSize, index + 1, end);
    }
  }

  lemma LeaderLoopTurn(n: Node, index: nat, end: nat)
    requires index <= end && Loaded(n.db, n.groupSize, index, end)
    ensures HasQuorum(n.db, n.groupSize, index) ==> Loaded(n.db, n.groupSize, index + 1, end)
    ensures LeaderLoop(n, index, end, true) ==
      if HasQuorum(n.db, n.groupSize, index)
      then LeaderLoop(DeliverNext(n.(toCommit := Inc(n.toCommit)), index), index + 1, end, true)
      else n
  {
    hide ReachedQuorum, Inc;
  }

  /** One round of the loop. */
  lemma LeaderLoopStep(n: Node, v: uint32, lo: nat, end: nat)
    requires end < TWO_32 && lo < end
    requires Loaded(n.db, n.groupSize, Key(v, lo + 1), Key(v, end))
    ensures HasQuorum(n.db, n.groupSize, Key(v, lo + 1)) ==> Loaded(n.db, n.groupSize, Key(v, lo + 2), Key(v, end))
    ensures var key := Key(v, lo + 1);
      LeaderLoop(n, key, Key(v, end), true) ==
      if HasQuorum(n.db, n.groupSize, key)
      then LeaderLoop(DeliverNext(n.(toCommit := Inc(n.toCommit)), key), Key(v, lo + 2), Key(v, end), true)
      else n
  {
    hide ReachedQuorum, HasQuorum, LeaderLoop, Loaded, DeliverNext;
    LeaderLoopTurn(n, Key(v, lo + 1), Key(v, end));
  }

  lemma LeaderLoopEnds(n: Node, index: nat, end: nat)
    requires index > end
    ensures LeaderLoop(n, index, end, true) == n
  {
  }

  lemma {:induction false} LeaderLoopAdvances(n: Node, v: uint32, lo: nat, end: nat, r: Node)
    requires end < TWO_32 && lo <= end
    requires n.toCommit == n.committed == ViewStamp(v, lo)
    requires Loaded(n.db, n.groupSize, Key(v, lo + 1), Key(v, end))
    requires r == LeaderLoop(n, Key(v, lo + 1), Key(v, end), true)
    ensures r.toCommit == r.committed && r.toCommit.viewId == v
    ensures Advanced(n.db, n.groupSize, v, lo, r.toCommit.reqId, end)
    ensures Present(n.db, v, lo, r.toCommit.reqId)
    ensures r.delivered == n.delivered + Entries(n.db, v, lo, r.toCommit.reqId)
    decreases end - lo
  {
    hide LeaderLoop, HasQuorum;
    var key := Key(v, lo + 1);
    if lo == end {
      LeaderLoopEnds(n, key, Key(v, end));
    } else if HasQuorum(n.db, n.groupSize, key) {
      LeaderLoopStep(n, v, lo, end);
      LeaderLoopAdvances(DeliverNext(n.(toCommit := Inc(n.toCommit)), key), v, lo + 1, end, r);
      var hi := r.toCommit.reqId;
    } else {
      LeaderLoopStep(n, v, lo, end);
    }
  }

  lemma LeaderMovesMarks(n: Node)
    requires OneView(n) && LeaderReady(n)
    requires n.toCommit == n.committed && n.toCommit.reqId <= n.seen.reqId
    ensures var r, v, lo := LeaderTryToExecute(n), n.seen.viewId, n.toCommit.reqId;
      && r.toCommit == r.committed && r.toCommit.viewId == v
      && Advanced(n.db, n.groupSize, v, lo, r.toCommit.reqId, n.seen.reqId)
      && Present(n.db, v, lo, r.toCommit.reqId)
      && r.delivered == n.delivered + Entries(n.db, v, lo, r.toCommit.reqId)
  {
    assert Vstol(n.toCommit) + 1 == Key(n.seen.viewId, n.toCommit.reqId as nat + 1);
    LeaderLoopAdvances(n, n.seen.viewId, n.toCommit.reqId, n.seen.reqId, LeaderTryToExecute(n));
  }

  /** More than half of the group is recorded as holding the record. */
  predicate MajorityHolds(db: map<nat, Record>, groupSize: nat, key: nat)
    requires key in db
  {
    2 * |Recorded(db[key].bitMap)| > groupSize
  }

  /** leader_try_to_execute moves both marks over exactly the longest prefix of records that a
      majority is recorded to hold, and delivers exactly that prefix. */
  lemma LeaderAdvances(n: Node)
    requires OneView(n) && LeaderReady(n)
    requires n.toCommit == n.committed && n.toCommit.reqId <= n.seen.reqId
    ensures var r, v, lo, end := LeaderTryToExecute(n), n.seen.viewId, n.toCommit.reqId, n.seen.reqId;
      var hi := r.committed.reqId;
      && r.toCommit == r.committed && r.committed.viewId == v && lo <= hi <= end
      && Present(n.db, v, lo, hi)
      && (forall k: nat {:trigger Key(v, k)} :: lo < k <= hi ==> MajorityHolds(n.db, n.groupSize, Key(v, k)))
      && (hi < end ==> Key(v, hi + 1) in n.db && !MajorityHolds(n.db, n.groupSize, Key(v, hi + 1)))
      && r.delivered == n.delivered + Entries(n.db, v, lo, hi)
  {
    hide LeaderTryToExecute, ReachedQuorum, Recorded;
    LeaderMovesMarks(n);
    var v, lo, hi := n.seen.viewId, n.toCommit.reqId, LeaderTryToExecute(n).committed.reqId;
    forall k: nat {:trigger Key(v, k)} | lo < k <= hi ensures MajorityHolds(n.db, n.groupSize, Key(v, k)) {
      QuorumIsMajority(n.db[Key(v, k)].bitMap, n.groupSize);
    }
    if hi < n.seen.reqId {
      FirstOpenIsThere(n, v, lo, hi);
      QuorumIsMajority(n.db[Key(v, hi + 1)].bitMap, n.groupSize);
    }
  }

  lemma {:induction false} LoadedUpTo(db: map<nat, Record>, groupSize: nat, v: nat, lo: nat, hi: nat, end: nat)
    requires Loaded(db, groupSize, Key(v, lo + 1), Key(v, end)) && lo <= hi < end
    requires forall k: nat {:trigger Key(v, k)} :: lo < k <= hi ==> HasQuorum(db, groupSize, Key(v, k))
    ensures Key(v, hi + 1) in db
    decreases hi - lo
  {
    hide ReachedQuorum;
    if lo < hi {
      assert HasQuorum(db, groupSize, Key(v, lo + 1));
      LoadedUpTo(db, groupSize, v, lo + 1, hi, end);
    }
  }

  /** The assertion of leader_try_to_execute: the record it stops at is there. */
  lemma FirstOpenIsThere(n: Node, v: uint32, lo: nat, hi: nat)
    requires OneView(n) && LeaderReady(n) && v == n.seen.viewId && lo == n.toCommit.reqId && lo <= hi < n.seen.reqId
    requires forall k: nat {:trigger Key(v, k)} :: lo < k <= hi ==> HasQuorum(n.db, n.groupSize, Key(v, k))
    ensures Key(v, hi + 1) in n.db
  {
    hide ReachedQuorum, Loaded;
    assert LeaderStart(n) == Key(v, lo + 1) && Vstol(n.seen) == Key(v, n.seen.reqId);
    LoadedUpTo(n.db, n.groupSize, v, lo, hi, n.seen.reqId);
  }

  // ---------- the follower's loop ----------

  /** `sent` asks every other node for each absent request of lo+1..hi: each once, in order. */
  predicate AsksForAbsent(nodeId: nat, db: map<nat, Record>, v: uint32, lo: nat, hi: uint32, sent: seq<Packet>) {
    && (forall j :: 0 <= j < |sent| ==>
          && sent[j].msg.MissingReq? && sent[j] == AskFor(nodeId, sent[j].msg.vs)
          && sent[j].msg.vs.viewId == v && lo < sent[j].msg.vs.reqId <= hi && Key(v, sent[j].msg.vs.reqId) !in db)
    && (forall i, j :: 0 <= i < j < |sent| ==> sent[i].msg.vs.reqId < sent[j].msg.vs.reqId)
    && (forall k: uint32 {:trigger Key(v, k)} :: lo < k <= hi && Key(v, k) !in db ==> AskFor(nodeId, ViewStamp(v, k)) in sent)
  }

  function AskFor(nodeId: nat, vs: ViewStamp): Packet {
    Packet(nodeId, EVERYBODY, MissingReq(vs))
  }

  lemma AsksStep(nodeId: nat, db: map<nat, Record>, v: uint32, lo: nat, hi: uint32, rest: seq<Packet>)
    requires lo < hi && AsksForAbsent(nodeId, db, v, lo + 1, hi, rest)
    ensures AsksForAbsent(nodeId, db, v, lo, hi,
              if Key(v, lo + 1) in db then rest else [AskFor(nodeId, ViewStamp(v, lo + 1))] + rest)
  {
    hide Key;
    if Key(v, lo + 1) !in db {
      var first := AskFor(nodeId, ViewStamp(v, lo + 1));
      var sent := [first] + rest;
      assert sent[0] == first && forall j :: 1 <= j < |sent| ==> sent[j] == rest[j - 1];
      forall k: uint32 {:trigger Key(v, k)} | lo < k <= hi && Key(v, k) !in db
        ensures AskFor(nodeId, ViewStamp(v, k)) in sent
      {
        if k == lo + 1 {
          assert sent[0] == first;
        } else {
          assert AskFor(nodeId, ViewStamp(v, k)) in rest;
        }
      }
    } else {
      forall k: uint32 {:trigger Key(v, k)} | lo < k <= hi && Key(v, k) !in db
        ensures AskFor(nodeId, ViewStamp(v, k)) in rest
      {
        assert k != lo + 1;
      }
    }
  }

  /** One round of the loop. */
  lemma ExecLoopStep(n: Node, v: uint32, lo: nat, hi: uint32, execFlag: bool)
    requires lo < hi
    ensures var key := Key(v, lo + 1);
      if key in n.db then
        ExecLoop(n, key, Key(v, hi), execFlag) ==
        ExecLoop(if execFlag then DeliverNext(n, key) else n, Key(v, lo + 2), Key(v, hi), execFlag)
      else
        var rest := ExecLoop(n, Key(v, lo + 2), Key(v, hi), false);
        ExecLoop(n, key, Key(v, hi), execFlag) ==
        Outcome(rest.node, [AskFor(n.nodeId, ViewStamp(v, lo + 1))] + rest.sent)
  {
    assert Key(v, lo + 2) == Key(v, lo + 1) + 1;
    KeyRoundTrip(ViewStamp(v, lo + 1), 0);
  }

  lemma {:induction false} ExecLoopAsks(n: Node, v: uint32, lo: nat, hi: uint32, execFlag: bool)
    requires lo <= hi
    ensures AsksForAbsent(n.nodeId, n.db, v, lo, hi, ExecLoop(n, Key(v, lo + 1), Key(v, hi), execFlag).sent)
    decreases hi - lo
  {
    if lo < hi {
      var key := Key(v, lo + 1);
      ExecLoopStep(n, v, lo, hi, execFlag);
      if key !in n.db {
        ExecLoopAsks(n, v, lo + 1, hi, false);
        AsksStep(n.nodeId, n.db, v, lo, hi, ExecLoop(n, Key(v, lo + 2), Key(v, hi), false).sent);
      } else {
        var n1 := if execFlag then DeliverNext(n, key) else n;
        ExecLoopAsks(n1, v, lo + 1, hi, execFlag);
        AsksStep(n.nodeId, n.db, v, lo, hi, ExecLoop(n1, Key(v, lo + 2), Key(v, hi), execFlag).sent);
      }
    }
  }

  lemma {:induction false} ExecLoopStopped(n: Node, index: nat, end: nat)
    requires end < TWO_32 * TWO_32
    ensures ExecLoop(n, index, end, false).node == n
    decreases end + 1 - index
  {
    if index <= end {
      ExecLoopStopped(n, index + 1, end);
    }
  }

  /** From `lo` on, the node delivered up to `hi`, the last request before the first absent one. */
  predicate DeliveredPrefix(db: map<nat, Record>, v: nat, lo: nat, hi: nat, end: nat) {
    && lo <= hi <= end
    && Present(db, v, lo, hi)
    && (hi < end ==> Key(v, hi + 1) !in db)
  }

  lemma {:induction false} ExecLoopDelivers(n: Node, v: uint32, lo: nat, end: uint32, r: Node)
    requires lo <= end
    requires n.committed == ViewStamp(v, lo)
    requires r == ExecLoop(n, Key(v, lo + 1), Key(v, end), true).node
    ensures r.committed.viewId == v
    ensures DeliveredPrefix(n.db, v, lo, r.committed.reqId, end)
    ensures r.delivered == n.delivered + Entries(n.db, v, lo, r.committed.reqId)
    decreases end - lo
  {
    hide ExecLoop;
    if lo < end {
      var key := Key(v, lo + 1);
      ExecLoopStep(n, v, lo, end, true);
      if key in n.db {
        ExecLoopDelivers(DeliverNext(n, key), v, lo + 1, end, r);
        var hi := r.committed.reqId;
        assert Present(n.db, v, lo, hi);
      } else {
        ExecLoopStopped(n, Key(v, lo + 2), Key(v, end));
      }
    } else {
      ExecEnds(n, Key(v, lo + 1), Key(v, end), true);
    }
  }

  /** try_to_execute on a follower that has joined the view. */
  lemma FollowerExecutes(n: Node)
    requires OneView(n) && n.role.Secondary? && n.curView.viewId != 0
    requires n.committed.reqId <= n.toCommit.reqId
    ensures var r, v, lo, end := TryToExecute(n), n.seen.viewId, n.committed.reqId, n.toCommit.reqId;
      && r.node.toCommit == n.toCommit
      && DeliveredPrefix(n.db, v, lo, r.node.committed.reqId, end)
      && r.node.delivered == n.delivered + Entries(n.db, v, lo, r.node.committed.reqId)
      && AsksForAbsent(n.nodeId, n.db, v, lo, end, r.sent)
  {
    var v: nat, lo: nat, end: nat := n.seen.viewId, n.committed.reqId, n.toCommit.reqId;
    assert Vstol(n.committed) + 1 == Key(v, lo + 1) && Vstol(n.toCommit) == Key(v, end);
    ExecLoopDelivers(n, v, lo, end, TryToExecute(n).node);
    ExecLoopAsks(n, v, lo, end, true);
  }

  // ---------- the loops of try_to_execute and consensus_make_progress, turn by turn ----------

  lemma ExecStep(before: seq<Packet>, n: Node, index: nat, end: nat, execFlag: bool)
    requires index <= end < WORD
    ensures index !in n.db ==>
      var rest := ExecLoop(n, index + 1, end, false);
      var here := ExecLoop(n, index, end, execFlag);
      here.node == rest.node && before + here.sent == before + [Broadcast(n, MissingReq(Ltovs(index)))] + rest.sent
    ensures index in n.db ==>
      ExecLoop(n, index, end, execFlag) == ExecLoop(if execFlag then DeliverNext(n, index) else n, index + 1, end, execFlag)
  {
    hide Ltovs;
  }

  lemma ExecEnds(n: Node, index: nat, end: nat, execFlag: bool)
    requires end < WORD
    ensures index > end ==> ExecLoop(n, index, end, execFlag) == Outcome(n, [])
  {
  }

  lemma ResendStep(before: seq<Packet>, n: Node, index: nat, end: nat)
    requires index <= end < WORD
    requires forall key :: index <= key <= end ==> key in n.db
    ensures before + ResendLoop(n, index, end) ==
      (if ReachedQuorum(n.db[index].bitMap, n.groupSize) then before
       else before + [Broadcast(n, AcceptReq(Ltovs(index), n.toCommit, n.db[index].data))])
      + ResendLoop(n, index + 1, end)
  {
    hide Ltovs;
  }

  lemma ResendEnds(n: Node, index: nat, end: nat)
    requires end < WORD
    requires forall key :: index <= key <= end ==> key in n.db
    ensures index > end ==> ResendLoop(n, index, end) == []
  {
  }
}
