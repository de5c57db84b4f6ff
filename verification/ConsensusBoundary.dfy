/**
 Executing with marks in two views: how try_to_execute and leader_try_to_execute
 of src/consensus/consensus.c get over the end of a view.
 */
module ConsensusBoundary {
  import opened Basics
  import opened ViewStamps
  import opened Bitmap
  import opened ConsensusNode
  import opened ConsensusExec

  // ---------- a follower ----------

  /** The first stamp of the view behind v. */
  function Start(v: nat): ViewStamp
    requires v + 1 < TWO_32
  {
    ViewStamp(v + 1, 0)
  }

  /** A follower with its marks in two views asks for the boundary record if it lacks it, and for nothing else. If it
      has it, it delivers up to the first absent record before the boundary, asks for all that are absent,
      and steps into the next view exactly if none was. A boundary it has passed changes nothing. */
  lemma FollowerCrosses(n: Node)
    requires n.role.Secondary? && n.curView.viewId != 0
    requires n.committed.viewId != n.toCommit.viewId && n.committed.viewId + 1 < TWO_32
    ensures var v, lo := n.committed.viewId, n.committed.reqId;
      var r, key := TryToExecute(n), Key(v + 1, 0);
      var last := BoundaryAt(n, key);
      && r.node.seen == n.seen && r.node.toCommit == n.toCommit && r.node.db == n.db
      && (key !in n.db ==> r == Outcome(n, [AskFor(n.nodeId, Start(v))]))
      && (key in n.db && last.viewId == v && lo <= last.reqId ==>
            && AsksForAbsent(n.nodeId, n.db, v, lo, last.reqId, r.sent)
            && exists hi: nat :: DeliveredPrefix(n.db, v, lo, hi, last.reqId)
                 && r.node.delivered == n.delivered + Entries(n.db, v, lo, hi)
                 && r.node.committed == if hi == last.reqId then Start(v) else ViewStamp(v, hi))
      && (key in n.db && Vstol(last) < Vstol(n.committed) ==> r == Outcome(n, []))
  {
    hide ExecLoop, BoundaryAt, Entries, AsksForAbsent, ViewStampComp;
    var v, lo := n.committed.viewId, n.committed.reqId;
    var key := Key(v + 1, 0);
    var last := BoundaryAt(n, key);
    assert Vstol(n.committed) + 1 == Key(v, lo as nat + 1) && Vstol(Start(v)) == key;
    if key in n.db && last.viewId == v && lo <= last.reqId {
      var out := ExecLoop(n, Key(v, lo as nat + 1), Key(v, last.reqId), true);
      ExecLoopDelivers(n, v, lo, last.reqId, out.node);
      ExecLoopAsks(n, v, lo, last.reqId, true);
      assert Vstol(last) == Key(v, last.reqId);
      assert DeliveredPrefix(n.db, v, lo, out.node.committed.reqId, last.reqId);
    } else if key in n.db && Vstol(last) < Vstol(n.committed) {
      ExecEnds(n, Vstol(n.committed) + 1, Vstol(last), true);
    }
  }

  // ---------- a leader ----------

  /** Requests lo..hi - 1 of view v, as the user callback gets them. */
  function EntriesFrom(db: map<nat, Record>, v: nat, lo: nat, hi: nat): (r: seq<Delivery>)
    requires lo <= hi && forall k: nat {:trigger Key(v, k)} :: lo <= k < hi ==> Key(v, k) in db
    ensures |r| == hi - lo
    ensures forall j :: 0 <= j < hi - lo ==> r[j] == Delivery(Key(v, lo + j), db[Key(v, lo + j)].data)
    decreases hi - lo
  {
    if lo == hi then [] else [Delivery(Key(v, lo), db[Key(v, lo)].data)] + EntriesFrom(db, v, lo + 1, hi)
  }

  /** From request lo on, a majority is recorded to hold every request before hi, and not request hi. */
  predicate HeldBefore(n: Node, v: nat, lo: nat, hi: nat, end: nat) {
    && lo <= hi <= end + 1
    && (forall k: nat {:trigger Key(v, k)} :: lo <= k < hi ==> Key(v, k) in n.db && MajorityHolds(n.db, n.groupSize, Key(v, k)))
    && (hi <= end ==> Key(v, hi) in n.db && !MajorityHolds(n.db, n.groupSize, Key(v, hi)))
  }

  /** The loop, begun at the record of the marks themselves. */
  lemma {:induction false} LoopFromMarks(n: Node, v: uint32, m: nat, end: nat, r: Node)
    requires end + 1 < TWO_32 && m <= end + 1 && n.toCommit == n.committed == ViewStamp(v, m)
    requires Loaded(n.db, n.groupSize, Key(v, m), Key(v, end)) && r == LeaderLoop(n, Key(v, m), Key(v, end), true)
    ensures r.toCommit == r.committed && r.committed.viewId == v && HeldBefore(n, v, m, r.committed.reqId, end)
    ensures r.delivered == n.delivered + EntriesFrom(n.db, v, m, r.committed.reqId)
    decreases end + 1 - m
  {
    hide LeaderLoop, Loaded, ReachedQuorum, MajorityHolds;
    var key := Key(v, m);
    if m == end + 1 {
      LeaderLoopEnds(n, key, Key(v, end));
    } else {
      LeaderLoopTurn(n, key, Key(v, end));
      LoadedFirst(n, key, Key(v, end));
      MajorityIsQuorum(n, key);
      assert Key(v, m + 1) == key + 1;
      if HasQuorum(n.db, n.groupSize, key) {
        LoopFromMarks(DeliverNext(n.(toCommit := Inc(n.toCommit)), key), v, m + 1, end, r);
        DeliveredFirst(n, v, m, r.committed.reqId);
      }
    }
  }

  lemma LoadedFirst(n: Node, index: nat, end: nat)
    requires Loaded(n.db, n.groupSize, index, end) && index <= end
    ensures index in n.db
  {
  }

  lemma MajorityIsQuorum(n: Node, key: nat)
    requires key in n.db
    ensures MajorityHolds(n.db, n.groupSize, key) <==> HasQuorum(n.db, n.groupSize, key)
  {
    hide ReachedQuorum, Recorded;
    QuorumIsMajority(n.db[key].bitMap, n.groupSize);
  }

  lemma DeliveredFirst(n: Node, v: nat, m: nat, hi: nat)
    requires m < hi && forall k: nat {:trigger Key(v, k)} :: m <= k < hi ==> Key(v, k) in n.db
    ensures n.delivered + [Delivery(Key(v, m), n.db[Key(v, m)].data)] + EntriesFrom(n.db, v, m + 1, hi)
      == n.delivered + EntriesFrom(n.db, v, m, hi)
  {
  }

  /** A leader whose marks are one view behind moves them into the next view and executes from its record 0 on, the boundary
      itself: so the marks name the first record it has not executed, and not, as inside a view, the last one it has. The next
      time it starts behind that record: the record it stopped at is never executed. */
  lemma LeaderCrosses(n: Node)
    requires LeaderReady(n) && n.seen.viewId == n.toCommit.viewId + 1 && n.seen.reqId as nat + 1 < TWO_32
    ensures var r, v := LeaderTryToExecute(n), n.seen.viewId;
      var hi := r.committed.reqId;
      && r.toCommit == r.committed == ViewStamp(v, hi) && HeldBefore(n, v, 0, hi, n.seen.reqId)
      && r.delivered == n.delivered + EntriesFrom(n.db, v, 0, hi)
      && LeaderStart(r) == Key(v, hi + 1)
  {
    hide LeaderLoop, Loaded, HeldBefore;
    var n0, v := CrossBoundary(n), n.seen.viewId;
    assert LeaderStart(n) == Key(v, 0) && Vstol(n.seen) == Key(v, n.seen.reqId);
    LoopFromMarks(n0, v, 0, n.seen.reqId, LeaderTryToExecute(n));
    HeldAlike(n0, n, v, LeaderTryToExecute(n).committed.reqId, n.seen.reqId);
  }

  lemma HeldAlike(a: Node, b: Node, v: nat, hi: nat, end: nat)
    requires a.db == b.db && a.groupSize == b.groupSize && HeldBefore(a, v, 0, hi, end)
    ensures HeldBefore(b, v, 0, hi, end)
    ensures forall k: nat {:trigger Key(v, k)} :: 0 <= k < hi ==> Key(v, k) in b.db
  {
    hide MajorityHolds;
  }
}
