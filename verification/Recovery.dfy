/**
 What the nodes of a replica group can still do from any state of it: every node
 joins the view, every record gets its quorum and every follower catches up, with
 packets sent from then on.
 */
module Recovery {
  import opened Basics
  import opened ViewStamps
  import opened Bitmap
  import opened ConsensusNode
  import opened ConsensusExec
  import opened ReplicationCluster
  import opened ReplicationInvariant
  import opened GapRepair

  // ---------- runs from a state on ----------

  predicate CanRun(cfg: Config, c: Cluster, steps: seq<Step>)
    decreases |steps|
  {
    steps == [] || (Enabled(c, steps[0]) && CanRun(cfg, Apply(cfg, c, steps[0]), steps[1..]))
  }

  function Run(cfg: Config, c: Cluster, steps: seq<Step>): Cluster
    requires CanRun(cfg, c, steps)
    decreases |steps|
  {
    if steps == [] then c else Run(cfg, Apply(cfg, c, steps[0]), steps[1..])
  }

  /** No user asks for anything. */
  predicate NoRequest(steps: seq<Step>) {
    forall t :: 0 <= t < |steps| ==> !steps[t].Submit?
  }

  /** Without a new request, c' is where a run from c may come to. */
  ghost predicate Reaches(cfg: Config, c: Cluster, c': Cluster) {
    exists steps :: NoRequest(steps) && CanRun(cfg, c, steps) && Run(cfg, c, steps) == c'
  }

  lemma {:induction false} RunAppend(cfg: Config, c: Cluster, a: seq<Step>, b: seq<Step>)
    requires CanRun(cfg, c, a) && CanRun(cfg, Run(cfg, c, a), b)
    ensures CanRun(cfg, c, a + b) && Run(cfg, c, a + b) == Run(cfg, Run(cfg, c, a), b)
    decreases |a|
  {
    hide Enabled, Apply;
    if a == [] {
      assert a + b == b;
    } else {
      RunAppend(cfg, Apply(cfg, c, a[0]), a[1..], b);
      assert (a + b)[1..] == a[1..] + b;
    }
  }

  lemma Stays(cfg: Config, c: Cluster)
    ensures Reaches(cfg, c, c)
  {
    assert NoRequest([]) && CanRun(cfg, c, []) && Run(cfg, c, []) == c;
  }

  lemma Onward(cfg: Config, c: Cluster, c1: Cluster, c2: Cluster)
    requires Reaches(cfg, c, c1) && Reaches(cfg, c1, c2)
    ensures Reaches(cfg, c, c2)
  {
    hide CanRun, Run;
    var a :| NoRequest(a) && CanRun(cfg, c, a) && Run(cfg, c, a) == c1;
    var b :| NoRequest(b) && CanRun(cfg, c1, b) && Run(cfg, c1, b) == c2;
    RunAppend(cfg, c, a, b);
    assert NoRequest(a + b);
  }

  lemma StepReaches(cfg: Config, c: Cluster, step: Step)
    requires Inv(cfg, c) && Enabled(c, step) && !step.Submit?
    ensures Inv(cfg, Apply(cfg, c, step)) && Reaches(cfg, c, Apply(cfg, c, step))
  {
    hide Inv, Enabled, Apply;
    StepKeepsInv(cfg, c, step);
    var steps := [step];
    assert steps[1..] == [];
    assert CanRun(cfg, c, steps) && Run(cfg, c, steps) == Apply(cfg, c, step);
    assert NoRequest(steps);
  }

  /** Every packet in flight is lost. */
  function Lost(c: Cluster): Cluster {
    c.(net := {})
  }

  lemma LostKeepsInv(cfg: Config, c: Cluster)
    requires Inv(cfg, c)
    ensures Inv(cfg, Lost(c))
    ensures Log(cfg, Lost(c)) == Log(cfg, c)
  {
  }

  /** What a run does with fewer packets in flight, it may do with more. */
  lemma {:induction false} MorePackets(cfg: Config, c: Cluster, net: set<Packet>, steps: seq<Step>)
    requires CanRun(cfg, c, steps) && c.net <= net
    ensures CanRun(cfg, c.(net := net), steps)
    ensures Run(cfg, c.(net := net), steps).nodes == Run(cfg, c, steps).nodes
    decreases |steps|
  {
    if steps != [] {
      var more := c.(net := net);
      var c1, more1 := Apply(cfg, c, steps[0]), Apply(cfg, more, steps[0]);
      assert more1 == c1.(net := more1.net);
      MorePackets(cfg, c1, more1.net, steps[1..]);
    }
  }

  lemma MorePacketsReach(cfg: Config, c: Cluster, net: set<Packet>, c': Cluster) returns (c'': Cluster)
    requires Reaches(cfg, c, c') && c.net <= net
    ensures Reaches(cfg, c.(net := net), c'') && c''.nodes == c'.nodes
  {
    hide CanRun, Run;
    var steps :| NoRequest(steps) && CanRun(cfg, c, steps) && Run(cfg, c, steps) == c';
    MorePackets(cfg, c, net, steps);
    c'' := Run(cfg, c.(net := net), steps);
  }

  // ---------- what a state of the cluster offers ----------

  /** Every node is in the view. */
  predicate Joined(c: Cluster) {
    forall i {:trigger c.nodes[i]} :: 0 <= i < |c.nodes| ==> c.nodes[i].curView.viewId != 0
  }

  function LeaderOf(cfg: Config, c: Cluster): Node
    requires Inv(cfg, c)
  {
    c.nodes[cfg.leader]
  }

  lemma LeaderKnown(cfg: Config, c: Cluster)
    requires Inv(cfg, c)
    ensures ValidConfig(cfg) && |c.nodes| == cfg.groupSize
    ensures var n := LeaderOf(cfg, c);
      && LeaderOk(cfg, n) && Mark(cfg, c) == n.committed.reqId <= n.seen.reqId == |Log(cfg, c)|
      && Log(cfg, c) == LogOf(n.db, cfg.view, n.seen.reqId)
  {
  }

  lemma FollowerKnown(cfg: Config, c: Cluster, i: nat)
    requires Inv(cfg, c) && i < cfg.groupSize && i != cfg.leader
    ensures |c.nodes| == cfg.groupSize && FollowerOk(cfg, c.nodes[i], i, Log(cfg, c), Mark(cfg, c))
  {
  }

  lemma PacketKnown(cfg: Config, c: Cluster, p: Packet)
    requires Inv(cfg, c) && p in c.net
    ensures PacketOk(cfg, p, Log(cfg, c), Mark(cfg, c))
  {
  }

  // ---------- the leader's timer ----------

  /** The leader has nothing to execute between handlers. */
  lemma LeaderIdle(cfg: Config, n: Node)
    requires ValidConfig(cfg) && LeaderOk(cfg, n)
    ensures LeaderReady(n) && LeaderTryToExecute(n) == n
  {
    LeaderHolds(cfg, n);
    LeaderMovesMarks(n);
    var r := LeaderTryToExecute(n);
    assert r.committed.reqId == n.committed.reqId;
  }

  function ForceOf(n: Node): Packet {
    Broadcast(n, ForceExec(n.committed))
  }

  /** The request for the first record the leader has not committed. */
  function AskOf(cfg: Config, n: Node): Packet
    requires ValidConfig(cfg) && LeaderOk(cfg, n) && n.committed.reqId < n.seen.reqId
  {
    var k := n.committed.reqId + 1;
    Broadcast(n, AcceptReq(ViewStamp(cfg.view, k), n.toCommit, n.db[Key(cfg.view, k)].data))
  }

  lemma ProgressSends(cfg: Config, n: Node)
    requires ValidConfig(cfg) && LeaderOk(cfg, n)
    ensures CanResend(n) && MakeProgress(n).node == n && ForceOf(n) in MakeProgress(n).sent
    ensures n.committed.reqId < n.seen.reqId ==> AskOf(cfg, n) in MakeProgress(n).sent
    ensures n.committed == n.seen ==> MakeProgress(n).sent == [ForceOf(n)]
  {
    hide LeaderTryToExecute, ResendLoop, ReachedQuorum, LeaderReady, LogOf, DeliveredLog;
    LeaderIdle(cfg, n);
    LeaderProgresses(cfg, n, ForceOf(n));
    if n.committed.reqId < n.seen.reqId {
      var k: uint32 := n.committed.reqId + 1;
      KeyRoundTrip(ViewStamp(cfg.view, k), 0);
      FirstIsSentAgain(n, Key(cfg.view, k), Vstol(n.seen));
    }
  }

  lemma FirstIsSentAgain(n: Node, index: nat, end: nat)
    requires index <= end < WORD && forall key :: index <= key <= end ==> key in n.db
    requires !ReachedQuorum(n.db[index].bitMap, n.groupSize)
    ensures Broadcast(n, AcceptReq(Ltovs(index), n.toCommit, n.db[index].data)) in ResendLoop(n, index, end)
  {
    hide ReachedQuorum, Ltovs;
  }

  /** The leader's timer: no node changes, and what the leader says is on its way. */
  lemma LeaderSpeaks(cfg: Config, c: Cluster) returns (c': Cluster)
    requires Inv(cfg, c)
    ensures Reaches(cfg, c, c') && Inv(cfg, c') && c'.nodes == c.nodes
    ensures var n := LeaderOf(cfg, c);
      && ForceOf(n) in c'.net
      && LeaderOk(cfg, n) && ValidConfig(cfg)
      && (n.committed.reqId < n.seen.reqId ==> AskOf(cfg, n) in c'.net)
  {
    hide Inv, LeaderOk, MakeProgress, CanResend, Reaches;
    LeaderKnown(cfg, c);
    ProgressSends(cfg, LeaderOf(cfg, c));
    c' := Apply(cfg, c, Progress(cfg.leader));
    StepReaches(cfg, c, Progress(cfg.leader));
  }

  // ---------- one record is committed ----------

  /** A follower that is sent the request stores it and acknowledges it. */
  lemma FollowerAnswersAsk(cfg: Config, n: Node, i: nat, vs: ViewStamp, canBeExed: ViewStamp, data: Data)
    requires n.role.Secondary? && n.nodeId == i && n.curView == View(cfg.view, cfg.leader)
    requires vs.viewId == n.committed.viewId == cfg.view && n.committed.reqId < vs.reqId
    ensures Packet(i, cfg.leader, AcceptAck(vs)) in HandleAcceptReq(n, cfg.leader, vs, canBeExed, data, true, 0).sent
  {
    hide TryToExecute;
    var out := HandleAcceptReq(n, cfg.leader, vs, canBeExed, data, true, 0);
    assert out.sent[0] == Packet(i, cfg.leader, AcceptAck(vs));
  }

  /** The leader's record k, once node i has acknowledged it. */
  lemma LeaderCountsAck(cfg: Config, n: Node, i: nat, k: uint32)
    requires ValidConfig(cfg) && LeaderOk(cfg, n) && i < cfg.groupSize
    requires n.committed.reqId < k <= n.seen.reqId
    requires var vs := ViewStamp(cfg.view, k); Ready(WithAck(n, i, vs, true))
    ensures var vs, key := ViewStamp(cfg.view, k), Key(cfg.view, k);
      var r := HandleAcceptAck(n, i, vs, true).node;
      && key in r.db && Members(r.db[key].bitMap, cfg.groupSize) == Members(n.db[key].bitMap, cfg.groupSize) + {i}
      && r.seen == n.seen && r.db[key].data == n.db[key].data
  {
    hide TryToExecute, Ready;
    var vs, key := ViewStamp(cfg.view, k), Key(cfg.view, k);
    assert Vstol(vs) == key;
    UpdateRecordMembers(n.db[key].bitMap, i, cfg.groupSize);
  }

  /** Nodes that have acknowledged the first record the leader has not committed. */
  function Counted(cfg: Config, n: Node): set<nat>
    requires ValidConfig(cfg) && LeaderOk(cfg, n) && n.committed.reqId < n.seen.reqId
  {
    Members(n.db[Key(cfg.view, n.committed.reqId + 1)].bitMap, cfg.groupSize)
  }

  /** What asking may change: the leader's log stays, its mark only rises, and no follower's
      to-commit mark passes `mark`. */
  predicate Asked(cfg: Config, c: Cluster, c': Cluster, mark: nat)
    requires Inv(cfg, c) && Inv(cfg, c')
  {
    && |c'.nodes| == |c.nodes| && Log(cfg, c') == Log(cfg, c) && Mark(cfg, c) <= Mark(cfg, c')
    && forall i {:trigger c'.nodes[i]} :: 0 <= i < |c'.nodes| && i != cfg.leader ==> c'.nodes[i].toCommit.reqId <= mark
  }

  /** All nodes are in the view, and the leader has just asked for its first uncommitted record. */
  predicate Asking(cfg: Config, c: Cluster) {
    && Inv(cfg, c) && Joined(c) && LeaderOk(cfg, LeaderOf(cfg, c))
    && var n := LeaderOf(cfg, c);
    n.committed.reqId < n.seen.reqId && AskOf(cfg, n) in c.net
  }

  function FirstOpen(cfg: Config, n: Node): ViewStamp
    requires n.committed.reqId + 1 < TWO_32
  {
    ViewStamp(cfg.view, n.committed.reqId + 1)
  }

  /** Follower i receives the request and acknowledges it. */
  lemma AskArrives(cfg: Config, c: Cluster, i: nat) returns (c': Cluster)
    requires Asking(cfg, c) && i < cfg.groupSize && i != cfg.leader
    ensures Inv(cfg, c') && Reaches(cfg, c, c') && c.net <= c'.net
    ensures |c'.nodes| == |c.nodes| == cfg.groupSize && c'.nodes == c.nodes[i := c'.nodes[i]]
    ensures c'.nodes[i].curView == c.nodes[i].curView
    ensures Packet(i, cfg.leader, AcceptAck(FirstOpen(cfg, LeaderOf(cfg, c)))) in c'.net
  {
    hide Inv, LeaderOk, HandleAcceptReq, CanHandle, Reaches, PacketOk, FollowerEffect;
    LeaderKnown(cfg, c);
    FollowerKnown(cfg, c, i);
    var n, leader := c.nodes[i], LeaderOf(cfg, c);
    var p := AskOf(cfg, leader);
    LeaderId(cfg, leader);
    PacketKnown(cfg, c, p);
    FollowerHandles(cfg, n, i, p, true, 0, Log(cfg, c), Mark(cfg, c));
    FollowerAnswersAsk(cfg, n, i, p.msg.vs, p.msg.canBeExed, p.msg.data);
    var step := Receive(i, p, true, 0);
    StepReaches(cfg, c, step);
    EffectKeepsView(cfg, n, OutcomeOf(cfg, c, step), i, Log(cfg, c), Mark(cfg, c));
    c' := Apply(cfg, c, step);
  }

  lemma LeaderId(cfg: Config, n: Node)
    requires ValidConfig(cfg) && LeaderOk(cfg, n)
    ensures n.nodeId == cfg.leader && n.role.Leader? && n.curView == View(cfg.view, cfg.leader) && n.seen.viewId == cfg.view
    ensures n.toCommit == n.committed && n.committed.viewId == cfg.view
  {
  }

  lemma EffectKeepsView(cfg: Config, n: Node, out: Outcome, i: nat, log: seq<Data>, mark: nat)
    requires FollowerEffect(cfg, n, out, i, log, mark) && n.curView.viewId != 0
    ensures out.node.curView == n.curView && n.db.Keys <= out.node.db.Keys
  {
  }

  /** The leader receives the acknowledgement: the mark rises, or one more node is counted. */
  lemma AckArrives(cfg: Config, c: Cluster, i: nat) returns (c': Cluster)
    requires Asking(cfg, c) && i < cfg.groupSize && i != cfg.leader
    requires Packet(i, cfg.leader, AcceptAck(FirstOpen(cfg, LeaderOf(cfg, c)))) in c.net
    ensures Inv(cfg, c') && Reaches(cfg, c, c') && Joined(c')
    ensures |c'.nodes| == |c.nodes| == cfg.groupSize && c'.nodes == c.nodes[cfg.leader := c'.nodes[cfg.leader]]
    ensures Log(cfg, c') == Log(cfg, c) && Mark(cfg, c) <= Mark(cfg, c')
    ensures Mark(cfg, c') == Mark(cfg, c) ==>
      Asking(cfg, c') && Counted(cfg, LeaderOf(cfg, c')) == Counted(cfg, LeaderOf(cfg, c)) + {i}
  {
    hide Inv, LeaderOk, HandleAcceptAck, CanHandle, Reaches, PacketOk, LeaderEffect, Members, Ready;
    LeaderKnown(cfg, c);
    var n := LeaderOf(cfg, c);
    var vs := FirstOpen(cfg, n);
    var p := Packet(i, cfg.leader, AcceptAck(vs));
    PacketKnown(cfg, c, p);
    LeaderHandles(cfg, n, p, true, 0);
    AckIsReady(n, p);
    LeaderCountsAck(cfg, n, i, vs.reqId);
    var step := Receive(cfg.leader, p, true, 0);
    StepReaches(cfg, c, step);
    c' := Apply(cfg, c, step);
    LeaderKnown(cfg, c');
    LeaderId(cfg, n);
    LeaderId(cfg, LeaderOf(cfg, c'));
    EffectKeepsLog(cfg, n, OutcomeOf(cfg, c, step), p);
  }

  lemma AckIsReady(n: Node, p: Packet)
    requires CanHandle(n, p, true, 0) && p.msg.AcceptAck?
    ensures Ready(WithAck(n, p.from, p.msg.vs, true))
  {
  }

  lemma EffectKeepsLog(cfg: Config, n: Node, out: Outcome, p: Packet)
    requires LeaderEffect(cfg, n, out, p) && out.node.seen == n.seen && LeaderOk(cfg, n) && LeaderOk(cfg, out.node)
    ensures LogOf(out.node.db, cfg.view, n.seen.reqId) == LogOf(n.db, cfg.view, n.seen.reqId)
    ensures n.committed.reqId <= out.node.committed.reqId
  {
  }

  /** Follower i is asked, and the leader hears of it. */
  lemma AskOne(cfg: Config, c: Cluster, i: nat) returns (c': Cluster)
    requires Asking(cfg, c) && i < cfg.groupSize && i != cfg.leader
    ensures Inv(cfg, c') && Reaches(cfg, c, c') && Joined(c') && Asked(cfg, c, c', Mark(cfg, c))
    ensures Mark(cfg, c') == Mark(cfg, c) ==>
      Asking(cfg, c') && Counted(cfg, LeaderOf(cfg, c')) == Counted(cfg, LeaderOf(cfg, c)) + {i}
  {
    hide Inv, LeaderOk, Reaches, AskOf, Counted, Addressed;
    LeaderKnown(cfg, c);
    var c1 := AskArrives(cfg, c, i);
    LeaderKnown(cfg, c1);
    c' := AckArrives(cfg, c1, i);
    Onward(cfg, c, c1, c');
    forall j {:trigger c'.nodes[j]} | 0 <= j < |c'.nodes| && j != cfg.leader
      ensures c'.nodes[j].toCommit.reqId <= Mark(cfg, c)
    {
      ToCommitBelowMark(cfg, c1, j);
    }
  }

  lemma ToCommitBelowMark(cfg: Config, c: Cluster, i: nat)
    requires Inv(cfg, c) && i < cfg.groupSize && i != cfg.leader
    ensures |c.nodes| == cfg.groupSize && c.nodes[i].toCommit.reqId <= Mark(cfg, c)
  {
  }

  /** Nodes 0..j are asked one after the other, until the mark rises. */
  lemma {:induction false} AskUpTo(cfg: Config, c: Cluster, j: nat) returns (c': Cluster)
    requires Asking(cfg, c) && j <= cfg.groupSize
    ensures Inv(cfg, c') && Reaches(cfg, c, c') && Joined(c') && Asked(cfg, c, c', Mark(cfg, c))
    ensures Mark(cfg, c') == Mark(cfg, c) ==>
      Asking(cfg, c') && forall i: nat :: i < j ==> i in Counted(cfg, LeaderOf(cfg, c'))
  {
    hide Inv, LeaderOk, Reaches, AskOf, Counted;
    LeaderKnown(cfg, c);
    if j == 0 {
      c' := c;
      Stays(cfg, c);
      forall i {:trigger c.nodes[i]} | 0 <= i < |c.nodes| && i != cfg.leader
        ensures c.nodes[i].toCommit.reqId <= Mark(cfg, c)
      {
        ToCommitBelowMark(cfg, c, i);
      }
    } else {
      c' := AskUpTo(cfg, c, j - 1);
      if Mark(cfg, c') == Mark(cfg, c) {
        if j - 1 == cfg.leader {
          LeaderIsCounted(cfg, c');
        } else {
          var c1 := c';
          c' := AskOne(cfg, c1, j - 1);
          Onward(cfg, c, c1, c');
        }
      }
    }
  }

  lemma LeaderIsCounted(cfg: Config, c: Cluster)
    requires Asking(cfg, c)
    ensures ValidConfig(cfg) && cfg.leader in Counted(cfg, LeaderOf(cfg, c))
  {
    var k: uint32 := LeaderOf(cfg, c).committed.reqId + 1;
    assert Bit(LeaderOf(cfg, c).db[Key(cfg.view, k)].bitMap, cfg.leader);
  }

  /** A leader does not sit on a record that every node holds. */
  lemma SomebodyIsNotCounted(cfg: Config, n: Node)
    requires ValidConfig(cfg) && LeaderOk(cfg, n) && n.committed.reqId < n.seen.reqId
    ensures exists i: nat :: i < cfg.groupSize && i !in Counted(cfg, n)
  {
    var k: uint32 := n.committed.reqId + 1;
    var bits := n.db[Key(cfg.view, k)].bitMap;
    PopCountIsCardinality(bits, cfg.groupSize);
    if forall i: nat :: i < cfg.groupSize ==> i in Counted(cfg, n) {
      forall i: nat | i < cfg.groupSize ensures Bit(bits, i) {
        assert i in Counted(cfg, n) && i in Members(bits, cfg.groupSize);
      }
      MembersOfAll(bits, cfg.groupSize);
    }
  }

  lemma {:induction false} MembersOfAll(bits: nat, n: nat)
    requires forall i: nat :: i < n ==> Bit(bits, i)
    ensures |Members(bits, n)| == n
  {
    if n == 0 {
      assert Members(bits, 0) == {};
    } else {
      MembersOfAll(bits, n - 1);
      assert Members(bits, n) == Members(bits, n - 1) + {n - 1};
    }
  }

  /** The leader's next record gets its quorum. */
  lemma CommitNext(cfg: Config, c: Cluster) returns (c': Cluster)
    requires Inv(cfg, c) && Joined(c) && Mark(cfg, c) < |Log(cfg, c)|
    ensures Inv(cfg, c') && Reaches(cfg, c, c') && Joined(c') && Asked(cfg, c, c', Mark(cfg, c))
    ensures Mark(cfg, c) < Mark(cfg, c')
  {
    hide Inv, LeaderOk, Reaches, AskOf, Counted;
    LeaderKnown(cfg, c);
    var c1 := LeaderSpeaks(cfg, c);
    LeaderKnown(cfg, c1);
    assert Asking(cfg, c1);
    c' := AskUpTo(cfg, c1, cfg.groupSize);
    Onward(cfg, c, c1, c');
    if Mark(cfg, c') == Mark(cfg, c) {
      SomebodyIsNotCounted(cfg, LeaderOf(cfg, c'));
    }
  }

  /** Every record of the log gets its quorum; no follower hears of the last one's. */
  lemma {:induction false} CommitAll(cfg: Config, c: Cluster) returns (c': Cluster)
    requires Inv(cfg, c) && Joined(c) && Mark(cfg, c) < |Log(cfg, c)|
    ensures Inv(cfg, c') && Reaches(cfg, c, c') && Joined(c') && Asked(cfg, c, c', |Log(cfg, c)| - 1)
    ensures Mark(cfg, c') == |Log(cfg, c)|
    decreases |Log(cfg, c)| - Mark(cfg, c)
  {
    hide Inv, Reaches;
    c' := CommitNext(cfg, c);
    LeaderKnown(cfg, c');
    if Mark(cfg, c') < |Log(cfg, c')| {
      var c1 := c';
      c' := CommitAll(cfg, c1);
      Onward(cfg, c, c1, c');
    }
  }

  // ---------- a follower catches up ----------

  /** Everything the leader accepted is committed, and every node is in the view. */
  predicate Committed(cfg: Config, c: Cluster) {
    Inv(cfg, c) && Joined(c) && Mark(cfg, c) == |Log(cfg, c)|
  }

  /** Only node i has changed, and is in the view as before. */
  predicate OnlyChanges(cfg: Config, c: Cluster, c': Cluster, i: nat)
    requires i < |c.nodes|
  {
    |c'.nodes| == |c.nodes| && c'.nodes == c.nodes[i := c'.nodes[i]] && c'.nodes[i].curView == c.nodes[i].curView
  }

  lemma OtherSteps(cfg: Config, c: Cluster, c': Cluster, i: nat)
    requires Committed(cfg, c) && Inv(cfg, c') && i < |c.nodes| == cfg.groupSize && i != cfg.leader
    requires OnlyChanges(cfg, c, c', i)
    ensures Committed(cfg, c') && Log(cfg, c') == Log(cfg, c) && LeaderOf(cfg, c') == LeaderOf(cfg, c)
  {
    assert c'.nodes[cfg.leader] == c.nodes[cfg.leader];
  }

  /** Follower i has the mark, records up to k, and has asked for every later record it lacks. */
  predicate Filling(cfg: Config, c: Cluster, i: nat, k: nat) {
    && Committed(cfg, c) && i < |c.nodes| == cfg.groupSize && i != cfg.leader
    && var n, end := c.nodes[i], Mark(cfg, c);
    && n.toCommit.reqId == end && k <= end
    && (forall j: uint32 {:trigger Key(cfg.view, j)} :: 0 < j <= k ==> Key(cfg.view, j) in n.db)
    && (forall j: uint32 {:trigger Key(cfg.view, j)} :: k < j <= end && Key(cfg.view, j) !in n.db ==>
          AskFor(i, ViewStamp(cfg.view, j)) in c.net)
  }

  /** The mark arrives, and the follower asks. */
  lemma ForceArrives(cfg: Config, c: Cluster, i: nat) returns (c': Cluster)
    requires Committed(cfg, c) && i < |c.nodes| == cfg.groupSize && i != cfg.leader
    requires c.nodes[i].toCommit != LeaderOf(cfg, c).committed && ForceOf(LeaderOf(cfg, c)) in c.net
    ensures Reaches(cfg, c, c') && Filling(cfg, c', i, 0) && OnlyChanges(cfg, c, c', i)
  {
    hide Inv, LeaderOk, Reaches, TryToExecute, FollowerEffect, CanHandle, FollowerBase;
    LeaderKnown(cfg, c);
    FollowerKnown(cfg, c, i);
    var n, leader := c.nodes[i], LeaderOf(cfg, c);
    LeaderId(cfg, leader);
    var p := ForceOf(leader);
    var log, mark := Log(cfg, c), Mark(cfg, c);
    FollowerHandles(cfg, n, i, p, true, 0, log, mark);
    ForceIsReady(n, p);
    ForceAsks(cfg, n, i, leader.committed, log, mark);
    var step := Receive(i, p, true, 0);
    StepReaches(cfg, c, step);
    c' := Apply(cfg, c, step);
    EffectKeepsView(cfg, n, OutcomeOf(cfg, c, step), i, log, mark);
    OtherSteps(cfg, c, c', i);
    LeaderKnown(cfg, c');
  }

  lemma ForceIsReady(n: Node, p: Packet)
    requires CanHandle(n, p, true, 0) && p.msg.ForceExec?
    ensures IgnoresForceExec(n, p.from, p.msg.vs) || Ready(n.(toCommit := p.msg.vs))
  {
  }

  lemma ForceAsks(cfg: Config, n: Node, i: nat, vs: ViewStamp, log: seq<Data>, mark: nat)
    requires ValidConfig(cfg) && i < cfg.groupSize && i != cfg.leader && mark <= |log|
    requires FollowerOk(cfg, n, i, log, mark) && n.curView.viewId != 0
    requires vs.viewId == cfg.view && vs.reqId == mark && n.toCommit != vs
    requires IgnoresForceExec(n, cfg.leader, vs) || Ready(n.(toCommit := vs))
    ensures var out := HandleForceExec(n, cfg.leader, vs);
      && out.node.toCommit == vs && out.node.db == n.db
      && forall j: uint32 {:trigger Key(cfg.view, j)} :: 0 < j <= mark && Key(cfg.view, j) !in out.node.db ==>
           AskFor(i, ViewStamp(cfg.view, j)) in out.sent
  {
    hide TryToExecute;
    FollowerExecutes(n.(toCommit := vs));
  }

  /** The leader answers one request of follower i, and the answer arrives. */
  lemma FillOne(cfg: Config, c: Cluster, i: nat, k: uint32) returns (c': Cluster)
    requires 0 < k && Filling(cfg, c, i, k - 1) && k <= Mark(cfg, c) && Key(cfg.view, k) !in c.nodes[i].db
    ensures Reaches(cfg, c, c') && Filling(cfg, c', i, k) && OnlyChanges(cfg, c, c', i)
  {
    hide Reaches;
    var c1 := AskedFor(cfg, c, i, k);
    c' := AnswerArrives(cfg, c1, i, k);
    Onward(cfg, c, c1, c');
  }

  function AnswerTo(cfg: Config, c: Cluster, i: nat, k: uint32): Packet
    requires Inv(cfg, c) && 0 < k <= |Log(cfg, c)|
  {
    Packet(cfg.leader, i, MissingAck(ViewStamp(cfg.view, k), Log(cfg, c)[k - 1]))
  }

  lemma AskedFor(cfg: Config, c: Cluster, i: nat, k: uint32) returns (c': Cluster)
    requires 0 < k && Filling(cfg, c, i, k - 1) && k <= Mark(cfg, c) && Key(cfg.view, k) !in c.nodes[i].db
    ensures Reaches(cfg, c, c') && c'.nodes == c.nodes && Filling(cfg, c', i, k - 1)
    ensures Log(cfg, c') == Log(cfg, c) && AnswerTo(cfg, c, i, k) in c'.net
  {
    hide Inv, LeaderOk, Reaches;
    LeaderKnown(cfg, c);
    var p, n := AskFor(i, ViewStamp(cfg.view, k)), LeaderOf(cfg, c);
    LeaderAnswersFromLog(cfg, n, i, k);
    var step := Receive(cfg.leader, p, true, 0);
    StepReaches(cfg, c, step);
    c' := Apply(cfg, c, step);
    assert c'.nodes == c.nodes;
    LeaderKnown(cfg, c');
  }

  lemma LeaderAnswersFromLog(cfg: Config, n: Node, i: nat, k: uint32)
    requires ValidConfig(cfg) && LeaderOk(cfg, n) && 0 < k <= n.seen.reqId
    ensures HandleMissingReq(n, i, ViewStamp(cfg.view, k)) ==
      Outcome(n, [Packet(cfg.leader, i, MissingAck(ViewStamp(cfg.view, k), LogOf(n.db, cfg.view, n.seen.reqId)[k - 1]))])
  {
    assert Vstol(ViewStamp(cfg.view, k)) == Key(cfg.view, k);
  }

  lemma AnswerArrives(cfg: Config, c: Cluster, i: nat, k: uint32) returns (c': Cluster)
    requires 0 < k && Filling(cfg, c, i, k - 1) && k <= Mark(cfg, c) && AnswerTo(cfg, c, i, k) in c.net
    ensures Reaches(cfg, c, c') && Filling(cfg, c', i, k) && OnlyChanges(cfg, c, c', i)
  {
    hide Inv, LeaderOk, Reaches, HandleMissingAck, FollowerEffect, CanHandle, FollowerBase, FollowerOk, Settled;
    LeaderKnown(cfg, c);
    FollowerKnown(cfg, c, i);
    var n, p := c.nodes[i], AnswerTo(cfg, c, i, k);
    var log, mark := Log(cfg, c), Mark(cfg, c);
    FollowerHandles(cfg, n, i, p, true, 0, log, mark);
    var a := Answer(p.msg.vs, p.msg.data, 0);
    FollowerIsSecondary(cfg, n, i, log, mark);
    AnswerIsHeld(cfg, n, i, a, log, mark);
    assert Vstol(a.vs) == Key(cfg.view, k);
    var step := Receive(i, p, true, 0);
    StepReaches(cfg, c, step);
    c' := Apply(cfg, c, step);
    EffectKeepsView(cfg, n, OutcomeOf(cfg, c, step), i, log, mark);
    OtherSteps(cfg, c, c', i);
    LeaderKnown(cfg, c');
  }

  lemma FollowerIsSecondary(cfg: Config, n: Node, i: nat, log: seq<Data>, mark: nat)
    requires FollowerOk(cfg, n, i, log, mark)
    ensures n.role.Secondary? && n.nodeId == i && n.committed.viewId == n.toCommit.viewId == cfg.view
    ensures n.committed.reqId <= n.toCommit.reqId <= mark
  {
  }

  lemma {:induction false} FillFrom(cfg: Config, c: Cluster, i: nat, k: nat) returns (c': Cluster)
    requires Filling(cfg, c, i, k)
    ensures Inv(cfg, c') && Filling(cfg, c', i, Mark(cfg, c')) && Reaches(cfg, c, c') && OnlyChanges(cfg, c, c', i)
    decreases Mark(cfg, c) - k
  {
    hide Inv, Reaches;
    c' := c;
    Stays(cfg, c);
    if k < Mark(cfg, c) {
      LeaderKnown(cfg, c);
      var k1: uint32 := k + 1;
      if Key(cfg.view, k1) !in c.nodes[i].db {
        c' := FillOne(cfg, c, i, k1);
        OtherSteps(cfg, c, c', i);
      }
      var c1 := c';
      c' := FillFrom(cfg, c1, i, k + 1);
      Onward(cfg, c, c1, c');
    }
  }

  /** A follower has delivered the whole log. */
  predicate Delivered(cfg: Config, c: Cluster, i: nat, log: seq<Data>) {
    i < |c.nodes| && c.nodes[i].curView.viewId != 0 && DeliveredLog(cfg.view, c.nodes[i].delivered, log, |log|)
  }

  /** A follower to which the mark is news, or that lacks nothing, is brought up to the leader. */
  lemma CatchesUp(cfg: Config, c: Cluster, i: nat) returns (c': Cluster)
    requires Committed(cfg, c) && i < |c.nodes| == cfg.groupSize && i != cfg.leader
    requires NewsOrNoGap(c.nodes[i], LeaderOf(cfg, c))
    ensures Reaches(cfg, c, c') && Committed(cfg, c') && OnlyChanges(cfg, c, c', i)
    ensures Log(cfg, c') == Log(cfg, c) && Delivered(cfg, c', i, Log(cfg, c))
  {
    hide Inv, Reaches, LeaderOk, FollowerOk, DeliveredLog;
    LeaderKnown(cfg, c);
    LeaderId(cfg, LeaderOf(cfg, c));
    if c.nodes[i].toCommit != LeaderOf(cfg, c).committed {
      var c1 := LeaderSpeaks(cfg, c);
      LeaderKnown(cfg, c1);
      var c2 := ForceArrives(cfg, c1, i);
      c' := FillFrom(cfg, c2, i, 0);
      Onward(cfg, c, c1, c2);
      Onward(cfg, c, c2, c');
      OtherSteps(cfg, c, c', i);
    } else {
      c' := c;
      Stays(cfg, c);
    }
    FollowerKnown(cfg, c', i);
    FollowerIsSecondary(cfg, c'.nodes[i], i, Log(cfg, c'), Mark(cfg, c'));
    NothingMissing(cfg, c'.nodes[i], i, Log(cfg, c'), Mark(cfg, c'));
  }

  // ---------- everybody joins, everybody catches up ----------

  /** Nodes 0..j join the view if they have not; a node that joins has all its marks at request 0. */
  lemma {:induction false} JoinUpTo(cfg: Config, c: Cluster, j: nat) returns (c': Cluster)
    requires Inv(cfg, c) && j <= |c.nodes| == cfg.groupSize
    ensures Inv(cfg, c') && Reaches(cfg, c, c') && |c'.nodes| == |c.nodes|
    ensures LeaderOf(cfg, c') == LeaderOf(cfg, c) && Log(cfg, c') == Log(cfg, c)
    ensures forall i {:trigger c'.nodes[i]} :: 0 <= i < j ==> c'.nodes[i].curView.viewId != 0
    ensures forall i {:trigger c'.nodes[i]} :: 0 <= i < |c'.nodes| ==>
      || c'.nodes[i] == c.nodes[i]
      || (c.nodes[i].curView.viewId == 0 && c'.nodes[i].committed == c'.nodes[i].toCommit)
  {
    hide Inv, Reaches, LeaderOk;
    if j == 0 {
      c' := c;
      Stays(cfg, c);
    } else {
      c' := JoinUpTo(cfg, c, j - 1);
      LeaderKnown(cfg, c);
      LeaderInView(cfg, LeaderOf(cfg, c));
      if c'.nodes[j - 1].curView.viewId == 0 {
        var c1 := c';
        var step := Join(j - 1);
        StepReaches(cfg, c1, step);
        c' := Apply(cfg, c1, step);
        LeaderInView(cfg, LeaderOf(cfg, c));
        Onward(cfg, c, c1, c');
        assert c'.nodes[cfg.leader] == c.nodes[cfg.leader];
      }
    }
  }

  lemma LeaderInView(cfg: Config, n: Node)
    requires ValidConfig(cfg) && LeaderOk(cfg, n)
    ensures n.curView.viewId == cfg.view != 0
  {
  }

  /** Followers 0..j catch up, one after the other. */
  lemma {:induction false} CatchUpTo(cfg: Config, c: Cluster, j: nat) returns (c': Cluster)
    requires Committed(cfg, c) && j <= |c.nodes| == cfg.groupSize
    requires forall i {:trigger c.nodes[i]} :: 0 <= i < |c.nodes| && i != cfg.leader ==> NewsOrNoGap(c.nodes[i], LeaderOf(cfg, c))
    ensures Reaches(cfg, c, c') && Committed(cfg, c') && |c'.nodes| == |c.nodes|
    ensures LeaderOf(cfg, c') == LeaderOf(cfg, c) && Log(cfg, c') == Log(cfg, c)
    ensures forall i: nat :: i < j && i != cfg.leader ==> Delivered(cfg, c', i, Log(cfg, c))
    ensures forall i {:trigger c'.nodes[i]} :: j <= i < |c'.nodes| ==> c'.nodes[i] == c.nodes[i]
  {
    hide Inv, Reaches, DeliveredLog, NewsOrNoGap;
    if j == 0 {
      c' := c;
      Stays(cfg, c);
    } else {
      var c1 := CatchUpTo(cfg, c, j - 1);
      c' := c1;
      if j - 1 != cfg.leader {
        c' := CatchesUp(cfg, c1, j - 1);
        OtherSteps(cfg, c1, c', j - 1);
        Onward(cfg, c, c1, c');
      }
      forall i: nat | i < j && i != cfg.leader ensures Delivered(cfg, c', i, Log(cfg, c)) {
        assert i == j - 1 || (c'.nodes[i] == c1.nodes[i] && Delivered(cfg, c1, i, Log(cfg, c)));
      }
    }
  }

  /** Every node has delivered the whole log. */
  predicate Converged(cfg: Config, c: Cluster, log: seq<Data>) {
    |c.nodes| == cfg.groupSize && forall i: nat :: i < |c.nodes| ==> Delivered(cfg, c, i, log)
  }

  /** Something is still to be committed, or no follower in the view has the leader's mark and a gap below it. */
  predicate MarkIsNews(cfg: Config, c: Cluster)
    requires Inv(cfg, c)
  {
    || Mark(cfg, c) < |Log(cfg, c)|
    || forall i {:trigger c.nodes[i]} :: 0 <= i < |c.nodes| && i != cfg.leader && c.nodes[i].curView.viewId != 0 ==>
         NewsOrNoGap(c.nodes[i], LeaderOf(cfg, c))
  }

  /** Then the cluster can recover. */
  lemma Recovers(cfg: Config, c: Cluster) returns (c': Cluster)
    requires Inv(cfg, c) && MarkIsNews(cfg, c)
    ensures Reaches(cfg, c, c') && Converged(cfg, c', Log(cfg, c))
  {
    hide Inv, Reaches, LeaderOk, DeliveredLog;
    LeaderKnown(cfg, c);
    var c1 := JoinUpTo(cfg, c, cfg.groupSize);
    var c2 := c1;
    Stays(cfg, c1);
    if Mark(cfg, c1) < |Log(cfg, c1)| {
      c2 := CommitAll(cfg, c1);
    }
    LeaderKnown(cfg, c2);
    c' := CatchUpTo(cfg, c2, cfg.groupSize);
    Onward(cfg, c, c1, c2);
    Onward(cfg, c, c2, c');
    LeaderHasDelivered(cfg, c');
    assert Log(cfg, c2) == Log(cfg, c);
    forall i: nat | i < |c'.nodes| ensures Delivered(cfg, c', i, Log(cfg, c)) {
      assert i == cfg.leader || Delivered(cfg, c', i, Log(cfg, c2));
    }
  }

  lemma LeaderHasDelivered(cfg: Config, c: Cluster)
    requires Committed(cfg, c)
    ensures |c.nodes| == cfg.groupSize && Delivered(cfg, c, cfg.leader, Log(cfg, c))
  {
  }
}
