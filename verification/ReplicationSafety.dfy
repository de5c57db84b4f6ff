/**
 What every execution of a replica group guarantees: one log that only grows,
 delivered in order and without gaps everywhere, held by a majority before
 anybody hands it to its user.
 */
module ReplicationSafety {
  import opened Basics
  import opened ViewStamps
  import opened Bitmap
  import opened ConsensusNode
  import opened ConsensusExec
  import opened ReplicationCluster
  import opened ReplicationInvariant

  /** A finite execution: `states[t + 1]` is `states[t]` after `steps[t]`. */
  predicate Execution(cfg: Config, states: seq<Cluster>, steps: seq<Step>) {
    && ValidConfig(cfg)
    && |states| == |steps| + 1
    && Init(cfg, states[0])
    && forall t {:trigger steps[t]} :: 0 <= t < |steps| ==>
         Enabled(states[t], steps[t]) && states[t + 1] == Apply(cfg, states[t], steps[t])
  }

  lemma {:induction false} ExecutionKeepsInv(cfg: Config, states: seq<Cluster>, steps: seq<Step>, t: nat)
    requires Execution(cfg, states, steps) && t < |states|
    ensures Inv(cfg, states[t])
  {
    if t == 0 {
      InitEstablishesInv(cfg, states[0]);
    } else {
      ExecutionKeepsInv(cfg, states, steps, t - 1);
      assert states[t] == Apply(cfg, states[t - 1], steps[t - 1]);
      StepKeepsInv(cfg, states[t - 1], steps[t - 1]);
    }
  }

  // ---------- the node model covers every step ----------

  /** No packet in flight, no request and no timer makes an assertion of the source fail; in
      particular the leader finds every record it looks for. */
  lemma NothingIsOutsideTheModel(
    cfg: Config, states: seq<Cluster>, steps: seq<Step>, t: nat, i: nat, p: Packet, data: Data, stored: bool, garbage: nat)
    requires Execution(cfg, states, steps) && t < |states| && i < cfg.groupSize
    ensures |states[t].nodes| == cfg.groupSize
    ensures var n := states[t].nodes[i];
      && CanResend(n)
      && (StampLeft(n) ==> CanSubmit(n, data, stored))
      && (p in states[t].net && Addressed(p, i) && (p.msg.ForwardReq? ==> StampLeft(n)) ==> CanHandle(n, p, stored, garbage))
  {
    ExecutionKeepsInv(cfg, states, steps, t);
    var c := states[t];
    var n := c.nodes[i];
    if i == cfg.leader {
      LeaderProgresses(cfg, n, Packet(0, 0, ForwardReq([])));
      if StampLeft(n) {
        LeaderSubmits(cfg, n, data, stored, Packet(0, 0, ForwardReq([])));
      }
      if p in c.net && Addressed(p, i) && (p.msg.ForwardReq? ==> StampLeft(n)) {
        LeaderHandles(cfg, n, p, stored, garbage);
      }
    } else if p in c.net {
      FollowerHandles(cfg, n, i, p, stored, garbage, Log(cfg, c), Mark(cfg, c));
    }
  }

  // ---------- refinement of one append-only log ----------

  /** What a step appends to the log: the request the leader stored in it, if any. */
  function Appended(cfg: Config, step: Step): seq<Data> {
    if step.i != cfg.leader then []
    else match step
         case Submit(_, data, true) => [data]
         case Receive(_, Packet(_, _, ForwardReq(data)), true, _) => [data]
         case _ => []
  }

  /** The abstract machine: a log, and for each user how much of it was handed over. */
  datatype LogMachine = LogMachine(log: seq<Data>, handed: seq<nat>)

  predicate LogMachineNext(a: LogMachine, b: LogMachine, i: nat, appended: seq<Data>) {
    && i < |a.handed| == |b.handed|
    && |appended| <= 1
    && b.log == a.log + appended
    && a.handed[i] <= b.handed[i] <= |b.log|
    && forall j :: 0 <= j < |a.handed| && j != i ==> b.handed[j] == a.handed[j]
  }

  function Abstraction(cfg: Config, c: Cluster): LogMachine
    requires Inv(cfg, c)
  {
    LogMachine(Log(cfg, c), seq(|c.nodes|, j requires 0 <= j < |c.nodes| => |c.nodes[j].delivered|))
  }

  /** Only a forwarded request makes the leader accept anything. */
  lemma LeaderAcceptsNothing(n: Node, p: Packet, stored: bool, garbage: nat)
    requires CanHandle(n, p, stored, garbage) && n.role.Leader? && !p.msg.ForwardReq?
    requires !p.msg.AcceptReq?
    ensures HandleMsg(n, p, stored, garbage).node.seen == n.seen
  {
    hide ExecLoop, LeaderLoop, Loaded, Ltovs;
  }

  lemma LeaderReceiveAppends(cfg: Config, c: Cluster, step: Step)
    requires Inv(cfg, c) && Enabled(c, step) && step.i == cfg.leader && step.Receive?
    ensures LeaderAppends(cfg, c, step)
  {
    hide PacketOk, AcksHeld, BitsHeld, Settled, CanHandle, HandleMsg;
    var n, p := c.nodes[cfg.leader], step.p;
    LeaderStepEffect(cfg, c, step, p);
    if p.msg.ForwardReq? {
      ForwardAppends(cfg, c, step);
    } else {
      NotToItself(cfg, c, p);
      LeaderAcceptsNothing(n, p, step.stored, step.garbage);
      assert OutcomeOf(cfg, c, step).node.seen == n.seen;
    }
  }

  lemma ForwardAppends(cfg: Config, c: Cluster, step: Step)
    requires Inv(cfg, c) && Enabled(c, step) && step.i == cfg.leader && step.Receive? && step.p.msg.ForwardReq?
    ensures LeaderAppends(cfg, c, step)
  {
    hide PacketOk, AcksHeld, BitsHeld, Settled, LeaderHandleSubmitReq;
    LeaderSubmits(cfg, c.nodes[cfg.leader], step.p.msg.data, step.stored, step.p);
  }

  lemma NotToItself(cfg: Config, c: Cluster, p: Packet)
    requires Inv(cfg, c) && p in c.net && Addressed(p, cfg.leader)
    ensures !p.msg.AcceptReq?
  {
  }

  predicate LeaderAppends(cfg: Config, c: Cluster, step: Step)
    requires Inv(cfg, c) && Enabled(c, step)
  {
    var out := OutcomeOf(cfg, c, step);
    && LeaderOk(cfg, out.node)
    && LogOf(out.node.db, cfg.view, out.node.seen.reqId) == Log(cfg, c) + Appended(cfg, step)
    && c.nodes[cfg.leader].committed.reqId <= out.node.committed.reqId
  }

  lemma LeaderStepAppends(cfg: Config, c: Cluster, step: Step)
    requires Inv(cfg, c) && Enabled(c, step) && step.i == cfg.leader
    ensures LeaderAppends(cfg, c, step)
  {
    var n, nobody := c.nodes[cfg.leader], Packet(0, 0, ForwardReq([]));
    match step {
      case Submit(_, data, stored) => LeaderSubmits(cfg, n, data, stored, nobody);
      case Receive(_, _, _, _) => LeaderReceiveAppends(cfg, c, step);
      case Progress(_) => LeaderProgresses(cfg, n, nobody);
      case Join(_) => assert false;
    }
  }

  lemma FollowerStepRefinesLog(cfg: Config, c: Cluster, i: nat, out: Outcome)
    requires Inv(cfg, c) && i < cfg.groupSize && i != cfg.leader
    requires FollowerEffect(cfg, c.nodes[i], out, i, Log(cfg, c), Mark(cfg, c))
    ensures var c' := Cluster(c.nodes[i := out.node], c.net + set p | p in out.sent);
      Inv(cfg, c') && LogMachineNext(Abstraction(cfg, c), Abstraction(cfg, c'), i, [])
  {
    FollowerStepKeepsInv(cfg, c, i, out);
  }

  lemma LeaderStepRefinesLog(cfg: Config, c: Cluster, out: Outcome, c': Cluster, appended: seq<Data>)
    requires Inv(cfg, c) && Inv(cfg, c') && |appended| <= 1
    requires c'.nodes == c.nodes[cfg.leader := out.node]
    requires LeaderOk(cfg, out.node)
    requires LogOf(out.node.db, cfg.view, out.node.seen.reqId) == Log(cfg, c) + appended
    requires c.nodes[cfg.leader].committed.reqId <= out.node.committed.reqId
    ensures LogMachineNext(Abstraction(cfg, c), Abstraction(cfg, c'), cfg.leader, appended)
  {
  }

  /** Every step of the cluster is a step of the abstract log machine. */
  lemma StepRefinesLog(cfg: Config, c: Cluster, step: Step)
    requires Inv(cfg, c) && Enabled(c, step)
    ensures Inv(cfg, Apply(cfg, c, step))
    ensures LogMachineNext(Abstraction(cfg, c), Abstraction(cfg, Apply(cfg, c, step)), step.i, Appended(cfg, step))
  {
    if step.i == cfg.leader {
      StepKeepsInv(cfg, c, step);
      LeaderStepAppends(cfg, c, step);
      LeaderStepRefinesLog(cfg, c, OutcomeOf(cfg, c, step), Apply(cfg, c, step), Appended(cfg, step));
    } else {
      FollowerStepEffect(cfg, c, step);
      FollowerStepRefinesLog(cfg, c, step.i, OutcomeOf(cfg, c, step));
    }
  }

  /** What a whole execution appended. */
  function AppendedBy(cfg: Config, steps: seq<Step>): seq<Data> {
    if steps == [] then [] else AppendedBy(cfg, steps[..|steps| - 1]) + Appended(cfg, steps[|steps| - 1])
  }

  /** The log is exactly what the leader accepted, in the order it accepted it. */
  lemma {:induction false} LogIsWhatWasAccepted(cfg: Config, states: seq<Cluster>, steps: seq<Step>, t: nat)
    requires Execution(cfg, states, steps) && t < |states|
    ensures Inv(cfg, states[t])
    ensures Log(cfg, states[t]) == AppendedBy(cfg, steps[..t])
  {
    hide Apply, Enabled;
    ExecutionKeepsInv(cfg, states, steps, t);
    if t > 0 {
      LogIsWhatWasAccepted(cfg, states, steps, t - 1);
      assert states[t] == Apply(cfg, states[t - 1], steps[t - 1]);
      StepRefinesLog(cfg, states[t - 1], steps[t - 1]);
      assert steps[..t][..t - 1] == steps[..t - 1];
    }
  }

  lemma {:induction false} LogGrows(cfg: Config, steps: seq<Step>, t: nat, u: nat)
    requires t <= u <= |steps|
    ensures AppendedBy(cfg, steps[..t]) <= AppendedBy(cfg, steps[..u])
  {
    if t < u {
      LogGrows(cfg, steps, t, u - 1);
      assert steps[..u][..u - 1] == steps[..u - 1];
    }
  }

  // ---------- agreement ----------

  /** At any time, any node has delivered a prefix of the log, keyed 1, 2, 3, ... in the view. */
  lemma DeliveredIsLogPrefix(cfg: Config, states: seq<Cluster>, steps: seq<Step>, t: nat, i: nat)
    requires Execution(cfg, states, steps) && t < |states| && i < cfg.groupSize
    ensures |states[t].nodes| == cfg.groupSize
    ensures var d, log := states[t].nodes[i].delivered, AppendedBy(cfg, steps[..t]);
      DeliveredLog(cfg.view, d, log, |d|)
  {
    hide PacketOk, AcksHeld, BitsHeld, Execution;
    LogIsWhatWasAccepted(cfg, states, steps, t);
  }

  /** Whatever two nodes have delivered, at whatever two times, one is a prefix of the other. */
  lemma DeliveredAgree(
    cfg: Config, states: seq<Cluster>, steps: seq<Step>, t: nat, i: nat, u: nat, j: nat)
    requires Execution(cfg, states, steps) && t < |states| && u < |states|
    requires i < cfg.groupSize && j < cfg.groupSize
    ensures |states[t].nodes| == |states[u].nodes| == cfg.groupSize
    ensures var a, b := states[t].nodes[i].delivered, states[u].nodes[j].delivered;
      a <= b || b <= a
  {
    if t > u {
      DeliveredAgree(cfg, states, steps, u, j, t, i);
    } else {
      DeliveredIsLogPrefix(cfg, states, steps, t, i);
      DeliveredIsLogPrefix(cfg, states, steps, u, j);
      LogGrows(cfg, steps, t, u);
      var a, b, log := states[t].nodes[i].delivered, states[u].nodes[j].delivered, AppendedBy(cfg, steps[..u]);
      assert forall k {:trigger a[k]} {:trigger b[k]} :: 0 <= k < |a| && k < |b| ==>
        a[k] == Delivery(Key(cfg.view, k + 1), log[k]) == b[k];
    }
  }

  /** What a node delivered stays delivered. */
  lemma {:induction false} DeliveredOnlyGrows(
    cfg: Config, states: seq<Cluster>, steps: seq<Step>, t: nat, u: nat, i: nat)
    requires Execution(cfg, states, steps) && t <= u < |states| && i < cfg.groupSize
    ensures |states[t].nodes| == |states[u].nodes| == cfg.groupSize
    ensures states[t].nodes[i].delivered <= states[u].nodes[i].delivered
    decreases u - t
  {
    DeliveredAgree(cfg, states, steps, t, i, u, i);
    if t < u {
      DeliveredOnlyGrows(cfg, states, steps, t, u - 1, i);
      ExecutionKeepsInv(cfg, states, steps, u - 1);
      assert states[u] == Apply(cfg, states[u - 1], steps[u - 1]);
      StepRefinesLog(cfg, states[u - 1], steps[u - 1]);
      var a, b := Abstraction(cfg, states[u - 1]), Abstraction(cfg, states[u]);
      assert a.handed[i] <= b.handed[i];
      assert a.handed[i] == |states[u - 1].nodes[i].delivered| && b.handed[i] == |states[u].nodes[i].delivered|;
    }
  }

  // ---------- durability ----------

  /** The nodes that hold `data` as request k of the view. */
  function Holders(cfg: Config, c: Cluster, k: nat, data: Data): set<nat> {
    set j: nat | j < |c.nodes| && Key(cfg.view, k) in c.nodes[j].db && c.nodes[j].db[Key(cfg.view, k)].data == data
  }

  lemma QuorumHolds(cfg: Config, c: Cluster, k: uint32)
    requires Inv(cfg, c) && 0 < k <= Mark(cfg, c)
    ensures |Holders(cfg, c, k, Log(cfg, c)[k - 1])| >= cfg.groupSize / 2 + 1
  {
    var leader := c.nodes[cfg.leader];
    var key := Key(cfg.view, k);
    assert HasQuorum(leader.db, cfg.groupSize, key);
    var bits := leader.db[key].bitMap;
    PopCountIsCardinality(bits, cfg.groupSize);
    var data := Log(cfg, c)[k - 1];
    forall j | j in Members(bits, cfg.groupSize) ensures j in Holders(cfg, c, k, data) {
      assert Bit(leader.db[Key(cfg.view, k)].bitMap, j);
      assert key in c.nodes[j].db;
    }
    SubsetIsSmaller(Members(bits, cfg.groupSize), Holders(cfg, c, k, data));
  }

  /** Once any node has handed request k to its user, a majority holds request k with
      the very same data, at that time, whatever store_record calls failed. */
  lemma DeliveredIsHeldByMajority(cfg: Config, states: seq<Cluster>, steps: seq<Step>, t: nat, i: nat, k: nat)
    requires Execution(cfg, states, steps) && t < |states| && i < cfg.groupSize
    requires |states[t].nodes| == cfg.groupSize && 0 < k <= |states[t].nodes[i].delivered|
    ensures |Holders(cfg, states[t], k, states[t].nodes[i].delivered[k - 1].data)| >= cfg.groupSize / 2 + 1
  {
    ExecutionKeepsInv(cfg, states, steps, t);
    var c := states[t];
    assert c.nodes[i].delivered[k - 1].data == Log(cfg, c)[k - 1];
    QuorumHolds(cfg, c, k);
  }

  /** The leader's marks, at any time: a majority is recorded for everything up to the committed
      mark and not for the next record, and no record up to the seen mark is missing. */
  lemma LeaderMarks(cfg: Config, states: seq<Cluster>, steps: seq<Step>, t: nat)
    requires Execution(cfg, states, steps) && t < |states|
    ensures |states[t].nodes| == cfg.groupSize
    ensures var n := states[t].nodes[cfg.leader];
      && n.committed == n.toCommit && n.toCommit.viewId == n.seen.viewId == cfg.view
      && |n.delivered| == n.committed.reqId <= n.seen.reqId && Present(n.db, cfg.view, 0, n.seen.reqId)
      && (forall k: uint32 {:trigger Key(cfg.view, k)} :: 0 < k <= n.committed.reqId ==>
            2 * |Members(n.db[Key(cfg.view, k)].bitMap, cfg.groupSize)| > cfg.groupSize)
      && (n.committed.reqId < n.seen.reqId ==>
            2 * |Members(n.db[Key(cfg.view, n.committed.reqId + 1)].bitMap, cfg.groupSize)| <= cfg.groupSize)
  {
    hide ReachedQuorum, Members;
    ExecutionKeepsInv(cfg, states, steps, t);
    var n := states[t].nodes[cfg.leader];
    forall k: uint32 {:trigger Key(cfg.view, k)} | 0 < k <= n.committed.reqId
      ensures 2 * |Members(n.db[Key(cfg.view, k)].bitMap, cfg.groupSize)| > cfg.groupSize
    {
      QuorumIsMajority(n.db[Key(cfg.view, k)].bitMap, cfg.groupSize);
    }
    if n.committed.reqId < n.seen.reqId {
      var k: uint32 := n.committed.reqId + 1;
      assert Key(cfg.view, k) in n.db;
      QuorumIsMajority(n.db[Key(cfg.view, k)].bitMap, cfg.groupSize);
    }
  }

  /** A follower's marks, at any time: it never runs ahead of the leader, and once in the
      view it has delivered all it may: the next record is absent. */
  lemma FollowerMarks(cfg: Config, states: seq<Cluster>, steps: seq<Step>, t: nat, i: nat)
    requires Execution(cfg, states, steps) && t < |states| && i < cfg.groupSize && i != cfg.leader
    ensures |states[t].nodes| == cfg.groupSize
    ensures var n, leader := states[t].nodes[i], states[t].nodes[cfg.leader];
      && n.committed.reqId <= n.toCommit.reqId <= leader.committed.reqId
      && n.seen.reqId <= leader.seen.reqId
      && |n.delivered| == n.committed.reqId
      && (n.curView.viewId != 0 ==>
            DeliveredPrefix(n.db, cfg.view, 0, n.committed.reqId, n.toCommit.reqId))
  {
    ExecutionKeepsInv(cfg, states, steps, t);
    var n := states[t].nodes[i];
    forall k: nat {:trigger Key(cfg.view, k)} | 0 < k <= n.committed.reqId ensures Key(cfg.view, k) in n.db {
      var q: uint32 := k;
      assert Key(cfg.view, q) in n.db;
    }
  }
}
