/**
 A replica group in one view: every node runs the handlers of ConsensusNode,
 the network may lose, duplicate and reorder packets, store_record may fail
 at any step, and a node may start without a view and join later.
 */
module ReplicationCluster {
  import opened Basics
  import opened ViewStamps
  import opened Bitmap
  import opened ConsensusNode
  import opened ConsensusExec

  datatype Config = Config(groupSize: nat, leader: nat, view: uint32)

  /** At most 31 nodes: the source sets bit i with the int expression 1<<i. */
  predicate ValidConfig(cfg: Config) {
    1 <= cfg.groupSize <= 31 && cfg.leader < cfg.groupSize && 1 <= cfg.view
  }

  /** `net` holds every packet ever sent; a lost packet is one that is never received. */
  datatype Cluster = Cluster(nodes: seq<Node>, net: set<Packet>)

  datatype Step =
    | Submit(i: nat, data: Data, stored: bool)
    | Receive(i: nat, p: Packet, stored: bool, garbage: nat)
    | Progress(i: nat)
    | Join(i: nat)

  /** The view of a node that has none yet (system_initialize). */
  const NO_VIEW: View := View(0, 9999)

  predicate InitNode(cfg: Config, n: Node, i: nat) {
    && n.nodeId == i && n.groupSize == cfg.groupSize
    && n.seen == n.toCommit == n.committed == ViewStamp(cfg.view, 0)
    && n.delivered == []
    && n.role == (if i == cfg.leader then Leader else Secondary)
    && (n.curView == View(cfg.view, cfg.leader) || (i != cfg.leader && cfg.view == 1 && n.curView == NO_VIEW))
    && (forall k: uint32 {:trigger Key(cfg.view, k)} :: k > 0 ==> Key(cfg.view, k) !in n.db)
  }

  predicate Init(cfg: Config, c: Cluster) {
    && |c.nodes| == cfg.groupSize
    && c.net == {}
    && forall i {:trigger c.nodes[i]} :: 0 <= i < |c.nodes| ==> InitNode(cfg, c.nodes[i], i)
  }

  /** send_to_one_node / send_to_other_nodes */
  predicate Addressed(p: Packet, i: nat) {
    p.to == i || (p.to == EVERYBODY && p.from != i)
  }

  /** Request numbers stay below 2^32, so that no stamp wraps around. */
  predicate StampLeft(n: Node) {
    n.seen.reqId as nat + 1 < TWO_32
  }

  /** No assertion of the source stops the handler call of a step. */
  predicate Enabled(c: Cluster, step: Step) {
    && step.i < |c.nodes|
    && var n := c.nodes[step.i];
       match step
       case Submit(_, data, stored) => CanSubmit(n, data, stored) && StampLeft(n)
       case Receive(i, p, stored, garbage) =>
         p in c.net && Addressed(p, i) && CanHandle(n, p, stored, garbage) && (p.msg.ForwardReq? ==> StampLeft(n))
       case Progress(_) => CanResend(n)
       case Join(_) => n.curView.viewId == 0
  }

  function OutcomeOf(cfg: Config, c: Cluster, step: Step): Outcome
    requires Enabled(c, step)
  {
    var n := c.nodes[step.i];
    match step
    case Submit(_, data, stored) => SubmitRequest(n, data, stored)
    case Receive(_, p, stored, garbage) => HandleMsg(n, p, stored, garbage)
    case Progress(_) => MakeProgress(n)
    case Join(_) => Outcome(JoinView(n, View(cfg.view, cfg.leader)), [])
  }

  function Apply(cfg: Config, c: Cluster, step: Step): Cluster
    requires Enabled(c, step)
  {
    var out := OutcomeOf(cfg, c, step);
    Cluster(c.nodes[step.i := out.node], c.net + set p | p in out.sent)
  }

  // ---------- the invariant ----------

  /** What the leader stored for requests 1..s, in order: the log of the view. */
  function LogOf(db: map<nat, Record>, v: nat, s: nat): (log: seq<Data>)
    requires Present(db, v, 0, s)
    ensures |log| == s
    ensures forall j :: 0 <= j < s ==> log[j] == db[Key(v, j + 1)].data
  {
    if s == 0 then [] else LogOf(db, v, s - 1) + [db[Key(v, s)].data]
  }

  /** A user has been handed exactly the first m entries of the log. */
  predicate DeliveredLog(v: nat, delivered: seq<Delivery>, log: seq<Data>, m: nat) {
    && m <= |log| && |delivered| == m
    && forall j {:trigger delivered[j]} {:trigger log[j]} :: 0 <= j < m ==> delivered[j] == Delivery(Key(v, j + 1), log[j])
  }

  predicate InView(v: nat, n: Node) {
    OneView(n) && n.seen.viewId == v
  }

  /** All a leader keeps but the last clause of LeaderOk. */
  predicate LeaderBase(cfg: Config, n: Node) {
    var v, s, m := cfg.view, n.seen.reqId, n.committed.reqId;
    && n.nodeId == cfg.leader && n.groupSize == cfg.groupSize && n.role.Leader?
    && n.curView == View(v, cfg.leader)
    && InView(v, n) && n.toCommit == n.committed && m <= s
    && Present(n.db, v, 0, s)
    && (forall k: uint32 {:trigger Key(v, k)} :: k > s ==> Key(v, k) !in n.db)
    && (forall k: uint32 {:trigger Key(v, k)} :: 0 < k <= s ==>
          n.db[Key(v, k)].bitMap < Pow2(cfg.groupSize) && Bit(n.db[Key(v, k)].bitMap, cfg.leader))
    && (forall k: uint32 {:trigger Key(v, k)} :: 0 < k <= m ==> HasQuorum(n.db, cfg.groupSize, Key(v, k)))
    && DeliveredLog(v, n.delivered, LogOf(n.db, v, s), m)
  }

  /** The leader never sits on a record that has its quorum. */
  predicate LeaderOk(cfg: Config, n: Node) {
    && LeaderBase(cfg, n)
    && (n.committed.reqId < n.seen.reqId ==> !HasQuorum(n.db, cfg.groupSize, Key(cfg.view, n.committed.reqId + 1)))
  }

  /** All a follower keeps with respect to the log and the leader's committed mark, but the
      last clause of FollowerOk. */
  predicate FollowerBase(cfg: Config, n: Node, i: nat, log: seq<Data>, mark: nat) {
    var v := cfg.view;
    && n.nodeId == i && n.groupSize == cfg.groupSize && n.role.Secondary?
    && (n.curView == View(v, cfg.leader) || (n.curView == NO_VIEW && n.committed.reqId == 0))
    && InView(v, n)
    && n.committed.reqId <= n.toCommit.reqId <= mark && n.seen.reqId <= |log|
    && (forall k: uint32 {:trigger Key(v, k)} :: 0 < k && Key(v, k) in n.db ==>
          k <= |log| && n.db[Key(v, k)].data == log[k - 1])
    && (forall k: uint32 {:trigger Key(v, k)} :: 0 < k <= n.committed.reqId ==> Key(v, k) in n.db)
    && DeliveredLog(v, n.delivered, log, n.committed.reqId)
  }

  /** A follower in the view never sits on a record it may deliver. */
  predicate Settled(n: Node) {
    n.committed.reqId < n.toCommit.reqId ==> Key(n.seen.viewId, n.committed.reqId + 1) !in n.db
  }

  predicate FollowerOk(cfg: Config, n: Node, i: nat, log: seq<Data>, mark: nat) {
    FollowerBase(cfg, n, i, log, mark) && (n.curView.viewId != 0 ==> Settled(n))
  }

  predicate InLog(cfg: Config, vs: ViewStamp, log: seq<Data>) {
    vs.viewId == cfg.view && 0 < vs.reqId <= |log|
  }

  predicate PacketOk(cfg: Config, p: Packet, log: seq<Data>, mark: nat) {
    match p.msg
    case AcceptReq(vs, canBeExed, data) =>
      && p.from == cfg.leader && p.to == EVERYBODY
      && InLog(cfg, vs, log) && data == log[vs.reqId - 1]
      && canBeExed.viewId == cfg.view && canBeExed.reqId <= mark
    case AcceptAck(vs) => p.from < cfg.groupSize && p.from != cfg.leader && InLog(cfg, vs, log)
    case MissingReq(vs) => vs.viewId == cfg.view && 0 < vs.reqId
    case MissingAck(vs, data) => InLog(cfg, vs, log) && data == log[vs.reqId - 1]
    case ForceExec(vs) =>
      p.from == cfg.leader && p.to == EVERYBODY && vs.viewId == cfg.view && vs.reqId <= mark
    case ForwardReq(_) => true
  }

  /** Who acknowledged a record holds it. */
  predicate AcksHeld(c: Cluster) {
    forall p {:trigger p in c.net} :: p in c.net && p.msg.AcceptAck? ==>
      p.from < |c.nodes| && Vstol(p.msg.vs) in c.nodes[p.from].db
  }

  /** Who is in the bitmap of the leader's record k holds record k. */
  predicate BitsHeld(cfg: Config, c: Cluster)
    requires |c.nodes| == cfg.groupSize && cfg.leader < cfg.groupSize
  {
    var leader := c.nodes[cfg.leader];
    forall k: uint32, j: nat {:trigger Bit(leader.db[Key(cfg.view, k)].bitMap, j)} ::
      0 < k <= leader.seen.reqId && Key(cfg.view, k) in leader.db && j < cfg.groupSize
      && Bit(leader.db[Key(cfg.view, k)].bitMap, j)
      ==> Key(cfg.view, k) in c.nodes[j].db
  }

  predicate Inv(cfg: Config, c: Cluster) {
    && ValidConfig(cfg) && |c.nodes| == cfg.groupSize
    && var leader := c.nodes[cfg.leader];
    && LeaderOk(cfg, leader)
    && var log, mark := LogOf(leader.db, cfg.view, leader.seen.reqId), leader.committed.reqId;
    && (forall i {:trigger c.nodes[i]} :: 0 <= i < |c.nodes| && i != cfg.leader ==> FollowerOk(cfg, c.nodes[i], i, log, mark))
    && (forall p {:trigger p in c.net} :: p in c.net ==> PacketOk(cfg, p, log, mark))
    && AcksHeld(c)
    && BitsHeld(cfg, c)
  }

  /** The log of the view, as the leader's database has it. */
  function Log(cfg: Config, c: Cluster): seq<Data>
    requires Inv(cfg, c)
  {
    LogOf(c.nodes[cfg.leader].db, cfg.view, c.nodes[cfg.leader].seen.reqId)
  }

  function Mark(cfg: Config, c: Cluster): nat
    requires Inv(cfg, c)
  {
    c.nodes[cfg.leader].committed.reqId
  }

  // ---------- executing keeps the node invariants ----------

  lemma DeliveredGrows(v: nat, before: seq<Delivery>, log: seq<Data>, m: nat, m': nat, after: seq<Delivery>, db: map<nat, Record>)
    requires DeliveredLog(v, before, log, m) && m <= m' <= |log|
    requires Present(db, v, m, m')
    requires forall j {:trigger log[j]} :: m <= j < m' ==> log[j] == db[Key(v, j + 1)].data
    requires after == before + Entries(db, v, m, m')
    ensures DeliveredLog(v, after, log, m')
  {
    var e := Entries(db, v, m, m');
    forall j | m <= j < m' ensures after[j] == Delivery(Key(v, j + 1), log[j]) {
      assert after[j] == e[j - m];
      assert m + 1 + (j - m) == j + 1;
    }
  }

  lemma LeaderExecutesOk(cfg: Config, n: Node)
    requires ValidConfig(cfg) && LeaderBase(cfg, n)
    ensures LeaderReady(n)
    ensures TryToExecute(n) == Outcome(LeaderTryToExecute(n), [])
    ensures var r := LeaderTryToExecute(n);
      LeaderOk(cfg, r) && r.db == n.db && r.seen == n.seen && n.committed.reqId <= r.committed.reqId
  {
    LeaderHolds(cfg, n);
    LeaderMovesMarks(n);
    var r := LeaderTryToExecute(n);
    var v, s, m, m' := cfg.view, n.seen.reqId, n.committed.reqId, r.committed.reqId;
    DeliveredGrows(v, n.delivered, LogOf(n.db, v, s), m, m', r.delivered, n.db);
    forall k: uint32 {:trigger Key(v, k)} | 0 < k <= m' ensures HasQuorum(r.db, cfg.groupSize, Key(v, k)) {
    }
  }

  lemma LeaderHolds(cfg: Config, n: Node)
    requires ValidConfig(cfg) && LeaderBase(cfg, n)
    ensures LeaderReady(n)
    ensures forall key :: Vstol(n.committed) < key <= Vstol(n.seen) ==> key in n.db
  {
    forall key | Vstol(n.committed) < key <= Vstol(n.seen) ensures key in n.db {
      var k := key - Key(cfg.view, 0);
      assert key == Key(cfg.view, k);
    }
    AllLoaded(n.db, n.groupSize, Vstol(n.toCommit) + 1, Vstol(n.seen));
  }

  lemma FollowerExecutesOk(cfg: Config, n: Node, i: nat, log: seq<Data>, mark: nat)
    requires ValidConfig(cfg) && FollowerBase(cfg, n, i, log, mark) && mark <= |log|
    ensures Ready(n)
    ensures var r := TryToExecute(n);
      && FollowerOk(cfg, r.node, i, log, mark) && r.node.db == n.db && r.node.seen == n.seen
      && r.node.toCommit == n.toCommit && r.node.curView == n.curView
      && n.committed.reqId <= r.node.committed.reqId
      && forall p :: p in r.sent ==> PacketOk(cfg, p, log, mark) && p.msg.MissingReq?
  {
    if n.curView.viewId != 0 {
      FollowerExecutes(n);
      var r := TryToExecute(n);
      var v, m, m' := cfg.view, n.committed.reqId, r.node.committed.reqId;
      forall j {:trigger log[j]} | m <= j < m' ensures log[j] == n.db[Key(v, j + 1)].data {
        var k: uint32 := j + 1;
        assert Key(v, k) in n.db;
      }
      DeliveredGrows(v, n.delivered, log, m, m', r.node.delivered, n.db);
      forall k: uint32 {:trigger Key(v, k)} | 0 < k <= m' ensures Key(v, k) in r.node.db {
      }
    }
  }

  // ---------- what may change around a node without harm ----------

  lemma FollowerMonotone(cfg: Config, n: Node, i: nat, log: seq<Data>, mark: nat, log': seq<Data>, mark': nat)
    requires FollowerOk(cfg, n, i, log, mark) && log <= log' && mark <= mark'
    ensures FollowerOk(cfg, n, i, log', mark')
  {
  }

  lemma PacketMonotone(cfg: Config, p: Packet, log: seq<Data>, mark: nat, log': seq<Data>, mark': nat)
    requires PacketOk(cfg, p, log, mark) && log <= log' && mark <= mark'
    ensures PacketOk(cfg, p, log', mark')
  {
  }

  lemma LogPrefix(db: map<nat, Record>, db': map<nat, Record>, v: nat, s: nat, s': nat)
    requires s <= s' && Present(db, v, 0, s) && Present(db', v, 0, s')
    requires forall k: nat {:trigger Key(v, k)} :: 0 < k <= s ==> db'[Key(v, k)].data == db[Key(v, k)].data
    ensures LogOf(db, v, s) <= LogOf(db', v, s')
  {
    var log, log' := LogOf(db, v, s), LogOf(db', v, s');
    forall j | 0 <= j < s ensures log[j] == log'[j] {
      assert 0 < j + 1 <= s && Key(v, j + 1) in db;
    }
  }
}
