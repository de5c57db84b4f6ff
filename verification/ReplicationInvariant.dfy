/**
 The invariant of ReplicationCluster is inductive, handler by handler, and
 implies that every step of a run is one the node model covers.
 */
module ReplicationInvariant {
  import opened Basics
  import opened ViewStamps
  import opened Bitmap
  import opened ConsensusNode
  import opened ConsensusExec
  import opened ReplicationCluster

  // ---------- a follower ----------

  /** The effect of one handler call on a follower, as seen from outside. */
  predicate FollowerEffect(cfg: Config, n: Node, out: Outcome, i: nat, log: seq<Data>, mark: nat) {
    && FollowerOk(cfg, out.node, i, log, mark)
    && n.db.Keys <= out.node.db.Keys
    && n.delivered <= out.node.delivered
    && (n.curView.viewId != 0 ==> out.node.curView == n.curView && n.toCommit.reqId <= out.node.toCommit.reqId)
    && (forall p :: p in out.sent ==> PacketOk(cfg, p, log, mark))
    && (forall p :: p in out.sent && p.msg.AcceptAck? ==> p.from == i && Vstol(p.msg.vs) in out.node.db)
  }

  lemma KeyOfStamp(v: uint32, vs: ViewStamp)
    requires vs.viewId == v
    ensures Vstol(vs) == Key(v, vs.reqId)
    ensures forall k: uint32 {:trigger Key(v, k)} :: Key(v, k) == Vstol(vs) <==> k == vs.reqId
  {
  }

  /** Storing a record of the log keeps a follower sound, but for being settled. */
  lemma FollowerStores(cfg: Config, n: Node, i: nat, vs: ViewStamp, record: Record, log: seq<Data>, mark: nat)
    requires FollowerBase(cfg, n, i, log, mark)
    requires InLog(cfg, vs, log) && record.data == log[vs.reqId - 1]
    ensures FollowerBase(cfg, n.(db := n.db[Vstol(vs) := record]), i, log, mark)
  {
    KeyOfStamp(cfg.view, vs);
  }

  /** try_to_execute as the last thing a follower's handler does. */
  lemma FollowerFinishes(cfg: Config, n: Node, n1: Node, i: nat, log: seq<Data>, mark: nat)
    requires ValidConfig(cfg) && mark <= |log|
    requires FollowerBase(cfg, n1, i, log, mark)
    requires n.db.Keys <= n1.db.Keys && n.delivered == n1.delivered
    requires n1.curView == n.curView && n.toCommit.reqId <= n1.toCommit.reqId
    ensures Ready(n1)
    ensures FollowerEffect(cfg, n, TryToExecute(n1), i, log, mark)
  {
    FollowerExecutesOk(cfg, n1, i, log, mark);
    var r := TryToExecute(n1).node;
    forall j | 0 <= j < |n1.delivered| ensures n1.delivered[j] == r.delivered[j] {
    }
  }

  lemma FollowerAcceptReq(
    cfg: Config, n: Node, i: nat, from: nat, vs: ViewStamp, canBeExed: ViewStamp, data: Data,
    stored: bool, garbage: nat, log: seq<Data>, mark: nat)
    requires ValidConfig(cfg) && i < cfg.groupSize && i != cfg.leader && mark <= |log|
    requires FollowerOk(cfg, n, i, log, mark)
    requires PacketOk(cfg, Packet(from, EVERYBODY, AcceptReq(vs, canBeExed, data)), log, mark)
    ensures Ready(WithAccepted(n, from, vs, canBeExed, data, stored, garbage))
    ensures FollowerEffect(cfg, n, HandleAcceptReq(n, from, vs, canBeExed, data, stored, garbage), i, log, mark)
  {
    hide FollowerEffect, TryToExecute, Settled, DeliveredLog;
    var n2 := WithMarks(n, vs, canBeExed);
    assert FollowerBase(cfg, n2, i, log, mark);
    if ViewStampComp(vs, n.committed) <= 0 {
      FollowerFinishes(cfg, n, n, i, log, mark);
    } else if !stored {
      FollowerFinishes(cfg, n, n2, i, log, mark);
    } else {
      FollowerAcks(cfg, n, n2, i, from, vs, Record(data, garbage), log, mark);
    }
  }

  lemma FollowerAcks(
    cfg: Config, n: Node, n2: Node, i: nat, from: nat, vs: ViewStamp, record: Record, log: seq<Data>, mark: nat)
    requires ValidConfig(cfg) && i < cfg.groupSize && i != cfg.leader && mark <= |log|
    requires FollowerBase(cfg, n2, i, log, mark) && n2.db == n.db && n2.delivered == n.delivered
    requires n2.curView == n.curView && n.toCommit.reqId <= n2.toCommit.reqId
    requires InLog(cfg, vs, log) && record.data == log[vs.reqId - 1]
    ensures var n3 := n2.(db := n2.db[Vstol(vs) := record]);
      && Ready(n3)
      && var out := TryToExecute(n3);
      FollowerEffect(cfg, n, Outcome(out.node, [Packet(i, from, AcceptAck(vs))] + out.sent), i, log, mark)
  {
    var n3 := n2.(db := n2.db[Vstol(vs) := record]);
    FollowerStores(cfg, n2, i, vs, record, log, mark);
    FollowerFinishes(cfg, n, n3, i, log, mark);
    FollowerExecutesOk(cfg, n3, i, log, mark);
    var ack, out := Packet(i, from, AcceptAck(vs)), TryToExecute(n3);
    assert forall q :: q in [ack] + out.sent ==> q == ack || q in out.sent;
  }

  /** A follower that only sends. */
  lemma FollowerSends(cfg: Config, n: Node, i: nat, sent: seq<Packet>, log: seq<Data>, mark: nat)
    requires FollowerOk(cfg, n, i, log, mark)
    requires forall p :: p in sent ==> PacketOk(cfg, p, log, mark) && !p.msg.AcceptAck?
    ensures FollowerEffect(cfg, n, Outcome(n, sent), i, log, mark)
  {
  }

  lemma FollowerAnswers(cfg: Config, n: Node, i: nat, from: nat, vs: ViewStamp, log: seq<Data>, mark: nat)
    requires FollowerOk(cfg, n, i, log, mark) && vs.viewId == cfg.view && 0 < vs.reqId
    ensures FollowerEffect(cfg, n, HandleMissingReq(n, from, vs), i, log, mark)
  {
    KeyOfStamp(cfg.view, vs);
    FollowerSends(cfg, n, i, HandleMissingReq(n, from, vs).sent, log, mark);
  }

  lemma FollowerFillsGap(
    cfg: Config, n: Node, i: nat, vs: ViewStamp, data: Data, stored: bool, garbage: nat, log: seq<Data>, mark: nat)
    requires ValidConfig(cfg) && mark <= |log| && FollowerOk(cfg, n, i, log, mark)
    requires InLog(cfg, vs, log) && data == log[vs.reqId - 1]
    ensures IgnoresMissingAck(n, vs) || Ready(WithAnswer(n, vs, data, stored, garbage))
    ensures FollowerEffect(cfg, n, HandleMissingAck(n, vs, data, stored, garbage), i, log, mark)
  {
    hide FollowerEffect, TryToExecute;
    if IgnoresMissingAck(n, vs) {
      FollowerSends(cfg, n, i, [], log, mark);
    } else {
      if stored {
        FollowerStores(cfg, n, i, vs, Record(data, garbage), log, mark);
      }
      FollowerFinishes(cfg, n, WithAnswer(n, vs, data, stored, garbage), i, log, mark);
    }
  }

  lemma FollowerForced(cfg: Config, n: Node, i: nat, from: nat, vs: ViewStamp, log: seq<Data>, mark: nat)
    requires ValidConfig(cfg) && mark <= |log| && FollowerOk(cfg, n, i, log, mark)
    requires vs.viewId == cfg.view && vs.reqId <= mark
    ensures IgnoresForceExec(n, from, vs) || Ready(n.(toCommit := vs))
    ensures FollowerEffect(cfg, n, HandleForceExec(n, from, vs), i, log, mark)
  {
    hide FollowerEffect, TryToExecute;
    if IgnoresForceExec(n, from, vs) {
      FollowerSends(cfg, n, i, [], log, mark);
    } else {
      FollowerFinishes(cfg, n, n.(toCommit := vs), i, log, mark);
    }
  }

  lemma FollowerHandles(cfg: Config, n: Node, i: nat, p: Packet, stored: bool, garbage: nat, log: seq<Data>, mark: nat)
    requires ValidConfig(cfg) && i < cfg.groupSize && i != cfg.leader && mark <= |log|
    requires FollowerOk(cfg, n, i, log, mark) && PacketOk(cfg, p, log, mark)
    ensures CanHandle(n, p, stored, garbage)
    ensures FollowerEffect(cfg, n, HandleMsg(n, p, stored, garbage), i, log, mark)
  {
    hide FollowerEffect, TryToExecute, HandleAcceptReq, HandleMissingReq, HandleMissingAck, HandleForceExec, WithAccepted, WithAnswer;
    match p.msg {
      case AcceptReq(vs, canBeExed, data) =>
        FollowerAcceptReq(cfg, n, i, p.from, vs, canBeExed, data, stored, garbage, log, mark);
      case AcceptAck(_) => FollowerFinishes(cfg, n, n, i, log, mark);
      case MissingReq(vs) => FollowerAnswers(cfg, n, i, p.from, vs, log, mark);
      case MissingAck(vs, data) => FollowerFillsGap(cfg, n, i, vs, data, stored, garbage, log, mark);
      case ForceExec(vs) => FollowerForced(cfg, n, i, p.from, vs, log, mark);
      case ForwardReq(_) => FollowerSends(cfg, n, i, [], log, mark);
    }
  }

  // ---------- the leader ----------

  /** The effect of one handler call on the leader, as seen from outside; `ack` is the
      acknowledgement it handled, if any. */
  predicate LeaderEffect(cfg: Config, n: Node, out: Outcome, p: Packet) {
    && LeaderOk(cfg, n) && LeaderOk(cfg, out.node)
    && n.seen.reqId <= out.node.seen.reqId && n.committed.reqId <= out.node.committed.reqId
    && n.db.Keys <= out.node.db.Keys
    && var log, log' := LogOf(n.db, cfg.view, n.seen.reqId), LogOf(out.node.db, cfg.view, out.node.seen.reqId);
    && log <= log'
    && (forall q :: q in out.sent ==> PacketOk(cfg, q, log', out.node.committed.reqId) && !q.msg.AcceptAck?)
    && (forall k: uint32, j: nat {:trigger Bit(out.node.db[Key(cfg.view, k)].bitMap, j)} ::
          0 < k <= out.node.seen.reqId && j < cfg.groupSize && Bit(out.node.db[Key(cfg.view, k)].bitMap, j) ==>
            || j == cfg.leader
            || (k <= n.seen.reqId && Bit(n.db[Key(cfg.view, k)].bitMap, j))
            || (j == p.from && p.msg == AcceptAck(ViewStamp(cfg.view, k))))
  }

  /** try_to_execute as the last thing the leader's handler does: `n1` is the node before it. */
  lemma LeaderFinishes(cfg: Config, n: Node, n1: Node, p: Packet)
    requires ValidConfig(cfg) && LeaderOk(cfg, n) && LeaderBase(cfg, n1)
    requires n.seen.reqId <= n1.seen.reqId && n.committed == n1.committed && n.db.Keys <= n1.db.Keys
    requires forall k: nat {:trigger Key(cfg.view, k)} :: 0 < k <= n.seen.reqId ==>
               n1.db[Key(cfg.view, k)].data == n.db[Key(cfg.view, k)].data
    requires forall k: uint32, j: nat {:trigger Bit(n1.db[Key(cfg.view, k)].bitMap, j)} ::
          0 < k <= n1.seen.reqId && j < cfg.groupSize && Bit(n1.db[Key(cfg.view, k)].bitMap, j) ==>
            || j == cfg.leader
            || (k <= n.seen.reqId && Bit(n.db[Key(cfg.view, k)].bitMap, j))
            || (j == p.from && p.msg == AcceptAck(ViewStamp(cfg.view, k)))
    ensures Ready(n1)
    ensures LeaderEffect(cfg, n, TryToExecute(n1), p)
  {
    LeaderExecutesOk(cfg, n1);
    LogPrefix(n.db, n1.db, cfg.view, n.seen.reqId, n1.seen.reqId);
  }

  lemma LeaderStores(cfg: Config, n: Node, data: Data)
    requires ValidConfig(cfg) && LeaderOk(cfg, n) && StampLeft(n)
    ensures var n1 := WithRequest(n, data);
      && LeaderBase(cfg, n1)
      && Vstol(Inc(n.seen)) == Key(cfg.view, n.seen.reqId + 1)
      && LogOf(n1.db, cfg.view, n1.seen.reqId) == LogOf(n.db, cfg.view, n.seen.reqId) + [data]
  {
    hide ReachedQuorum;
    var n1 := WithRequest(n, data);
    var v, s := cfg.view, n.seen.reqId;
    IncIsNextKey(n.seen);
    KeyOfStamp(v, Inc(n.seen));
    Pow2Monotone(cfg.leader, cfg.groupSize);
    Pow2Bit(cfg.leader, cfg.leader);
    LogPrefix(n.db, n1.db, v, s, s + 1);
    assert LogOf(n1.db, v, s + 1) == LogOf(n.db, v, s) + [data];
  }

  /** A record nobody but the leader holds has its quorum only in a group of one. */
  lemma FreshRecordHasNoQuorum(cfg: Config)
    requires ValidConfig(cfg) && cfg.groupSize > 1
    ensures !ReachedQuorum(Pow2(cfg.leader), cfg.groupSize)
  {
    Pow2Monotone(cfg.leader, cfg.groupSize);
    PopCountIsCardinality(Pow2(cfg.leader), cfg.groupSize);
    forall j: nat ensures Bit(Pow2(cfg.leader), j) <==> j == cfg.leader {
      Pow2Bit(cfg.leader, j);
    }
    assert Members(Pow2(cfg.leader), cfg.groupSize) == {cfg.leader};
  }

  lemma FreshBits(cfg: Config, n: Node, data: Data)
    requires ValidConfig(cfg) && LeaderOk(cfg, n) && StampLeft(n)
    ensures var n1 := WithRequest(n, data);
      LeaderBase(cfg, n1)
      && forall k: uint32, j: nat {:trigger Bit(n1.db[Key(cfg.view, k)].bitMap, j)} ::
        0 < k <= n1.seen.reqId && j < cfg.groupSize && Bit(n1.db[Key(cfg.view, k)].bitMap, j) ==>
          j == cfg.leader || (k <= n.seen.reqId && Bit(n.db[Key(cfg.view, k)].bitMap, j))
  {
    var n1 := WithRequest(n, data);
    LeaderStores(cfg, n, data);
    forall k: uint32, j: nat {:trigger Bit(n1.db[Key(cfg.view, k)].bitMap, j)} |
      0 < k <= n1.seen.reqId && j < cfg.groupSize && Bit(n1.db[Key(cfg.view, k)].bitMap, j)
      ensures j == cfg.leader || (k <= n.seen.reqId && Bit(n.db[Key(cfg.view, k)].bitMap, j))
    {
      if k == n1.seen.reqId {
        Pow2Bit(cfg.leader, j);
      }
    }
  }

  /** In a group of more than one, the leader only announces its new record. */
  lemma LeaderAnnounces(cfg: Config, n: Node, data: Data, p: Packet)
    requires ValidConfig(cfg) && cfg.groupSize > 1 && LeaderOk(cfg, n) && StampLeft(n)
    ensures var n1 := WithRequest(n, data);
      LeaderEffect(cfg, n, Outcome(n1, [Broadcast(n, AcceptReq(Inc(n.seen), n1.toCommit, data))]), p)
  {
    FreshBits(cfg, n, data);
    LeaderStores(cfg, n, data);
    FreshRecordHasNoQuorum(cfg);
  }

  lemma LeaderSubmits(cfg: Config, n: Node, data: Data, stored: bool, p: Packet)
    requires ValidConfig(cfg) && LeaderOk(cfg, n) && StampLeft(n)
    ensures CanSubmit(n, data, stored)
    ensures LeaderEffect(cfg, n, LeaderHandleSubmitReq(n, data, stored), p)
    ensures var out := LeaderHandleSubmitReq(n, data, stored);
      LogOf(out.node.db, cfg.view, out.node.seen.reqId) ==
      LogOf(n.db, cfg.view, n.seen.reqId) + if stored then [data] else []
  {
    LeaderHolds(cfg, n);
    if stored {
      LeaderStores(cfg, n, data);
      if cfg.groupSize > 1 {
        LeaderAnnounces(cfg, n, data, p);
      } else {
        FreshBits(cfg, n, data);
        var n1 := WithRequest(n, data);
        LeaderFinishes(cfg, n, n1, p);
        LeaderExecutesOk(cfg, n1);
      }
    }
  }

  lemma LeaderRecordsAck(cfg: Config, n: Node, p: Packet)
    requires ValidConfig(cfg) && LeaderOk(cfg, n)
    requires p.msg.AcceptAck? && PacketOk(cfg, p, LogOf(n.db, cfg.view, n.seen.reqId), n.committed.reqId)
    ensures var key := Vstol(p.msg.vs);
      && key in n.db
      && var n1 := n.(db := n.db[key := n.db[key].(bitMap := UpdateRecord(n.db[key].bitMap, p.from))]);
      && Ready(n1) && LeaderEffect(cfg, n, TryToExecute(n1), p)
  {
    hide ReachedQuorum, LeaderEffect, TryToExecute;
    var v, vs := cfg.view, p.msg.vs;
    KeyOfStamp(v, vs);
    var key := Key(v, vs.reqId);
    var bits, bits' := n.db[key].bitMap, UpdateRecord(n.db[key].bitMap, p.from);
    var n1 := n.(db := n.db[key := n.db[key].(bitMap := bits')]);
    UpdateRecordMembers(bits, p.from, cfg.groupSize);
    QuorumIsMonotone(cfg, bits, p.from);
    forall j: nat ensures Bit(bits', j) <==> Bit(bits, j) || j == p.from {
      OrBit(bits, Pow2(p.from), j);
      Pow2Bit(p.from, j);
    }
    LogPrefix(n.db, n1.db, v, n.seen.reqId, n.seen.reqId);
    assert LeaderBase(cfg, n1);
    LeaderFinishes(cfg, n, n1, p);
  }

  lemma QuorumIsMonotone(cfg: Config, bitMap: nat, nodeId: nat)
    requires ValidConfig(cfg) && bitMap < Pow2(cfg.groupSize) && nodeId < cfg.groupSize
    ensures ReachedQuorum(bitMap, cfg.groupSize) ==> ReachedQuorum(UpdateRecord(bitMap, nodeId), cfg.groupSize)
  {
    var n := cfg.groupSize;
    UpdateRecordMembers(bitMap, nodeId, n);
    PopCountIsCardinality(bitMap, n);
    PopCountIsCardinality(UpdateRecord(bitMap, nodeId), n);
    SubsetIsSmaller(Members(bitMap, n), Members(UpdateRecord(bitMap, nodeId), n));
  }

  lemma LeaderAnswers(cfg: Config, n: Node, p: Packet, stored: bool, garbage: nat)
    requires ValidConfig(cfg) && LeaderOk(cfg, n) && CanHandle(n, p, stored, garbage)
    requires PacketOk(cfg, p, LogOf(n.db, cfg.view, n.seen.reqId), n.committed.reqId)
    requires p.msg.MissingReq? || p.msg.MissingAck?
    ensures LeaderEffect(cfg, n, HandleMsg(n, p, stored, garbage), p)
  {
    KeyOfStamp(cfg.view, p.msg.vs);
  }

  /** Everything the leader may receive, it handles; nothing it sent to everybody reaches it. */
  lemma LeaderHandles(cfg: Config, n: Node, p: Packet, stored: bool, garbage: nat)
    requires ValidConfig(cfg) && LeaderOk(cfg, n) && Addressed(p, cfg.leader)
    requires PacketOk(cfg, p, LogOf(n.db, cfg.view, n.seen.reqId), n.committed.reqId)
    requires p.msg.ForwardReq? ==> StampLeft(n)
    ensures CanHandle(n, p, stored, garbage)
    ensures LeaderEffect(cfg, n, HandleMsg(n, p, stored, garbage), p)
  {
    hide LeaderEffect, TryToExecute, LeaderHandleSubmitReq, LogOf, HasQuorum;
    LeaderHolds(cfg, n);
    match p.msg {
      case AcceptReq(_, _, _) => assert false;
      case ForceExec(_) => assert false;
      case AcceptAck(vs) =>
        LeaderFinishes(cfg, n, n, p);
        LeaderRecordsAck(cfg, n, p);
      case MissingReq(_) => LeaderAnswers(cfg, n, p, stored, garbage);
      case MissingAck(_, _) => LeaderAnswers(cfg, n, p, stored, garbage);
      case ForwardReq(data) => LeaderSubmits(cfg, n, data, stored, p);
    }
  }

  function Resent(n: Node, key: nat): Packet
    requires key in n.db && key < TWO_32 * TWO_32
  {
    Broadcast(n, AcceptReq(Ltovs(key), n.toCommit, n.db[key].data))
  }

  lemma ResentFirst(n: Node, index: nat, end: nat)
    requires index <= end < TWO_32 * TWO_32
    requires forall key :: index <= key <= end ==> key in n.db
    ensures forall q :: q in ResendLoop(n, index, end) ==> q == Resent(n, index) || q in ResendLoop(n, index + 1, end)
  {
    hide Ltovs, ReachedQuorum;
  }

  lemma ResentIsOk(cfg: Config, n: Node, k: uint32)
    requires ValidConfig(cfg) && LeaderOk(cfg, n) && 0 < k <= n.seen.reqId
    ensures Key(cfg.view, k) in n.db
    ensures var q := Resent(n, Key(cfg.view, k));
      PacketOk(cfg, q, LogOf(n.db, cfg.view, n.seen.reqId), n.committed.reqId) && !q.msg.AcceptAck?
  {
    KeyRoundTrip(ViewStamp(cfg.view, k), 0);
    assert Ltovs(Key(cfg.view, k)) == ViewStamp(cfg.view, k);
  }

  lemma {:induction false} ResendsAreOk(cfg: Config, n: Node, lo: nat)
    requires ValidConfig(cfg) && LeaderOk(cfg, n) && lo <= n.seen.reqId
    requires forall key :: Key(cfg.view, lo + 1) <= key <= Vstol(n.seen) ==> key in n.db
    ensures forall q :: q in ResendLoop(n, Key(cfg.view, lo + 1), Vstol(n.seen)) ==>
      PacketOk(cfg, q, LogOf(n.db, cfg.view, n.seen.reqId), n.committed.reqId) && !q.msg.AcceptAck?
    decreases n.seen.reqId - lo
  {
    hide ResendLoop, PacketOk, ReachedQuorum, HasQuorum, Ltovs, LeaderOk;
    var key, end := Key(cfg.view, lo + 1), Vstol(n.seen);
    LastKey(cfg, n);
    if lo < n.seen.reqId {
      ResentFirst(n, key, end);
      ResentIsOk(cfg, n, lo + 1);
      ResendsAreOk(cfg, n, lo + 1);
    } else {
      ResendEnds(n, key, end);
    }
  }

  lemma LastKey(cfg: Config, n: Node)
    requires LeaderOk(cfg, n)
    ensures Vstol(n.seen) == Key(cfg.view, n.seen.reqId)
  {
  }

  /** What consensus_make_progress sends again, once the leader has executed. */
  lemma ResentPackets(cfg: Config, n: Node)
    requires ValidConfig(cfg) && LeaderOk(cfg, n) && Vstol(n.committed) < Vstol(n.seen)
    ensures forall key :: Vstol(ResendStart(n)) <= key <= Vstol(n.seen) ==> key in n.db
    ensures forall q :: q in ResendLoop(n, Vstol(ResendStart(n)), Vstol(n.seen)) ==>
      PacketOk(cfg, q, LogOf(n.db, cfg.view, n.seen.reqId), n.committed.reqId) && !q.msg.AcceptAck?
  {
    LeaderHolds(cfg, n);
    IncIsNextKey(n.committed);
    assert Vstol(ResendStart(n)) == Key(cfg.view, n.committed.reqId + 1);
    ResendsAreOk(cfg, n, n.committed.reqId);
  }

  lemma LeaderProgresses(cfg: Config, n: Node, p: Packet)
    requires ValidConfig(cfg) && LeaderOk(cfg, n)
    ensures CanResend(n)
    ensures LeaderEffect(cfg, n, MakeProgress(n), p)
  {
    LeaderHolds(cfg, n);
    LeaderExecutesOk(cfg, n);
    LeaderFinishes(cfg, n, n, p);
    var n1 := LeaderTryToExecute(n);
    if ViewStampComp(n1.committed, n1.seen) < 0 {
      ResentPackets(cfg, n1);
    }
    var sent := MakeProgress(n).sent;
    var last := Broadcast(n1, ForceExec(n1.committed));
    assert PacketOk(cfg, last, LogOf(n1.db, cfg.view, n1.seen.reqId), n1.committed.reqId);
  }

  // ---------- the cluster ----------

  /** A follower's step keeps the cluster invariant. */
  lemma FollowerStepKeepsInv(cfg: Config, c: Cluster, i: nat, out: Outcome)
    requires Inv(cfg, c) && i < cfg.groupSize && i != cfg.leader
    requires FollowerEffect(cfg, c.nodes[i], out, i, Log(cfg, c), Mark(cfg, c))
    ensures Inv(cfg, Cluster(c.nodes[i := out.node], c.net + set p | p in out.sent))
  {
  }

  /** A leader's step keeps the cluster invariant. */
  lemma LeaderStepKeepsInv(cfg: Config, c: Cluster, out: Outcome, p: Packet)
    requires Inv(cfg, c)
    requires LeaderEffect(cfg, c.nodes[cfg.leader], out, p)
    requires p in c.net || !p.msg.AcceptAck?
    ensures Inv(cfg, Cluster(c.nodes[cfg.leader := out.node], c.net + set q | q in out.sent))
  {
    var c' := Cluster(c.nodes[cfg.leader := out.node], c.net + set q | q in out.sent);
    var n, log, mark := out.node, Log(cfg, c), Mark(cfg, c);
    var log', mark' := LogOf(n.db, cfg.view, n.seen.reqId), n.committed.reqId;
    forall i {:trigger c'.nodes[i]} | 0 <= i < |c'.nodes| && i != cfg.leader
      ensures FollowerOk(cfg, c'.nodes[i], i, log', mark')
    {
      FollowerMonotone(cfg, c.nodes[i], i, log, mark, log', mark');
    }
    forall q {:trigger q in c'.net} | q in c'.net ensures PacketOk(cfg, q, log', mark') {
      if q in c.net {
        PacketMonotone(cfg, q, log, mark, log', mark');
      }
    }
    LeaderBitsHeld(cfg, c, out, p);
  }

  lemma LeaderBitsHeld(cfg: Config, c: Cluster, out: Outcome, p: Packet)
    requires Inv(cfg, c)
    requires LeaderEffect(cfg, c.nodes[cfg.leader], out, p)
    requires p in c.net || !p.msg.AcceptAck?
    ensures BitsHeld(cfg, Cluster(c.nodes[cfg.leader := out.node], c.net + set q | q in out.sent))
  {
    var nodes', n := c.nodes[cfg.leader := out.node], out.node;
    forall k: uint32, j: nat {:trigger Bit(n.db[Key(cfg.view, k)].bitMap, j)} |
      0 < k <= n.seen.reqId && Key(cfg.view, k) in n.db && j < cfg.groupSize && Bit(n.db[Key(cfg.view, k)].bitMap, j)
      ensures Key(cfg.view, k) in nodes'[j].db
    {
      if j != cfg.leader {
        if p.msg == AcceptAck(ViewStamp(cfg.view, k)) && j == p.from {
          assert Vstol(p.msg.vs) == Key(cfg.view, k);
        } else {
          assert Bit(c.nodes[cfg.leader].db[Key(cfg.view, k)].bitMap, j);
        }
      }
    }
  }

  lemma JoinEffect(cfg: Config, n: Node, i: nat, log: seq<Data>, mark: nat)
    requires ValidConfig(cfg) && i < cfg.groupSize && i != cfg.leader
    requires FollowerOk(cfg, n, i, log, mark) && n.curView.viewId == 0
    ensures FollowerEffect(cfg, n, Outcome(JoinView(n, View(cfg.view, cfg.leader)), []), i, log, mark)
  {
  }

  lemma MarkInLog(cfg: Config, c: Cluster)
    requires Inv(cfg, c)
    ensures Mark(cfg, c) <= |Log(cfg, c)|
  {
  }

  lemma FollowerStepEffect(cfg: Config, c: Cluster, step: Step)
    requires Inv(cfg, c) && Enabled(c, step) && step.i != cfg.leader
    ensures FollowerEffect(cfg, c.nodes[step.i], OutcomeOf(cfg, c, step), step.i, Log(cfg, c), Mark(cfg, c))
  {
    hide FollowerEffect, HandleMsg, CanHandle, JoinView, AcksHeld, BitsHeld, LeaderOk;
    var i, n, log, mark := step.i, c.nodes[step.i], Log(cfg, c), Mark(cfg, c);
    MarkInLog(cfg, c);
    assert FollowerOk(cfg, n, i, log, mark);
    match step {
      case Submit(_, _, _) => FollowerSends(cfg, n, i, OutcomeOf(cfg, c, step).sent, log, mark);
      case Receive(_, p, stored, garbage) => FollowerHandles(cfg, n, i, p, stored, garbage, log, mark);
      case Progress(_) => FollowerSends(cfg, n, i, [], log, mark);
      case Join(_) => JoinEffect(cfg, n, i, log, mark);
    }
  }

  lemma LeaderStepEffect(cfg: Config, c: Cluster, step: Step, p: Packet)
    requires Inv(cfg, c) && Enabled(c, step) && step.i == cfg.leader
    requires if step.Receive? then p == step.p else !p.msg.AcceptAck?
    ensures LeaderEffect(cfg, c.nodes[cfg.leader], OutcomeOf(cfg, c, step), p)
  {
    hide LeaderEffect, HandleMsg, CanHandle, MakeProgress, CanResend, LeaderHandleSubmitReq, FollowerOk, AcksHeld, BitsHeld;
    var n := c.nodes[cfg.leader];
    match step {
      case Submit(_, data, stored) => LeaderSubmits(cfg, n, data, stored, p);
      case Receive(_, _, stored, garbage) => LeaderHandles(cfg, n, p, stored, garbage);
      case Progress(_) => LeaderProgresses(cfg, n, p);
      case Join(_) => assert false;
    }
  }

  /** Every step keeps the invariant. */
  lemma StepKeepsInv(cfg: Config, c: Cluster, step: Step)
    requires Inv(cfg, c) && Enabled(c, step)
    ensures Inv(cfg, Apply(cfg, c, step))
  {
    hide LeaderEffect, FollowerEffect, OutcomeOf, Inv;
    if step.i == cfg.leader {
      var p := if step.Receive? then step.p else Packet(0, 0, ForwardReq([]));
      LeaderStepEffect(cfg, c, step, p);
      LeaderStepKeepsInv(cfg, c, OutcomeOf(cfg, c, step), p);
    } else {
      NodeCount(cfg, c);
      FollowerStepEffect(cfg, c, step);
      FollowerStepKeepsInv(cfg, c, step.i, OutcomeOf(cfg, c, step));
    }
  }

  lemma NodeCount(cfg: Config, c: Cluster)
    requires Inv(cfg, c)
    ensures |c.nodes| == cfg.groupSize
  {
  }

  lemma InitEstablishesInv(cfg: Config, c: Cluster)
    requires ValidConfig(cfg) && Init(cfg, c)
    ensures Inv(cfg, c)
  {
    var leader := c.nodes[cfg.leader];
    assert InitNode(cfg, leader, cfg.leader);
    forall i {:trigger c.nodes[i]} | 0 <= i < |c.nodes| && i != cfg.leader
      ensures FollowerOk(cfg, c.nodes[i], i, [], 0)
    {
      assert InitNode(cfg, c.nodes[i], i);
    }
  }
}
