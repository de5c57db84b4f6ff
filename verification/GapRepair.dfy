/**
 Gap repair on a follower (src/consensus/consensus.c: try_to_execute,
 handle_missing_ack): the answers to the requests it sent bring it to its
 to-commit mark, in whatever order and however often they arrive.
 */
module GapRepair {
  import opened Basics
  import opened ViewStamps
  import opened ConsensusNode
  import opened ConsensusExec
  import opened ReplicationCluster
  import opened ReplicationInvariant

  /** One MISSING_ACK, with what its memory allocation left in the bitmap. */
  datatype Answer = Answer(vs: ViewStamp, data: Data, garbage: nat)

  predicate FromLog(cfg: Config, answers: seq<Answer>, log: seq<Data>) {
    forall a :: a in answers ==> InLog(cfg, a.vs, log) && a.data == log[a.vs.reqId - 1]
  }

  /** handle_missing_ack for each answer in turn. */
  function Receives(n: Node, answers: seq<Answer>): (r: Node)
    requires n.role.Secondary?
    ensures r.role.Secondary?
  {
    if answers == [] then n
    else
      var a := answers[|answers| - 1];
      HandleMissingAck(Receives(n, answers[..|answers| - 1]), a.vs, a.data, true, a.garbage).node
  }

  lemma {:induction false} ReceivesKeeps(
    cfg: Config, n: Node, i: nat, answers: seq<Answer>, log: seq<Data>, mark: nat)
    requires ValidConfig(cfg) && i < cfg.groupSize && i != cfg.leader && mark <= |log|
    requires FollowerOk(cfg, n, i, log, mark) && n.curView.viewId != 0 && FromLog(cfg, answers, log)
    ensures var r := Receives(n, answers);
      && FollowerOk(cfg, r, i, log, mark) && r.curView == n.curView && r.toCommit == n.toCommit
      && n.db.Keys <= r.db.Keys
      && forall a :: a in answers ==> Vstol(a.vs) in r.db
  {
    hide TryToExecute, Settled;
    FollowerExecutesOk(cfg, n, i, log, mark);
    if answers != [] {
      var front, a := answers[..|answers| - 1], answers[|answers| - 1];
      ReceivesKeeps(cfg, n, i, front, log, mark);
      var n1 := Receives(n, front);
      FollowerExecutesOk(cfg, n1, i, log, mark);
      var p := Packet(0, i, MissingAck(a.vs, a.data));
      FollowerHandles(cfg, n1, i, p, true, a.garbage, log, mark);
      AnswerIsHeld(cfg, n1, i, a, log, mark);
      forall b | b in answers ensures Vstol(b.vs) in Receives(n, answers).db {
        assert b == a || b in front;
      }
    }
  }

  lemma AnswerIsHeld(cfg: Config, n: Node, i: nat, a: Answer, log: seq<Data>, mark: nat)
    requires ValidConfig(cfg) && i < cfg.groupSize && i != cfg.leader && mark <= |log|
    requires FollowerOk(cfg, n, i, log, mark)
    requires InLog(cfg, a.vs, log) && a.data == log[a.vs.reqId - 1]
    ensures var r := HandleMissingAck(n, a.vs, a.data, true, a.garbage).node;
      Vstol(a.vs) in r.db && r.toCommit == n.toCommit && r.curView == n.curView
  {
    KeyOfStamp(cfg.view, a.vs);
    if ViewStampComp(n.committed, a.vs) < 0 && Vstol(a.vs) !in n.db {
      FollowerStores(cfg, n, i, a.vs, Record(a.data, a.garbage), log, mark);
      FollowerExecutesOk(cfg, n.(db := n.db[Vstol(a.vs) := Record(a.data, a.garbage)]), i, log, mark);
    }
  }

  /** Each request for a missing record has an answer among `answers`. */
  predicate Answered(sent: seq<Packet>, answers: seq<Answer>) {
    forall p :: p in sent ==> exists a :: a in answers && p.msg == MissingReq(a.vs)
  }

  /** Once nothing is missing up to the to-commit mark, a settled follower has delivered up to it. */
  lemma NothingMissing(cfg: Config, n: Node, i: nat, log: seq<Data>, mark: nat)
    requires FollowerOk(cfg, n, i, log, mark) && n.curView.viewId != 0 && ValidConfig(cfg)
    requires forall k: uint32 {:trigger Key(cfg.view, k)} ::
      n.committed.reqId < k <= n.toCommit.reqId ==> Key(cfg.view, k) in n.db
    ensures n.committed == n.toCommit && DeliveredLog(cfg.view, n.delivered, log, n.toCommit.reqId)
  {
  }

  /** A node that executed and then received an answer to each request it sent, in any
      order, any number of times and among other answers, has delivered everything up
      to its to-commit mark, once and in order. */
  lemma GapsAreRepaired(
    cfg: Config, n: Node, i: nat, answers: seq<Answer>, log: seq<Data>, mark: nat)
    requires ValidConfig(cfg) && i < cfg.groupSize && i != cfg.leader && mark <= |log|
    requires FollowerBase(cfg, n, i, log, mark) && n.curView.viewId != 0 && FromLog(cfg, answers, log)
    requires Answered(TryToExecute(n).sent, answers)
    ensures var r := Receives(TryToExecute(n).node, answers);
      && r.toCommit == n.toCommit && r.committed == n.toCommit
      && DeliveredLog(cfg.view, r.delivered, log, n.toCommit.reqId)
  {
    FollowerExecutesOk(cfg, n, i, log, mark);
    FollowerExecutes(n);
    var out := TryToExecute(n);
    ReceivesKeeps(cfg, out.node, i, answers, log, mark);
    var r, v, end := Receives(out.node, answers), cfg.view, n.toCommit.reqId;
    forall k: uint32 {:trigger Key(v, k)} | r.committed.reqId < k <= end ensures Key(v, k) in r.db {
      if Key(v, k) !in n.db {
        var p := AskFor(n.nodeId, ViewStamp(v, k));
        assert p in out.sent;
        var a :| a in answers && p.msg == MissingReq(a.vs);
        assert Vstol(a.vs) == Key(v, k);
      }
    }
    NothingMissing(cfg, r, i, log, mark);
  }

  // ---------- what a FORCE_EXEC brings about ----------

  /** The follower has not yet taken the leader's mark, or has no gap below it: what decides
      whether a FORCE_EXEC helps. */
  predicate NewsOrNoGap(n: Node, leader: Node) {
    n.toCommit != leader.committed || n.committed == n.toCommit
  }

  predicate Follows(cfg: Config, c: Cluster, i: nat) {
    Inv(cfg, c) && i < cfg.groupSize && i != cfg.leader && c.nodes[i].curView.viewId != 0
  }

  /** A FORCE_EXEC with the leader's committed mark makes a follower ask for every record it
      lacks up to that mark, exactly if the mark is news to it or it lacks nothing. */
  lemma ForceExecAsks(cfg: Config, c: Cluster, i: nat)
    requires Follows(cfg, c, i)
    ensures var n, leader := c.nodes[i], c.nodes[cfg.leader];
      AsksForAbsent(n.nodeId, n.db, cfg.view, n.committed.reqId, leader.committed.reqId,
                    HandleForceExec(n, cfg.leader, leader.committed).sent)
      <==> NewsOrNoGap(n, leader)
  {
    var n, leader := c.nodes[i], c.nodes[cfg.leader];
    if n.toCommit != leader.committed {
      FollowerExecutes(n.(toCommit := leader.committed));
    } else if n.committed != n.toCommit {
      var k: uint32 := n.committed.reqId + 1;
      assert Key(cfg.view, k) !in n.db;
    } else {
      assert HandleForceExec(n, cfg.leader, leader.committed).sent == [];
    }
  }

  lemma CaughtUp(cfg: Config, c: Cluster, i: nat, answers: seq<Answer>)
    requires Follows(cfg, c, i) && NewsOrNoGap(c.nodes[i], c.nodes[cfg.leader])
    requires FromLog(cfg, answers, Log(cfg, c))
    requires var n, leader := c.nodes[i], c.nodes[cfg.leader];
      Answered(HandleForceExec(n, cfg.leader, leader.committed).sent, answers)
    ensures var n, leader := c.nodes[i], c.nodes[cfg.leader];
      Receives(HandleForceExec(n, cfg.leader, leader.committed).node, answers).delivered == leader.delivered
  {
    var n, leader, log, mark := c.nodes[i], c.nodes[cfg.leader], Log(cfg, c), Mark(cfg, c);
    if n.toCommit != leader.committed {
      var n1 := n.(toCommit := leader.committed);
      assert FollowerBase(cfg, n1, i, log, mark);
      GapsAreRepaired(cfg, n1, i, answers, log, mark);
    } else {
      ReceivesKeeps(cfg, n, i, answers, log, mark);
      NothingMissing(cfg, Receives(n, answers), i, log, mark);
    }
  }

  /** A FORCE_EXEC brings a follower up to the leader, whatever answers to its requests reach it,
      exactly if the mark is news to it or it lacks nothing. Otherwise the source sends nothing,
      and the follower stays behind. */
  lemma FollowerCatchesUp(cfg: Config, c: Cluster, i: nat)
    requires Follows(cfg, c, i)
    ensures var n, leader := c.nodes[i], c.nodes[cfg.leader];
      var out := HandleForceExec(n, cfg.leader, leader.committed);
      NewsOrNoGap(n, leader) <==>
        forall answers :: FromLog(cfg, answers, Log(cfg, c)) && Answered(out.sent, answers) ==>
          Receives(out.node, answers).delivered == leader.delivered
  {
    var n, leader := c.nodes[i], c.nodes[cfg.leader];
    var out := HandleForceExec(n, cfg.leader, leader.committed);
    if NewsOrNoGap(n, leader) {
      forall answers | FromLog(cfg, answers, Log(cfg, c)) && Answered(out.sent, answers)
        ensures Receives(out.node, answers).delivered == leader.delivered
      {
        CaughtUp(cfg, c, i, answers);
      }
    } else {
      assert FromLog(cfg, [], Log(cfg, c)) && Answered(out.sent, []);
      assert Receives(out.node, []) == n;
      assert |n.delivered| < |leader.delivered|;
    }
  }
}
