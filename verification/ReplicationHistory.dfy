/**
 Where what happens in a run of a replica group comes from: delivered requests were
 submitted, submitted requests are forwarded, stored and announced, and what a
 handler does to marks and records, said of the steps of a run.
 */
module ReplicationHistory {
  import opened Basics
  import opened ViewStamps
  import opened Bitmap
  import opened ConsensusNode
  import opened ConsensusExec
  import opened ReplicationCluster
  import opened ReplicationInvariant
  import opened ReplicationSafety
  import Recovery

  // ---------- what is sent ----------

  /** Executing, a node only asks for records. */
  lemma {:induction false} LoopAsks(n: Node, index: nat, end: nat, execFlag: bool)
    requires end < WORD
    ensures forall p :: p in ExecLoop(n, index, end, execFlag).sent ==> p.msg.MissingReq?
    decreases end + 1 - index
  {
    if index <= end {
      if index in n.db {
        LoopAsks(if execFlag then DeliverNext(n, index) else n, index + 1, end, execFlag);
      } else {
        LoopAsks(n, index + 1, end, false);
      }
    }
  }

  lemma ExecutingOnlyAsks(n: Node)
    requires Ready(n)
    ensures forall p :: p in TryToExecute(n).sent ==> p.msg.MissingReq?
  {
    hide ExecLoop, LeaderReady, LeaderTryToExecute;
    if n.curView.viewId != 0 {
      var n1 := if n.role.Leader? then LeaderTryToExecute(n) else n;
      LoopAsks(n1, Vstol(n1.committed) + 1, Vstol(n1.toCommit), true);
      var bound := CrossView(n1.committed);
      LoopAsks(n1, Vstol(n1.committed) + 1, Vstol(BoundaryAt(n1, Vstol(bound))), true);
    }
  }

  lemma {:induction false} ResendingOnlyAnnounces(n: Node, index: nat, end: nat)
    requires end < WORD && forall key :: index <= key <= end ==> key in n.db
    ensures forall p :: p in ResendLoop(n, index, end) ==> p.msg.AcceptReq?
    decreases end + 1 - index
  {
    hide ReachedQuorum, Ltovs;
    if index <= end {
      ResendingOnlyAnnounces(n, index + 1, end);
    }
  }

  /** No message makes a node forward anything. */
  lemma HandlersForwardNothing(n: Node, p: Packet, stored: bool, garbage: nat)
    requires CanHandle(n, p, stored, garbage)
    ensures forall q :: q in HandleMsg(n, p, stored, garbage).sent ==> !q.msg.ForwardReq?
  {
    hide TryToExecute, Ready;
    match p.msg {
      case AcceptReq(vs, canBeExed, data) => ExecutingOnlyAsks(WithAccepted(n, p.from, vs, canBeExed, data, stored, garbage));
      case AcceptAck(vs) => ExecutingOnlyAsks(WithAck(n, p.from, vs, stored));
      case MissingReq(_) =>
      case MissingAck(vs, data) =>
        if !IgnoresMissingAck(n, vs) {
          ExecutingOnlyAsks(WithAnswer(n, vs, data, stored, garbage));
        }
      case ForceExec(vs) =>
        if !IgnoresForceExec(n, p.from, vs) {
          ExecutingOnlyAsks(n.(toCommit := vs));
        }
      case ForwardReq(data) =>
        if n.role.Leader? {
          LeaderForwardsNothing(n, data, stored);
        }
    }
  }

  lemma LeaderForwardsNothing(n: Node, data: Data, stored: bool)
    requires CanSubmit(n, data, stored) && n.role.Leader?
    ensures forall q :: q in LeaderHandleSubmitReq(n, data, stored).sent ==> !q.msg.ForwardReq?
  {
    hide TryToExecute, Ready;
    if stored && n.groupSize <= 1 {
      ExecutingOnlyAsks(WithRequest(n, data));
    }
  }

  /** A node forwards only what its own user asks for. */
  lemma StepForwards(cfg: Config, c: Cluster, step: Step, p: Packet)
    requires Enabled(c, step) && p in OutcomeOf(cfg, c, step).sent && p.msg.ForwardReq?
    ensures step.Submit? && p.msg.data == step.data && p.from == c.nodes[step.i].nodeId
  {
    hide HandleMsg, LeaderHandleSubmitReq, CanHandle, CanSubmit, LeaderTryToExecute, ResendLoop;
    var n := c.nodes[step.i];
    match step {
      case Submit(_, data, stored) =>
        if n.role.Leader? {
          LeaderForwardsNothing(n, data, stored);
        }
      case Receive(_, q, stored, garbage) => HandlersForwardNothing(n, q, stored, garbage);
      case Progress(_) =>
        if n.role.Leader? {
          var n1 := LeaderTryToExecute(n);
          if Resends(n1) {
            ResendingOnlyAnnounces(n1, Vstol(ResendStart(n1)), Vstol(n1.seen));
          }
        }
      case Join(_) =>
    }
  }

  // ---------- validity ----------

  /** Before step t, the user of node i has submitted `data`. */
  predicate Submitted(steps: seq<Step>, t: nat, i: nat, data: Data) {
    exists u :: 0 <= u < t && u < |steps| && steps[u].Submit? && steps[u].i == i && steps[u].data == data
  }

  lemma SubmittedStays(steps: seq<Step>, t: nat, u: nat, i: nat, data: Data)
    requires t <= u && Submitted(steps, t, i, data)
    ensures Submitted(steps, u, i, data)
  {
  }

  lemma NodeIds(cfg: Config, c: Cluster, i: nat)
    requires Inv(cfg, c) && i < |c.nodes|
    ensures |c.nodes| == cfg.groupSize && c.nodes[i].nodeId == i
  {
  }

  /** Every forwarded request in flight was submitted to the node that sent it. */
  lemma {:induction false} ForwardedWasSubmitted(cfg: Config, states: seq<Cluster>, steps: seq<Step>, t: nat, p: Packet)
    requires Execution(cfg, states, steps) && t < |states| && p in states[t].net && p.msg.ForwardReq?
    ensures Submitted(steps, t, p.from, p.msg.data)
  {
    hide Enabled, OutcomeOf, Inv, Submitted;
    if t > 0 {
      var c, step := states[t - 1], steps[t - 1];
      assert states[t] == Apply(cfg, c, step);
      if p in c.net {
        ForwardedWasSubmitted(cfg, states, steps, t - 1, p);
        SubmittedStays(steps, t - 1, t, p.from, p.msg.data);
      } else {
        ExecutionKeepsInv(cfg, states, steps, t - 1);
        StepForwards(cfg, c, step, p);
        StepNode(cfg, c, step);
        SubmitAt(steps, t - 1);
      }
    }
  }

  lemma StepNode(cfg: Config, c: Cluster, step: Step)
    requires Inv(cfg, c) && Enabled(c, step)
    ensures step.i < |c.nodes| && c.nodes[step.i].nodeId == step.i
  {
    hide Inv;
    NodeIds(cfg, c, step.i);
  }

  lemma SubmitAt(steps: seq<Step>, t: nat)
    requires t < |steps| && steps[t].Submit?
    ensures Submitted(steps, t + 1, steps[t].i, steps[t].data)
  {
  }

  /** Every entry of the log was submitted to some node. */
  lemma {:induction false} LogWasSubmitted(cfg: Config, states: seq<Cluster>, steps: seq<Step>, t: nat, k: nat)
    requires Execution(cfg, states, steps) && t < |states|
    ensures Inv(cfg, states[t])
    ensures k < |Log(cfg, states[t])| ==> exists i :: Submitted(steps, t, i, Log(cfg, states[t])[k])
  {
    hide Enabled, Apply, Inv, Submitted;
    LogIsWhatWasAccepted(cfg, states, steps, t);
    if t > 0 {
      var c, step := states[t - 1], steps[t - 1];
      assert states[t] == Apply(cfg, c, step);
      LogWasSubmitted(cfg, states, steps, t - 1, k);
      StepRefinesLog(cfg, c, step);
      if k < |Log(cfg, c)| {
        var i :| Submitted(steps, t - 1, i, Log(cfg, c)[k]);
        SubmittedStays(steps, t - 1, t, i, Log(cfg, c)[k]);
        assert Submitted(steps, t, i, Log(cfg, states[t])[k]);
      } else if k < |Log(cfg, states[t])| {
        var i := AppendedWasSubmitted(cfg, states, steps, t - 1);
        assert Submitted(steps, t, i, Log(cfg, states[t])[k]);
      }
    } else {
      EmptyLog(cfg, states[0]);
    }
  }

  lemma EmptyLog(cfg: Config, c: Cluster)
    requires Init(cfg, c) && Inv(cfg, c)
    ensures Log(cfg, c) == []
  {
    assert InitNode(cfg, c.nodes[cfg.leader], cfg.leader);
  }

  lemma AppendedWasSubmitted(cfg: Config, states: seq<Cluster>, steps: seq<Step>, t: nat) returns (i: nat)
    requires Execution(cfg, states, steps) && t < |steps| && Appended(cfg, steps[t]) != []
    ensures Submitted(steps, t + 1, i, Appended(cfg, steps[t])[0])
  {
    hide Inv, Submitted, Apply;
    var step := steps[t];
    i := step.i;
    if step.Submit? {
      SubmitAt(steps, t);
    } else {
      i := step.p.from;
      ForwardedWasSubmitted(cfg, states, steps, t, step.p);
      SubmittedStays(steps, t, t + 1, step.p.from, step.p.msg.data);
    }
  }

  /** Whatever a node hands to its user, some user submitted. */
  lemma DeliveredWasSubmitted(cfg: Config, states: seq<Cluster>, steps: seq<Step>, t: nat, i: nat, k: nat)
    requires Execution(cfg, states, steps) && t < |states| && i < cfg.groupSize
    ensures |states[t].nodes| == cfg.groupSize
    ensures k < |states[t].nodes[i].delivered| ==> exists j :: Submitted(steps, t, j, states[t].nodes[i].delivered[k].data)
  {
    hide Inv, Submitted, Execution;
    LogIsWhatWasAccepted(cfg, states, steps, t);
    DeliveredIsLogPrefix(cfg, states, steps, t, i);
    LogWasSubmitted(cfg, states, steps, t, k);
  }

  // ---------- what becomes of a submitted request ----------

  /** A follower in the view sends its user's request on to the leader, as it is. */
  lemma SubmitIsForwarded(cfg: Config, states: seq<Cluster>, steps: seq<Step>, t: nat)
    requires Execution(cfg, states, steps) && t < |steps| && steps[t].Submit? && steps[t].i != cfg.leader
    ensures |states[t].nodes| == cfg.groupSize && steps[t].i < cfg.groupSize
    ensures states[t].nodes[steps[t].i].curView.viewId != 0 ==>
      Packet(steps[t].i, cfg.leader, ForwardReq(steps[t].data)) in states[t + 1].net
  {
    hide LeaderHandleSubmitReq;
    ExecutionKeepsInv(cfg, states, steps, t);
    var c, step := states[t], steps[t];
    assert states[t + 1] == Apply(cfg, c, step);
    assert FollowerOk(cfg, c.nodes[step.i], step.i, Log(cfg, c), Mark(cfg, c));
  }

  /** The request a step brings to the leader: its own user's, or one that was forwarded to it. */
  function Request(cfg: Config, step: Step): Option<Data> {
    if step.i != cfg.leader then None
    else match step
         case Submit(_, data, _) => Some(data)
         case Receive(_, Packet(_, _, ForwardReq(data)), _, _) => Some(data)
         case _ => None
  }

  /** The leader appends a request it can store, with the next number, and in a group of more than one tells every
      other node of it and of its committed mark at once; if it cannot store it, nothing changes and nothing is sent. */
  lemma RequestIsAccepted(cfg: Config, states: seq<Cluster>, steps: seq<Step>, t: nat, data: Data)
    requires Execution(cfg, states, steps) && t < |steps| && Request(cfg, steps[t]) == Some(data)
    ensures Inv(cfg, states[t]) && Inv(cfg, states[t + 1])
    ensures var log, k := Log(cfg, states[t]), |Log(cfg, states[t])| + 1;
      if steps[t].stored then
        && Log(cfg, states[t + 1]) == log + [data]
        && (cfg.groupSize > 1 ==> k < TWO_32 && Packet(cfg.leader, EVERYBODY,
              AcceptReq(ViewStamp(cfg.view, k), ViewStamp(cfg.view, Mark(cfg, states[t])), data)) in states[t + 1].net)
      else states[t + 1].nodes == states[t].nodes && states[t + 1].net == states[t].net
  {
    hide Inv, LeaderOk, LeaderHandleSubmitReq;
    ExecutionKeepsInv(cfg, states, steps, t);
    ExecutionKeepsInv(cfg, states, steps, t + 1);
    var c, step := states[t], steps[t];
    assert states[t + 1] == Apply(cfg, c, step);
    LeaderKnows(cfg, c);
    LeaderTakes(cfg, c.nodes[cfg.leader], data, step.stored);
    StepRefinesLog(cfg, c, step);
  }

  lemma LeaderKnows(cfg: Config, c: Cluster)
    requires Inv(cfg, c)
    ensures ValidConfig(cfg) && |c.nodes| == cfg.groupSize
    ensures var n := c.nodes[cfg.leader];
      && LeaderOk(cfg, n) && n.role.Leader? && n.nodeId == cfg.leader && n.groupSize == cfg.groupSize
      && n.seen == ViewStamp(cfg.view, |Log(cfg, c)|) && n.committed == n.toCommit == ViewStamp(cfg.view, Mark(cfg, c))
  {
  }

  lemma LeaderTakes(cfg: Config, n: Node, data: Data, stored: bool)
    requires ValidConfig(cfg) && LeaderOk(cfg, n) && StampLeft(n) && CanSubmit(n, data, stored)
    ensures !stored ==> LeaderHandleSubmitReq(n, data, stored) == Outcome(n, [])
    ensures stored && cfg.groupSize > 1 ==>
      var announce := Packet(cfg.leader, EVERYBODY, AcceptReq(ViewStamp(cfg.view, n.seen.reqId + 1), n.committed, data));
      LeaderHandleSubmitReq(n, data, stored).sent == [announce]
  {
    hide TryToExecute, Ready;
  }

  // ---------- what a message does to marks and records ----------

  function Max(a: nat, b: nat): nat {
    if a < b then b else a
  }

  /** Nothing has been acknowledged that was not before. */
  predicate NoNewAck(net: set<Packet>, net': set<Packet>) {
    forall p :: p in net' && p.msg.AcceptAck? ==> p in net
  }

  /** A follower in the view takes the stamp and the mark of an ACCEPT_REQ for a record it has not committed, stores
      the record, and acknowledges it exactly if it could be stored; one it has committed it leaves alone. */
  lemma AcceptIsTaken(cfg: Config, states: seq<Cluster>, steps: seq<Step>, t: nat)
    requires Execution(cfg, states, steps) && t < |steps| && steps[t].Receive? && steps[t].p.msg.AcceptReq?
    requires |states[t].nodes| == cfg.groupSize && steps[t].i < cfg.groupSize && states[t].nodes[steps[t].i].curView.viewId != 0
    ensures |states[t + 1].nodes| == cfg.groupSize && steps[t].i != cfg.leader
    ensures var i, stored, msg := steps[t].i, steps[t].stored, steps[t].p.msg;
      var n, n' := states[t].nodes[i], states[t + 1].nodes[i];
      if msg.vs.reqId <= n.committed.reqId then n' == n && NoNewAck(states[t].net, states[t + 1].net)
      else
        && n'.seen.reqId == Max(n.seen.reqId, msg.vs.reqId)
        && n'.toCommit.reqId == Max(n.toCommit.reqId, msg.canBeExed.reqId)
        && n'.db == (if stored then n.db[Key(cfg.view, msg.vs.reqId) := Record(msg.data, steps[t].garbage)] else n.db)
        && if stored then Packet(i, cfg.leader, AcceptAck(msg.vs)) in states[t + 1].net
           else NoNewAck(states[t].net, states[t + 1].net)
  {
    hide Inv, FollowerOk, HandleMsg, CanHandle;
    ExecutionKeepsInv(cfg, states, steps, t);
    var c, step := states[t], steps[t];
    assert states[t + 1] == Apply(cfg, c, step);
    FollowerKnows(cfg, c, step);
    FollowerTakesAccept(cfg, c.nodes[step.i], step.i, step.p, step.stored, step.garbage, Log(cfg, c), Mark(cfg, c));
  }

  lemma FollowerKnows(cfg: Config, c: Cluster, step: Step)
    requires Inv(cfg, c) && Enabled(c, step) && step.Receive?
    ensures ValidConfig(cfg) && |c.nodes| == cfg.groupSize && Mark(cfg, c) <= |Log(cfg, c)|
    ensures PacketOk(cfg, step.p, Log(cfg, c), Mark(cfg, c))
    ensures step.p.msg.AcceptReq? || step.p.msg.ForceExec? ==> step.i != cfg.leader
    ensures step.i != cfg.leader ==> FollowerOk(cfg, c.nodes[step.i], step.i, Log(cfg, c), Mark(cfg, c))
  {
  }

  /** A follower that has nothing new to execute stays as it is. */
  lemma SettledStays(cfg: Config, n: Node, i: nat, log: seq<Data>, mark: nat)
    requires FollowerOk(cfg, n, i, log, mark) && n.curView.viewId != 0
    ensures Ready(n) && TryToExecute(n).node == n
  {
    FollowerExecutes(n);
  }

  lemma FollowerTakesAccept(
    cfg: Config, n: Node, i: nat, p: Packet, stored: bool, garbage: nat, log: seq<Data>, mark: nat)
    requires ValidConfig(cfg) && i != cfg.leader && FollowerOk(cfg, n, i, log, mark) && n.curView.viewId != 0
    requires p.msg.AcceptReq? && PacketOk(cfg, p, log, mark) && CanHandle(n, p, stored, garbage)
    ensures var vs, out := p.msg.vs, HandleMsg(n, p, stored, garbage);
      if vs.reqId <= n.committed.reqId then out.node == n && forall q :: q in out.sent ==> !q.msg.AcceptAck?
      else
        && out.node.seen.reqId == Max(n.seen.reqId, vs.reqId)
        && out.node.toCommit.reqId == Max(n.toCommit.reqId, p.msg.canBeExed.reqId)
        && out.node.db == (if stored then n.db[Key(cfg.view, vs.reqId) := Record(p.msg.data, garbage)] else n.db)
        && if stored then Packet(i, cfg.leader, AcceptAck(vs)) in out.sent
           else forall q :: q in out.sent ==> !q.msg.AcceptAck?
  {
    hide TryToExecute, Ready, DeliveredLog;
    var msg := p.msg;
    var n1 := WithAccepted(n, p.from, msg.vs, msg.canBeExed, msg.data, stored, garbage);
    ExecutingOnlyAsks(n1);
    assert Vstol(msg.vs) == Key(cfg.view, msg.vs.reqId);
    if msg.vs.reqId <= n.committed.reqId {
      SettledStays(cfg, n, i, log, mark);
    } else {
      MarksAfter(n1);
      if stored {
        assert HandleMsg(n, p, stored, garbage).sent[0] == Packet(i, cfg.leader, AcceptAck(msg.vs));
      }
    }
  }

  /** On a follower, executing leaves the two other marks and the records. */
  lemma MarksAfter(n: Node)
    requires Ready(n) && n.role.Secondary?
    ensures TryToExecute(n).node.seen == n.seen && TryToExecute(n).node.toCommit == n.toCommit
    ensures TryToExecute(n).node.db == n.db
  {
    hide ExecLoop;
  }

  /** A follower in the view takes the mark of a FORCE_EXEC if it is higher than its own, and nothing else. */
  lemma ForceIsTaken(cfg: Config, states: seq<Cluster>, steps: seq<Step>, t: nat)
    requires Execution(cfg, states, steps) && t < |steps| && steps[t].Receive? && steps[t].p.msg.ForceExec?
    requires |states[t].nodes| == cfg.groupSize && steps[t].i < cfg.groupSize && states[t].nodes[steps[t].i].curView.viewId != 0
    ensures |states[t + 1].nodes| == cfg.groupSize && steps[t].i != cfg.leader
    ensures var n, n' := states[t].nodes[steps[t].i], states[t + 1].nodes[steps[t].i];
      n'.toCommit.reqId == Max(n.toCommit.reqId, steps[t].p.msg.vs.reqId) && n'.seen == n.seen && n'.db == n.db
  {
    hide Inv, FollowerOk, CanHandle;
    ExecutionKeepsInv(cfg, states, steps, t);
    var c, step := states[t], steps[t];
    assert states[t + 1] == Apply(cfg, c, step);
    FollowerKnows(cfg, c, step);
    FollowerTakesMark(cfg, c.nodes[step.i], step.i, step.p, step.stored, step.garbage, Log(cfg, c), Mark(cfg, c));
  }

  lemma FollowerTakesMark(
    cfg: Config, n: Node, i: nat, p: Packet, stored: bool, garbage: nat, log: seq<Data>, mark: nat)
    requires ValidConfig(cfg) && i != cfg.leader && FollowerOk(cfg, n, i, log, mark) && n.curView.viewId != 0
    requires p.msg.ForceExec? && PacketOk(cfg, p, log, mark) && CanHandle(n, p, stored, garbage)
    ensures var n' := HandleMsg(n, p, stored, garbage).node;
      n'.toCommit.reqId == Max(n.toCommit.reqId, p.msg.vs.reqId) && n'.seen == n.seen && n'.db == n.db
  {
    hide TryToExecute, Ready, DeliveredLog;
    if !IgnoresForceExec(n, p.from, p.msg.vs) {
      MarksAfter(n.(toCommit := p.msg.vs));
    }
  }

  /** The record a message is about, and the databases before and after it was handled. */
  predicate StoresAnswer(v: nat, n: Node, n': Node, msg: Msg, stored: bool, garbage: nat)
    requires msg.MissingAck?
  {
    var key := Key(v, msg.vs.reqId);
    n'.db == if stored && n.committed.reqId < msg.vs.reqId && key !in n.db then n.db[key := Record(msg.data, garbage)] else n.db
  }

  /** An answer is stored by a node that lacks the record and has not committed it; it changes no record. */
  lemma AnswerIsTaken(cfg: Config, states: seq<Cluster>, steps: seq<Step>, t: nat)
    requires Execution(cfg, states, steps) && t < |steps| && steps[t].Receive? && steps[t].p.msg.MissingAck?
    ensures |states[t].nodes| == |states[t + 1].nodes| == cfg.groupSize && steps[t].i < cfg.groupSize
    ensures var n, n' := states[t].nodes[steps[t].i], states[t + 1].nodes[steps[t].i];
      n'.seen == n.seen && StoresAnswer(cfg.view, n, n', steps[t].p.msg, steps[t].stored, steps[t].garbage)
  {
    hide Inv, FollowerOk, LeaderOk;
    ExecutionKeepsInv(cfg, states, steps, t);
    var c, step := states[t], steps[t];
    assert states[t + 1] == Apply(cfg, c, step);
    FollowerKnows(cfg, c, step);
    InTheView(cfg, c, step.i);
    NodeStoresAnswer(cfg, c.nodes[step.i], step.p, step.stored, step.garbage);
  }

  lemma InTheView(cfg: Config, c: Cluster, i: nat)
    requires Inv(cfg, c) && i < |c.nodes|
    ensures var n := c.nodes[i]; n.seen.viewId == n.toCommit.viewId == n.committed.viewId == cfg.view
  {
  }

  lemma NodeStoresAnswer(cfg: Config, n: Node, p: Packet, stored: bool, garbage: nat)
    requires p.msg.MissingAck? && CanHandle(n, p, stored, garbage) && n.committed.viewId == p.msg.vs.viewId == cfg.view
    ensures var n' := HandleMsg(n, p, stored, garbage).node;
      n'.seen == n.seen && StoresAnswer(cfg.view, n, n', p.msg, stored, garbage)
  {
    hide TryToExecute, Ready;
    assert Vstol(p.msg.vs) == Key(cfg.view, p.msg.vs.reqId);
  }

  /** A held record is sent to whom asks for it, and to nobody else; nothing is sent of an absent one. */
  lemma QuestionIsAnswered(cfg: Config, states: seq<Cluster>, steps: seq<Step>, t: nat)
    requires Execution(cfg, states, steps) && t < |steps| && steps[t].Receive? && steps[t].p.msg.MissingReq?
    ensures |states[t].nodes| == cfg.groupSize && steps[t].i < cfg.groupSize && states[t + 1].nodes == states[t].nodes
    ensures var n, vs, key := states[t].nodes[steps[t].i], steps[t].p.msg.vs, Key(cfg.view, steps[t].p.msg.vs.reqId);
      states[t + 1].net == states[t].net +
        if key in n.db then {Packet(steps[t].i, steps[t].p.from, MissingAck(vs, n.db[key].data))} else {}
  {
    hide Inv, FollowerOk, LeaderOk;
    ExecutionKeepsInv(cfg, states, steps, t);
    var c, step := states[t], steps[t];
    assert states[t + 1] == Apply(cfg, c, step);
    FollowerKnows(cfg, c, step);
    NodeIds(cfg, c, step.i);
    assert Vstol(step.p.msg.vs) == Key(cfg.view, step.p.msg.vs.reqId);
    assert c.nodes[step.i := c.nodes[step.i]] == c.nodes;
  }

  /** An acknowledgement adds its sender to the nodes recorded with its record, on the leader, for a record not yet
      committed, if that can be stored; it changes no other record, and nothing on a follower. */
  lemma AckIsTaken(cfg: Config, states: seq<Cluster>, steps: seq<Step>, t: nat)
    requires Execution(cfg, states, steps) && t < |steps| && steps[t].Receive? && steps[t].p.msg.AcceptAck?
    ensures |states[t].nodes| == |states[t + 1].nodes| == cfg.groupSize && steps[t].i < cfg.groupSize
    ensures var n, n', vs := states[t].nodes[steps[t].i], states[t + 1].nodes[steps[t].i], steps[t].p.msg.vs;
      var key := Key(cfg.view, vs.reqId);
      if steps[t].i == cfg.leader && n.committed.reqId < vs.reqId && steps[t].stored then
        && key in n.db && n'.db == n.db[key := n'.db[key]] && n'.db[key].data == n.db[key].data
        && Members(n'.db[key].bitMap, cfg.groupSize) == Members(n.db[key].bitMap, cfg.groupSize) + {steps[t].p.from}
      else n'.db == n.db
  {
    hide Inv, FollowerOk, LeaderOk, CanHandle, HandleMsg;
    ExecutionKeepsInv(cfg, states, steps, t);
    var c, step := states[t], steps[t];
    assert states[t + 1] == Apply(cfg, c, step);
    FollowerKnows(cfg, c, step);
    if step.i == cfg.leader {
      LeaderKnows(cfg, c);
      LeaderTakesAck(cfg, c.nodes[step.i], step.p, step.stored, step.garbage);
    } else {
      FollowerTakesNoAck(cfg, c.nodes[step.i], step.i, step.p, step.stored, step.garbage, Log(cfg, c), Mark(cfg, c));
    }
  }

  lemma LeaderTakesAck(cfg: Config, n: Node, p: Packet, stored: bool, garbage: nat)
    requires ValidConfig(cfg) && LeaderOk(cfg, n) && p.msg.AcceptAck? && CanHandle(n, p, stored, garbage)
    requires PacketOk(cfg, p, LogOf(n.db, cfg.view, n.seen.reqId), n.committed.reqId)
    ensures var n', key := HandleMsg(n, p, stored, garbage).node, Key(cfg.view, p.msg.vs.reqId);
      if n.committed.reqId < p.msg.vs.reqId && stored then
        && key in n.db && n'.db == n.db[key := n'.db[key]] && n'.db[key].data == n.db[key].data
        && Members(n'.db[key].bitMap, cfg.groupSize) == Members(n.db[key].bitMap, cfg.groupSize) + {p.from}
      else n'.db == n.db
  {
    hide TryToExecute, Ready, Members, LogOf, DeliveredLog;
    var key := Key(cfg.view, p.msg.vs.reqId);
    assert Vstol(p.msg.vs) == key;
    if n.committed.reqId < p.msg.vs.reqId && stored {
      UpdateRecordMembers(n.db[key].bitMap, p.from, cfg.groupSize);
    }
  }

  lemma FollowerTakesNoAck(
    cfg: Config, n: Node, i: nat, p: Packet, stored: bool, garbage: nat, log: seq<Data>, mark: nat)
    requires FollowerOk(cfg, n, i, log, mark) && p.msg.AcceptAck? && CanHandle(n, p, stored, garbage)
    ensures HandleMsg(n, p, stored, garbage).node.db == n.db
  {
    hide TryToExecute;
  }

  // ---------- committed records ----------

  /** No handler touches a record up to the committed mark. */
  lemma HandlersKeepCommitted(cfg: Config, n: Node, p: Packet, stored: bool, garbage: nat, key: nat)
    requires CanHandle(n, p, stored, garbage) && OneView(n) && n.seen.viewId == cfg.view
    requires p.msg.AcceptReq? || p.msg.AcceptAck? || p.msg.MissingAck? ==> p.msg.vs.viewId == cfg.view
    requires p.msg.ForwardReq? ==> StampLeft(n)
    requires key in n.db && key <= Vstol(n.committed) && (n.role.Leader? ==> Vstol(n.committed) <= Vstol(n.seen))
    ensures var n' := HandleMsg(n, p, stored, garbage).node; key in n'.db && n'.db[key] == n.db[key]
  {
    hide TryToExecute, Ready;
    CompareInView(n, p);
  }

  lemma CompareInView(n: Node, p: Packet)
    requires p.msg.AcceptReq? || p.msg.AcceptAck? || p.msg.MissingAck? ==> p.msg.vs.viewId == n.committed.viewId
    ensures p.msg.AcceptReq? || p.msg.AcceptAck? || p.msg.MissingAck? ==>
      (ViewStampComp(p.msg.vs, n.committed) <= 0 <==> Vstol(p.msg.vs) <= Vstol(n.committed))
    ensures p.msg.MissingAck? ==> (ViewStampComp(n.committed, p.msg.vs) >= 0 <==> Vstol(p.msg.vs) <= Vstol(n.committed))
    ensures StampLeft(n) ==> Vstol(Inc(n.seen)) == Vstol(n.seen) + 1
  {
  }

  lemma StepKeepsCommitted(cfg: Config, c: Cluster, step: Step, key: nat)
    requires Inv(cfg, c) && Enabled(c, step)
    requires key in c.nodes[step.i].db && key <= Vstol(c.nodes[step.i].committed)
    ensures var n' := Apply(cfg, c, step).nodes[step.i]; key in n'.db && n'.db[key] == c.nodes[step.i].db[key]
  {
    hide Inv, HandleMsg, CanHandle, TryToExecute, Ready, LeaderTryToExecute;
    var n := c.nodes[step.i];
    InTheView(cfg, c, step.i);
    LeaderCommittedSeen(cfg, c, step.i);
    CompareInView(n, Packet(0, 0, ForwardReq([])));
    match step {
      case Submit(_, _, _) =>
      case Receive(_, p, stored, garbage) =>
        FollowerKnows(cfg, c, step);
        HandlersKeepCommitted(cfg, n, p, stored, garbage, key);
      case Progress(_) =>
      case Join(_) =>
    }
  }

  lemma LeaderCommittedSeen(cfg: Config, c: Cluster, i: nat)
    requires Inv(cfg, c) && i < |c.nodes|
    ensures c.nodes[i].role.Leader? ==> Vstol(c.nodes[i].committed) <= Vstol(c.nodes[i].seen)
  {
  }

  /** What a node has handed to its user it keeps, record and bitmap, unchanged for ever. */
  lemma {:induction false} DeliveredIsFinal(
    cfg: Config, states: seq<Cluster>, steps: seq<Step>, t: nat, u: nat, i: nat, k: nat)
    requires Execution(cfg, states, steps) && t <= u < |states| && i < cfg.groupSize
    ensures |states[t].nodes| == |states[u].nodes| == cfg.groupSize
    ensures var n, n', key := states[t].nodes[i], states[u].nodes[i], Key(cfg.view, k);
      0 < k <= |n.delivered| ==> key in n.db && key in n'.db && n'.db[key] == n.db[key]
    decreases u - t
  {
    hide Inv, Apply;
    var key := Key(cfg.view, k);
    ExecutionKeepsInv(cfg, states, steps, t);
    DeliveredIsHeld(cfg, states[t], i, k);
    if t < u {
      DeliveredIsFinal(cfg, states, steps, t, u - 1, i, k);
      ExecutionKeepsInv(cfg, states, steps, u - 1);
      DeliveredOnlyGrows(cfg, states, steps, t, u - 1, i);
      DeliveredIsHeld(cfg, states[u - 1], i, k);
      var c, step := states[u - 1], steps[u - 1];
      assert states[u] == Apply(cfg, c, step);
      OthersStay(cfg, c, step, i);
      if step.i == i && 0 < k <= |states[t].nodes[i].delivered| {
        StepKeepsCommitted(cfg, c, step, key);
      }
    }
  }

  lemma OthersStay(cfg: Config, c: Cluster, step: Step, i: nat)
    requires Enabled(c, step) && i < |c.nodes|
    ensures |Apply(cfg, c, step).nodes| == |c.nodes|
    ensures i != step.i ==> Apply(cfg, c, step).nodes[i] == c.nodes[i]
  {
    hide OutcomeOf;
  }

  lemma DeliveredIsHeld(cfg: Config, c: Cluster, i: nat, k: nat)
    requires Inv(cfg, c) && i < cfg.groupSize
    ensures |c.nodes| == cfg.groupSize
    ensures var n := c.nodes[i];
      0 < k <= |n.delivered| ==> Key(cfg.view, k) in n.db && Key(cfg.view, k) <= Vstol(n.committed)
  {
    var n := c.nodes[i];
    if 0 < k <= |n.delivered| {
      var q: uint32 := k;
      assert Key(cfg.view, q) in n.db;
    }
  }

  // ---------- what the timer sends again ----------

  /** The announcement of request k as the leader repeats it. */
  function Again(n: Node, v: uint32, k: uint32): Packet
    requires Key(v, k) in n.db
  {
    Packet(n.nodeId, EVERYBODY, AcceptReq(ViewStamp(v, k), n.toCommit, n.db[Key(v, k)].data))
  }

  /** Request k is one of lo+1..end that no majority is recorded to hold. */
  predicate Open(n: Node, v: uint32, lo: nat, end: nat, k: uint32) {
    lo < k <= end && Key(v, k) in n.db && !MajorityHolds(n.db, n.groupSize, Key(v, k))
  }

  lemma {:induction false} ResendsOpen(n: Node, v: uint32, lo: nat, end: nat, p: Packet)
    requires lo <= end < TWO_32
    requires forall key :: Key(v, lo + 1) <= key <= Key(v, end) ==> key in n.db
    ensures p in ResendLoop(n, Key(v, lo + 1), Key(v, end)) <==> exists k :: Open(n, v, lo, end, k) && p == Again(n, v, k)
    decreases end - lo
  {
    hide ResendLoop, MajorityHolds, ReachedQuorum, Ltovs;
    var key := Key(v, lo + 1);
    if lo < end {
      var k1: uint32 := lo + 1;
      ResendTurn(n, key, Key(v, end), p);
      KeyRoundTrip(ViewStamp(v, k1), 0);
      QuorumIsOpen(n, v, lo, end, k1);
      assert Key(v, lo + 2) == key + 1;
      ResendsOpen(n, v, lo + 1, end, p);
      forall k ensures Open(n, v, lo, end, k) <==> Open(n, v, lo + 1, end, k) || (k == k1 && Open(n, v, lo, end, k1)) {
      }
    } else {
      ResendEnds(n, key, Key(v, end));
    }
  }

  lemma QuorumIsOpen(n: Node, v: uint32, lo: nat, end: nat, k: uint32)
    requires lo < k <= end && Key(v, k) in n.db
    ensures Open(n, v, lo, end, k) <==> !ReachedQuorum(n.db[Key(v, k)].bitMap, n.groupSize)
  {
    hide ReachedQuorum, Recorded;
    QuorumIsMajority(n.db[Key(v, k)].bitMap, n.groupSize);
  }

  lemma ResendTurn(n: Node, index: nat, end: nat, p: Packet)
    requires index <= end < WORD && forall key :: index <= key <= end ==> key in n.db
    ensures p in ResendLoop(n, index, end) <==>
      || p in ResendLoop(n, index + 1, end)
      || (!ReachedQuorum(n.db[index].bitMap, n.groupSize)
          && p == Packet(n.nodeId, EVERYBODY, AcceptReq(Ltovs(index), n.toCommit, n.db[index].data)))
  {
    hide ReachedQuorum, Ltovs;
  }

  /** The leader's timer changes no node. It sends again every request behind the committed mark that no majority is
      recorded to hold, with the accepted data and the committed mark, then that mark itself, and nothing else. */
  lemma ProgressIsMade(cfg: Config, states: seq<Cluster>, steps: seq<Step>, t: nat, p: Packet)
    requires Execution(cfg, states, steps) && t < |steps| && steps[t] == Progress(cfg.leader)
    ensures Inv(cfg, states[t]) && |states[t].nodes| == cfg.groupSize && states[t + 1].nodes == states[t].nodes
    ensures var n := states[t].nodes[cfg.leader];
      p in states[t + 1].net <==>
      || p in states[t].net
      || p == Packet(cfg.leader, EVERYBODY, ForceExec(n.committed))
      || exists k :: Open(n, cfg.view, n.committed.reqId, n.seen.reqId, k) && p == Again(n, cfg.view, k)
  {
    hide Inv, LeaderOk, CanResend, MakeProgress, Open;
    ExecutionKeepsInv(cfg, states, steps, t);
    var c := states[t];
    assert states[t + 1] == Apply(cfg, c, steps[t]);
    LeaderKnows(cfg, c);
    ProgressOfLeader(cfg, c.nodes[cfg.leader], p);
    assert c.nodes[cfg.leader := c.nodes[cfg.leader]] == c.nodes;
  }

  lemma ProgressOfLeader(cfg: Config, n: Node, p: Packet)
    requires ValidConfig(cfg) && LeaderOk(cfg, n) && CanResend(n)
    requires n.nodeId == cfg.leader && n.seen.viewId == cfg.view && n.committed == n.toCommit
    ensures MakeProgress(n).node == n
    ensures p in MakeProgress(n).sent <==>
      || p == Packet(cfg.leader, EVERYBODY, ForceExec(n.committed))
      || exists k :: Open(n, cfg.view, n.committed.reqId, n.seen.reqId, k) && p == Again(n, cfg.view, k)
  {
    hide LeaderTryToExecute, ResendLoop, ReachedQuorum, LeaderReady, LogOf, DeliveredLog, MajorityHolds;
    Recovery.LeaderIdle(cfg, n);
    if n.committed.reqId < n.seen.reqId {
      var k: uint32 := n.committed.reqId + 1;
      LeaderHolds(cfg, n);
      assert Vstol(ResendStart(n)) == Key(cfg.view, k) && Vstol(n.seen) == Key(cfg.view, n.seen.reqId);
      ResendsOpen(n, cfg.view, n.committed.reqId, n.seen.reqId, p);
    }
  }

  /** Joining: the node takes the view, the role the view gives it, and request 0 of the view for all three marks; its records
      and what it has delivered stay. */
  lemma JoinIsTaken(cfg: Config, states: seq<Cluster>, steps: seq<Step>, t: nat)
    requires Execution(cfg, states, steps) && t < |steps| && steps[t].Join?
    ensures |states[t].nodes| == |states[t + 1].nodes| == cfg.groupSize && steps[t].i < cfg.groupSize
    ensures var n, n' := states[t].nodes[steps[t].i], states[t + 1].nodes[steps[t].i];
      && n'.curView == View(cfg.view, cfg.leader) && (n'.role.Leader? <==> steps[t].i == cfg.leader)
      && Vstol(n'.seen) == Vstol(n'.toCommit) == Vstol(n'.committed) == Key(cfg.view, 0)
      && n'.db == n.db && n'.delivered == n.delivered && states[t + 1].net == states[t].net
  {
    hide Inv;
    ExecutionKeepsInv(cfg, states, steps, t);
    NodeIds(cfg, states[t], steps[t].i);
    assert states[t + 1] == Apply(cfg, states[t], steps[t]);
  }

  // ---------- in any state ----------

  /** Whatever state a node is in, an ACCEPT_REQ of an earlier view, or of its own view from another node than the leader, and a
      FORCE_EXEC from another node than the leader, change neither its records nor its other two marks on a follower, and are
      not acknowledged. */
  lemma OnlyTheLeaderIsHeard(n: Node, p: Packet, stored: bool, garbage: nat)
    requires CanHandle(n, p, stored, garbage) && n.role.Secondary?
    requires p.msg.AcceptReq? || p.msg.ForceExec?
    requires if p.msg.AcceptReq? && p.msg.vs.viewId < n.curView.viewId then true
      else p.from != n.curView.leaderId && (p.msg.AcceptReq? ==> p.msg.vs.viewId == n.curView.viewId)
    ensures var out := HandleMsg(n, p, stored, garbage);
      && out.node.db == n.db && out.node.seen == n.seen && out.node.toCommit == n.toCommit
      && forall q :: q in out.sent ==> q.msg.MissingReq?
  {
    hide TryToExecute, Ready;
    if p.msg.AcceptReq? {
      MarksAfter(n);
      ExecutingOnlyAsks(n);
    }
  }

  /** The timer starts behind the later of the committed mark and the start of the current view. */
  lemma ResendsBehind(n: Node)
    requires n.committed.reqId + 1 < TWO_32
    ensures var start := Vstol(ViewStamp(n.curView.viewId, 0));
      Vstol(ResendStart(n)) == 1 + if Vstol(n.committed) < start then start else Vstol(n.committed)
  {
    CompIsKeyOrder(ViewStamp(n.curView.viewId, 0), n.committed);
  }
}
