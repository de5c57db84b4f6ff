/**
 No reachable state of a replica group is a dead end, even when every packet in
 flight is lost: what can still bring all nodes to the leader's log, and exactly
 when that needs one more request.
 */
module Convergence {
  import opened Basics
  import opened ViewStamps
  import opened ConsensusNode
  import opened ConsensusExec
  import opened ReplicationCluster
  import opened ReplicationInvariant
  import opened ReplicationSafety
  import opened GapRepair
  import opened Recovery

  // ---------- a follower nothing helps ----------

  /** Packets that do not help follower i: no record on its way to it, and none that makes somebody send one. */
  predicate Useless(cfg: Config, p: Packet, i: nat) {
    match p.msg
    case MissingReq(_) => p.from != i && p.from != cfg.leader
    case MissingAck(_, _) => p.to >= 0 && p.to != i
    case ForceExec(_) => true
    case _ => false
  }

  /** The leader has committed everything, follower i has its mark and a gap, and no packet helps. */
  predicate Abandoned(cfg: Config, c: Cluster, i: nat, n: Node, leader: Node) {
    && Inv(cfg, c) && i < |c.nodes| == cfg.groupSize && i != cfg.leader
    && c.nodes[i] == n && c.nodes[cfg.leader] == leader
    && leader.committed == leader.seen && n.curView.viewId != 0 && !NewsOrNoGap(n, leader)
    && forall p :: p in c.net ==> Useless(cfg, p, i)
  }

  /** Nothing in `sent` helps follower i. */
  predicate NoHelp(cfg: Config, sent: seq<Packet>, i: nat) {
    forall p :: p in sent ==> Useless(cfg, p, i)
  }

  /** The leader changes nothing and sends nothing that helps. */
  lemma LeaderHelpsNot(cfg: Config, n: Node, p: Packet, stored: bool, garbage: nat, i: nat)
    requires ValidConfig(cfg) && LeaderOk(cfg, n) && i != cfg.leader
    requires PacketOk(cfg, p, LogOf(n.db, cfg.view, n.seen.reqId), n.committed.reqId)
    requires Useless(cfg, p, i) && Addressed(p, cfg.leader) && CanHandle(n, p, stored, garbage)
    ensures var out := HandleMsg(n, p, stored, garbage); out.node == n && NoHelp(cfg, out.sent, i)
  {
    hide LogOf, TryToExecute;
    if p.msg.MissingAck? {
      assert Vstol(p.msg.vs) == Key(cfg.view, p.msg.vs.reqId);
    }
  }

  /** Executing, a follower only asks. */
  lemma ExecutingAsks(cfg: Config, n: Node, j: nat, i: nat, log: seq<Data>, mark: nat)
    requires FollowerBase(cfg, n, j, log, mark) && j != i && j != cfg.leader
    ensures Ready(n) && NoHelp(cfg, TryToExecute(n).sent, i)
  {
    hide DeliveredLog;
    if n.curView.viewId != 0 {
      FollowerExecutes(n);
    }
  }

  /** Another follower sends nothing that helps. */
  lemma OthersHelpNot(cfg: Config, n: Node, j: nat, p: Packet, stored: bool, garbage: nat, i: nat, log: seq<Data>, mark: nat)
    requires FollowerOk(cfg, n, j, log, mark) && j != i && j != cfg.leader
    requires PacketOk(cfg, p, log, mark) && Useless(cfg, p, i) && CanHandle(n, p, stored, garbage)
    ensures NoHelp(cfg, HandleMsg(n, p, stored, garbage).sent, i)
  {
    hide TryToExecute, FollowerBase, Ready;
    match p.msg {
      case MissingAck(vs, data) =>
        if !IgnoresMissingAck(n, vs) {
          if stored {
            FollowerStores(cfg, n, j, vs, Record(data, garbage), log, mark);
          }
          ExecutingAsks(cfg, WithAnswer(n, vs, data, stored, garbage), j, i, log, mark);
        }
      case ForceExec(vs) =>
        if !IgnoresForceExec(n, p.from, vs) {
          MarkTaken(cfg, n, j, vs, log, mark);
          ExecutingAsks(cfg, n.(toCommit := vs), j, i, log, mark);
        }
      case _ =>
    }
  }

  lemma MarkTaken(cfg: Config, n: Node, j: nat, vs: ViewStamp, log: seq<Data>, mark: nat)
    requires FollowerBase(cfg, n, j, log, mark) && vs.viewId == cfg.view && vs.reqId <= mark
    requires ViewStampComp(n.toCommit, vs) < 0
    ensures FollowerBase(cfg, n.(toCommit := vs), j, log, mark)
  {
  }

  /** Follower i, with the leader's mark, changes nothing. */
  lemma StandsStill(cfg: Config, n: Node, i: nat, p: Packet, stored: bool, garbage: nat, log: seq<Data>, mark: nat)
    requires FollowerOk(cfg, n, i, log, mark) && n.toCommit.reqId == mark
    requires PacketOk(cfg, p, log, mark) && Useless(cfg, p, i) && Addressed(p, i) && CanHandle(n, p, stored, garbage)
    ensures var out := HandleMsg(n, p, stored, garbage); out.node == n && NoHelp(cfg, out.sent, i)
  {
    hide TryToExecute, DeliveredLog;
  }

  lemma LeaderStepHelpsNot(cfg: Config, c: Cluster, i: nat, n: Node, leader: Node, step: Step)
    requires Abandoned(cfg, c, i, n, leader) && Enabled(c, step) && !step.Submit? && step.i == cfg.leader
    ensures var out := OutcomeOf(cfg, c, step); out.node == leader && NoHelp(cfg, out.sent, i)
  {
    hide Inv, LeaderOk, HandleMsg, CanHandle, MakeProgress, CanResend, PacketOk;
    LeaderKnown(cfg, c);
    LeaderInView(cfg, leader);
    match step {
      case Progress(_) => ProgressSends(cfg, leader);
      case Receive(_, p, stored, garbage) =>
        PacketKnown(cfg, c, p);
        LeaderHelpsNot(cfg, leader, p, stored, garbage, i);
      case Join(_) => assert false;
    }
  }

  lemma FollowerStepHelpsNot(cfg: Config, c: Cluster, i: nat, n: Node, leader: Node, step: Step)
    requires Abandoned(cfg, c, i, n, leader) && Enabled(c, step) && !step.Submit? && step.i != cfg.leader
    ensures var out := OutcomeOf(cfg, c, step); (step.i == i ==> out.node == n) && NoHelp(cfg, out.sent, i)
  {
    hide Inv, LeaderOk, FollowerOk, HandleMsg, CanHandle, PacketOk;
    LeaderKnown(cfg, c);
    FollowerKnown(cfg, c, step.i);
    FollowerKnown(cfg, c, i);
    var log, mark := Log(cfg, c), Mark(cfg, c);
    FollowerIsSecondary(cfg, c.nodes[step.i], step.i, log, mark);
    LeaderId(cfg, leader);
    match step {
      case Progress(_) =>
      case Receive(j, p, stored, garbage) =>
        PacketKnown(cfg, c, p);
        if j == i {
          StandsStill(cfg, n, i, p, stored, garbage, log, mark);
        } else {
          OthersHelpNot(cfg, c.nodes[j], j, p, stored, garbage, i, log, mark);
        }
      case Join(_) =>
    }
  }

  lemma StepStaysAbandoned(cfg: Config, c: Cluster, i: nat, n: Node, leader: Node, step: Step)
    requires Abandoned(cfg, c, i, n, leader) && Enabled(c, step) && !step.Submit?
    ensures Abandoned(cfg, Apply(cfg, c, step), i, n, leader)
  {
    hide Inv, OutcomeOf, Useless, NewsOrNoGap, CanHandle, CanResend, CanSubmit;
    LeaderKnown(cfg, c);
    StepKeepsInv(cfg, c, step);
    if step.i == cfg.leader {
      LeaderStepHelpsNot(cfg, c, i, n, leader, step);
    } else {
      FollowerStepHelpsNot(cfg, c, i, n, leader, step);
    }
    var c', out := Apply(cfg, c, step), OutcomeOf(cfg, c, step);
    assert c'.nodes[i] == n && c'.nodes[cfg.leader] == leader;
    forall p | p in c'.net ensures Useless(cfg, p, i) {
      assert p in c.net || p in out.sent;
    }
  }

  lemma {:induction false} RunStaysAbandoned(cfg: Config, c: Cluster, i: nat, n: Node, leader: Node, steps: seq<Step>)
    requires Abandoned(cfg, c, i, n, leader) && NoRequest(steps) && CanRun(cfg, c, steps)
    ensures Abandoned(cfg, Run(cfg, c, steps), i, n, leader)
    decreases |steps|
  {
    hide Abandoned, Enabled, Apply;
    if steps != [] {
      StepStaysAbandoned(cfg, c, i, n, leader, steps[0]);
      RunStaysAbandoned(cfg, Apply(cfg, c, steps[0]), i, n, leader, steps[1..]);
    }
  }

  lemma AbandonedLacks(cfg: Config, c: Cluster, i: nat, n: Node, leader: Node, log: seq<Data>)
    requires Abandoned(cfg, c, i, n, leader) && |log| == leader.seen.reqId
    ensures !Delivered(cfg, c, i, log)
  {
    hide Inv, DeliveredLog, FollowerOk, LeaderOk;
    LeaderKnown(cfg, c);
    FollowerKnown(cfg, c, i);
    FollowerIsSecondary(cfg, n, i, Log(cfg, c), Mark(cfg, c));
    if Delivered(cfg, c, i, log) {
      DeliveredSize(cfg, n, i, Log(cfg, c), Mark(cfg, c), log);
    }
  }

  lemma DeliveredSize(cfg: Config, n: Node, i: nat, log: seq<Data>, mark: nat, whole: seq<Data>)
    requires FollowerOk(cfg, n, i, log, mark) && DeliveredLog(cfg.view, n.delivered, whole, |whole|)
    ensures |whole| == n.committed.reqId <= n.toCommit.reqId
  {
  }

  // ---------- the main results ----------

  /** From c, whatever is in flight being lost, and without a new request, all nodes can come to deliver the whole log. */
  ghost predicate CanRecover(cfg: Config, c: Cluster)
    requires Inv(cfg, c)
  {
    exists c' :: Reaches(cfg, Lost(c), c') && Converged(cfg, c', Log(cfg, c))
  }

  /** That is so exactly if something is still to be committed, or no follower in the view has the
      leader's mark and a gap below it. */
  lemma RecoversIfNews(cfg: Config, c: Cluster)
    requires Inv(cfg, c)
    ensures CanRecover(cfg, c) <==> MarkIsNews(cfg, c)
  {
    hide Inv, Reaches, Converged, Delivered, LeaderOk;
    LostKeepsInv(cfg, c);
    LeaderKnown(cfg, c);
    if MarkIsNews(cfg, c) {
      var c' := Recovers(cfg, Lost(c));
    } else {
      var i: nat :| i < |c.nodes| && i != cfg.leader && c.nodes[i].curView.viewId != 0 && !NewsOrNoGap(c.nodes[i], LeaderOf(cfg, c));
      forall c' | Reaches(cfg, Lost(c), c') ensures !Converged(cfg, c', Log(cfg, c)) {
        NeverConverges(cfg, c, i, c');
      }
    }
  }

  lemma NeverConverges(cfg: Config, c: Cluster, i: nat, c': Cluster)
    requires Inv(cfg, c) && Mark(cfg, c) == |Log(cfg, c)| && i < |c.nodes| && i != cfg.leader
    requires c.nodes[i].curView.viewId != 0 && !NewsOrNoGap(c.nodes[i], LeaderOf(cfg, c))
    requires Reaches(cfg, Lost(c), c')
    ensures !Converged(cfg, c', Log(cfg, c))
  {
    hide Inv, LeaderOk, NewsOrNoGap, CanRun, Run, Delivered;
    LostKeepsInv(cfg, c);
    LeaderKnown(cfg, c);
    LeaderId(cfg, LeaderOf(cfg, c));
    var n, leader := c.nodes[i], LeaderOf(cfg, c);
    assert Abandoned(cfg, Lost(c), i, n, leader);
    var steps :| NoRequest(steps) && CanRun(cfg, Lost(c), steps) && Run(cfg, Lost(c), steps) == c';
    RunStaysAbandoned(cfg, Lost(c), i, n, leader, steps);
    AbandonedLacks(cfg, c', i, n, leader, Log(cfg, c));
  }

  /** One more request always does it. */
  lemma RecoversWithRequest(cfg: Config, c: Cluster, data: Data)
    requires Inv(cfg, c) && StampLeft(LeaderOf(cfg, c))
    ensures var step := Submit(cfg.leader, data, true);
      && Enabled(Lost(c), step)
      && exists c' :: Reaches(cfg, Apply(cfg, Lost(c), step), c') && Converged(cfg, c', Log(cfg, c) + [data])
  {
    hide Inv, Reaches, Converged, LeaderOk, LeaderHandleSubmitReq, CanSubmit;
    LostKeepsInv(cfg, c);
    LeaderKnown(cfg, c);
    var n, step := LeaderOf(cfg, c), Submit(cfg.leader, data, true);
    LeaderId(cfg, n);
    LeaderSubmits(cfg, n, data, true, ForceOf(n));
    StepKeepsInv(cfg, Lost(c), step);
    var c1 := Apply(cfg, Lost(c), step);
    LeaderKnown(cfg, c1);
    NewRequestIsNews(cfg, n, data);
    var _ := Recovers(cfg, c1);
  }

  /** Also one that a follower's user asks for: it can reach the leader, and then every node. */
  lemma RecoversWithForward(cfg: Config, c: Cluster, i: nat, data: Data)
    requires Inv(cfg, c) && StampLeft(LeaderOf(cfg, c))
    requires i < |c.nodes| == cfg.groupSize && i != cfg.leader && c.nodes[i].curView.viewId != 0
    ensures var step := Submit(i, data, true);
      && Enabled(Lost(c), step)
      && exists c' :: Reaches(cfg, Apply(cfg, Lost(c), step), c') && Converged(cfg, c', Log(cfg, c) + [data])
  {
    hide Inv, Reaches, Converged, LeaderOk, LeaderHandleSubmitReq, FollowerOk;
    LostKeepsInv(cfg, c);
    LeaderKnown(cfg, c);
    FollowerKnown(cfg, c, i);
    FollowerIsSecondary(cfg, c.nodes[i], i, Log(cfg, c), Mark(cfg, c));
    FollowerView(cfg, c.nodes[i], i, Log(cfg, c), Mark(cfg, c));
    var submit := Submit(i, data, true);
    StepKeepsInv(cfg, Lost(c), submit);
    var c1 := Apply(cfg, Lost(c), submit);
    var c2 := ForwardArrives(cfg, c1, i, data);
    StepRefinesLog(cfg, Lost(c), submit);
    var c' := Recovers(cfg, c2);
    Onward(cfg, c1, c2, c');
  }

  lemma FollowerView(cfg: Config, n: Node, i: nat, log: seq<Data>, mark: nat)
    requires FollowerOk(cfg, n, i, log, mark) && n.curView.viewId != 0
    ensures n.curView.leaderId == cfg.leader && n.seen.reqId <= |log|
  {
  }

  lemma ForwardArrives(cfg: Config, c: Cluster, i: nat, data: Data) returns (c': Cluster)
    requires Inv(cfg, c) && StampLeft(LeaderOf(cfg, c)) && i < cfg.groupSize && i != cfg.leader
    requires Packet(i, cfg.leader, ForwardReq(data)) in c.net
    ensures Reaches(cfg, c, c') && Inv(cfg, c') && Log(cfg, c') == Log(cfg, c) + [data] && MarkIsNews(cfg, c')
  {
    hide Inv, Reaches, LeaderOk, LeaderHandleSubmitReq, CanSubmit;
    LeaderKnown(cfg, c);
    var n, p := LeaderOf(cfg, c), Packet(i, cfg.leader, ForwardReq(data));
    LeaderId(cfg, n);
    PacketKnown(cfg, c, p);
    LeaderHandles(cfg, n, p, true, 0);
    var step := Receive(cfg.leader, p, true, 0);
    StepReaches(cfg, c, step);
    StepRefinesLog(cfg, c, step);
    NewRequestIsNews(cfg, n, data);
    c' := Apply(cfg, c, step);
    LeaderKnown(cfg, c');
  }

  lemma NewRequestIsNews(cfg: Config, n: Node, data: Data)
    requires ValidConfig(cfg) && LeaderOk(cfg, n) && StampLeft(n) && CanSubmit(n, data, true)
    ensures SubmitRequest(n, data, true) == LeaderHandleSubmitReq(n, data, true)
    ensures cfg.groupSize > 1 ==>
      var r := LeaderHandleSubmitReq(n, data, true).node; r.committed.reqId < r.seen.reqId
  {
  }

  lemma RecoversWithPackets(cfg: Config, c: Cluster)
    requires Inv(cfg, c) && CanRecover(cfg, c)
    ensures exists c' :: Reaches(cfg, c, c') && Converged(cfg, c', Log(cfg, c))
  {
    hide Inv, Reaches, DeliveredLog;
    var c' :| Reaches(cfg, Lost(c), c') && Converged(cfg, c', Log(cfg, c));
    var more := MorePacketsReach(cfg, Lost(c), c.net, c');
    assert Lost(c).(net := c.net) == c;
    forall i: nat | i < |more.nodes| ensures Delivered(cfg, more, i, Log(cfg, c)) {
      assert Delivered(cfg, c', i, Log(cfg, c));
    }
  }

  /**
   No reachable state is a dead end: with all packets lost, one more request and what is sent from
   then on can bring every node to deliver everything ever accepted. Without that request the same
   is possible exactly if the leader's mark is news, or will be. Losing nothing is no worse.
   */
  lemma NoDeadEnd(cfg: Config, states: seq<Cluster>, steps: seq<Step>, t: nat, data: Data)
    requires Execution(cfg, states, steps) && t < |states|
    ensures Inv(cfg, states[t]) && (CanRecover(cfg, states[t]) <==> MarkIsNews(cfg, states[t]))
    ensures CanRecover(cfg, states[t]) ==>
      exists c' :: Reaches(cfg, states[t], c') && Converged(cfg, c', AppendedBy(cfg, steps[..t]))
    ensures var c, step := states[t], Submit(cfg.leader, data, true);
      StampLeft(LeaderOf(cfg, c)) ==>
        && Enabled(Lost(c), step)
        && exists c' :: Reaches(cfg, Apply(cfg, Lost(c), step), c')
                        && Converged(cfg, c', AppendedBy(cfg, steps[..t]) + [data])
  {
    hide Inv, Reaches, Converged, CanRecover, MarkIsNews, Execution;
    LogIsWhatWasAccepted(cfg, states, steps, t);
    RecoversIfNews(cfg, states[t]);
    if CanRecover(cfg, states[t]) {
      RecoversWithPackets(cfg, states[t]);
    }
    if StampLeft(LeaderOf(cfg, states[t])) {
      RecoversWithRequest(cfg, states[t], data);
    }
  }
}
