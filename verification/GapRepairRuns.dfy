/**
 Gap repair over whole runs: what closes a gap when answers are lost, stores
 fail and other packets come between, and a run in which nothing closes it.
 */
module GapRepairRuns {
  import opened Basics
  import opened ViewStamps
  import opened Bitmap
  import opened ConsensusNode
  import opened ConsensusExec
  import opened ReplicationCluster
  import opened ReplicationInvariant
  import opened ReplicationSafety
  import opened GapRepair

  // ---------- a gap closes exactly when its records arrive ----------

  /** In the view, a follower's to-commit mark only rises. */
  lemma {:induction false} ToCommitRises(cfg: Config, states: seq<Cluster>, steps: seq<Step>, t: nat, u: nat, i: nat)
    requires Execution(cfg, states, steps) && t <= u < |states| && i < cfg.groupSize && i != cfg.leader
    requires |states[t].nodes| == cfg.groupSize && states[t].nodes[i].curView.viewId != 0
    ensures |states[u].nodes| == cfg.groupSize
    ensures states[u].nodes[i].curView.viewId != 0
    ensures states[t].nodes[i].toCommit.reqId <= states[u].nodes[i].toCommit.reqId
    decreases u - t
  {
    if t < u {
      ToCommitRises(cfg, states, steps, t, u - 1, i);
      ExecutionKeepsInv(cfg, states, steps, u - 1);
      assert states[u] == Apply(cfg, states[u - 1], steps[u - 1]);
      if steps[u - 1].i == i {
        FollowerStepEffect(cfg, states[u - 1], steps[u - 1]);
      }
    }
  }

  /** The records a follower lacked at time t are all there at time u. */
  predicate GapFilled(cfg: Config, before: Node, after: Node) {
    forall k: uint32 {:trigger Key(cfg.view, k)} ::
      before.committed.reqId < k <= before.toCommit.reqId ==> Key(cfg.view, k) in after.db
  }

  /**
   Whatever packets come between and whatever stores fail, a follower has delivered everything up
   to the mark it had at time t exactly from the time on at which it holds every record up to it.
   */
  lemma DeliveredOnceStored(cfg: Config, states: seq<Cluster>, steps: seq<Step>, t: nat, u: nat, i: nat)
    requires Execution(cfg, states, steps) && t <= u < |states| && i < cfg.groupSize && i != cfg.leader
    requires |states[t].nodes| == |states[u].nodes| == cfg.groupSize && states[t].nodes[i].curView.viewId != 0
    ensures var before, after := states[t].nodes[i], states[u].nodes[i];
      GapFilled(cfg, before, after) <==> before.toCommit.reqId <= |after.delivered|
    ensures DeliveredLog(cfg.view, states[u].nodes[i].delivered, AppendedBy(cfg, steps[..u]), |states[u].nodes[i].delivered|)
  {
    hide Vstol, Execution, FollowerOk, LeaderOk;
    var before, after := states[t].nodes[i], states[u].nodes[i];
    ExecutionKeepsInv(cfg, states, steps, t);
    ExecutionKeepsInv(cfg, states, steps, u);
    ToCommitRises(cfg, states, steps, t, u, i);
    DeliveredOnlyGrows(cfg, states, steps, t, u, i);
    DeliveredIsLogPrefix(cfg, states, steps, u, i);
    FollowerMarks(cfg, states, steps, t, i);
    FollowerMarks(cfg, states, steps, u, i);
    forall k: uint32 {:trigger Key(cfg.view, k)} |
      before.committed.reqId < k <= before.toCommit.reqId && before.toCommit.reqId <= |after.delivered|
      ensures Key(cfg.view, k) in after.db
    {
    }
  }

  // ---------- a run in which a follower stays behind ----------

  const CFG: Config := Config(3, 0, 1)
  const FIRST: ViewStamp := ViewStamp(1, 1)

  function Fresh(i: nat): Node {
    var start := ViewStamp(1, 0);
    Node(i, 3, if i == 0 then Leader else Secondary, View(1, 0), start, start, start, map[], [], map[])
  }

  /** The leader with request 1 recorded by the nodes of `bits`, delivered or not. */
  function Led(bits: nat, done: bool): Node {
    var mark := if done then FIRST else ViewStamp(1, 0);
    Fresh(0).(seen := FIRST, toCommit := mark, committed := mark, db := map[Vstol(FIRST) := Record([7], bits)],
              delivered := if done then [Delivery(Vstol(FIRST), [7])] else [])
  }

  /** Node 1 with the record, node 2 with the mark and without the record. */
  function Holder(): Node {
    Fresh(1).(seen := FIRST, db := map[Vstol(FIRST) := Record([7], 0)])
  }

  function Stuck(): Node {
    Fresh(2).(toCommit := FIRST)
  }

  const ASK: Packet := Packet(0, EVERYBODY, AcceptReq(FIRST, ViewStamp(1, 0), [7]))
  const ACK: Packet := Packet(1, 0, AcceptAck(FIRST))
  const FORCE: Packet := Packet(0, EVERYBODY, ForceExec(FIRST))
  const MISSING: Packet := Packet(2, EVERYBODY, MissingReq(FIRST))

  lemma LeaderSubmitsFirst()
    ensures CanSubmit(Fresh(0), [7], true) && SubmitRequest(Fresh(0), [7], true) == Outcome(Led(1, false), [ASK])
  {
  }

  lemma HolderAccepts()
    ensures CanHandle(Fresh(1), ASK, true, 0)
    ensures HandleMsg(Fresh(1), ASK, true, 0) == Outcome(Holder(), [ACK])
  {
    assert WithAccepted(Fresh(1), 0, FIRST, ViewStamp(1, 0), [7], true, 0) == Holder();
    assert TryToExecute(Holder()) == Outcome(Holder(), []);
  }

  lemma LeaderCommits()
    ensures CanHandle(Led(1, false), ACK, true, 0)
    ensures HandleMsg(Led(1, false), ACK, true, 0) == Outcome(Led(3, true), [])
  {
    var n := Led(3, false);
    assert WithAck(Led(1, false), 1, FIRST, true) == n;
    var end := Vstol(FIRST);
    assert Loaded(n.db, 3, end + 1, end);
    assert Loaded(n.db, 3, end, end);
    assert LeaderTryToExecute(n) == Led(3, true);
    assert TryToExecute(n) == Outcome(Led(3, true), []);
  }

  lemma LeaderForces()
    ensures CanResend(Led(3, true)) && MakeProgress(Led(3, true)) == Outcome(Led(3, true), [FORCE])
  {
  }

  lemma FollowerAsks()
    ensures CanHandle(Fresh(2), FORCE, true, 0)
    ensures HandleMsg(Fresh(2), FORCE, true, 0) == Outcome(Stuck(), [MISSING])
  {
    var key := Vstol(FIRST);
    KeyRoundTrip(FIRST, 0);
    assert ExecLoop(Stuck(), key + 1, key, false) == Outcome(Stuck(), []);
    assert ExecLoop(Stuck(), key, key, true) == Outcome(Stuck(), [MISSING]);
  }

  lemma SecondForceAsksNothing()
    ensures CanHandle(Stuck(), FORCE, true, 0)
    ensures HandleMsg(Stuck(), FORCE, true, 0) == Outcome(Stuck(), [])
  {
  }

  /** One step: node step.i has this outcome, and what it sends joins the packets. */
  predicate Moves(c: Cluster, step: Step, out: Outcome, c': Cluster) {
    && Enabled(c, step) && OutcomeOf(CFG, c, step) == out
    && c'.nodes == c.nodes[step.i := out.node] && c'.net == c.net + set p | p in out.sent
  }

  function NodesAt(t: nat): seq<Node> {
    [if t == 0 then Fresh(0) else Led(if t <= 2 then 1 else 3, t > 2),
     if t <= 1 then Fresh(1) else Holder(),
     if t <= 4 then Fresh(2) else Stuck()]
  }

  function PacketsAt(t: nat): set<Packet> {
    if t == 0 then {} else if t == 1 then {ASK} else if t <= 3 then {ASK, ACK}
    else if t == 4 then {ASK, ACK, FORCE} else {ASK, ACK, FORCE, MISSING}
  }

  /** The run, state by state; from time 5 on it stands still. */
  function StateAt(t: nat): Cluster {
    Cluster(NodesAt(t), PacketsAt(t))
  }

  function StepAt(t: nat): Step {
    if t == 0 then Submit(0, [7], true)
    else if t == 1 then Receive(1, ASK, true, 0)
    else if t == 2 then Receive(0, ACK, true, 0)
    else if t == 3 then Progress(0)
    else Receive(2, FORCE, true, 0)
  }

  lemma MovesAt(t: nat) returns (out: Outcome)
    ensures Moves(StateAt(t), StepAt(t), out, StateAt(t + 1))
  {
    hide HandleMsg, CanHandle, MakeProgress, CanResend, SubmitRequest, CanSubmit;
    if t == 0 {
      LeaderSubmitsFirst();
      out := Outcome(Led(1, false), [ASK]);
    } else if t == 1 {
      HolderAccepts();
      out := Outcome(Holder(), [ACK]);
    } else if t == 2 {
      LeaderCommits();
      out := Outcome(Led(3, true), []);
    } else if t == 3 {
      LeaderForces();
      out := Outcome(Led(3, true), [FORCE]);
    } else if t == 4 {
      FollowerAsks();
      out := Outcome(Stuck(), [MISSING]);
    } else {
      SecondForceAsksNothing();
      out := Outcome(Stuck(), []);
    }
  }

  lemma AppliesAt(t: nat)
    ensures Enabled(StateAt(t), StepAt(t)) && Apply(CFG, StateAt(t), StepAt(t)) == StateAt(t + 1)
  {
    var _ := MovesAt(t);
  }

  lemma StaysBehind(k: nat)
    requires k >= 5
    ensures StepAt(k) == Receive(2, FORCE, true, 0) && |StateAt(k).nodes| == 3
    ensures var n, leader := StateAt(k).nodes[2], StateAt(k).nodes[0];
      && FORCE in StateAt(k).net && FORCE.msg == ForceExec(leader.committed)
      && n.toCommit == leader.committed && n.committed.reqId < n.toCommit.reqId
      && |n.delivered| < |leader.delivered|
  {
  }

  /**
   A reachable follower that a FORCE_EXEC no longer helps: node 1 and the leader have request 1,
   node 2 has taken the mark and asked for the record, the answers are lost. However often it then
   receives the leader's FORCE_EXEC, it asks for nothing and lacks what the leader delivered.
   */
  lemma FollowerMayStayBehind(k: nat) returns (states: seq<Cluster>, steps: seq<Step>)
    requires k >= 5
    ensures Execution(CFG, states, steps) && |steps| == k && |states[k].nodes| == 3
    ensures forall t :: 5 <= t < k ==> steps[t] == Receive(2, FORCE, true, 0)
    ensures var n, leader := states[k].nodes[2], states[k].nodes[0];
      && FORCE in states[k].net && FORCE.msg == ForceExec(leader.committed)
      && n.toCommit == leader.committed && n.committed.reqId < n.toCommit.reqId
      && |n.delivered| < |leader.delivered|
  {
    states, steps := seq(k + 1, t requires 0 <= t => StateAt(t)), seq(k, t requires 0 <= t => StepAt(t));
    StaysBehind(k);
    hide Enabled, Apply, StateAt, StepAt, Init;
    forall t | 0 <= t < k ensures Enabled(states[t], steps[t]) && states[t + 1] == Apply(CFG, states[t], steps[t]) {
      AppliesAt(t);
    }
    forall t | 5 <= t < k ensures steps[t] == Receive(2, FORCE, true, 0) {
      StaysBehind(t);
    }
  }
}
