/**
 An election can always end: from every reachable state, of the repaired election
 and of the one in the source, packets sent from then on can make every node leave it.
 Only a group of one that does not count its own vote never does.
 */
module ElectionProgress {
  import opened Basics
  import opened ElectionNode
  import opened ElectionCluster
  import opened ElectionInvariant
  import opened ElectionSafety
  import opened ElectionHistory

  // ---------- going on from a state ----------

  /** A run from c comes to c'. */
  ghost predicate Leads(f: Fixes, c: Cluster, c': Cluster) {
    exists states: seq<Cluster>, steps: seq<Step> :: RunBetween(f, states, steps) && states[0] == c && states[|steps|] == c'
  }

  predicate RunBetween(f: Fixes, states: seq<Cluster>, steps: seq<Step>) {
    && |states| == |steps| + 1
    && forall t {:trigger steps[t]} :: 0 <= t < |steps| ==>
         Enabled(states[t], steps[t]) && states[t + 1] == Apply(f, states[t], steps[t])
  }

  lemma LeadsHere(f: Fixes, c: Cluster)
    ensures Leads(f, c, c)
  {
    assert RunBetween(f, [c], []);
  }

  /** c is reachable, and may come from c0. */
  ghost predicate Underway(f: Fixes, n: nat, c0: Cluster, c: Cluster) {
    Reachable(f, n, c) && Leads(f, c0, c)
  }

  lemma StepOn(f: Fixes, n: nat, c0: Cluster, c: Cluster, step: Step)
    requires Underway(f, n, c0, c) && Enabled(c, step)
    ensures Underway(f, n, c0, Apply(f, c, step))
  {
    hide Enabled, Apply, Reachable;
    ReachStep(f, n, c, step);
    var states, steps :| RunBetween(f, states, steps) && states[0] == c0 && states[|steps|] == c;
    var states', steps' := states + [Apply(f, c, step)], steps + [step];
    forall t {:trigger steps'[t]} | 0 <= t < |steps'|
      ensures Enabled(states'[t], steps'[t]) && states'[t + 1] == Apply(f, states'[t], steps'[t])
    {
      if t < |steps| {
        assert steps'[t] == steps[t];
      }
    }
    assert RunBetween(f, states', steps');
  }

  /** What is known of a reachable state. */
  predicate Known(n: nat, c: Cluster) {
    && |c.mods| == n >= 1
    && (forall i {:trigger c.mods[i]} :: 0 <= i < n ==>
          Shaped(c.mods[i]) && c.mods[i].nodeId == i && c.mods[i].groupSize == n
          && 0 <= c.mods[i].acceptor.accepted <= c.mods[i].acceptor.highestSeen && c.mods[i].nextPnum >= 0)
  }

  lemma ReachableIsKnown(f: Fixes, n: nat, c: Cluster)
    requires Reachable(f, n, c)
    ensures Known(n, c) && AnnouncersArePost(c)
    ensures forall i :: 0 <= i < n && c.mods[i].post ==> Announced(c.net, c.mods[i].newLeader)
  {
    hide NumbersOk, Announced;
    var states, steps :| Execution(f, n, states, steps) && states[|steps|] == c;
    var t := |steps|;
    ExecutionKeepsNumbers(f, n, states, steps, t);
    SizeOf(n, c);
    forall i {:trigger c.mods[i]} | 0 <= i < n
      ensures Shaped(c.mods[i]) && c.mods[i].nodeId == i && c.mods[i].groupSize == n
        && 0 <= c.mods[i].acceptor.accepted <= c.mods[i].acceptor.highestSeen && c.mods[i].nextPnum >= 0
      ensures AnnouncersArePost(c) && (c.mods[i].post ==> Announced(c.net, c.mods[i].newLeader))
    {
      Ids(n, c, i);
      NextIsPositive(n, c, i);
      AcceptorState(f, n, states, steps, t, i);
      AnnouncedInRun(f, n, states, steps, t, i);
    }
    AnnouncedInRun(f, n, states, steps, t, 0);
  }

  // ---------- once a leader is announced ----------

  /** Nodes 0..j, but for k, have left the election with `leader`. */
  predicate Told(c: Cluster, j: nat, k: nat, leader: int) {
    forall i {:trigger c.mods[i]} :: 0 <= i < j && i < |c.mods| && i != k ==> c.mods[i].post && c.mods[i].newLeader == leader
  }

  /** Every node that receives the announcement leaves the election with that leader. */
  lemma {:induction false} TellUpTo(f: Fixes, n: nat, c0: Cluster, c: Cluster, p: Packet, j: nat) returns (c': Cluster)
    requires Underway(f, n, c0, c) && p in c.net && p.msg.Announce? && p.to == EVERYBODY && p.from < n && j <= n
    ensures Underway(f, n, c0, c') && |c.mods| == |c'.mods| == n && p in c'.net && Told(c', j, p.from, p.msg.content)
    ensures c'.mods[p.from] == c.mods[p.from]
  {
    hide Underway;
    KnownHere(f, n, c0, c);
    if j == 0 {
      c' := c;
    } else {
      c' := TellUpTo(f, n, c0, c, p, j - 1);
      KnownHere(f, n, c0, c');
      if j - 1 != p.from {
        var step := Receive(j - 1, p);
        StepOn(f, n, c0, c', step);
        c' := Apply(f, c', step);
      }
    }
  }

  lemma KnownHere(f: Fixes, n: nat, c0: Cluster, c: Cluster)
    requires Underway(f, n, c0, c)
    ensures Known(n, c) && AnnouncersArePost(c)
  {
    hide Known;
    ReachableIsKnown(f, n, c);
  }

  predicate AllPost(c: Cluster) {
    forall i {:trigger c.mods[i]} :: 0 <= i < |c.mods| ==> c.mods[i].post
  }

  /** From a state in which some node has left the election with a leader, all can: every node but the one that
      announced that leader with this very leader. */
  lemma AllAreTold(f: Fixes, n: nat, c0: Cluster, c: Cluster, i: nat) returns (c': Cluster, k: nat)
    requires Underway(f, n, c0, c) && i < |c.mods| == n && c.mods[i].post
    ensures Underway(f, n, c0, c') && |c'.mods| == n && AllPost(c') && Told(c', n, k, c.mods[i].newLeader)
    ensures k < n && exists pnum :: Packet(k, EVERYBODY, Announce(pnum, c.mods[i].newLeader)) in c.net
  {
    hide Underway;
    AnnouncedHere(f, n, c0, c, i);
    KnownHere(f, n, c0, c);
    FindAnnouncement(n, c, c.mods[i].newLeader);
    var j: nat, pnum :| j < n && c.mods[j].post && Packet(j, EVERYBODY, Announce(pnum, c.mods[i].newLeader)) in c.net;
    k := j;
    c' := TellUpTo(f, n, c0, c, Packet(j, EVERYBODY, Announce(pnum, c.mods[i].newLeader)), n);
  }

  lemma AnnouncedHere(f: Fixes, n: nat, c0: Cluster, c: Cluster, i: nat)
    requires Underway(f, n, c0, c) && i < |c.mods| == n && c.mods[i].post
    ensures Announced(c.net, c.mods[i].newLeader)
  {
    ReachableIsKnown(f, n, c);
  }

  // ---------- a fresh number ----------

  /** No number a module knows exceeds b, but for the next of its own. */
  predicate Bounded(m: Mod, b: int) {
    && m.enteredPnum <= b && m.acceptor.highestSeen <= b
    && (forall j :: 0 <= j < |m.proposer| ==> m.proposer[j].pPnum <= b)
    && (forall j :: 0 <= j < |m.learner| ==> m.learner[j].pnum <= b)
  }

  lemma {:induction false} BoundOf(s: seq<int>) returns (b: int)
    ensures forall j :: 0 <= j < |s| ==> s[j] <= b
  {
    b := 0;
    if s != [] {
      b := BoundOf(s[1..]);
      if b < s[0] {
        b := s[0];
      }
      assert forall j :: 1 <= j < |s| ==> s[j] == s[1..][j - 1];
    }
  }

  lemma ModBound(m: Mod) returns (b: int)
    ensures Bounded(m, b)
  {
    var ps := seq(|m.proposer|, j requires 0 <= j < |m.proposer| => m.proposer[j].pPnum);
    var ls := seq(|m.learner|, j requires 0 <= j < |m.learner| => m.learner[j].pnum);
    var b1 := BoundOf(ps);
    var b2 := BoundOf(ls);
    var b3 := BoundOf([m.enteredPnum, m.acceptor.highestSeen]);
    b := BoundOf([b1, b2, b3]);
    assert [b1, b2, b3][0] <= b && [b1, b2, b3][1] <= b && [b1, b2, b3][2] <= b;
    assert [m.enteredPnum, m.acceptor.highestSeen][0] <= b3 && [m.enteredPnum, m.acceptor.highestSeen][1] <= b3;
    forall j | 0 <= j < |m.proposer| ensures m.proposer[j].pPnum <= b {
      assert ps[j] <= b1;
    }
    forall j | 0 <= j < |m.learner| ensures m.learner[j].pnum <= b {
      assert ls[j] <= b2;
    }
  }

  lemma {:induction false} ClusterBound(c: Cluster, k: nat) returns (b: int)
    requires k <= |c.mods|
    ensures forall j {:trigger c.mods[j]} :: 0 <= j < k ==> Bounded(c.mods[j], b)
  {
    hide Bounded;
    b := 0;
    if k > 0 {
      var b1 := ClusterBound(c, k - 1);
      var b2 := ModBound(c.mods[k - 1]);
      b := if b1 < b2 then b2 else b1;
      forall j {:trigger c.mods[j]} | 0 <= j < k ensures Bounded(c.mods[j], b) {
        HigherBound(c.mods[j], if j < k - 1 then b1 else b2, b);
      }
    }
  }

  lemma HigherBound(m: Mod, b: int, b': int)
    requires Bounded(m, b) && b <= b'
    ensures Bounded(m, b')
  {
  }

  predicate AllBounded(c: Cluster, b: int) {
    forall j {:trigger c.mods[j]} :: 0 <= j < |c.mods| ==> Bounded(c.mods[j], b)
  }

  lemma LearnerBounded(m: Mod, from: nat, pnum: int, content: int, b: int)
    requires Shaped(m) && from < m.groupSize && Bounded(m, b) && pnum <= b
    ensures Bounded(LearnerDo(m, from, pnum, content).mod, b)
  {
  }

  lemma CheckBounded(f: Fixes, m: Mod, b: int)
    requires Shaped(m) && Bounded(m, b) && Origin(m) <= b
    ensures Bounded(CheckPrepare(f, m).mod, b) && CheckPrepare(f, m).mod.nextPnum == m.nextPnum
  {
    hide LearnerDo, PrepareScan;
    var s := PrepareScan(m.proposer, Origin(m), m.groupSize);
    var value := if s.content == -1 then m.nodeId else s.content;
    var m1 := Persisted(m.(enteredPnum := Origin(m)).(acceptor := AcceptorRecord(Origin(m), Origin(m), value)));
    LearnerBounded(m1, m.nodeId, Origin(m), value, b);
  }

  /** A proposal with a number up to b leaves the bound. */
  lemma ProposeBounded(f: Fixes, m: Mod, b: int)
    requires Shaped(m) && Bounded(m, b) && m.nextPnum <= b
    ensures Bounded(Propose(f, m).mod, b) && Propose(f, m).mod.nextPnum == m.nextPnum + m.groupSize
  {
    hide CheckPrepare;
    if m.acceptor.highestSeen < m.nextPnum {
      ProposeIs(f, m);
      CheckBounded(f, Proposing(m), b);
    }
  }

  /** Node i proposes until its next number is new to everybody, or it has left the election. */
  lemma {:induction false} UntilFresh(f: Fixes, n: nat, c0: Cluster, c: Cluster, i: nat, b: int) returns (c': Cluster)
    requires Underway(f, n, c0, c) && i < |c.mods| == n && AllBounded(c, b)
    ensures Underway(f, n, c0, c') && |c'.mods| == n && AllBounded(c', b)
    ensures c'.mods[i].post || c'.mods[i].nextPnum > b
    decreases b - c.mods[i].nextPnum
  {
    hide Underway, Bounded, Propose;
    c' := c;
    KnownHere(f, n, c0, c);
    if !c.mods[i].post && c.mods[i].nextPnum <= b {
      ProposeBounded(f, c.mods[i], b);
      var step := Timeout(i);
      StepOn(f, n, c0, c, step);
      var c1 := Apply(f, c, step);
      c' := UntilFresh(f, n, c0, c1, i, b);
    }
  }

  // ---------- what one node makes of a fresh number ----------

  lemma {:induction false} ScanCounts(proposer: seq<ProposerRecord>, origin: int, k: nat)
    requires k <= |proposer|
    ensures PrepareScan(proposer, origin, k).inc == |Answered(proposer, origin, k)|
  {
    if k > 0 {
      ScanCounts(proposer, origin, k - 1);
      var row, before := proposer[k - 1], Answered(proposer, origin, k - 1);
      assert Answered(proposer, origin, k) == if row.pPnum == origin && row.aPnum != -1 then before + {k - 1} else before;
    }
  }

  /** Only its own row answers a new proposal. */
  lemma FreshProposal(f: Fixes, m: Mod, b: int)
    requires Shaped(m) && Bounded(m, b) && b < m.nextPnum && m.acceptor.accepted >= 0
    ensures Answered(Proposing(m).proposer, m.nextPnum, m.groupSize) == {m.nodeId}
    ensures m.groupSize >= 2 ==> Propose(f, m).mod == Proposing(m)
  {
    var m1 := Proposing(m);
    assert Answered(m1.proposer, m.nextPnum, m.groupSize) == {m.nodeId};
    ScanCounts(m1.proposer, m.nextPnum, m.groupSize);
    ProposeIs(f, m);
  }

  /** The rows of one number with a majority make the learner leave the election. */
  lemma MajorityElects(m: Mod, from: nat, pnum: int, content: int)
    requires Shaped(m) && from < m.groupSize && m.learner[from].pnum < pnum && pnum >= 0
    ensures var out := LearnerDo(m, from, pnum, content);
      && out.mod.learner == m.learner[from := LearnerRecord(pnum, content)]
      && (out.mod.post || |Voters(out.mod.learner, pnum, m.groupSize)| < Half(m.groupSize))
  {
    var learner := m.learner[from := LearnerRecord(pnum, content)];
    LearnerCheckMeaning(learner, Half(m.groupSize), 0);
    assert learner[from].pnum == pnum;
  }

  /** A group of one that counts its own vote elects itself at once. */
  lemma Alone(f: Fixes, m: Mod, b: int)
    requires Shaped(m) && Bounded(m, b) && b < m.nextPnum && m.nextPnum >= 0 && m.acceptor.accepted >= 0
    requires m.groupSize == 1 && f.ownAcceptor
    ensures Propose(f, m).mod.post
  {
    hide LearnerDo;
    FreshProposal(f, m, b);
    var m1 := Proposing(m);
    ProposeIs(f, m);
    ScanCounts(m1.proposer, m.nextPnum, 1);
    var s := PrepareScan(m1.proposer, Origin(m1), 1);
    var value := if s.content == -1 then m1.nodeId else s.content;
    var q := m.nextPnum;
    var m2 := Persisted(m1.(enteredPnum := q).(acceptor := AcceptorRecord(q, q, value)));
    MajorityElects(m2, 0, q, value);
    assert Voters(LearnerDo(m2, 0, q, value).mod.learner, q, 1) == {0};
  }

  /** One more answer: not enough yet, or phase two. */
  lemma AnswerCounts(f: Fixes, m: Mod, j: nat, q: int, accepted: int, content: int)
    requires Shaped(m) && Origin(m) == q && m.enteredPnum < q && j < m.groupSize && accepted != -1
    requires j !in Answered(m.proposer, q, m.groupSize)
    ensures var m1 := m.(proposer := m.proposer[j := ProposerRecord(q, accepted, content)]);
      var answered := Answered(m.proposer, q, m.groupSize) + {j};
      && Answered(m1.proposer, q, m.groupSize) == answered
      && ProposerAck(f, m, j, q, accepted, content) ==
         if |answered| < Half(m.groupSize) then Outcome(m1, [])
         else PhaseTwo(f, m1, q, PrepareScan(m1.proposer, q, m.groupSize).content)
  {
    hide PhaseTwo;
    var m1 := m.(proposer := m.proposer[j := ProposerRecord(q, accepted, content)]);
    assert Answered(m1.proposer, q, m.groupSize) == Answered(m.proposer, q, m.groupSize) + {j};
    ScanCounts(m1.proposer, q, m.groupSize);
  }

  /** The learner's rows name number q for the nodes below k and for node i, and no newer one than b for the others. */
  predicate Rows(m: Mod, i: nat, q: int, b: int, k: nat) {
    forall j :: 0 <= j < |m.learner| ==> if j < k || j == i then m.learner[j].pnum == q else m.learner[j].pnum <= b
  }

  /** The proposer asks for votes for a value, and counts its own; or it has left the election. */
  predicate Votes(m: Mod, i: nat, q: int, b: int, k: nat) {
    Shaped(m) && (m.post || (Rows(m, i, q, b, k) && |Voters(m.learner, q, m.groupSize)| < Half(m.groupSize)))
  }

  lemma PhaseTwoAsks(f: Fixes, m: Mod, q: int, b: int, content: int) returns (value: int)
    requires Shaped(m) && b < q && q >= 0 && m.groupSize >= 2 && m.acceptor.highestSeen == q
    requires forall j :: 0 <= j < |m.learner| ==> m.learner[j].pnum <= b
    ensures var out := PhaseTwo(f, m, q, content);
      && Send(Packet(m.nodeId, EVERYBODY, Accept(q, value))) in out.events
      && out.mod.acceptor.highestSeen == q && Votes(out.mod, m.nodeId, q, b, 0)
  {
    hide LearnerDo;
    value := if content == -1 then m.nodeId else content;
    var out := PhaseTwo(f, m, q, content);
    assert out.events[0] == Send(Packet(m.nodeId, EVERYBODY, Accept(q, value)));
    var m1 := Persisted(m.(enteredPnum := q).(acceptor := AcceptorRecord(q, q, value)));
    MajorityElects(m1, m.nodeId, q, value);
    if !f.ownAcceptor {
      assert Voters(out.mod.learner, q, m.groupSize) == {m.nodeId};
    }
  }

  /** One more vote. */
  lemma VoteCounts(m: Mod, i: nat, q: int, b: int, k: nat, value: int)
    requires Votes(m, i, q, b, k) && k < m.groupSize && k != i && b < q && q >= 0
    ensures Votes(LearnerDo(m, k, q, value).mod, i, q, b, k + 1)
  {
    hide Voters;
    if m.learner[k].pnum < q {
      MajorityElects(m, k, q, value);
    }
  }

  /** When all have voted, the proposer has left the election. */
  lemma AllVoted(m: Mod, i: nat, q: int, b: int)
    requires Votes(m, i, q, b, m.groupSize)
    ensures m.post
  {
    if !m.post {
      AllVoters(m.learner, q, m.groupSize);
    }
  }

  lemma {:induction false} AllVoters(learner: seq<LearnerRecord>, q: int, k: nat)
    requires k <= |learner| && forall j :: 0 <= j < k ==> learner[j].pnum == q
    ensures |Voters(learner, q, k)| == k
  {
    if k > 0 {
      AllVoters(learner, q, k - 1);
      assert Voters(learner, q, k) == Voters(learner, q, k - 1) + {k - 1};
    }
  }

  // ---------- the two phases ----------

  /** Node i waits for answers to number q, which is new to every node but those that answered. */
  predicate Waiting(c: Cluster, n: nat, i: nat, q: int, b: int) {
    && Known(n, c) && i < n && n >= 2 && b < q && q >= 0
    && var m := c.mods[i];
    && Origin(m) == q && m.enteredPnum <= b && m.acceptor.highestSeen == q
    && (forall j :: 0 <= j < n ==> m.learner[j].pnum <= b)
    && i in Answered(m.proposer, q, n) && |Answered(m.proposer, q, n)| < Half(n)
    && (forall j {:trigger c.mods[j]} :: 0 <= j < n ==> c.mods[j].acceptor.highestSeen <= q)
    && (forall j {:trigger c.mods[j]} :: 0 <= j < n && j !in Answered(m.proposer, q, n) ==> c.mods[j].acceptor.highestSeen <= b)
    && Packet(i, EVERYBODY, Prepare(q, -1)) in c.net
  }

  /** Node i has asked for votes for `value` under q, and counted those of the nodes below k. */
  predicate Voting(c: Cluster, n: nat, i: nat, q: int, b: int, value: int, k: nat) {
    && Known(n, c) && i < n && n >= 2 && b < q && q >= 0
    && Votes(c.mods[i], i, q, b, k) && Packet(i, EVERYBODY, Accept(q, value)) in c.net
    && (forall j {:trigger c.mods[j]} :: 0 <= j < n ==> c.mods[j].acceptor.highestSeen <= q)
  }

  /** The proposal with the fresh number. */
  lemma StartsWaiting(f: Fixes, n: nat, c0: Cluster, c: Cluster, i: nat, b: int) returns (c': Cluster)
    requires Underway(f, n, c0, c) && i < |c.mods| == n && n >= 2 && AllBounded(c, b) && b < c.mods[i].nextPnum && !c.mods[i].post
    ensures Underway(f, n, c0, c') && Waiting(c', n, i, c.mods[i].nextPnum, b)
  {
    hide Underway, Propose;
    KnownHere(f, n, c0, c);
    var m, step := c.mods[i], Timeout(i);
    FreshProposal(f, m, b);
    OwnPrepare(f, m);
    PacketsAre(OutcomeOf(f, c, step), Packet(i, EVERYBODY, Prepare(m.nextPnum, -1)));
    StepOn(f, n, c0, c, step);
    c' := Apply(f, c, step);
    KnownHere(f, n, c0, c');
  }

  /** The PREPARE reaches node j, which has not answered. */
  lemma PrepareArrives(f: Fixes, n: nat, c0: Cluster, c: Cluster, i: nat, q: int, b: int, j: nat)
    returns (c': Cluster, ack: Packet)
    requires Underway(f, n, c0, c) && Waiting(c, n, i, q, b) && j < n && j !in Answered(c.mods[i].proposer, q, n)
    ensures Underway(f, n, c0, c') && Known(n, c') && c'.mods == c.mods[j := c'.mods[j]] && c.net <= c'.net && ack in c'.net
    ensures ack.from == j && ack.to == i && ack.msg.PrepareAck? && ack.msg.pPnum == q && ack.msg.pnum != -1
    ensures c'.mods[j].acceptor.highestSeen == q
  {
    hide Underway;
    var p, m := Packet(i, EVERYBODY, Prepare(q, -1)), c.mods[j];
    var step := Receive(j, p);
    var out := OutcomeOf(f, c, step);
    ack := Packet(j, i, PrepareAck(q, m.acceptor.accepted, out.mod.acceptor.content));
    assert out.events[1] == Send(ack);
    PacketsAre(out, ack);
    StepOn(f, n, c0, c, step);
    c' := Apply(f, c, step);
    KnownHere(f, n, c0, c');
  }

  /** Node j answers, and the proposer waits on, or asks for votes. */
  lemma OneAnswers(f: Fixes, n: nat, c0: Cluster, c: Cluster, i: nat, q: int, b: int, j: nat) returns (c': Cluster, value: int)
    requires Underway(f, n, c0, c) && Waiting(c, n, i, q, b) && j < n && j !in Answered(c.mods[i].proposer, q, n)
    ensures Underway(f, n, c0, c')
    ensures Voting(c', n, i, q, b, value, 0) ||
      (Waiting(c', n, i, q, b) && Answered(c'.mods[i].proposer, q, n) == Answered(c.mods[i].proposer, q, n) + {j})
  {
    hide Underway, ProposerAck, Votes, Answered;
    var c1, ack := PrepareArrives(f, n, c0, c, i, q, b, j);
    var m, step := c1.mods[i], Receive(i, ack);
    assert m == c.mods[i];
    AnswerCounts(f, m, j, q, ack.msg.pnum, ack.msg.content);
    StepOn(f, n, c0, c1, step);
    c' := Apply(f, c1, step);
    KnownHere(f, n, c0, c');
    value := 0;
    var m1 := m.(proposer := m.proposer[j := ProposerRecord(q, ack.msg.pnum, ack.msg.content)]);
    if |Answered(m1.proposer, q, n)| >= Half(n) {
      value := PhaseTwoAsks(f, m1, q, b, PrepareScan(m1.proposer, q, n).content);
      PacketsAre(OutcomeOf(f, c1, step), Packet(i, EVERYBODY, Accept(q, value)));
    }
  }

  /** The nodes answer one after the other, until a majority has. */
  lemma {:induction false} AnswerUpTo(f: Fixes, n: nat, c0: Cluster, c: Cluster, i: nat, q: int, b: int, k: nat)
    returns (c': Cluster, value: int)
    requires Underway(f, n, c0, c) && Waiting(c, n, i, q, b) && k <= n
    ensures Underway(f, n, c0, c')
    ensures Voting(c', n, i, q, b, value, 0) ||
      (Waiting(c', n, i, q, b) && forall j: nat :: j < k ==> j in Answered(c'.mods[i].proposer, q, n))
  {
    hide Underway, Waiting, Voting, Answered;
    c', value := c, 0;
    if k > 0 {
      c', value := AnswerUpTo(f, n, c0, c, i, q, b, k - 1);
      if !Voting(c', n, i, q, b, value, 0) {
        WaitingShape(c', n, i, q, b);
        if k - 1 !in Answered(c'.mods[i].proposer, q, n) {
          c', value := OneAnswers(f, n, c0, c', i, q, b, k - 1);
        }
      }
    }
  }

  lemma WaitingShape(c: Cluster, n: nat, i: nat, q: int, b: int)
    requires Waiting(c, n, i, q, b)
    ensures i < |c.mods| && n == |c.mods[i].proposer|
  {
  }

  lemma NotAllWait(c: Cluster, n: nat, i: nat, q: int, b: int)
    requires Waiting(c, n, i, q, b)
    ensures exists j: nat :: j < n && j !in Answered(c.mods[i].proposer, q, n)
  {
    if forall j: nat :: j < n ==> j in Answered(c.mods[i].proposer, q, n) {
      assert forall j: nat :: j < n ==> j in Answered(c.mods[i].proposer, q, n) && c.mods[i].proposer[j].pPnum == q;
      AllAnswer(c.mods[i].proposer, q, n);
    }
  }

  lemma {:induction false} AllAnswer(proposer: seq<ProposerRecord>, q: int, k: nat)
    requires k <= |proposer| && forall j: nat :: j < k ==> proposer[j].pPnum == q && proposer[j].aPnum != -1
    ensures |Answered(proposer, q, k)| == k
  {
    if k > 0 {
      AllAnswer(proposer, q, k - 1);
      assert Answered(proposer, q, k) == Answered(proposer, q, k - 1) + {k - 1};
    }
  }

  /** The ACCEPT reaches node j, which tells everybody of its vote. */
  lemma AcceptArrives(f: Fixes, n: nat, c0: Cluster, c: Cluster, i: nat, q: int, b: int, value: int, j: nat) returns (c': Cluster)
    requires Underway(f, n, c0, c) && Voting(c, n, i, q, b, value, j) && j < n && j != i
    ensures Underway(f, n, c0, c') && Known(n, c') && c'.mods == c.mods[j := c'.mods[j]] && c.net <= c'.net
    ensures Packet(j, EVERYBODY, AcceptAck(q, value)) in c'.net && c'.mods[j].acceptor.highestSeen == q
  {
    hide Underway, LearnerDo, Votes;
    var p, step := Packet(i, EVERYBODY, Accept(q, value)), Receive(j, Packet(i, EVERYBODY, Accept(q, value)));
    var out, ack := OutcomeOf(f, c, step), Packet(j, EVERYBODY, AcceptAck(q, value));
    assert out.events[|out.events| - 1] == Send(ack);
    PacketsAre(out, ack);
    StepOn(f, n, c0, c, step);
    c' := Apply(f, c, step);
    KnownHere(f, n, c0, c');
  }

  /** Node j votes, and the proposer counts it. */
  lemma OneVotes(f: Fixes, n: nat, c0: Cluster, c: Cluster, i: nat, q: int, b: int, value: int, j: nat) returns (c': Cluster)
    requires Underway(f, n, c0, c) && Voting(c, n, i, q, b, value, j) && j < n && j != i
    ensures Underway(f, n, c0, c') && Voting(c', n, i, q, b, value, j + 1)
  {
    hide Underway, LearnerDo, Votes;
    var c1 := AcceptArrives(f, n, c0, c, i, q, b, value, j);
    var step := Receive(i, Packet(j, EVERYBODY, AcceptAck(q, value)));
    assert c1.mods[i] == c.mods[i];
    VoteCounts(c1.mods[i], i, q, b, j, value);
    StepOn(f, n, c0, c1, step);
    c' := Apply(f, c1, step);
    KnownHere(f, n, c0, c');
  }

  lemma SameRows(m: Mod, i: nat, q: int, b: int)
    requires Votes(m, i, q, b, i)
    ensures Votes(m, i, q, b, i + 1)
  {
  }

  lemma {:induction false} VoteUpTo(f: Fixes, n: nat, c0: Cluster, c: Cluster, i: nat, q: int, b: int, value: int, k: nat)
    returns (c': Cluster)
    requires Underway(f, n, c0, c) && Voting(c, n, i, q, b, value, 0) && k <= n
    ensures Underway(f, n, c0, c') && Voting(c', n, i, q, b, value, k)
  {
    hide Underway, Votes;
    c' := c;
    if k > 0 {
      c' := VoteUpTo(f, n, c0, c, i, q, b, value, k - 1);
      if k - 1 == i {
        SameRows(c'.mods[i], i, q, b);
      } else {
        c' := OneVotes(f, n, c0, c', i, q, b, value, k - 1);
      }
    }
  }

  // ---------- the main result ----------

  /** Some node can leave the election, in a group of at least two or if the own vote is counted. */
  lemma SomebodyLeaves(f: Fixes, n: nat, c0: Cluster, c: Cluster) returns (c': Cluster, i: nat)
    requires Underway(f, n, c0, c) && (n >= 2 || f.ownAcceptor)
    ensures Underway(f, n, c0, c') && i < |c'.mods| == n && c'.mods[i].post
  {
    hide Underway, Bounded;
    KnownHere(f, n, c0, c);
    i := 0;
    var b := ClusterBound(c, n);
    c' := UntilFresh(f, n, c0, c, 0, b);
    KnownHere(f, n, c0, c');
    if !c'.mods[0].post {
      if n == 1 {
        Alone(f, c'.mods[0], b);
        StepOn(f, n, c0, c', Timeout(0));
        c' := Apply(f, c', Timeout(0));
      } else {
        c' := Campaign(f, n, c0, c', b);
      }
    }
  }

  lemma Campaign(f: Fixes, n: nat, c0: Cluster, c: Cluster, b: int) returns (c': Cluster)
    requires Underway(f, n, c0, c) && |c.mods| == n >= 2 && AllBounded(c, b) && b < c.mods[0].nextPnum && !c.mods[0].post
    ensures Underway(f, n, c0, c') && |c'.mods| == n && c'.mods[0].post
  {
    hide Underway, Votes, Answered;
    var q := c.mods[0].nextPnum;
    var c1 := StartsWaiting(f, n, c0, c, 0, b);
    var c2, value := AnswerUpTo(f, n, c0, c1, 0, q, b, n);
    if !Voting(c2, n, 0, q, b, value, 0) {
      NotAllWait(c2, n, 0, q, b);
    }
    c' := VoteUpTo(f, n, c0, c2, 0, q, b, value, n);
    AllVoted(c'.mods[0], 0, q, b);
  }

  /** In a group of one that does not count its own vote nothing is ever received. */
  predicate Unheard(f: Fixes, c: Cluster) {
    && |c.mods| == 1 && !f.ownAcceptor && !c.mods[0].post && c.mods[0].nodeId == 0 && c.mods[0].groupSize == 1 && Shaped(c.mods[0])
    && forall p :: p in c.net ==> p.from == 0 && p.to == EVERYBODY
  }

  lemma StaysUnheard(f: Fixes, c: Cluster, step: Step)
    requires Unheard(f, c) && Enabled(c, step)
    ensures Unheard(f, Apply(f, c, step))
  {
    hide PrepareScan;
    var c', out := Apply(f, c, step), OutcomeOf(f, c, step);
    forall p | p in c'.net ensures p.from == 0 && p.to == EVERYBODY {
      PacketsAre(out, p);
    }
  }

  lemma {:induction false} NeverHeard(f: Fixes, states: seq<Cluster>, steps: seq<Step>, t: nat)
    requires RunBetween(f, states, steps) && Unheard(f, states[0]) && t <= |steps|
    ensures Unheard(f, states[t])
  {
    hide Unheard, Enabled, Apply;
    if t > 0 {
      NeverHeard(f, states, steps, t - 1);
      StaysUnheard(f, states[t - 1], steps[t - 1]);
    }
  }

  lemma ReachableUnheard(f: Fixes, c: Cluster)
    requires Reachable(f, 1, c) && !f.ownAcceptor
    ensures Unheard(f, c)
  {
    hide Unheard, Enabled, Apply;
    var states, steps :| Execution(f, 1, states, steps) && states[|steps|] == c;
    FreshUnheard(f, states[0]);
    NeverHeard(f, states, steps, |steps|);
  }

  lemma FreshUnheard(f: Fixes, c: Cluster)
    requires Init(1, c) && !f.ownAcceptor
    ensures Unheard(f, c)
  {
    assert InitMod(1, c.mods[0], 0);
  }

  /**
   From every reachable state, of every variant, a run can go on until every node has left the election, exactly if the
   group has more than one node or a node's own vote is counted.
   */
  lemma ElectionCanEnd(f: Fixes, n: nat, c: Cluster)
    requires Reachable(f, n, c)
    ensures (exists c' :: Leads(f, c, c') && AllPost(c')) <==> n >= 2 || f.ownAcceptor
  {
    hide Reachable, Leads, Known;
    ReachableIsKnown(f, n, c);
    GroupSize(n, c);
    if n >= 2 || f.ownAcceptor {
      LeadsHere(f, c);
      var c1, i := SomebodyLeaves(f, n, c, c);
      var c2, k := AllAreTold(f, n, c, c1, i);
      assert Leads(f, c, c2);
    } else {
      forall c' | Leads(f, c, c') ensures !AllPost(c') {
        NeverEnds(f, c, c');
      }
    }
  }

  lemma GroupSize(n: nat, c: Cluster)
    requires Known(n, c)
    ensures n == |c.mods| >= 1
  {
  }

  lemma NeverEnds(f: Fixes, c: Cluster, c': Cluster)
    requires Reachable(f, 1, c) && !f.ownAcceptor && Leads(f, c, c')
    ensures !AllPost(c')
  {
    ReachableUnheard(f, c);
    var states: seq<Cluster>, steps: seq<Step> :| RunBetween(f, states, steps) && states[0] == c && states[|steps|] == c';
    NeverHeard(f, states, steps, |steps|);
  }

  /** From every reachable state in which some node has left the election, every other node but the one that announced its
      leader can leave it with that leader, by receiving the announcement. */
  lemma LeaderCanBeLearned(f: Fixes, n: nat, c: Cluster, i: nat)
    requires Reachable(f, n, c) && i < n && |c.mods| == n && c.mods[i].post
    ensures exists c', k: nat, pnum ::
      && Leads(f, c, c') && |c'.mods| == n && AllPost(c')
      && Packet(k, EVERYBODY, Announce(pnum, c.mods[i].newLeader)) in c.net
      && forall j :: 0 <= j < n && j != k ==> c'.mods[j].newLeader == c.mods[i].newLeader
  {
    hide Reachable, Leads;
    LeadsHere(f, c);
    var c', k := AllAreTold(f, n, c, c, i);
    var pnum :| Packet(k, EVERYBODY, Announce(pnum, c.mods[i].newLeader)) in c.net;
    assert Leads(f, c, c') && Packet(k, EVERYBODY, Announce(pnum, c.mods[i].newLeader)) in c.net;
  }
}
