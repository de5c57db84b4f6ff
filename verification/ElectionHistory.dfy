/**
 Where an elected leader comes from, in every run of every variant: its name was
 announced to all other nodes, and it is a node that proposed.
 */
module ElectionHistory {
  import opened Basics
  import opened ElectionNode
  import opened ElectionCluster
  import opened ElectionInvariant
  import opened ElectionSafety

  // ---------- who leaves the election says so ----------

  /** What one handler call may do to the post stage: nothing, or enter it and announce the leader to all other nodes. */
  ghost predicate SaysSo(m: Mod, out: Outcome) {
    && (m.post ==> out.mod.post)
    && (forall p :: Send(p) in out.events && p.msg.Announce? ==> p.from == m.nodeId && p.to == EVERYBODY && out.mod.post)
    && (|| (out.mod.post == m.post && out.mod.newLeader == m.newLeader)
        || (out.mod.post && exists pnum :: Send(Packet(m.nodeId, EVERYBODY, Announce(pnum, out.mod.newLeader))) in out.events))
  }

  lemma LearnerSaysSo(m: Mod, from: nat, pnum: int, content: int)
    requires Shaped(m) && from < m.groupSize
    ensures SaysSo(m, LearnerDo(m, from, pnum, content))
  {
    var out := LearnerDo(m, from, pnum, content);
    if |out.events| > 0 {
      assert out.events[0] in out.events;
    }
  }

  /** More events that announce nothing do no harm. */
  lemma SaysSoAmong(m: Mod, m1: Mod, out: Outcome, before: seq<Event>, after: seq<Event>)
    requires SaysSo(m1, out) && m1.nodeId == m.nodeId && m1.post == m.post && m1.newLeader == m.newLeader
    requires forall e :: e in before + after ==> e.Persist? || !e.packet.msg.Announce?
    ensures SaysSo(m, Outcome(out.mod, before + out.events + after))
  {
    var events := before + out.events + after;
    assert forall e :: e in events <==> e in before || e in out.events || e in after;
    forall p | Send(p) in events && p.msg.Announce? ensures Send(p) in out.events {
      assert Send(p) in before ==> Send(p) in before + after;
      assert Send(p) in after ==> Send(p) in before + after;
    }
  }

  lemma AcceptorSaysSo(m: Mod, pnum: int, content: int)
    requires Shaped(m)
    ensures SaysSo(m, AcceptorAccept(m, pnum, content))
  {
    if pnum >= m.acceptor.highestSeen {
      var record := AcceptorRecord(pnum, pnum, content);
      var m1 := Persisted(m.(acceptor := record));
      LearnerSaysSo(m1, m.nodeId, pnum, content);
      SaysSoAmong(m, m1, LearnerDo(m1, m.nodeId, pnum, content), [Persist(record)], [Broadcast(m, AcceptAck(pnum, content))]);
    }
  }

  lemma CheckSaysSo(f: Fixes, m: Mod)
    requires Shaped(m)
    ensures SaysSo(m, CheckPrepare(f, m))
  {
    hide AcceptorAccept, PrepareScan;
    var s := PrepareScan(m.proposer, Origin(m), m.groupSize);
    var value := if s.content == -1 then m.nodeId else s.content;
    var m1 := m.(enteredPnum := Origin(m));
    AcceptorSaysSo(m1, Origin(m), value);
    var own := AcceptorAccept(m1, Origin(m), value);
    var accept := [Broadcast(m, Accept(Origin(m), value))];
    SaysSoAmong(m, m1, own, accept, []);
    assert accept + own.events + [] == accept + own.events;
  }

  lemma ProposerSaysSo(f: Fixes, m: Mod)
    requires Shaped(m)
    ensures SaysSo(m, Propose(f, m))
  {
    hide CheckPrepare;
    if m.acceptor.highestSeen < m.nextPnum {
      ProposeIs(f, m);
      CheckSaysSo(f, Proposing(m));
      var first := [Broadcast(m, Prepare(m.nextPnum, -1)), Persist(m.acceptor.(highestSeen := m.nextPnum))];
      var checked := CheckPrepare(f, Proposing(m));
      SaysSoAmong(m, Proposing(m), checked, first, []);
      assert first + checked.events + [] == first + checked.events;
    }
  }

  /** What a step may do to a node's post stage: as SaysSo, or it takes the leader it is told. */
  ghost predicate Learns(c: Cluster, step: Step, out: Outcome)
    requires Enabled(c, step)
  {
    var m := c.mods[step.i];
    || SaysSo(m, out)
    || (step.Receive? && step.p.msg.Announce? && out.mod.post && out.mod.newLeader == step.p.msg.content && out.events == [])
  }

  lemma StepLearns(f: Fixes, c: Cluster, step: Step)
    requires Enabled(c, step)
    ensures Learns(c, step, OutcomeOf(f, c, step))
    ensures c.mods[step.i].post ==> OutcomeOf(f, c, step).mod.post
  {
    hide AcceptorAccept, CheckPrepare, LearnerDo, Propose;
    var m := c.mods[step.i];
    match step {
      case Timeout(_) => ProposerSaysSo(f, m);
      case Receive(_, p) =>
        match p.msg {
          case Prepare(_, _) =>
          case PrepareAck(pPnum, pnum, content) =>
            CheckSaysSo(f, m.(proposer := m.proposer[p.from := ProposerRecord(pPnum, pnum, content)]));
          case Accept(pnum, content) => AcceptorSaysSo(m, pnum, content);
          case AcceptAck(pnum, content) => LearnerSaysSo(m, p.from, pnum, content);
          case Announce(_, _) =>
        }
    }
  }

  /** `leader` has been announced to everybody but the announcing node. */
  ghost predicate Announced(net: set<Packet>, leader: int) {
    exists j, pnum :: Packet(j, EVERYBODY, Announce(pnum, leader)) in net
  }

  /** Who announced a leader is in the post stage itself. */
  predicate AnnouncersArePost(c: Cluster) {
    forall p {:trigger p in c.net} :: p in c.net && p.msg.Announce? ==> p.to == EVERYBODY && p.from < |c.mods| && c.mods[p.from].post
  }

  lemma PacketsAre(out: Outcome, p: Packet)
    ensures p in Packets(out.events) <==> Send(p) in out.events
  {
  }

  lemma AnnouncedStays(net: set<Packet>, net': set<Packet>, leader: int)
    requires Announced(net, leader) && net <= net'
    ensures Announced(net', leader)
  {
    var j, pnum :| Packet(j, EVERYBODY, Announce(pnum, leader)) in net;
    assert Packet(j, EVERYBODY, Announce(pnum, leader)) in net';
  }

  lemma StepAnnounces(f: Fixes, n: nat, c: Cluster, step: Step)
    requires Enabled(c, step) && NumbersOk(n, c) && AnnouncersArePost(c)
    ensures AnnouncersArePost(Apply(f, c, step))
    ensures var m, m' := c.mods[step.i], Apply(f, c, step).mods[step.i];
      m'.post ==> (m.post && m'.newLeader == m.newLeader) || Announced(Apply(f, c, step).net, m'.newLeader)
  {
    hide OutcomeOf, NumbersOk;
    var c', out := Apply(f, c, step), OutcomeOf(f, c, step);
    StepLearns(f, c, step);
    Ids(n, c, step.i);
    forall p {:trigger p in c'.net} | p in c'.net && p.msg.Announce?
      ensures p.to == EVERYBODY && p.from < |c'.mods| && c'.mods[p.from].post
    {
      PacketsAre(out, p);
    }
    if out.mod.post {
      if step.Receive? && step.p.msg.Announce? && out.mod.newLeader == step.p.msg.content {
        assert step.p in c.net && step.p.to == EVERYBODY;
        assert step.p == Packet(step.p.from, EVERYBODY, Announce(step.p.msg.pnum, step.p.msg.content));
        assert Packet(step.p.from, EVERYBODY, Announce(step.p.msg.pnum, out.mod.newLeader)) in c'.net;
      } else if !(c.mods[step.i].post && out.mod.newLeader == c.mods[step.i].newLeader) {
        var pnum :| Send(Packet(c.mods[step.i].nodeId, EVERYBODY, Announce(pnum, out.mod.newLeader))) in out.events;
        var p := Packet(c.mods[step.i].nodeId, EVERYBODY, Announce(pnum, out.mod.newLeader));
        PacketsAre(out, p);
        assert p in c'.net;
      }
    }
  }

  lemma Ids(n: nat, c: Cluster, i: nat)
    requires NumbersOk(n, c) && i < |c.mods|
    ensures c.mods[i].nodeId == i && Shaped(c.mods[i]) && c.mods[i].groupSize == n == |c.mods|
  {
  }

  /** In every run of every variant: the leader a node has left the election with was announced to all other nodes, by
      a node that has left the election too. */
  lemma LeaderWasAnnounced(f: Fixes, n: nat, states: seq<Cluster>, steps: seq<Step>, t: nat, i: nat)
    requires Execution(f, n, states, steps) && t < |states| && i < n
    ensures |states[t].mods| == n && AnnouncersArePost(states[t])
    ensures states[t].mods[i].post ==>
      exists j: nat, pnum :: j < n && states[t].mods[j].post
        && Packet(j, EVERYBODY, Announce(pnum, states[t].mods[i].newLeader)) in states[t].net
  {
    hide Enabled, NumbersOk, Announced;
    ExecutionKeepsNumbers(f, n, states, steps, t);
    AnnouncedInRun(f, n, states, steps, t, i);
    if states[t].mods[i].post {
      FindAnnouncement(n, states[t], states[t].mods[i].newLeader);
    }
  }

  lemma FindAnnouncement(n: nat, c: Cluster, leader: int)
    requires AnnouncersArePost(c) && Announced(c.net, leader) && |c.mods| == n
    ensures exists j: nat, pnum :: j < n && c.mods[j].post && Packet(j, EVERYBODY, Announce(pnum, leader)) in c.net
  {
    var j: nat, pnum :| Packet(j, EVERYBODY, Announce(pnum, leader)) in c.net;
    assert j < n && c.mods[j].post;
  }

  lemma {:induction false} AnnouncedInRun(f: Fixes, n: nat, states: seq<Cluster>, steps: seq<Step>, t: nat, i: nat)
    requires Execution(f, n, states, steps) && t < |states| && i < n
    ensures |states[t].mods| == n && AnnouncersArePost(states[t])
    ensures states[t].mods[i].post ==> Announced(states[t].net, states[t].mods[i].newLeader)
  {
    hide NumbersOk, OutcomeOf, Announced;
    ExecutionKeepsNumbers(f, n, states, steps, t);
    SizeOf(n, states[t]);
    if t == 0 {
      assert InitMod(n, states[0].mods[i], i);
    } else {
      var c, step := states[t - 1], steps[t - 1];
      AnnouncedInRun(f, n, states, steps, t - 1, i);
      ExecutionKeepsNumbers(f, n, states, steps, t - 1);
      assert states[t] == Apply(f, c, step);
      StepAnnounces(f, n, c, step);
      if states[t].mods[i].post && Announced(c.net, states[t].mods[i].newLeader) {
        AnnouncedStays(c.net, states[t].net, states[t].mods[i].newLeader);
      }
    }
  }

  lemma SizeOf(n: nat, c: Cluster)
    requires NumbersOk(n, c)
    ensures |c.mods| == n >= 1
  {
  }

  // ---------- a leader has proposed ----------

  /** Node c has sent a PREPARE. */
  ghost predicate Proposed(net: set<Packet>, c: int) {
    exists p :: p in net && p.msg.Prepare? && p.from == c
  }

  ghost predicate OfProposer(net: set<Packet>, content: int) {
    content == -1 || Proposed(net, content)
  }

  /** Every content a module knows names a node that has proposed, or none. */
  ghost predicate ModNames(net: set<Packet>, i: nat, m: Mod) {
    && Shaped(m) && m.nodeId == i && OfProposer(net, m.acceptor.content)
    && (forall j :: 0 <= j < |m.proposer| ==> OfProposer(net, m.proposer[j].content))
    && (forall j :: 0 <= j < |m.learner| && m.learner[j].pnum != -1 ==> Proposed(net, m.learner[j].content))
    && (m.nextPnum == i || Proposed(net, i))
    && (m.post ==> Proposed(net, m.newLeader))
    && 0 <= m.acceptor.highestSeen
  }

  ghost predicate PacketNames(net: set<Packet>, p: Packet) {
    match p.msg
    case Prepare(_, content) => content == -1
    case PrepareAck(pPnum, _, content) => pPnum > 0 && OfProposer(net, content)
    case Accept(pnum, content) => pnum >= 0 && Proposed(net, content)
    case AcceptAck(_, content) => Proposed(net, content)
    case Announce(_, content) => Proposed(net, content)
  }

  ghost predicate OutcomeNames(net: set<Packet>, i: nat, out: Outcome) {
    ModNames(net, i, out.mod) && forall p :: Send(p) in out.events ==> PacketNames(net, p)
  }

  lemma LearnerNames(net: set<Packet>, i: nat, m: Mod, from: nat, pnum: int, content: int)
    requires ModNames(net, i, m) && from < m.groupSize && Proposed(net, content)
    ensures OutcomeNames(net, i, LearnerDo(m, from, pnum, content))
  {
    hide Proposed;
    if pnum > m.learner[from].pnum {
      var m1 := m.(learner := m.learner[from := LearnerRecord(pnum, content)]);
      LearnerCheckMeaning(m1.learner, Half(m.groupSize), 0);
    }
  }

  lemma AcceptorNames(net: set<Packet>, i: nat, m: Mod, pnum: int, content: int)
    requires ModNames(net, i, m) && Proposed(net, content) && pnum >= 0
    ensures OutcomeNames(net, i, AcceptorAccept(m, pnum, content))
  {
    hide Proposed, LearnerDo;
    if pnum >= m.acceptor.highestSeen {
      var m1 := Persisted(m.(acceptor := AcceptorRecord(pnum, pnum, content)));
      LearnerNames(net, i, m1, m.nodeId, pnum, content);
      var learned := LearnerDo(m1, m.nodeId, pnum, content);
      var out := AcceptorAccept(m, pnum, content);
      forall p | Send(p) in out.events ensures PacketNames(net, p) {
        assert Send(p) in learned.events || p.msg == AcceptAck(pnum, content);
      }
    }
  }

  lemma {:induction false} ScanNames(net: set<Packet>, proposer: seq<ProposerRecord>, origin: int, k: nat)
    requires k <= |proposer| && forall j :: 0 <= j < |proposer| ==> OfProposer(net, proposer[j].content)
    ensures OfProposer(net, PrepareScan(proposer, origin, k).content)
  {
    hide Proposed;
    if k > 0 {
      ScanNames(net, proposer, origin, k - 1);
    }
  }

  lemma CheckNames(f: Fixes, net: set<Packet>, i: nat, m: Mod)
    requires ModNames(net, i, m) && Proposed(net, i) && Origin(m) >= 0
    ensures OutcomeNames(net, i, CheckPrepare(f, m))
  {
    hide Proposed, AcceptorAccept, PrepareScan;
    ScanNames(net, m.proposer, Origin(m), m.groupSize);
    var s := PrepareScan(m.proposer, Origin(m), m.groupSize);
    var value := if s.content == -1 then m.nodeId else s.content;
    AcceptorNames(net, i, m.(enteredPnum := Origin(m)), Origin(m), value);
    PhaseTwoNames(f, net, i, m, Origin(m), s.content);
  }

  lemma PhaseTwoNames(f: Fixes, net: set<Packet>, i: nat, m: Mod, pnum: int, content: int)
    requires ModNames(net, i, m) && Proposed(net, i) && OfProposer(net, content) && pnum >= 0
    requires var value := if content == -1 then m.nodeId else content;
      OutcomeNames(net, i, AcceptorAccept(m.(enteredPnum := pnum), pnum, value))
    ensures OutcomeNames(net, i, PhaseTwo(f, m, pnum, content))
  {
    hide Proposed, AcceptorAccept;
    var out := PhaseTwo(f, m, pnum, content);
    var value := if content == -1 then m.nodeId else content;
    forall p | Send(p) in out.events ensures PacketNames(net, p) {
      assert p.msg == Accept(pnum, value) || Send(p) in AcceptorAccept(m.(enteredPnum := pnum), pnum, value).events;
    }
  }

  lemma ProposeNames(f: Fixes, net: set<Packet>, i: nat, m: Mod)
    requires ModNames(net, i, m) && Proposed(net, i) && m.nextPnum >= 0
    ensures OutcomeNames(net, i, Propose(f, m))
  {
    hide Proposed, CheckPrepare;
    if m.acceptor.highestSeen < m.nextPnum {
      ProposeIs(f, m);
      var m1 := Proposing(m);
      CheckNames(f, net, i, m1);
      var checked := CheckPrepare(f, m1);
      forall p | Send(p) in Propose(f, m).events ensures PacketNames(net, p) {
        assert p.msg == Prepare(m.nextPnum, -1) || Send(p) in checked.events;
      }
    }
  }

  lemma HandlerNames(f: Fixes, net: set<Packet>, i: nat, m: Mod, p: Packet)
    requires ModNames(net, i, m) && PacketNames(net, p) && p.from < m.groupSize && i < m.groupSize
    ensures OutcomeNames(net, i, HandleMsg(f, m, p))
  {
    hide Proposed, AcceptorAccept, CheckPrepare, LearnerDo;
    match p.msg {
      case Prepare(_, _) =>
      case PrepareAck(pPnum, pnum, content) =>
        if pPnum == Origin(m) {
          CheckNames(f, net, i, m.(proposer := m.proposer[p.from := ProposerRecord(pPnum, pnum, content)]));
        }
      case Accept(pnum, content) => AcceptorNames(net, i, m, pnum, content);
      case AcceptAck(pnum, content) => LearnerNames(net, i, m, p.from, pnum, content);
      case Announce(_, _) =>
    }
  }

  lemma NamesStay(net: set<Packet>, net': set<Packet>, i: nat, m: Mod)
    requires ModNames(net, i, m) && net <= net'
    ensures ModNames(net', i, m)
  {
    forall c | Proposed(net, c) ensures Proposed(net', c) {
      ProposedStays(net, net', c);
    }
  }

  lemma ProposedStays(net: set<Packet>, net': set<Packet>, c: int)
    requires Proposed(net, c) && net <= net'
    ensures Proposed(net', c)
  {
  }

  lemma PacketNamesStay(net: set<Packet>, net': set<Packet>, p: Packet)
    requires PacketNames(net, p) && net <= net'
    ensures PacketNames(net', p)
  {
    forall c | Proposed(net, c) ensures Proposed(net', c) {
      ProposedStays(net, net', c);
    }
  }

  ghost predicate AllNames(c: Cluster) {
    && (forall i {:trigger c.mods[i]} :: 0 <= i < |c.mods| ==> ModNames(c.net, i, c.mods[i]))
    && (forall p {:trigger p in c.net} :: p in c.net ==> PacketNames(c.net, p))
  }

  lemma OwnPrepare(f: Fixes, m: Mod)
    requires Shaped(m)
    ensures Send(Packet(m.nodeId, EVERYBODY, Prepare(m.nextPnum, -1))) in Propose(f, m).events
  {
    hide CheckPrepare;
    assert Propose(f, m).events[0] == Send(Packet(m.nodeId, EVERYBODY, Prepare(m.nextPnum, -1)));
  }

  lemma StepNames(f: Fixes, n: nat, c: Cluster, step: Step)
    requires AllNames(c) && NumbersOk(n, c) && Enabled(c, step) && (step.Timeout? ==> c.mods[step.i].nextPnum >= 0)
    ensures OutcomeNames(Apply(f, c, step).net, step.i, OutcomeOf(f, c, step))
  {
    hide ModNames, PacketNames, Proposed, OutcomeNames, HandleMsg, Propose, NumbersOk;
    var i, m, net' := step.i, c.mods[step.i], Apply(f, c, step).net;
    NamesStay(c.net, net', i, m);
    Ids(n, c, i);
    match step {
      case Timeout(_) =>
        OwnPrepare(f, m);
        var p := Packet(m.nodeId, EVERYBODY, Prepare(m.nextPnum, -1));
        PacketsAre(OutcomeOf(f, c, step), p);
        IsProposed(net', p);
        ProposeNames(f, net', i, m);
      case Receive(_, p) =>
        PacketNamesStay(c.net, net', p);
        HandlerNames(f, net', i, m, p);
    }
  }

  lemma IsProposed(net: set<Packet>, p: Packet)
    requires p in net && p.msg.Prepare?
    ensures Proposed(net, p.from)
  {
  }

  lemma StepKeepsNames(f: Fixes, n: nat, c: Cluster, step: Step)
    requires AllNames(c) && NumbersOk(n, c) && Enabled(c, step) && (step.Timeout? ==> c.mods[step.i].nextPnum >= 0)
    ensures AllNames(Apply(f, c, step))
  {
    hide ModNames, PacketNames, OutcomeOf, NumbersOk;
    var c', out := Apply(f, c, step), OutcomeOf(f, c, step);
    StepNames(f, n, c, step);
    Ids(n, c, step.i);
    forall i {:trigger c'.mods[i]} | 0 <= i < |c'.mods| ensures ModNames(c'.net, i, c'.mods[i]) {
      if i != step.i {
        NamesStay(c.net, c'.net, i, c.mods[i]);
      }
    }
    forall p {:trigger p in c'.net} | p in c'.net ensures PacketNames(c'.net, p) {
      PacketsAre(out, p);
      if p in c.net {
        PacketNamesStay(c.net, c'.net, p);
      }
    }
  }

  lemma NextIsPositive(n: nat, c: Cluster, i: nat)
    requires NumbersOk(n, c) && i < n
    ensures i < |c.mods| && c.mods[i].nextPnum >= 0
  {
  }

  lemma {:induction false} NamesInRun(f: Fixes, n: nat, states: seq<Cluster>, steps: seq<Step>, t: nat)
    requires Execution(f, n, states, steps) && t < |states|
    ensures AllNames(states[t])
  {
    hide ModNames, PacketNames, NumbersOk;
    if t == 0 {
      forall i | 0 <= i < n ensures ModNames(states[0].net, i, states[0].mods[i]) {
        FreshNames(n, states[0], i);
      }
    } else {
      var c, step := states[t - 1], steps[t - 1];
      NamesInRun(f, n, states, steps, t - 1);
      ExecutionKeepsNumbers(f, n, states, steps, t - 1);
      assert states[t] == Apply(f, c, step);
      SizeOf(n, c);
      NextIsPositive(n, c, step.i);
      StepKeepsNames(f, n, c, step);
    }
  }

  lemma FreshNames(n: nat, c: Cluster, i: nat)
    requires Init(n, c) && i < n
    ensures ModNames(c.net, i, c.mods[i])
  {
    assert InitMod(n, c.mods[i], i);
  }

  /** In every run of every variant: the leader a node has left the election with is a node that has proposed. */
  lemma LeaderProposed(f: Fixes, n: nat, states: seq<Cluster>, steps: seq<Step>, t: nat, i: nat)
    requires Execution(f, n, states, steps) && t < |states| && i < n
    ensures |states[t].mods| == n
    ensures states[t].mods[i].post ==>
      exists p :: p in states[t].net && p.msg.Prepare? && p.from < n && p.from == states[t].mods[i].newLeader
  {
    hide Execution, NumbersOk;
    NamesInRun(f, n, states, steps, t);
    ExecutionKeepsNumbers(f, n, states, steps, t);
    SizeOf(n, states[t]);
    if states[t].mods[i].post {
      assert ModNames(states[t].net, i, states[t].mods[i]);
      var p :| p in states[t].net && p.msg.Prepare? && p.from == states[t].mods[i].newLeader;
      ProposerInGroup(n, states[t], p);
    }
  }

  lemma ProposerInGroup(n: nat, c: Cluster, p: Packet)
    requires NumbersOk(n, c) && p in c.net && p.msg.Prepare?
    ensures p.from < n
  {
  }

  // ---------- what a message does ----------

  /** A timeout asks all other nodes to promise the next number of the node's own. */
  lemma TimeoutProposes(f: Fixes, n: nat, states: seq<Cluster>, steps: seq<Step>, t: nat)
    requires Execution(f, n, states, steps) && t < |steps| && steps[t].Timeout?
    ensures |states[t].mods| == |states[t + 1].mods| == n && steps[t].i < n
    ensures var i, m, m' := steps[t].i, states[t].mods[steps[t].i], states[t + 1].mods[steps[t].i];
      Packet(i, EVERYBODY, Prepare(m.nextPnum, -1)) in states[t + 1].net && m'.nextPnum == m.nextPnum + n
  {
    hide Propose, NumbersOk;
    var c, step := states[t], steps[t];
    assert states[t + 1] == Apply(f, c, step);
    ExecutionKeepsNumbers(f, n, states, steps, t);
    SizeOf(n, c);
    Ids(n, c, step.i);
    var p := Packet(step.i, EVERYBODY, Prepare(c.mods[step.i].nextPnum, -1));
    OwnPrepare(f, c.mods[step.i]);
    ProposeUsesNext(f, c.mods[step.i], p);
    PacketsAre(OutcomeOf(f, c, step), p);
  }

  /** A PREPARE is promised and answered, with what was accepted before, exactly if its number is higher than any the node has
      seen; otherwise nothing changes and nothing is sent. */
  lemma PrepareIsAnswered(f: Fixes, n: nat, states: seq<Cluster>, steps: seq<Step>, t: nat)
    requires Execution(f, n, states, steps) && t < |steps| && steps[t].Receive? && steps[t].p.msg.Prepare?
    ensures |states[t].mods| == |states[t + 1].mods| == n && steps[t].i < n
    ensures var i, p, a, a' := steps[t].i, steps[t].p, states[t].mods[steps[t].i].acceptor, states[t + 1].mods[steps[t].i].acceptor;
      if p.msg.pnum > a.highestSeen then
        && a'.highestSeen == p.msg.pnum && a'.accepted == a.accepted
        && a'.content == (if f.keepContent then a.content else p.msg.content)
        && states[t + 1].net == states[t].net + {Packet(i, p.from, PrepareAck(p.msg.pnum, a'.accepted, a'.content))}
      else states[t + 1].mods == states[t].mods && states[t + 1].net == states[t].net
  {
    hide NumbersOk;
    var c, step := states[t], steps[t];
    assert states[t + 1] == Apply(f, c, step);
    ExecutionKeepsNumbers(f, n, states, steps, t);
    SizeOf(n, c);
    Ids(n, c, step.i);
    PrepareSends(f, c.mods[step.i], step.p.from, step.p.msg.pnum, step.p.msg.content);
    assert c.mods[step.i := c.mods[step.i]] == c.mods;
  }

  lemma PrepareSends(f: Fixes, m: Mod, from: nat, pnum: int, content: int)
    requires Shaped(m)
    ensures var out := AcceptorPrepare(f, m, from, pnum, content); var a := out.mod.acceptor;
      Packets(out.events) == if pnum > m.acceptor.highestSeen
        then {Packet(m.nodeId, from, PrepareAck(pnum, a.accepted, a.content))} else {}
  {
    var out := AcceptorPrepare(f, m, from, pnum, content);
    if pnum > m.acceptor.highestSeen {
      assert out.events[1].Send?;
    }
  }

  /** An ACCEPT is accepted, and the vote told to everybody, exactly if its number is not below the highest the node has seen;
      otherwise nothing changes and nothing is sent. */
  lemma AcceptIsVoted(f: Fixes, n: nat, states: seq<Cluster>, steps: seq<Step>, t: nat)
    requires Execution(f, n, states, steps) && t < |steps| && steps[t].Receive? && steps[t].p.msg.Accept?
    ensures |states[t].mods| == |states[t + 1].mods| == n && steps[t].i < n
    ensures var i, msg, a, a' := steps[t].i, steps[t].p.msg, states[t].mods[steps[t].i].acceptor, states[t + 1].mods[steps[t].i].acceptor;
      if msg.pnum >= a.highestSeen then
        && a' == AcceptorRecord(msg.pnum, msg.pnum, msg.content)
        && Packet(i, EVERYBODY, AcceptAck(msg.pnum, msg.content)) in states[t + 1].net
      else states[t + 1].mods == states[t].mods && states[t + 1].net == states[t].net
  {
    hide NumbersOk, LearnerDo;
    var c, step := states[t], steps[t];
    assert states[t + 1] == Apply(f, c, step);
    ExecutionKeepsNumbers(f, n, states, steps, t);
    SizeOf(n, c);
    Ids(n, c, step.i);
    var msg, out := step.p.msg, OutcomeOf(f, c, step);
    if msg.pnum >= c.mods[step.i].acceptor.highestSeen {
      var ack := Packet(step.i, EVERYBODY, AcceptAck(msg.pnum, msg.content));
      assert out.events[|out.events| - 1] == Send(ack);
      PacketsAre(out, ack);
    }
    assert c.mods[step.i := c.mods[step.i]] == c.mods;
  }
}
