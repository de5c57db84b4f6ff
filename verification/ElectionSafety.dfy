/**
 Who gets elected: with the three repairs every execution elects one leader;
 without any one of them some execution elects two.
 */
module ElectionSafety {
  import opened Basics
  import opened ElectionNode
  import opened ElectionCluster
  import opened ElectionInvariant

  /** A finite execution of a group of n: `states[t + 1]` is `states[t]` after `steps[t]`. */
  predicate Execution(f: Fixes, n: nat, states: seq<Cluster>, steps: seq<Step>) {
    && |states| == |steps| + 1
    && Init(n, states[0])
    && forall t {:trigger steps[t]} :: 0 <= t < |steps| ==>
         Enabled(states[t], steps[t]) && states[t + 1] == Apply(f, states[t], steps[t])
  }

  ghost predicate Reachable(f: Fixes, n: nat, c: Cluster) {
    exists states, steps :: Execution(f, n, states, steps) && states[|steps|] == c
  }

  lemma ReachStart(f: Fixes, n: nat, c: Cluster)
    requires Init(n, c)
    ensures Reachable(f, n, c)
  {
    assert Execution(f, n, [c], []);
  }

  lemma ReachStep(f: Fixes, n: nat, c: Cluster, step: Step)
    requires Reachable(f, n, c) && Enabled(c, step)
    ensures Reachable(f, n, Apply(f, c, step))
  {
    var states, steps :| Execution(f, n, states, steps) && states[|steps|] == c;
    var states', steps' := states + [Apply(f, c, step)], steps + [step];
    forall t {:trigger steps'[t]} | 0 <= t < |steps'|
      ensures Enabled(states'[t], steps'[t]) && states'[t + 1] == Apply(f, states'[t], steps'[t])
    {
      if t < |steps| {
        assert steps'[t] == steps[t];
      }
    }
    assert Execution(f, n, states', steps');
  }

  /** Two nodes in the post stage with different leaders. */
  ghost predicate Split(c: Cluster) {
    exists i, j :: 0 <= i < |c.mods| && 0 <= j < |c.mods| && c.mods[i].post && c.mods[j].post
      && c.mods[i].newLeader != c.mods[j].newLeader
  }

  // ---------- the repaired election ----------

  lemma {:induction false} ExecutionKeepsInv(n: nat, states: seq<Cluster>, steps: seq<Step>, t: nat)
    requires Execution(REPAIRED, n, states, steps) && t < |states|
    ensures Inv(states[t]) && |states[t].mods| == n
  {
    if t == 0 {
      InitEstablishesInv(n, states[0]);
    } else {
      ExecutionKeepsInv(n, states, steps, t - 1);
      assert states[t] == Apply(REPAIRED, states[t - 1], steps[t - 1]);
      StepKeepsInv(states[t - 1], steps[t - 1]);
    }
  }

  lemma {:induction false} NetGrows(f: Fixes, n: nat, states: seq<Cluster>, steps: seq<Step>, t: nat, u: nat)
    requires Execution(f, n, states, steps) && t <= u < |states|
    ensures states[t].net <= states[u].net
    decreases u - t
  {
    if t < u {
      NetGrows(f, n, states, steps, t, u - 1);
      assert states[u] == Apply(f, states[u - 1], steps[u - 1]);
    }
  }

  /** Whoever any two nodes take for the new leader, at whatever two times, is the same
      node of the group, and a majority accepted it. */
  lemma OneLeader(n: nat, states: seq<Cluster>, steps: seq<Step>, t: nat, i: nat, u: nat, j: nat)
    requires Execution(REPAIRED, n, states, steps) && t < |states| && u < |states| && i < n && j < n
    ensures |states[t].mods| == |states[u].mods| == n
    ensures states[t].mods[i].post && states[u].mods[j].post ==>
      var leader := states[t].mods[i].newLeader;
      && states[u].mods[j].newLeader == leader && 0 <= leader < n
      && exists pnum :: Chosen(n, states[t].net, pnum, leader)
  {
    ExecutionKeepsInv(n, states, steps, t);
    ExecutionKeepsInv(n, states, steps, u);
    if states[t].mods[i].post && states[u].mods[j].post {
      var last := if t <= u then u else t;
      ExecutionKeepsInv(n, states, steps, last);
      NetGrows(REPAIRED, n, states, steps, t, last);
      NetGrows(REPAIRED, n, states, steps, u, last);
      var hs, net := HighestSeen(states[last].mods), states[last].net;
      var c, c' := states[t].mods[i].newLeader, states[u].mods[j].newLeader;
      var p :| Chosen(n, states[t].net, p, c);
      var p' :| Chosen(n, states[u].net, p', c');
      ChosenStable(n, states[t].net, net, p, c);
      ChosenStable(n, states[u].net, net, p', c');
      ChosenAgree(hs, net, p, c, p', c');
      var q :| Majority(n, q) && AllAcked(net, q, p, c);
      var k :| k in q;
      var _ := VoteWasAskedFor(hs, net, k, p, c);
    }
  }

  // ---------- what holds with or without the repairs ----------

  /** Before an acknowledgement leaves, the record it reports is in the database. */
  predicate PersistedFirst(events: seq<Event>) {
    forall k {:trigger events[k]} :: 0 <= k < |events| && events[k].Send? ==>
      match events[k].packet.msg
      case PrepareAck(pPnum, pnum, content) => Persist(AcceptorRecord(pPnum, pnum, content)) in events[..k]
      case AcceptAck(pnum, content) => Persist(AcceptorRecord(pnum, pnum, content)) in events[..k]
      case _ => true
  }

  /** More events before do no harm. */
  lemma PersistedFirstAfter(before: seq<Event>, events: seq<Event>)
    requires PersistedFirst(before) && PersistedFirst(events)
    ensures PersistedFirst(before + events)
  {
    var all := before + events;
    forall k {:trigger all[k]} | 0 <= k < |all|
      ensures k < |before| ==> all[..k] == before[..k]
      ensures k >= |before| ==> all[..k] == before + events[..k - |before|]
    {
    }
  }

  lemma AcceptPersistsFirst(m: Mod, pnum: int, content: int)
    requires Shaped(m)
    ensures PersistedFirst(AcceptorAccept(m, pnum, content).events)
  {
    var events := AcceptorAccept(m, pnum, content).events;
    if pnum >= m.acceptor.highestSeen {
      assert events[0] == Persist(AcceptorRecord(pnum, pnum, content));
      forall k | 0 < k < |events| ensures events[0] in events[..k] {
        assert events[..k][0] == events[0];
      }
    }
  }

  lemma CheckPersistsFirst(f: Fixes, m: Mod)
    requires Shaped(m)
    ensures PersistedFirst(CheckPrepare(f, m).events)
  {
    var s := PrepareScan(m.proposer, Origin(m), m.groupSize);
    if CheckPrepare(f, m) == PhaseTwo(f, m, Origin(m), s.content) {
      var value := if s.content == -1 then m.nodeId else s.content;
      var accept := [Broadcast(m, Accept(Origin(m), value))];
      AcceptPersistsFirst(m.(enteredPnum := Origin(m)), Origin(m), value);
      PersistedFirstAfter(accept, AcceptorAccept(m.(enteredPnum := Origin(m)), Origin(m), value).events);
    }
  }

  lemma PreparePersistsFirst(f: Fixes, m: Mod, from: nat, pnum: int, content: int)
    requires Shaped(m)
    ensures PersistedFirst(AcceptorPrepare(f, m, from, pnum, content).events)
  {
    var events := AcceptorPrepare(f, m, from, pnum, content).events;
    if |events| > 0 {
      assert events[..1][0] == events[0];
    }
  }

  lemma ProposePersistsFirst(f: Fixes, m: Mod)
    requires Shaped(m)
    ensures PersistedFirst(Propose(f, m).events)
  {
    if m.acceptor.highestSeen < m.nextPnum {
      var first := [Broadcast(m, Prepare(m.nextPnum, -1)), Persist(m.acceptor.(highestSeen := m.nextPnum))];
      var checked := CheckPrepare(f, Proposing(m));
      ProposeIs(f, m);
      assert Propose(f, m).events == first + checked.events;
      CheckPersistsFirst(f, Proposing(m));
      assert PersistedFirst(first);
      PersistedFirstAfter(first, checked.events);
    }
  }

  /** Every handler, repaired or not, writes its record before it answers. */
  lemma HandlersPersistFirst(f: Fixes, m: Mod, p: Packet)
    requires Shaped(m) && p.from < m.groupSize
    ensures PersistedFirst(HandleMsg(f, m, p).events) && PersistedFirst(Propose(f, m).events)
  {
    ProposePersistsFirst(f, m);
    match p.msg {
      case Prepare(pnum, content) => PreparePersistsFirst(f, m, p.from, pnum, content);
      case PrepareAck(pPnum, pnum, content) =>
        CheckPersistsFirst(f, m.(proposer := m.proposer[p.from := ProposerRecord(pPnum, pnum, content)]));
      case Accept(pnum, content) => AcceptPersistsFirst(m, pnum, content);
      case AcceptAck(_, _) =>
      case Announce(_, _) =>
    }
  }

  /** What one handler call does to an acceptor: neither number falls, what changed was
      persisted, and a new vote was told to everybody. */
  predicate AcceptorMoved(f: Fixes, m: Mod, out: Outcome) {
    var a, a' := m.acceptor, out.mod.acceptor;
    && out.mod.nodeId == m.nodeId && out.mod.groupSize == m.groupSize
    && a.highestSeen <= a'.highestSeen && a.accepted <= a'.accepted <= a'.highestSeen
    && (out.mod.persisted == Some(a') || (a' == a && out.mod.persisted == m.persisted))
    && (|| Send(Packet(m.nodeId, EVERYBODY, AcceptAck(a'.accepted, a'.content))) in out.events
        || (a'.accepted == a.accepted && (f.keepContent ==> a'.content == a.content)))
  }

  lemma AcceptMoves(f: Fixes, m: Mod, pnum: int, content: int)
    requires Shaped(m) && m.acceptor.accepted <= m.acceptor.highestSeen
    ensures AcceptorMoved(f, m, AcceptorAccept(m, pnum, content))
  {
  }

  lemma ProposeMoves(f: Fixes, m: Mod)
    requires Shaped(m) && m.acceptor.accepted <= m.acceptor.highestSeen
    ensures AcceptorMoved(f, m, Propose(f, m))
  {
    if m.acceptor.highestSeen < m.nextPnum {
      ProposeIs(f, m);
    }
  }

  lemma HandlerMoves(f: Fixes, m: Mod, p: Packet)
    requires Shaped(m) && p.from < m.groupSize && m.acceptor.accepted <= m.acceptor.highestSeen
    ensures AcceptorMoved(f, m, HandleMsg(f, m, p))
  {
    match p.msg {
      case Prepare(_, _) =>
      case PrepareAck(pPnum, pnum, content) =>
      case Accept(pnum, content) => AcceptMoves(f, m, pnum, content);
      case AcceptAck(_, _) =>
      case Announce(_, _) =>
    }
  }

  lemma StepMoves(f: Fixes, c: Cluster, step: Step)
    requires Enabled(c, step) && c.mods[step.i].acceptor.accepted <= c.mods[step.i].acceptor.highestSeen
    ensures AcceptorMoved(f, c.mods[step.i], OutcomeOf(f, c, step))
  {
    match step {
      case Timeout(i) => ProposeMoves(f, c.mods[i]);
      case Receive(i, p) => HandlerMoves(f, c.mods[i], p);
    }
  }

  /** What an acceptor's record says, and what of it is in the database and was told. */
  ghost predicate AcceptorSound(f: Fixes, net: set<Packet>, i: nat, m: Mod) {
    var a := m.acceptor;
    && m.nodeId == i
    && 0 <= a.accepted <= a.highestSeen
    && (m.persisted == Some(a) || (m.persisted == None && a == AcceptorRecord(0, 0, -1)))
    && (a.accepted > 0 ==> exists content :: Acked(net, i, a.accepted, content))
    && (a.accepted > 0 && f.keepContent ==> Acked(net, i, a.accepted, a.content))
  }

  /** In every execution, repaired or not: an acceptor's accepted number does not exceed the highest it has seen,
      what it has in its database is what it acts on, and it told everybody of the number it accepted; of the content
      too, if a PREPARE leaves that alone. */
  lemma {:induction false} AcceptorState(f: Fixes, n: nat, states: seq<Cluster>, steps: seq<Step>, t: nat, i: nat)
    requires Execution(f, n, states, steps) && t < |states| && i < n
    ensures |states[t].mods| == n && AcceptorSound(f, states[t].net, i, states[t].mods[i])
  {
    if t == 0 {
      assert InitMod(n, states[0].mods[i], i);
    } else {
      AcceptorState(f, n, states, steps, t - 1, i);
      var c, step := states[t - 1], steps[t - 1];
      assert states[t] == Apply(f, c, step);
      AcceptorState(f, n, states, steps, t - 1, step.i);
      StepMoves(f, c, step);
      SoundAfter(f, c, step, i);
    }
  }

  lemma SoundAfter(f: Fixes, c: Cluster, step: Step, i: nat)
    requires Enabled(c, step) && i < |c.mods| && AcceptorSound(f, c.net, i, c.mods[i])
    requires AcceptorMoved(f, c.mods[step.i], OutcomeOf(f, c, step))
    ensures AcceptorSound(f, Apply(f, c, step).net, i, Apply(f, c, step).mods[i])
  {
    var net' := Apply(f, c, step).net;
    assert c.net <= net';
    if c.mods[i].acceptor.accepted > 0 {
      var content :| Acked(c.net, i, c.mods[i].acceptor.accepted, content);
      assert Acked(net', i, c.mods[i].acceptor.accepted, content);
    }
    if step.i == i {
      var a', events := OutcomeOf(f, c, step).mod.acceptor, OutcomeOf(f, c, step).events;
      if Send(Packet(i, EVERYBODY, AcceptAck(a'.accepted, a'.content))) in events {
        assert Acked(net', i, a'.accepted, a'.content);
      }
    }
  }

  /** In every execution, repaired or not, neither number of an acceptor is ever lower than it was. */
  lemma {:induction false} AcceptorOnlyRises(f: Fixes, n: nat, states: seq<Cluster>, steps: seq<Step>, t: nat, u: nat, i: nat)
    requires Execution(f, n, states, steps) && t <= u < |states| && i < n
    ensures |states[t].mods| == |states[u].mods| == n
    ensures var a, a' := states[t].mods[i].acceptor, states[u].mods[i].acceptor;
      a.highestSeen <= a'.highestSeen && a.accepted <= a'.accepted
    decreases u - t
  {
    AcceptorState(f, n, states, steps, t, i);
    if t < u {
      AcceptorOnlyRises(f, n, states, steps, t, u - 1, i);
      var c, step := states[u - 1], steps[u - 1];
      assert states[u] == Apply(f, c, step);
      AcceptorState(f, n, states, steps, u - 1, step.i);
      StepMoves(f, c, step);
    }
  }

  /** Proposal numbers: node i's are congruent to i, and all of them are below its next one. */
  predicate NumbersOk(n: nat, c: Cluster) {
    && |c.mods| == n >= 1
    && (forall i {:trigger c.mods[i]} :: 0 <= i < n ==>
          Shaped(c.mods[i]) && c.mods[i].nodeId == i && c.mods[i].groupSize == n && Owns(n, i, c.mods[i].nextPnum))
    && (forall p {:trigger p in c.net} :: p in c.net && p.msg.Prepare? ==>
          p.from < n && Owns(n, p.from, p.msg.pnum) && p.msg.pnum < c.mods[p.from].nextPnum)
  }

  lemma HandlersUseNoNumber(f: Fixes, m: Mod, q: Packet, p: Packet)
    requires Shaped(m) && q.from < m.groupSize && p.msg.Prepare?
    ensures Send(p) !in HandleMsg(f, m, q).events
    ensures HandleMsg(f, m, q).mod.nextPnum == m.nextPnum
    ensures HandleMsg(f, m, q).mod.nodeId == m.nodeId && HandleMsg(f, m, q).mod.groupSize == m.groupSize
  {
  }

  lemma ProposeUsesNext(f: Fixes, m: Mod, p: Packet)
    requires Shaped(m) && p.msg.Prepare?
    ensures Send(p) in Propose(f, m).events ==> p == Packet(m.nodeId, EVERYBODY, Prepare(m.nextPnum, -1))
    ensures Propose(f, m).mod.nextPnum == m.nextPnum + m.groupSize
    ensures Propose(f, m).mod.nodeId == m.nodeId && Propose(f, m).mod.groupSize == m.groupSize
  {
    if m.acceptor.highestSeen < m.nextPnum {
      ProposeIs(f, m);
    }
  }

  lemma StepUsesNumbers(f: Fixes, c: Cluster, step: Step, p: Packet)
    requires Enabled(c, step) && p.msg.Prepare?
    ensures var out, m := OutcomeOf(f, c, step), c.mods[step.i];
      && (p in Packets(out.events) ==> p == Packet(m.nodeId, EVERYBODY, Prepare(m.nextPnum, -1)) && step.Timeout?)
      && out.mod.nextPnum == m.nextPnum + (if step.Timeout? then m.groupSize else 0)
      && out.mod.nodeId == m.nodeId && out.mod.groupSize == m.groupSize
  {
    match step {
      case Timeout(i) => ProposeUsesNext(f, c.mods[i], p);
      case Receive(i, q) => HandlersUseNoNumber(f, c.mods[i], q, p);
    }
  }

  lemma StepKeepsNumbers(f: Fixes, n: nat, c: Cluster, step: Step)
    requires NumbersOk(n, c) && Enabled(c, step)
    ensures NumbersOk(n, Apply(f, c, step))
  {
    hide HandleMsg, Propose;
    var c', out := Apply(f, c, step), OutcomeOf(f, c, step);
    StepUsesNumbers(f, c, step, Packet(0, 0, Prepare(0, 0)));
    forall p {:trigger p in c'.net} | p in c'.net && p.msg.Prepare?
      ensures p.from < n && Owns(n, p.from, p.msg.pnum) && p.msg.pnum < c'.mods[p.from].nextPnum
    {
      StepUsesNumbers(f, c, step, p);
    }
  }

  lemma {:induction false} ExecutionKeepsNumbers(f: Fixes, n: nat, states: seq<Cluster>, steps: seq<Step>, t: nat)
    requires Execution(f, n, states, steps) && t < |states|
    ensures NumbersOk(n, states[t])
  {
    if t == 0 {
      assert forall i :: 0 <= i < n ==> InitMod(n, states[0].mods[i], i);
    } else {
      ExecutionKeepsNumbers(f, n, states, steps, t - 1);
      assert states[t] == Apply(f, states[t - 1], steps[t - 1]);
      StepKeepsNumbers(f, n, states[t - 1], steps[t - 1]);
    }
  }

  /** In every execution, repaired or not: two nodes never use the same proposal number,
      a node's numbers are congruent to its id, and a new one exceeds all it has used. */
  lemma ProposalNumbers(
    f: Fixes, n: nat, states: seq<Cluster>, steps: seq<Step>, t: nat, p: Packet, q: Packet)
    requires Execution(f, n, states, steps) && t < |states|
    requires p in states[t].net && q in states[t].net && p.msg.Prepare? && q.msg.Prepare?
    ensures |states[t].mods| == n >= 1 && p.from < n
    ensures p.msg.pnum % n == p.from
    ensures p.msg.pnum < states[t].mods[p.from].nextPnum
    ensures p.msg.pnum == q.msg.pnum ==> p.from == q.from
  {
    ExecutionKeepsNumbers(f, n, states, steps, t);
    OwnsIsCongruent(n, p.from, p.msg.pnum);
    if p.msg.pnum == q.msg.pnum {
      OwnsOnce(n, p.from, q.from, p.msg.pnum);
    }
  }
}
