/**
 The repaired handlers keep the invariant of ElectionCluster.
 */
module ElectionInvariant {
  import opened ElectionNode
  import opened ElectionCluster

  // ---------- what may change around a fact without harm ----------

  /** Highest seen numbers only rise, packets are only added, and a node that
      accepts something new accepts it under a number it had not left behind. */
  ghost predicate Extends(hs: seq<int>, net: set<Packet>, hs': seq<int>, net': set<Packet>) {
    && |hs| == |hs'| >= 1
    && (forall j {:trigger hs[j]} {:trigger hs'[j]} :: 0 <= j < |hs| ==> hs[j] <= hs'[j])
    && net <= net'
    && (forall j: nat, r, c {:trigger Acked(net', j, r, c)} ::
          Acked(net', j, r, c) && !Acked(net, j, r, c) ==> j < |hs| && r >= hs[j])
  }

  lemma PromiseStable(
    hs: seq<int>, net: set<Packet>, hs': seq<int>, net': set<Packet>, j: nat, pnum: int, accepted: int, content: int)
    requires Extends(hs, net, hs', net') && Promise(hs, net, j, pnum, accepted, content)
    ensures Promise(hs', net', j, pnum, accepted, content)
  {
  }

  lemma SafeStable(hs: seq<int>, net: set<Packet>, hs': seq<int>, net': set<Packet>, pnum: int, content: int)
    requires Extends(hs, net, hs', net') && Safe(hs, net, pnum, content)
    ensures Safe(hs', net', pnum, content)
  {
    var q, last :| SafeWith(hs, net, pnum, content, q, last);
    forall j | j in q ensures hs'[j] >= pnum && Silent(net', j, last, pnum) {
    }
    if last > 0 {
      var j :| j in q && Acked(net, j, last, content);
      assert Acked(net', j, last, content);
    }
    assert SafeWith(hs', net', pnum, content, q, last);
  }

  lemma ChosenStable(n: nat, net: set<Packet>, net': set<Packet>, pnum: int, content: int)
    requires net <= net' && Chosen(n, net, pnum, content)
    ensures Chosen(n, net', pnum, content)
  {
    var q :| Majority(n, q) && AllAcked(net, q, pnum, content);
    assert AllAcked(net', q, pnum, content);
  }

  lemma PacketStable(hs: seq<int>, net: set<Packet>, hs': seq<int>, net': set<Packet>, p: Packet)
    requires Extends(hs, net, hs', net') && PacketOk(hs, net, p)
    ensures PacketOk(hs', net', p)
  {
    match p.msg {
      case Prepare(_, _) =>
      case PrepareAck(pPnum, pnum, content) => PromiseStable(hs, net, hs', net', p.from, pPnum, pnum, content);
      case Accept(pnum, content) => SafeStable(hs, net, hs', net', pnum, content);
      case AcceptAck(pnum, content) =>
        var i :| Asked(net, i, pnum, content);
        assert Asked(net', i, pnum, content);
      case Announce(pnum, content) => ChosenStable(|hs|, net, net', pnum, content);
    }
  }

  /** All new packets come from node i. */
  predicate OnlyFrom(net: set<Packet>, net': set<Packet>, i: nat) {
    forall p :: p in net' && p !in net ==> p.from == i
  }

  lemma LearnerStable(net: set<Packet>, net': set<Packet>, m: Mod)
    requires Shaped(m) && net <= net' && LearnerOk(net, m)
    ensures LearnerOk(net', m)
  {
    if m.post {
      var pnum :| Chosen(m.groupSize, net, pnum, m.newLeader);
      ChosenStable(m.groupSize, net, net', pnum, m.newLeader);
    }
  }

  lemma ProposerStable(hs: seq<int>, net: set<Packet>, hs': seq<int>, net': set<Packet>, m: Mod)
    requires Shaped(m) && Extends(hs, net, hs', net') && ProposerOk(hs, net, m)
    requires forall p, c {:trigger Asked(net', m.nodeId, p, c)} ::
      Asked(net', m.nodeId, p, c) && !Asked(net, m.nodeId, p, c) ==> p <= m.enteredPnum
    ensures ProposerOk(hs', net', m)
  {
    forall j {:trigger m.proposer[j]} | 0 <= j < m.groupSize && m.proposer[j].aPnum != -1
      ensures Promise(hs', net', j, m.proposer[j].pPnum, m.proposer[j].aPnum, m.proposer[j].content)
    {
      var row := m.proposer[j];
      PromiseStable(hs, net, hs', net', j, row.pPnum, row.aPnum, row.content);
    }
  }

  /** A node is not concerned by what another node did. */
  lemma BystanderStable(hs: seq<int>, net: set<Packet>, hs': seq<int>, net': set<Packet>, k: nat, m: Mod, i: nat)
    requires Extends(hs, net, hs', net') && OnlyFrom(net, net', i) && i != k
    requires k < |hs| && hs'[k] == hs[k] && ModOk(hs, net, k, m)
    ensures ModOk(hs', net', k, m)
  {
    forall r, c {:trigger Acked(net', k, r, c)} | Acked(net', k, r, c) ensures Acked(net, k, r, c) {
      assert Packet(k, EVERYBODY, AcceptAck(r, c)).from == k;
    }
    forall p, c {:trigger Asked(net', k, p, c)} | Asked(net', k, p, c) ensures Asked(net, k, p, c) {
      assert Packet(k, EVERYBODY, Accept(p, c)).from == k;
    }
    LearnerStable(net, net', m);
    ProposerStable(hs, net, hs', net', m);
  }

  // ---------- one node's move, in pieces ----------

  /** The situation during node i's move: its module so far, its packets so far. */
  ghost predicate Going(hs: seq<int>, net: set<Packet>, i: nat, m: Mod) {
    i < |hs| && NetOk(hs, net) && ModOk(hs, net, i, m)
  }

  /** From (hs, net) to (hs', net'), only node i having moved. */
  ghost predicate Moved(hs: seq<int>, net: set<Packet>, hs': seq<int>, net': set<Packet>, i: nat) {
    && Extends(hs, net, hs', net') && OnlyFrom(net, net', i)
    && forall k :: 0 <= k < |hs| && k != i ==> hs'[k] == hs[k]
  }

  /** Packets that are sound where they are sent, and are no votes, may be added. */
  lemma MaySend(hs: seq<int>, net: set<Packet>, i: nat, p: Packet)
    requires NetOk(hs, net) && i < |hs| && p.from == i && PacketOk(hs, net + {p}, p)
    requires !p.msg.Accept? && !p.msg.AcceptAck?
    ensures NetOk(hs, net + {p}) && Moved(hs, net, hs, net + {p}, i)
  {
    var net' := net + {p};
    assert Extends(hs, net, hs, net') by {
      assert forall j, r, c :: Packet(j, EVERYBODY, AcceptAck(r, c)) != p;
    }
    forall q {:trigger q in net'} | q in net' ensures PacketOk(hs, net', q) {
      if q != p {
        PacketStable(hs, net, hs, net', q);
      }
    }
    forall k, k', pnum, c, c' {:trigger Asked(net', k, pnum, c), Asked(net', k', pnum, c')} |
      Asked(net', k, pnum, c) && Asked(net', k', pnum, c')
      ensures c == c'
    {
      assert Asked(net, k, pnum, c) && Asked(net, k', pnum, c');
    }
  }

  /** The sender of such a packet is otherwise as before. */
  lemma SenderKeeps(hs: seq<int>, net: set<Packet>, i: nat, m: Mod, p: Packet)
    requires Going(hs, net, i, m) && p.from == i && PacketOk(hs, net + {p}, p)
    requires !p.msg.Accept? && !p.msg.AcceptAck?
    ensures Going(hs, net + {p}, i, m) && Moved(hs, net, hs, net + {p}, i)
  {
    var net' := net + {p};
    MaySend(hs, net, i, p);
    LearnerStable(net, net', m);
    forall r, c {:trigger Acked(net', i, r, c)} | Acked(net', i, r, c) ensures Acked(net, i, r, c) {
    }
    forall r, c {:trigger Asked(net', i, r, c)} | Asked(net', i, r, c) ensures Asked(net, i, r, c) {
    }
    ProposerStable(hs, net, hs, net', m);
  }

  lemma PacketsOfOne(e: Event)
    ensures Packets([e]) == if e.Send? then {e.packet} else {}
  {
    assert e in [e];
    forall p ensures p in Packets([e]) <==> e == Send(p) {
      assert p in Packets([e]) <==> Send(p) in [e];
    }
  }

  /** Node i's move ended well. */
  ghost predicate Kept(hs: seq<int>, net: set<Packet>, i: nat, out: Outcome) {
    && i < |hs|
    && Going(hs[i := out.mod.acceptor.highestSeen], net + Packets(out.events), i, out.mod)
    && Moved(hs, net, hs[i := out.mod.acceptor.highestSeen], net + Packets(out.events), i)
  }

  lemma KeptNothing(hs: seq<int>, net: set<Packet>, i: nat, m: Mod)
    requires Going(hs, net, i, m)
    ensures Kept(hs, net, i, Outcome(m, []))
  {
    assert Packets([]) == {};
    assert net + {} == net && hs[i := hs[i]] == hs;
  }

  lemma KeptPackets(
    hs: seq<int>, net: set<Packet>, i: nat, out: Outcome, hs': seq<int>, net': set<Packet>)
    requires Going(hs', net', i, out.mod) && Moved(hs, net, hs', net', i)
    requires net' == net + Packets(out.events)
    ensures Kept(hs, net, i, out)
  {
    assert hs' == hs[i := out.mod.acceptor.highestSeen];
  }

  /** A move in two parts; the order in which the packets left does not matter. */
  lemma KeptThen(
    hs: seq<int>, net: set<Packet>, i: nat, hs1: seq<int>, net1: set<Packet>, rest: Outcome, out: Outcome)
    requires i < |hs| && Moved(hs, net, hs1, net1, i) && Kept(hs1, net1, i, rest)
    requires out.mod == rest.mod && net1 + Packets(rest.events) == net + Packets(out.events)
    ensures Kept(hs, net, i, out)
  {
    var hs2, net2 := hs1[i := rest.mod.acceptor.highestSeen], net1 + Packets(rest.events);
    KeptPackets(hs, net, i, out, hs2, net2);
  }

  // ---------- learner ----------

  lemma VotersChose(hs: seq<int>, net: set<Packet>, m: Mod, row: LearnerRecord, i: nat)
    requires NetOk(hs, net) && Shaped(m) && LearnerOk(net, m) && m.groupSize == |hs|
    requires i < m.groupSize && m.learner[i] == row && row.pnum != -1
    requires |Voters(m.learner, row.pnum, m.groupSize)| >= Half(m.groupSize)
    ensures Chosen(|hs|, net, row.pnum, row.content)
  {
    var q := Voters(m.learner, row.pnum, m.groupSize);
    forall j | j in q ensures Acked(net, j, row.pnum, row.content) {
      assert Acked(net, j, row.pnum, m.learner[j].content);
      assert Acked(net, i, row.pnum, row.content);
      var _ := VoteWasAskedFor(hs, net, j, row.pnum, m.learner[j].content);
      var _ := VoteWasAskedFor(hs, net, i, row.pnum, row.content);
    }
    assert AllAcked(net, q, row.pnum, row.content);
  }

  /** Announcing a chosen content, and entering the post stage with it. */
  lemma AnnounceKeeps(hs: seq<int>, net: set<Packet>, i: nat, m: Mod, elected: LearnerRecord)
    requires Going(hs, net, i, m) && Chosen(|hs|, net, elected.pnum, elected.content)
    ensures Kept(hs, net, i,
      Outcome(m.(post := true, newLeader := elected.content), [Broadcast(m, Announce(elected.pnum, elected.content))]))
  {
    var p := Packet(i, EVERYBODY, Announce(elected.pnum, elected.content));
    var net' := net + {p};
    ChosenStable(|hs|, net, net', elected.pnum, elected.content);
    SenderKeeps(hs, net, i, m, p);
    var m1 := m.(post := true, newLeader := elected.content);
    assert Going(hs, net', i, m1);
    PacketsOfOne(Send(p));
    KeptPackets(hs, net, i, Outcome(m1, [Send(p)]), hs, net');
  }

  lemma LearnerDoKeeps(hs: seq<int>, net: set<Packet>, i: nat, m: Mod, from: nat, pnum: int, content: int)
    requires Going(hs, net, i, m) && from < |hs| && Acked(net, from, pnum, content)
    ensures Kept(hs, net, i, LearnerDo(m, from, pnum, content))
  {
    if pnum > m.learner[from].pnum {
      var m1 := m.(learner := m.learner[from := LearnerRecord(pnum, content)]);
      LearnerCheckMeaning(m1.learner, Half(m.groupSize), 0);
      match LearnerCheck(m1.learner, Half(m.groupSize), 0) {
        case None => KeptNothing(hs, net, i, m1);
        case Some(elected) =>
          var j :| 0 <= j < m.groupSize && m1.learner[j] == elected;
          VotersChose(hs, net, m1, elected, j);
          AnnounceKeeps(hs, net, i, m1, elected);
      }
    } else {
      KeptNothing(hs, net, i, m);
    }
  }

  // ---------- acceptor ----------

  /** A vote under a number the node has not left behind. */
  lemma VoteKeeps(hs: seq<int>, net: set<Packet>, i: nat, m: Mod, owner: nat, pnum: int, content: int)
    requires Going(hs, net, i, m) && pnum >= hs[i]
    requires Asked(net, owner, pnum, content)
    ensures var ack := Packet(i, EVERYBODY, AcceptAck(pnum, content));
      var m1 := Persisted(m.(acceptor := AcceptorRecord(pnum, pnum, content)));
      var hs', net' := hs[i := pnum], net + {ack};
      Going(hs', net', i, m1) && Moved(hs, net, hs', net', i)
  {
    hide Safe, Promise, Chosen, Owns;
    var ack := Packet(i, EVERYBODY, AcceptAck(pnum, content));
    var m1 := Persisted(m.(acceptor := AcceptorRecord(pnum, pnum, content)));
    var hs', net' := hs[i := pnum], net + {ack};
    assert PacketOk(hs, net, Packet(owner, EVERYBODY, Accept(pnum, content)));
    assert Extends(hs, net, hs', net');
    forall q {:trigger q in net'} | q in net' ensures PacketOk(hs', net', q) {
      if q == ack {
        assert Asked(net', owner, pnum, content);
      } else {
        PacketStable(hs, net, hs', net', q);
      }
    }
    forall k, k', r, c, c' {:trigger Asked(net', k, r, c), Asked(net', k', r, c')} |
      Asked(net', k, r, c) && Asked(net', k', r, c')
      ensures c == c'
    {
      assert Asked(net, k, r, c) && Asked(net, k', r, c');
    }
    LearnerStable(net, net', m);
    forall p, c {:trigger Asked(net', i, p, c)} | Asked(net', i, p, c) ensures Asked(net, i, p, c) {
    }
    ProposerStable(hs, net, hs', net', m);
    forall r, c {:trigger Acked(net', i, r, c)} | Acked(net', i, r, c) ensures r <= pnum {
      if r != pnum {
        assert Acked(net, i, r, c);
      }
    }
    assert Acked(net', i, pnum, content);
  }

  lemma AcceptorAcceptKeeps(hs: seq<int>, net: set<Packet>, i: nat, m: Mod, owner: nat, pnum: int, content: int)
    requires Going(hs, net, i, m) && Asked(net, owner, pnum, content)
    ensures Kept(hs, net, i, AcceptorAccept(m, pnum, content))
  {
    if pnum >= m.acceptor.highestSeen {
      VoteKeeps(hs, net, i, m, owner, pnum, content);
      var record := AcceptorRecord(pnum, pnum, content);
      var ack := Packet(i, EVERYBODY, AcceptAck(pnum, content));
      var m1 := Persisted(m.(acceptor := record));
      var hs1, net1 := hs[i := pnum], net + {ack};
      assert Acked(net1, i, pnum, content);
      LearnerDoKeeps(hs1, net1, i, m1, i, pnum, content);
      var out, learned := AcceptorAccept(m, pnum, content), LearnerDo(m1, i, pnum, content);
      PacketsOfOne(Persist(record));
      PacketsOfOne(Send(ack));
      KeptThen(hs, net, i, hs1, net1, learned, out);
    } else {
      KeptNothing(hs, net, i, m);
    }
  }

  lemma AcceptorPrepareKeeps(hs: seq<int>, net: set<Packet>, i: nat, m: Mod, from: nat, pnum: int, content: int)
    requires Going(hs, net, i, m) && from < |hs|
    ensures Kept(hs, net, i, AcceptorPrepare(REPAIRED, m, from, pnum, content))
  {
    if pnum > m.acceptor.highestSeen {
      RaiseKeeps(hs, net, i, m, pnum);
      var record := m.acceptor.(highestSeen := pnum);
      var p := Packet(i, from, PrepareAck(pnum, record.accepted, record.content));
      var m1 := Persisted(m.(acceptor := record));
      AnswerKeeps(hs[i := pnum], net, i, m1, p);
      PacketsOfOne(Persist(record));
      PacketsOfOne(Send(p));
      assert [Persist(record)] + [Send(p)] == [Persist(record), Send(p)];
      KeptThen(hs, net, i, hs[i := pnum], net, Outcome(m1, [Send(p)]), AcceptorPrepare(REPAIRED, m, from, pnum, content));
    } else {
      KeptNothing(hs, net, i, m);
    }
  }

  lemma AnswerKeeps(hs: seq<int>, net: set<Packet>, i: nat, m: Mod, p: Packet)
    requires Going(hs, net, i, m) && p.from == i && p.msg.PrepareAck? && PacketOk(hs, net, p)
    ensures Kept(hs, net, i, Outcome(m, [Send(p)]))
  {
    var net' := net + {p};
    assert Extends(hs, net, hs, net') by {
      assert forall j, r, c :: Packet(j, EVERYBODY, AcceptAck(r, c)) != p;
    }
    PacketStable(hs, net, hs, net', p);
    SenderKeeps(hs, net, i, m, p);
    PacketsOfOne(Send(p));
    KeptPackets(hs, net, i, Outcome(m, [Send(p)]), hs, net');
  }

  /** Raising the highest seen number makes a promise. */
  lemma RaiseKeeps(hs: seq<int>, net: set<Packet>, i: nat, m: Mod, pnum: int)
    requires Going(hs, net, i, m) && pnum > hs[i]
    ensures var m1 := Persisted(m.(acceptor := m.acceptor.(highestSeen := pnum)));
      && Going(hs[i := pnum], net, i, m1) && Moved(hs, net, hs[i := pnum], net, i)
      && Promise(hs[i := pnum], net, i, pnum, m.acceptor.accepted, m.acceptor.content)
  {
    var hs' := hs[i := pnum];
    forall q {:trigger q in net} | q in net ensures PacketOk(hs', net, q) {
      PacketStable(hs, net, hs', net, q);
    }
    ProposerStable(hs, net, hs', net, m);
  }

  // ---------- proposer ----------

  /** A majority of answers makes the picked content safe. */
  lemma AnswersAreSafe(hs: seq<int>, net: set<Packet>, i: nat, m: Mod)
    requires Going(hs, net, i, m)
    requires PrepareScan(m.proposer, Origin(m), m.groupSize).inc >= Half(m.groupSize)
    ensures var s, pnum := PrepareScan(m.proposer, Origin(m), m.groupSize), Origin(m);
      var value := if s.content == -1 then i else s.content;
      pnum > 0 && Safe(hs, net, pnum, value) && 0 <= value < |hs|
  {
    var s, pnum := PrepareScan(m.proposer, Origin(m), m.groupSize), Origin(m);
    PrepareScanMeaning(m.proposer, pnum, m.groupSize);
    var q := Answered(m.proposer, pnum, m.groupSize);
    var value := if s.content == -1 then i else s.content;
    var best :| best in q && m.proposer[best].aPnum == s.pnum && m.proposer[best].content == s.content;
    forall j | j in q ensures hs[j] >= pnum && Silent(net, j, s.pnum, pnum) {
      var row := m.proposer[j];
      assert Promise(hs, net, j, pnum, row.aPnum, row.content);
    }
    assert Promise(hs, net, best, pnum, s.pnum, s.content);
    if s.pnum > 0 {
      assert Acked(net, best, s.pnum, s.content);
      var _ := VoteWasAskedFor(hs, net, best, s.pnum, s.content);
    }
    assert SafeWith(hs, net, pnum, value, q, s.pnum);
  }

  lemma NotYetAsked(hs: seq<int>, net: set<Packet>, i: nat, m: Mod, k: nat, c: int)
    requires Going(hs, net, i, m) && Origin(m) > 0 && m.enteredPnum != Origin(m)
    ensures Owns(|hs|, i, Origin(m)) && m.enteredPnum < Origin(m)
    ensures !Asked(net, k, Origin(m), c)
  {
    if Asked(net, k, Origin(m), c) {
      assert PacketOk(hs, net, Packet(k, EVERYBODY, Accept(Origin(m), c)));
      OwnsOnce(|hs|, i, k, Origin(m));
    }
  }

  /** The ACCEPT of phase two, sent for the first time under its number. */
  lemma AskKeeps(hs: seq<int>, net: set<Packet>, i: nat, m: Mod, value: int)
    requires Going(hs, net, i, m)
    requires var pnum := Origin(m); pnum > 0 && m.enteredPnum != pnum && Safe(hs, net, pnum, value)
    requires 0 <= value < |hs|
    ensures var pnum := Origin(m);
      var p := Packet(i, EVERYBODY, Accept(pnum, value));
      && Going(hs, net + {p}, i, m.(enteredPnum := pnum)) && Moved(hs, net, hs, net + {p}, i)
  {
    var pnum, m1 := Origin(m), m.(enteredPnum := Origin(m));
    var p := Packet(i, EVERYBODY, Accept(pnum, value));
    var net' := net + {p};
    NotYetAsked(hs, net, i, m, i, value);
    assert Extends(hs, net, hs, net') by {
      assert forall j, r, c :: Packet(j, EVERYBODY, AcceptAck(r, c)) != p;
    }
    forall q {:trigger q in net'} | q in net' ensures PacketOk(hs, net', q) {
      if q == p {
        SafeStable(hs, net, hs, net', pnum, value);
      } else {
        PacketStable(hs, net, hs, net', q);
      }
    }
    forall k: nat, c ensures !Asked(net, k, pnum, c) {
      NotYetAsked(hs, net, i, m, k, c);
    }
    forall k, k', r, c, c' {:trigger Asked(net', k, r, c), Asked(net', k', r, c')} |
      Asked(net', k, r, c) && Asked(net', k', r, c')
      ensures c == c'
    {
      if r != pnum {
        assert Asked(net, k, r, c) && Asked(net, k', r, c');
      } else {
        assert !Asked(net, k, r, c) && !Asked(net, k', r, c');
        assert Packet(k, EVERYBODY, Accept(r, c)) == p == Packet(k', EVERYBODY, Accept(r, c'));
      }
    }
    LearnerStable(net, net', m);
    forall r, c {:trigger Asked(net', i, r, c)} | Asked(net', i, r, c) ensures r <= pnum {
      if !(r == pnum) {
        assert Asked(net, i, r, c);
      }
    }
    ProposerStable(hs, net, hs, net', m1);
    forall r, c {:trigger Acked(net', i, r, c)} | Acked(net', i, r, c) ensures Acked(net, i, r, c) {
    }
  }

  lemma CheckPrepareKeeps(hs: seq<int>, net: set<Packet>, i: nat, m: Mod)
    requires Going(hs, net, i, m)
    ensures Kept(hs, net, i, CheckPrepare(REPAIRED, m))
  {
    var pnum := Origin(m);
    var s := PrepareScan(m.proposer, pnum, m.groupSize);
    if s.inc >= Half(m.groupSize) && m.enteredPnum != pnum {
      AnswersAreSafe(hs, net, i, m);
      var value := if s.content == -1 then i else s.content;
      AskKeeps(hs, net, i, m, value);
      var p := Packet(i, EVERYBODY, Accept(pnum, value));
      var net1, m1 := net + {p}, m.(enteredPnum := pnum);
      assert Asked(net1, i, pnum, value);
      AcceptorAcceptKeeps(hs, net1, i, m1, i, pnum, value);
      var own := AcceptorAccept(m1, pnum, value);
      PacketsOfOne(Send(p));
      KeptThen(hs, net, i, hs, net1, own, CheckPrepare(REPAIRED, m));
    } else {
      KeptNothing(hs, net, i, m);
    }
  }

  /** Announcing the next number. */
  lemma NextNumberKeeps(hs: seq<int>, net: set<Packet>, i: nat, m: Mod)
    requires Going(hs, net, i, m)
    ensures var p := Packet(i, EVERYBODY, Prepare(m.nextPnum, -1));
      var m1 := m.(nextPnum := m.nextPnum + m.groupSize);
      Going(hs, net + {p}, i, m1) && Moved(hs, net, hs, net + {p}, i)
  {
    var p := Packet(i, EVERYBODY, Prepare(m.nextPnum, -1));
    var m1 := m.(nextPnum := m.nextPnum + m.groupSize);
    SenderKeeps(hs, net, i, m, p);
    assert ProposerOk(hs, net + {p}, m1);
  }

  /** The proposer answers its own proposal before it checks the answers. */
  lemma OwnAnswerKeeps(hs: seq<int>, net: set<Packet>, i: nat, m: Mod, pnum: int)
    requires Going(hs, net, i, m) && pnum > hs[i]
    ensures var record := m.acceptor.(highestSeen := pnum);
      var row := ProposerRecord(pnum, record.accepted, record.content);
      var m1 := Persisted(m.(acceptor := record, proposer := m.proposer[i := row]));
      Going(hs[i := pnum], net, i, m1) && Moved(hs, net, hs[i := pnum], net, i)
  {
    RaiseKeeps(hs, net, i, m, pnum);
    var record := m.acceptor.(highestSeen := pnum);
  }

  lemma OwnAnswerThenCheck(hs: seq<int>, net: set<Packet>, i: nat, m: Mod, pnum: int, m1: Mod)
    requires Going(hs, net, i, m) && pnum > hs[i]
    requires var record := m.acceptor.(highestSeen := pnum);
      m1 == Persisted(m.(acceptor := record,
        proposer := m.proposer[i := ProposerRecord(pnum, record.accepted, record.content)]))
    ensures Shaped(m1)
    ensures Moved(hs, net, hs[i := pnum], net, i)
    ensures Kept(hs[i := pnum], net, i, CheckPrepare(REPAIRED, m1))
  {
    OwnAnswerKeeps(hs, net, i, m, pnum);
    CheckPrepareKeeps(hs[i := pnum], net, i, m1);
  }

  /** The proposer's module when it checks for the first time. */
  function Proposing(m: Mod): Mod
    requires Shaped(m)
  {
    var record := m.acceptor.(highestSeen := m.nextPnum);
    var row := ProposerRecord(m.nextPnum, record.accepted, record.content);
    Persisted(m.(nextPnum := m.nextPnum + m.groupSize, acceptor := record, proposer := m.proposer[m.nodeId := row]))
  }

  lemma ProposeIs(f: Fixes, m: Mod)
    requires Shaped(m) && m.acceptor.highestSeen < m.nextPnum
    ensures var first := [Broadcast(m, Prepare(m.nextPnum, -1)), Persist(m.acceptor.(highestSeen := m.nextPnum))];
      var checked := CheckPrepare(f, Proposing(m));
      Propose(f, m) == Outcome(checked.mod, first + checked.events)
  {
  }

  lemma ProposeKeeps(hs: seq<int>, net: set<Packet>, i: nat, m: Mod)
    requires Going(hs, net, i, m)
    ensures Kept(hs, net, i, Propose(REPAIRED, m))
  {
    hide Safe, Promise, Chosen, Owns, CheckPrepare, PacketOk, ProposerOk, LearnerOk, AcceptorOk;
    var pnum, out := m.nextPnum, Propose(REPAIRED, m);
    NextNumberKeeps(hs, net, i, m);
    var p := Packet(i, EVERYBODY, Prepare(pnum, -1));
    var net1, m1 := net + {p}, m.(nextPnum := pnum + m.groupSize);
    if m.acceptor.highestSeen < pnum {
      OwnAnswerThenCheck(hs, net1, i, m1, pnum, Proposing(m));
      ProposeIs(REPAIRED, m);
      ProposeEnds(hs, net, i, p, pnum, CheckPrepare(REPAIRED, Proposing(m)), out);
    } else {
      PacketsOfOne(Send(p));
      KeptPackets(hs, net, i, out, hs, net1);
    }
  }

  lemma ProposeEnds(
    hs: seq<int>, net: set<Packet>, i: nat, p: Packet, pnum: int, checked: Outcome, out: Outcome)
    requires i < |hs| && Moved(hs, net, hs, net + {p}, i)
    requires Moved(hs, net + {p}, hs[i := pnum], net + {p}, i)
    requires Kept(hs[i := pnum], net + {p}, i, checked)
    requires out.mod == checked.mod && Packets(out.events) == {p} + Packets(checked.events)
    ensures Kept(hs, net, i, out)
  {
    KeptThen(hs, net, i, hs[i := pnum], net + {p}, checked, out);
  }

  lemma ProposerAckKeeps(hs: seq<int>, net: set<Packet>, i: nat, m: Mod, p: Packet)
    requires Going(hs, net, i, m) && p in net && p.msg.PrepareAck?
    ensures p.from < m.groupSize
    ensures Kept(hs, net, i, ProposerAck(REPAIRED, m, p.from, p.msg.pPnum, p.msg.pnum, p.msg.content))
  {
    assert PacketOk(hs, net, p);
    if p.msg.pPnum == Origin(m) {
      var m1 := m.(proposer := m.proposer[p.from := ProposerRecord(p.msg.pPnum, p.msg.pnum, p.msg.content)]);
      assert Going(hs, net, i, m1);
      CheckPrepareKeeps(hs, net, i, m1);
    } else {
      KeptNothing(hs, net, i, m);
    }
  }

  lemma HandleMsgKeeps(hs: seq<int>, net: set<Packet>, i: nat, m: Mod, p: Packet)
    requires Going(hs, net, i, m) && p in net
    ensures p.from < m.groupSize
    ensures Kept(hs, net, i, HandleMsg(REPAIRED, m, p))
  {
    assert PacketOk(hs, net, p);
    match p.msg {
      case Prepare(pnum, content) => AcceptorPrepareKeeps(hs, net, i, m, p.from, pnum, content);
      case PrepareAck(_, _, _) => ProposerAckKeeps(hs, net, i, m, p);
      case Accept(pnum, content) => AcceptorAcceptKeeps(hs, net, i, m, p.from, pnum, content);
      case AcceptAck(pnum, content) => LearnerDoKeeps(hs, net, i, m, p.from, pnum, content);
      case Announce(pnum, content) =>
        assert Chosen(|hs|, net, pnum, content);
        KeptNothing(hs, net, i, m.(post := true, newLeader := content));
    }
  }

  // ---------- the group ----------

  lemma StepKeepsInv(c: Cluster, step: Step)
    requires Inv(c) && Enabled(c, step)
    ensures Inv(Apply(REPAIRED, c, step))
  {
    hide Propose, HandleMsg, PacketOk, ProposerOk, LearnerOk, AcceptorOk;
    var i, m, hs := step.i, c.mods[step.i], HighestSeen(c.mods);
    assert Going(hs, c.net, i, m);
    match step {
      case Timeout(_) => ProposeKeeps(hs, c.net, i, m);
      case Receive(_, p) => HandleMsgKeeps(hs, c.net, i, m, p);
    }
    var out, c' := OutcomeOf(REPAIRED, c, step), Apply(REPAIRED, c, step);
    var hs' := hs[i := out.mod.acceptor.highestSeen];
    assert HighestSeen(c'.mods) == hs';
    forall k {:trigger c'.mods[k]} | 0 <= k < |c'.mods| ensures ModOk(hs', c'.net, k, c'.mods[k]) {
      if k != i {
        BystanderStable(hs, c.net, hs', c'.net, k, c.mods[k], i);
      }
    }
  }

  lemma InitEstablishesInv(n: nat, c: Cluster)
    requires Init(n, c)
    ensures Inv(c)
  {
    var hs := HighestSeen(c.mods);
    forall i {:trigger c.mods[i]} | 0 <= i < n ensures ModOk(hs, c.net, i, c.mods[i]) {
      assert InitMod(n, c.mods[i], i);
    }
  }
}
