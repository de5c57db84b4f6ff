/**
 Each of the three repairs is needed: without it, three nodes and a dozen
 steps elect two leaders. Together with ElectionSafety.OneLeader this says
 exactly when the election agrees.
 */
module ElectionRepairs {
  import opened Basics
  import opened ElectionNode
  import opened ElectionCluster
  import opened ElectionInvariant
  import opened ElectionSafety

  // ---------- running a group ----------

  /** A reachable group of three with these modules, having sent at least these packets. */
  ghost predicate At(f: Fixes, c: Cluster, a: Mod, b: Mod, d: Mod, sent: set<Packet>) {
    Reachable(f, 3, c) && c.mods == [a, b, d] && sent <= c.net
  }

  function Row(a: Mod, b: Mod, d: Mod, i: nat): Mod {
    if i == 0 then a else if i == 1 then b else d
  }

  predicate Sends(out: Outcome, ps: set<Packet>) {
    forall p :: p in ps ==> Send(p) in out.events
  }

  /** Node i times out. */
  lemma Fires(f: Fixes, c: Cluster, a: Mod, b: Mod, d: Mod, sent: set<Packet>, i: nat, m: Mod, ps: set<Packet>)
    returns (c': Cluster)
    requires At(f, c, a, b, d, sent) && i < 3
    requires Shaped(Row(a, b, d, i)) && !Row(a, b, d, i).post
    requires m == Propose(f, Row(a, b, d, i)).mod && Sends(Propose(f, Row(a, b, d, i)), ps)
    ensures At(f, c', if i == 0 then m else a, if i == 1 then m else b, if i == 2 then m else d, sent + ps)
  {
    ReachStep(f, 3, c, Timeout(i));
    c' := Apply(f, c, Timeout(i));
  }

  /** Node i receives packet q; `ps` are packets it sends then. */
  lemma Gets(f: Fixes, c: Cluster, a: Mod, b: Mod, d: Mod, sent: set<Packet>, i: nat, q: Packet, m: Mod, ps: set<Packet>)
    returns (c': Cluster)
    requires At(f, c, a, b, d, sent) && i < 3 && q in sent && Addressed(q, i) && q.from < 3
    requires Shaped(Row(a, b, d, i)) && Row(a, b, d, i).groupSize == 3
    requires m == HandleMsg(f, Row(a, b, d, i), q).mod && Sends(HandleMsg(f, Row(a, b, d, i), q), ps)
    ensures At(f, c', if i == 0 then m else a, if i == 1 then m else b, if i == 2 then m else d, sent + ps)
  {
    ReachStep(f, 3, c, Receive(i, q));
    c' := Apply(f, c, Receive(i, q));
  }

  // ---------- three rows ----------

  lemma Scan3(rows: seq<ProposerRecord>, origin: int)
    requires |rows| == 3
    ensures PrepareScan(rows, origin, 0) == Scan(0, -1, -1)
    ensures forall k :: 0 < k <= 3 ==>
      var s, row := PrepareScan(rows, origin, k - 1), rows[k - 1];
      PrepareScan(rows, origin, k) ==
        if row.pPnum != origin then s
        else if row.aPnum > s.pnum then Scan(s.inc + (if row.aPnum != -1 then 1 else 0), row.aPnum, row.content)
        else Scan(s.inc + (if row.aPnum != -1 then 1 else 0), s.pnum, s.content)
  {
  }

  /** With three rows, two equal numbers elect. */
  lemma Learn3(rows: seq<LearnerRecord>, base: int)
    requires |rows| == 3
    ensures CountPnum(rows, base, 3) ==
      (if rows[0].pnum == base then 1 else 0) + (if rows[1].pnum == base then 1 else 0) + (if rows[2].pnum == base then 1 else 0)
  {
    assert CountPnum(rows, base, 1) == if rows[0].pnum == base then 1 else 0;
    assert CountPnum(rows, base, 2) == CountPnum(rows, base, 1) + if rows[1].pnum == base then 1 else 0;
  }

  lemma Check3(rows: seq<LearnerRecord>)
    requires |rows| == 3
    ensures LearnerCheck(rows, 2, 0) ==
      if rows[0].pnum != -1 && (rows[1].pnum == rows[0].pnum || rows[2].pnum == rows[0].pnum) then Some(rows[0])
      else if rows[1].pnum != -1 && rows[2].pnum == rows[1].pnum then Some(rows[1])
      else None
  {
    Learn3(rows, rows[0].pnum);
    Learn3(rows, rows[1].pnum);
    Learn3(rows, rows[2].pnum);
    assert LearnerCheck(rows, 2, 3) == None;
    assert LearnerCheck(rows, 2, 2) == if rows[2].pnum != -1 && CountPnum(rows, rows[2].pnum, 3) >= 2 then Some(rows[2]) else None;
    assert LearnerCheck(rows, 2, 1) == if rows[1].pnum != -1 && CountPnum(rows, rows[1].pnum, 3) >= 2 then Some(rows[1]) else LearnerCheck(rows, 2, 2);
  }

  const NO_VOTE: LearnerRecord := LearnerRecord(-1, -1)
  const NO_ANSWER: ProposerRecord := ProposerRecord(-1, -1, -1)

  /** A freshly allocated module in a group of three. */
  function Fresh(i: nat): Mod {
    Mod(i, 3, i, AcceptorRecord(0, 0, -1), None,
      [NO_VOTE, NO_VOTE, NO_VOTE], [NO_ANSWER, NO_ANSWER, NO_ANSWER], -1, false, 0)
  }

  lemma StartOfThree(f: Fixes) returns (c: Cluster)
    ensures At(f, c, Fresh(0), Fresh(1), Fresh(2), {})
  {
    c := Cluster([Fresh(0), Fresh(1), Fresh(2)], {});
    ReachStart(f, 3, c);
  }

  // ---------- single moves on single nodes ----------

  /** A fresh proposer with its first proposal out. */
  function Proposed(i: nat): Mod
    requires i < 3
  {
    Fresh(i).(nextPnum := i + 3, acceptor := AcceptorRecord(i, 0, -1), persisted := Some(AcceptorRecord(i, 0, -1)),
      proposer := [NO_ANSWER, NO_ANSWER, NO_ANSWER][i := ProposerRecord(i, 0, -1)])
  }

  lemma FirstProposal(f: Fixes, i: nat)
    requires 1 <= i <= 2
    ensures Propose(f, Fresh(i)).mod == Proposed(i)
    ensures Sends(Propose(f, Fresh(i)), {Packet(i, EVERYBODY, Prepare(i, -1))})
  {
    var rows := Proposing(Fresh(i)).proposer;
    Scan3(rows, i);
    ProposeIs(f, Fresh(i));
    assert PrepareScan(rows, i, 1).inc <= 1;
    assert PrepareScan(rows, i, 3).inc == 1;
    assert Propose(f, Fresh(i)).events[0] == Send(Packet(i, EVERYBODY, Prepare(i, -1)));
  }

  function WithRecord(m: Mod, record: AcceptorRecord): Mod {
    m.(acceptor := record, persisted := Some(record))
  }

  /** A node answers a proposal it has not left behind. */
  lemma Promised(f: Fixes, m: Mod, from: nat, pnum: int)
    requires Shaped(m) && from < m.groupSize && pnum > m.acceptor.highestSeen
    ensures var out := HandleMsg(f, m, Packet(from, EVERYBODY, Prepare(pnum, -1)));
      var content := if f.keepContent then m.acceptor.content else -1;
      && out.mod == WithRecord(m, AcceptorRecord(pnum, m.acceptor.accepted, content))
      && Sends(out, {Packet(m.nodeId, from, PrepareAck(pnum, m.acceptor.accepted, content))})
  {
  }

  function WithVote(m: Mod, j: nat, pnum: int, content: int): Mod
    requires Shaped(m) && j < m.groupSize
  {
    m.(learner := m.learner[j := LearnerRecord(pnum, content)])
  }

  /** A node accepts, and its vote alone elects nobody. */
  lemma Voted(f: Fixes, m: Mod, from: nat, pnum: int, content: int)
    requires Shaped(m) && m.groupSize == 3 && from < 3
    requires pnum >= m.acceptor.highestSeen && pnum > m.learner[m.nodeId].pnum && pnum >= 0
    requires forall j, k :: 0 <= j < 3 && 0 <= k < 3 && j != k && j != m.nodeId ==>
      m.learner[j].pnum == -1 || (m.learner[j].pnum != pnum && (k != m.nodeId ==> m.learner[j].pnum != m.learner[k].pnum))
    ensures var out := HandleMsg(f, m, Packet(from, EVERYBODY, Accept(pnum, content)));
      && out.mod == WithRecord(WithVote(m, m.nodeId, pnum, content), AcceptorRecord(pnum, pnum, content))
      && Sends(out, {Packet(m.nodeId, EVERYBODY, AcceptAck(pnum, content))})
  {
    Check3(WithVote(m, m.nodeId, pnum, content).learner);
    var events := HandleMsg(f, m, Packet(from, EVERYBODY, Accept(pnum, content))).events;
    assert events[|events| - 1] == Send(Packet(m.nodeId, EVERYBODY, AcceptAck(pnum, content)));
  }

  /** A node learns of a second vote under its number, and takes the content for elected. */
  lemma Elected(f: Fixes, m: Mod, from: nat, pnum: int, content: int, first: nat)
    requires Shaped(m) && m.groupSize == 3 && from < 3 && first < 3 && first != from
    requires pnum > m.learner[from].pnum && pnum >= 0
    requires m.learner[first] == LearnerRecord(pnum, content)
    requires forall j :: 0 <= j < 3 && j != first && j != from ==> m.learner[j].pnum == -1
    ensures var out := HandleMsg(f, m, Packet(from, EVERYBODY, AcceptAck(pnum, content)));
      out.mod == WithVote(m, from, pnum, content).(post := true, newLeader := content)
  {
    Check3(WithVote(m, from, pnum, content).learner);
  }

  /** A proposer after the second answer: it has asked for its own id. */
  function Asking(f: Fixes, i: nat, from: nat, aPnum: int): Mod
    requires i < 3 && from < 3
  {
    var m := WithVote(
      Proposed(i).(proposer := Proposed(i).proposer[from := ProposerRecord(i, aPnum, -1)], enteredPnum := i), i, i, i);
    if f.ownAcceptor then WithRecord(m, AcceptorRecord(i, i, i)) else m
  }

  lemma SecondAnswer(f: Fixes, i: nat, from: nat, aPnum: int)
    requires 1 <= i <= 2 && from < 3 && from != i && 0 <= aPnum < i
    ensures var out := HandleMsg(f, Proposed(i), Packet(from, i, PrepareAck(i, aPnum, -1)));
      && out.mod == Asking(f, i, from, aPnum)
      && Sends(out, {Packet(i, EVERYBODY, Accept(i, i))})
      && (f.ownAcceptor ==> Sends(out, {Packet(i, EVERYBODY, AcceptAck(i, i))}))
  {
    var rows := Proposed(i).proposer[from := ProposerRecord(i, aPnum, -1)];
    Scan3(rows, i);
    assert PrepareScan(rows, i, 1).content == -1 && PrepareScan(rows, i, 2).content == -1;
    assert PrepareScan(rows, i, 3).content == -1 && PrepareScan(rows, i, 3).inc == 2;
    var m := Proposed(i).(proposer := rows);
    assert HandleMsg(f, Proposed(i), Packet(from, i, PrepareAck(i, aPnum, -1))) == PhaseTwo(f, m, i, -1);
    OwnVote(f, m.(enteredPnum := i), i, i);
  }

  /** Phase two with the proposer's first vote. */
  lemma OwnVote(f: Fixes, m: Mod, pnum: int, value: int)
    requires Shaped(m) && m.groupSize == 3 && pnum == m.acceptor.highestSeen >= 0
    requires m.learner == [NO_VOTE, NO_VOTE, NO_VOTE] && m.enteredPnum == pnum
    ensures var out := PhaseTwo(f, m, pnum, value);
      var picked := if value == -1 then m.nodeId else value;
      var voted := WithVote(m, m.nodeId, pnum, picked);
      && out.mod == (if f.ownAcceptor then WithRecord(voted, AcceptorRecord(pnum, pnum, picked)) else voted)
      && Sends(out, {Packet(m.nodeId, EVERYBODY, Accept(pnum, picked))})
      && (f.ownAcceptor ==> Sends(out, {Packet(m.nodeId, EVERYBODY, AcceptAck(pnum, picked))}))
  {
    var picked := if value == -1 then m.nodeId else value;
    Check3(WithVote(m, m.nodeId, pnum, picked).learner);
    var events := PhaseTwo(f, m, pnum, value).events;
    assert events[0] == Send(Packet(m.nodeId, EVERYBODY, Accept(pnum, picked)));
    assert f.ownAcceptor ==> events[|events| - 1] == Send(Packet(m.nodeId, EVERYBODY, AcceptAck(pnum, picked)));
  }

  // ---------- the first leader ----------

  const PREPARE_1: Packet := Packet(1, EVERYBODY, Prepare(1, -1))
  const PREPARE_2: Packet := Packet(2, EVERYBODY, Prepare(2, -1))
  const ACCEPT_1: Packet := Packet(1, EVERYBODY, Accept(1, 1))
  const ACCEPT_2: Packet := Packet(2, EVERYBODY, Accept(2, 2))

  /** Node 0 after it answered proposal 1. */
  const ANSWERED_1: Mod := WithRecord(Fresh(0), AcceptorRecord(1, 0, -1))

  /** Node 0 after it accepted node 1. */
  const ACCEPTED_1: Mod := WithRecord(WithVote(ANSWERED_1, 0, 1, 1), AcceptorRecord(1, 1, 1))

  /** Node 1 proposes, node 0 answers, node 1 asks for itself; then node 2 proposes. */
  lemma TwoProposals(f: Fixes) returns (c: Cluster)
    ensures At(f, c, ANSWERED_1, Asking(f, 1, 0, 0), Proposed(2), {PREPARE_1, Packet(0, 1, PrepareAck(1, 0, -1)), ACCEPT_1, PREPARE_2})
  {
    c := StartOfThree(f);
    FirstProposal(f, 1);
    c := Fires(f, c, Fresh(0), Fresh(1), Fresh(2), {}, 1, Proposed(1), {PREPARE_1});
    Promised(f, Fresh(0), 1, 1);
    var answer := Packet(0, 1, PrepareAck(1, 0, -1));
    c := Gets(f, c, Fresh(0), Proposed(1), Fresh(2), {} + {PREPARE_1}, 0, PREPARE_1, ANSWERED_1, {answer});
    SecondAnswer(f, 1, 0, 0);
    c := Gets(f, c, ANSWERED_1, Proposed(1), Fresh(2), {} + {PREPARE_1} + {answer}, 1, answer, Asking(f, 1, 0, 0), {ACCEPT_1});
    FirstProposal(f, 2);
    c := Fires(f, c, ANSWERED_1, Asking(f, 1, 0, 0), Fresh(2), {} + {PREPARE_1} + {answer} + {ACCEPT_1}, 2, Proposed(2), {PREPARE_2});
  }

  /** Node 1 is taken for elected by itself: its own vote and that of node 0. */
  function Leading(f: Fixes): Mod {
    WithVote(Asking(f, 1, 0, 0), 0, 1, 1).(post := true, newLeader := 1)
  }

  lemma FirstLeader(f: Fixes) returns (c: Cluster)
    ensures At(f, c, ACCEPTED_1, Leading(f), Proposed(2), {PREPARE_2})
  {
    c := TwoProposals(f);
    var sent := {PREPARE_1, Packet(0, 1, PrepareAck(1, 0, -1)), ACCEPT_1, PREPARE_2};
    var vote := Packet(0, EVERYBODY, AcceptAck(1, 1));
    Voted(f, ANSWERED_1, 1, 1, 1);
    c := Gets(f, c, ANSWERED_1, Asking(f, 1, 0, 0), Proposed(2), sent, 0, ACCEPT_1, ACCEPTED_1, {vote});
    Elected(f, Asking(f, 1, 0, 0), 0, 1, 1, 1);
    c := Gets(f, c, ACCEPTED_1, Asking(f, 1, 0, 0), Proposed(2), sent + {vote}, 1, vote, Leading(f), {});
  }

  // ---------- without keepContent ----------

  /** Node 0's answer to proposal 2 has lost the content it accepted, so node 2 asks
      for itself and gets node 0's vote as well. */
  lemma SplitWithoutKeepContent(f: Fixes) returns (c: Cluster)
    requires !f.keepContent
    ensures Reachable(f, 3, c) && Split(c)
  {
    c := FirstLeader(f);
    var answer := Packet(0, 2, PrepareAck(2, 1, -1));
    var vote := Packet(0, EVERYBODY, AcceptAck(2, 2));
    var answered := WithRecord(ACCEPTED_1, AcceptorRecord(2, 1, -1));
    Promised(f, ACCEPTED_1, 2, 2);
    c := Gets(f, c, ACCEPTED_1, Leading(f), Proposed(2), {PREPARE_2}, 0, PREPARE_2, answered, {answer});
    SecondAnswer(f, 2, 0, 1);
    var asking := Asking(f, 2, 0, 1);
    c := Gets(f, c, answered, Leading(f), Proposed(2), {PREPARE_2} + {answer}, 2, answer, asking, {ACCEPT_2});
    Voted(f, answered, 2, 2, 2);
    var voted := WithRecord(WithVote(answered, 0, 2, 2), AcceptorRecord(2, 2, 2));
    c := Gets(f, c, answered, Leading(f), asking, {PREPARE_2} + {answer} + {ACCEPT_2}, 0, ACCEPT_2, voted, {vote});
    Elected(f, asking, 0, 2, 2, 2);
    var leading := WithVote(asking, 0, 2, 2).(post := true, newLeader := 2);
    c := Gets(f, c, voted, Leading(f), asking, {PREPARE_2} + {answer} + {ACCEPT_2} + {vote}, 2, vote, leading, {});
    assert c.mods[1].post && c.mods[2].post && c.mods[1].newLeader != c.mods[2].newLeader;
  }

  // ---------- without ownAcceptor ----------

  /** Node 1's own vote is nowhere but in its learner table, so it answers proposal 2
      as if it had accepted nothing. */
  lemma SplitWithoutOwnAcceptor(f: Fixes) returns (c: Cluster)
    requires !f.ownAcceptor
    ensures Reachable(f, 3, c) && Split(c)
  {
    c := FirstLeader(f);
    var answer := Packet(1, 2, PrepareAck(2, 0, -1));
    var vote := Packet(0, EVERYBODY, AcceptAck(2, 2));
    var answered := WithRecord(Leading(f), AcceptorRecord(2, 0, -1));
    Promised(f, Leading(f), 2, 2);
    c := Gets(f, c, ACCEPTED_1, Leading(f), Proposed(2), {PREPARE_2}, 1, PREPARE_2, answered, {answer});
    SecondAnswer(f, 2, 1, 0);
    var asking := Asking(f, 2, 1, 0);
    c := Gets(f, c, ACCEPTED_1, answered, Proposed(2), {PREPARE_2} + {answer}, 2, answer, asking, {ACCEPT_2});
    Voted(f, ACCEPTED_1, 2, 2, 2);
    var voted := WithRecord(WithVote(ACCEPTED_1, 0, 2, 2), AcceptorRecord(2, 2, 2));
    c := Gets(f, c, ACCEPTED_1, answered, asking, {PREPARE_2} + {answer} + {ACCEPT_2}, 0, ACCEPT_2, voted, {vote});
    Elected(f, asking, 0, 2, 2, 2);
    var leading := WithVote(asking, 0, 2, 2).(post := true, newLeader := 2);
    c := Gets(f, c, voted, answered, asking, {PREPARE_2} + {answer} + {ACCEPT_2} + {vote}, 2, vote, leading, {});
    assert c.mods[1].post && c.mods[2].post && c.mods[1].newLeader != c.mods[2].newLeader;
  }

  // ---------- without oncePerPnum ----------

  const ONLY_TWICE: Fixes := Fixes(true, true, false)

  /** Node 2 after a third answer under its number, from node 1, which accepted itself. */
  function AskingAgain(m: Mod): Mod
    requires Shaped(m) && m.groupSize == 3
  {
    WithRecord(m.(proposer := m.proposer[1 := ProposerRecord(2, 1, 1)]), AcceptorRecord(2, 2, 1))
  }

  lemma ThirdAnswer()
    ensures var m := Asking(ONLY_TWICE, 2, 0, 0);
      var out := HandleMsg(ONLY_TWICE, m, Packet(1, 2, PrepareAck(2, 1, 1)));
      && out.mod == AskingAgain(m)
      && Sends(out, {Packet(2, EVERYBODY, Accept(2, 1)), Packet(2, EVERYBODY, AcceptAck(2, 1))})
  {
    var m := Asking(ONLY_TWICE, 2, 0, 0);
    var rows := m.proposer[1 := ProposerRecord(2, 1, 1)];
    Scan3(rows, 2);
    assert PrepareScan(rows, 2, 1) == Scan(1, 0, -1);
    assert PrepareScan(rows, 2, 2) == Scan(2, 1, 1);
    assert PrepareScan(rows, 2, 3) == Scan(3, 1, 1);
    var out := HandleMsg(ONLY_TWICE, m, Packet(1, 2, PrepareAck(2, 1, 1)));
    assert out == PhaseTwo(ONLY_TWICE, m.(proposer := rows), 2, 1);
    assert out.events[0] == Send(Packet(2, EVERYBODY, Accept(2, 1)));
    assert out.events[|out.events| - 1] == Send(Packet(2, EVERYBODY, AcceptAck(2, 1)));
  }

  /** Node 2 asks for itself, then, on a late answer, for node 1 under the same number. */
  lemma SplitWithoutOncePerPnum() returns (c: Cluster)
    ensures Reachable(ONLY_TWICE, 3, c) && Split(c)
  {
    var f := ONLY_TWICE;
    c := TwoProposals(f);
    var s0 := {PREPARE_1, Packet(0, 1, PrepareAck(1, 0, -1)), ACCEPT_1, PREPARE_2};
    var asking1, asking2 := Asking(f, 1, 0, 0), Asking(f, 2, 0, 0);
    // both other nodes answer proposal 2; node 1 reports that it accepted itself
    var early, late := Packet(0, 2, PrepareAck(2, 0, -1)), Packet(1, 2, PrepareAck(2, 1, 1));
    var node0, node1 := WithRecord(ANSWERED_1, AcceptorRecord(2, 0, -1)), WithRecord(asking1, AcceptorRecord(2, 1, 1));
    Promised(f, ANSWERED_1, 2, 2);
    c := Gets(f, c, ANSWERED_1, asking1, Proposed(2), s0, 0, PREPARE_2, node0, {early});
    Promised(f, asking1, 2, 2);
    c := Gets(f, c, node0, asking1, Proposed(2), s0 + {early}, 1, PREPARE_2, node1, {late});
    // on the early answer node 2 asks for itself; node 0 accepts and sees node 2 elected
    SecondAnswer(f, 2, 0, 0);
    var vote := Packet(2, EVERYBODY, AcceptAck(2, 2));
    c := Gets(f, c, node0, node1, Proposed(2), s0 + {early} + {late}, 2, early, asking2, {ACCEPT_2, vote});
    c := SecondHalf(c, node0, node1, asking2, s0 + {early} + {late} + {ACCEPT_2, vote}, vote, late);
  }

  lemma SecondHalf(c0: Cluster, node0: Mod, node1: Mod, node2: Mod, s: set<Packet>, vote: Packet, late: Packet)
    returns (c: Cluster)
    requires At(ONLY_TWICE, c0, node0, node1, node2, s)
    requires node0 == WithRecord(ANSWERED_1, AcceptorRecord(2, 0, -1))
    requires node1 == WithRecord(Asking(ONLY_TWICE, 1, 0, 0), AcceptorRecord(2, 1, 1))
    requires node2 == Asking(ONLY_TWICE, 2, 0, 0)
    requires vote == Packet(2, EVERYBODY, AcceptAck(2, 2)) && late == Packet(1, 2, PrepareAck(2, 1, 1))
    requires ACCEPT_2 in s && vote in s && late in s
    ensures Reachable(ONLY_TWICE, 3, c) && Split(c)
  {
    var f := ONLY_TWICE;
    Voted(f, node0, 2, 2, 2);
    var voted0 := WithRecord(WithVote(node0, 0, 2, 2), AcceptorRecord(2, 2, 2));
    c := Gets(f, c0, node0, node1, node2, s, 0, ACCEPT_2, voted0, {});
    Elected(f, voted0, 2, 2, 2, 0);
    var done0 := WithVote(voted0, 2, 2, 2).(post := true, newLeader := 2);
    c := Gets(f, c, voted0, node1, node2, s + {}, 0, vote, done0, {});
    // on the late answer node 2 asks for node 1; node 1 accepts and sees itself elected
    ThirdAnswer();
    var again, vote' := Packet(2, EVERYBODY, Accept(2, 1)), Packet(2, EVERYBODY, AcceptAck(2, 1));
    c := Gets(f, c, done0, node1, node2, s + {} + {}, 2, late, AskingAgain(node2), {again, vote'});
    Voted(f, node1, 2, 2, 1);
    var voted1 := WithRecord(WithVote(node1, 1, 2, 1), AcceptorRecord(2, 2, 1));
    c := Gets(f, c, done0, node1, AskingAgain(node2), s + {} + {} + {again, vote'}, 1, again, voted1, {});
    Elected(f, voted1, 2, 2, 1, 1);
    var done1 := WithVote(voted1, 2, 2, 1).(post := true, newLeader := 1);
    c := Gets(f, c, done0, voted1, AskingAgain(node2), s + {} + {} + {again, vote'} + {}, 1, vote', done1, {});
    assert c.mods[0].post && c.mods[1].post && c.mods[0].newLeader != c.mods[1].newLeader;
  }

  // ---------- exactly when the election agrees ----------

  /** The election agrees in every execution of every group if and only if all three
      repairs are applied. */
  lemma AgreementNeedsTheRepairs(f: Fixes)
    ensures f == REPAIRED <==> forall n, c :: Reachable(f, n, c) ==> !Split(c)
  {
    if f == REPAIRED {
      forall n, c | Reachable(f, n, c) ensures !Split(c) {
        var states, steps :| Execution(f, n, states, steps) && states[|steps|] == c;
        forall i: nat, j: nat | i < |c.mods| && j < |c.mods| && c.mods[i].post && c.mods[j].post
          ensures c.mods[i].newLeader == c.mods[j].newLeader
        {
          ExecutionKeepsInv(n, states, steps, |steps|);
          OneLeader(n, states, steps, |steps|, i, |steps|, j);
        }
      }
    } else {
      var c: Cluster;
      if !f.keepContent {
        c := SplitWithoutKeepContent(f);
      } else if !f.ownAcceptor {
        c := SplitWithoutOwnAcceptor(f);
      } else {
        c := SplitWithoutOncePerPnum();
      }
      assert Reachable(f, 3, c) && Split(c);
    }
  }
}
