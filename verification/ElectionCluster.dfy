/**
 A group of nodes electing one leader: any node may time out and propose at
 any time, packets may be lost, duplicated and reordered. The invariant is
 that of single-decree agreement, for the repaired handlers.
 */
module ElectionCluster {
  import opened Basics
  import opened ElectionNode

  datatype Cluster = Cluster(mods: seq<Mod>, net: set<Packet>)

  datatype Step =
    | Timeout(i: nat)
    | Receive(i: nat, p: Packet)

  const REPAIRED: Fixes := Fixes(true, true, true)

  /** A freshly allocated module of node i. The tables' other columns are whatever
      malloc left there: p_pnum of the proposer rows, content of the learner rows. */
  predicate InitMod(n: nat, m: Mod, i: nat) {
    && m.nodeId == i && m.groupSize == n && Shaped(m)
    && m.nextPnum == i
    && m.acceptor == AcceptorRecord(0, 0, -1) && m.persisted == None
    && (forall j :: 0 <= j < n ==> m.learner[j].pnum == -1)
    && (forall j :: 0 <= j < n ==> m.proposer[j].aPnum == -1 && m.proposer[j].content == -1)
    && m.enteredPnum == -1 && !m.post
  }

  predicate Init(n: nat, c: Cluster) {
    && n >= 1 && |c.mods| == n && c.net == {}
    && forall i {:trigger c.mods[i]} :: 0 <= i < n ==> InitMod(n, c.mods[i], i)
  }

  predicate Addressed(p: Packet, i: nat) {
    p.to == i || (p.to == EVERYBODY && p.from != i)
  }

  predicate Enabled(c: Cluster, step: Step) {
    && step.i < |c.mods| && Shaped(c.mods[step.i])
    && match step
       case Timeout(i) => !c.mods[i].post
       case Receive(i, p) => p in c.net && Addressed(p, i) && p.from < c.mods[i].groupSize
  }

  function Packets(events: seq<Event>): set<Packet> {
    set e | e in events && e.Send? :: e.packet
  }

  function OutcomeOf(f: Fixes, c: Cluster, step: Step): Outcome
    requires Enabled(c, step)
  {
    match step
    case Timeout(i) => Propose(f, c.mods[i])
    case Receive(i, p) => HandleMsg(f, c.mods[i], p)
  }

  function Apply(f: Fixes, c: Cluster, step: Step): Cluster
    requires Enabled(c, step)
  {
    var out := OutcomeOf(f, c, step);
    Cluster(c.mods[step.i := out.mod], c.net + Packets(out.events))
  }

  // ---------- proposal numbers ----------

  /** The numbers of node i in a group of n: i, i + n, i + 2n, ... */
  predicate Owns(n: nat, i: nat, pnum: int)
    decreases pnum
  {
    n >= 1 && pnum >= 0 && (pnum == i || (pnum >= n && Owns(n, i, pnum - n)))
  }

  lemma {:induction false} OwnsOnce(n: nat, i: nat, j: nat, pnum: int)
    requires i < n && j < n && Owns(n, i, pnum) && Owns(n, j, pnum)
    ensures i == j
    decreases pnum
  {
    if pnum >= n {
      OwnsOnce(n, i, j, pnum - n);
    }
  }

  /** Node i's numbers are those congruent to i modulo the size of the group. */
  lemma {:induction false} OwnsIsCongruent(n: nat, i: nat, pnum: int)
    requires i < n && pnum >= 0
    ensures Owns(n, i, pnum) <==> pnum % n == i
    decreases pnum
  {
    if pnum >= n {
      OwnsIsCongruent(n, i, pnum - n);
      assert (pnum - n) % n == pnum % n by {
        SubtractModulus(pnum, n);
      }
    }
  }

  lemma MulBound(d: int, n: nat)
    requires n >= 1
    ensures d >= 1 ==> d * n >= n
    ensures d <= -1 ==> d * n <= 0 - n
  {
    if d >= 1 {
      assert (d - 1) * n >= 0;
      assert d * n == (d - 1) * n + n;
    } else {
      assert (d + 1) * n == d * n + n;
      assert d <= -1 ==> (d + 1) * n <= 0;
    }
  }

  lemma SubtractModulus(x: nat, n: nat)
    requires 1 <= n <= x
    ensures (x - n) % n == x % n
  {
    var q, r, q', r' := x / n, x % n, (x - n) / n, (x - n) % n;
    assert x == q * n + r && x - n == q' * n + r';
    var d := q - q' - 1;
    assert d * n == q * n - q' * n - n;
    MulBound(d, n);
  }

  // ---------- votes ----------

  predicate Acked(net: set<Packet>, j: nat, pnum: int, content: int) {
    Packet(j, EVERYBODY, AcceptAck(pnum, content)) in net
  }

  /** Node i asked everybody to accept. */
  predicate Asked(net: set<Packet>, i: nat, pnum: int, content: int) {
    Packet(i, EVERYBODY, Accept(pnum, content)) in net
  }

  /** Somebody did. */
  ghost predicate AskedFor(net: set<Packet>, pnum: int, content: int) {
    exists i :: Asked(net, i, pnum, content)
  }

  predicate Majority(n: nat, q: set<nat>) {
    |q| >= Half(n) && forall j :: j in q ==> j < n
  }

  predicate AllAcked(net: set<Packet>, q: set<nat>, pnum: int, content: int) {
    forall j :: j in q ==> Acked(net, j, pnum, content)
  }

  /** A majority accepted `content` under `pnum`. */
  ghost predicate Chosen(n: nat, net: set<Packet>, pnum: int, content: int) {
    exists q :: Majority(n, q) && AllAcked(net, q, pnum, content)
  }

  /** Node j accepted nothing strictly between lo and hi. */
  ghost predicate Silent(net: set<Packet>, j: nat, lo: int, hi: int) {
    forall r, c {:trigger Acked(net, j, r, c)} :: Acked(net, j, r, c) ==> !(lo < r < hi)
  }

  /** Node j's answer to proposal `pnum`: what it had accepted, and nothing since. */
  ghost predicate Promise(hs: seq<int>, net: set<Packet>, j: nat, pnum: int, accepted: int, content: int) {
    && j < |hs| && hs[j] >= pnum && 0 <= accepted < pnum
    && Silent(net, j, accepted, pnum)
    && (if accepted == 0 then content == -1 else Acked(net, j, accepted, content))
  }

  ghost predicate SafeWith(hs: seq<int>, net: set<Packet>, pnum: int, content: int, q: set<nat>, last: int) {
    && Majority(|hs|, q) && 0 <= last < pnum
    && (forall j :: j in q ==> hs[j] >= pnum && Silent(net, j, last, pnum))
    && (last > 0 ==> exists j :: j in q && Acked(net, j, last, content))
  }

  /** A majority promised `pnum`, and `content` is what its latest accepted number carried. */
  ghost predicate Safe(hs: seq<int>, net: set<Packet>, pnum: int, content: int) {
    exists q, last :: SafeWith(hs, net, pnum, content, q, last)
  }

  // ---------- the invariant ----------

  ghost predicate PacketOk(hs: seq<int>, net: set<Packet>, p: Packet) {
    && p.from < |hs|
    && match p.msg
       case Prepare(pnum, content) => Owns(|hs|, p.from, pnum) && content == -1
       case PrepareAck(pPnum, pnum, content) => Promise(hs, net, p.from, pPnum, pnum, content)
       case Accept(pnum, content) =>
         && p.to == EVERYBODY && pnum > 0 && Owns(|hs|, p.from, pnum)
         && 0 <= content < |hs| && Safe(hs, net, pnum, content)
       case AcceptAck(pnum, content) =>
         p.to == EVERYBODY && pnum > 0 && AskedFor(net, pnum, content)
       case Announce(pnum, content) => Chosen(|hs|, net, pnum, content)
  }

  /** Under one number, one content. */
  ghost predicate OneContent(net: set<Packet>) {
    forall i, j, pnum, c, c' {:trigger Asked(net, i, pnum, c), Asked(net, j, pnum, c')} ::
      Asked(net, i, pnum, c) && Asked(net, j, pnum, c') ==> c == c'
  }

  ghost predicate AcceptorOk(net: set<Packet>, i: nat, a: AcceptorRecord) {
    && 0 <= a.accepted <= a.highestSeen
    && (if a.accepted == 0 then a.content == -1 else Acked(net, i, a.accepted, a.content))
    && (forall r, c {:trigger Acked(net, i, r, c)} :: Acked(net, i, r, c) ==> r <= a.accepted)
  }

  ghost predicate ProposerOk(hs: seq<int>, net: set<Packet>, m: Mod)
    requires Shaped(m)
  {
    && Owns(m.groupSize, m.nodeId, m.nextPnum)
    && (m.enteredPnum == -1 || (m.enteredPnum <= Origin(m) && Owns(m.groupSize, m.nodeId, m.enteredPnum)))
    && (forall p, c {:trigger Asked(net, m.nodeId, p, c)} :: Asked(net, m.nodeId, p, c) ==> p <= m.enteredPnum)
    && (forall j {:trigger m.proposer[j]} :: 0 <= j < m.groupSize ==>
          var row := m.proposer[j];
          row.aPnum >= -1 && (row.aPnum != -1 ==> Promise(hs, net, j, row.pPnum, row.aPnum, row.content)))
  }

  ghost predicate LearnerOk(net: set<Packet>, m: Mod)
    requires Shaped(m)
  {
    && (forall j {:trigger m.learner[j]} :: 0 <= j < m.groupSize ==>
          m.learner[j].pnum != -1 ==> Acked(net, j, m.learner[j].pnum, m.learner[j].content))
    && (m.post ==> exists pnum :: Chosen(m.groupSize, net, pnum, m.newLeader))
  }

  ghost predicate ModOk(hs: seq<int>, net: set<Packet>, i: nat, m: Mod) {
    && Shaped(m) && m.nodeId == i && m.groupSize == |hs|
    && m.acceptor.highestSeen == hs[i]
    && AcceptorOk(net, i, m.acceptor)
    && (m.persisted == Some(m.acceptor) || (m.persisted == None && m.acceptor == AcceptorRecord(0, 0, -1)))
    && ProposerOk(hs, net, m)
    && LearnerOk(net, m)
  }

  ghost predicate NetOk(hs: seq<int>, net: set<Packet>) {
    && (forall p {:trigger p in net} :: p in net ==> PacketOk(hs, net, p))
    && OneContent(net)
  }

  function HighestSeen(mods: seq<Mod>): seq<int> {
    seq(|mods|, j requires 0 <= j < |mods| => mods[j].acceptor.highestSeen)
  }

  ghost predicate Inv(c: Cluster) {
    var hs := HighestSeen(c.mods);
    && |c.mods| >= 1
    && NetOk(hs, c.net)
    && forall i {:trigger c.mods[i]} :: 0 <= i < |c.mods| ==> ModOk(hs, c.net, i, c.mods[i])
  }

  // ---------- agreement from the invariant ----------

  /** Two majorities share a node. */
  lemma Intersect(n: nat, a: set<nat>, b: set<nat>) returns (j: nat)
    requires Majority(n, a) && Majority(n, b)
    ensures j in a && j in b && j < n
  {
    SubsetIsSmaller(a + b, Below(n));
    assert |a * b| == |a| + |b| - |a + b|;
    j :| j in a * b;
  }

  function Below(n: nat): (s: set<nat>)
    ensures |s| == n && forall j: nat :: j in s <==> j < n
  {
    if n == 0 then {} else Below(n - 1) + {n - 1}
  }

  /** A vote was asked for. */
  lemma VoteWasAskedFor(hs: seq<int>, net: set<Packet>, j: nat, pnum: int, c: int) returns (i: nat)
    requires NetOk(hs, net) && Acked(net, j, pnum, c)
    ensures pnum > 0 && Asked(net, i, pnum, c) && PacketOk(hs, net, Packet(i, EVERYBODY, Accept(pnum, c)))
  {
    assert PacketOk(hs, net, Packet(j, EVERYBODY, AcceptAck(pnum, c)));
    i :| Asked(net, i, pnum, c);
  }

  /** No proposal above a chosen one asks for another content. */
  lemma {:induction false} ChosenIsKept(hs: seq<int>, net: set<Packet>, q: int, c: int, i: nat, pnum: int, c': int)
    requires NetOk(hs, net) && |hs| >= 1
    requires Chosen(|hs|, net, q, c)
    requires Asked(net, i, pnum, c') && q <= pnum
    ensures c == c'
    decreases pnum
  {
    var voters :| Majority(|hs|, voters) && AllAcked(net, voters, q, c);
    assert PacketOk(hs, net, Packet(i, EVERYBODY, Accept(pnum, c')));
    if q == pnum {
      var j :| j in voters;
      var _ := VoteWasAskedFor(hs, net, j, q, c);
    } else {
      var promised, last :| SafeWith(hs, net, pnum, c', promised, last);
      var j := Intersect(|hs|, voters, promised);
      assert Acked(net, j, q, c);
      var _ := VoteWasAskedFor(hs, net, j, q, c);
      assert q <= last;
      var k :| k in promised && Acked(net, k, last, c');
      var i' := VoteWasAskedFor(hs, net, k, last, c');
      ChosenIsKept(hs, net, q, c, i', last, c');
    }
  }

  /** Two chosen contents are the same, under whatever numbers they were chosen. */
  lemma ChosenAgree(hs: seq<int>, net: set<Packet>, p: int, c: int, p': int, c': int)
    requires NetOk(hs, net) && |hs| >= 1
    requires Chosen(|hs|, net, p, c) && Chosen(|hs|, net, p', c')
    ensures c == c'
  {
    if p > p' {
      ChosenAgree(hs, net, p', c', p, c);
    } else {
      var high :| Majority(|hs|, high) && AllAcked(net, high, p', c');
      var j :| j in high;
      var i := VoteWasAskedFor(hs, net, j, p', c');
      ChosenIsKept(hs, net, p, c, i, p', c');
    }
  }
}
