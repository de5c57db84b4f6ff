/**
 One instance of the leader election on one node, as functions on values
 (src/replica-sys/replica.c, message construction in src/replica-sys/message.c).

 The source's handlers do not reach agreement as they stand; `Fixes` says which
 of three repairs are applied. With all three off this is the source.
 */
module ElectionNode {
  import opened Basics

  /** keepContent: on PREPARE, keep the accepted content (replica.c:878 overwrites it).
      ownAcceptor: the proposer's own vote goes through its own acceptor
        (replica.c:789-790 writes it straight into its learner table).
      oncePerPnum: phase two is entered at most once per proposal number
        (replica.c:841-843 enters it on every later PREPARE_ACK). */
  datatype Fixes = Fixes(keepContent: bool, ownAcceptor: bool, oncePerPnum: bool)

  datatype AcceptorRecord = AcceptorRecord(highestSeen: int, accepted: int, content: int)
  datatype ProposerRecord = ProposerRecord(pPnum: int, aPnum: int, content: int)
  datatype LearnerRecord = LearnerRecord(pnum: int, content: int)

  datatype Msg =
    | Prepare(pnum: int, content: int)
    | PrepareAck(pPnum: int, pnum: int, content: int)
    | Accept(pnum: int, content: int)
    | AcceptAck(pnum: int, content: int)
    | Announce(pnum: int, content: int)

  const EVERYBODY: int := -1

  /** `to == EVERYBODY` is send_to_other_nodes: every node but the sender. */
  datatype Packet = Packet(from: nat, to: int, msg: Msg)

  /** What a handler does to the outside, in order. */
  datatype Event =
    | Persist(record: AcceptorRecord)
    | Send(packet: Packet)

  datatype Mod = Mod(
    nodeId: nat,
    groupSize: nat,
    nextPnum: int,
    acceptor: AcceptorRecord,
    persisted: Option<AcceptorRecord>,
    learner: seq<LearnerRecord>,
    proposer: seq<ProposerRecord>,
    enteredPnum: int,
    post: bool,
    newLeader: int)

  datatype Outcome = Outcome(mod: Mod, events: seq<Event>)

  /** The tables have one row per node. */
  predicate Shaped(m: Mod) {
    m.nodeId < m.groupSize && |m.learner| == |m.proposer| == m.groupSize
  }

  function Half(groupSize: nat): nat {
    groupSize / 2 + 1
  }

  /** The number of the proposal in progress. */
  function Origin(m: Mod): int {
    m.nextPnum - m.groupSize
  }

  function Broadcast(m: Mod, msg: Msg): Event {
    Send(Packet(m.nodeId, EVERYBODY, msg))
  }

  /** acceptor_update_record, once it has succeeded: the source retries until it does. */
  function Persisted(m: Mod): Mod {
    m.(persisted := Some(m.acceptor))
  }

  // ---------- learner ----------

  function CountPnum(learner: seq<LearnerRecord>, base: int, k: nat): nat
    requires k <= |learner|
  {
    if k == 0 then 0
    else CountPnum(learner, base, k - 1) + (if learner[k - 1].pnum == base then 1 else 0)
  }

  /** learner_check_accept: the first row whose number a majority of the rows has. */
  function LearnerCheck(learner: seq<LearnerRecord>, half: nat, i: nat): Option<LearnerRecord>
    requires i <= |learner|
    decreases |learner| - i
  {
    if i == |learner| then None
    else if learner[i].pnum != -1 && CountPnum(learner, learner[i].pnum, |learner|) >= half then Some(learner[i])
    else LearnerCheck(learner, half, i + 1)
  }

  /** leader_election_handle_announce, up to entering the post stage */
  function HandleAnnounce(m: Mod, content: int): Outcome {
    Outcome(m.(post := true, newLeader := content), [])
  }

  /** leader_election_learner_do */
  function LearnerDo(m: Mod, from: nat, pnum: int, content: int): (r: Outcome)
    requires Shaped(m) && from < m.groupSize
    ensures Shaped(r.mod)
    ensures r.mod == m.(learner := r.mod.learner, post := r.mod.post, newLeader := r.mod.newLeader)
  {
    if pnum > m.learner[from].pnum then
      var m1 := m.(learner := m.learner[from := LearnerRecord(pnum, content)]);
      match LearnerCheck(m1.learner, Half(m.groupSize), 0)
      case None => Outcome(m1, [])
      case Some(elected) =>
        Outcome(HandleAnnounce(m1, elected.content).mod, [Broadcast(m, Announce(elected.pnum, elected.content))])
    else Outcome(m, [])
  }

  // ---------- acceptor ----------

  /** leader_election_acceptor_do on PREPARE */
  function AcceptorPrepare(f: Fixes, m: Mod, from: nat, pnum: int, content: int): (r: Outcome)
    requires Shaped(m)
    ensures Shaped(r.mod)
  {
    if pnum > m.acceptor.highestSeen then
      var record := m.acceptor.(
        highestSeen := pnum,
        content := if f.keepContent then m.acceptor.content else content);
      Outcome(Persisted(m.(acceptor := record)),
              [Persist(record), Send(Packet(m.nodeId, from, PrepareAck(pnum, record.accepted, record.content)))])
    else Outcome(m, [])
  }

  /** leader_election_acceptor_do on ACCEPT */
  function AcceptorAccept(m: Mod, pnum: int, content: int): (r: Outcome)
    requires Shaped(m)
    ensures Shaped(r.mod)
  {
    if pnum >= m.acceptor.highestSeen then
      var record := AcceptorRecord(pnum, pnum, content);
      var learned := LearnerDo(Persisted(m.(acceptor := record)), m.nodeId, pnum, content);
      Outcome(learned.mod, [Persist(record)] + learned.events + [Broadcast(m, AcceptAck(pnum, content))])
    else Outcome(m, [])
  }

  // ---------- proposer ----------

  /** What proposer_check_prepare has seen after some rows. */
  datatype Scan = Scan(inc: nat, pnum: int, content: int)

  function PrepareScan(proposer: seq<ProposerRecord>, origin: int, k: nat): Scan
    requires k <= |proposer|
  {
    if k == 0 then Scan(0, -1, -1)
    else
      var s, row := PrepareScan(proposer, origin, k - 1), proposer[k - 1];
      if row.pPnum != origin then s
      else
        var inc := s.inc + (if row.aPnum != -1 then 1 else 0);
        if row.aPnum > s.pnum then Scan(inc, row.aPnum, row.content) else Scan(inc, s.pnum, s.content)
  }

  /** leader_election_proposer_phase_two */
  function PhaseTwo(f: Fixes, m: Mod, pnum: int, content: int): (r: Outcome)
    requires Shaped(m)
    ensures Shaped(r.mod)
  {
    var value := if content == -1 then m.nodeId else content;
    var accept := Broadcast(m, Accept(pnum, value));
    var m1 := m.(enteredPnum := pnum);
    if f.ownAcceptor then
      var own := AcceptorAccept(m1, pnum, value);
      Outcome(own.mod, [accept] + own.events)
    else
      Outcome(m1.(learner := m1.learner[m.nodeId := LearnerRecord(pnum, value)]), [accept])
  }

  /** proposer_check_prepare, and phase two if it succeeds */
  function CheckPrepare(f: Fixes, m: Mod): (r: Outcome)
    requires Shaped(m)
    ensures Shaped(r.mod)
  {
    var s := PrepareScan(m.proposer, Origin(m), m.groupSize);
    if s.inc >= Half(m.groupSize) && !(f.oncePerPnum && m.enteredPnum == Origin(m))
    then PhaseTwo(f, m, Origin(m), s.content)
    else Outcome(m, [])
  }

  /** leader_election_proposer_do without a message: the timer fired */
  function Propose(f: Fixes, m: Mod): (r: Outcome)
    requires Shaped(m)
    ensures Shaped(r.mod)
  {
    var pnum := m.nextPnum;
    var prepare := Broadcast(m, Prepare(pnum, -1));
    var m1 := m.(nextPnum := pnum + m.groupSize);
    if m1.acceptor.highestSeen < pnum then
      var record := m1.acceptor.(highestSeen := pnum);
      var row := ProposerRecord(pnum, record.accepted, record.content);
      var checked := CheckPrepare(f,
        Persisted(m1.(acceptor := record, proposer := m1.proposer[m.nodeId := row])));
      Outcome(checked.mod, [prepare, Persist(record)] + checked.events)
    else Outcome(m1, [prepare])
  }

  /** leader_election_proposer_do on PREPARE_ACK */
  function ProposerAck(f: Fixes, m: Mod, from: nat, pPnum: int, aPnum: int, content: int): (r: Outcome)
    requires Shaped(m) && from < m.groupSize
    ensures Shaped(r.mod)
  {
    if pPnum == Origin(m) then
      CheckPrepare(f, m.(proposer := m.proposer[from := ProposerRecord(pPnum, aPnum, content)]))
    else Outcome(m, [])
  }

  /** handle_leader_election_msg */
  function HandleMsg(f: Fixes, m: Mod, p: Packet): (r: Outcome)
    requires Shaped(m) && p.from < m.groupSize
    ensures Shaped(r.mod)
  {
    match p.msg
    case Prepare(pnum, content) => AcceptorPrepare(f, m, p.from, pnum, content)
    case PrepareAck(pPnum, pnum, content) => ProposerAck(f, m, p.from, pPnum, pnum, content)
    case Accept(pnum, content) => AcceptorAccept(m, pnum, content)
    case AcceptAck(pnum, content) => LearnerDo(m, p.from, pnum, content)
    case Announce(_, content) => HandleAnnounce(m, content)
  }

  // ---------- what the scans compute ----------

  /** The rows that answer the proposal `origin`. */
  function Answered(proposer: seq<ProposerRecord>, origin: int, k: nat): set<nat>
    requires k <= |proposer|
  {
    set j: nat | j < k && proposer[j].pPnum == origin && proposer[j].aPnum != -1
  }

  /** proposer_check_prepare counts the rows that answer the proposal, and picks the
      content of one with the highest accepted number among them. */
  lemma {:induction false} PrepareScanMeaning(proposer: seq<ProposerRecord>, origin: int, k: nat)
    requires k <= |proposer|
    requires forall j :: 0 <= j < |proposer| ==> proposer[j].aPnum >= -1
    ensures var s, rows := PrepareScan(proposer, origin, k), Answered(proposer, origin, k);
      && s.inc == |rows| && s.pnum >= -1
      && (forall j :: j in rows ==> proposer[j].aPnum <= s.pnum)
      && (s.pnum == -1 ==> rows == {} && s.content == -1)
      && (s.pnum != -1 ==> exists j :: j in rows && proposer[j].aPnum == s.pnum && proposer[j].content == s.content)
  {
    if k > 0 {
      PrepareScanMeaning(proposer, origin, k - 1);
      var row, before := proposer[k - 1], Answered(proposer, origin, k - 1);
      if row.pPnum == origin && row.aPnum != -1 {
        assert Answered(proposer, origin, k) == before + {k - 1};
      } else {
        assert Answered(proposer, origin, k) == before;
      }
    }
  }

  /** The rows that acknowledge the proposal `base`. */
  function Voters(learner: seq<LearnerRecord>, base: int, k: nat): set<nat>
    requires k <= |learner|
  {
    set j: nat | j < k && learner[j].pnum == base
  }

  lemma {:induction false} CountPnumMeaning(learner: seq<LearnerRecord>, base: int, k: nat)
    requires k <= |learner|
    ensures CountPnum(learner, base, k) == |Voters(learner, base, k)|
  {
    if k > 0 {
      CountPnumMeaning(learner, base, k - 1);
      var before := Voters(learner, base, k - 1);
      assert Voters(learner, base, k) == if learner[k - 1].pnum == base then before + {k - 1} else before;
    }
  }

  /** learner_check_accept succeeds exactly when some number has a majority of the rows,
      and then returns a row with such a number. */
  lemma {:induction false} LearnerCheckMeaning(learner: seq<LearnerRecord>, half: nat, i: nat)
    requires i <= |learner|
    ensures var r := LearnerCheck(learner, half, i);
      && (r.Some? ==> exists j :: i <= j < |learner| && learner[j] == r.value && r.value.pnum != -1
                        && |Voters(learner, r.value.pnum, |learner|)| >= half)
      && (r.None? ==> forall j :: i <= j < |learner| && learner[j].pnum != -1 ==>
                        |Voters(learner, learner[j].pnum, |learner|)| < half)
    decreases |learner| - i
  {
    if i < |learner| {
      CountPnumMeaning(learner, learner[i].pnum, |learner|);
      LearnerCheckMeaning(learner, half, i + 1);
    }
  }
}
