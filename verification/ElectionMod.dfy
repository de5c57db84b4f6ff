/**
 The election module of one node as the source has it: an object with two
 tables that its handlers update in place. Every method is proved to do what
 the function of the same name in ElectionNode says.
 */
module ElectionMod {
  import opened Basics
  import opened ElectionNode
  import Spec = ElectionNode

  class LeleMod {
    const fixes: Fixes
    const nodeId: nat
    const groupSize: nat
    var nextPnum: int
    var acceptor: AcceptorRecord
    var persisted: Option<AcceptorRecord>
    const learnerArr: array<LearnerRecord>
    const proposerArr: array<ProposerRecord>
    var enteredPnum: int
    var post: bool
    var newLeader: int
    /** Database writes and sent packets, in order. */
    var events: seq<Event>

    predicate Valid()
      reads this
    {
      nodeId < groupSize && learnerArr.Length == groupSize && proposerArr.Length == groupSize
    }

    function State(): (m: Mod)
      reads this, learnerArr, proposerArr
    {
      Mod(nodeId, groupSize, nextPnum, acceptor, persisted, learnerArr[..], proposerArr[..],
          enteredPnum, post, newLeader)
    }

    /** initialize_leader_election_mod and refresh_leader_election; `garbage` is what malloc leaves. */
    constructor (fixes: Fixes, nodeId: nat, groupSize: nat, learnerGarbage: LearnerRecord, proposerGarbage: ProposerRecord)
      requires nodeId < groupSize
      ensures Valid() && fresh(learnerArr) && fresh(proposerArr)
      ensures this.fixes == fixes && events == []
      ensures State() == Mod(nodeId, groupSize, nodeId, AcceptorRecord(0, 0, -1), None,
                seq(groupSize, j => learnerGarbage.(pnum := -1)),
                seq(groupSize, j => proposerGarbage.(aPnum := -1, content := -1)), -1, false, 0)
    {
      this.fixes, this.nodeId, this.groupSize, this.nextPnum := fixes, nodeId, groupSize, nodeId;
      this.acceptor, this.persisted := AcceptorRecord(0, 0, -1), None;
      this.learnerArr := new LearnerRecord[groupSize](j => learnerGarbage);
      this.proposerArr := new ProposerRecord[groupSize](j => proposerGarbage);
      this.enteredPnum, this.post, this.newLeader, this.events := -1, false, 0, [];
      new;
      for i := 0 to groupSize
        invariant forall j :: 0 <= j < i ==> learnerArr[j] == learnerGarbage.(pnum := -1)
        invariant forall j :: i <= j < groupSize ==> learnerArr[j] == learnerGarbage
        invariant forall j :: 0 <= j < i ==> proposerArr[j] == proposerGarbage.(aPnum := -1, content := -1)
        invariant forall j :: i <= j < groupSize ==> proposerArr[j] == proposerGarbage
        invariant nextPnum == nodeId && acceptor == AcceptorRecord(0, 0, -1) && persisted == None
        invariant enteredPnum == -1 && !post && newLeader == 0 && events == []
      {
        learnerArr[i] := learnerArr[i].(pnum := -1);
        proposerArr[i] := proposerArr[i].(aPnum := -1, content := -1);
      }
    }

    method Emit(e: Event)
      modifies this`events
      ensures events == old(events) + [e]
    {
      events := events + [e];
    }

    /** acceptor_update_record, once it succeeds */
    method UpdateRecord()
      modifies this`persisted, this`events
      ensures persisted == Some(acceptor) && events == old(events) + [Persist(acceptor)]
    {
      persisted := Some(acceptor);
      Emit(Persist(acceptor));
    }

    /** proposer_check_prepare: `count` answers, the content of the highest accepted one. */
    method ProposerCheckPrepare() returns (enough: bool, pnum: int, content: int)
      requires Valid()
      ensures var s := PrepareScan(proposerArr[..], Origin(State()), groupSize);
        enough == (s.inc >= Half(groupSize)) && content == s.content && pnum == Origin(State())
    {
      var inc, best := 0, -1;
      content := -1;
      var origin := nextPnum - groupSize;
      var i := 0;
      while i < groupSize
        invariant 0 <= i <= groupSize
        invariant PrepareScan(proposerArr[..], origin, i) == Scan(inc, best, content)
      {
        if proposerArr[i].pPnum == origin {
          if proposerArr[i].aPnum != -1 {
            inc := inc + 1;
          }
          if proposerArr[i].aPnum > best {
            content := proposerArr[i].content;
            best := proposerArr[i].aPnum;
          }
        }
        i := i + 1;
      }
      pnum := origin;
      enough := inc >= Half(groupSize);
    }

    /** learner_check_accept: two nested loops over the learner table. */
    method LearnerCheckAccept() returns (elected: Option<LearnerRecord>)
      requires Valid()
      ensures elected == LearnerCheck(learnerArr[..], Half(groupSize), 0)
    {
      var i := 0;
      while i < groupSize
        invariant 0 <= i <= groupSize
        invariant LearnerCheck(learnerArr[..], Half(groupSize), 0) == LearnerCheck(learnerArr[..], Half(groupSize), i)
      {
        if learnerArr[i].pnum != -1 {
          var inc, j, base := 0, 0, learnerArr[i].pnum;
          while j < groupSize
            invariant 0 <= j <= groupSize
            invariant inc == CountPnum(learnerArr[..], base, j) < Half(groupSize)
          {
            if learnerArr[j].pnum == base {
              inc := inc + 1;
            }
            if inc >= Half(groupSize) {
              CountPnumGrows(learnerArr[..], base, j + 1, groupSize);
              return Some(learnerArr[i]);
            }
            j := j + 1;
          }
        }
        i := i + 1;
      }
      return None;
    }

    method LearnerDo(from: nat, pnum: int, content: int)
      requires Valid() && from < groupSize
      modifies this, learnerArr
      ensures Valid() && State() == Spec.LearnerDo(old(State()), from, pnum, content).mod
      ensures events == old(events) + Spec.LearnerDo(old(State()), from, pnum, content).events
    {
      if pnum > learnerArr[from].pnum {
        learnerArr[from] := LearnerRecord(pnum, content);
        assert learnerArr[..] == old(learnerArr[..])[from := LearnerRecord(pnum, content)];
        var elected := LearnerCheckAccept();
        if elected.Some? {
          Emit(Send(Packet(nodeId, EVERYBODY, Announce(elected.value.pnum, elected.value.content))));
          HandleAnnounce(elected.value.content);
        }
      }
    }

    method HandleAnnounce(content: int)
      modifies this`post, this`newLeader
      ensures State() == Spec.HandleAnnounce(old(State()), content).mod
    {
      post, newLeader := true, content;
    }

    method AcceptorPrepare(from: nat, pnum: int, content: int)
      requires Valid()
      modifies this
      ensures Valid() && State() == Spec.AcceptorPrepare(fixes, old(State()), from, pnum, content).mod
      ensures events == old(events) + Spec.AcceptorPrepare(fixes, old(State()), from, pnum, content).events
    {
      if pnum > acceptor.highestSeen {
        acceptor := acceptor.(highestSeen := pnum);
        if !fixes.keepContent {
          acceptor := acceptor.(content := content);
        }
        UpdateRecord();
        Emit(Send(Packet(nodeId, from, PrepareAck(acceptor.highestSeen, acceptor.accepted, acceptor.content))));
      }
    }

    method AcceptorAccept(pnum: int, content: int)
      requires Valid()
      modifies this, learnerArr
      ensures Valid() && State() == Spec.AcceptorAccept(old(State()), pnum, content).mod
      ensures events == old(events) + Spec.AcceptorAccept(old(State()), pnum, content).events
    {
      if pnum >= acceptor.highestSeen {
        acceptor := AcceptorRecord(pnum, pnum, content);
        UpdateRecord();
        LearnerDo(nodeId, pnum, content);
        Emit(Send(Packet(nodeId, EVERYBODY, AcceptAck(acceptor.accepted, acceptor.content))));
      }
    }

    method PhaseTwo(pnum: int, content: int)
      requires Valid()
      modifies this, learnerArr
      ensures Valid() && State() == Spec.PhaseTwo(fixes, old(State()), pnum, content).mod
      ensures events == old(events) + Spec.PhaseTwo(fixes, old(State()), pnum, content).events
    {
      hide Spec.AcceptorAccept;
      var value := content;
      if value == -1 {
        value := nodeId;
      }
      enteredPnum := pnum;
      if fixes.ownAcceptor {
        Emit(Send(Packet(nodeId, EVERYBODY, Accept(pnum, value))));
        AcceptorAccept(pnum, value);
      } else {
        learnerArr[nodeId] := LearnerRecord(pnum, value);
        assert learnerArr[..] == old(learnerArr[..])[nodeId := LearnerRecord(pnum, value)];
        Emit(Send(Packet(nodeId, EVERYBODY, Accept(pnum, value))));
      }
    }

    method CheckPrepare()
      requires Valid()
      modifies this, learnerArr
      ensures Valid() && State() == Spec.CheckPrepare(fixes, old(State())).mod
      ensures events == old(events) + Spec.CheckPrepare(fixes, old(State())).events
    {
      var enough, pnum, content := ProposerCheckPrepare();
      if enough && !(fixes.oncePerPnum && enteredPnum == pnum) {
        PhaseTwo(pnum, content);
      }
    }

    method Propose()
      requires Valid()
      modifies this, learnerArr, proposerArr
      ensures Valid() && State() == Spec.Propose(fixes, old(State())).mod
      ensures events == old(events) + Spec.Propose(fixes, old(State())).events
    {
      hide Spec.CheckPrepare;
      var pnum := nextPnum;
      nextPnum := nextPnum + groupSize;
      Emit(Send(Packet(nodeId, EVERYBODY, Prepare(pnum, -1))));
      if acceptor.highestSeen < pnum {
        acceptor := acceptor.(highestSeen := pnum);
        proposerArr[nodeId] := ProposerRecord(pnum, acceptor.accepted, acceptor.content);
        assert proposerArr[..] ==
          old(proposerArr[..])[nodeId := ProposerRecord(pnum, acceptor.accepted, acceptor.content)];
        UpdateRecord();
        CheckPrepare();
      }
    }

    method ProposerAck(from: nat, pPnum: int, aPnum: int, content: int)
      requires Valid() && from < groupSize
      modifies this, learnerArr, proposerArr
      ensures Valid() && State() == Spec.ProposerAck(fixes, old(State()), from, pPnum, aPnum, content).mod
      ensures events == old(events) + Spec.ProposerAck(fixes, old(State()), from, pPnum, aPnum, content).events
    {
      var origin := nextPnum - groupSize;
      if pPnum == origin {
        proposerArr[from] := ProposerRecord(origin, aPnum, content);
        assert proposerArr[..] == old(proposerArr[..])[from := ProposerRecord(origin, aPnum, content)];
        CheckPrepare();
      }
    }

    /** handle_leader_election_msg */
    method HandleMsg(p: Packet)
      requires Valid() && p.from < groupSize
      modifies this, learnerArr, proposerArr
      ensures Valid() && State() == Spec.HandleMsg(fixes, old(State()), p).mod
      ensures events == old(events) + Spec.HandleMsg(fixes, old(State()), p).events
    {
      match p.msg {
        case Prepare(pnum, content) => AcceptorPrepare(p.from, pnum, content);
        case PrepareAck(pPnum, pnum, content) => ProposerAck(p.from, pPnum, pnum, content);
        case Accept(pnum, content) => AcceptorAccept(pnum, content);
        case AcceptAck(pnum, content) => LearnerDo(p.from, pnum, content);
        case Announce(_, content) => HandleAnnounce(content);
      }
    }
  }

  lemma {:induction false} CountPnumGrows(learner: seq<LearnerRecord>, base: int, j: nat, k: nat)
    requires j <= k <= |learner|
    ensures CountPnum(learner, base, j) <= CountPnum(learner, base, k)
  {
    if j < k {
      CountPnumGrows(learner, base, j, k - 1);
    }
  }
}
