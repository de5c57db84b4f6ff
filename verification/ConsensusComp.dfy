/**
 The consensus component as the source has it: one object whose handlers
 update its marks and its database in place. Every method is proved to do what
 the function of the same name in ConsensusNode says, so everything proved
 about those functions in Replication* and GapRepair is about these methods.
 */
module ConsensusComp {
  import opened Basics
  import opened ViewStamps
  import opened Bitmap
  import opened ConsensusNode
  import opened ConsensusExec
  import Spec = ConsensusNode

  class Component {
    const nodeId: nat
    const groupSize: nat
    var role: Role
    var curView: View
    var seen: ViewStamp
    var toCommit: ViewStamp
    var committed: ViewStamp
    var db: map<nat, Record>
    const boundaries: map<nat, ViewStamp>
    /** The calls of the user callback and of the sending callback, in order. */
    var delivered: seq<Delivery>
    var sent: seq<Packet>

    function State(): Node
      reads this
    {
      Node(nodeId, groupSize, role, curView, seen, toCommit, committed, db, delivered, boundaries)
    }

    /** init_consensus_comp: the first view, nothing seen. */
    constructor (nodeId: nat, groupSize: nat, curView: View, db: map<nat, Record>, boundaries: map<nat, ViewStamp>)
      ensures this.nodeId == nodeId && this.groupSize == groupSize
      ensures State() == Node(nodeId, groupSize,
                if curView.leaderId == nodeId then Leader else Secondary, curView,
                ViewStamp(1, 0), ViewStamp(1, 0), ViewStamp(1, 0), db, [], boundaries)
      ensures sent == []
    {
      this.nodeId, this.groupSize := nodeId, groupSize;
      this.role := if curView.leaderId == nodeId then Leader else Secondary;
      this.curView := curView;
      this.seen, this.toCommit, this.committed := ViewStamp(1, 0), ViewStamp(1, 0), ViewStamp(1, 0);
      this.db, this.boundaries := db, boundaries;
      this.delivered, this.sent := [], [];
    }

    /** consensus_update_role, together with the view it reads. */
    method UpdateRole(view: View)
      modifies this
      ensures State() == JoinView(old(State()), view) && sent == old(sent)
    {
      curView := view;
      role := if view.leaderId == nodeId then Leader else Secondary;
      seen, toCommit, committed := ViewStamp(view.viewId, 0), ViewStamp(view.viewId, 0), ViewStamp(view.viewId, 0);
    }

    method Send(to: int, msg: Msg)
      modifies this`sent
      ensures sent == old(sent) + [Packet(nodeId, to, msg)]
    {
      sent := sent + [Packet(nodeId, to, msg)];
    }

    /** deliver_msg_data */
    method DeliverMsgData(key: nat)
      requires key in db
      modifies this`delivered
      ensures delivered == old(delivered) + [Delivery(key, db[key].data)]
    {
      delivered := delivered + [Delivery(key, db[key].data)];
    }

    method LeaderTryToExecute()
      requires LeaderReady(State())
      modifies this`toCommit, this`committed, this`delivered
      ensures State() == Spec.LeaderTryToExecute(old(State()))
    {
      ghost var goal := Spec.LeaderTryToExecute(State());
      var index: nat, end := 0, Vstol(seen);
      if seen.viewId != toCommit.viewId {
        assert NextView(toCommit.viewId) == seen.viewId;
        toCommit := ViewStamp(NextView(toCommit.viewId), 0);
        committed := toCommit;
        index := Vstol(toCommit);
      } else {
        index := Vstol(toCommit) as nat + 1;
      }
      var execFlag := ViewStampComp(committed, toCommit) == 0;
      while index <= end
        invariant Loaded(db, groupSize, index, end)
        invariant LeaderLoop(State(), index, end, execFlag) == goal
        decreases end + 1 - index
      {
        if !ReachedQuorum(db[index].bitMap, groupSize) {
          return;
        }
        toCommit := Inc(toCommit);
        if execFlag {
          DeliverMsgData(index);
          committed := Inc(committed);
        }
        index := index + 1;
      }
    }

    method TryToExecute()
      requires Ready(State())
      modifies this`toCommit, this`committed, this`delivered, this`sent
      ensures State() == Spec.TryToExecute(old(State())).node
      ensures sent == old(sent) + Spec.TryToExecute(old(State())).sent
    {
      hide Spec.LeaderTryToExecute, ExecLoop, Ltovs;
      if curView.viewId == 0 {
        return;
      }
      if role.Leader? {
        LeaderTryToExecute();
      }
      var start: nat := Vstol(committed) as nat + 1;
      if committed.viewId != toCommit.viewId {
        var bound := ViewStamp(NextView(committed.viewId), 0);
        if Vstol(bound) !in db {
          Send(EVERYBODY, MissingReq(bound));
          return;
        }
        var last := ReadBoundary(Vstol(bound));
        ExecuteRecords(start, Vstol(last));
        if committed == last {
          committed := ViewStamp(NextView(committed.viewId), 0);
        }
      } else {
        ExecuteRecords(start, Vstol(toCommit));
      }
    }

    /** A record read as a view_boundary. */
    method ReadBoundary(key: nat) returns (vs: ViewStamp)
      ensures vs == BoundaryAt(State(), key)
    {
      vs := if key in boundaries then boundaries[key] else ViewStamp(0, 0);
    }

    /** The loop of try_to_execute over the records start..end. */
    method ExecuteRecords(start: nat, end: nat)
      requires end < WORD
      modifies this`committed, this`delivered, this`sent
      ensures State() == ExecLoop(old(State()), start, end, true).node
      ensures sent == old(sent) + ExecLoop(old(State()), start, end, true).sent
    {
      hide Ltovs, ExecLoop, Inc;
      ghost var goal := ExecLoop(State(), start, end, true);
      ghost var asked: seq<Packet> := [];
      var index, execFlag := start, true;
      while index <= end
        invariant ExecLoop(State(), index, end, execFlag).node == goal.node
        invariant sent == old(sent) + asked
        invariant goal.sent == asked + ExecLoop(State(), index, end, execFlag).sent
        decreases end + 1 - index
      {
        ExecStep(asked, State(), index, end, execFlag);
        if index !in db {
          execFlag := false;
          asked := asked + [Broadcast(State(), MissingReq(Ltovs(index)))];
          Send(EVERYBODY, MissingReq(Ltovs(index)));
        }
        if execFlag {
          DeliverMsgData(index);
          committed := Inc(committed);
        }
        index := index + 1;
      }
      ExecEnds(State(), index, end, execFlag);
    }

    /** `ret` is 0 when the request got a stamp, `vs` the stamp it gets. */
    method LeaderHandleSubmitReq(data: Data, stored: bool) returns (ret: int, vs: ViewStamp)
      requires stored && groupSize <= 1 ==> Ready(WithRequest(State(), data))
      modifies this
      ensures State() == Spec.LeaderHandleSubmitReq(old(State()), data, stored).node
      ensures sent == old(sent) + Spec.LeaderHandleSubmitReq(old(State()), data, stored).sent
      ensures ret == (if stored then 0 else 1) && vs == Inc(old(seen))
    {
      vs := Inc(seen);
      if !stored {
        return 1, vs;
      }
      db := db[Vstol(vs) := Record(data, Pow2(nodeId))];
      ret := 0;
      seen := Inc(seen);
      if groupSize > 1 {
        Send(EVERYBODY, AcceptReq(vs, toCommit, data));
      } else {
        TryToExecute();
      }
    }

    method SubmitRequest(data: Data, stored: bool)
      requires CanSubmit(State(), data, stored)
      modifies this
      ensures State() == Spec.SubmitRequest(old(State()), data, stored).node
      ensures sent == old(sent) + Spec.SubmitRequest(old(State()), data, stored).sent
    {
      if role.Leader? {
        var _, _ := LeaderHandleSubmitReq(data, stored);
      } else {
        Send(curView.leaderId, ForwardReq(data));
      }
    }

    method TakeMarks(vs: ViewStamp, canBeExed: ViewStamp)
      modifies this`seen, this`toCommit
      ensures State() == WithMarks(old(State()), vs, canBeExed)
    {
      if ViewStampComp(vs, seen) > 0 {
        seen := vs;
      }
      if ViewStampComp(canBeExed, toCommit) > 0 {
        toCommit := canBeExed;
      }
    }

    method HandleAcceptReq(from: nat, vs: ViewStamp, canBeExed: ViewStamp, data: Data, stored: bool, garbage: nat)
      requires Ready(WithAccepted(State(), from, vs, canBeExed, data, stored, garbage))
      modifies this
      ensures State() == Spec.HandleAcceptReq(old(State()), from, vs, canBeExed, data, stored, garbage).node
      ensures sent == old(sent) + Spec.HandleAcceptReq(old(State()), from, vs, canBeExed, data, stored, garbage).sent
    {
      if vs.viewId < curView.viewId {
        TryToExecute();
        return;
      }
      if vs.viewId == curView.viewId && from != curView.leaderId {
        TryToExecute();
        return;
      }
      if ViewStampComp(vs, committed) > 0 {
        TakeMarks(vs, canBeExed);
        if stored {
          db := db[Vstol(vs) := Record(data, garbage)];
          Send(from, AcceptAck(vs));
        }
      }
      TryToExecute();
    }

    method HandleAcceptAck(from: nat, vs: ViewStamp, stored: bool)
      requires Ready(WithAck(State(), from, vs, stored))
      modifies this
      ensures State() == Spec.HandleAcceptAck(old(State()), from, vs, stored).node
      ensures sent == old(sent) + Spec.HandleAcceptAck(old(State()), from, vs, stored).sent
    {
      if role.Leader? && ViewStampComp(vs, committed) > 0 {
        var key := Vstol(vs);
        if key in db {
          var bitMap := UpdateRecord(db[key].bitMap, from);
          if stored {
            db := db[key := db[key].(bitMap := bitMap)];
          }
        }
      }
      TryToExecute();
    }

    method HandleMissingReq(from: nat, vs: ViewStamp)
      modifies this
      ensures State() == Spec.HandleMissingReq(old(State()), from, vs).node
      ensures sent == old(sent) + Spec.HandleMissingReq(old(State()), from, vs).sent
    {
      var key := Vstol(vs);
      if key in db {
        Send(from, MissingAck(vs, db[key].data));
      }
    }

    method HandleMissingAck(vs: ViewStamp, data: Data, stored: bool, garbage: nat)
      requires IgnoresMissingAck(State(), vs) || Ready(WithAnswer(State(), vs, data, stored, garbage))
      modifies this
      ensures State() == Spec.HandleMissingAck(old(State()), vs, data, stored, garbage).node
      ensures sent == old(sent) + Spec.HandleMissingAck(old(State()), vs, data, stored, garbage).sent
    {
      if ViewStampComp(committed, vs) >= 0 {
        return;
      }
      var key := Vstol(vs);
      if key in db {
        return;
      }
      if stored {
        db := db[key := Record(data, garbage)];
      }
      TryToExecute();
    }

    method HandleForceExec(from: nat, vs: ViewStamp)
      requires IgnoresForceExec(State(), from, vs) || Ready(State().(toCommit := vs))
      modifies this
      ensures State() == Spec.HandleForceExec(old(State()), from, vs).node
      ensures sent == old(sent) + Spec.HandleForceExec(old(State()), from, vs).sent
    {
      if from != curView.leaderId {
        return;
      }
      if ViewStampComp(toCommit, vs) < 0 {
        toCommit := vs;
        TryToExecute();
      }
    }

    method HandleForwardReq(data: Data, stored: bool)
      requires CanSubmit(State(), data, stored)
      modifies this
      ensures State() == Spec.HandleForwardReq(old(State()), data, stored).node
      ensures sent == old(sent) + Spec.HandleForwardReq(old(State()), data, stored).sent
    {
      if role.Leader? {
        var _, _ := LeaderHandleSubmitReq(data, stored);
      }
    }

    /** consensus_handle_msg */
    method HandleMsg(p: Packet, stored: bool, garbage: nat)
      requires CanHandle(State(), p, stored, garbage)
      modifies this
      ensures State() == Spec.HandleMsg(old(State()), p, stored, garbage).node
      ensures sent == old(sent) + Spec.HandleMsg(old(State()), p, stored, garbage).sent
    {
      match p.msg {
        case AcceptReq(vs, canBeExed, data) => HandleAcceptReq(p.from, vs, canBeExed, data, stored, garbage);
        case AcceptAck(vs) => HandleAcceptAck(p.from, vs, stored);
        case MissingReq(vs) => HandleMissingReq(p.from, vs);
        case MissingAck(vs, data) => HandleMissingAck(vs, data, stored, garbage);
        case ForceExec(vs) => HandleForceExec(p.from, vs);
        case ForwardReq(data) => HandleForwardReq(data, stored);
      }
    }

    /** consensus_make_progress */
    method MakeProgress()
      requires CanResend(State())
      modifies this
      ensures State() == Spec.MakeProgress(old(State())).node
      ensures sent == old(sent) + Spec.MakeProgress(old(State())).sent
    {
      hide Spec.LeaderTryToExecute, ResendLoop, Ltovs;
      if role.Secondary? {
        return;
      }
      LeaderTryToExecute();
      if ViewStampComp(committed, seen) < 0 && seen.viewId == curView.viewId {
        ResendRecords(Vstol(ResendStart(State())), Vstol(seen));
      }
      Send(EVERYBODY, ForceExec(committed));
    }

    /** The loop of consensus_make_progress over the records start..end. */
    method ResendRecords(start: nat, end: nat)
      requires end < WORD
      requires forall key :: start <= key <= end ==> key in db
      modifies this`sent
      ensures sent == old(sent) + ResendLoop(old(State()), start, end)
    {
      hide ReachedQuorum, Ltovs, ResendLoop;
      ghost var n := State();
      ghost var goal, again: seq<Packet> := ResendLoop(n, start, end), [];
      var index := start;
      while index <= end
        invariant start <= index && State() == n
        invariant sent == old(sent) + again
        invariant goal == again + ResendLoop(n, index, end)
        decreases end + 1 - index
      {
        ResendStep(again, n, index, end);
        if !ReachedQuorum(db[index].bitMap, groupSize) {
          again := again + [Broadcast(n, AcceptReq(Ltovs(index), toCommit, db[index].data))];
          Send(EVERYBODY, AcceptReq(Ltovs(index), toCommit, db[index].data));
        }
        index := index + 1;
      }
      ResendEnds(n, index, end);
    }
  }
}
