/**
 The consensus component of one node as functions on values: what every
 handler of src/consensus/consensus.c does to the node, and what it hands to
 the two callbacks (uc sends a message, ucb delivers a request).
 */
module ConsensusNode {
  import opened Basics
  import opened ViewStamps
  import opened Bitmap

  type Data = seq<Byte>

  datatype Role = Leader | Secondary

  datatype View = View(viewId: uint32, leaderId: int)

  /** request_record, without its time stamp and its unused is_closed flag. */
  datatype Record = Record(data: Data, bitMap: nat)

  /** One call of the user callback. */
  datatype Delivery = Delivery(key: nat, data: Data)

  datatype Msg =
    | AcceptReq(vs: ViewStamp, canBeExed: ViewStamp, data: Data)
    | AcceptAck(vs: ViewStamp)
    | MissingReq(vs: ViewStamp)
    | MissingAck(vs: ViewStamp, data: Data)
    | ForceExec(vs: ViewStamp)
    | ForwardReq(data: Data)

  const EVERYBODY: int := -1

  /** One call of the sending callback; `to == EVERYBODY` reaches every node but the sender. */
  datatype Packet = Packet(from: nat, to: int, msg: Msg)

  datatype Node = Node(
    nodeId: nat,
    groupSize: nat,
    role: Role,
    curView: View,
    seen: ViewStamp,
    toCommit: ViewStamp,
    committed: ViewStamp,
    db: map<nat, Record>,
    delivered: seq<Delivery>,
    boundaries: map<nat, ViewStamp>)   // what a record reads as when it is taken for a view_boundary

  /** A node after a handler ran, and what the handler sent, in order. */
  datatype Outcome = Outcome(node: Node, sent: seq<Packet>)

  predicate OneView(n: Node) {
    n.seen.viewId == n.toCommit.viewId == n.committed.viewId
  }

  function Broadcast(n: Node, msg: Msg): Packet {
    Packet(n.nodeId, EVERYBODY, msg)
  }

  /** deliver_msg_data followed by view_stamp_inc of the committed mark. */
  function DeliverNext(n: Node, key: nat): Node
    requires key in n.db
  {
    n.(delivered := n.delivered + [Delivery(key, n.db[key].data)], committed := Inc(n.committed))
  }

  // ---------- executing ----------

  /** No record is absent before the first one without its quorum: the source's assertion
      "The Record Should Be Inserted By The Node Itself!". */
  predicate Loaded(db: map<nat, Record>, groupSize: nat, index: nat, end: nat)
    decreases end + 1 - index
  {
    index > end || (index in db && (ReachedQuorum(db[index].bitMap, groupSize) ==> Loaded(db, groupSize, index + 1, end)))
  }

  /** The loop of leader_try_to_execute over record numbers index..end. */
  function LeaderLoop(n: Node, index: nat, end: nat, execFlag: bool): (r: Node)
    requires Loaded(n.db, n.groupSize, index, end)
    ensures r == n.(toCommit := r.toCommit, committed := r.committed, delivered := r.delivered)
    ensures r.toCommit.viewId == n.toCommit.viewId && r.committed.viewId == n.committed.viewId
    decreases end + 1 - index
  {
    if index > end then n
    else if ReachedQuorum(n.db[index].bitMap, n.groupSize) then
      var n1 := n.(toCommit := Inc(n.toCommit));
      LeaderLoop(if execFlag then DeliverNext(n1, index) else n1, index + 1, end, execFlag)
    else n
  }

  /** view_id + 1; the view number wraps at 32 bits. */
  function NextView(viewId: uint32): uint32 {
    (viewId + 1) % TWO_32
  }

  /** The leader's step over a view boundary: both marks start again in the next view. */
  function CrossBoundary(n: Node): Node {
    if n.seen.viewId == n.toCommit.viewId then n
    else
      var start := ViewStamp(NextView(n.toCommit.viewId), 0);
      n.(toCommit := start, committed := start)
  }

  /** Where the leader's loop starts: at the boundary itself after crossing one. */
  function LeaderStart(n: Node): nat {
    if n.seen.viewId == n.toCommit.viewId then Vstol(n.toCommit) + 1 else Vstol(CrossBoundary(n).toCommit)
  }

  /** The two assertions of leader_try_to_execute. */
  predicate LeaderReady(n: Node) {
    && (n.seen.viewId == n.toCommit.viewId || n.seen.viewId == NextView(n.toCommit.viewId))
    && Loaded(n.db, n.groupSize, LeaderStart(n), Vstol(n.seen))
  }

  function LeaderTryToExecute(n: Node): (r: Node)
    requires LeaderReady(n)
    ensures OneView(n) ==> OneView(r)
    ensures r == n.(toCommit := r.toCommit, committed := r.committed, delivered := r.delivered)
  {
    var n0 := CrossBoundary(n);
    LeaderLoop(n0, LeaderStart(n), Vstol(n.seen), ViewStampComp(n0.committed, n0.toCommit) == 0)
  }

  /** The loop of try_to_execute: ask for every absent record, deliver up to the first one. */
  function ExecLoop(n: Node, index: nat, end: nat, execFlag: bool): (r: Outcome)
    requires end < WORD
    ensures r.node == n.(committed := r.node.committed, delivered := r.node.delivered)
    ensures r.node.committed.viewId == n.committed.viewId
    decreases end + 1 - index
  {
    if index > end then Outcome(n, [])
    else if index !in n.db then
      var rest := ExecLoop(n, index + 1, end, false);
      Outcome(rest.node, [Broadcast(n, MissingReq(Ltovs(index)))] + rest.sent)
    else
      ExecLoop(if execFlag then DeliverNext(n, index) else n, index + 1, end, execFlag)
  }

  /** What try_to_execute asserts, and only when it gets that far. */
  predicate Ready(n: Node) {
    n.curView.viewId != 0 && n.role.Leader? ==> LeaderReady(n)
  }

  /** cross_view */
  function CrossView(vs: ViewStamp): ViewStamp {
    ViewStamp(NextView(vs.viewId), 0)
  }

  /** The view_boundary read from a record. */
  function BoundaryAt(n: Node, key: nat): ViewStamp {
    if key in n.boundaries then n.boundaries[key] else ViewStamp(0, 0)
  }

  /** try_to_execute with its marks in two views: up to the boundary of the committed view, if that is known. */
  function ExecToBoundary(n: Node): Outcome {
    var bound := CrossView(n.committed);
    if Vstol(bound) !in n.db then Outcome(n, [Broadcast(n, MissingReq(bound))])
    else
      var last := BoundaryAt(n, Vstol(bound));
      var out := ExecLoop(n, Vstol(n.committed) + 1, Vstol(last), true);
      if out.node.committed == last then out.(node := out.node.(committed := CrossView(last))) else out
  }

  function TryToExecute(n: Node): (r: Outcome)
    requires Ready(n)
    ensures OneView(n) ==> OneView(r.node)
    ensures r.node == n.(toCommit := r.node.toCommit, committed := r.node.committed, delivered := r.node.delivered)
  {
    if n.curView.viewId == 0 then Outcome(n, [])
    else
      var n1 := if n.role.Leader? then LeaderTryToExecute(n) else n;
      if n1.committed.viewId == n1.toCommit.viewId then ExecLoop(n1, Vstol(n1.committed) + 1, Vstol(n1.toCommit), true)
      else ExecToBoundary(n1)
  }

  // ---------- the leader's side ----------

  /** The leader's node once its next request is stored. */
  function WithRequest(n: Node, data: Data): Node {
    n.(db := n.db[Vstol(Inc(n.seen)) := Record(data, Pow2(n.nodeId))], seen := Inc(n.seen))
  }

  /** leader_handle_submit_req; `stored` says whether store_record succeeded.
      On failure no stamp is consumed. */
  function LeaderHandleSubmitReq(n: Node, data: Data, stored: bool): Outcome
    requires stored && n.groupSize <= 1 ==> Ready(WithRequest(n, data))
  {
    var n1 := WithRequest(n, data);
    if !stored then Outcome(n, [])
    else if n.groupSize > 1 then Outcome(n1, [Broadcast(n, AcceptReq(n1.seen, n1.toCommit, data))])
    else TryToExecute(n1)
  }

  predicate CanSubmit(n: Node, data: Data, stored: bool) {
    n.role.Leader? && stored && n.groupSize <= 1 ==> Ready(WithRequest(n, data))
  }

  /** consensus_submit_request */
  function SubmitRequest(n: Node, data: Data, stored: bool): Outcome
    requires CanSubmit(n, data, stored)
  {
    if n.role.Leader? then LeaderHandleSubmitReq(n, data, stored)
    else Outcome(n, [Packet(n.nodeId, n.curView.leaderId, ForwardReq(data))])
  }

  /** The node handle_accept_ack executes with. */
  function WithAck(n: Node, from: nat, vs: ViewStamp, stored: bool): Node {
    var key := Vstol(vs);
    if n.role.Secondary? then n
    else if ViewStampComp(vs, n.committed) <= 0 then n
    else if key !in n.db then n
    else if !stored then n
    else n.(db := n.db[key := n.db[key].(bitMap := UpdateRecord(n.db[key].bitMap, from))])
  }

  function HandleAcceptAck(n: Node, from: nat, vs: ViewStamp, stored: bool): Outcome
    requires Ready(WithAck(n, from, vs, stored))
  {
    TryToExecute(WithAck(n, from, vs, stored))
  }

  function HandleForwardReq(n: Node, data: Data, stored: bool): Outcome
    requires CanSubmit(n, data, stored)
  {
    if n.role.Secondary? then Outcome(n, []) else LeaderHandleSubmitReq(n, data, stored)
  }

  /** The loop of consensus_make_progress: send again what has no quorum yet. */
  function ResendLoop(n: Node, index: nat, end: nat): seq<Packet>
    requires end < WORD
    requires forall key :: index <= key <= end ==> key in n.db
    decreases end + 1 - index
  {
    if index > end then []
    else
      (if ReachedQuorum(n.db[index].bitMap, n.groupSize) then []
       else [Broadcast(n, AcceptReq(Ltovs(index), n.toCommit, n.db[index].data))])
      + ResendLoop(n, index + 1, end)
  }

  /** Where consensus_make_progress starts resending. */
  function ResendStart(n: Node): ViewStamp {
    var zero := ViewStamp(n.curView.viewId, 0);
    Inc(if ViewStampComp(zero, n.committed) < 0 then n.committed else zero)
  }

  predicate Resends(n: Node) {
    ViewStampComp(n.committed, n.seen) < 0 && n.seen.viewId == n.curView.viewId
  }

  /** What consensus_make_progress reads without looking: the records it sends again. */
  predicate CanResend(n: Node) {
    n.role.Leader? ==>
      && LeaderReady(n)
      && var n1 := LeaderTryToExecute(n);
      (Resends(n1) ==> forall key :: Vstol(ResendStart(n1)) <= key <= Vstol(n1.seen) ==> key in n1.db)
  }

  /** consensus_make_progress */
  function MakeProgress(n: Node): Outcome
    requires CanResend(n)
  {
    if n.role.Secondary? then Outcome(n, [])
    else
      var n1 := LeaderTryToExecute(n);
      var again := if Resends(n1) then ResendLoop(n1, Vstol(ResendStart(n1)), Vstol(n1.seen)) else [];
      Outcome(n1, again + [Broadcast(n1, ForceExec(n1.committed))])
  }

  // ---------- the follower's side ----------

  /** The marks a follower takes from an ACCEPT_REQ. */
  function WithMarks(n: Node, vs: ViewStamp, canBeExed: ViewStamp): Node {
    var n1 := if ViewStampComp(vs, n.seen) > 0 then n.(seen := vs) else n;
    if ViewStampComp(canBeExed, n1.toCommit) > 0 then n1.(toCommit := canBeExed) else n1
  }

  /** Which ACCEPT_REQs a node does not look at. */
  predicate IgnoresAcceptReq(n: Node, from: nat, vs: ViewStamp) {
    || vs.viewId < n.curView.viewId
    || (vs.viewId == n.curView.viewId && from != n.curView.leaderId)
    || ViewStampComp(vs, n.committed) <= 0
  }

  /** The node handle_accept_req executes with; `garbage` is the bitmap the source leaves uninitialised. */
  function WithAccepted(
    n: Node, from: nat, vs: ViewStamp, canBeExed: ViewStamp, data: Data, stored: bool, garbage: nat): Node
  {
    if IgnoresAcceptReq(n, from, vs) then n
    else
      var n2 := WithMarks(n, vs, canBeExed);
      if stored then n2.(db := n2.db[Vstol(vs) := Record(data, garbage)]) else n2
  }

  /** handle_accept_req */
  function HandleAcceptReq(
    n: Node, from: nat, vs: ViewStamp, canBeExed: ViewStamp, data: Data, stored: bool, garbage: nat): Outcome
    requires Ready(WithAccepted(n, from, vs, canBeExed, data, stored, garbage))
  {
    var out := TryToExecute(WithAccepted(n, from, vs, canBeExed, data, stored, garbage));
    if stored && !IgnoresAcceptReq(n, from, vs) then Outcome(out.node, [Packet(n.nodeId, from, AcceptAck(vs))] + out.sent)
    else out
  }

  /** handle_missing_req */
  function HandleMissingReq(n: Node, from: nat, vs: ViewStamp): Outcome {
    var key := Vstol(vs);
    Outcome(n, if key in n.db then [Packet(n.nodeId, from, MissingAck(vs, n.db[key].data))] else [])
  }

  predicate IgnoresMissingAck(n: Node, vs: ViewStamp) {
    ViewStampComp(n.committed, vs) >= 0 || Vstol(vs) in n.db
  }

  /** The node handle_missing_ack executes with. */
  function WithAnswer(n: Node, vs: ViewStamp, data: Data, stored: bool, garbage: nat): Node {
    if stored then n.(db := n.db[Vstol(vs) := Record(data, garbage)]) else n
  }

  function HandleMissingAck(n: Node, vs: ViewStamp, data: Data, stored: bool, garbage: nat): Outcome
    requires IgnoresMissingAck(n, vs) || Ready(WithAnswer(n, vs, data, stored, garbage))
  {
    if IgnoresMissingAck(n, vs) then Outcome(n, []) else TryToExecute(WithAnswer(n, vs, data, stored, garbage))
  }

  predicate IgnoresForceExec(n: Node, from: nat, vs: ViewStamp) {
    from != n.curView.leaderId || ViewStampComp(n.toCommit, vs) >= 0
  }

  function HandleForceExec(n: Node, from: nat, vs: ViewStamp): Outcome
    requires IgnoresForceExec(n, from, vs) || Ready(n.(toCommit := vs))
  {
    if IgnoresForceExec(n, from, vs) then Outcome(n, []) else TryToExecute(n.(toCommit := vs))
  }

  /** consensus_update_role, when a node without a view learns the current one. */
  function JoinView(n: Node, view: View): Node {
    var start := ViewStamp(view.viewId, 0);
    n.(curView := view,
       role := if view.leaderId == n.nodeId then Leader else Secondary,
       seen := start, toCommit := start, committed := start)
  }

  // ---------- one handler call ----------

  /** No assertion of the source stops the handler of this packet. */
  predicate CanHandle(n: Node, p: Packet, stored: bool, garbage: nat) {
    match p.msg
    case AcceptReq(vs, canBeExed, data) => Ready(WithAccepted(n, p.from, vs, canBeExed, data, stored, garbage))
    case AcceptAck(vs) => Ready(WithAck(n, p.from, vs, stored))
    case MissingReq(_) => true
    case MissingAck(vs, data) => IgnoresMissingAck(n, vs) || Ready(WithAnswer(n, vs, data, stored, garbage))
    case ForceExec(vs) => IgnoresForceExec(n, p.from, vs) || Ready(n.(toCommit := vs))
    case ForwardReq(data) => CanSubmit(n, data, stored)
  }

  /** consensus_handle_msg */
  function HandleMsg(n: Node, p: Packet, stored: bool, garbage: nat): Outcome
    requires CanHandle(n, p, stored, garbage)
  {
    match p.msg
    case AcceptReq(vs, canBeExed, data) => HandleAcceptReq(n, p.from, vs, canBeExed, data, stored, garbage)
    case AcceptAck(vs) => HandleAcceptAck(n, p.from, vs, stored)
    case MissingReq(vs) => HandleMissingReq(n, p.from, vs)
    case MissingAck(vs, data) => HandleMissingAck(n, vs, data, stored, garbage)
    case ForceExec(vs) => HandleForceExec(n, p.from, vs)
    case ForwardReq(data) => HandleForwardReq(n, data, stored)
  }
}
