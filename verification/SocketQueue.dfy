/**
 The bounded queue of accepted sockets in
 client-ld-preload/Mongoose_Aget/mongoose/mongoose.c: one master thread produces,
 worker threads consume, each under the context's mutex. A thread that has to
 wait gives the mutex up, so a critical section starts where its wait ends.
 */
module SocketQueue {
  import opened Basics

  const SIZE: int := 20   // ARRAY_SIZE(ctx->queue)

  /** Where socket number n of the count is kept. */
  function Slot(n: int): (r: int)
    ensures 0 <= r < SIZE
  {
    n % SIZE
  }

  lemma SlotRound(n: int)
    ensures Slot(n) == Slot(n + SIZE)
  {
  }

  /** Less than a round behind `free`, another slot is meant. */
  lemma SlotsApart(from: int, free: int)
    requires free - from < SIZE
    ensures forall n {:trigger Slot(n)} :: from <= n < free ==> Slot(n) != Slot(free)
  {
  }

  // ---------- many critical sections ----------

  /** What has gone through the queue so far. */
  datatype Log<Socket> = Log(produced: seq<Socket>, consumed: seq<Socket>, stopping: bool)

  datatype Section<Socket> = Produce(sp: Socket) | Consume | StopAll

  /** A thread that waits does not enter its section. */
  predicate MayEnter<Socket>(l: Log<Socket>, s: Section<Socket>) {
    match s
    case Produce(_) => l.stopping || |l.produced| - |l.consumed| < SIZE
    case Consume => l.stopping || |l.produced| != |l.consumed|
    case StopAll => true
  }

  /** What the sections of produce_socket and consume_socket and the stop flag do to it. */
  function After<Socket>(l: Log<Socket>, s: Section<Socket>): Log<Socket> {
    match s
    case Produce(sp) => if |l.produced| - |l.consumed| < SIZE then l.(produced := l.produced + [sp]) else l
    case Consume => if |l.consumed| < |l.produced| then l.(consumed := l.consumed + [l.produced[|l.consumed|]]) else l
    case StopAll => l.(stopping := true)
  }

  predicate Run<Socket(==)>(logs: seq<Log<Socket>>, sections: seq<Section<Socket>>) {
    && |logs| == |sections| + 1 && logs[0] == Log([], [], false)
    && forall t :: 0 <= t < |sections| ==> MayEnter(logs[t], sections[t]) && logs[t + 1] == After(logs[t], sections[t])
  }

  /** The sockets handed to produce_socket so far. */
  function Offered<Socket>(sections: seq<Section<Socket>>): seq<Socket> {
    if sections == [] then []
    else
      var last := sections[|sections| - 1];
      Offered(sections[..|sections| - 1]) + if last.Produce? then [last.sp] else []
  }

  /** Over any interleaving of one master and any number of workers: sockets come out in the order they went in, each
      once, at most twenty wait, and until the server stops none that was offered is lost. */
  lemma {:induction false} FirstInFirstOut<Socket>(logs: seq<Log<Socket>>, sections: seq<Section<Socket>>, t: nat)
    requires Run(logs, sections) && t < |logs|
    ensures var l := logs[t];
      && l.consumed <= l.produced && |l.produced| - |l.consumed| <= SIZE
      && (!l.stopping ==> l.produced == Offered(sections[..t]))
  {
    if t > 0 {
      FirstInFirstOut(logs, sections, t - 1);
      assert logs[t] == After(logs[t - 1], sections[t - 1]) && MayEnter(logs[t - 1], sections[t - 1]);
      assert sections[..t][..t - 1] == sections[..t - 1];
    }
  }

  /** At any time: before the server stops a worker waits exactly while no socket does, and the master exactly while twenty
      do, so that one of them can always go on; afterwards nobody waits. */
  lemma WhoMayEnter<Socket>(logs: seq<Log<Socket>>, sections: seq<Section<Socket>>, t: nat, sp: Socket)
    requires Run(logs, sections) && t < |logs|
    ensures var l, waiting := logs[t], |logs[t].produced| - |logs[t].consumed|;
      && (MayEnter(l, Consume) <==> l.stopping || waiting > 0)
      && (MayEnter(l, Produce(sp)) <==> l.stopping || waiting < 20)
      && (MayEnter(l, Consume) || MayEnter(l, Produce(sp)))
  {
    FirstInFirstOut(logs, sections, t);
  }

  // ---------- the queue itself ----------

  class Context<Socket(0)> {
    const queue: array<Socket>
    var sqHead: int
    var sqTail: int
    var stopFlag: bool
    ghost var produced: seq<Socket>   // everything put into the queue so far
    ghost var consumed: seq<Socket>   // everything taken out so far

    /** Between critical sections; the waiting sockets are the last of those produced. */
    ghost predicate Valid()
      reads this, queue
    {
      && queue.Length == SIZE
      && 0 <= sqTail <= SIZE && 0 <= sqHead - sqTail <= SIZE
      && |produced| == |consumed| + (sqHead - sqTail)
      && produced[..|consumed|] == consumed
      && forall n {:trigger Slot(n)} :: sqTail <= n < sqHead ==> queue[Slot(n)] == produced[|consumed| + n - sqTail]
    }

    ghost function State(): Log<Socket>
      reads this
    {
      Log(produced, consumed, stopFlag)
    }

    constructor (empty: Socket)
      ensures Valid() && produced == [] && consumed == [] && !stopFlag && fresh(queue)
    {
      queue := new Socket[SIZE](_ => empty);
      sqHead, sqTail, stopFlag := 0, 0, false;
      produced, consumed := [], [];
    }

    method Stop()
      requires Valid()
      modifies this`stopFlag
      ensures Valid() && State() == After(old(State()), StopAll)
    {
      stopFlag := true;
    }

    /** What consume_socket waits for. */
    predicate MayConsume()
      reads this
    {
      sqHead != sqTail || stopFlag
    }

    /** What produce_socket waits for. */
    predicate MayProduce()
      reads this
    {
      stopFlag || sqHead - sqTail < SIZE
    }

    /** The critical section of consume_socket: the socket waiting longest is taken. */
    method ConsumeSocket() returns (sp: Option<Socket>, goOn: bool)
      requires Valid() && MayConsume()
      modifies this`sqHead, this`sqTail, this`consumed
      ensures Valid() && goOn == !stopFlag && MayEnter(old(State()), Consume) && State() == After(old(State()), Consume)
      ensures if |old(consumed)| == |produced| then sp == None && consumed == old(consumed) && !goOn
              else sp == Some(produced[|old(consumed)|]) && consumed == old(consumed) + [sp.value]
    {
      hide Slot;
      sp := None;
      if sqHead > sqTail {
        sp := Some(queue[Slot(sqTail)]);
        sqTail := sqTail + 1;
        consumed := consumed + [sp.value];
        ghost var taken := consumed;
        assert produced[..|consumed|] == consumed;
        while sqTail > SIZE
          invariant consumed == taken
          invariant 0 <= sqTail <= SIZE + 1 && sqHead - sqTail == old(sqHead - sqTail) - 1 >= 0
          invariant forall n {:trigger Slot(n)} :: sqTail <= n < sqHead ==> queue[Slot(n)] == produced[|consumed| + n - sqTail]
          decreases sqTail
        {
          forall n {:trigger Slot(n)} | sqTail - SIZE <= n < sqHead - SIZE
            ensures queue[Slot(n)] == produced[|consumed| + n - (sqTail - SIZE)]
          {
            SlotRound(n);
          }
          sqTail := sqTail - SIZE;
          sqHead := sqHead - SIZE;
        }
      }
      goOn := !stopFlag;
    }

    /** The critical section of produce_socket: when the server is stopping and the queue is full, the socket is dropped. */
    method ProduceSocket(sp: Socket) returns (ghost queued: bool)
      requires Valid() && MayProduce()
      modifies this`sqHead, this`produced, queue
      ensures Valid() && (queued <==> |old(produced)| - |consumed| < SIZE)
      ensures MayEnter(old(State()), Produce(sp)) && State() == After(old(State()), Produce(sp))
      ensures produced == if queued then old(produced) + [sp] else old(produced)
      ensures !queued ==> stopFlag
    {
      hide Slot;
      queued := sqHead - sqTail < SIZE;
      if sqHead - sqTail < SIZE {
        SlotsApart(sqTail, sqHead);
        queue[Slot(sqHead)] := sp;
        produced := produced + [sp];
        sqHead := sqHead + 1;
      }
    }
  }
}