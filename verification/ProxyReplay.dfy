/**
 The proxy's replay of delivered records (src/proxy/proxy.c: cross_view,
 real_do_action, update_state): the consensus component announces record
 numbers, the proxy walks the database from where it stopped up to the highest
 number announced, and steps into the next view whenever a record is missing.
 */
module ProxyReplay {
  import opened Basics
  import opened ViewStamps

  type Data = seq<bv8>

  /** A record handed to do_action_to_server. */
  datatype Exec = Exec(key: uint64, data: Data)

  type Db = map<uint64, Data>

  /** cross_view: the first request of the next view; the view number wraps. */
  function CrossView(cur: uint64): uint64 {
    ((cur / TWO_32 + 1) * TWO_32) % WORD + 1
  }

  /** The next record number to look at. */
  function Advance(db: Db, cur: uint64): uint64 {
    if cur in db then (cur + 1) % WORD else CrossView(cur)
  }

  datatype Walk = Walk(executed: seq<Exec>, cur: uint64)

  /** Every turn of the loop from cur on raises cur_rec until it is past `highest`. */
  predicate Forward(db: Db, cur: uint64, highest: uint64)
    decreases WORD - cur
  {
    cur > highest || (cur < Advance(db, cur) && Forward(db, Advance(db, cur), highest))
  }

  /** What real_do_action does from cur with `highest` as the highest record announced: up to its end, or
      until cur_rec wraps. */
  function Replay(db: Db, cur: uint64, highest: uint64): (r: Walk)
    decreases WORD - cur
  {
    if cur > highest then Walk([], cur)
    else
      var next, here := Advance(db, cur), if cur in db then [Exec(cur, db[cur])] else [];
      if next <= cur then Walk(here, next)
      else
        var rest := Replay(db, next, highest);
        Walk(here + rest.executed, rest.cur)
  }

  /** Executed in increasing order, each once, all stored, from `from` up to `highest`. */
  predicate InOrder(db: Db, from: nat, highest: nat, es: seq<Exec>) {
    && (forall j :: 0 <= j < |es| ==> from <= es[j].key <= highest && es[j].key in db && es[j].data == db[es[j].key])
    && (forall i, j :: 0 <= i < j < |es| ==> es[i].key < es[j].key)
  }

  lemma InOrderFirst(db: Db, cur: uint64, next: nat, highest: nat, later: seq<Exec>)
    requires InOrder(db, next, highest, later) && cur < next && cur <= highest && cur in db
    ensures InOrder(db, cur, highest, [Exec(cur, db[cur])] + later)
  {
  }

  /** Whatever the database holds, records are executed in increasing order, each once, all present and all announced. */
  lemma {:induction false} ReplayIsOrdered(db: Db, cur: uint64, highest: uint64)
    ensures var w := Replay(db, cur, highest);
      InOrder(db, cur, highest, w.executed) && (Forward(db, cur, highest) ==> w.cur > highest)
    decreases WORD - cur
  {
    hide Advance;
    if cur <= highest && cur < Advance(db, cur) {
      hide InOrder;
      var next := Advance(db, cur);
      var later := Replay(db, next, highest).executed;
      ReplayIsOrdered(db, next, highest);
      if cur in db {
        InOrderFirst(db, cur, next, highest, later);
      }
    }
  }

  // ---------- when the loop ends ----------

  /** cur_rec after k turns. */
  function Turns(db: Db, cur: uint64, k: nat): uint64 {
    if k == 0 then cur else Advance(db, Turns(db, cur, k - 1))
  }

  /** The loop ends: after some number of turns cur_rec is past `highest`. */
  ghost predicate Ends(db: Db, cur: uint64, highest: uint64) {
    exists k: nat :: Turns(db, cur, k) > highest
  }

  /** The first record number of the last view. */
  const LAST_VIEW: nat := WORD - TWO_32

  /** Where the walk from cur enters the last view. */
  function Entry(db: Db, cur: uint64): (r: uint64)
    ensures cur <= r && LAST_VIEW <= r
    decreases WORD - cur
  {
    if cur >= LAST_VIEW then cur
    else
      AdvanceBeforeLastView(db, cur);
      Entry(db, Advance(db, cur))
  }

  /** No record is missing from `from` to `highest`, and there is a record number behind `highest`. */
  predicate Held(db: Db, from: nat, highest: uint64) {
    highest + 1 < WORD && forall key :: from <= key <= highest ==> key in db
  }

  lemma AdvanceInLastView(db: Db, cur: uint64)
    requires cur >= LAST_VIEW
    ensures Advance(db, cur) == if cur !in db then 1 else if cur + 1 == WORD then 0 else cur + 1
  {
    if cur !in db {
      assert cur / TWO_32 + 1 == TWO_32;
      assert TWO_32 * TWO_32 == WORD;
    }
  }

  lemma AdvanceBeforeLastView(db: Db, cur: uint64)
    requires cur < LAST_VIEW
    ensures cur < Advance(db, cur)
    ensures Advance(db, cur) >= LAST_VIEW ==>
      Advance(db, cur) == if cur in db then LAST_VIEW else LAST_VIEW + 1
    ensures Advance(db, cur) == LAST_VIEW ==> cur == LAST_VIEW - 1 && cur in db
  {
    var v := cur / TWO_32;
    assert v + 1 < TWO_32;
    if cur !in db {
      assert Advance(db, cur) == (v + 1) * TWO_32 + 1;
    }
  }

  /** The last view is entered at its first request, unless the walk starts in it or comes over its
      predecessor's last request, 2^32 - 1. */
  lemma {:induction false} EntryMeaning(db: Db, cur: uint64)
    ensures cur >= LAST_VIEW ==> Entry(db, cur) == cur
    ensures cur < LAST_VIEW ==> Entry(db, cur) == LAST_VIEW + 1 || (LAST_VIEW - 1 in db && Entry(db, cur) == LAST_VIEW)
    decreases WORD - cur
  {
    if cur < LAST_VIEW {
      AdvanceBeforeLastView(db, cur);
      EntryMeaning(db, Advance(db, cur));
    }
  }

  /** The walk moves forward all the way exactly if nothing is missing in the last view from where it is entered. */
  lemma {:induction false} ForwardIsHeld(db: Db, cur: uint64, highest: uint64)
    ensures Forward(db, cur, highest) <==> Held(db, Entry(db, cur), highest)
    decreases WORD - cur
  {
    hide Advance;
    var next := Advance(db, cur);
    if cur <= highest {
      if cur >= LAST_VIEW {
        AdvanceInLastView(db, cur);
      } else {
        AdvanceBeforeLastView(db, cur);
      }
      if cur < next {
        ForwardIsHeld(db, next, highest);
      }
    }
  }

  lemma {:induction false} TurnsShift(db: Db, cur: uint64, k: nat)
    ensures Turns(db, Advance(db, cur), k) == Turns(db, cur, k + 1)
  {
    if k > 0 {
      TurnsShift(db, cur, k - 1);
    }
  }

  /** One turn neither ends an endless loop nor makes an ending one endless. */
  lemma EndsNext(db: Db, cur: uint64, highest: uint64)
    requires cur <= highest
    ensures Ends(db, cur, highest) <==> Ends(db, Advance(db, cur), highest)
  {
    hide Advance;
    if Ends(db, cur, highest) {
      var k: nat :| Turns(db, cur, k) > highest;
      assert k > 0;
      TurnsShift(db, cur, k - 1);
    }
    if Ends(db, Advance(db, cur), highest) {
      var k: nat :| Turns(db, Advance(db, cur), k) > highest;
      TurnsShift(db, cur, k);
    }
  }

  lemma {:induction false} ForwardEnds(db: Db, cur: uint64, highest: uint64)
    requires Forward(db, cur, highest)
    ensures Ends(db, cur, highest)
    decreases WORD - cur
  {
    hide Advance;
    if cur > highest {
      assert Turns(db, cur, 0) > highest;
    } else {
      ForwardEnds(db, Advance(db, cur), highest);
      EndsNext(db, cur, highest);
    }
  }

  /** A turn that does not move on wraps: to the first request of view 0, or to record 0 from the very last. */
  lemma WrapsTo(db: Db, cur: uint64)
    requires Advance(db, cur) <= cur
    ensures cur >= LAST_VIEW
    ensures Advance(db, cur) == 1 || (cur == WORD - 1 && cur in db && Advance(db, cur) == 0)
  {
    hide Advance;
    if cur < LAST_VIEW {
      AdvanceBeforeLastView(db, cur);
    } else {
      AdvanceInLastView(db, cur);
    }
  }

  /** A walk that cannot go forward all the way, and could not from record 1 either, never ends. */
  lemma {:induction false} NeverForward(db: Db, cur: uint64, highest: uint64, k: nat)
    requires !Forward(db, cur, highest) && !Forward(db, 1, highest)
    ensures !Forward(db, Turns(db, cur, k), highest)
  {
    hide Advance, Forward;
    if k > 0 {
      NeverForward(db, cur, highest, k - 1);
      NotForwardNext(db, Turns(db, cur, k - 1), highest);
    }
  }

  lemma NotForwardNext(db: Db, cur: uint64, highest: uint64)
    requires !Forward(db, cur, highest) && !Forward(db, 1, highest)
    ensures !Forward(db, Advance(db, cur), highest)
  {
    hide Advance;
    if Advance(db, cur) <= cur {
      WrapsTo(db, cur);
      ForwardIsHeld(db, Advance(db, cur), highest);
    }
  }

  /** A walk that cannot go forward all the way comes to record 1. */
  lemma {:induction false} ComesAround(db: Db, cur: uint64, highest: uint64)
    requires !Forward(db, cur, highest) && Forward(db, 1, highest)
    ensures Ends(db, cur, highest)
    decreases WORD - cur
  {
    hide Advance;
    var next := Advance(db, cur);
    if next <= cur {
      WrapsTo(db, cur);
      ForwardIsHeld(db, 1, highest);
      ForwardEnds(db, 1, highest);
    } else {
      ComesAround(db, next, highest);
    }
    EndsNext(db, cur, highest);
  }

  /** From any place in any database: the loop goes forward all the way exactly if no record is missing in the
      last view, from where it enters it to the highest announced, and there is a number behind the
      highest; and it ends exactly if that is so of the walk from cur or of the walk from record 1. */
  lemma LoopEnds(db: Db, cur: uint64, highest: uint64)
    ensures Forward(db, cur, highest) <==> Held(db, Entry(db, cur), highest)
    ensures Ends(db, cur, highest) <==> Held(db, Entry(db, cur), highest) || Held(db, Entry(db, 1), highest)
    ensures Ends(db, cur, highest) <==> Forward(db, cur, highest) || Forward(db, 1, highest)
  {
    hide Forward, Turns;
    ForwardIsHeld(db, cur, highest);
    ForwardIsHeld(db, 1, highest);
    if Forward(db, cur, highest) {
      ForwardEnds(db, cur, highest);
    } else if Forward(db, 1, highest) {
      ComesAround(db, cur, highest);
    } else {
      forall k: nat ensures Turns(db, cur, k) <= highest {
        NeverForward(db, cur, highest, k);
        PastIsForward(db, Turns(db, cur, k), highest);
      }
    }
  }

  lemma PastIsForward(db: Db, cur: uint64, highest: uint64)
    ensures cur > highest ==> Forward(db, cur, highest)
  {
  }

  /** One record of the last view is announced and missing: the loop comes back to record 1 for ever. */
  lemma EndlessReplay()
    ensures !Ends(map[], 0, LAST_VIEW + 1)
  {
  }

  /** Everything a loop that ends does: after a wrap it walks once more, from record 1 (EndsInOrder). */
  function Whole(db: Db, cur: uint64, highest: uint64): Walk {
    var w := Replay(db, cur, highest);
    if w.cur > highest then w
    else
      var again := Replay(db, w.cur, highest);
      Walk(w.executed + again.executed, again.cur)
  }

  lemma {:induction false} ReplayUpToWrap(db: Db, cur: uint64, highest: uint64)
    ensures Forward(db, cur, highest) <==> Replay(db, cur, highest).cur > highest
    ensures highest + 1 < WORD && !Forward(db, cur, highest) ==> Replay(db, cur, highest).cur == 1
    decreases WORD - cur
  {
    hide Advance;
    if cur <= highest {
      if Advance(db, cur) <= cur {
        WrapsTo(db, cur);
      } else {
        ReplayUpToWrap(db, Advance(db, cur), highest);
      }
    }
  }

  /** A loop that ends executes in increasing order, each record once; or, if it wraps, twice in
      increasing order: up to the wrap, and from record 1 on. */
  lemma EndsInOrder(db: Db, cur: uint64, highest: uint64)
    requires Ends(db, cur, highest)
    ensures var w, first := Whole(db, cur, highest), Replay(db, cur, highest);
      && w.cur > highest && InOrder(db, cur, highest, first.executed)
      && if Forward(db, cur, highest) then w == first
         else var again := Replay(db, 1, highest);
           w == Walk(first.executed + again.executed, again.cur) && InOrder(db, 1, highest, again.executed)
  {
    hide Forward, Replay, InOrder, Ends;
    LoopEnds(db, cur, highest);
    ReplayUpToWrap(db, cur, highest);
    ReplayUpToWrap(db, 1, highest);
    ReplayIsOrdered(db, cur, highest);
    ReplayIsOrdered(db, 1, highest);
  }

  /** How often the walk still wraps. */
  function Laps(db: Db, cur: uint64, highest: uint64): nat {
    if Forward(db, cur, highest) then 0 else 1
  }

  /** One turn of a loop that ends, and what of it is left. */
  lemma WholeTurn(db: Db, cur: uint64, highest: uint64)
    requires Ends(db, cur, highest) && cur <= highest
    ensures var next, here := Advance(db, cur), if cur in db then [Exec(cur, db[cur])] else [];
      && Ends(db, next, highest)
      && Whole(db, cur, highest).executed == here + Whole(db, next, highest).executed
      && Whole(db, cur, highest).cur == Whole(db, next, highest).cur
      && (Laps(db, next, highest) < Laps(db, cur, highest) || (Laps(db, next, highest) == Laps(db, cur, highest) && cur < next))
  {
    hide Advance, Ends, InOrder;
    var next := Advance(db, cur);
    EndsNext(db, cur, highest);
    LoopEnds(db, cur, highest);
    EndsInOrder(db, next, highest);
    ReplayUpToWrap(db, cur, highest);
    ReplayUpToWrap(db, next, highest);
    if next <= cur {
      WrapsTo(db, cur);
    }
  }

  lemma WholeDone(db: Db, cur: uint64, highest: uint64)
    requires cur > highest
    ensures Whole(db, cur, highest) == Walk([], cur)
  {
  }

  // ---------- what the consensus component delivers ----------

  /** Delivered stamps: each view starts at request 1 and has no gap; views only go up. */
  predicate Follows(last: ViewStamp, next: ViewStamp) {
    && next.reqId + 1 < TWO_32
    && if next.viewId == last.viewId then next.reqId == last.reqId + 1
       else next.viewId > last.viewId && next.reqId == 1
  }

  /** Where the walk stands before anything was delivered. */
  const START := ViewStamp(0, 0)

  function Before(d: seq<ViewStamp>, n: nat): ViewStamp
    requires n <= |d|
  {
    if n == 0 then START else d[n - 1]
  }

  predicate Contiguous(d: seq<ViewStamp>) {
    (d != [] ==> d[0].viewId > 0) && forall n :: 0 <= n < |d| ==> Follows(Before(d, n), d[n])
  }

  /** The record number from which delivery n is looked for. */
  function Base(d: seq<ViewStamp>, n: nat): nat
    requires n <= |d|
  {
    if n == 0 then 0 else Vstol(d[n - 1]) + 1
  }

  /** The walk has executed n deliveries and looks for the next: right behind the last, or at the start of a later view. */
  predicate OnPath(d: seq<ViewStamp>, n: nat, cur: uint64) {
    && n <= |d|
    && (|| cur == Base(d, n)
        || (n < |d| && d[n].reqId == 1 && cur % TWO_32 == 1 && cur / TWO_32 > Before(d, n).viewId && cur <= Vstol(d[n]))
        || (d == [] && cur == TWO_32 + 1))
  }

  /** From a place on the path the walk hits the next delivery or steps over a view towards it. */
  lemma PathTurn(d: seq<ViewStamp>, n: nat, cur: uint64)
    requires Contiguous(d) && OnPath(d, n, cur) && n < |d|
    ensures cur <= Vstol(d[n])
    ensures cur == Vstol(d[n]) ==> cur + 1 < WORD && OnPath(d, n + 1, cur + 1)
    ensures cur < Vstol(d[n]) ==> cur < CrossView(cur) && OnPath(d, n, CrossView(cur))
  {
    hide CrossView;
    var last, next := Before(d, n), d[n];
    assert Follows(last, next);
    if cur < Vstol(next) {
      CrossIs(cur, next);
    }
  }

  lemma CrossIs(cur: uint64, next: ViewStamp)
    requires next.reqId == 1 && cur < Vstol(next) && cur / TWO_32 < next.viewId
    ensures cur < CrossView(cur) <= Vstol(next) && CrossView(cur) % TWO_32 == 1
    ensures CrossView(cur) / TWO_32 == cur / TWO_32 + 1
  {
    var v := cur / TWO_32;
    assert CrossView(cur) == (v + 1) * TWO_32 + 1;
    assert (1 + (v + 1) * TWO_32) % TWO_32 == 1 && (1 + (v + 1) * TWO_32) / TWO_32 == v + 1;
  }

  /** The record numbers at which the walk from cur to the last delivery looks in vain. */
  function Probes(d: seq<ViewStamp>, n: nat, cur: uint64): set<uint64>
    requires Contiguous(d) && OnPath(d, n, cur)
    decreases |d| - n, WORD - cur
  {
    if n == |d| then {}
    else
      PathTurn(d, n, cur);
      if cur == Vstol(d[n]) then Probes(d, n + 1, cur + 1) else {cur} + Probes(d, n, CrossView(cur))
  }

  /** Delivery m opens a view, and key is where the walk looks before it: behind the last delivery of the
      view before, or at the first request of a view in which nothing was delivered. */
  predicate MissedBefore(d: seq<ViewStamp>, m: nat, key: uint64) {
    && m < |d| && d[m].reqId == 1 && key < Vstol(d[m])
    && (key == Base(d, m) || (key % TWO_32 == 1 && key / TWO_32 > Before(d, m).viewId))
  }

  /** Probes, said without the walk. */
  lemma {:induction false} ProbesMeaning(d: seq<ViewStamp>, n: nat, cur: uint64, key: uint64)
    requires Contiguous(d) && OnPath(d, n, cur)
    ensures key in Probes(d, n, cur) <==>
      (MissedBefore(d, n, key) && key >= cur) || exists m :: n < m < |d| && MissedBefore(d, m, key)
    decreases |d| - n, WORD - cur
  {
    hide CrossView, Follows;
    if n < |d| {
      PathTurn(d, n, cur);
      if cur == Vstol(d[n]) {
        ProbesMeaning(d, n + 1, cur + 1, key);
        assert MissedBefore(d, n + 1, key) ==> key >= cur + 1;
      } else {
        ProbesMeaning(d, n, CrossView(cur), key);
        NothingBetween(d, n, cur, key);
      }
    }
  }

  /** The last request delivered in view v, or 0. */
  function LastIn(d: seq<ViewStamp>, v: uint32): uint32 {
    if d == [] then 0
    else if d[|d| - 1].viewId == v then d[|d| - 1].reqId
    else LastIn(d[..|d| - 1], v)
  }

  lemma {:induction false} LastInBefore(d: seq<ViewStamp>, m: nat, v: uint32)
    requires m <= |d| && forall n :: m <= n < |d| ==> d[n].viewId != v
    ensures LastIn(d, v) == LastIn(d[..m], v)
  {
    if m < |d| {
      LastInBefore(d[..|d| - 1], m, v);
      assert d[..|d| - 1][..m] == d[..m];
    } else {
      assert d[..m] == d;
    }
  }

  lemma ViewRises(d: seq<ViewStamp>, m: nat)
    requires Contiguous(d) && m < |d|
    ensures if m == 0 then 0 < d[m].viewId else d[m - 1].viewId <= d[m].viewId
  {
    assert Follows(Before(d, m), d[m]);
  }

  /** Views only go up. */
  lemma {:induction false} ViewsRise(d: seq<ViewStamp>, n: nat, m: nat)
    requires Contiguous(d) && n <= m < |d|
    ensures 0 < d[n].viewId <= d[m].viewId
  {
    hide Contiguous;
    ViewRises(d, m);
    if n < m {
      ViewsRise(d, n, m - 1);
    } else if n > 0 {
      ViewsRise(d, n - 1, n - 1);
    }
  }

  /** Delivery m opens a view: what was delivered last in a view it closes. */
  lemma LastOfClosed(d: seq<ViewStamp>, m: nat, v: uint32)
    requires Contiguous(d) && m < |d| && Before(d, m).viewId <= v < d[m].viewId
    ensures LastIn(d, v) == if Before(d, m).viewId == v then Before(d, m).reqId else 0
  {
    hide LastIn, Follows, Contiguous;
    forall n | m <= n < |d| ensures d[n].viewId != v {
      ViewsRise(d, m, n);
    }
    LastInBefore(d, m, v);
    if m > 0 && d[m - 1].viewId < v {
      forall n | 0 <= n < m ensures d[..m][n].viewId != v {
        ViewsRise(d, n, m - 1);
      }
      LastInBefore(d[..m], 0, v);
      assert d[..m][..0] == [];
    }
    LastInEnds(d[..m], v);
    LastInEnds([], v);
  }

  lemma LastInEnds(d: seq<ViewStamp>, v: uint32)
    ensures d == [] ==> LastIn(d, v) == 0
    ensures d != [] && d[|d| - 1].viewId == v ==> LastIn(d, v) == d[|d| - 1].reqId
  {
  }

  /** Delivery m opens a view exactly if its request is 1; every delivered request is at least 1. */
  lemma OpensView(d: seq<ViewStamp>, m: nat)
    requires Contiguous(d) && m < |d|
    ensures d[m].reqId == 1 <==> Before(d, m).viewId < d[m].viewId
    ensures 1 <= d[m].reqId && d[m].reqId + 1 < TWO_32
    ensures d[m].reqId == 1 ==> Base(d, m) < Vstol(d[m])
    ensures m > 0 ==> Base(d, m) == d[m - 1].viewId * TWO_32 + d[m - 1].reqId + 1
  {
    assert Follows(Before(d, m), d[m]);
    if m > 0 {
      assert Follows(Before(d, m - 1), d[m - 1]);
    }
  }

  lemma {:induction false} FirstAbove(d: seq<ViewStamp>, m: nat, v: uint32) returns (n: nat)
    requires Contiguous(d) && m < |d| && v < d[m].viewId
    ensures n <= m && Before(d, n).viewId <= v < d[n].viewId
  {
    hide Contiguous, Follows;
    n := m;
    if Before(d, m).viewId > v {
      n := FirstAbove(d, m - 1, v);
    }
  }

  /** The record behind the last request delivered in view v. */
  function Behind(d: seq<ViewStamp>, v: uint32): nat {
    Vstol(ViewStamp(v, LastIn(d, v))) + 1
  }

  lemma BehindIs(d: seq<ViewStamp>, v: uint32)
    ensures Behind(d, v) == v * TWO_32 + LastIn(d, v) + 1
  {
    hide LastIn;
  }

  lemma MissedIsDeleted(d: seq<ViewStamp>, m: nat, key: uint64) returns (v: uint32)
    requires Contiguous(d) && MissedBefore(d, m, key) && key != 0
    ensures 0 < v < d[|d| - 1].viewId && key == Behind(d, v)
  {
    hide LastIn, Contiguous, Behind;
    ViewsRise(d, m, |d| - 1);
    OpensView(d, m);
    if key == Base(d, m) {
      OpensView(d, m - 1);
      ViewsRise(d, m - 1, m);
      v := d[m - 1].viewId;
    } else {
      v := key / TWO_32;
      assert key == v * TWO_32 + 1;
    }
    LastOfClosed(d, m, v);
    BehindIs(d, v);
  }

  lemma DeletedIsMissed(d: seq<ViewStamp>, m: nat, v: uint32)
    requires Contiguous(d) && m < |d| && Before(d, m).viewId <= v < d[m].viewId && 0 < v
    ensures Behind(d, v) < WORD && MissedBefore(d, m, Behind(d, v))
  {
    hide LastIn, Contiguous, Behind;
    OpensView(d, m);
    LastOfClosed(d, m, v);
    BehindIs(d, v);
    if Before(d, m).viewId < v {
      assert (1 + v * TWO_32) % TWO_32 == 1 && (1 + v * TWO_32) / TWO_32 == v;
    }
  }

  lemma StartsOnPath(d: seq<ViewStamp>)
    requires Contiguous(d)
    ensures OnPath(d, 0, 0) && (d != [] ==> MissedBefore(d, 0, 0))
  {
    if d != [] {
      OpensView(d, 0);
    }
  }

  /** The places looked at in vain are record 0 and exactly those whose record update_view deletes when
      it closes view v with its last delivered request. */
  lemma ProbesAreDeleted(d: seq<ViewStamp>, key: uint64)
    requires Contiguous(d) && d != []
    ensures key in Probes(d, 0, 0) <==>
      key == 0 || exists v: uint32 :: 0 < v < d[|d| - 1].viewId && key == Behind(d, v)
  {
    hide Behind, Probes, Contiguous, MissedBefore, Base;
    StartsOnPath(d);
    hide OnPath;
    ProbesMeaning(d, 0, 0, key);
    if m: nat :| m < |d| && MissedBefore(d, m, key) && key != 0 {
      var _ := MissedIsDeleted(d, m, key);
    }
    if v: uint32 :| 0 < v < d[|d| - 1].viewId && key == Behind(d, v) {
      var m := FirstAbove(d, |d| - 1, v);
      DeletedIsMissed(d, m, v);
    }
  }

  lemma NothingBetween(d: seq<ViewStamp>, n: nat, cur: uint64, key: uint64)
    requires Contiguous(d) && OnPath(d, n, cur) && n < |d| && cur < Vstol(d[n])
    ensures MissedBefore(d, n, key) && key >= cur <==> key == cur || (MissedBefore(d, n, key) && key >= CrossView(cur))
  {
    hide CrossView;
    assert Follows(Before(d, n), d[n]);
    CrossIs(cur, d[n]);
    NextFirst(cur, key);
  }

  /** Between cur and the first request of the next view there is no first request but that of cur's view. */
  lemma NextFirst(cur: uint64, key: uint64)
    requires cur < CrossView(cur) && CrossView(cur) % TWO_32 == 1 && CrossView(cur) / TWO_32 == cur / TWO_32 + 1
    ensures key % TWO_32 == 1 && cur <= key < CrossView(cur) ==> key / TWO_32 == cur / TWO_32 && key == cur / TWO_32 * TWO_32 + 1
  {
    hide CrossView;
    var next := CrossView(cur);
    assert next == (cur / TWO_32 + 1) * TWO_32 + 1;
  }

  /** No record is stored where the walk looks in vain. */
  predicate NoneMissed(d: seq<ViewStamp>, db: Db)
    requires Contiguous(d)
  {
    forall key :: key in Probes(d, 0, 0) ==> key !in db
  }

  predicate Stored(d: seq<ViewStamp>, db: Db) {
    forall n :: 0 <= n < |d| ==> Vstol(d[n]) in db
  }

  /** What was delivered, with the data of the database. */
  function Entries(d: seq<ViewStamp>, db: Db): (r: seq<Exec>)
    requires Stored(d, db)
    ensures |r| == |d|
  {
    seq(|d|, n requires 0 <= n < |d| => Exec(Vstol(d[n]), db[Vstol(d[n])]))
  }

  /** From any place on the path, the walk executes what is left of the deliveries if every record it looks for in
      vain is absent, and otherwise something else. */
  lemma {:induction false} PathReplay(db: Db, d: seq<ViewStamp>, n: nat, cur: uint64, highest: uint64)
    requires Contiguous(d) && OnPath(d, n, cur) && d != [] && highest == Vstol(d[|d| - 1])
    requires Stored(d, db)
    ensures var none, run := forall key :: key in Probes(d, n, cur) ==> key !in db, Replay(db, cur, highest).executed;
      if none then run == Entries(d, db)[n..] else !(run <= Entries(d, db)[n..])
    decreases |d| - n, WORD - cur
  {
    hide Replay, CrossView, Vstol, Follows, Probes, Entries;
    var all := Entries(d, db);
    ReplayTurn(db, cur, highest);
    if n == |d| {
      ProbesDone(d, cur);
      assert cur == Base(d, n) > highest;
      assert all[n..] == [];
    } else {
      hide OnPath;
      PathTurn(d, n, cur);
      Ascending(d, n, |d| - 1);
      EntriesFrom(d, db, n);
      if cur == Vstol(d[n]) {
        ProbesHit(d, n, cur, cur + 1);
        PathReplay(db, d, n + 1, cur + 1, highest);
      } else if cur in db {
        ProbesMiss(d, n, cur, CrossView(cur));
        assert all[n..][0].key != cur;
      } else {
        ProbesMiss(d, n, cur, CrossView(cur));
        PathReplay(db, d, n, CrossView(cur), highest);
      }
    }
  }

  lemma ProbesHit(d: seq<ViewStamp>, n: nat, cur: uint64, next: uint64)
    requires Contiguous(d) && OnPath(d, n, cur) && n < |d| && cur == Vstol(d[n])
    requires next == cur + 1 && OnPath(d, n + 1, next)
    ensures Probes(d, n, cur) == Probes(d, n + 1, next)
  {
    hide CrossView, Vstol, Follows, OnPath;
    PathTurn(d, n, cur);
  }

  lemma ProbesMiss(d: seq<ViewStamp>, n: nat, cur: uint64, next: uint64)
    requires Contiguous(d) && OnPath(d, n, cur) && n < |d| && cur != Vstol(d[n])
    requires next == CrossView(cur) && OnPath(d, n, next)
    ensures Probes(d, n, cur) == {cur} + Probes(d, n, next)
  {
    hide CrossView, Vstol, Follows, OnPath;
    PathTurn(d, n, cur);
  }

  lemma ProbesDone(d: seq<ViewStamp>, cur: uint64)
    requires Contiguous(d) && OnPath(d, |d|, cur)
    ensures Probes(d, |d|, cur) == {}
  {
  }

  lemma EntriesFrom(d: seq<ViewStamp>, db: Db, n: nat)
    requires Stored(d, db) && n < |d|
    ensures var all := Entries(d, db);
      all[n..] == [Exec(Vstol(d[n]), db[Vstol(d[n])])] + all[n + 1..]
  {
    hide Vstol;
  }

  lemma ReplayTurn(db: Db, cur: uint64, highest: uint64)
    ensures cur > highest ==> Replay(db, cur, highest) == Walk([], cur)
    ensures cur <= highest && cur in db ==>
      Replay(db, cur, highest).executed != [] && Replay(db, cur, highest).executed[0] == Exec(cur, db[cur])
    ensures cur <= highest && cur in db && cur + 1 < WORD ==>
      var later := Replay(db, cur + 1, highest);
      Replay(db, cur, highest) == Walk([Exec(cur, db[cur])] + later.executed, later.cur)
    ensures cur <= highest && cur !in db && cur < CrossView(cur) ==>
      Replay(db, cur, highest) == Replay(db, CrossView(cur), highest)
  {
    hide CrossView;
  }

  lemma {:induction false} Ascending(d: seq<ViewStamp>, n: nat, m: nat)
    requires Contiguous(d) && n <= m < |d|
    ensures Vstol(d[n]) <= Vstol(d[m])
  {
    hide Vstol, Follows;
    if n < m {
      FollowsRises(d[m - 1], d[m]);
      Ascending(d, n, m - 1);
    }
  }

  lemma FollowsRises(last: ViewStamp, next: ViewStamp)
    requires Follows(last, next)
    ensures Vstol(last) < Vstol(next)
  {
  }

  /**
   real_do_action run once over a whole history of deliveries executes exactly
   the delivered records if and only if no record is stored where it looks in
   vain: in particular none behind the last delivery of a view that was left.
   */
  lemma ReplayIsFaithful(db: Db, d: seq<ViewStamp>, highest: uint64)
    requires Contiguous(d) && d != [] && highest == Vstol(d[|d| - 1])
    requires Stored(d, db)
    ensures Ends(db, 0, highest) && Whole(db, 0, highest).executed == Entries(d, db) <==> NoneMissed(d, db)
  {
    hide Replay, Probes, Entries, Follows, Vstol;
    PathReplay(db, d, 0, 0, highest);
    assert Entries(d, db)[0..] == Entries(d, db);
    assert Replay(db, 0, highest).executed <= Whole(db, 0, highest).executed;
    if NoneMissed(d, db) {
      PathMovesForward(db, d, 0, 0, highest);
      ForwardEnds(db, 0, highest);
      ReplayUpToWrap(db, 0, highest);
    }
  }

  /** Request 2 of view 1 is stored and never delivered, then request 1 of view 2 is delivered: all three are executed. */
  lemma UndeliveredIsExecuted(a: Data, b: Data, c: Data)
    ensures var d := [ViewStamp(1, 1), ViewStamp(2, 1)];
      var db: Db := map[TWO_32 + 1 := a, TWO_32 + 2 := b, 2 * TWO_32 + 1 := c];
      && Contiguous(d) && Stored(d, db)
      && Whole(db, 0, Vstol(d[1])) == Walk([Exec(TWO_32 + 1, a), Exec(TWO_32 + 2, b), Exec(2 * TWO_32 + 1, c)], 2 * TWO_32 + 2)
  {
    hide Replay;
    var db: Db := map[TWO_32 + 1 := a, TWO_32 + 2 := b, 2 * TWO_32 + 1 := c];
    var highest := 2 * TWO_32 + 1;
    ReplayTurn(db, highest + 1, highest);
    ReplayTurn(db, highest, highest);
    ReplayTurn(db, TWO_32 + 3, highest);
    ReplayTurn(db, TWO_32 + 2, highest);
    ReplayTurn(db, TWO_32 + 1, highest);
    ReplayTurn(db, 0, highest);
  }

  /** On the path, with nothing stored where it looks in vain, the walk never turns back, in no view. */
  lemma {:induction false} PathMovesForward(db: Db, d: seq<ViewStamp>, n: nat, cur: uint64, highest: uint64)
    requires Contiguous(d) && OnPath(d, n, cur) && d != [] && highest == Vstol(d[|d| - 1])
    requires Stored(d, db) && NoneMissed(d, db)
    ensures Forward(db, cur, highest)
    decreases |d| - n, WORD - cur
  {
    hide Follows, Vstol, Probes, NoneMissed, Stored, CrossView;
    if n == |d| {
      assert cur == Base(d, n) > highest;
    } else {
      hide OnPath;
      PathTurn(d, n, cur);
      TurnOnPath(d, n, cur, db);
      PathMovesForward(db, d, if cur in db then n + 1 else n, Advance(db, cur), highest);
    }
  }

  // ---------- the two threads ----------

  /** The proxy's variables, the database it shares with the consensus component, and what that has delivered. */
  datatype State = State(
    db: Db, delivered: seq<ViewStamp>,
    curRec: uint64, highestRec: uint64,
    running: bool, curHighest: uint64, executed: seq<Exec>)

  /** proxy_init clears the structure. */
  function Init(): State {
    State(map[], [], 0, 0, false, 0, [])
  }

  datatype Event =
    | Store(key: uint64, data: Data)   // the consensus component stores a record
    | Delete(key: uint64)              // ... deletes one when a view closes: update_view
    | Deliver(vs: ViewStamp)           // ... and delivers one: update_state
    | Begin                            // real_do_action reads highest_rec
    | Turn                             // one turn of its loop
    | End                              // the loop ends

  /** When an event can happen: the consensus component keeps its side, the loop is where it is. */
  predicate CanHappen(s: State, e: Event)
    requires Contiguous(s.delivered)
  {
    match e
    case Store(key, data) => key != 0 && (key in s.db ==> s.db[key] == data) && key !in Probes(s.delivered, 0, 0)
    case Delete(key) => forall n :: 0 <= n < |s.delivered| ==> Vstol(s.delivered[n]) != key
    case Deliver(vs) =>
      && vs.viewId > 0 && Follows(Before(s.delivered, |s.delivered|), vs) && Vstol(vs) in s.db
      && Contiguous(s.delivered + [vs]) && NoneMissed(s.delivered + [vs], s.db)
    case Begin => !s.running
    case Turn => s.running && s.curRec <= s.curHighest
    case End => s.running && s.curRec > s.curHighest
  }

  /** update_state */
  function UpdateState(highest: uint64, recNo: uint64): uint64 {
    if highest < recNo then recNo else highest
  }

  function Happen(s: State, e: Event): State
    requires Contiguous(s.delivered) && CanHappen(s, e)
  {
    match e
    case Store(key, data) => s.(db := s.db[key := data])
    case Delete(key) => s.(db := s.db - {key})
    case Deliver(vs) => s.(delivered := s.delivered + [vs], highestRec := UpdateState(s.highestRec, Vstol(vs)))
    case Begin => s.(running := true, curHighest := s.highestRec)
    case Turn => s.(curRec := Advance(s.db, s.curRec),
                    executed := if s.curRec in s.db then s.executed + [Exec(s.curRec, s.db[s.curRec])] else s.executed)
    case End => s.(running := false)
  }

  /** The proxy has executed a prefix of what was delivered; nothing announced to a finished run is missing. */
  ghost predicate Inv(s: State) {
    && Contiguous(s.delivered) && Stored(s.delivered, s.db) && NoneMissed(s.delivered, s.db) && 0 !in s.db
    && |s.executed| <= |s.delivered| && s.executed == Entries(s.delivered, s.db)[..|s.executed|]
    && OnPath(s.delivered, |s.executed|, s.curRec)
    && s.highestRec == (if s.delivered == [] then 0 else Vstol(s.delivered[|s.delivered| - 1]))
    && s.curHighest <= s.highestRec
    && (!s.running ==> CaughtUp(s))
  }

  /** Everything announced when the last run began has been executed. */
  predicate CaughtUp(s: State) {
    forall n :: 0 <= n < |s.delivered| && Vstol(s.delivered[n]) <= s.curHighest ==> n < |s.executed|
  }

  lemma InitIsInv()
    ensures Inv(Init())
  {
  }

  lemma PathExtends(d: seq<ViewStamp>, vs: ViewStamp, n: nat, cur: uint64)
    requires Contiguous(d) && Contiguous(d + [vs]) && OnPath(d, n, cur)
    ensures OnPath(d + [vs], n, cur)
  {
    var d' := d + [vs];
    assert Follows(Before(d', |d|), d'[|d|]);
    assert forall m :: 0 <= m < |d| ==> d'[m] == d[m];
  }

  lemma Rises(d: seq<ViewStamp>, vs: ViewStamp)
    requires Contiguous(d + [vs])
    ensures d == [] ==> Vstol(vs) > 0
    ensures d != [] ==> Vstol(vs) > Vstol(d[|d| - 1])
  {
    var d' := d + [vs];
    assert Follows(Before(d', |d|), d'[|d|]);
  }

  lemma DeliverKeepsInv(s: State, vs: ViewStamp)
    requires Inv(s) && CanHappen(s, Deliver(vs))
    ensures Inv(Happen(s, Deliver(vs)))
  {
    hide Probes, Follows, OnPath, Vstol, NoneMissed, Entries, Stored, CaughtUp;
    var d := s.delivered;
    Rises(d, vs);
    StoredExtends(d, vs, s.db);
    PathExtends(d, vs, |s.executed|, s.curRec);
    EntriesExtend(d, vs, s.db, |s.executed|);
    if !s.running {
      StillCaughtUp(s, vs);
    }
  }

  lemma StoredExtends(d: seq<ViewStamp>, vs: ViewStamp, db: Db)
    requires Stored(d, db) && Vstol(vs) in db
    ensures Stored(d + [vs], db)
  {
    assert forall n :: 0 <= n < |d| ==> (d + [vs])[n] == d[n];
  }

  lemma StillCaughtUp(s: State, vs: ViewStamp)
    requires CaughtUp(s) && Vstol(vs) > s.curHighest
    ensures CaughtUp(s.(delivered := s.delivered + [vs], highestRec := UpdateState(s.highestRec, Vstol(vs))))
  {
    hide Vstol;
    var d' := s.delivered + [vs];
    assert forall n :: 0 <= n < |s.delivered| ==> d'[n] == s.delivered[n];
  }

  lemma EntriesExtend(d: seq<ViewStamp>, vs: ViewStamp, db: Db, n: nat)
    requires Stored(d + [vs], db) && Stored(d, db) && n <= |d|
    ensures Entries(d + [vs], db)[..n] == Entries(d, db)[..n]
  {
    hide Vstol;
    assert forall m :: 0 <= m < n ==> (d + [vs])[m] == d[m];
  }

  lemma StoreKeepsInv(s: State, key: uint64, data: Data)
    requires Inv(s) && CanHappen(s, Store(key, data))
    ensures Inv(Happen(s, Store(key, data)))
  {
    hide Probes, OnPath, Follows, Vstol;
    assert Entries(s.delivered, s.db[key := data]) == Entries(s.delivered, s.db);
  }

  lemma DeleteKeepsInv(s: State, key: uint64)
    requires Inv(s) && CanHappen(s, Delete(key))
    ensures Inv(Happen(s, Delete(key)))
  {
    hide Probes, OnPath, Vstol, Follows;
    assert Entries(s.delivered, s.db - {key}) == Entries(s.delivered, s.db);
  }

  /** A turn either executes the next delivery or steps over a record that is not there. */
  lemma TurnOnPath(d: seq<ViewStamp>, n: nat, cur: uint64, db: Db)
    requires Contiguous(d) && OnPath(d, n, cur) && n < |d| && NoneMissed(d, db) && Stored(d, db)
    ensures cur in db <==> cur == Vstol(d[n])
    ensures OnPath(d, if cur in db then n + 1 else n, Advance(db, cur))
  {
    hide Probes, Follows, OnPath;
    PathTurn(d, n, cur);
    if cur < Vstol(d[n]) {
      LookedForInVain(d, n, cur);
    }
  }

  lemma LookedForInVain(d: seq<ViewStamp>, n: nat, cur: uint64)
    requires Contiguous(d) && OnPath(d, n, cur) && n < |d| && cur < Vstol(d[n])
    ensures cur in Probes(d, 0, 0)
  {
    hide Probes;
    assert Follows(Before(d, n), d[n]);
    assert MissedBefore(d, n, cur);
    ProbesMeaning(d, 0, 0, cur);
  }

  lemma NothingLeft(d: seq<ViewStamp>, cur: uint64, highest: uint64, db: Db)
    requires OnPath(d, |d|, cur) && cur <= highest && 0 !in db
    requires highest <= if d == [] then 0 else Vstol(d[|d| - 1])
    ensures d == [] && cur !in db && OnPath(d, |d|, Advance(db, cur))
  {
  }

  lemma EntriesUpTo(d: seq<ViewStamp>, db: Db, n: nat)
    requires Stored(d, db) && n < |d|
    ensures var all := Entries(d, db); all[..n + 1] == all[..n] + [Exec(Vstol(d[n]), db[Vstol(d[n])])]
  {
    hide Vstol;
  }

  lemma TurnKeepsInv(s: State)
    requires Inv(s) && CanHappen(s, Turn)
    ensures Inv(Happen(s, Turn))
  {
    hide Probes, Follows, Vstol, OnPath, NoneMissed, Stored, Advance, Entries;
    var d, n := s.delivered, |s.executed|;
    if n < |d| {
      TurnOnPath(d, n, s.curRec, s.db);
      EntriesUpTo(d, s.db, n);
    } else {
      NothingLeft(d, s.curRec, s.curHighest, s.db);
    }
  }

  lemma StepKeepsInv(s: State, e: Event)
    requires Inv(s) && CanHappen(s, e)
    ensures Inv(Happen(s, e))
  {
    hide Inv, Happen, CanHappen;
    match e
    case Store(key, data) => StoreKeepsInv(s, key, data);
    case Delete(key) => DeleteKeepsInv(s, key);
    case Deliver(vs) => DeliverKeepsInv(s, vs);
    case Turn => TurnKeepsInv(s);
    case Begin => BeginKeepsInv(s);
    case End => EndKeepsInv(s);
  }

  lemma BeginKeepsInv(s: State)
    requires Inv(s) && CanHappen(s, Begin)
    ensures Inv(Happen(s, Begin))
  {
    hide Probes, OnPath, Follows, Vstol;
  }

  lemma EndKeepsInv(s: State)
    requires Inv(s) && CanHappen(s, End)
    ensures Inv(Happen(s, End))
  {
    hide Probes, OnPath, Follows, Vstol, Entries, NoneMissed, Stored;
    var d, n := s.delivered, |s.executed|;
    if n < |d| {
      PathTurn(d, n, s.curRec);
      forall m | n <= m < |d| ensures Vstol(d[m]) > s.curHighest {
        Ascending(d, n, m);
      }
    }
  }

  /** A run from the start: every event can happen where it does. */
  ghost predicate Run(states: seq<State>, events: seq<Event>) {
    && |states| == |events| + 1 && states[0] == Init()
    && forall t :: 0 <= t < |events| ==> Happens(states[t], events[t], states[t + 1])
  }

  ghost predicate Happens(s: State, e: Event, s': State) {
    Contiguous(s.delivered) && CanHappen(s, e) && s' == Happen(s, e)
  }

  lemma {:induction false} RunKeepsInv(states: seq<State>, events: seq<Event>, t: nat)
    requires Run(states, events) && t < |states|
    ensures Inv(states[t])
  {
    hide Inv, CanHappen, Happen;
    if t == 0 {
      InitIsInv();
    } else {
      RunKeepsInv(states, events, t - 1);
      assert Happens(states[t - 1], events[t - 1], states[t]);
      StepKeepsInv(states[t - 1], events[t - 1]);
    }
  }

  /**
   Over every interleaving of the two threads, what the proxy has executed is a
   prefix of what was delivered, in order, each once, with the stored data; when
   real_do_action has ended, nothing announced before it began is missing, and
   if nothing was announced since, everything delivered has been executed.
   */
  lemma ExecutesWhatIsDelivered(states: seq<State>, events: seq<Event>, t: nat)
    requires Run(states, events) && t < |states|
    ensures var s := states[t];
      && Contiguous(s.delivered) && Stored(s.delivered, s.db)
      && |s.executed| <= |s.delivered| && s.executed == Entries(s.delivered, s.db)[..|s.executed|]
      && (!s.running ==> CaughtUp(s))
      && (!s.running && s.curHighest == s.highestRec ==> s.executed == Entries(s.delivered, s.db))
  {
    hide Run, Probes, OnPath, Follows, Vstol, NoneMissed;
    RunKeepsInv(states, events, t);
    var s := states[t];
    if !s.running && s.curHighest == s.highestRec && s.delivered != [] {
      assert Vstol(s.delivered[|s.delivered| - 1]) <= s.curHighest;
      assert |s.executed| == |s.delivered|;
    }
  }

  /** The loop ends: each of its turns moves cur_rec up, and so towards the highest record it was given. */
  lemma TurnsEnd(states: seq<State>, events: seq<Event>, t: nat)
    requires Run(states, events) && t < |events| && events[t] == Turn
    ensures states[t].curRec < states[t + 1].curRec && states[t].curRec <= states[t].curHighest == states[t + 1].curHighest
  {
    hide Inv, Happen, CanHappen;
    RunKeepsInv(states, events, t);
    assert Happens(states[t], events[t], states[t + 1]);
    TurnRises(states[t]);
  }

  lemma TurnRises(s: State)
    requires Inv(s) && CanHappen(s, Turn)
    ensures var s' := Happen(s, Turn); s.curRec < s'.curRec && s.curRec <= s.curHighest == s'.curHighest
  {
    hide Probes, Follows, Vstol, OnPath, NoneMissed, Stored;
    var d, n := s.delivered, |s.executed|;
    if n < |d| {
      PathTurn(d, n, s.curRec);
      TurnOnPath(d, n, s.curRec, s.db);
    } else {
      NothingLeft(d, s.curRec, s.curHighest, s.db);
    }
  }

  // ---------- catching up ----------

  /** The proxy's thread alone, from s on, may come to s'. */
  ghost predicate Later(s: State, s': State) {
    exists states: seq<State>, events: seq<Event> :: Alone(states, events) && states[0] == s && states[|events|] == s'
  }

  ghost predicate Alone(states: seq<State>, events: seq<Event>) {
    && |states| == |events| + 1
    && forall t :: 0 <= t < |events| ==>
         (events[t].Begin? || events[t].Turn? || events[t].End?) && Happens(states[t], events[t], states[t + 1])
  }

  lemma LaterSelf(s: State)
    ensures Later(s, s)
  {
    assert Alone([s], []);
  }

  lemma LaterStep(s0: State, s: State, e: Event)
    requires Later(s0, s) && Inv(s) && CanHappen(s, e) && (e.Begin? || e.Turn? || e.End?)
    ensures Later(s0, Happen(s, e)) && Inv(Happen(s, e))
  {
    StepKeepsInv(s, e);
    LaterAppends(s0, s, e);
  }

  lemma LaterAppends(s0: State, s: State, e: Event)
    requires Later(s0, s) && Contiguous(s.delivered) && CanHappen(s, e) && (e.Begin? || e.Turn? || e.End?)
    ensures Later(s0, Happen(s, e))
  {
    hide CanHappen, Happen, Contiguous;
    var states: seq<State>, events: seq<Event> :| Alone(states, events) && states[0] == s0 && states[|events|] == s;
    var states', events' := states + [Happen(s, e)], events + [e];
    forall t | 0 <= t < |events'|
      ensures (events'[t].Begin? || events'[t].Turn? || events'[t].End?) && Happens(states'[t], events'[t], states'[t + 1])
    {
      if t < |events| {
        assert events'[t] == events[t] && Happens(states[t], events[t], states[t + 1]);
      }
    }
    assert Alone(states', events');
  }

  /** What the consensus component did stays as it is. */
  predicate SameDeliveries(s: State, s': State) {
    s'.delivered == s.delivered && s'.db == s.db && s'.highestRec == s.highestRec
  }

  /** real_do_action runs to its end. */
  lemma {:induction false} RunsToEnd(s0: State, s: State) returns (s': State)
    requires Later(s0, s) && Inv(s) && s.running
    ensures Later(s0, s') && Inv(s') && !s'.running && s'.curHighest == s.curHighest && SameDeliveries(s, s')
    decreases WORD - s.curRec
  {
    hide Later, Inv;
    InvShape(s);
    if s.curRec <= s.curHighest {
      TurnRises(s);
      LaterStep(s0, s, Turn);
      s' := RunsToEnd(s0, Happen(s, Turn));
    } else {
      LaterStep(s0, s, End);
      s' := Happen(s, End);
    }
  }

  lemma InvShape(s: State)
    requires Inv(s)
    ensures Contiguous(s.delivered) && Stored(s.delivered, s.db)
  {
  }

  /** At any time, one more run to the end executes everything that has been delivered. */
  lemma EverythingCanBeExecuted(states: seq<State>, events: seq<Event>, t: nat) returns (s': State)
    requires Run(states, events) && t < |states|
    ensures Later(states[t], s') && !s'.running && SameDeliveries(states[t], s')
    ensures Stored(s'.delivered, s'.db) && s'.executed == Entries(s'.delivered, s'.db)
  {
    hide Later, Inv, Run, Entries;
    var s := states[t];
    RunKeepsInv(states, events, t);
    LaterSelf(s);
    s' := s;
    if s.running {
      s' := RunsToEnd(s, s);
    }
    InvShape(s');
    LaterStep(s, s', Begin);
    s' := RunsToEnd(s, Happen(s', Begin));
    InvShape(s');
    AllCaughtUp(s');
  }

  lemma AllCaughtUp(s: State)
    requires Inv(s) && !s.running && s.curHighest == s.highestRec
    ensures s.executed == Entries(s.delivered, s.db)
  {
    hide Probes, OnPath, Follows, Vstol, NoneMissed;
    if s.delivered != [] {
      assert Vstol(s.delivered[|s.delivered| - 1]) <= s.curHighest;
    }
  }

  // ---------- the proxy's own variables ----------

  class Proxy {
    var curRec: uint64
    var highestRec: uint64
    var db: Db
    var executed: seq<Exec>

    /** proxy_init */
    constructor (db: Db)
      ensures curRec == 0 && highestRec == 0 && this.db == db && executed == []
    {
      curRec, highestRec, this.db, executed := 0, 0, db, [];
    }

    method Cross()
      modifies this`curRec
      ensures curRec == CrossView(old(curRec))
    {
      curRec := curRec / TWO_32;
      curRec := curRec + 1;
      curRec := curRec * TWO_32 % WORD;
      curRec := curRec + 1;
    }

    method UpdateHighest(recNo: uint64)
      modifies this`highestRec
      ensures highestRec == UpdateState(old(highestRec), recNo)
    {
      highestRec := if highestRec < recNo then recNo else highestRec;
    }

    /** One turn of the loop of real_do_action. */
    method Turn()
      modifies this`curRec, this`executed
      ensures curRec == Advance(db, old(curRec))
      ensures executed == old(executed) + if old(curRec) in db then [Exec(old(curRec), db[old(curRec)])] else []
    {
      hide CrossView;
      if curRec !in db {
        Cross();
      } else {
        executed := executed + [Exec(curRec, db[curRec])];
        curRec := (curRec + 1) % WORD;
      }
    }

    /** real_do_action, wherever its loop ends (LoopEnds). */
    method RealDoAction()
      requires Ends(db, curRec, highestRec)
      modifies this`curRec, this`executed
      ensures var w := Whole(db, old(curRec), highestRec);
        executed == old(executed) + w.executed && curRec == w.cur
    {
      hide Whole, Advance, Ends, Laps, Replay, Forward;
      var curHighest := highestRec;
      ghost var goal, mine: seq<Exec> := Whole(db, curRec, curHighest), [];
      while curRec <= curHighest
        invariant Ends(db, curRec, curHighest)
        invariant executed == old(executed) + mine
        invariant goal.executed == mine + Whole(db, curRec, curHighest).executed
        invariant goal.cur == Whole(db, curRec, curHighest).cur
        decreases Laps(db, curRec, curHighest), WORD - curRec
      {
        WholeTurn(db, curRec, curHighest);
        mine := mine + if curRec in db then [Exec(curRec, db[curRec])] else [];
        Turn();
      }
      WholeDone(db, curRec, curHighest);
    }
  }
}
