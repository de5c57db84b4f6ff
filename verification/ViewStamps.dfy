/**
 View stamps and the 64-bit record numbers made from them
 (src/util/common-structure.c).
 */
module ViewStamps {
  import opened Basics

  datatype ViewStamp = ViewStamp(viewId: uint32, reqId: uint32)

  /** view_stamp_comp: -1, 0 or 1. */
  function ViewStampComp(op1: ViewStamp, op2: ViewStamp): int {
    if op1.viewId < op2.viewId then -1
    else if op1.viewId > op2.viewId then 1
    else if op1.reqId > op2.reqId then 1
    else if op1.reqId < op2.reqId then -1
    else 0
  }

  /** vstol: the view in the high word, the request in the low word. */
  function Vstol(vs: ViewStamp): uint64 {
    vs.reqId + vs.viewId * TWO_32
  }

  function Ltovs(recordNo: uint64): ViewStamp {
    ViewStamp(recordNo / TWO_32, recordNo % TWO_32)
  }

  /** view_stamp_inc: the request number wraps at 32 bits. */
  function Inc(vs: ViewStamp): ViewStamp {
    vs.(reqId := (vs.reqId + 1) % TWO_32)
  }

  /** Stamps and record numbers are in bijection. */
  lemma KeyRoundTrip(vs: ViewStamp, recordNo: uint64)
    ensures Ltovs(Vstol(vs)) == vs
    ensures Vstol(Ltovs(recordNo)) == recordNo
  {
    var q := recordNo / TWO_32;
    assert recordNo == q * TWO_32 + recordNo % TWO_32;
  }

  /** view_stamp_comp tells how the record numbers of two stamps compare, in one view or in several. */
  lemma CompIsKeyOrder(a: ViewStamp, b: ViewStamp)
    ensures ViewStampComp(a, b) == if Vstol(a) < Vstol(b) then -1 else if Vstol(a) == Vstol(b) then 0 else 1
    ensures Vstol(a) == Vstol(b) <==> a == b
  {
    KeyRoundTrip(a, 0);
    KeyRoundTrip(b, 0);
  }

  /** The record after a stamp's record is the record of the incremented
      stamp, exactly when the request number does not wrap. */
  lemma IncIsNextKey(vs: ViewStamp)
    ensures Vstol(Inc(vs)) == Vstol(vs) + 1 <==> vs.reqId + 1 < TWO_32
  {
  }
}
