/**
 * The part of the Demikernel LibOS interface the server uses, as an abstract
 * token source: every submitted `accept`, `pop` and `push` returns a fresh
 * queue token tagged with the operation's kind and queue descriptor, and the
 * pushed segments are recorded in submission order. What completes when is
 * not decided here: `wait_any`'s answer is an input of the event loop step.
 */
module Demikernel {
  import opened Wrappers
  import opened Wire

  /** A queue descriptor: an I/O queue such as a socket. */
  type QDesc = nat

  /** The operation a queue token stands for. */
  datatype OpKind = OpAccept | OpPop | OpPush

  /** A queue token (`QToken`): the handle of one submitted operation. */
  datatype QToken = QToken(id: nat, kind: OpKind, qd: QDesc)

  /** A scatter-gather array (`demi_sgarray_t`), one byte sequence per segment. */
  datatype Sga = Sga(segs: seq<seq<byte>>) {
    function NumSegs(): nat {
      |segs|
    }
  }

  /** The causes of a `Fail` the server can meet. */
  datatype Fail = SubmitFailed | AllocFailed | WriteZero

  /**
   * A completed operation as `wait_any` reports it (`demi_qresult_t`): the
   * opcode with the fields of the result that go with it. `qd` is `qr_qd`.
   */
  datatype QResult =
    | AcceptDone(qd: QDesc, newQd: QDesc)  // DEMI_OPC_ACCEPT; `newQd` is `qr_value.ares.qd`
    | PopDone(qd: QDesc, sga: Sga)         // DEMI_OPC_POP; `sga` is `qr_value.sga`
    | PushDone(qd: QDesc)                  // DEMI_OPC_PUSH
    | OpFailed(qd: QDesc)                  // DEMI_OPC_FAILED
    | OtherOpcode(qd: QDesc)               // any other opcode

  /** A segment handed to `push` together with the queue it was pushed on. */
  datatype Sent = Sent(qd: QDesc, sga: Sga)

  class LibOS {
    /** Number of queue tokens handed out so far; the next token's id. */
    var issued: nat
    /** Every segment pushed so far, in submission order. */
    var pushes: seq<Sent>

    method Accept(qd: QDesc) returns (r: Result<QToken, Fail>)
      modifies this
      ensures pushes == old(pushes)
      ensures r.Ok? ==> r.value == QToken(old(issued), OpAccept, qd) && issued == old(issued) + 1
      ensures r.Err? ==> r.error == SubmitFailed && issued == old(issued)
    {
      r := Ok(QToken(issued, OpAccept, qd));
      issued := issued + 1;
    }

    method Pop(qd: QDesc) returns (r: Result<QToken, Fail>)
      modifies this
      ensures pushes == old(pushes)
      ensures r.Ok? ==> r.value == QToken(old(issued), OpPop, qd) && issued == old(issued) + 1
      ensures r.Err? ==> r.error == SubmitFailed && issued == old(issued)
    {
      r := Ok(QToken(issued, OpPop, qd));
      issued := issued + 1;
    }

    method Push(qd: QDesc, sga: Sga) returns (r: Result<QToken, Fail>)
      modifies this
      ensures r.Ok? ==> r.value == QToken(old(issued), OpPush, qd) && issued == old(issued) + 1
      ensures r.Ok? ==> pushes == old(pushes) + [Sent(qd, sga)]
      ensures r.Err? ==> r.error == SubmitFailed && issued == old(issued) && pushes == old(pushes)
    {
      r := Ok(QToken(issued, OpPush, qd));
      issued := issued + 1;
      pushes := pushes + [Sent(qd, sga)];
    }

    /** `sgaalloc`: a single-segment array of `size` bytes whose contents are unspecified. */
    method SgaAlloc(size: nat) returns (r: Result<Sga, Fail>)
      ensures r.Ok? ==> r.value.NumSegs() == 1 && |r.value.segs[0]| == size
      ensures r.Err? ==> r.error == AllocFailed
    {
      r := Ok(Sga([seq(size, _ => 0)]));
    }
  }
}
