/**
 * The server's event loop: the outstanding queue tokens (`waiters`), the
 * registry of accepted connections (`connections`), and one iteration of the
 * `loop` in `main`, which takes the completion `wait_any` reported, removes
 * its token and dispatches on the opcode.
 */
module HttpServer {
  import opened Wrappers
  import opened Wire
  import opened Demikernel
  import opened Waiters

  /** The size `process_data` asks `sgaalloc` for. */
  const SEND_SIZE: nat := 1500

  /** A response fits the send segment exactly when the body is at most 1459 bytes. */
  lemma ResponseFits(contents: seq<byte>)
    ensures |Response(contents)| <= SEND_SIZE <==> |contents| <= 1459
  {
    assert |RESPONSE_HEAD| == 33;
    assert Pow10(3) == 1000 && Pow10(4) == 10000;
    DecimalLength(|contents|, 3);
    DecimalLength(|contents|, 4);
  }

  /** The pushed segment has the allocated length and begins with the response. */
  ghost predicate CarriesResponse(sga: Sga, contents: seq<byte>) {
    sga.NumSegs() == 1 && |sga.segs[0]| == SEND_SIZE
    && |Response(contents)| <= SEND_SIZE
    && sga.segs[0][..|Response(contents)|] == Response(contents)
  }

  /** `after` is `before` with one more segment, pushed on `qd` and carrying the response. */
  ghost predicate PushedResponse(before: seq<Sent>, after: seq<Sent>, qd: QDesc, contents: seq<byte>) {
    |after| == |before| + 1 && after[..|before|] == before
    && after[|before|].qd == qd && CarriesResponse(after[|before|].sga, contents)
  }

  /**
   * The whole segment is pushed, past the end of the response; the client
   * still reads exactly the file contents out of it.
   */
  lemma PushedSegmentDeliversContents(sga: Sga, contents: seq<byte>)
    requires CarriesResponse(sga, contents)
    ensures ParseResponse(sga.segs[0]) == Some(contents)
  {
    var seg, r := sga.segs[0], Response(contents);
    assert seg == r + seg[|r|..];
    ResponseRoundTrip(contents, seg[|r|..]);
  }

  /** Per-connection state (`struct Connection`). */
  class Connection {
    const queueDescriptor: QDesc
    var receiveQueue: seq<Sga>

    /** `Connection::new`. */
    constructor (qd: QDesc)
      ensures queueDescriptor == qd && receiveQueue == []
    {
      queueDescriptor := qd;
      receiveQueue := [];
    }

    /**
     * `Connection::process_data`: keeps the received segment, formats the
     * response into a fresh 1500-byte segment and pushes that segment on the
     * connection's own queue. The file contents are a parameter.
     */
    method ProcessData(libos: LibOS, rsga: Sga, contents: seq<byte>) returns (r: Result<Option<QToken>, Fail>)
      requires rsga.NumSegs() == 1
      modifies this, libos
      ensures receiveQueue == old(receiveQueue) + [rsga]
      ensures r.Ok? ==> r.value == Some(QToken(old(libos.issued), OpPush, queueDescriptor))
                        && libos.issued == old(libos.issued) + 1
                        && PushedResponse(old(libos.pushes), libos.pushes, queueDescriptor, contents)
      ensures r.Err? ==> libos.issued == old(libos.issued) && libos.pushes == old(libos.pushes)
      // `write!` fails exactly when the response is longer than the segment
      ensures |Response(contents)| > SEND_SIZE ==> r == Err(WriteZero) || r == Err(AllocFailed)
      ensures r == Err(WriteZero) ==> |Response(contents)| > SEND_SIZE
    {
      receiveQueue := receiveQueue + [rsga];
      var alloc := libos.SgaAlloc(SEND_SIZE);
      if alloc.Err? {
        return Err(alloc.error);
      }
      var response := Response(contents);
      var written := WriteSlice(alloc.value.segs[0], response);
      if !written.ok {
        return Err(WriteZero);
      }
      // The slice is the segment's memory: the segment now holds what was written.
      var ssga := Sga([written.buf]);
      var qt := libos.Push(queueDescriptor, ssga);
      if qt.Err? {
        return Err(qt.error);
      }
      assert libos.pushes[..|old(libos.pushes)|] == old(libos.pushes);
      return Ok(Some(qt.value));
    }
  }

  /**
   * The invariant of the outstanding tokens `ws`, over the registry's keys,
   * the listening queue and the number of tokens LibOS has issued.
   */
  ghost predicate Inv(ws: seq<QToken>, keys: set<QDesc>, listeningQd: QDesc, issued: nat) {
    // exactly one accept is outstanding (TokenOk puts every accept on the listening queue)
    && Tally(ws, OpAccept, listeningQd) == 1
    && (forall t :: t in ws ==> TokenOk(t, keys, listeningQd, issued))
    // every registered connection has exactly one pop outstanding
    && (forall qd {:trigger Tally(ws, OpPop, qd)} :: qd in keys ==> Tally(ws, OpPop, qd) == 1)
    // no handle is outstanding twice
    && DistinctIds(ws)
  }

  /**
   * An outstanding token is a handle LibOS issued; an accept is on the
   * listening queue, a pop or push on a registered connection.
   */
  ghost predicate TokenOk(t: QToken, keys: set<QDesc>, listeningQd: QDesc, issued: nat) {
    && t.id < issued
    && (t.kind == OpAccept ==> t.qd == listeningQd)
    && (t.kind != OpAccept ==> t.qd in keys)
  }

  /** Under the invariant, exactly one token in the list is an accept. */
  lemma ExactlyOneAccept(ws: seq<QToken>, keys: set<QDesc>, listeningQd: QDesc, issued: nat)
    requires Inv(ws, keys, listeningQd, issued)
    ensures exists i :: 0 <= i < |ws| && ws[i].kind == OpAccept
    ensures forall i, j :: 0 <= i < |ws| && 0 <= j < |ws| && ws[i].kind == OpAccept && ws[j].kind == OpAccept ==> i == j
  {
    TallyOne(ws, OpAccept, listeningQd);
    forall i | 0 <= i < |ws| && ws[i].kind == OpAccept
      ensures Hit(ws[i], OpAccept, listeningQd) == 1
    {
      assert ws[i] in ws;
    }
  }

  /** The two tokens appended after `ws` keep the ids distinct and issued. */
  lemma AppendTwoFresh(ws: seq<QToken>, a: QToken, b: QToken, issued: nat)
    requires DistinctIds(ws) && (forall t :: t in ws ==> t.id < issued)
    requires a.id == issued && b.id == issued + 1
    ensures DistinctIds(ws + [a, b])
    ensures forall t :: t in ws + [a, b] ==> t.id < issued + 2
  {
    AppendFreshDistinct(ws, a);
    assert forall t :: t in ws + [a] ==> t.id < b.id;
    AppendFreshDistinct(ws + [a], b);
    assert ws + [a] + [b] == ws + [a, b];
  }

  /**
   * ACCEPT: the accept token is replaced by a pop on the new connection and
   * a new accept on the listening queue; the registry gains the new key.
   */
  lemma AcceptKeepsInv(ws: seq<QToken>, index: nat, keys: set<QDesc>, listeningQd: QDesc, issued: nat, newQd: QDesc)
    requires Inv(ws, keys, listeningQd, issued)
    requires index < |ws| && ws[index].kind == OpAccept && newQd !in keys
    ensures Inv(SwapRemove(ws, index) + [QToken(issued, OpPop, newQd), QToken(issued + 1, OpAccept, listeningQd)],
                keys + {newQd}, listeningQd, issued + 2)
  {
    var added := [QToken(issued, OpPop, newQd), QToken(issued + 1, OpAccept, listeningQd)];
    var rest := SwapRemove(ws, index);
    var ws' := rest + added;
    assert ws[index] in ws;
    TallySingle(added[1], OpAccept, listeningQd);
    TallyConcat([added[0]], [added[1]], OpAccept, listeningQd);
    TallySingle(added[0], OpAccept, listeningQd);
    assert [added[0]] + [added[1]] == added;
    TallyAfterStep(ws, index, added, OpAccept, listeningQd);
    forall qd | qd in keys + {newQd}
      ensures Tally(ws', OpPop, qd) == 1
    {
      TallySingle(added[0], OpPop, qd);
      TallySingle(added[1], OpPop, qd);
      TallyConcat([added[0]], [added[1]], OpPop, qd);
      TallyAfterStep(ws, index, added, OpPop, qd);
      if qd == newQd {
        TallyNone(ws, OpPop, qd);
      }
    }
    SwapRemoveDistinct(ws, index);
    AppendTwoFresh(rest, added[0], added[1], issued);
  }

  /**
   * POP: the pop token is replaced by the response's push and a new pop,
   * both on the same connection; the registry keeps its keys.
   */
  lemma PopKeepsInv(ws: seq<QToken>, index: nat, keys: set<QDesc>, listeningQd: QDesc, issued: nat)
    requires Inv(ws, keys, listeningQd, issued)
    requires index < |ws| && ws[index].kind == OpPop
    ensures ws[index].qd in keys
    ensures Inv(SwapRemove(ws, index) + [QToken(issued, OpPush, ws[index].qd), QToken(issued + 1, OpPop, ws[index].qd)],
                keys, listeningQd, issued + 2)
  {
    var qd0 := ws[index].qd;
    var added := [QToken(issued, OpPush, qd0), QToken(issued + 1, OpPop, qd0)];
    var rest := SwapRemove(ws, index);
    assert ws[index] in ws;
    forall kind, qd
      ensures Tally(rest + added, kind, qd) + Hit(ws[index], kind, qd)
           == Tally(ws, kind, qd) + Hit(added[0], kind, qd) + Hit(added[1], kind, qd)
    {
      TallySingle(added[0], kind, qd);
      TallySingle(added[1], kind, qd);
      TallyConcat([added[0]], [added[1]], kind, qd);
      assert [added[0]] + [added[1]] == added;
      TallyAfterStep(ws, index, added, kind, qd);
    }
    SwapRemoveDistinct(ws, index);
    AppendTwoFresh(rest, added[0], added[1], issued);
  }

  /** PUSH: the push token is removed and nothing else changes. */
  lemma PushKeepsInv(ws: seq<QToken>, index: nat, keys: set<QDesc>, listeningQd: QDesc, issued: nat)
    requires Inv(ws, keys, listeningQd, issued)
    requires index < |ws| && ws[index].kind == OpPush
    ensures Inv(SwapRemove(ws, index), keys, listeningQd, issued)
  {
    var rest := SwapRemove(ws, index);
    forall kind, qd
      ensures Tally(rest, kind, qd) + Hit(ws[index], kind, qd) == Tally(ws, kind, qd)
    {
      TallyAfterStep(ws, index, [], kind, qd);
      assert rest + [] == rest;
    }
    SwapRemoveDistinct(ws, index);
  }

  /**
   * What `wait_any` guarantees of its answer: `index` is a position in the
   * list it was given, a successful completion is of the token at `index`
   * (same kind, same queue), and an accepted queue is not a live connection.
   */
  predicate Reports(ws: seq<QToken>, keys: set<QDesc>, index: nat, qr: QResult) {
    index < |ws| &&
    match qr
    case AcceptDone(qd, newQd) => ws[index].kind == OpAccept && ws[index].qd == qd && newQd !in keys
    case PopDone(qd, _) => ws[index].kind == OpPop && ws[index].qd == qd
    case PushDone(qd) => ws[index].kind == OpPush && ws[index].qd == qd
    case OpFailed(_) => true
    case OtherOpcode(_) => true
  }

  /** The reasons the server panics during an iteration. */
  datatype Panic =
    | PopFailed
    | AcceptFailed
    | MultiSegment
    | ProcessDataFailed(cause: Fail)
    | OperationFailed
    | UnexpectedOpcode

  datatype StepOutcome = Continue | Abort(panic: Panic)

  /** The state of the `loop` in `main`. */
  class EventLoop {
    const libos: LibOS
    const listeningQd: QDesc
    var waiters: seq<QToken>
    var connections: map<QDesc, Connection>

    ghost predicate Valid()
      reads this, libos
    {
      Inv(waiters, connections.Keys, listeningQd, libos.issued) && Keyed()
    }

    /** The receive queue of every registered connection. */
    ghost function Received(): map<QDesc, seq<Sga>>
      reads this`connections, connections.Values
    {
      map qd | qd in connections :: connections[qd].receiveQueue
    }

    /** The state after the first accept is posted: one waiter and no connections. */
    constructor (libos: LibOS, listeningQd: QDesc, acceptQt: QToken)
      requires acceptQt.kind == OpAccept && acceptQt.qd == listeningQd && acceptQt.id < libos.issued
      ensures Valid()
      ensures this.libos == libos && this.listeningQd == listeningQd
      ensures waiters == [acceptQt] && connections == map[]
    {
      this.libos := libos;
      this.listeningQd := listeningQd;
      waiters := [acceptQt];
      connections := map[];
      new;
      TallySingle(acceptQt, OpAccept, listeningQd);
      TallySingle(acceptQt, OpPop, listeningQd);
    }

    /** Every connection is stored under its own queue descriptor. */
    ghost predicate Keyed()
      reads this`connections
    {
      forall qd :: qd in connections ==> connections[qd].queueDescriptor == qd
    }

    /** The state just after `swap_remove(index)` took the completed token out of `ws`. */
    ghost predicate Removed(ws: seq<QToken>, index: nat)
      reads this, libos
    {
      index < |ws| && waiters == SwapRemove(ws, index)
      && Inv(ws, connections.Keys, listeningQd, libos.issued) && Keyed()
    }

    /**
     * One iteration of the loop: `index` and `qr` are what `wait_any`
     * returned, `contents` is what reading the served file yields.
     */
    method Step(index: nat, qr: QResult, contents: seq<byte>) returns (outcome: StepOutcome)
      requires Valid() && Reports(waiters, connections.Keys, index, qr)
      modifies this, libos, connections.Values
      ensures outcome.Continue? ==> Valid()
      // the registry only grows, and keeps its Connection objects
      ensures outcome.Continue? ==>
        forall qd :: qd in old(connections) ==> qd in connections && connections[qd] == old(connections[qd])
      ensures qr.AcceptDone? && outcome.Abort? ==> outcome.panic == PopFailed || outcome.panic == AcceptFailed
      // each panic of the ACCEPT arm leaves the trace of the submission that failed
      ensures qr.AcceptDone? && outcome == Abort(PopFailed) ==> libos.issued == old(libos.issued)
      ensures qr.AcceptDone? && outcome == Abort(AcceptFailed) ==> libos.issued == old(libos.issued) + 1
      ensures qr.AcceptDone? ==> libos.pushes == old(libos.pushes)
      ensures qr.AcceptDone? && outcome.Continue? ==>
        && connections.Keys == old(connections).Keys + {qr.newQd}
        && fresh(connections[qr.newQd]) && connections[qr.newQd].queueDescriptor == qr.newQd
        && Received() == old(Received())[qr.newQd := []]
        && waiters == SwapRemove(old(waiters), index)
                      + [QToken(old(libos.issued), OpPop, qr.newQd), QToken(old(libos.issued) + 1, OpAccept, listeningQd)]
        && libos.issued == old(libos.issued) + 2 && libos.pushes == old(libos.pushes)
      ensures qr.PopDone? ==> (outcome == Abort(MultiSegment) <==> qr.sga.NumSegs() != 1)
      ensures qr.PopDone? && qr.sga.NumSegs() == 1 && |Response(contents)| > SEND_SIZE ==>
        outcome == Abort(ProcessDataFailed(WriteZero)) || outcome == Abort(ProcessDataFailed(AllocFailed))
      ensures qr.PopDone? && outcome == Abort(ProcessDataFailed(WriteZero)) ==> |Response(contents)| > SEND_SIZE
      ensures qr.PopDone? && outcome.Abort? ==>
        outcome.panic == MultiSegment || outcome.panic == PopFailed || outcome.panic.ProcessDataFailed?
      ensures qr.PopDone? && outcome.Abort? && outcome.panic.ProcessDataFailed? ==>
        libos.issued == old(libos.issued) && libos.pushes == old(libos.pushes)
      ensures qr.PopDone? && outcome == Abort(PopFailed) ==>
        libos.issued == old(libos.issued) + 1 && PushedResponse(old(libos.pushes), libos.pushes, qr.qd, contents)
      ensures qr.PopDone? && outcome.Continue? ==>
        && qr.qd in old(connections)
        && connections == old(connections)
        && Received() == old(Received())[qr.qd := old(Received())[qr.qd] + [qr.sga]]
        && waiters == SwapRemove(old(waiters), index)
                      + [QToken(old(libos.issued), OpPush, qr.qd), QToken(old(libos.issued) + 1, OpPop, qr.qd)]
        && libos.issued == old(libos.issued) + 2
        && PushedResponse(old(libos.pushes), libos.pushes, qr.qd, contents)
      ensures qr.PushDone? ==>
        && outcome == Continue
        && waiters == SwapRemove(old(waiters), index)
        && connections == old(connections) && Received() == old(Received())
        && libos.issued == old(libos.issued) && libos.pushes == old(libos.pushes)
      ensures qr.OpFailed? ==> outcome == Abort(OperationFailed)
      ensures qr.OtherOpcode? ==> outcome == Abort(UnexpectedOpcode)
    {
      ghost var ws := waiters;
      waiters := SwapRemove(waiters, index);
      match qr {
        case AcceptDone(_, qd) =>
          outcome := OnAccept(ws, index, qd);
        case PopDone(qd, recvSga) =>
          outcome := OnPop(ws, index, qd, recvSga, contents);
        case PushDone(_) =>
          // the segment could be freed here; the source leaves that undone
          PushKeepsInv(ws, index, connections.Keys, listeningQd, libos.issued);
          outcome := Continue;
        case OpFailed(_) =>
          outcome := Abort(OperationFailed);
        case OtherOpcode(_) =>
          outcome := Abort(UnexpectedOpcode);
      }
    }

    /** The ACCEPT arm: register the new connection, post a pop on it and the next accept. */
    method OnAccept(ghost ws: seq<QToken>, ghost index: nat, qd: QDesc) returns (outcome: StepOutcome)
      requires Removed(ws, index) && ws[index].kind == OpAccept && qd !in connections
      modifies this, libos
      ensures outcome.Abort? ==> outcome.panic == PopFailed || outcome.panic == AcceptFailed
      ensures outcome == Abort(PopFailed) ==> libos.issued == old(libos.issued)
      ensures outcome == Abort(AcceptFailed) ==> libos.issued == old(libos.issued) + 1
      ensures libos.pushes == old(libos.pushes)
      ensures outcome.Continue? ==>
        && Valid()
        && qd in connections && connections == old(connections)[qd := connections[qd]]
        && fresh(connections[qd]) && connections[qd].queueDescriptor == qd
        && Received() == old(Received())[qd := []]
        && waiters == SwapRemove(ws, index)
                      + [QToken(old(libos.issued), OpPop, qd), QToken(old(libos.issued) + 1, OpAccept, listeningQd)]
        && libos.issued == old(libos.issued) + 2 && libos.pushes == old(libos.pushes)
    {
      ghost var keys, issued := connections.Keys, libos.issued;
      var connection := new Connection(qd);
      connections := connections[qd := connection];
      assert Keyed() && connections.Keys == keys + {qd};
      var pop := libos.Pop(qd);
      if pop.Err? {
        return Abort(PopFailed);
      }
      var accept := libos.Accept(listeningQd);
      if accept.Err? {
        return Abort(AcceptFailed);
      }
      // both tokens join the waiters, the pop first
      waiters := waiters + [pop.value, accept.value];
      assert Valid() by {
        AcceptKeepsInv(ws, index, keys, listeningQd, issued, qd);
      }
      assert Received() == old(Received())[qd := []] by {
        assert forall q :: q in old(connections) ==> connections[q].receiveQueue == old(connections[q].receiveQueue);
      }
      outcome := Continue;
    }

    /**
     * The POP arm: look the connection up, let it process the segment,
     * keep the push token it returns and post the next pop.
     */
    method OnPop(ghost ws: seq<QToken>, ghost index: nat, qd: QDesc, recvSga: Sga, contents: seq<byte>)
      returns (outcome: StepOutcome)
      requires Removed(ws, index) && ws[index].kind == OpPop && ws[index].qd == qd
      modifies this, libos, connections.Values
      ensures outcome == Abort(MultiSegment) <==> recvSga.NumSegs() != 1
      ensures recvSga.NumSegs() == 1 && |Response(contents)| > SEND_SIZE ==>
        outcome == Abort(ProcessDataFailed(WriteZero)) || outcome == Abort(ProcessDataFailed(AllocFailed))
      ensures outcome == Abort(ProcessDataFailed(WriteZero)) ==> |Response(contents)| > SEND_SIZE
      ensures outcome.Abort? ==>
        outcome.panic == MultiSegment || outcome.panic == PopFailed || outcome.panic.ProcessDataFailed?
      // each panic leaves the trace of the step that failed
      ensures outcome.Abort? && outcome.panic.ProcessDataFailed? ==>
        libos.issued == old(libos.issued) && libos.pushes == old(libos.pushes)
      ensures outcome == Abort(PopFailed) ==>
        libos.issued == old(libos.issued) + 1 && PushedResponse(old(libos.pushes), libos.pushes, qd, contents)
      ensures outcome.Continue? ==>
        && Valid()
        && qd in old(connections)
        && connections == old(connections)
        && Received() == old(Received())[qd := old(Received())[qd] + [recvSga]]
        && waiters == SwapRemove(ws, index)
                      + [QToken(old(libos.issued), OpPush, qd), QToken(old(libos.issued) + 1, OpPop, qd)]
        && libos.issued == old(libos.issued) + 2
        && PushedResponse(old(libos.pushes), libos.pushes, qd, contents)
    {
      ghost var keys, issued := connections.Keys, libos.issued;
      // the lookup's `expect` never fires
      assert qd in connections by {
        assert ws[index] in ws;
      }
      var connection := connections[qd];
      if recvSga.NumSegs() != 1 {
        // the `assert_eq!` at the top of `process_data`
        return Abort(MultiSegment);
      }
      var oqt := connection.ProcessData(libos, recvSga, contents);
      if oqt.Err? {
        return Abort(ProcessDataFailed(oqt.error));
      }
      if oqt.value.Some? {
        waiters := waiters + [oqt.value.value];
      }
      var pop := libos.Pop(qd);
      if pop.Err? {
        return Abort(PopFailed);
      }
      waiters := waiters + [pop.value];
      assert Valid() by {
        PopKeepsInv(ws, index, keys, listeningQd, issued);
        assert waiters == SwapRemove(ws, index) + [oqt.value.value, pop.value];
        assert connections.Keys == keys && libos.issued == issued + 2;
      }
      assert Received() == old(Received())[qd := old(Received())[qd] + [recvSga]];
      outcome := Continue;
    }
  }

  /** Start of `main` after the listening queue exists: post the first accept. */
  method Start(libos: LibOS, listeningQd: QDesc) returns (r: Option<EventLoop>)
    modifies libos
    ensures r.Some? ==> && fresh(r.value) && r.value.Valid()
                        && r.value.libos == libos && r.value.listeningQd == listeningQd
                        && r.value.waiters == [QToken(old(libos.issued), OpAccept, listeningQd)]
                        && r.value.connections == map[]
                        && libos.issued == old(libos.issued) + 1
    // the first accept could not be posted: nothing was issued
    ensures r.None? ==> libos.issued == old(libos.issued)
    ensures libos.pushes == old(libos.pushes)
  {
    var acceptQt := libos.Accept(listeningQd);
    if acceptQt.Err? {
      return None;
    }
    var eventLoop := new EventLoop(libos, listeningQd, acceptQt.value);
    return Some(eventLoop);
  }
}
