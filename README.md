# A (very) simple HTTP server on Demikernel, modelled in Dafny

The server is a single event loop over a Demikernel LibOS. It keeps a list of
outstanding queue tokens (`waiters`) and a hash map of accepted connections
(`connections`, keyed by queue descriptor). Each iteration asks `wait_any` for
one completed token, removes it with `swap_remove` and dispatches on the
opcode:

- ACCEPT registers a new `Connection`, posts a pop on it and posts the next
  accept.
- POP looks the connection up and lets it process the received segment. It
  keeps the push token that processing returns, then posts another pop.
- PUSH does nothing.
- FAILED and any other opcode panic.

`Connection::process_data` accepts only single-segment arrays. It appends the
received array to the connection's receive queue, allocates a 1500-byte
segment and writes `HTTP/1.1 200 OK\r\nContent-Length: <n>\r\n\r\n<body>` into
it, where `<n>` is the body's length in bytes. It then pushes the segment on
the connection's queue.

The Dafny project has five modules:

- `Wrappers` holds `Option` and `Result`.
- `Wire` holds the bytes on the wire:
  - the decimal rendering of a length;
  - the response format;
  - `ParseResponse`, the reading of that format a client performs;
  - `WriteSlice`, which is `write!` into a fixed `&mut [u8]`. Output that does not fit fills the slice and fails with `WriteZero`.
- `Demikernel` is the LibOS as an abstract token source. `LibOS` is a class with two fields:
  - `issued`, the number of tokens handed out so far;
  - `pushes`, every segment pushed so far.

  Every `accept`, `pop` and `push` either returns a fresh token of its kind on its queue, or fails with nothing issued.
- `Waiters` holds `Vec::swap_remove` on sequences and `Tally`, the number of outstanding tokens of one kind on one queue.
- `HttpServer` holds the `Connection` class, the `EventLoop` class and `Start`:
  - `EventLoop` has the fields `waiters`, a `seq`, and `connections`, a `map` to `Connection` objects.
  - `Start` is the start of `main`, which posts the first accept.

`wait_any` is not modelled as a function: the index and result it returns are
the inputs of `EventLoop.Step`. What `wait_any` guarantees of them is the
predicate `Reports`:

- the index is a position in `waiters`;
- the reported completion is of the token at that position, with the same kind and queue;
- an accepted queue descriptor is not already registered.

A panic ends the loop. `Step` reports it as `Abort(panic)` with the reason.
After an abort of the ACCEPT or POP arm, `libos.issued` and `libos.pushes`
show which step failed. Nothing is promised about `waiters` or `connections`
after a panic.

The invariant `Valid()` of the event loop is `Inv` on the tokens together
with `Keyed()`. `Keyed()` says every connection is stored under its own queue
descriptor, so the connection found for a POP pushes its response on that
same queue. `Inv` holds four things:

- exactly one accept is outstanding, on the listening queue;
- every registered connection has exactly one pop outstanding;
- every pop or push token names a registered queue, so the `expect` on the `connections` lookup never fires;
- token handles are distinct and were issued by the LibOS.

`Start` establishes the invariant, and every `Step` that continues preserves it.

The file contents (`hello.html`) are a parameter of `Step` and
`ProcessData`. The model takes them as their UTF-8 bytes, so
`contents.len()` is the length of that sequence.

The complete 1500-byte segment is pushed, not just the response, because the
source never trims the segment's length. `CarriesResponse` says that the
segment begins with the response. `PushedSegmentDeliversContents` proves that
a reader taking Content-Length bytes after the header still recovers exactly
the contents.

## Model

| member | source | states |
|---|---|---|
| Waiters.SwapRemove | src/main.rs:72 | the result is one shorter; every position other than `index` keeps its element, and the last element moves to `index` |
| Waiters.SwapRemoveRemovesOne | src/main.rs:71-72 | as multisets, the result plus the removed token is the original list: exactly the completed token leaves `waiters` |
| Waiters.TallyAfterStep | src/main.rs:72-119 | removing the token at `index` and appending some tokens changes every per-kind, per-queue count by exactly the removed and appended tokens |
| Waiters.TallyOne | src/main.rs:54-59 | a counting helper behind `ExactlyOneAccept`, modelling no line of its own: a count of one means that exactly one token matches, one exists and any two matching positions are the same |
| HttpServer.ExactlyOneAccept | src/main.rs:54-59 | under the loop invariant, exactly one outstanding token is an accept |
| HttpServer.AcceptKeepsInv | src/main.rs:76-95 | replacing the accept by a pop on the new queue and a new accept on the listening queue, with the new key registered, preserves the invariant |
| HttpServer.PopKeepsInv | src/main.rs:97-119 | a completed pop's queue is registered (the `expect` cannot fire); replacing the pop by a push and a new pop on the same queue preserves the invariant |
| HttpServer.PushKeepsInv | src/main.rs:121-126 | removing a completed push token preserves the invariant with the registry unchanged |
| HttpServer.Start | src/main.rs:50-62 | if the first accept is posted, one token is issued and the loop starts valid, with that accept as its only waiter and no connections. Otherwise (`None`, the panic) nothing was issued. Nothing is pushed either way |
| HttpServer.EventLoop.constructor | src/main.rs:50-62 | the initial state, with one accept waiter and an empty registry, satisfies the invariant |
| HttpServer.EventLoop.Step | src/main.rs:65-130 | one loop iteration: a continuing step keeps the invariant and the registry only grows. ACCEPT adds exactly the new key with a fresh empty connection, issues two tokens and queues a pop, then an accept, and never pushes. It panics only on a failed submission: after a failed pop nothing was issued, and after a failed accept only the pop was. POP appends the segment to that connection's receive queue, issues two tokens, queues the push, then a pop, and pushes the response. It panics with `MultiSegment` exactly when the array does not have exactly one segment. After a failed `process_data` nothing was issued or pushed. After a failed pop the response was pushed and its token issued. A `WriteZero` failure of `process_data` means the response is longer than the segment, and such a response always fails, with `WriteZero` or `AllocFailed`. PUSH only removes its token. FAILED and other opcodes abort |
| HttpServer.EventLoop.OnAccept | src/main.rs:76-96 | the ACCEPT arm. The registry gains exactly the new key, bound to a fresh connection with an empty receive queue. Two tokens are issued: the waiters gain a pop on it and then an accept on the listening queue, and no segment is pushed. It panics only on a failed submission, and the LibOS state shows which one failed: after `PopFailed` nothing was issued, and after `AcceptFailed` exactly the pop was |
| HttpServer.EventLoop.OnPop | src/main.rs:97-120 | the POP arm. The queue is registered and the registry keeps its objects. Only that connection's receive queue grows, by the received array. Two tokens are issued: the waiters gain the push token and then a new pop, and the response segment is pushed on that queue. It panics with `MultiSegment` exactly when the array does not have exactly one segment, and otherwise only on a failed `process_data` or a failed pop. After a failed `process_data` nothing was issued or pushed. After `PopFailed` the response was pushed and only its token issued. A write failure means the response is longer than 1500 bytes, and such a response always fails |
| HttpServer.Connection.constructor | src/main.rs:155-160 | a connection holds its queue descriptor and an empty receive queue |
| HttpServer.Connection.ProcessData | src/main.rs:162-201 | requires one segment. Appends `rsga` to the receive queue. On success it returns `Some` of a fresh push token on the connection's queue, and the one new push carries the response in a 1500-byte segment. On error nothing is issued or pushed. A `WriteZero` failure means the response is longer than 1500 bytes. Such a response always fails, with `WriteZero`, or with `AllocFailed` if allocation failed first |
| HttpServer.ResponseFits | src/main.rs:179-195 | the response fits the 1500-byte segment exactly when the body is at most 1459 bytes |
| HttpServer.PushedSegmentDeliversContents | src/main.rs:179-198 | a pushed segment that begins with the response parses back to exactly the contents, whatever the rest of the segment holds |
| Wire.Response | src/main.rs:190-195 | the response is the status line and field name, then the decimal length, the header end and the body: its length is the sum of those parts, it begins with the status line and it ends with the contents |
| Wire.Decimal | src/main.rs:192-193 | the rendering of `contents.len()` is a nonempty string of decimal digits with no leading zero: only 0 starts with the digit 0, and 0 is rendered as that one digit |
| Wire.DecimalRoundTrip | src/main.rs:192-193 | reading the digits back yields the number rendered |
| Wire.DecimalLength | src/main.rs:192-193 | the rendering has at most `k` digits exactly when the number is below 10^k |
| Wire.DigitRun | src/main.rs:192 | part of the client-side reader `ParseResponse`, modelling no line of its own: the digit run of a byte string is a prefix of digits followed by a non-digit or the end |
| Wire.DigitRunOfDigitsThenStop | src/main.rs:192 | part of the client-side reader, used by `ResponseRoundTrip`: the digit run of digits followed by a non-digit is exactly those digits |
| Wire.ResponseRoundTrip | src/main.rs:190-195 | the Content-Length written equals the body's length: parsing the response, followed by any bytes, returns exactly the contents |
| Wire.WriteSlice | src/main.rs:190-195 | `write!` into a slice keeps its length. It succeeds exactly when the output fits. On success the output is a prefix and the rest is untouched; on failure the slice holds the first bytes of the output |
| Wire.WrittenResponseRoundTrip | src/main.rs:179-195 | a response that was written into a slice successfully is read back intact |
| Demikernel.LibOS.Accept | src/main.rs:54-57 | assumption about LibOS `accept` (also src/main.rs:92-95): on success, a fresh token for an accept on the given queue, with one more token issued; on failure, nothing is issued; nothing is pushed either way |
| Demikernel.LibOS.Pop | src/main.rs:86-89 | assumption about LibOS `pop` (also src/main.rs:116-119): on success, a fresh token for a pop on the given queue, with one more token issued; on failure, nothing is issued; nothing is pushed either way |
| Demikernel.LibOS.Push | src/main.rs:198 | assumption about LibOS `push`: on success, a fresh push token on the given queue, and the segment is recorded as pushed on it; on failure, nothing is issued or pushed |
| Demikernel.LibOS.SgaAlloc | src/main.rs:179 | assumption about LibOS `sgaalloc`: on success, a single segment of the requested size; a failure is `AllocFailed` |
| HttpServer.Reports | src/main.rs:66-69 | assumption about `wait_any`, taken as the precondition of `Step`: the index is a position in `waiters`; an ACCEPT, POP or PUSH completion is of the token at that index, with the same kind and queue; an accepted queue descriptor is not a live connection |

## Left out

- LibOS construction and `create_listening_socket` (socket, bind, listen; src/main.rs:28-46, 133-146) are left out. The listening queue descriptor is a parameter of `Start`.
- How `wait_any` chooses a completion, and its error branch, are left out. Its answer is an input of `Step`, constrained by `Reports`.
- The LibOS's failures are modelled only as a possible `Err` from `accept`, `pop`, `push` and `sgaalloc`. Their bodies in the model always succeed, but every caller handles the `Err` case.
- The segment contents that `sgaalloc` returns are unspecified in the source. The model's segment holds zeros, and no contract depends on them.
- The read of `hello.html` is left out: the contents become a parameter. The panic when the file is missing or is not UTF-8 is not modelled.
- `println!` and `String::from_utf8_lossy` of the received bytes (src/main.rs:79, 166-173) are left out, because they are output only.
- The raw-pointer slices over segment memory are modelled as the segment's byte sequence. Aliasing between the slice and the segment is not modelled.
- The infinite `loop` is left out: `Step` is one iteration, and no state after a panic is described.
- Freeing segments (the "ToDo" at src/main.rs:125, and the received arrays that stay in the receive queue) is not done by the source and is not modelled.
- HttpServer.EventLoop.OnAccept appends the pop and accept tokens to `waiters` in one assignment, after both submissions succeeded. On the success path this equals the source's two pushes. It differs only in the `waiters` left behind by a panic, which the model does not describe.
- The LibOS is assumed never to hand out, through `accept`, a queue descriptor that is still registered (`Reports`). The invariant and "the registry keeps its objects" rest on this. If a live descriptor were reused, `connections.insert` (src/main.rs:83) would replace the old `Connection`, and a second pop would be outstanding on that queue.
- HttpServer.Connection.ProcessData: an error from `sgaalloc` or `push` leaves no trace in the LibOS state, because allocations are not recorded and a failed push records nothing. The contract therefore does not exclude a spurious `Err(AllocFailed)` or `Err(SubmitFailed)`, nor the matching `Abort(ProcessDataFailed(...))` from `HttpServer.EventLoop.OnPop` and `HttpServer.EventLoop.Step`. It does exclude `WriteZero` for a response that fits, and any error reported after a successful push: `AllocFailed` and `SubmitFailed` both mean only that nothing was issued or pushed.
