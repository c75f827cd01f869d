# nng-rs asynchronous I/O core, modelled in Dafny

This project models the asynchronous I/O handle of the nng-rs bindings (`src/aio.rs`).
It also models two small pure decoders: NNG socket addresses (`nng/src/addr.rs`) and pipe event codes (`nng/src/pipe.rs`).

An `Aio` keeps one atomic state word in its shared `Inner`, which is `Inactive`, `Sending`, `Receiving` or `Sleeping`.
Each start operation (`sleep`, `send_socket`, `recv_socket`, `send_ctx`, `recv_ctx`) does one compare-and-swap from `Inactive` to its own state and fails with `TryAgain` otherwise.
A refused send hands its message back.
`set_timeout` reserves the word as `Sleeping`, applies the timeout and restores `Inactive`; when an operation is running it fails with `IncorrectState`.
When the runtime finishes an operation it calls the `bounce` closure built in `Aio::new`.
The closure upgrades its weak reference to `Inner`, or returns without doing anything if it cannot.
Otherwise it maps the state and the runtime's result code to an `AioResult`, taking the message from the runtime object's slot where one is due.
It stores `Inactive` before it calls the user callback.

Layout:

- `ctypes.dfy` (module `CTypes`): the fixed-width integer types (`u8`, `i8`, `u16`, `u32`, `u64`, `c_int`, `usize`) as ranges of `int`.
- `aio_types.dfy` (module `AioTypes`): `State` and its `usize` encoding, `Error`, `Message`, `AioResult`, the conversion to `Result<Option<Message>>`, and the completion map.
- `aio_spec.dfy` (module `AioSpec`): the state machine as pure functions over a `View`.
  A view is the shared `Inner` together with the runtime's `nng_aio` record.
  The module has one step function per operation, a trace semantics `Run`, and lemmas over whole runs: mutual exclusion, the send-failure round trip and exactly-once callbacks.
- `aio.dfy` (module `AioHandle`): the classes `NngAio` (the runtime object as an abstract record), `Inner` (state word, strong count, the `bounce` closure) and `Aio`.
  Every state-changing method is proved to do exactly what its step function in `AioSpec` says.
- `addr.dfy` (module `Addr`): `buf_to_string` in both its `u8` and `i8` forms, `SocketAddrZt::new` and `From<nng_sockaddr> for SocketAddr`, with an encoder that it inverts.
- `pipe.dfy` (module `Pipe`): `PipeEvent::from_code`, with the inverse code map.

Modelling choices:

- The model is sequential. Each compare-and-swap and each store is one indivisible step.
  A runtime completion is one event: the runtime writes its result code (and, for a successful receive, the received message), then calls the closure.
  The event is enabled only while a request is running.
- The runtime's `nng_aio` is a record holding the message slot, the last result code, the timeout, and the request handed to it.
  The request is the sleep duration or the socket or context a send or receive went to.
- The weak reference upgrades exactly when the `Inner`'s strong count is positive. `Clone` and dropping a handle move that count.
  A successful upgrade makes one more owner: the handle `cb_aio` that the callback is given, which the callback may use and which is dropped when it returns.
- The user callback is not run. The completion returns the handle and the `AioResult` the callback is called with, and it returns them only after the state word holds `Inactive`.
  What the callback does (starting another operation, dropping its handle) arrives as later events.
- `nng_aio_result` returns a `c_int` that the closure casts `as u32`; the cast is modelled explicitly.
- A `Message` carries the address of its `nng_msg`, so "the same message" means the same buffer, not merely equal bytes.
- The NNG constants (`NNG_AF_*`, `NNG_PIPE_EV_*`, `NNG_MAXADDRLEN`) take the values of NNG's header.
  The generated bindings in nng-sys are not part of this model.

## Model

| member | source | states |
|---|---|---|
| `AioTypes.Discriminant` | src/aio.rs:548-564 | `State as usize` is one of the four discriminants 0 to 3 |
| `AioTypes.Decode` | src/aio.rs:566-579 | `From<usize> for State` gives back the state whose discriminant is the word; words other than 0 to 3 are unreachable |
| `AioTypes.DecodeDiscriminant` | src/aio.rs:566-579 | decoding inverts `State as usize` for every state |
| `AioTypes.IntoResult` | src/aio.rs:534-546 | `SendOk` and `SleepOk` give `Ok(None)`, `RecvOk(m)` gives `Ok(Some(m))`, every error variant gives `Err` with the same error |
| `AioTypes.AsU32` | src/aio.rs:173 | the `c_int` code cast to `u32` is congruent to it modulo 2^32 and is zero exactly when the code is |
| `AioTypes.CompletionResult` | src/aio.rs:175-195 | the result reports on the running operation, succeeds exactly when the code is zero, carries the code as its error, and hands back the slot's message for `SendErr` and `RecvOk` |
| `AioTypes.CompletionDetermined` | src/aio.rs:175-195 | the completion map is the only result that meets that description |
| `AioTypes.CompletionAsResult` | src/aio.rs:536-545 | a completion seen as a `Result` is `Err(code)` exactly when the code is non-zero, and `Ok(Some(msg))` exactly for a successful receive |
| `AioSpec.InitialInv` | src/aio.rs:151-155 | a new handle (one owner, `Inactive`, nothing running) satisfies the state-machine invariant |
| `AioSpec.SleepStep` | src/aio.rs:281-299 | `sleep` succeeds exactly from `Inactive`, then the state is `Sleeping` with the sleep handed to the runtime; otherwise `TryAgain` and nothing changes |
| `AioSpec.SendStep` | src/aio.rs:323-342 | a send succeeds exactly from `Inactive`, then the state is `Sending` and the message is in the slot; otherwise the very same message comes back with `TryAgain` and nothing changes |
| `AioSpec.RecvStep` | src/aio.rs:345-361 | a receive succeeds exactly from `Inactive`, then the state is `Receiving`; otherwise `TryAgain` and nothing changes |
| `AioSpec.SetTimeoutStep` | src/aio.rs:246-270 | `set_timeout` succeeds exactly from `Inactive` and changes only the timeout; otherwise `IncorrectState` and nothing changes; the state is the same afterwards either way |
| `AioSpec.CompleteStep` | src/aio.rs:162-201 | a callback runs exactly when the weak reference upgrades; if it does not, the state is untouched and there are no owners; if it does, there is one more owner (the callback's handle) and the state is `Inactive` when the callback gets a result that `Describes` the completion |
| `AioSpec.Step` | src/aio.rs:246-401 | every operation and every completion keeps the state-machine invariant (a running request matches the state, a live idle handle is `Inactive`, a running send has its message in the slot) |
| `AioSpec.Run` | src/aio.rs:246-401 | the invariant holds after any run of operations and completions |
| `AioSpec.BusyIsStable` | src/aio.rs:281-401 | while an operation is outstanding and no completion arrives, every start and timeout change is refused and only the strong count can change |
| `AioSpec.SecondStartRefused` | src/aio.rs:281-401 | mutual exclusion: of two starts with no completion between them, the second is refused with `TryAgain`, whatever their kinds, and a refused send gets its own message back |
| `AioSpec.FailedSendReturnsMessage` | src/aio.rs:177-180 | a message given to a send that started comes back, as the same message, in `SendErr` with the code when that send completes with an error |
| `AioSpec.CallbackCanRestart` | src/aio.rs:197-200 | after a completion that calls the callback, a start made from inside the callback is accepted |
| `AioSpec.CallbackExactlyOnce` | src/aio.rs:162-201 | in any run, clones and drops included, during which some owner is alive before each event, accepted starts and delivered callbacks match one for one, apart from an operation outstanding at either end of the run |
| `AioSpec.CallbackHandleOutlivesLastDrop` | src/aio.rs:165-200 | when the last outside owner drops its handle after a completion, the callback's handle still owns the `Inner`, and a start made on it is accepted |
| `AioHandle.Inner.CompareAndSwap` | src/aio.rs:328 | the atomic compare-and-swap returns the previous word and replaces it exactly when it equals the expected word |
| `AioHandle.Inner.Bounce` | src/aio.rs:162-201 | without a strong owner it returns no call and leaves the word alone; otherwise there is one more owner, the call carries a fresh handle on this `Inner` and the completion map of the old state, code and slot, and the word is `Inactive` |
| `AioHandle.Deliver` | src/aio.rs:170-200 | the runtime finishing its request and calling the closure does exactly what `CompleteStep` says, and the callback's handle is a valid new handle on the same `Inner` |
| `AioHandle.NngAio.SetMsg` | src/aio.rs:333 | `nng_aio_set_msg` puts the message in the slot |
| `AioHandle.NngAio.SetTimeout` | src/aio.rs:259 | `nng_aio_set_timeout` stores the timeout in the runtime object |
| `AioHandle.NngAio.Submit` | src/aio.rs:291 | starting a runtime operation records the request it works on |
| `AioHandle.Aio.New` | src/aio.rs:144-232 | creation succeeds exactly when allocation returned zero, with one owner and the state `Inactive`; a failure code with an object is `Unknown(0)`, any other failure is the runtime's code read as `u32` |
| `AioHandle.Aio.SetTimeout` | src/aio.rs:246-270 | reserve by compare-and-swap, apply, restore: the new view and reply are those of `SetTimeoutStep` |
| `AioHandle.Aio.Sleep` | src/aio.rs:281-299 | the new view and reply are those of `SleepStep` |
| `AioHandle.Aio.StartSend` | src/aio.rs:323-342 | the send shared by both endpoints: the new view and reply are those of `SendStep` |
| `AioHandle.Aio.StartRecv` | src/aio.rs:345-361 | the receive shared by both endpoints: the new view and reply are those of `RecvStep` |
| `AioHandle.Aio.SendSocket` | src/aio.rs:323-342 | `SendStep` with the socket as the endpoint |
| `AioHandle.Aio.RecvSocket` | src/aio.rs:345-361 | `RecvStep` with the socket as the endpoint |
| `AioHandle.Aio.SendCtx` | src/aio.rs:364-383 | `SendStep` with the context as the endpoint |
| `AioHandle.Aio.RecvCtx` | src/aio.rs:386-402 | `RecvStep` with the context as the endpoint |
| `AioHandle.Aio.Clone` | src/aio.rs:120-125 | a clone shares the same `Inner` and adds one strong owner |
| `AioHandle.Aio.Drop` | src/aio.rs:120-125 | dropping a handle removes one strong owner and keeps the invariant |
| `AioHandle.Aio.Eq` | src/aio.rs:439-445 | handles sharing an `Inner` are equal, and equal handles have the same runtime object address |
| `AioHandle.Aio.HashKey` | src/aio.rs:431-437 | the key fed to the hasher is the runtime object's address |
| `AioHandle.EqualHandlesHashAlike` | src/aio.rs:431-445 | equal handles (the same runtime object) feed the same key to the hasher |
| `AioHandle.CloneIsEqual` | src/aio.rs:439-445 | a clone is equal to its original in both directions and hashes alike |
| `Addr.NulPosition` | nng/src/addr.rs:97 | the position is the first NUL byte, or the length when there is none |
| `Addr.BufToString` | nng/src/addr.rs:84-99 | the result is a prefix of the buffer with no NUL byte, and it stops only at the end or at a NUL |
| `Addr.AsByte` | nng/src/addr.rs:134 | an `i8` read as `u8` is congruent to it modulo 256 and is zero exactly when it is |
| `Addr.BufToStringSigned` | nng/src/addr.rs:119-137 | the same cut made on the buffer read as bytes; an empty buffer panics at `&buf[0]` |
| `Addr.LeadingNulIsEmpty` | nng/src/addr.rs:97-98 | a buffer that starts with NUL decodes to the empty string |
| `Addr.BytesAfterNulIgnored` | nng/src/addr.rs:97-98 | bytes after a NUL never affect the result |
| `Addr.CStringRoundTrip` | nng/src/addr.rs:96-98 | a string with no NUL, followed by nothing or by a NUL and padding, decodes back to itself |
| `Addr.ZtFromNng` | nng/src/addr.rs:57-65 | family, network id, node id and port are copied unchanged |
| `Addr.FromNng` | nng/src/addr.rs:29-42 | each of the five family tags selects its own variant, built from the matching reading of the union with the fields unchanged (IPv6 flow info and scope 0); every other tag gives `Unspecified` |
| `Addr.DecodeInvertsStore` | nng/src/addr.rs:29-42 | decoding gives back every address an `nng_sockaddr` can hold |
| `Pipe.FromCode` | nng/src/pipe.rs:14-21 | total over `c_int`: each of the three known codes gives its own event, and every other code `n` gives `Unknown(n)` |
| `Pipe.CodeRoundTrip` | nng/src/pipe.rs:19 | no code is lost: the code can always be recovered from the event |
| `Pipe.EventRoundTrip` | nng/src/pipe.rs:15-20 | every event `from_code` can produce comes back from its own code |

## Left out

- `Aio::wait` and `Aio::cancel` only pass through to the runtime. A cancellation or a timeout reaches the model as a completion with a non-zero code.
- Memory orderings, `AtomicPtr` loads and stores, and the double-boxed callback pointer (src/aio.rs:207-213, 229) are not modelled. They are concurrency and FFI mechanics with no effect on the state logic.
- The trampoline's panic containment is not modelled: the null-argument panic, `catch_unwind` and `process::abort`. The user callback is not run either; the model returns the result it is called with.
- `AioHandle.Deliver`: the runtime finishing and the closure running form one step. The window between them, in which another thread still sees the old state, is not modelled.
- `AioHandle.Aio.SetTimeout`: the reserved `Sleeping` word exists only between two steps of one method. Its effect on concurrent starts is therefore not observable in this sequential model.
- `AioHandle.Aio.Drop`: the stop and free that `Drop for Inner` (src/aio.rs:471-498) performs when the last owner goes are foreign calls, so only the strong count is modelled.
- `AioHandle.Aio.New`: `validate_ptr` and `duration_to_nng` are in util.rs, which is not part of this model.
  `validate_ptr` is taken to turn a non-zero code into that error. Its panic on a null object with a zero code is excluded by a precondition, since NNG never returns that.
  A freshly allocated object is taken to have no request running. Durations are taken as the values `duration_to_nng` produced.
- `AioTypes.CompletionResult`: `NonNull::new(msgp).unwrap()` panics on an empty slot, so an empty slot where a message is read is excluded by a precondition.
- Error::from_code is in error.rs, which is not part of this model. Runtime codes are kept as `Code(n)`, so the names it gives well-known codes are not modelled.
- `AioHandle.Aio.HashKey`: the hash is modelled as the key fed to the hasher (the runtime object's address), not as a hasher's state.
- What the runtime leaves in the message slot after a successful send is not modelled. The binding never reads the slot in that case.
- `String::from_utf8_lossy` is a library call. Decoded names and paths are the byte prefix it is given.
- `nng_sockaddr` is a C union. It is modelled as the tag together with one independent reading per variant, so the aliasing between readings is not captured.
  Address and port fields are copied as raw integers, exactly as the code copies them; byte order is not modelled.
- nng/src/socket.rs, src/lib.rs, nng/examples/reqrep.rs and nng-sys/build.rs are not modelled. They hold foreign-call wrappers, module declarations, command-line I/O and a build script.
