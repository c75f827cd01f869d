/**
 * The Aio state machine as pure functions over an abstract view of one
 * handle: the shared `Inner` (state word, strong count) together with the
 * foreign `nng_aio` record (message slot, result code, timeout and the request
 * the runtime is working on). Each compare-and-swap is one indivisible step.
 * The classes in module AioHandle are proved against these functions, and the
 * lemmas here state what the state machine guarantees over whole runs.
 */
module AioSpec {
  import opened CTypes
  import opened AioTypes

  /** Where an operation was handed to the runtime: a socket or a context, by handle. */
  datatype Endpoint = Socket(socket: nat) | Context(ctx: nat)

  /** What the binding asked the runtime to do when an operation started. */
  datatype Request = SleepFor(ms: int) | SendOn(sendTo: Endpoint) | RecvOn(recvFrom: Endpoint)

  /** The state an operation of this request holds while it runs. */
  function RequestState(q: Request): State
  {
    match q
    case SleepFor(_) => Sleeping
    case SendOn(_) => Sending
    case RecvOn(_) => Receiving
  }

  /**
   * One handle as the binding sees it. `strong` is the number of `Aio`
   * values sharing the `Inner`, the one a running callback holds included:
   * the callback's weak reference upgrades exactly when it is positive.
   */
  datatype View = View(
    state: State,
    slot: Option<Message>,
    result: CInt,
    timeout: int,
    pending: Option<Request>,
    strong: nat)

  /**
   * What every reachable view satisfies: a running request matches the
   * state, a live handle with nothing running is `Inactive`, and a running
   * send has its message in the slot.
   */
  ghost predicate Inv(v: View)
  {
    && (v.pending.Some? ==> v.state == RequestState(v.pending.value))
    && (v.strong > 0 && v.pending.None? ==> v.state == Inactive)
    && (v.pending.Some? && v.pending.value.SendOn? ==> v.slot.Some?)
  }

  /** The state of a freshly created handle: one owner, nothing running. */
  ghost predicate Initial(v: View)
  {
    v.state == Inactive && v.pending.None? && v.strong == 1
  }

  lemma InitialInv(v: View)
    requires Initial(v)
    ensures Inv(v)
  {
  }

  /** The compare-and-swap from `Inactive` that every start performs. */
  function Begin(v: View, q: Request, msg: Option<Message>): (w: View)
    requires v.state == Inactive
  {
    v.(state := RequestState(q), pending := Some(q), slot := if msg.Some? then msg else v.slot)
  }

  /** `Aio::sleep`. */
  function SleepStep(v: View, ms: int): (p: (View, Result<()>))
    ensures p.1.Ok? <==> v.state == Inactive
    ensures p.1.Ok? ==> p.0.state == Sleeping && p.0.pending == Some(SleepFor(ms))
    ensures p.1.Ok? ==> p.0.(state := v.state, pending := v.pending) == v
    ensures p.1.Err? ==> p.1.error == TryAgain && p.0 == v
  {
    if v.state == Inactive then (Begin(v, SleepFor(ms), None), Ok(())) else (v, Err(TryAgain))
  }

  /** `Aio::send_socket` and `Aio::send_ctx`, which differ only in the endpoint. */
  function SendStep(v: View, ep: Endpoint, m: Message): (p: (View, SendResult<()>))
    ensures p.1.Sent? <==> v.state == Inactive
    ensures p.1.Sent? ==> p.0.state == Sending && p.0.pending == Some(SendOn(ep)) && p.0.slot == Some(m)
    ensures p.1.Sent? ==> p.0.(state := v.state, pending := v.pending, slot := v.slot) == v
    ensures p.1.Returned? ==> p.1 == Returned(m, TryAgain) && p.0 == v
  {
    if v.state == Inactive then (Begin(v, SendOn(ep), Some(m)), Sent(())) else (v, Returned(m, TryAgain))
  }

  /** `Aio::recv_socket` and `Aio::recv_ctx`, which differ only in the endpoint. */
  function RecvStep(v: View, ep: Endpoint): (p: (View, Result<()>))
    ensures p.1.Ok? <==> v.state == Inactive
    ensures p.1.Ok? ==> p.0.state == Receiving && p.0.pending == Some(RecvOn(ep))
    ensures p.1.Ok? ==> p.0.(state := v.state, pending := v.pending) == v
    ensures p.1.Err? ==> p.1.error == TryAgain && p.0 == v
  {
    if v.state == Inactive then (Begin(v, RecvOn(ep), None), Ok(())) else (v, Err(TryAgain))
  }

  /**
   * `Aio::set_timeout`: reserves the word (as `Sleeping`), applies the
   * timeout, then restores `Inactive`, so the state is the same afterwards
   * either way; from any other state it fails and changes nothing.
   */
  function SetTimeoutStep(v: View, ms: int): (p: (View, Result<()>))
    ensures p.1.Ok? <==> v.state == Inactive
    ensures p.0.state == v.state
    ensures p.1.Ok? ==> p.0 == v.(timeout := ms)
    ensures p.1.Err? ==> p.1.error == IncorrectState && p.0 == v
  {
    if v.state == Inactive then (v.(timeout := ms), Ok(())) else (v, Err(IncorrectState))
  }

  /**
   * What the runtime leaves in its record when the pending request finishes
   * with code `rv`; a successful receive puts the received message in the slot.
   */
  function Finished(v: View, rv: CInt, incoming: Option<Message>): (w: View)
    requires v.pending.Some?
  {
    var slot := if v.pending.value.RecvOn? && rv == 0 then incoming else v.slot;
    v.(result := rv, pending := None, slot := slot)
  }

  /**
   * The runtime may finish a request only while one is running, and always
   * supplies a message with a successful receive.
   */
  predicate CanComplete(v: View, rv: CInt, incoming: Option<Message>)
  {
    v.pending.Some? && (v.pending.value.RecvOn? && rv == 0 ==> incoming.Some?)
  }

  /**
   * The runtime finishes the pending request and calls the completion
   * closure. If the weak reference cannot be upgraded nothing of the
   * binding's state is touched and no callback runs; otherwise the upgrade
   * makes one more owner (the handle the callback is given), the result is
   * built from the state and code, and `Inactive` is stored before the user
   * callback is given that result. The callback returning drops its handle,
   * which is a `Drop` event.
   */
  function CompleteStep(v: View, rv: CInt, incoming: Option<Message>): (p: (View, Option<AioResult>))
    requires Inv(v) && CanComplete(v, rv, incoming)
    ensures p.1.Some? <==> v.strong > 0
    ensures p.1.None? ==> p.0.state == v.state
    ensures p.1.Some? ==> p.0.state == Inactive
    ensures p.1.Some? ==> Describes(v.state, AsU32(rv), Finished(v, rv, incoming).slot, p.1.value)
    ensures p.1.None? ==> p.0.strong == 0
    ensures p.1.Some? ==> p.0.strong == v.strong + 1
    ensures p.0.pending.None? && p.0.result == rv
  {
    var f := Finished(v, rv, incoming);
    if v.strong == 0 then (f, None)
    else (f.(state := Inactive, strong := v.strong + 1), Some(CompletionResult(v.state, AsU32(rv), f.slot)))
  }

  /** Everything that can happen to one handle, in the order it happens. */
  datatype Event =
    | SetTimeout(timeoutMs: int)
    | Sleep(sleepMs: int)
    | Send(to: Endpoint, msg: Message)
    | Recv(from: Endpoint)
    | Complete(rv: CInt, incoming: Option<Message>)
    | Clone
    | Drop

  /** What each event gives back to whoever caused it. */
  datatype Reply =
    | Configured(status: Result<()>)
    | Started(started: Result<()>)
    | SendStarted(sent: SendResult<()>)
    | Callback(call: Option<AioResult>)
    | Handled
    | Ignored

  predicate IsStart(e: Event)
  {
    e.Sleep? || e.Send? || e.Recv?
  }

  /**
   * Application calls need an `Aio`, so a live handle; a completion needs a
   * running request. Anything else cannot happen.
   */
  predicate Enabled(v: View, e: Event)
  {
    match e
    case Complete(rv, incoming) => CanComplete(v, rv, incoming)
    case _ => v.strong > 0
  }

  /** One event; events that cannot happen leave the view alone. */
  function Step(v: View, e: Event): (p: (View, Reply))
    requires Inv(v)
    ensures Inv(p.0)
  {
    if !Enabled(v, e) then (v, Ignored)
    else match e
      case SetTimeout(ms) => var (w, r) := SetTimeoutStep(v, ms); (w, Configured(r))
      case Sleep(ms) => var (w, r) := SleepStep(v, ms); (w, Started(r))
      case Send(ep, m) => var (w, r) := SendStep(v, ep, m); (w, SendStarted(r))
      case Recv(ep) => var (w, r) := RecvStep(v, ep); (w, Started(r))
      case Complete(rv, incoming) => var (w, c) := CompleteStep(v, rv, incoming); (w, Callback(c))
      case Clone => (v.(strong := v.strong + 1), Handled)
      case Drop => (v.(strong := v.strong - 1), Handled)
  }

  /** A whole run: the final view and one reply per event. */
  function Run(v: View, evs: seq<Event>): (r: (View, seq<Reply>))
    requires Inv(v)
    ensures Inv(r.0) && |r.1| == |evs|
    decreases |evs|
  {
    if evs == [] then (v, [])
    else
      var (w, rep) := Step(v, evs[0]);
      var (u, reps) := Run(w, evs[1..]);
      (u, [rep] + reps)
  }

  /** Running two traces one after the other is running their concatenation. */
  lemma {:induction false} RunAppend(v: View, a: seq<Event>, b: seq<Event>)
    requires Inv(v)
    ensures Run(v, a + b).0 == Run(Run(v, a).0, b).0
    ensures Run(v, a + b).1 == Run(v, a).1 + Run(Run(v, a).0, b).1
    decreases |a|
  {
    if a == [] {
      assert a + b == b;
    } else {
      assert (a + b)[0] == a[0];
      assert (a + b)[1..] == a[1..] + b;
      RunAppend(Step(v, a[0]).0, a[1..], b);
    }
  }

  predicate NoCompletion(evs: seq<Event>)
  {
    forall i :: 0 <= i < |evs| ==> !evs[i].Complete?
  }

  /**
   * While an operation is outstanding and no completion arrives, nothing
   * but the strong count moves: every start and every timeout change is
   * refused, so state, request, slot, code and timeout stay as they were.
   */
  lemma {:induction false} BusyIsStable(v: View, evs: seq<Event>)
    requires Inv(v) && v.state != Inactive
    requires NoCompletion(evs)
    ensures Run(v, evs).0 == v.(strong := Run(v, evs).0.strong)
    decreases |evs|
  {
    if evs != [] {
      assert !evs[0].Complete?;
      var w := Step(v, evs[0]).0;
      assert w == v.(strong := w.strong);
      assert NoCompletion(evs[1..]) by {
        forall i | 0 <= i < |evs[1..]| ensures !evs[1..][i].Complete? {
          assert evs[1..][i] == evs[i + 1];
        }
      }
      BusyIsStable(w, evs[1..]);
    }
  }

  /** The reply a start gets when another operation is outstanding. */
  predicate RefusedAsBusy(e: Event, rep: Reply)
    requires IsStart(e)
  {
    match e
    case Send(_, m) => rep == SendStarted(Returned(m, TryAgain))
    case _ => rep == Started(Err(TryAgain))
  }

  /**
   * Mutual exclusion: of two starts with no completion between them, the
   * second is refused with `TryAgain`, whichever kinds they are, and a
   * refused send gets its own message back.
   */
  lemma {:induction false} SecondStartRefused(v: View, first: Event, mid: seq<Event>, second: Event)
    requires Inv(v) && v.strong > 0
    requires IsStart(first) && IsStart(second) && NoCompletion(mid)
    requires Run(v, [first] + mid).0.strong > 0
    ensures RefusedAsBusy(second, Run(v, [first] + mid + [second]).1[|mid| + 1])
  {
    var w := Step(v, first).0;
    assert w.state != Inactive;
    assert Run(v, [first]).0 == w;
    RunAppend(v, [first], mid);
    BusyIsStable(w, mid);
    var u := Run(v, [first] + mid).0;
    assert u.state != Inactive;
    RunAppend(v, [first] + mid, [second]);
    assert Run(u, [second]).1 == [Step(u, second).1];
  }

  /**
   * The send-failure round trip: a message given to a send that starts is
   * handed back, as the very same message, by an error completion of that
   * send, however many refused calls came in between.
   */
  lemma {:induction false} FailedSendReturnsMessage(
    v: View, ep: Endpoint, m: Message, mid: seq<Event>, rv: CInt, incoming: Option<Message>)
    requires Inv(v) && v.strong > 0 && v.state == Inactive
    requires NoCompletion(mid)
    requires Run(v, [Send(ep, m)] + mid).0.strong > 0
    requires rv != 0
    ensures Step(Run(v, [Send(ep, m)] + mid).0, Complete(rv, incoming)).1
            == Callback(Some(SendErr(m, Code(AsU32(rv)))))
  {
    var w := Step(v, Send(ep, m)).0;
    assert w.state == Sending && w.slot == Some(m) && w.pending == Some(SendOn(ep));
    assert Run(v, [Send(ep, m)]).0 == w;
    RunAppend(v, [Send(ep, m)], mid);
    BusyIsStable(w, mid);
  }

  /**
   * A callback sees `Inactive`: right after a completion that calls the user
   * callback, any start made from inside it is accepted.
   */
  lemma CallbackCanRestart(v: View, rv: CInt, incoming: Option<Message>, next: Event)
    requires Inv(v) && CanComplete(v, rv, incoming) && v.strong > 0
    requires IsStart(next)
    ensures Step(v, Complete(rv, incoming)).1.call.Some?
    ensures Step(Step(v, Complete(rv, incoming)).0, next).1 in {Started(Ok(())), SendStarted(Sent(()))}
  {
  }

  /**
   * The handle a callback is given keeps the `Inner` alive: even when the
   * last other handle is dropped while the callback runs, a start made from
   * inside the callback is accepted.
   */
  lemma CallbackHandleOutlivesLastDrop(v: View, rv: CInt, incoming: Option<Message>, next: Event)
    requires Inv(v) && CanComplete(v, rv, incoming) && v.strong == 1
    requires IsStart(next)
    ensures Run(v, [Complete(rv, incoming), Drop]).0.strong == 1
    ensures Run(v, [Complete(rv, incoming), Drop, next]).1[2] in {Started(Ok(())), SendStarted(Sent(()))}
  {
    var w := Step(Step(v, Complete(rv, incoming)).0, Drop).0;
    assert Run(v, [Complete(rv, incoming), Drop]).0 == w by {
      assert [Complete(rv, incoming), Drop][1..] == [Drop];
      assert [Drop][1..] == [];
    }
    RunAppend(v, [Complete(rv, incoming), Drop], [next]);
    assert [Complete(rv, incoming), Drop] + [next] == [Complete(rv, incoming), Drop, next];
    assert Run(w, [next]).1 == [Step(w, next).1];
  }

  function Busy(v: View): nat
  {
    if v.state == Inactive then 0 else 1
  }

  /** The number of starts the replies report as accepted. */
  function Accepted(reps: seq<Reply>): nat
  {
    if reps == [] then 0
    else (if reps[0] in {Started(Ok(())), SendStarted(Sent(()))} then 1 else 0) + Accepted(reps[1..])
  }

  /** The number of times the user callback was called. */
  function Delivered(reps: seq<Reply>): nat
  {
    if reps == [] then 0
    else (if reps[0].Callback? && reps[0].call.Some? then 1 else 0) + Delivered(reps[1..])
  }

  /** Some handle (a clone, or the one a callback holds) exists before every event of the run. */
  ghost predicate Alive(v: View, evs: seq<Event>)
    requires Inv(v)
    decreases |evs|
  {
    evs != [] ==> v.strong > 0 && Alive(Step(v, evs[0]).0, evs[1..])
  }

  /**
   * Exactly once: while a handle is alive, every accepted start is matched
   * by exactly one callback, except the one operation that may still be
   * outstanding at either end of the run. Clones and drops may come and go.
   */
  lemma {:induction false} CallbackExactlyOnce(v: View, evs: seq<Event>)
    requires Inv(v) && Alive(v, evs)
    ensures Accepted(Run(v, evs).1) + Busy(v) == Delivered(Run(v, evs).1) + Busy(Run(v, evs).0)
    decreases |evs|
  {
    if evs != [] {
      var (w, rep) := Step(v, evs[0]);
      CallbackExactlyOnce(w, evs[1..]);
      var reps := Run(v, evs).1;
      assert reps[0] == rep && reps[1..] == Run(w, evs[1..]).1;
    }
  }
}
