/**
 * The `Aio` handle itself: the shared `Inner` with its atomic state word,
 * the methods that start operations by compare-and-swap, the completion
 * closure, and the foreign `nng_aio` object as an abstract record. Every
 * method is proved against its step function in module AioSpec.
 */
module AioHandle {
  import opened CTypes
  import opened AioTypes
  import opened AioSpec

  /**
   * The runtime's `nng_aio` object, reduced to what the binding hands it
   * and reads back: the message slot, the last result code, the timeout and
   * the request it is working on. `addr` is its address.
   */
  class NngAio {
    const addr: nat
    var msg: Option<Message>
    var result: CInt
    var timeout: int
    var pending: Option<Request>

    /** A freshly allocated object: no message, no request, the runtime's default timeout. */
    constructor (addr: nat, defaultTimeout: int)
      ensures this.addr == addr && msg == None && result == 0
      ensures timeout == defaultTimeout && pending == None
    {
      this.addr := addr;
      msg := None;
      result := 0;
      timeout := defaultTimeout;
      pending := None;
    }

    /** `nng_aio_set_msg`. */
    method SetMsg(m: Message)
      modifies this`msg
      ensures msg == Some(m)
    {
      msg := Some(m);
    }

    /** `nng_aio_set_timeout`. */
    method SetTimeout(ms: int)
      modifies this`timeout
      ensures timeout == ms
    {
      timeout := ms;
    }

    /** `nng_sleep_aio`, `nng_send_aio`, `nng_recv_aio`, `nng_ctx_send`, `nng_ctx_recv`. */
    method Submit(q: Request)
      modifies this`pending
      ensures pending == Some(q)
    {
      pending := Some(q);
    }

    /**
     * The runtime finishing its request with code `rv`; a successful receive
     * leaves the received message in the slot.
     */
    method Finish(rv: CInt, incoming: Option<Message>)
      requires pending.Some?
      modifies this`result, this`pending, this`msg
      ensures result == rv && pending == None
      ensures msg == if old(pending).value.RecvOn? && rv == 0 then incoming else old(msg)
    {
      if pending.value.RecvOn? && rv == 0 {
        msg := incoming;
      }
      result := rv;
      pending := None;
    }
  }

  /** The part of an `Aio` shared by all its clones and weakly by its callback. */
  class Inner {
    var handle: NngAio?
    var state: Usize
    var strong: nat

    /** The object invariant: allocated, a valid state word, a reachable view. */
    ghost predicate Valid()
      reads this, handle
    {
      handle != null && state < 4 && Inv(View())
    }

    function View(): View
      reads this, handle
      requires handle != null && state < 4
    {
      AioSpec.View(Decode(state), handle.msg, handle.result, handle.timeout, handle.pending, strong)
    }

    /** `AtomicUsize::compare_and_swap`: one indivisible step that returns the previous word. */
    method CompareAndSwap(expected: Usize, desired: Usize) returns (prev: Usize)
      modifies this`state
      ensures prev == old(state)
      ensures state == if prev == expected then desired else prev
    {
      prev := state;
      if state == expected {
        state := desired;
      }
    }

    /**
     * The `bounce` closure built in `Aio::new`. The returned value is the
     * call made to the user callback, if any: the handle the upgrade made
     * (one more strong owner, dropped when the callback returns) and the
     * result. It is returned only once the word holds `Inactive`, which is
     * what the callback then sees.
     */
    method Bounce() returns (call: Option<(Aio, AioResult)>)
      requires handle != null && state < 4
      requires strong > 0 ==> Decode(state) != Inactive
      requires strong > 0 ==> ReadsSlot(Decode(state), AsU32(handle.result)) ==> handle.msg.Some?
      modifies this`state, this`strong
      ensures old(strong) == 0 ==> call == None && state == old(state) && strong == 0
      ensures old(strong) > 0 ==> state == Discriminant(Inactive) && strong == old(strong) + 1
      ensures old(strong) > 0 ==> call.Some? && fresh(call.value.0) && call.value.0.inner == this
      ensures old(strong) > 0 ==>
        call.value.1 == CompletionResult(Decode(old(state)), AsU32(handle.result), handle.msg)
    {
      // weak.upgrade()
      if strong == 0 {
        return None;
      }
      strong := strong + 1;
      var cbAio := new Aio.Wrap(this);
      var s := Decode(state);
      var rv := AsU32(handle.result);
      var res := CompletionResult(s, rv, handle.msg);
      state := Discriminant(Inactive);
      call := Some((cbAio, res));
    }
  }

  /**
   * The runtime finishes the pending request and invokes the trampoline,
   * which runs `bounce`. Proved against `Step` on a completion event.
   */
  method Deliver(inner: Inner, rv: CInt, incoming: Option<Message>) returns (call: Option<(Aio, AioResult)>)
    requires inner.Valid() && CanComplete(inner.View(), rv, incoming)
    modifies inner, inner.handle
    ensures inner.Valid() && inner.handle == old(inner.handle)
    ensures call.Some? ==> fresh(call.value.0) && call.value.0.inner == inner && call.value.0.Valid()
    ensures (inner.View(), Callback(if call.Some? then Some(call.value.1) else None))
            == Step(old(inner.View()), Complete(rv, incoming))
  {
    inner.handle.Finish(rv, incoming);
    call := inner.Bounce();
  }

  /** A user-facing handle; clones share one `Inner`. */
  class Aio {
    const inner: Inner

    ghost predicate Valid()
      reads this, inner, inner.handle
    {
      inner.Valid() && inner.strong > 0
    }

    constructor Wrap(inner: Inner)
      ensures this.inner == inner
    {
      this.inner := inner;
    }

    /**
     * `Aio::new`, given what `nng_aio_alloc` returned: its code and the object
     * it wrote out, if any. A failure code alongside an object is refused
     * with `Unknown(0)`; any other failure code is reported as that error
     * (`validate_ptr`, which nng never lets see a null object with code zero).
     */
    static method New(rv: CInt, obj: NngAio?) returns (r: Result<Aio>)
      requires rv == 0 ==> obj != null && obj.pending == None
      ensures r.Ok? <==> rv == 0
      ensures rv != 0 && obj != null ==> r == Err(Unknown(0))
      ensures rv != 0 && obj == null ==> r == Err(Code(AsU32(rv)))
      ensures r.Ok? ==> fresh(r.value) && fresh(r.value.inner) && r.value.Valid()
      ensures r.Ok? ==> r.value.inner.handle == obj && Initial(r.value.inner.View())
    {
      var inner := new Inner;
      inner.handle := null;
      inner.state := Discriminant(Inactive);
      inner.strong := 1;
      if rv != 0 && obj != null {
        return Err(Unknown(0));
      }
      if rv != 0 {
        return Err(Code(AsU32(rv)));
      }
      inner.handle := obj;
      var aio := new Aio.Wrap(inner);
      r := Ok(aio);
    }

    /** `Aio::set_timeout`; `ms` is the value `duration_to_nng` produced. */
    method SetTimeout(ms: int) returns (r: Result<()>)
      requires Valid()
      modifies inner, inner.handle
      ensures Valid() && inner.handle == old(inner.handle)
      ensures (inner.View(), r) == SetTimeoutStep(old(inner.View()), ms)
    {
      var sleeping := Discriminant(Sleeping);
      var inactive := Discriminant(Inactive);
      var oldState := inner.CompareAndSwap(inactive, sleeping);
      if oldState == inactive {
        inner.handle.SetTimeout(ms);
        inner.state := inactive;
        r := Ok(());
      } else {
        r := Err(IncorrectState);
      }
    }

    /** `Aio::sleep`; `ms` is the value `duration_to_nng` produced. */
    method Sleep(ms: int) returns (r: Result<()>)
      requires Valid()
      modifies inner, inner.handle
      ensures Valid() && inner.handle == old(inner.handle)
      ensures (inner.View(), r) == SleepStep(old(inner.View()), ms)
    {
      var sleeping := Discriminant(Sleeping);
      var inactive := Discriminant(Inactive);
      var oldState := inner.CompareAndSwap(inactive, sleeping);
      if oldState == inactive {
        inner.handle.Submit(SleepFor(ms));
        r := Ok(());
      } else {
        r := Err(TryAgain);
      }
    }

    /** The body shared by `send_socket` and `send_ctx`. */
    method StartSend(ep: Endpoint, msg: Message) returns (r: SendResult<()>)
      requires Valid()
      modifies inner, inner.handle
      ensures Valid() && inner.handle == old(inner.handle)
      ensures (inner.View(), r) == SendStep(old(inner.View()), ep, msg)
    {
      var inactive := Discriminant(Inactive);
      var sending := Discriminant(Sending);
      var oldState := inner.CompareAndSwap(inactive, sending);
      if oldState == inactive {
        inner.handle.SetMsg(msg);
        inner.handle.Submit(SendOn(ep));
        r := Sent(());
      } else {
        r := Returned(msg, TryAgain);
      }
    }

    /** The body shared by `recv_socket` and `recv_ctx`. */
    method StartRecv(ep: Endpoint) returns (r: Result<()>)
      requires Valid()
      modifies inner, inner.handle
      ensures Valid() && inner.handle == old(inner.handle)
      ensures (inner.View(), r) == RecvStep(old(inner.View()), ep)
    {
      var inactive := Discriminant(Inactive);
      var receiving := Discriminant(Receiving);
      var oldState := inner.CompareAndSwap(inactive, receiving);
      if oldState == inactive {
        inner.handle.Submit(RecvOn(ep));
        r := Ok(());
      } else {
        r := Err(TryAgain);
      }
    }

    /** `Aio::send_socket`: send `msg` on the socket whose handle is `socket`. */
    method SendSocket(socket: nat, msg: Message) returns (r: SendResult<()>)
      requires Valid()
      modifies inner, inner.handle
      ensures Valid() && inner.handle == old(inner.handle)
      ensures (inner.View(), r) == SendStep(old(inner.View()), Socket(socket), msg)
    {
      r := StartSend(Socket(socket), msg);
    }

    /** `Aio::recv_socket`. */
    method RecvSocket(socket: nat) returns (r: Result<()>)
      requires Valid()
      modifies inner, inner.handle
      ensures Valid() && inner.handle == old(inner.handle)
      ensures (inner.View(), r) == RecvStep(old(inner.View()), Socket(socket))
    {
      r := StartRecv(Socket(socket));
    }

    /** `Aio::send_ctx`: send `msg` on the context whose handle is `ctx`. */
    method SendCtx(ctx: nat, msg: Message) returns (r: SendResult<()>)
      requires Valid()
      modifies inner, inner.handle
      ensures Valid() && inner.handle == old(inner.handle)
      ensures (inner.View(), r) == SendStep(old(inner.View()), Context(ctx), msg)
    {
      r := StartSend(Context(ctx), msg);
    }

    /** `Aio::recv_ctx`. */
    method RecvCtx(ctx: nat) returns (r: Result<()>)
      requires Valid()
      modifies inner, inner.handle
      ensures Valid() && inner.handle == old(inner.handle)
      ensures (inner.View(), r) == RecvStep(old(inner.View()), Context(ctx))
    {
      r := StartRecv(Context(ctx));
    }

    /** The derived `Clone`: another handle on the same `Inner`. */
    method Clone() returns (c: Aio)
      requires Valid()
      modifies inner`strong
      ensures fresh(c) && c.inner == inner && Valid() && c.Valid()
      ensures inner.View() == old(inner.View()).(strong := old(inner.strong) + 1)
    {
      inner.strong := inner.strong + 1;
      c := new Aio.Wrap(inner);
    }

    /**
     * Dropping this handle. When it was the last one, `Drop for Inner`
     * stops and frees the runtime object; that part is not modelled.
     */
    method Drop()
      requires Valid()
      modifies inner`strong
      ensures inner.Valid()
      ensures inner.View() == old(inner.View()).(strong := old(inner.strong) - 1)
    {
      inner.strong := inner.strong - 1;
    }

    /**
     * `PartialEq for Aio`: the same runtime object. Handles sharing an
     * `Inner` (clones, the callback's handle) are equal, and equal handles
     * have the same runtime object address.
     */
    predicate Eq(other: Aio): (b: bool)
      reads this, inner, other, other.inner
      ensures inner == other.inner ==> b
      ensures b && inner.handle != null ==> other.inner.handle != null && other.inner.handle.addr == inner.handle.addr
    {
      inner.handle == other.inner.handle
    }

    /**
     * `Hash for Aio`: what is fed to the hasher, the address of the runtime
     * object, which stays the same for the life of the handle.
     */
    function HashKey(): (k: nat)
      reads this, inner, inner.handle
      requires inner.handle != null
      ensures k == inner.handle.addr
    {
      inner.handle.addr
    }
  }

  /** `Eq` and `Hash` agree, as the standard library requires of them. */
  lemma EqualHandlesHashAlike(a: Aio, b: Aio)
    requires a.inner.handle != null && b.inner.handle != null
    requires a.Eq(b)
    ensures a.HashKey() == b.HashKey()
  {
  }

  /** A clone is equal to the handle it was cloned from, and hashes alike. */
  method CloneIsEqual(a: Aio) returns (c: Aio)
    requires a.Valid()
    modifies a.inner
    ensures a.Valid() && c.Valid()
    ensures c.Eq(a) && a.Eq(c) && c.HashKey() == a.HashKey()
  {
    c := a.Clone();
  }

  /**
   * Two usage stories: a sleep, its completion and a sleep started right
   * after it; and two sends back to back, the second refused with its own
   * message handed back, then failed and handed back again by the callback.
   */
  method Scenario(m1: Message, m2: Message)
  {
    var raw := new NngAio(1, -1);
    var created := Aio.New(0, raw);
    var aio := created.value;

    var s := aio.Sleep(50);
    assert s == Ok(());
    var call := Deliver(aio.inner, 0, None);
    assert call.Some? && call.value.1 == SleepOk;
    var cbAio := call.value.0;
    // started from inside the callback, on the handle it was given
    s := cbAio.Sleep(50);
    assert s == Ok(());
    cbAio.Drop();
    call := Deliver(aio.inner, 0, None);
    call.value.0.Drop();

    var sent := aio.SendSocket(7, m1);
    assert sent == Sent(());
    sent := aio.SendSocket(7, m2);
    assert sent == Returned(m2, TryAgain);
    call := Deliver(aio.inner, 5, None);
    assert call.Some? && call.value.1 == SendErr(m1, Code(5));
  }
}
