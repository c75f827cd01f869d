/**
 * Value types of the asynchronous I/O handle: the operation state and its
 * word encoding, errors, messages, the typed completion result and the two
 * pure conversions around it.
 */
module AioTypes {
  import opened CTypes

  datatype Option<T> = None | Some(value: T)

  /** `Result<T>`: the crate's result type, whose error is always an `Error`. */
  datatype Result<T> = Ok(value: T) | Err(error: Error)

  /** `SendResult<T>`: a refused send hands its message back beside the error. */
  datatype SendResult<T> = Sent(value: T) | Returned(msg: Message, error: Error)

  /**
   * The errors this core produces or passes on. `Code` stands for
   * `Error::from_code(code)`: the runtime's code kept as it is (error.rs,
   * which gives the well-known codes their own names, is not part of this model).
   */
  datatype Error =
    | TryAgain
    | IncorrectState
    | Unknown(unknown: U32)
    | Code(code: U32)

  /**
   * An NNG message. `id` is the address of the underlying `nng_msg`, so two
   * messages with equal `id` are the very same buffer, not merely equal bytes.
   */
  datatype Message = Message(id: nat, body: seq<Byte>)

  /** The operation an `Aio` is currently running, if any. */
  datatype State = Inactive | Sending | Receiving | Sleeping

  /** `State as usize`: the `#[repr(usize)]` discriminants 0 to 3. */
  function Discriminant(s: State): (w: Usize)
    ensures w < 4
  {
    match s
    case Inactive => 0
    case Sending => 1
    case Receiving => 2
    case Sleeping => 3
  }

  /**
   * `From<usize> for State`. Only the four discriminants are ever stored in
   * the state word; any other value is `unreachable!()`, hence the requires.
   */
  function Decode(w: Usize): (s: State)
    requires w < 4
    ensures Discriminant(s) == w
  {
    if w == Discriminant(Inactive) then Inactive
    else if w == Discriminant(Sending) then Sending
    else if w == Discriminant(Receiving) then Receiving
    else Sleeping
  }

  /** Decoding inverts the discriminant on every state. */
  lemma DecodeDiscriminant(s: State)
    ensures Decode(Discriminant(s)) == s
  {
  }

  /** The outcome of one operation, handed to the user callback. */
  datatype AioResult =
    | SendOk
    | SendErr(msg: Message, err: Error)
    | RecvOk(msg: Message)
    | RecvErr(err: Error)
    | SleepOk
    | SleepErr(err: Error)
  {
    /** The kind of operation this result reports on. */
    function Operation(): State
    {
      match this
      case SendOk => Sending
      case SendErr(_, _) => Sending
      case RecvOk(_) => Receiving
      case RecvErr(_) => Receiving
      case SleepOk => Sleeping
      case SleepErr(_) => Sleeping
    }

    predicate Succeeded()
    {
      SendOk? || RecvOk? || SleepOk?
    }

    /** Whether the result carries a message back to the application. */
    predicate CarriesMessage()
    {
      SendErr? || RecvOk?
    }
  }

  /**
   * `From<AioResult> for Result<Option<Message>>`: successes become `Ok`,
   * with the message only for a receive; every failure becomes `Err` with
   * its error, dropping the message a failed send carried.
   */
  function IntoResult(r: AioResult): (o: Result<Option<Message>>)
    ensures o.Ok? <==> r.Succeeded()
    ensures o.Ok? ==> (o.value.Some? <==> r.RecvOk?)
    ensures r.RecvOk? ==> o.value.value == r.msg
    ensures o.Err? ==> o.error == r.err
  {
    match r
    case SendOk => Ok(None)
    case SleepOk => Ok(None)
    case SendErr(_, e) => Err(e)
    case RecvErr(e) => Err(e)
    case SleepErr(e) => Err(e)
    case RecvOk(m) => Ok(Some(m))
  }

  /** `nng_aio_result(aiop) as u32`: the `c_int` code read as unsigned. */
  function AsU32(rv: CInt): (u: U32)
    ensures (u - rv) % 0x1_0000_0000 == 0
    ensures u == 0 <==> rv == 0
  {
    if rv < 0 then rv + 0x1_0000_0000 else rv
  }

  /** Whether completing in state `s` with code `rv` takes the message out of the slot. */
  predicate ReadsSlot(s: State, rv: U32)
  {
    (s == Sending && rv != 0) || (s == Receiving && rv == 0)
  }

  /**
   * What a completion must report: a result for the operation that was
   * running, a success exactly when the code is zero, the code as the error
   * of a failure, and the slot's message wherever a message is handed back.
   */
  predicate Describes(s: State, rv: U32, slot: Option<Message>, r: AioResult)
  {
    && r.Operation() == s
    && (r.Succeeded() <==> rv == 0)
    && (!r.Succeeded() ==> r.err == Code(rv))
    && (r.CarriesMessage() ==> slot.Some? && r.msg == slot.value)
  }

  /**
   * The `match (state, rv)` of the completion closure. `Inactive` is
   * unreachable there, and a missing message where one is read would make
   * `NonNull::new(msgp).unwrap()` panic, so both are excluded by requires.
   */
  function CompletionResult(s: State, rv: U32, slot: Option<Message>): (r: AioResult)
    requires s != Inactive
    requires ReadsSlot(s, rv) ==> slot.Some?
    ensures Describes(s, rv, slot, r)
  {
    match s
    case Sending => if rv == 0 then SendOk else SendErr(slot.value, Code(rv))
    case Receiving => if rv == 0 then RecvOk(slot.value) else RecvErr(Code(rv))
    case Sleeping => if rv == 0 then SleepOk else SleepErr(Code(rv))
  }

  /** `Describes` leaves no choice: the completion map is the only result it admits. */
  lemma CompletionDetermined(s: State, rv: U32, slot: Option<Message>, r: AioResult)
    requires s != Inactive
    requires ReadsSlot(s, rv) ==> slot.Some?
    requires Describes(s, rv, slot, r)
    ensures r == CompletionResult(s, rv, slot)
  {
  }

  /**
   * Seen through `IntoResult`, a completion fails exactly when the runtime's
   * code is non-zero, with that code as its error, and yields a message
   * exactly when a receive succeeded.
   */
  lemma CompletionAsResult(s: State, rv: U32, slot: Option<Message>)
    requires s != Inactive
    requires ReadsSlot(s, rv) ==> slot.Some?
    ensures IntoResult(CompletionResult(s, rv, slot)).Err? <==> rv != 0
    ensures rv != 0 ==> IntoResult(CompletionResult(s, rv, slot)) == Err(Code(rv))
    ensures rv == 0 && s == Receiving ==> IntoResult(CompletionResult(s, rv, slot)) == Ok(Some(slot.value))
    ensures rv == 0 && s != Receiving ==> IntoResult(CompletionResult(s, rv, slot)) == Ok(None)
  {
  }
}
