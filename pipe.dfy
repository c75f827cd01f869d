/** Pipe events reported by NNG's pipe notifications. */
module Pipe {
  import opened CTypes

  /** The event codes of `nng_pipe_ev`, as NNG's header numbers them. */
  const NNG_PIPE_EV_ADD_PRE: CInt := 0
  const NNG_PIPE_EV_ADD_POST: CInt := 1
  const NNG_PIPE_EV_REM_POST: CInt := 2

  datatype PipeEvent = AddPre | AddPost | RemovePost | Unknown(code: CInt)

  /**
   * `PipeEvent::from_code`: total over `c_int`; the three known codes get
   * their own variant and every other code is kept inside `Unknown`.
   */
  function FromCode(event: CInt): (e: PipeEvent)
    ensures e == AddPre <==> event == NNG_PIPE_EV_ADD_PRE
    ensures e == AddPost <==> event == NNG_PIPE_EV_ADD_POST
    ensures e == RemovePost <==> event == NNG_PIPE_EV_REM_POST
    ensures e.Unknown? ==> e.code == event
  {
    if event == NNG_PIPE_EV_ADD_PRE then AddPre
    else if event == NNG_PIPE_EV_ADD_POST then AddPost
    else if event == NNG_PIPE_EV_REM_POST then RemovePost
    else Unknown(event)
  }

  /** The code NNG reports for an event. */
  function ToCode(e: PipeEvent): CInt
  {
    match e
    case AddPre => NNG_PIPE_EV_ADD_PRE
    case AddPost => NNG_PIPE_EV_ADD_POST
    case RemovePost => NNG_PIPE_EV_REM_POST
    case Unknown(n) => n
  }

  /** No code is lost: decoding keeps enough to give the code back, so it is injective. */
  lemma CodeRoundTrip(event: CInt)
    ensures ToCode(FromCode(event)) == event
  {
  }

  /** Every event `from_code` can produce comes back from its own code. */
  lemma EventRoundTrip(e: PipeEvent)
    requires e.Unknown? ==> e.code !in {NNG_PIPE_EV_ADD_PRE, NNG_PIPE_EV_ADD_POST, NNG_PIPE_EV_REM_POST}
    ensures FromCode(ToCode(e)) == e
  {
  }
}
