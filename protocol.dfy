/**
 * The OSC messages exchanged between the console GUI and the worker process
 * that executes submitted code, and how the GUI reads a received message.
 * Arguments are modelled as already-decoded text.
 */
module Protocol {
  import opened Wrappers

  /** Port the worker listens on; every `/interpret` message goes there. */
  const InterpreterPort: nat := 3000
  /** Port the GUI listens on for the worker's replies. */
  const ReceivePort: nat := 3001

  const InterpretAddress := "/interpret"
  const StdoutAddress := "/stdout"
  const StderrAddress := "/stderr"
  const InterpreterAddress := "/interpreter"
  /** First argument of the worker's end-of-submission message. */
  const CompletedExec := "completed_exec"

  /** The stream an output chunk came from. */
  datatype Stream = Stdout | Stderr

  /** A message the GUI sends: address, arguments and destination port. */
  datatype Outgoing = Outgoing(address: string, args: seq<string>, port: nat)

  /** What the GUI does in answer to one received message. */
  datatype Reaction = AddBreak | AddOutput(text: string, stream: Stream) | Ignore

  /** The IndexError a malformed message raises: no address (`message[0]`),
      or no first body argument (`body[0]`) on one of the three bound
      addresses. */
  datatype ReceiveError = MissingAddress | MissingBody

  /** The message `send_osc_message` sends for a submission of `text`. */
  function InterpretRequest(text: string): Outgoing
  {
    Outgoing(InterpretAddress, [text], InterpreterPort)
  }

  /** A received message as the OSC library hands it over: the address, the
      type-tag string, then the arguments. */
  function Packet(address: string, typeTags: string, args: seq<string>): seq<string>
  {
    [address, typeTags] + args
  }

  /** The addresses the GUI binds its receive callback to. */
  predicate IsBound(address: string)
  {
    address == InterpreterAddress || address == StdoutAddress || address == StderrAddress
  }

  /** `receive_osc_message` minus its effects: which reaction a received
      message calls for, or which IndexError it raises. The body is the
      message from position 2 on. */
  function Dispatch(message: seq<string>): (r: Result<Reaction, ReceiveError>)
    ensures r == Err(MissingAddress) <==> |message| == 0
    ensures r == Err(MissingBody) <==> |message| > 0 && IsBound(message[0]) && |message| < 3
    ensures r == Ok(AddBreak) <==>
              |message| >= 3 && message[0] == InterpreterAddress && message[2] == CompletedExec
    ensures r.Ok? && r.value.AddOutput? <==> |message| >= 3 && message[0] in {StdoutAddress, StderrAddress}
    ensures r.Ok? && r.value.AddOutput? ==>
              r.value.text == message[2]
              && (r.value.stream == Stdout <==> message[0] == StdoutAddress)
  {
    if |message| == 0 then Err(MissingAddress)
    else
      var address := message[0];
      var body := if |message| >= 2 then message[2..] else [];
      if address == InterpreterAddress then
        if |body| == 0 then Err(MissingBody)
        else if body[0] == CompletedExec then Ok(AddBreak)
        else Ok(Ignore)
      else if address == StdoutAddress then
        if |body| == 0 then Err(MissingBody) else Ok(AddOutput(body[0], Stdout))
      else if address == StderrAddress then
        if |body| == 0 then Err(MissingBody) else Ok(AddOutput(body[0], Stderr))
      else Ok(Ignore)
  }

  /** The worker's side of the protocol, read back by the GUI: an output
      chunk on `/stdout` or `/stderr` becomes that text on that stream, the
      completion message becomes a break, and any message on an address the
      GUI did not bind, or an `/interpreter` message about anything else, is
      ignored whatever its arguments. */
  lemma WorkerMessagesRoundTrip(typeTags: string, text: string, rest: seq<string>)
    ensures Dispatch(Packet(StdoutAddress, typeTags, [text] + rest)) == Ok(AddOutput(text, Stdout))
    ensures Dispatch(Packet(StderrAddress, typeTags, [text] + rest)) == Ok(AddOutput(text, Stderr))
    ensures Dispatch(Packet(InterpreterAddress, typeTags, [CompletedExec] + rest)) == Ok(AddBreak)
    ensures text != CompletedExec ==>
              Dispatch(Packet(InterpreterAddress, typeTags, [text] + rest)) == Ok(Ignore)
    ensures forall address, args :: !IsBound(address) ==>
              Dispatch(Packet(address, typeTags, args)) == Ok(Ignore)
  {
  }
}
