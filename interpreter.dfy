/**
 * The console's session controller (`InterpreterWrapper`) and the parts of
 * its window (`InterpreterGui`) that drive it: numbering and recording each
 * submission, sending it to the worker, locking the input and polling for
 * replies until the worker reports completion, and re-inserting earlier
 * submissions into the input box. Widgets are reduced to the transcript of
 * entries they display.
 */
module Interpreter {
  import opened Wrappers
  import opened PyStr
  import opened Protocol
  import opened CodeInput

  /** One widget appended to the output window. */
  datatype Entry =
    | Input(text: string, index: nat)          // an InputLabel for a submission
    | Output(text: string, stream: Stream)     // an OutputLabel for a chunk of output
    | Break                                    // a BreakMarker after a completed submission

  /** The history of submissions as `inputs` holds it: submission `i` under key `i`. */
  ghost function History(texts: seq<string>): map<nat, string>
  {
    map i: nat | i < |texts| :: texts[i]
  }

  /** `insert_previous_code` as a function of the input box's text: with
      `clear` set or an empty box the box receives `code` alone, otherwise
      `code` goes on a new line after what is there. */
  function WithPreviousCode(current: string, code: string, clear: bool): (r: string)
    ensures clear || current == "" ==> r == code
    ensures !clear && current != "" ==> Split(r, '\n') == Split(current, '\n') + Split(code, '\n')
    ensures |code| <= |r| && r[|r| - |code|..] == code
  {
    var base := if clear then "" else current;
    if base == "" then code
    else
      SplitConcat(base, code, '\n');
      base + "\n" + code
  }

  /** The console window: the input box, the controller, the lock on the
      input and the transcript shown in the output window. */
  class InterpreterGui {
    const codeInput: InterpreterInput
    var interpreter: InterpreterWrapper?
    var lockInput: bool
    var transcript: seq<Entry>

    /** The window owns a controller that points back at it, and the input is
        locked exactly while the controller is polling for replies. */
    ghost predicate Valid()
      reads this, interpreter
    {
      interpreter != null && interpreter.gui == this && interpreter.Valid()
      && (lockInput <==> interpreter.listeners > 0)
    }

    constructor ()
      ensures Valid() && fresh(interpreter) && fresh(codeInput)
      ensures interpreter != null && interpreter.inputIndex == 0 && interpreter.inputs == map[]
      ensures interpreter.submitted == [] && interpreter.sent == [] && interpreter.listeners == 0
      ensures !lockInput && transcript == [] && codeInput.text == ""
    {
      codeInput := new InterpreterInput();
      interpreter := null;
      lockInput := false;
      transcript := [];
      new;
      interpreter := new InterpreterWrapper(this);
    }

    /** `interpret_line_from_code_input`: an empty input box only flashes a
        failure; otherwise the box is cleared and its text submitted. */
    method InterpretLineFromCodeInput()
      requires Valid()
      modifies this, interpreter, codeInput`text
      ensures Valid() && interpreter == old(interpreter)
      ensures old(codeInput.text) == "" ==>
                unchanged(this) && unchanged(interpreter) && codeInput.text == ""
      ensures old(codeInput.text) != "" ==>
                var text, index := old(codeInput.text), old(interpreter.inputIndex);
                codeInput.text == ""
                && transcript == old(transcript) + [Input(text, index)]
                && interpreter.inputIndex == index + 1
                && interpreter.submitted == old(interpreter.submitted) + [text]
                && interpreter.inputs == old(interpreter.inputs)[index := text]
                && interpreter.sent == old(interpreter.sent) + [InterpretRequest(text)]
                && lockInput && interpreter.listeners == old(interpreter.listeners) + 1
    {
      var text := codeInput.text;
      if text == "" {
        return;
      }
      codeInput.text := "";
      var _ := InterpretLine(text);
    }

    /** `InterpreterGui.interpret_line`: submit `text` and show it in the
        transcript under the index it was given. The source method returns
        nothing; the result here is the controller's index, exposed so that
        `SubmitInOrder` can state the numbering. */
    method InterpretLine(text: string) returns (index: nat)
      requires Valid()
      modifies this, interpreter
      ensures Valid() && interpreter == old(interpreter)
      ensures index == old(interpreter.inputIndex) && interpreter.inputIndex == index + 1
      ensures interpreter.submitted == old(interpreter.submitted) + [text]
      ensures interpreter.inputs == old(interpreter.inputs)[index := text]
      ensures interpreter.sent == old(interpreter.sent) + [InterpretRequest(text)]
      ensures lockInput && interpreter.listeners == old(interpreter.listeners) + 1
      ensures transcript == old(transcript) + [Input(text, index)]
    {
      index := interpreter.InterpretLine(text);
      AddInputLabel(text, index);
    }

    method AddInputLabel(text: string, index: nat)
      modifies this`transcript
      ensures transcript == old(transcript) + [Input(text, index)]
    {
      transcript := transcript + [Input(text, index)];
    }

    method AddOutputLabel(text: string, stream: Stream)
      modifies this`transcript
      ensures transcript == old(transcript) + [Output(text, stream)]
    {
      transcript := transcript + [Output(text, stream)];
    }

    method AddBreak()
      modifies this`transcript
      ensures transcript == old(transcript) + [Break]
    {
      transcript := transcript + [Break];
    }

    /** `insert_previous_code`: put submission `index` back into the input
        box. An index never handed out raises KeyError, after the box has
        already been cleared when `clear` is set. */
    method InsertPreviousCode(index: nat, clear: bool) returns (found: bool)
      requires Valid()
      modifies codeInput`text
      ensures found <==> index in interpreter.inputs
      ensures found ==>
                codeInput.text == WithPreviousCode(old(codeInput.text), interpreter.inputs[index], clear)
      ensures !found ==> codeInput.text == if clear then "" else old(codeInput.text)
    {
      if clear {
        codeInput.text := "";
      }
      found := index in interpreter.inputs;
      if !found {
        return;
      }
      var code := interpreter.inputs[index];
      if codeInput.text == "" {
        codeInput.text := code;
      } else {
        codeInput.text := codeInput.text + "\n" + code;
      }
    }
  }

  /** The controller: the next submission number, every submission so far,
      the polling callbacks on the clock and the messages sent. */
  class InterpreterWrapper {
    const gui: InterpreterGui
    var inputIndex: nat
    var inputs: map<nat, string>
    /** How many `read_osc_queue` callbacks are scheduled on the clock; each
        submission schedules one more, and unscheduling removes them all. */
    var listeners: nat
    var sent: seq<Outgoing>
    /** Every text submitted, in order. */
    ghost var submitted: seq<string>

    /** Submissions are numbered from 0 and none is ever forgotten. */
    ghost predicate Valid()
      reads this
    {
      inputIndex == |submitted| && inputs == History(submitted)
    }

    constructor (gui: InterpreterGui)
      ensures this.gui == gui && Valid()
      ensures inputIndex == 0 && inputs == map[] && submitted == []
      ensures listeners == 0 && sent == []
    {
      this.gui := gui;
      inputIndex := 0;
      inputs := map[];
      listeners := 0;
      sent := [];
      submitted := [];
    }

    method BeginOscListen()
      modifies this`listeners
      ensures listeners == old(listeners) + 1
    {
      listeners := listeners + 1;
    }

    method EndOscListen()
      modifies this`listeners
      ensures listeners == 0
    {
      listeners := 0;
    }

    method SendOscMessage(message: string)
      modifies this`sent
      ensures sent == old(sent) + [InterpretRequest(message)]
    {
      sent := sent + [InterpretRequest(message)];
    }

    /** `InterpreterWrapper.interpret_line`: send `text` to the worker, lock
        the input, record `text` under the next number and start polling.
        Earlier history entries are kept as they were. */
    method InterpretLine(text: string) returns (index: nat)
      requires Valid()
      modifies this, gui`lockInput
      ensures Valid()
      ensures index == old(inputIndex) && inputIndex == index + 1
      ensures submitted == old(submitted) + [text]
      ensures index !in old(inputs) && inputs == old(inputs)[index := text]
      ensures forall i :: i in old(inputs) ==> i in inputs && inputs[i] == old(inputs)[i]
      ensures sent == old(sent) + [InterpretRequest(text)]
      ensures gui.lockInput && listeners == old(listeners) + 1
    {
      SendOscMessage(text);
      gui.lockInput := true;
      index := inputIndex;
      inputs := inputs[index := text];
      inputIndex := inputIndex + 1;
      submitted := submitted + [text];
      BeginOscListen();
    }

    /** `receive_osc_message`: react to one message from the worker. The
        completion message adds a break, unlocks the input and stops polling;
        an output chunk adds an output entry; anything else changes nothing,
        and a malformed message raises before changing anything. */
    method ReceiveOscMessage(message: seq<string>) returns (result: Result<Reaction, ReceiveError>)
      requires gui.interpreter == this && gui.Valid()
      modifies this`listeners, gui`lockInput, gui`transcript
      ensures gui.Valid()
      ensures result == Dispatch(message)
      ensures result == Ok(AddBreak) ==>
                gui.transcript == old(gui.transcript) + [Break] && !gui.lockInput && listeners == 0
      ensures result.Ok? && result.value.AddOutput? ==>
                gui.transcript == old(gui.transcript) + [Output(result.value.text, result.value.stream)]
                && gui.lockInput == old(gui.lockInput) && listeners == old(listeners)
      ensures result.Err? || result == Ok(Ignore) ==>
                gui.transcript == old(gui.transcript) && gui.lockInput == old(gui.lockInput)
                && listeners == old(listeners)
    {
      result := Dispatch(message);
      match result {
        case Ok(AddBreak) =>
          gui.AddBreak();
          gui.lockInput := false;
          EndOscListen();
        case Ok(AddOutput(text, stream)) =>
          gui.AddOutputLabel(text, stream);
        case _ =>
      }
    }
  }

  /** Successive submissions to a fresh console are numbered 0, 1, 2, ...,
      and afterwards the history maps each number to the text submitted
      under it. */
  method SubmitInOrder(texts: seq<string>) returns (indices: seq<nat>, history: map<nat, string>)
    ensures |indices| == |texts|
    ensures forall k :: 0 <= k < |texts| ==> indices[k] == k
    ensures forall k :: 0 <= k < |texts| ==> k in history && history[k] == texts[k]
    ensures forall i :: i in history ==> i < |texts|
  {
    var gui := new InterpreterGui();
    indices := [];
    var k := 0;
    while k < |texts|
      invariant 0 <= k <= |texts|
      invariant fresh(gui) && gui.Valid() && fresh(gui.interpreter)
      invariant gui.interpreter.submitted == texts[..k]
      invariant |indices| == k && forall j :: 0 <= j < k ==> indices[j] == j
    {
      var index := gui.InterpretLine(texts[k]);
      indices := indices + [index];
      k := k + 1;
    }
    assert texts[..k] == texts;
    history := gui.interpreter.inputs;
  }

  /** A whole exchange: `1+1` is typed and submitted, the worker prints `2`
      and reports completion. The transcript then shows the submission, its
      output and a break, the input is unlocked, polling has stopped, and
      the submission can still be re-inserted. */
  method OnePlusOneSession()
    returns (transcript: seq<Entry>, locked: bool, polling: bool, history: map<nat, string>,
             sent: seq<Outgoing>, reinserted: string)
    ensures transcript == [Input("1+1", 0), Output("2\n", Stdout), Break]
    ensures !locked && !polling
    ensures history == map[0 := "1+1"]
    ensures sent == [Outgoing("/interpret", ["1+1"], 3000)]
    ensures reinserted == "1+1"
  {
    var gui := new InterpreterGui();
    assert "1+1" != "\n";
    gui.codeInput.InsertText("1+1");
    gui.InterpretLineFromCodeInput();
    var output := gui.interpreter.ReceiveOscMessage(Packet(StdoutAddress, ",b", ["2\n"]));
    var done := gui.interpreter.ReceiveOscMessage(Packet(InterpreterAddress, ",b", [CompletedExec]));
    var found := gui.InsertPreviousCode(0, false);
    transcript, locked, polling := gui.transcript, gui.lockInput, gui.interpreter.listeners > 0;
    history, sent, reinserted := gui.interpreter.inputs, gui.interpreter.sent, gui.codeInput.text;
  }
}
