# Interactive console front end: session controller and input rules

This project models the core of `pyde/interpreter.py`, the GUI side of a
mobile/desktop Python console. The GUI sends each block of code to a separate
worker process over OSC (Open Sound Control) datagrams and shows the worker's
replies in a transcript.

- **Session controller** (`InterpreterWrapper`, module `Interpreter`). It
  numbers each submission from 0 and keeps every submission in an
  append-only history. It sends one `/interpret` message per submission,
  locks the window's input and schedules a callback that polls for replies.
  On `/stdout` and `/stderr` it appends output to the transcript. On
  `/interpreter completed_exec` it appends a break, unlocks the input and
  unschedules polling.
- **Console window** (`InterpreterGui`). It submits the input box's text
  unless the box is empty, appends transcript entries, and re-inserts an
  earlier submission into the input box (`insert_previous_code`).
- **Input box** (`InterpreterInput`, module `CodeInput`). After a newline is
  typed, it inserts one space for each leading whitespace character of the
  previous line, so a tab becomes one space. It adds four more spaces when
  that line ends with a colon. It adds nothing at all when that
  line is empty or ends in whitespace, because the IndexError raised there is
  swallowed.
- **Protocol** (module `Protocol`). Holds the addresses, the ports (worker
  3000, GUI 3001) and the reading of a received message, `Dispatch`. A
  received message is the address, the type-tag string and then the
  arguments, as the OSC library passes it.
- **Python string operations** (module `PyStr`). Holds `split`, `join`,
  `strip`, `lstrip`, `rstrip`, `isspace` and `s[-1]`, with the properties the
  two input rules need. `SplitJoined`, `SplitConsStep`, `SplitCons` and
  `ExtendFirst` are helper lemmas for the proof of `SplitConcat`.

The windows and the controller are classes whose methods update their fields
in place. The indentation count and the re-insertion text are pure functions
that those methods use.

Behaviour of the code worth knowing when reading the model:
- The empty-input check is in the window's `interpret_line_from_code_input`.
  The controller's `interpret_line` submits any text, including the empty one.
- Nothing checks the lock before a submission.
- Each submission schedules one more polling callback. Polling is a count of
  scheduled callbacks (`listeners`), not a flag. `Clock.unschedule` removes
  them all. The input is locked exactly when at least one is scheduled
  (`InterpreterGui.Valid`).
- A lookup of an unknown index is not a separate operation. It is the
  KeyError of `insert_previous_code`, which has already cleared the box when
  `clear` is set.
- Auto-indentation (`InterpreterInput.insert_text`) is modelled.

## Model

| member | source | states |
|---|---|---|
| `PyStr.IsSpaceIsPythonWhitespace` | pyde/interpreter.py:78-80 | The whitespace test behind `strip()` and `lstrip()` holds of exactly the 29 code points Python's `str.isspace` accepts. |
| `PyStr.Split` | pyde/interpreter.py:78 | `text.split('\n')` always has at least one piece. |
| `PyStr.SplitSingle` | pyde/interpreter.py:78 | A text without the separator is its own single piece, so `[-2]` of it raises. A text with a separator has at least two pieces. |
| `PyStr.SplitPiecesFree` | pyde/interpreter.py:78 | No piece of a split holds the separator. |
| `PyStr.JoinSplit` | pyde/interpreter.py:78 | Joining the pieces of a split with the separator gives back the original text. |
| `PyStr.SplitJoin` | pyde/interpreter.py:78 | Splitting a join of separator-free pieces gives back those pieces, so split and join are inverse. |
| `PyStr.SplitConcat` | pyde/interpreter.py:159 | The lines of `a + '\n' + b` are the lines of `a` followed by the lines of `b`. |
| `PyStr.LastOfSplit` | pyde/interpreter.py:78-79 | The last piece of a split is the longest separator-free suffix of the text. |
| `PyStr.LStrip` | pyde/interpreter.py:80 | `lstrip()` returns a suffix of the line that is empty or opens with a non-whitespace character. Everything it removed is whitespace. |
| `PyStr.RStrip` | pyde/interpreter.py:78 | `rstrip()` returns a prefix of the text that is empty or ends in a non-whitespace character. Everything it removed is whitespace. |
| `PyStr.StripChar` | pyde/interpreter.py:78 | `strip()` of a single character gives the empty string when the character is whitespace, and the character itself otherwise. |
| `PyStr.LeadingSpaces` | pyde/interpreter.py:80 | `len(line) - len(line.lstrip())` is the length of the whitespace run that opens the line: every character before it is whitespace, and the character at it is not. |
| `PyStr.Spaces` | pyde/interpreter.py:81-82 | The inserted indentation is exactly `n` characters, all of them spaces. |
| `CodeInput.ColonTestMeaning` | pyde/interpreter.py:78 | `ColonTest` evaluates `previous_line[-1].strip()[-1] == ':'` literally, with `s[-1]` and `strip()`. It raises IndexError exactly when the line is empty or ends in whitespace. Otherwise it holds exactly when the line ends in `:`. |
| `CodeInput.LineIndent` | pyde/interpreter.py:77-87 | Computed from the literal colon test. No indentation when the test raises, which is exactly when the previous line P is empty or ends in whitespace. Otherwise a final `:` owes L+4 spaces and any other final character owes L, where L is P's count of leading whitespace characters. |
| `CodeInput.NewlineIndent` | pyde/interpreter.py:77-87 | A buffer without a newline has no second-to-last line, so the rule raises. With a newline, the indentation is the one owed to the second-to-last line of `text.split('\n')`. |
| `CodeInput.IndentAfterEnter` | pyde/interpreter.py:78-84 | After Enter, the indentation is the one owed to the line the cursor was on. |
| `CodeInput.PreviousLine` | pyde/interpreter.py:78-79 | After a newline is appended, the second-to-last line of the buffer exists and is the line the cursor was on before. |
| `CodeInput.NewlineIndentRule` | pyde/interpreter.py:74-89 | Let the previous line be P and its leading whitespace be L. If P ends in `:`, L+4 spaces are inserted. If P ends in another non-whitespace character, L spaces are inserted. If P is empty or ends in whitespace, the IndexError path inserts none. |
| `CodeInput.IndentedLine` | pyde/interpreter.py:81-87 | After a newline and `n` inserted spaces, the current line is exactly those spaces, and its leading whitespace counts `n`. |
| `CodeInput.BlankLineGetsNoIndent` | pyde/interpreter.py:76-89 | Pressing Enter again on a line holding only auto-inserted indentation indents the next line by nothing. |
| `CodeInput.InterpreterInput.constructor` | pyde/interpreter.py:68-72 | A new input box holds no text. |
| `CodeInput.InterpreterInput.InsertText` | pyde/interpreter.py:74-89 | Text other than a lone newline is appended and nothing more is inserted, which covers the recursive single-space calls. A newline is followed by exactly `AddedSpaces` spaces: the computed indentation, or none when the IndexError is swallowed. |
| `Protocol.Dispatch` | pyde/interpreter.py:215-230 | A message with no address raises. On a bound address (`IsBound`: `/interpreter`, `/stdout` or `/stderr`), an empty body raises. `/interpreter` with first body argument `completed_exec` (and only that) calls for a break. `/stdout` and `/stderr` (and only they) add their first body argument on that stream. Everything else is ignored. |
| `Protocol.WorkerMessagesRoundTrip` | pyde/interpreter.py:202-204 | Worker output on `/stdout` or `/stderr` reads back as that text on that stream, and the completion message reads back as a break. Other `/interpreter` messages, and any unbound address, are ignored. |
| `Interpreter.WithPreviousCode` | pyde/interpreter.py:152-159 | With `clear` or an empty box, the box becomes exactly the stored code. Otherwise the lines of the result are the old lines followed by the code's lines. The result always ends with the code. |
| `Interpreter.InterpreterGui.constructor` | pyde/interpreter.py:112-117 | A new window has an unlocked empty input, an empty transcript, and a controller at index 0 with empty history, nothing sent and no polling. |
| `Interpreter.InterpreterGui.InterpretLineFromCodeInput` | pyde/interpreter.py:119-126 | An empty box changes nothing and sends nothing. A non-empty box is cleared, and its text is submitted, recorded under the next index and shown as an Input entry with that index. |
| `Interpreter.InterpreterGui.InterpretLine` | pyde/interpreter.py:133-135 | The text is submitted and an Input entry with the returned index is appended to the transcript. |
| `Interpreter.InterpreterGui.AddInputLabel` | pyde/interpreter.py:137-140 | Appends exactly one Input entry. |
| `Interpreter.InterpreterGui.AddOutputLabel` | pyde/interpreter.py:142-145 | Appends exactly one Output entry with its stream. |
| `Interpreter.InterpreterGui.AddBreak` | pyde/interpreter.py:147-150 | Appends exactly one Break entry. |
| `Interpreter.InterpreterGui.InsertPreviousCode` | pyde/interpreter.py:152-159 | A known index sets the box to the re-insertion text. An unknown index fails, leaving the box cleared if `clear` was set and unchanged otherwise. |
| `Interpreter.InterpreterWrapper.constructor` | pyde/interpreter.py:168-179 | The counter starts at 0, with empty history, nothing sent and no polling. |
| `Interpreter.InterpreterWrapper.BeginOscListen` | pyde/interpreter.py:206-207 | Schedules one more polling callback. |
| `Interpreter.InterpreterWrapper.EndOscListen` | pyde/interpreter.py:209-210 | Unschedules every polling callback. |
| `Interpreter.InterpreterWrapper.SendOscMessage` | pyde/interpreter.py:241-244 | Appends exactly one message, `InterpretRequest`: address `/interpret`, the text as its single argument, port 3000. |
| `Interpreter.InterpreterWrapper.InterpretLine` | pyde/interpreter.py:232-239 | Returns the counter from before the call and increases it by one. Stores the text under that fresh index and keeps every earlier entry. Sends one `/interpret` message, locks the input and schedules polling. |
| `Interpreter.InterpreterWrapper.ReceiveOscMessage` | pyde/interpreter.py:215-230 | Completion appends a Break, unlocks the input and stops polling. Output appends an Output entry and leaves the lock and polling alone. Anything else, including a message that raises, changes nothing. The history is untouched in every case. |
| `Interpreter.SubmitInOrder` | pyde/interpreter.py:173-174 | Successive submissions to a fresh console get indices 0, 1, 2, and so on. Afterwards the history maps exactly those indices to the texts submitted. |
| `Interpreter.OnePlusOneSession` | pyde/interpreter.py:119-159 | Submitting `1+1`, then receiving `2\n` on stdout and the completion message, gives the transcript Input, Output, Break. The input ends unlocked with polling stopped, the history is `{0: "1+1"}`, and one message has been sent. Re-inserting index 0 gives back `1+1`. |

## Left out

- Kivy widgets, properties, animations, scrolling, focus and touch handling are not modelled. Only the transcript entries that the labels and markers stand for are kept.
- Interpreter.InterpreterGui.InterpretLineFromCodeInput: the failure flash for an empty box (an animation) and re-focusing the box are not modelled.
- The shift+enter key binding and `on_disabled` are not modelled. They are GUI events that only call the modelled operations or move focus.
- Starting the worker, as a subprocess or as an Android service, is process I/O and is not modelled.
- OSC socket set-up, `bind`, `readQueue` and `sendMsg` are network calls and are not modelled. Sent messages are appended to `sent`, and received messages are method arguments. The receive port appears only as a constant.
- The 0.1-second clock interval is not modelled. Polling is the number of scheduled callbacks.
- UTF-8 encoding and decoding of message arguments is not modelled, and neither are decode errors. Arguments are text on both sides.
- `print` logging, the Pygments lexer and the `from_undo` flag are not modelled.
- The cursor position is not modelled. Text is always inserted at the end of the buffer.
- The history is indexed by natural numbers. Python would accept any dictionary key in `insert_previous_code`.
