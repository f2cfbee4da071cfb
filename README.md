# homework_bot in Dafny

A model of the decision logic of `homework.py`, a Telegram bot that polls
the Yandex Practicum homework-status API. It sends one chat message for
each homework whose review status is reported.

What is modelled:

- `values.dfy` (module `Values`): the decoded JSON answer is a `Value`
  (None, bool, int, str, list or dict). The module also gives Python's
  truthiness (`Truthy`), `dict.get` (`Get`) and the text an f-string prints
  for a value (`Display`).
- `homework.dfy` (module `Homework`): the pure functions.
  - `check_response` is `CheckResponse`.
  - `parse_status` is `ParseStatus`.
  - `check_tokens` is `CheckTokens`.
  - The `from_date` choice of `get_api_answer` is `FromDate`.
  - The status check after the request is `GetApiAnswer`.
  - The status table `HOMEWORK_STATUSES` is `Statuses`.
  - Each exception the bot raises or catches is one variant of `Error`.
  - `Unrender` reads a notification back into its homework name and
    status code, so the message format is proved unambiguous.
- `polling.dfy` (module `Polling`): the loop of `main`.
  - `Step` and `Steps` are the specification of one cycle and of a run.
  - Class `Poller` holds `main`'s local state: `previous_timestamp`,
    `current_timestamp`, the messages sent, the `from_date` of each request
    and whether the process has exited.
  - `Poller.Cycle` is the body of the `while` loop, proved equal to `Step`.
  - `Poller.SendEach` is the whole `for` loop of a cycle, proved equal to
    `SendFrom` over the parse results of the homeworks.
  - `RunMain` is `main`: the token check guards the `while` loop.
- `wrappers.dfy` (module `Wrappers`): `Option` and `Result`.

Behaviour as the code has it:

- A cycle sends one message per homework, in list order. It does not
  de-duplicate and does not look only at the newest record.
- An empty `homeworks` list is an error (`NoHomeworks`), like a missing
  key, because of Python truthiness. So the "no new statuses" branch of
  `main` cannot be reached.
- A missing `status` takes the same error path as an unknown one such as
  "pending", because `.get` returns None. The name check runs first.
- Each exception aborts the cycle and keeps `previous_timestamp`. This
  covers a failed request, a non-200 answer, an undecodable body, a
  malformed answer, a bad record and a failed send. Messages sent earlier
  in the cycle stay sent.
- The `else:` belongs to the `try`. So the first cycle without an
  exception sets `previous_timestamp` to `current_timestamp` and ends the
  process. Only failed cycles let the loop go on.
- `current_timestamp` is read once at startup and never changes. Every
  request of a run therefore uses the startup `previous_timestamp`.

## Model

| member | source | states |
|---|---|---|
| Values.Truthy | homework.py:55 | a value is falsy exactly when it is None, False, 0, "", [] or {} |
| Values.Display | homework.py:73 | the f-string prints a string name as itself, None as "None", booleans as "True"/"False", and an integer as a minus sign for a negative number followed by decimal digits that read back to the number, with no leading zero (zero itself is "0") |
| Homework.CheckResponse | homework.py:51-59 | a non-dict is `ResponseNotADict`; a missing or falsy `homeworks` (None, False, 0, "", [], {}) is `NoHomeworks`; a truthy non-list is `HomeworksNotAList`; success happens exactly when `homeworks` is a non-empty list, and returns that list unchanged; a success is never empty |
| Homework.ParseStatus | homework.py:62-73 | a non-dict record fails; a missing `homework_name` is `MissingHomeworkName`, checked before the status; a status that is missing or not one of the table keys (such as "pending") is `UnknownStatus`; success happens exactly when the name is present and `status` is one of the three table keys |
| Homework.KnownStatus | homework.py:67 | a value is a key of the status table exactly when it is the string "approved", "reviewing" or "rejected" |
| Homework.Render | homework.py:73 | the message is the fixed opening, then the name, then the closing quote and the verdict, each at its place |
| Homework.ParseStatusMessage | homework.py:70-73 | a successful message is exactly `Изменился статус проверки работы "<name>". ` followed by the table verdict of the status |
| Homework.ParseStatusReadsBack | homework.py:70-73 | the message of a successful parse reads back to the record's displayed name and its status code |
| Homework.Strip | homework.py:73 | splitting a text against a verdict succeeds exactly when the text is the message for some name with that verdict, and then yields that name |
| Homework.Unrender | homework.py:73 | every reading of a text gives a table status and a name whose message is exactly that text |
| Homework.VerdictsDistinguishable | homework.py:29-33 | messages carrying two different table verdicts are always different, whatever the names |
| Homework.RenderRoundTrip | homework.py:73 | reading a message back yields the name and the status it was built from |
| Homework.CheckTokens | homework.py:76-80 | true exactly when all three credentials are set and non-empty |
| Homework.FromDate | homework.py:43 | the request uses the given timestamp unless it is 0, and the clock reading when it is 0 |
| Homework.GetApiAnswer | homework.py:41-48 | the answer is accepted exactly when the request went through with status 200 and a JSON body, and is then that body; any other status code is an error carrying the code |
| Polling.Parses | homework.py:94-95 | one parse result per homework, in list order, each the result of parse_status on that homework |
| Polling.SendFrom | homework.py:94-99 | the loop from homework i delivers at most one message per remaining homework, and it ends without an exception exactly when it delivered one for each |
| Polling.SendFromStopsAtFirstBlocked | homework.py:94-96 | the loop delivers exactly the messages of the homeworks before the first one whose parse or send fails, in order; it stops with that homework's error, or with no error when there is none |
| Polling.FirstBlocked | homework.py:94-96 | the first homework whose message is not delivered, with every earlier one delivered |
| Polling.CycleAttempt | homework.py:90-92 | a failed request or a rejected answer ends the cycle with that error and no message sent |
| Polling.Initial | homework.py:86-87 | before the loop the previous timestamp is one interval (600 s) before the first clock reading, and the current timestamp is the second |
| Polling.Step | homework.py:89-114 | a cycle makes one request from `FromDate(previous)` and appends the messages it delivered; the loop exits exactly when the cycle succeeds; the previous timestamp becomes the current one only then; the current timestamp never changes; nothing happens after the exit |
| Polling.Steps | homework.py:89-114 | a run of the loop never changes the current timestamp; messages sent earlier stay in the sent list, in order, and earlier requests stay in the request list; it makes at most one request per input |
| Polling.StoppedIsFinal | homework.py:110-114 | after the exit no further input changes the state |
| Polling.CyclesRun | homework.py:89-114 | a run executes cycles up to and including the first success: every earlier cycle failed, and a run cut short ended on a success |
| Polling.RunExitsAtFirstSuccess | homework.py:89-114 | a run makes one request per executed cycle; it has exited exactly when its last executed cycle succeeded, otherwise every input was used; the previous timestamp is the current one after the exit and the starting one otherwise |
| Polling.RunKeepsWindow | homework.py:91-104 | every request of a run asks from the run's starting previous timestamp (or the clock when that is 0); earlier requests are kept |
| Polling.ParseFailureMidCycle | homework.py:94-109 | when parse_status fails on homework k, exactly the k earlier messages were sent, in order; the previous timestamp is unchanged and the loop goes on |
| Polling.SuccessfulAnswer | homework.py:90-104 | a successful cycle had an accepted answer, and its result is the loop over that answer's homeworks |
| Polling.SuccessSendsOnePerHomework | homework.py:93-104 | a successful cycle sent exactly one message per homework, in list order, duplicates included; it moved the previous timestamp to the current one and exited |
| Polling.Poller.constructor | homework.py:86-87 | the state before the loop is `Initial` of the two clock readings |
| Polling.Poller.SendEach | homework.py:94-99 | the `for` loop appends exactly the messages `SendFrom` delivers and returns the error it stops with |
| Polling.Poller.Cycle | homework.py:90-114 | one pass of the `while` body changes the state exactly as `Step` |
| Polling.RunMain | homework.py:83-114 | with all three tokens the final state is `Steps` over the inputs from `Initial`; without them the loop never runs |

## Left out

- The HTTP request itself is left out: the endpoint, the OAuth header and `requests.get` (homework.py:25-26, 44-45). It is network I/O. Its outcome is the input `Reply`: a connection error, or a status code with a body that may fail to decode.
- The Telegram bot and `send_message` are left out (homework.py:36-38, 85). They are a foreign library. A delivered message is appended to `sent`. A send that raises is named by its homework index in `CycleInput.failing`.
- `load_dotenv`, `os.getenv`, `logging.basicConfig` and every logging call are left out (homework.py:12-22, 97-113). They are environment and log I/O. The three credentials are parameters of `RunMain`.
- `time.time()` and `time.sleep` are left out (homework.py:43, 86-87, 105, 109). They are a clock and blocking. The readings are parameters: two at startup and one per cycle. Sleeping does nothing.
- `sys.exit` is left out (homework.py:114). It ends the process. The model has a `stopped` flag that ends the loop.
- The exception class and message of each error are left out. The model keeps one `Error` variant per cause.
- The endless `while` loop is not modelled as endless. `RunMain` runs at most one cycle per element of its finite input sequence.
- JSON floating-point numbers are left out: `Value` has no float case, so the truthiness of `0.0` is not covered.
- Display: a `homework_name` given as a list or a dict is printed by Python's `repr`. The model prints a fixed marker (`[...]` or `{...}`) instead. Python dicts keep insertion order, which a `map` does not.
