/**
 * The polling loop of `main`: each cycle fetches the statuses since
 * `previous_timestamp`, sends one notification per homework in list order,
 * and on success moves `previous_timestamp` to `current_timestamp` and
 * leaves the loop (the `else` clause exits the process). Any exception
 * aborts the cycle with the timestamp unchanged and the loop goes on.
 */
module Polling {
  import opened Wrappers
  import opened Values
  import opened Homework

  /** The messages one cycle delivered and the exception that ended it, if any. */
  datatype Attempt = Attempt(delivered: seq<string>, error: Option<Error>)

  /** What the outside world supplies to one cycle. */
  datatype CycleInput = CycleInput(
    now: int,            // the clock, read when the timestamp is 0
    reply: Reply,        // the answer to the request
    failing: set<nat>)   // indices of the homeworks whose send raises

  /**
   * What parse_status yields for each homework of the list, in list order.
   * The `for` loop consults entry `j` only once it reaches homework `j`.
   */
  function Parses(homeworks: seq<Value>): (parsed: seq<Result<string, Error>>)
    ensures |parsed| == |homeworks|
    ensures forall j :: 0 <= j < |homeworks| ==> parsed[j] == ParseStatus(homeworks[j])
  {
    seq(|homeworks|, j requires 0 <= j < |homeworks| => ParseStatus(homeworks[j]))
  }

  /** Whether the `for` loop delivers the message for homework `j`. */
  predicate Deliverable(parsed: seq<Result<string, Error>>, failing: set<nat>, j: nat)
    requires j < |parsed|
  {
    parsed[j].Ok? && j !in failing
  }

  /** The `for` loop of a cycle, from homework `i` on. */
  function SendFrom(parsed: seq<Result<string, Error>>, failing: set<nat>, i: nat): (r: Attempt)
    requires i <= |parsed|
    decreases |parsed| - i
    ensures |r.delivered| <= |parsed| - i
    ensures r.error.None? <==> |r.delivered| == |parsed| - i
  {
    if i == |parsed| then Attempt([], None)
    else match parsed[i]
      case Err(e) => Attempt([], Some(e))
      case Ok(m) =>
        if i in failing then Attempt([], Some(SendFailed))
        else
          var rest := SendFrom(parsed, failing, i + 1);
          Attempt([m] + rest.delivered, rest.error)
  }

  /** One step of the `for` loop. */
  lemma SendFromUnfold(parsed: seq<Result<string, Error>>, failing: set<nat>, i: nat)
    requires i < |parsed|
    ensures var r, rest := SendFrom(parsed, failing, i), SendFrom(parsed, failing, i + 1);
      r == if parsed[i].Err? then Attempt([], Some(parsed[i].error))
           else if i in failing then Attempt([], Some(SendFailed))
           else Attempt([parsed[i].value] + rest.delivered, rest.error)
  {
  }

  /** An attempt whose first messages `done` were delivered before `rest` began. */
  function Resumed(done: seq<string>, rest: Attempt): Attempt
  {
    Attempt(done + rest.delivered, rest.error)
  }

  /**
   * One delivered message moves the `for` loop from homework `i` to `i + 1`:
   * the message joins both what was sent and what the loop has delivered.
   */
  lemma DeliverStep(front: seq<string>, sent: seq<string>, done: seq<string>,
                    parsed: seq<Result<string, Error>>, failing: set<nat>, i: nat)
    requires i < |parsed| && Deliverable(parsed, failing, i)
    requires sent == front + done
    requires SendFrom(parsed, failing, 0) == Resumed(done, SendFrom(parsed, failing, i))
    ensures sent + [parsed[i].value] == front + (done + [parsed[i].value])
    ensures SendFrom(parsed, failing, 0) == Resumed(done + [parsed[i].value], SendFrom(parsed, failing, i + 1))
  {
    var m, rest := parsed[i].value, SendFrom(parsed, failing, i + 1);
    SendFromUnfold(parsed, failing, i);
    assert done + ([m] + rest.delivered) == (done + [m]) + rest.delivered;
  }

  /** The error that stops the `for` loop at homework `k`. */
  function BlockingError(parsed: seq<Result<string, Error>>, failing: set<nat>, k: nat): Error
    requires k < |parsed|
  {
    if parsed[k].Err? then parsed[k].error else SendFailed
  }

  /**
   * The `for` loop sends one message per homework, in list order, up to the
   * first homework whose message cannot be built or sent; each delivered
   * message is exactly the one parse_status builds for its homework.
   */
  lemma {:induction false} SendFromStopsAtFirstBlocked(parsed: seq<Result<string, Error>>, failing: set<nat>, i: nat, k: nat)
    requires i <= k <= |parsed|
    requires forall j :: i <= j < k ==> Deliverable(parsed, failing, j)
    requires k < |parsed| ==> !Deliverable(parsed, failing, k)
    decreases k - i
    ensures var r := SendFrom(parsed, failing, i);
      && |r.delivered| == k - i
      && (forall j :: i <= j < k ==> parsed[j] == Ok(r.delivered[j - i]))
      && r.error == (if k == |parsed| then None else Some(BlockingError(parsed, failing, k)))
  {
    if i < k {
      assert Deliverable(parsed, failing, i);
      SendFromStopsAtFirstBlocked(parsed, failing, i + 1, k);
    }
  }

  /** The first homework from `i` on whose message is not delivered, or the length. */
  function FirstBlocked(parsed: seq<Result<string, Error>>, failing: set<nat>, i: nat): (k: nat)
    requires i <= |parsed|
    decreases |parsed| - i
    ensures i <= k <= |parsed|
    ensures forall j :: i <= j < k ==> Deliverable(parsed, failing, j)
    ensures k < |parsed| ==> !Deliverable(parsed, failing, k)
  {
    if i == |parsed| || !Deliverable(parsed, failing, i) then i
    else FirstBlocked(parsed, failing, i + 1)
  }

  /** One cycle's effect, given the answer and the send failures. */
  function CycleAttempt(reply: Reply, failing: set<nat>): (a: Attempt)
    ensures GetApiAnswer(reply).Err? ==> a == Attempt([], Some(GetApiAnswer(reply).error))
    ensures GetApiAnswer(reply).Ok? && CheckResponse(GetApiAnswer(reply).value).Err?
            ==> a == Attempt([], Some(CheckResponse(GetApiAnswer(reply).value).error))
  {
    match GetApiAnswer(reply)
    case Err(e) => Attempt([], Some(e))
    case Ok(body) =>
      match CheckResponse(body)
      case Err(e) => Attempt([], Some(e))
      case Ok(homeworks) =>
        if |homeworks| != 0 then SendFrom(Parses(homeworks), failing, 0)
        else Attempt([], None)  // "no new statuses": CheckResponse never yields []
  }

  /** Whether the cycle for `x` ends without an exception. */
  predicate Succeeds(x: CycleInput)
  {
    CycleAttempt(x.reply, x.failing).error.None?
  }

  /** The state `main` keeps across cycles. */
  datatype Poll = Poll(
    previous: int,          // previous_timestamp
    current: int,           // current_timestamp
    sent: seq<string>,      // every message delivered so far
    requests: seq<int>,     // the from_date of every request made so far
    stopped: bool)          // the process has exited

  /** The state before the loop: two clock readings, the first one interval back. */
  function Initial(clock0: int, clock1: int): (p: Poll)
    ensures p.previous == clock0 - RetryTime && p.current == clock1
    ensures p.sent == [] && p.requests == [] && !p.stopped
  {
    Poll(clock0 - RetryTime, clock1, [], [], false)
  }

  /** One pass of the `while` body; nothing happens after the exit. */
  function Step(p: Poll, x: CycleInput): (q: Poll)
    ensures q.current == p.current
    ensures p.stopped ==> q == p
    ensures !p.stopped ==> q.requests == p.requests + [FromDate(p.previous, x.now)]
    ensures !p.stopped ==> q.sent == p.sent + CycleAttempt(x.reply, x.failing).delivered
    ensures !p.stopped ==> (q.stopped <==> Succeeds(x))
    ensures !p.stopped ==> q.previous == if Succeeds(x) then p.current else p.previous
  {
    if p.stopped then p
    else
      var a := CycleAttempt(x.reply, x.failing);
      var ok := a.error.None?;
      Poll(if ok then p.current else p.previous, p.current, p.sent + a.delivered,
           p.requests + [FromDate(p.previous, x.now)], ok)
  }

  /** The cycles run on the inputs `xs`, one per input, until the exit. */
  function Steps(p: Poll, xs: seq<CycleInput>): (r: Poll)
    decreases |xs|
    ensures r.current == p.current
    ensures p.sent <= r.sent
    ensures p.requests <= r.requests && |r.requests| <= |p.requests| + |xs|
  {
    if xs == [] then p
    else
      var r := Steps(Step(p, xs[0]), xs[1..]);
      assert p.sent <= Step(p, xs[0]).sent;
      r
  }

  /** After the exit no input changes anything. */
  lemma {:induction false} StoppedIsFinal(p: Poll, xs: seq<CycleInput>)
    requires p.stopped
    ensures Steps(p, xs) == p
    decreases |xs|
  {
    if xs != [] {
      StoppedIsFinal(Step(p, xs[0]), xs[1..]);
    }
  }

  /** The number of cycles a run executes: up to and including the first success. */
  function CyclesRun(xs: seq<CycleInput>): (k: nat)
    decreases |xs|
    ensures k <= |xs|
    ensures forall j :: 0 <= j < k - 1 ==> !Succeeds(xs[j])
    ensures 0 < k < |xs| ==> Succeeds(xs[k - 1])
    ensures k == 0 <==> xs == []
  {
    if xs == [] then 0
    else if Succeeds(xs[0]) then 1
    else 1 + CyclesRun(xs[1..])
  }

  /**
   * From a running state, a run executes CyclesRun(xs) cycles; the loop exits
   * exactly when the last of them succeeded, and only then does
   * previous_timestamp move, to current_timestamp.
   */
  lemma {:induction false} RunExitsAtFirstSuccess(p: Poll, xs: seq<CycleInput>)
    requires !p.stopped
    decreases |xs|
    ensures var q := Steps(p, xs); var k := CyclesRun(xs);
      && |q.requests| == |p.requests| + k
      && q.current == p.current
      && (q.stopped <==> 0 < k && Succeeds(xs[k - 1]))
      && (!q.stopped ==> k == |xs|)
      && q.previous == (if q.stopped then p.current else p.previous)
  {
    if xs != [] {
      var p1 := Step(p, xs[0]);
      if p1.stopped {
        StoppedIsFinal(p1, xs[1..]);
      } else {
        RunExitsAtFirstSuccess(p1, xs[1..]);
        assert forall j :: 0 <= j < |xs| - 1 ==> xs[1..][j] == xs[j + 1];
      }
    }
  }

  /**
   * Every request of a run asks from the timestamp the run started with: a
   * failed cycle leaves the window where it was, and the successful one ends
   * the loop.
   */
  lemma {:induction false} RunKeepsWindow(p: Poll, xs: seq<CycleInput>)
    requires !p.stopped
    decreases |xs|
    ensures var q := Steps(p, xs);
      && |p.requests| <= |q.requests| <= |p.requests| + |xs|
      && q.requests[..|p.requests|] == p.requests
      && forall j :: |p.requests| <= j < |q.requests| ==> q.requests[j] == FromDate(p.previous, xs[j - |p.requests|].now)
  {
    if xs != [] {
      var p1 := Step(p, xs[0]);
      if p1.stopped {
        StoppedIsFinal(p1, xs[1..]);
      } else {
        RunKeepsWindow(p1, xs[1..]);
        var q := Steps(p1, xs[1..]);
        assert q.requests[..|p.requests|] == p.requests by {
          assert q.requests[..|p1.requests|] == p1.requests;
          assert p1.requests[..|p.requests|] == p.requests;
        }
        forall j | |p.requests| <= j < |q.requests|
          ensures q.requests[j] == FromDate(p.previous, xs[j - |p.requests|].now)
        {
          if j > |p.requests| {
            assert xs[1..][j - |p1.requests|] == xs[j - |p.requests|];
          }
        }
      }
    }
  }

  /**
   * When parse_status fails on homework `k` of an accepted answer, the
   * messages of the `k` homeworks before it have been sent, in order, and the
   * cycle ends with previous_timestamp unchanged and the loop still running.
   */
  lemma ParseFailureMidCycle(p: Poll, x: CycleInput, k: nat)
    requires !p.stopped
    requires GetApiAnswer(x.reply).Ok? && CheckResponse(GetApiAnswer(x.reply).value).Ok?
    requires var homeworks := CheckResponse(GetApiAnswer(x.reply).value).value;
      && k < |homeworks|
      && (forall j :: 0 <= j < k ==> ParseStatus(homeworks[j]).Ok? && j !in x.failing)
      && ParseStatus(homeworks[k]).Err?
    ensures var q := Step(p, x); var homeworks := CheckResponse(GetApiAnswer(x.reply).value).value;
      && q.previous == p.previous && !q.stopped
      && |q.sent| == |p.sent| + k && q.sent[..|p.sent|] == p.sent
      && (forall j :: 0 <= j < k ==> ParseStatus(homeworks[j]) == Ok(q.sent[|p.sent| + j]))
  {
    AcceptedAnswer(x);
    var homeworks := CheckResponse(GetApiAnswer(x.reply).value).value;
    var parsed := Parses(homeworks);
    assert forall j :: 0 <= j < k ==> Deliverable(parsed, x.failing, j);
    SendFromStopsAtFirstBlocked(parsed, x.failing, 0, k);
    var q := Step(p, x);
    assert q.sent == p.sent + SendFrom(parsed, x.failing, 0).delivered;
  }

  /** On an accepted answer a cycle is the `for` loop over its homeworks. */
  lemma AcceptedAnswer(x: CycleInput)
    requires GetApiAnswer(x.reply).Ok? && CheckResponse(GetApiAnswer(x.reply).value).Ok?
    ensures var homeworks := CheckResponse(GetApiAnswer(x.reply).value).value;
      CycleAttempt(x.reply, x.failing) == SendFrom(Parses(homeworks), x.failing, 0)
  {
  }

  /** A cycle succeeds only on an accepted answer whose every message was sent. */
  lemma SuccessfulAnswer(x: CycleInput)
    requires Succeeds(x)
    ensures GetApiAnswer(x.reply).Ok? && CheckResponse(GetApiAnswer(x.reply).value).Ok?
    ensures var homeworks := CheckResponse(GetApiAnswer(x.reply).value).value;
      CycleAttempt(x.reply, x.failing) == SendFrom(Parses(homeworks), x.failing, 0)
  {
  }

  /**
   * A successful cycle sent one message per homework of the answer, in list
   * order, duplicates included, and nothing else.
   */
  lemma SuccessSendsOnePerHomework(p: Poll, x: CycleInput)
    requires !p.stopped && Succeeds(x)
    ensures GetApiAnswer(x.reply).Ok? && CheckResponse(GetApiAnswer(x.reply).value).Ok?
    ensures var q := Step(p, x); var homeworks := CheckResponse(GetApiAnswer(x.reply).value).value;
      && q.previous == p.current && q.stopped
      && |q.sent| == |p.sent| + |homeworks| && q.sent[..|p.sent|] == p.sent
      && (forall j :: 0 <= j < |homeworks| ==> ParseStatus(homeworks[j]) == Ok(q.sent[|p.sent| + j]))
  {
    SuccessfulAnswer(x);
    var homeworks := CheckResponse(GetApiAnswer(x.reply).value).value;
    var parsed := Parses(homeworks);
    var k := FirstBlocked(parsed, x.failing, 0);
    SendFromStopsAtFirstBlocked(parsed, x.failing, 0, k);
    assert k == |homeworks|;
    var q := Step(p, x);
    assert q.sent == p.sent + SendFrom(parsed, x.failing, 0).delivered;
  }

  /** The objects that `main` updates in place. */
  class Poller {
    var previousTimestamp: int
    const currentTimestamp: int
    var sent: seq<string>
    var requests: seq<int>
    var stopped: bool

    function State(): Poll
      reads this
    {
      Poll(previousTimestamp, currentTimestamp, sent, requests, stopped)
    }

    /** `main` up to the loop, given the two readings of the clock. */
    constructor (clock0: int, clock1: int)
      ensures State() == Initial(clock0, clock1)
    {
      previousTimestamp := clock0 - RetryTime;
      currentTimestamp := clock1;
      sent := [];
      requests := [];
      stopped := false;
    }

    /** The `for` loop of a cycle: one send per homework, stopping at the first exception. */
    method SendEach(homeworks: seq<Value>, failing: set<nat>) returns (error: Option<Error>)
      modifies this`sent
      ensures sent == old(sent) + SendFrom(Parses(homeworks), failing, 0).delivered
      ensures error == SendFrom(Parses(homeworks), failing, 0).error
    {
      ghost var parsed := Parses(homeworks);
      ghost var done: seq<string> := [];
      for i := 0 to |homeworks|
        invariant sent == old(sent) + done
        invariant SendFrom(parsed, failing, 0) == Resumed(done, SendFrom(parsed, failing, i))
      {
        var message := ParseStatus(homeworks[i]);
        assert parsed[i] == message;
        SendFromUnfold(parsed, failing, i);
        if message.Err? {
          return Some(message.error);
        }
        if i in failing {
          return Some(SendFailed);
        }
        DeliverStep(old(sent), sent, done, parsed, failing, i);
        sent := sent + [message.value];
        done := done + [message.value];
      }
      return None;
    }

    /** One pass of the `while` body of `main`. */
    method Cycle(x: CycleInput)
      requires !stopped
      modifies this
      ensures State() == Step(old(State()), x)
    {
      requests := requests + [FromDate(previousTimestamp, x.now)];
      var answer := GetApiAnswer(x.reply);
      if answer.Err? {
        return;
      }
      var checked := CheckResponse(answer.value);
      if checked.Err? {
        return;
      }
      var homeworks := checked.value;
      if |homeworks| != 0 {
        var error := SendEach(homeworks, x.failing);
        if error.Some? {
          return;
        }
      }
      previousTimestamp := currentTimestamp;
      stopped := true;
    }
  }

  /**
   * `main`: the credential check guards the loop; each cycle consumes one
   * input, and the loop ends at the first successful cycle or when the
   * inputs run out.
   */
  method RunMain(practicumToken: Option<string>, telegramToken: Option<string>, chatId: Option<string>,
                 clock0: int, clock1: int, inputs: seq<CycleInput>) returns (bot: Poller)
    ensures fresh(bot)
    ensures bot.State() == if CheckTokens(practicumToken, telegramToken, chatId)
                           then Steps(Initial(clock0, clock1), inputs)
                           else Initial(clock0, clock1)
  {
    bot := new Poller(clock0, clock1);
    var tokensStatus := CheckTokens(practicumToken, telegramToken, chatId);
    var i := 0;
    while tokensStatus && !bot.stopped && i < |inputs|
      invariant 0 <= i <= |inputs|
      invariant tokensStatus ==> Steps(Initial(clock0, clock1), inputs) == Steps(bot.State(), inputs[i..])
      invariant !tokensStatus ==> bot.State() == Initial(clock0, clock1)
      decreases |inputs| - i
    {
      assert inputs[i..][1..] == inputs[i + 1..];
      bot.Cycle(inputs[i]);
      i := i + 1;
    }
    if tokensStatus && bot.stopped {
      StoppedIsFinal(bot.State(), inputs[i..]);
    }
  }
}
