/**
 * The decision functions of the homework bot: validating the status API's
 * answer, rendering the notification for one homework record, checking the
 * three credentials and choosing the `from_date` of a request.
 */
module Homework {
  import opened Wrappers
  import opened Values

  /** The exceptions the bot raises or lets through, one variant per cause. */
  datatype Error =
    | ConnectionFailed        // the HTTP client raised
    | StatusNotOk(code: int)  // the API answered with a code other than 200
    | BodyNotJson             // decoding the body raised
    | ResponseNotADict        // check_response: the answer is not a dict
    | NoHomeworks             // check_response: `homeworks` missing or falsy
    | HomeworksNotAList       // check_response: `homeworks` is not a list
    | HomeworkNotADict        // parse_status: the record has no `.keys()`
    | MissingHomeworkName     // parse_status: no `homework_name` key
    | UnknownStatus           // parse_status: `status` absent or unknown
    | SendFailed              // the chat platform refused the message

  /** The retry interval, in seconds. */
  const RetryTime: int := 600

  /** HTTP status 200. */
  const HttpOk: int := 200

  const ApprovedVerdict: string := "Работа проверена: ревьюеру всё понравилось. Ура!"
  const ReviewingVerdict: string := "Работа взята на проверку ревьюером."
  const RejectedVerdict: string := "Работа проверена: у ревьюера есть замечания."

  /** The status table: status code to verdict sentence. */
  const Statuses: map<string, string> :=
    map["approved" := ApprovedVerdict, "reviewing" := ReviewingVerdict, "rejected" := RejectedVerdict]

  const MessageOpening: string := "Изменился статус проверки работы \""
  const MessageClosing: string := "\". "

  /**
   * The notification text for a homework called `name` with the given
   * verdict: the fixed opening, the name, the fixed closing quote and the
   * verdict, in that order.
   */
  function Render(name: string, verdict: string): (m: string)
    ensures |m| == |MessageOpening| + |name| + |MessageClosing| + |verdict|
    ensures m[..|MessageOpening|] == MessageOpening
    ensures m[|MessageOpening|..|MessageOpening| + |name|] == name
    ensures m[|m| - |MessageClosing + verdict|..] == MessageClosing + verdict
  {
    var tail := MessageClosing + verdict;
    var m := MessageOpening + name + tail;
    assert m == MessageOpening + (name + tail);
    m
  }

  /** The homework name inside `m`, when `m` is a notification carrying `verdict`. */
  function Strip(m: string, verdict: string): (r: Option<string>)
    ensures r.Some? ==> Render(r.value, verdict) == m
    ensures forall n :: Render(n, verdict) == m ==> r == Some(n)
  {
    var tail := MessageClosing + verdict;
    assert forall n :: Render(n, verdict) == m ==>
        |MessageOpening| + |tail| <= |m| && m[..|MessageOpening|] == MessageOpening
        && m[|m| - |tail|..] == tail && m[|MessageOpening|..|m| - |tail|] == n by {
      forall n | Render(n, verdict) == m
        ensures m[|MessageOpening|..|m| - |tail|] == n
      {
        assert |m| - |tail| == |MessageOpening| + |n|;
      }
    }
    if |MessageOpening| + |tail| <= |m| && m[..|MessageOpening|] == MessageOpening && m[|m| - |tail|..] == tail
    then
      var n := m[|MessageOpening|..|m| - |tail|];
      assert m == m[..|MessageOpening|] + n + m[|m| - |tail|..];
      Some(n)
    else
      None
  }

  /**
   * Reads a notification back: the homework name it reports and the status
   * code whose verdict it ends with.
   */
  function Unrender(m: string): (r: Option<(string, string)>)
    ensures r.Some? ==> r.value.1 in Statuses && Render(r.value.0, Statuses[r.value.1]) == m
  {
    match Strip(m, ApprovedVerdict)
    case Some(n) => Some((n, "approved"))
    case None =>
      match Strip(m, ReviewingVerdict)
      case Some(n) => Some((n, "reviewing"))
      case None =>
        match Strip(m, RejectedVerdict)
        case Some(n) => Some((n, "rejected"))
        case None => None
  }

  /** The last two characters of a notification are those of its verdict. */
  lemma RenderEnding(n: string, verdict: string)
    requires |verdict| >= 2
    ensures var m := Render(n, verdict);
      m[|m| - 1] == verdict[|verdict| - 1] && m[|m| - 2] == verdict[|verdict| - 2]
  {
    var m := Render(n, verdict);
    assert m == (MessageOpening + n + MessageClosing) + verdict;
  }

  /** Two notifications with different verdicts from the table always differ. */
  lemma {:induction false} VerdictsDistinguishable(n1: string, s1: string, n2: string, s2: string)
    requires s1 in Statuses && s2 in Statuses && s1 != s2
    ensures Render(n1, Statuses[s1]) != Render(n2, Statuses[s2])
  {
    var v1, v2 := Statuses[s1], Statuses[s2];
    assert ApprovedVerdict[|ApprovedVerdict| - 1] == '!';
    assert ReviewingVerdict[|ReviewingVerdict| - 1] == '.';
    assert RejectedVerdict[|RejectedVerdict| - 1] == '.';
    assert ReviewingVerdict[|ReviewingVerdict| - 2] == 'м';
    assert RejectedVerdict[|RejectedVerdict| - 2] == 'я';
    RenderEnding(n1, v1);
    RenderEnding(n2, v2);
  }

  /** Rendering then reading back yields the name and the status code. */
  lemma {:induction false} RenderRoundTrip(n: string, s: string)
    requires s in Statuses
    ensures Unrender(Render(n, Statuses[s])) == Some((n, s))
  {
    var m := Render(n, Statuses[s]);
    if s != "approved" {
      if Strip(m, ApprovedVerdict).Some? {
        VerdictsDistinguishable(Strip(m, ApprovedVerdict).value, "approved", n, s);
      }
      if s != "reviewing" && Strip(m, ReviewingVerdict).Some? {
        VerdictsDistinguishable(Strip(m, ReviewingVerdict).value, "reviewing", n, s);
      }
    }
  }

  /**
   * `check_response`: the homework list of a well-formed answer. Python
   * truthiness makes an empty list an error, like a missing key.
   */
  function CheckResponse(response: Value): (r: Result<seq<Value>, Error>)
    ensures !response.Dict? ==> r == Err(ResponseNotADict)
    ensures response.Dict? && !Truthy(Get(response.fields, "homeworks")) ==> r == Err(NoHomeworks)
    ensures r == Err(HomeworksNotAList) <==>
              response.Dict? && "homeworks" in response.fields && !response.fields["homeworks"].List?
              && Truthy(response.fields["homeworks"])
    ensures r.Ok? <==> response.Dict? && "homeworks" in response.fields && response.fields["homeworks"].List?
                       && response.fields["homeworks"].items != []
    ensures r.Ok? ==> response.fields["homeworks"] == List(r.value) && r.value != []
  {
    if !response.Dict? then Err(ResponseNotADict)
    else if !Truthy(Get(response.fields, "homeworks")) then Err(NoHomeworks)
    else if !Get(response.fields, "homeworks").List? then Err(HomeworksNotAList)
    else Ok(Get(response.fields, "homeworks").items)
  }

  /** Whether `v` is one of the keys of the status table, as `v in HOMEWORK_STATUSES.keys()`. */
  predicate KnownStatus(v: Value)
    ensures KnownStatus(v) <==> v in {Str("approved"), Str("reviewing"), Str("rejected")}
  {
    v.Str? && v.s in Statuses
  }

  /**
   * `parse_status`: the notification for one homework record. The name is
   * checked first; a missing status gives None, which is not a table key.
   */
  function ParseStatus(homework: Value): (r: Result<string, Error>)
    ensures !homework.Dict? ==> r == Err(HomeworkNotADict)
    ensures homework.Dict? && "homework_name" !in homework.fields ==> r == Err(MissingHomeworkName)
    ensures (homework.Dict? && "homework_name" in homework.fields && !KnownStatus(Get(homework.fields, "status")))
            ==> r == Err(UnknownStatus)
    ensures r.Ok? <==> homework.Dict? && "homework_name" in homework.fields && "status" in homework.fields
                       && homework.fields["status"].Str? && homework.fields["status"].s in Statuses
  {
    if !homework.Dict? then Err(HomeworkNotADict)
    else if "homework_name" !in homework.fields then Err(MissingHomeworkName)
    else if !KnownStatus(Get(homework.fields, "status")) then Err(UnknownStatus)
    else
      var name := Get(homework.fields, "homework_name");
      var code := Get(homework.fields, "status").s;
      Ok(Render(Display(name), Statuses[code]))
  }

  /** The exact text of the notification for a well-formed record. */
  lemma ParseStatusMessage(homework: Value)
    requires ParseStatus(homework).Ok?
    ensures var name, code := homework.fields["homework_name"], homework.fields["status"].s;
      ParseStatus(homework).value == "Изменился статус проверки работы \"" + Display(name) + "\". " + Statuses[code]
  {
  }

  /** A successful parse_status can be read back to the record's name and status. */
  lemma ParseStatusReadsBack(homework: Value)
    requires ParseStatus(homework).Ok?
    ensures Unrender(ParseStatus(homework).value)
            == Some((Display(homework.fields["homework_name"]), homework.fields["status"].s))
  {
    RenderRoundTrip(Display(homework.fields["homework_name"]), homework.fields["status"].s);
  }

  /** What `os.getenv` gives for a credential, as a Python value. */
  function EnvValue(t: Option<string>): Value
  {
    match t
    case None => Null
    case Some(s) => Str(s)
  }

  /** `check_tokens`: all three credentials are set and non-empty. */
  function CheckTokens(practicumToken: Option<string>, telegramToken: Option<string>, chatId: Option<string>): (r: bool)
    ensures r <==> practicumToken.Some? && practicumToken.value != ""
                   && telegramToken.Some? && telegramToken.value != ""
                   && chatId.Some? && chatId.value != ""
  {
    Truthy(EnvValue(practicumToken)) && Truthy(EnvValue(telegramToken)) && Truthy(EnvValue(chatId))
  }

  /** The `from_date` of a request: the given timestamp unless it is 0, else the clock. */
  function FromDate(timestamp: int, now: int): (r: int)
    ensures timestamp != 0 ==> r == timestamp
    ensures timestamp == 0 ==> r == now
  {
    if Truthy(Int(timestamp)) then timestamp else now
  }

  /** What the HTTP client hands back for one request. */
  datatype Reply =
    | ConnectionError
    | Response(statusCode: int, body: Option<Value>)  // body: None when it is not JSON

  /** `get_api_answer` after the request: the decoded body of a 200 answer. */
  function GetApiAnswer(reply: Reply): (r: Result<Value, Error>)
    ensures r.Ok? <==> reply.Response? && reply.statusCode == HttpOk && reply.body.Some?
    ensures r.Ok? ==> r.value == reply.body.value
    ensures reply.Response? && reply.statusCode != HttpOk ==> r == Err(StatusNotOk(reply.statusCode))
  {
    match reply
    case ConnectionError => Err(ConnectionFailed)
    case Response(code, body) =>
      if code != HttpOk then Err(StatusNotOk(code))
      else match body
        case None => Err(BodyNotJson)
        case Some(v) => Ok(v)
  }
}
