/** The tracker client: how an issue is shown to the user, and how one
    worklog request is built and (unless in dry-run mode) sent. The HTTP
    exchange itself is an input: the `Response` the server would give. */
module Client {
  import opened Results
  import opened Calendar
  import opened JsonPointer
  import Config

  /** An issue assigned to the user: its key and its raw JSON fields. */
  datatype Issue = Issue(key: string, fields: map<string, Json>)

  datatype DisplayError = MissingSummary | SummaryNotString

  /** How an issue is listed: `key - summary`. The `summary` field must be
      present and hold a string. */
  function Display(issue: Issue): (r: Result<string, DisplayError>)
    ensures r.Success? <==> "summary" in issue.fields && issue.fields["summary"].Str?
    ensures "summary" !in issue.fields ==> r == Failure(MissingSummary)
  {
    if "summary" !in issue.fields then Failure(MissingSummary)
    else match issue.fields["summary"]
      case Str(summary) => Success(issue.key + " - " + summary)
      case _ => Failure(SummaryNotString)
  }

  /** A shown issue reads back: the key, then ` - `, then the summary. */
  lemma DisplaySplits(issue: Issue)
    requires Display(issue).Success?
    ensures var line, summary := Display(issue).value, issue.fields["summary"].s;
      && |line| == |issue.key| + 3 + |summary|
      && line[..|issue.key|] == issue.key
      && line[|issue.key|..|issue.key| + 3] == " - "
      && line[|issue.key| + 3..] == summary
  {
  }

  /** One attribute as the worklog request carries it, under its key. */
  datatype RequestAttribute = RequestAttribute(name: string, workAttributeId: nat, value: string)

  datatype WorklogRequest = WorklogRequest(
    worker: string,
    started: string,
    timeSpentSeconds: nat,
    originTaskId: string,
    attributes: map<string, RequestAttribute>)

  /** Every worklog is logged as one full eight-hour day. */
  const TimeSpentSeconds: nat := 8 * 3600

  function ToRequestAttribute(a: Config.WorkAttribute): RequestAttribute {
    RequestAttribute(a.name, a.workAttributeId, a.value)
  }

  /** `j` is the last position in `attrs` holding its key. */
  ghost predicate LastOfKey(attrs: seq<Config.WorkAttribute>, j: int) {
    0 <= j < |attrs| && forall j' :: j < j' < |attrs| ==> attrs[j'].key != attrs[j].key
  }

  /** The attribute list collected into a map keyed by `key`, inserting in
      list order. */
  function AttributeMap(attrs: seq<Config.WorkAttribute>): map<string, RequestAttribute> {
    if attrs == [] then map[]
    else
      var last := attrs[|attrs| - 1];
      AttributeMap(attrs[..|attrs| - 1])[last.key := ToRequestAttribute(last)]
  }

  /** The keys of the map are exactly the keys of the list. */
  lemma {:induction false} AttributeMapKeys(attrs: seq<Config.WorkAttribute>)
    ensures AttributeMap(attrs).Keys == set i | 0 <= i < |attrs| :: attrs[i].key
  {
    if attrs != [] {
      var front := attrs[..|attrs| - 1];
      AttributeMapKeys(front);
      var keys := set i | 0 <= i < |attrs| :: attrs[i].key;
      var frontKeys := set i | 0 <= i < |front| :: front[i].key;
      assert keys == frontKeys + {attrs[|attrs| - 1].key} by {
        forall k | k in keys ensures k in frontKeys + {attrs[|attrs| - 1].key} {
          var i :| 0 <= i < |attrs| && attrs[i].key == k;
          if i < |front| {
            assert front[i].key == k;
          }
        }
        forall k | k in frontKeys ensures k in keys {
          var i :| 0 <= i < |front| && front[i].key == k;
          assert attrs[i].key == k;
        }
      }
    }
  }

  /** Each key maps to the attribute at the last position holding that key:
      a later entry replaces an earlier one, and the map entry copies that
      attribute's name, id and value. */
  lemma {:induction false} AttributeMapLastWins(attrs: seq<Config.WorkAttribute>, j: int)
    requires LastOfKey(attrs, j)
    ensures attrs[j].key in AttributeMap(attrs)
    ensures AttributeMap(attrs)[attrs[j].key] == ToRequestAttribute(attrs[j])
  {
    var front := attrs[..|attrs| - 1];
    if j < |front| {
      assert attrs[|attrs| - 1].key != attrs[j].key;
      assert front[j] == attrs[j];
      assert LastOfKey(front, j) by {
        forall j' | j < j' < |front| ensures front[j'].key != front[j].key {
          assert front[j'] == attrs[j'];
        }
      }
      AttributeMapLastWins(front, j);
    }
  }

  /** The create-worklog payload for one day of work on one task. */
  function BuildRequest(worker: string, start: Date, taskId: string, attrs: seq<Config.WorkAttribute>): WorklogRequest
    requires Valid(start)
  {
    WorklogRequest(worker, FormatDate(start), TimeSpentSeconds, taskId, AttributeMap(attrs))
  }

  /** The payload names the worker and the issue as given, always asks for
      28800 seconds (eight hours), carries the day as `YYYY-MM-DD` text that
      reads back as that day, and has one attribute per distinct key. */
  lemma BuildRequestFacts(worker: string, start: Date, taskId: string, attrs: seq<Config.WorkAttribute>)
    requires Valid(start)
    ensures var r := BuildRequest(worker, start, taskId, attrs);
      && r.worker == worker && r.originTaskId == taskId
      && r.timeSpentSeconds == 28800
      && (0 <= start.year <= 9999 ==> |r.started| == 10 && ParseDate(r.started) == Some(start))
      && r.attributes.Keys == set i | 0 <= i < |attrs| :: attrs[i].key
  {
    FormatDateRoundTrip(start);
    AttributeMapKeys(attrs);
  }

  /** When an attribute list is a dynamic part followed by a static part, a
      key present in the static part takes the last static attribute with
      that key: a static attribute overrides a dynamic one. */
  lemma StaticOverridesDynamic(dynamics: seq<Config.WorkAttribute>, statics: seq<Config.WorkAttribute>, j: int)
    requires LastOfKey(statics, j)
    ensures statics[j].key in AttributeMap(dynamics + statics)
    ensures AttributeMap(dynamics + statics)[statics[j].key] == ToRequestAttribute(statics[j])
  {
    var all := dynamics + statics;
    assert all[|dynamics| + j] == statics[j];
    assert LastOfKey(all, |dynamics| + j) by {
      forall j' | |dynamics| + j < j' < |all| ensures all[j'].key != statics[j].key {
        assert all[j'] == statics[j' - |dynamics|];
      }
    }
    AttributeMapLastWins(all, |dynamics| + j);
  }

  /** The client: its token and base URL are carried but not interpreted;
      `dryRun` decides whether requests leave the machine. */
  datatype JtClient = JtClient(token: string, base: string, dryRun: bool)

  /** What the server answers to one request. */
  datatype Response = ConnectionFailed | Status(code: int)

  datatype HttpError = Transport | ErrorStatus(code: int)

  /** A 4xx or 5xx status. */
  predicate IsErrorStatus(code: int) {
    400 <= code <= 599
  }

  /** One call of the create-worklog operation: the payload it built, whether
      it was sent, and what the call returned. */
  datatype WorklogCall = WorklogCall(request: WorklogRequest, sent: bool, outcome: Result<(), HttpError>)

  /** Builds the payload; in dry-run mode returns success without sending it,
      otherwise sends it and succeeds exactly when the server answers with a
      status that is not 4xx or 5xx. */
  function CreateWorklog(client: JtClient, worker: string, start: Date, taskId: string,
                         attrs: seq<Config.WorkAttribute>, response: Response): (c: WorklogCall)
    requires Valid(start)
    ensures c.request == BuildRequest(worker, start, taskId, attrs)
    ensures c.sent <==> !client.dryRun
    ensures client.dryRun ==> c.outcome.Success?
    ensures !client.dryRun ==>
      (c.outcome.Success? <==> response.Status? && !IsErrorStatus(response.code))
    ensures !client.dryRun && response.ConnectionFailed? ==> c.outcome == Failure(Transport)
    ensures !client.dryRun && response.Status? && IsErrorStatus(response.code) ==>
      c.outcome == Failure(ErrorStatus(response.code))
  {
    var request := BuildRequest(worker, start, taskId, attrs);
    if client.dryRun then WorklogCall(request, false, Success(()))
    else
      var outcome := match response
        case ConnectionFailed => Failure(Transport)
        case Status(code) => if IsErrorStatus(code) then Failure(ErrorStatus(code)) else Success(());
      WorklogCall(request, true, outcome)
  }
}
