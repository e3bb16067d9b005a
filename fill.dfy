/** The `fill` run of the timesheet filler: find the Monday of the target
    week, let the user pick one task for each of its five working days,
    then log each day's work through the client, resolving the configured
    dynamic attributes from the chosen issue's fields, and stop at the first
    failure.

    Everything interactive or external is an input: "now" is a date, the
    user's picks in the list of tasks are `choices` (one index per day, in day
    order), and the server's answer to the `i`-th worklog request is
    `responses[i]`. */
module Fill {
  import opened Results
  import opened Calendar
  import opened JsonPointer
  import opened Client
  import Config

  datatype ResolveError =
    | PointerFailed(pointer: string, reason: PointerError)  // the JSON Pointer names no value
    | NotAString(pointer: string)                           // it names a value that is not a string

  datatype FillError =
    | NoSuchWeek(year: int, week: int)                 // the week-based Monday does not exist
    | TaskNotDisplayable(key: string, shown: DisplayError)
    | NoTasks                                          // nothing to choose from
    | SelectionFailed(day: nat)                        // no valid pick for that day
    | AttributeUnresolved(entry: nat, unresolved: ResolveError)
    | UploadFailed(entry: nat, failure: HttpError)

  // The target week

  /** The date whose ISO week is filled: today, or a week from today with
      `--next`. */
  function ReferenceDate(now: Date, next: bool): (r: Date)
    requires Valid(now)
    ensures Valid(r)
    ensures DayNumber(r) == DayNumber(now) + (if next then 7 else 0)
  {
    AddDaysNumber(now, 7);
    if next then AddDays(now, 7) else now
  }

  /** The first day as the program computes it: the week NUMBER comes from
      the reference date's ISO week, but the YEAR passed with it is the
      calendar year of `now`. Fails where that year has no such week. */
  function TargetMonday(now: Date, next: bool): (r: Result<Date, FillError>)
    requires Valid(now)
    ensures r.Success? ==> Valid(r.value) && Weekday(DayNumber(r.value)) == 0
    ensures r.Success? <==> IsoWeekOf(ReferenceDate(now, next)).week <= WeeksInYear(now.year)
    ensures IsoWeekOf(ReferenceDate(now, next)).year == now.year ==>
      && r.Success?
      && DayNumber(r.value) <= DayNumber(ReferenceDate(now, next)) <= DayNumber(r.value) + 6
  {
    var week := IsoWeekOf(ReferenceDate(now, next)).week;
    match MondayOfIsoWeek(now.year, week)
    case Some(monday) => Success(monday)
    case None => Failure(NoSuchWeek(now.year, week))
  }

  /** At the turn of a year the computed Monday can lie a whole year before
      the reference date: on Monday 2024-12-30 (ISO week 1 of 2025) it is
      2024-01-01. */
  lemma TargetMondayYearBehind()
    ensures TargetMonday(Date(2024, 12, 30), false) == Success(Date(2024, 1, 1))
    ensures DayNumber(Date(2024, 12, 30)) - DayNumber(Date(2024, 1, 1)) == 364
  {
    var now := Date(2024, 12, 30);
    assert YearStart(2024) == 738885;
    assert YearStart(2025) == 739251;
    assert DayNumber(now) == 739249;
    assert WeekOneStart(2025) == 739249;
    assert IsoWeekOf(now) == IsoWeek(2025, 1);
    assert WeekOneMonday(2024) == Date(2024, 1, 1);
  }

  /** ... and it can fail outright: Friday 2021-01-01 lies in ISO week 53 of
      2020, and 2021 has only 52 weeks. */
  lemma TargetMondayMissingWeek()
    ensures TargetMonday(Date(2021, 1, 1), false) == Failure(NoSuchWeek(2021, 53))
  {
    var now := Date(2021, 1, 1);
    assert YearStart(2020) == 737424;
    assert YearStart(2021) == 737790;
    assert YearStart(2022) == 738155;
    assert DayNumber(now) == 737790;
    assert WeekOneStart(2020) == 737422;
    assert WeekOneStart(2021) == 737793;
    assert WeekOneStart(2022) == 738157;
    assert IsoWeekOf(now) == IsoWeek(2020, 53);
    assert WeeksInYear(2021) == 52;
  }

  /** The first day as intended: the Monday of the reference date's ISO week,
      taking the ISO week-year together with the week number. */
  function IntendedMonday(now: Date, next: bool): (r: Date)
    requires Valid(now)
    ensures Valid(r) && Weekday(DayNumber(r)) == 0
    ensures DayNumber(r) <= DayNumber(ReferenceDate(now, next)) <= DayNumber(r) + 6
  {
    var w := IsoWeekOf(ReferenceDate(now, next));
    MondayOfIsoWeek(w.year, w.week).value
  }

  /** Two Mondays less than a week apart are the same day. */
  lemma MondaysAWeekApart(a: int, b: int)
    requires Weekday(a) == 0 && Weekday(b) == 0
    requires a <= b <= a + 6
    ensures a == b
  {
    assert a == 7 * (a / 7) && b == 7 * (b / 7);
  }

  /** The intended first day is the only Monday at most six days before the
      reference date. */
  lemma IntendedMondayUnique(now: Date, next: bool, monday: Date)
    requires Valid(now) && Valid(monday) && Weekday(DayNumber(monday)) == 0
    requires DayNumber(monday) <= DayNumber(ReferenceDate(now, next)) <= DayNumber(monday) + 6
    ensures monday == IntendedMonday(now, next)
  {
    var m := IntendedMonday(now, next);
    if DayNumber(m) <= DayNumber(monday) {
      MondaysAWeekApart(DayNumber(m), DayNumber(monday));
    } else {
      MondaysAWeekApart(DayNumber(monday), DayNumber(m));
    }
    DayNumberInjective(monday, m);
  }

  /** Away from the turn of the year the program's Monday is the intended one. */
  lemma TargetMondayIsIntended(now: Date, next: bool)
    requires Valid(now)
    requires IsoWeekOf(ReferenceDate(now, next)).year == now.year
    ensures TargetMonday(now, next) == Success(IntendedMonday(now, next))
  {
    IntendedMondayUnique(now, next, TargetMonday(now, next).value);
  }

  // The five-day plan

  datatype PlanEntry = PlanEntry(day: Date, task: Issue)

  /** The lines of the list of tasks: every task shown as `key - summary`, or
      a failure when some task cannot be shown. */
  function Labels(tasks: seq<Issue>): (r: Result<seq<string>, FillError>)
    ensures r.Success? <==> forall i :: 0 <= i < |tasks| ==> Display(tasks[i]).Success?
    ensures r.Success? ==> |r.value| == |tasks|
    ensures r.Success? ==> forall i :: 0 <= i < |tasks| ==> r.value[i] == Display(tasks[i]).value
  {
    if tasks == [] then Success([])
    else
      match Display(tasks[0])
      case Failure(reason) => Failure(TaskNotDisplayable(tasks[0].key, reason))
      case Success(line) =>
        var rest := Labels(tasks[1..]);
        assert forall i :: 1 <= i < |tasks| ==> tasks[i] == tasks[1..][i - 1];
        if rest.Failure? then Failure(rest.error) else Success([line] + rest.value)
  }

  /** When the list cannot be shown, the error names the first task that
      cannot be displayed, and why. */
  lemma {:induction false} LabelsFirstFailure(tasks: seq<Issue>)
    requires Labels(tasks).Failure?
    ensures exists i :: && 0 <= i < |tasks|
                        && (forall i' :: 0 <= i' < i ==> Display(tasks[i']).Success?)
                        && Display(tasks[i]).Failure?
                        && Labels(tasks).error == TaskNotDisplayable(tasks[i].key, Display(tasks[i]).error)
  {
    if Display(tasks[0]).Success? {
      var rest := tasks[1..];
      LabelsFirstFailure(rest);
      var i :| && 0 <= i < |rest|
               && (forall i' :: 0 <= i' < i ==> Display(rest[i']).Success?)
               && Display(rest[i]).Failure?
               && Labels(rest).error == TaskNotDisplayable(rest[i].key, Display(rest[i]).error);
      assert forall i' :: 0 <= i' < i + 1 ==> Display(tasks[i']).Success? by {
        assert forall i' :: 1 <= i' < i + 1 ==> tasks[i'] == rest[i' - 1];
      }
      assert tasks[i + 1] == rest[i];
    }
  }

  /** The pick for day `d` exists and indexes the list of tasks. */
  predicate GoodChoice(tasks: seq<Issue>, choices: seq<int>, d: nat) {
    d < |choices| && 0 <= choices[d] < |tasks|
  }

  /** Whether planning can complete: every task can be listed, there is at
      least one, and each of the five days has a good pick. */
  predicate CanPlan(tasks: seq<Issue>, choices: seq<int>) {
    Labels(tasks).Success? && |tasks| > 0 && forall d :: 0 <= d < 5 ==> GoodChoice(tasks, choices, d)
  }

  /** The plan for a week whose five days all have a good pick: day `d` is
      `firstDay` plus `d` days, with the issue picked for it. Every planned
      day is a calendar date. */
  function WeekPlan(firstDay: Date, tasks: seq<Issue>, choices: seq<int>): (work: seq<PlanEntry>)
    requires Valid(firstDay)
    requires forall d :: 0 <= d < 5 ==> GoodChoice(tasks, choices, d)
    ensures |work| == 5 && ValidDays(work)
  {
    seq(5, d requires 0 <= d < 5 && GoodChoice(tasks, choices, d) =>
      PlanEntry(AddDays(firstDay, d), tasks[choices[d]]))
  }

  /** The five working days from `firstDay`, one picked task each, in day
      order; the first failure ends planning. */
  method PlanWeek(firstDay: Date, tasks: seq<Issue>, choices: seq<int>) returns (r: Result<seq<PlanEntry>, FillError>)
    requires Valid(firstDay)
    ensures r.Success? <==> CanPlan(tasks, choices)
    ensures r.Success? ==> |r.value| == 5
    ensures r.Success? ==> forall d :: 0 <= d < 5 ==>
      GoodChoice(tasks, choices, d) && r.value[d] == PlanEntry(AddDays(firstDay, d), tasks[choices[d]])
    ensures r.Success? ==> r.value == WeekPlan(firstDay, tasks, choices)
    ensures Labels(tasks).Failure? ==> r == Failure(Labels(tasks).error)
    ensures Labels(tasks).Success? && tasks == [] ==> r == Failure(NoTasks)
    ensures Labels(tasks).Success? && tasks != [] && r.Failure? ==>
      exists d :: 0 <= d < 5 && !GoodChoice(tasks, choices, d)
        && (forall e :: 0 <= e < d ==> GoodChoice(tasks, choices, e))
        && r.error == SelectionFailed(d)
  {
    var work: seq<PlanEntry> := [];
    var day := firstDay;
    var d := 0;
    while d < 5
      invariant 0 <= d <= 5
      invariant Valid(day) && day == AddDays(firstDay, d)
      invariant |work| == d
      invariant forall e :: 0 <= e < d ==> GoodChoice(tasks, choices, e)
      invariant forall e {:trigger work[e]} :: 0 <= e < d ==>
        GoodChoice(tasks, choices, e) && work[e] == PlanEntry(AddDays(firstDay, e), tasks[choices[e]])
      invariant d > 0 ==> Labels(tasks).Success? && tasks != []
    {
      var labels := Labels(tasks);
      if labels.Failure? {
        return Failure(labels.error);
      }
      if tasks == [] {
        return Failure(NoTasks);
      }
      if !GoodChoice(tasks, choices, d) {
        assert !CanPlan(tasks, choices);
        return Failure(SelectionFailed(d));
      }
      ghost var before := work;
      work := work + [PlanEntry(day, tasks[choices[d]])];
      forall e | 0 <= e < d ensures work[e] == before[e] {
      }
      day := NextDay(day);
      d := d + 1;
    }
    assert work == WeekPlan(firstDay, tasks, choices);
    return Success(work);
  }

  // Attribute resolution

  /** One dynamic template resolved against an issue's fields: its `value` is
      a JSON Pointer into the fields object and is replaced by the string
      found there. */
  function ResolveTemplate(fields: map<string, Json>, template: Config.WorkAttribute): Result<Config.WorkAttribute, ResolveError> {
    match Evaluate(Object(fields), template.value)
    case Failure(reason) => Failure(PointerFailed(template.value, reason))
    case Success(Str(s)) => Success(template.(value := s))
    case Success(_) => Failure(NotAString(template.value))
  }

  /** A template whose pointer is written for a path of field names resolves
      to the string at the end of that path, fails with `NotFound` when the
      path leads nowhere, and with `NotAString` when it ends at another kind
      of value. */
  lemma ResolveTemplateAtPath(fields: map<string, Json>, template: Config.WorkAttribute, path: seq<string>)
    requires template.value == Format(path)
    ensures Walk(Object(fields), path).None? ==>
      ResolveTemplate(fields, template) == Failure(PointerFailed(template.value, NotFound))
    ensures Walk(Object(fields), path).Some? && Walk(Object(fields), path).value.Str? ==>
      ResolveTemplate(fields, template) == Success(template.(value := Walk(Object(fields), path).value.s))
    ensures Walk(Object(fields), path).Some? && !Walk(Object(fields), path).value.Str? ==>
      ResolveTemplate(fields, template) == Failure(NotAString(template.value))
  {
    EvaluateFormat(Object(fields), path);
  }

  /** The dynamic templates resolved in order: all of them resolve, one
      result per template, or resolution fails. */
  function ResolveDynamic(fields: map<string, Json>, templates: seq<Config.WorkAttribute>): (r: Result<seq<Config.WorkAttribute>, ResolveError>)
    ensures r.Success? <==> forall i :: 0 <= i < |templates| ==> ResolveTemplate(fields, templates[i]).Success?
    ensures r.Success? ==> |r.value| == |templates|
    ensures r.Success? ==> forall i :: 0 <= i < |templates| ==> r.value[i] == ResolveTemplate(fields, templates[i]).value
  {
    if templates == [] then Success([])
    else
      match ResolveTemplate(fields, templates[0])
      case Failure(e) => Failure(e)
      case Success(first) =>
        var rest := ResolveDynamic(fields, templates[1..]);
        assert forall i :: 1 <= i < |templates| ==> templates[i] == templates[1..][i - 1];
        if rest.Failure? then
          assert exists i :: 1 <= i < |templates| && ResolveTemplate(fields, templates[i]).Failure?;
          Failure(rest.error)
        else Success([first] + rest.value)
  }

  /** When resolution fails, the error is that of the first template that
      does not resolve. */
  lemma {:induction false} ResolveDynamicFirstFailure(fields: map<string, Json>, templates: seq<Config.WorkAttribute>)
    requires ResolveDynamic(fields, templates).Failure?
    ensures exists i :: && 0 <= i < |templates|
                        && (forall i' :: 0 <= i' < i ==> ResolveTemplate(fields, templates[i']).Success?)
                        && ResolveTemplate(fields, templates[i]) == Failure(ResolveDynamic(fields, templates).error)
  {
    if ResolveTemplate(fields, templates[0]).Failure? {
      assert ResolveTemplate(fields, templates[0]) == Failure(ResolveDynamic(fields, templates).error);
    } else {
      var rest := templates[1..];
      ResolveDynamicFirstFailure(fields, rest);
      var i :| && 0 <= i < |rest|
               && (forall i' :: 0 <= i' < i ==> ResolveTemplate(fields, rest[i']).Success?)
               && ResolveTemplate(fields, rest[i]) == Failure(ResolveDynamic(fields, rest).error);
      assert forall i' :: 0 <= i' < i + 1 ==> ResolveTemplate(fields, templates[i']).Success? by {
        assert forall i' :: 1 <= i' < i + 1 ==> templates[i'] == rest[i' - 1];
      }
      assert templates[i + 1] == rest[i];
    }
  }

  /** The attributes logged for one issue: its resolved dynamic attributes,
      then the static ones. */
  function ResolveAttributes(fields: map<string, Json>, dynamics: seq<Config.WorkAttribute>,
                             statics: seq<Config.WorkAttribute>): Result<seq<Config.WorkAttribute>, ResolveError> {
    match ResolveDynamic(fields, dynamics)
    case Failure(e) => Failure(e)
    case Success(resolved) => Success(resolved + statics)
  }

  /** Resolution succeeds exactly when every dynamic pointer names a string.
      The result is the resolved dynamic attributes in configuration order,
      then the static ones unchanged; each resolved attribute keeps its
      template's key, name and id, and its value is the string the
      template's pointer names in the issue's fields. */
  lemma ResolveAttributesFacts(fields: map<string, Json>, dynamics: seq<Config.WorkAttribute>,
                               statics: seq<Config.WorkAttribute>)
    ensures var r := ResolveAttributes(fields, dynamics, statics);
      && (r.Success? <==> forall i :: 0 <= i < |dynamics| ==>
            Evaluate(Object(fields), dynamics[i].value).Success? && Evaluate(Object(fields), dynamics[i].value).value.Str?)
      && (r.Success? ==> |r.value| == |dynamics| + |statics| && r.value[|dynamics|..] == statics)
      && (r.Success? ==> forall i :: 0 <= i < |dynamics| ==>
            && r.value[i].key == dynamics[i].key
            && r.value[i].name == dynamics[i].name
            && r.value[i].workAttributeId == dynamics[i].workAttributeId
            && Evaluate(Object(fields), dynamics[i].value) == Success(Str(r.value[i].value)))
  {
  }

  /** A single dynamic attribute whose pointer is `/` followed by a plain
      field name resolves to the string stored under that name: with
      `/customfield_100` over `{"customfield_100": "ABC"}` it yields `ABC`. */
  lemma ResolveSingleField(name: string, text: string, template: Config.WorkAttribute)
    requires '~' !in name && '/' !in name
    requires template.value == "/" + name
    ensures ResolveAttributes(map[name := Str(text)], [template], []) == Success([template.(value := text)])
  {
    var fields := map[name := Str(text)];
    EscapePlain(name);
    assert Format([name]) == "/" + name;
    assert [name][1..] == [];
    assert Walk(Object(fields), [name]) == Some(Str(text));
    ResolveTemplateAtPath(fields, template, [name]);
    assert ResolveTemplate(fields, template) == Success(template.(value := text));
    assert [template][1..] == [];
    var r := ResolveDynamic(fields, [template]);
    assert r.Success? && |r.value| == 1;
    assert r.value[0] == template.(value := text);
    assert r.value == [template.(value := text)];
    assert [template.(value := text)] + [] == [template.(value := text)];
  }

  // Logging the work

  function EntryAttributes(config: Config.Config, entry: PlanEntry): Result<seq<Config.WorkAttribute>, ResolveError> {
    ResolveAttributes(entry.task.fields, config.dynamicAttributes, config.staticAttributes)
  }

  /** What one plan entry does when its turn comes: either its attributes
      do not resolve and no call is made, or the create-worklog call is made
      with the resolved attributes. */
  datatype Step = Unresolved(reason: ResolveError) | Called(call: WorklogCall)

  function EntryStep(client: JtClient, config: Config.Config, entry: PlanEntry, response: Response): Step
    requires Valid(entry.day)
  {
    match EntryAttributes(config, entry)
    case Failure(e) => Unresolved(e)
    case Success(attributes) =>
      Called(CreateWorklog(client, config.worker, entry.day, entry.task.key, attributes, response))
  }

  /** An entry's step, from the resolution of its dynamic attributes. */
  lemma EntryStepOf(client: JtClient, config: Config.Config, entry: PlanEntry, response: Response)
    requires Valid(entry.day)
    ensures var dynamics := ResolveDynamic(entry.task.fields, config.dynamicAttributes);
      && (dynamics.Failure? ==> EntryStep(client, config, entry, response) == Unresolved(dynamics.error))
      && (dynamics.Success? ==>
            && EntryAttributes(config, entry) == Success(dynamics.value + config.staticAttributes)
            && EntryStep(client, config, entry, response) ==
                 Called(CreateWorklog(client, config.worker, entry.day, entry.task.key,
                                      dynamics.value + config.staticAttributes, response)))
  {
  }

  /** Every planned day is a date of the calendar. */
  predicate ValidDays(work: seq<PlanEntry>) {
    forall j :: 0 <= j < |work| ==> Valid(work[j].day)
  }

  /** The step of every plan entry, entry `j` answered by `responses[j]`. */
  function Steps(client: JtClient, config: Config.Config, work: seq<PlanEntry>, responses: seq<Response>): (steps: seq<Step>)
    requires ValidDays(work) && |work| <= |responses|
    ensures |steps| == |work|
  {
    if work == [] then []
    else [EntryStep(client, config, work[0], responses[0])] + Steps(client, config, work[1..], responses[1..])
  }

  lemma {:induction false} StepsAt(client: JtClient, config: Config.Config, work: seq<PlanEntry>, responses: seq<Response>, j: nat)
    requires ValidDays(work) && |work| <= |responses| && j < |work|
    ensures Steps(client, config, work, responses)[j] == EntryStep(client, config, work[j], responses[j])
  {
    if j > 0 {
      StepsAt(client, config, work[1..], responses[1..], j - 1);
    }
  }

  /** The calls made while logging a plan, in order, and how logging ended. */
  datatype Upload = Upload(calls: seq<WorklogCall>, result: Result<(), FillError>)

  /** Logging from entry `i` on: an entry whose attributes do not resolve
      ends logging; otherwise its call is made, and logging goes on to the
      next entry only if that call succeeded. */
  function UploadFrom(steps: seq<Step>, i: nat): Upload
    requires i <= |steps|
    decreases |steps| - i
  {
    if i == |steps| then Upload([], Success(()))
    else
      match steps[i]
      case Unresolved(e) => Upload([], Failure(AttributeUnresolved(i, e)))
      case Called(call) =>
        if call.outcome.Failure? then Upload([call], Failure(UploadFailed(i, call.outcome.error)))
        else
          var rest := UploadFrom(steps, i + 1);
          Upload([call] + rest.calls, rest.result)
  }

  /** All the calls succeeded. */
  predicate AllSucceeded(calls: seq<WorklogCall>) {
    forall k :: 0 <= k < |calls| ==> calls[k].outcome.Success?
  }

  /** Logging from entry `i` makes at most one call per remaining entry, in
      entry order: the `(j - i)`-th call is the one entry `j` makes. */
  lemma {:induction false} UploadCalls(steps: seq<Step>, i: nat)
    requires i <= |steps|
    ensures var u := UploadFrom(steps, i);
      && |u.calls| <= |steps| - i
      && forall j :: i <= j < i + |u.calls| ==> steps[j] == Called(u.calls[j - i])
    decreases |steps| - i
  {
    if i < |steps| && steps[i].Called? && steps[i].call.outcome.Success? {
      var u, rest := UploadFrom(steps, i), UploadFrom(steps, i + 1);
      UploadCalls(steps, i + 1);
      forall j | i < j < i + |u.calls| ensures steps[j] == Called(u.calls[j - i]) {
        assert u.calls[j - i] == rest.calls[j - (i + 1)];
      }
    }
  }

  /** Fail-fast: every call but the last succeeded, and logging succeeds
      exactly when every remaining entry made a call and every call
      succeeded. */
  lemma {:induction false} UploadFailFast(steps: seq<Step>, i: nat)
    requires i <= |steps|
    ensures var u := UploadFrom(steps, i);
      && (forall k :: 0 <= k < |u.calls| - 1 ==> u.calls[k].outcome.Success?)
      && (u.result.Success? <==> |u.calls| == |steps| - i && AllSucceeded(u.calls))
    decreases |steps| - i
  {
    if i < |steps| && steps[i].Called? && steps[i].call.outcome.Success? {
      var u, rest := UploadFrom(steps, i), UploadFrom(steps, i + 1);
      UploadFailFast(steps, i + 1);
      UploadCalls(steps, i + 1);
      assert u.calls == [steps[i].call] + rest.calls && u.result == rest.result;
      assert forall k :: 0 <= k < |rest.calls| ==> rest.calls[k] == u.calls[k + 1];
      assert forall k :: 1 <= k < |u.calls| ==> u.calls[k] == rest.calls[k - 1];
    } else if i < |steps| && steps[i].Called? {
      assert UploadFrom(steps, i).calls == [steps[i].call];
      assert UploadFrom(steps, i).calls[0].outcome.Failure?;
    }
  }

  /** How logging fails: either the entry after the last call (which, if
      there is one, succeeded) has attributes that do not resolve, or the
      last call failed; the error names that entry and the reason. */
  lemma {:induction false} UploadFailure(steps: seq<Step>, i: nat)
    requires i <= |steps|
    ensures var u := UploadFrom(steps, i);
      var n := |u.calls|;
      u.result.Failure? ==>
        || (&& i + n < |steps|
            && (n == 0 || u.calls[n - 1].outcome.Success?)
            && steps[i + n].Unresolved?
            && u.result.error == AttributeUnresolved(i + n, steps[i + n].reason))
        || (&& n > 0
            && u.calls[n - 1].outcome.Failure?
            && u.result.error == UploadFailed(i + n - 1, u.calls[n - 1].outcome.error))
    decreases |steps| - i
  {
    if i < |steps| && steps[i].Called? && steps[i].call.outcome.Success? {
      var u, rest := UploadFrom(steps, i), UploadFrom(steps, i + 1);
      UploadFailure(steps, i + 1);
      if rest.calls != [] {
        assert u.calls[|u.calls| - 1] == rest.calls[|rest.calls| - 1];
      }
    }
  }

  /** When no call fails, logging succeeds exactly when every remaining
      entry's attributes resolve. */
  lemma {:induction false} UploadWithoutFailedCalls(steps: seq<Step>, i: nat)
    requires i <= |steps|
    requires forall j :: 0 <= j < |steps| && steps[j].Called? ==> steps[j].call.outcome.Success?
    ensures UploadFrom(steps, i).result.Success? <==> forall j :: i <= j < |steps| ==> steps[j].Called?
    decreases |steps| - i
  {
    if i < |steps| && steps[i].Called? {
      UploadWithoutFailedCalls(steps, i + 1);
    }
  }

  /** Logging the plan makes at most one call per entry, and the call for
      entry `j` is the create-worklog call with that entry's worker, day,
      issue key and resolved attributes, answered by `responses[j]`. */
  lemma LogWorkCalls(client: JtClient, config: Config.Config, work: seq<PlanEntry>, responses: seq<Response>)
    requires ValidDays(work) && |work| <= |responses|
    ensures var u := UploadFrom(Steps(client, config, work, responses), 0);
      && |u.calls| <= |work|
      && forall j :: 0 <= j < |u.calls| ==>
           && EntryAttributes(config, work[j]).Success?
           && u.calls[j] == CreateWorklog(client, config.worker, work[j].day, work[j].task.key,
                                          EntryAttributes(config, work[j]).value, responses[j])
  {
    var steps := Steps(client, config, work, responses);
    UploadCalls(steps, 0);
    var u := UploadFrom(steps, 0);
    forall j | 0 <= j < |u.calls|
      ensures EntryAttributes(config, work[j]).Success?
      ensures u.calls[j] == CreateWorklog(client, config.worker, work[j].day, work[j].task.key,
                                          EntryAttributes(config, work[j]).value, responses[j])
    {
      assert steps[j] == Called(u.calls[j - 0]);
      StepsAt(client, config, work, responses, j);
      EntryStepOf(client, config, work[j], responses[j]);
    }
  }

  /** In dry-run mode no call is sent, and logging succeeds exactly when
      every entry's attributes resolve. */
  lemma LogWorkDryRun(client: JtClient, config: Config.Config, work: seq<PlanEntry>, responses: seq<Response>)
    requires ValidDays(work) && |work| <= |responses|
    requires client.dryRun
    ensures var u := UploadFrom(Steps(client, config, work, responses), 0);
      && (forall k :: 0 <= k < |u.calls| ==> !u.calls[k].sent)
      && (u.result.Success? <==> forall j :: 0 <= j < |work| ==> EntryAttributes(config, work[j]).Success?)
  {
    var steps := Steps(client, config, work, responses);
    forall j | 0 <= j < |work|
      ensures steps[j].Called? <==> EntryAttributes(config, work[j]).Success?
      ensures steps[j].Called? ==> steps[j].call.outcome.Success?
    {
      StepsAt(client, config, work, responses, j);
    }
    UploadCalls(steps, 0);
    UploadWithoutFailedCalls(steps, 0);
    var u := UploadFrom(steps, 0);
    forall k | 0 <= k < |u.calls| ensures !u.calls[k].sent {
      assert steps[k] == Called(u.calls[k - 0]);
      StepsAt(client, config, work, responses, k);
    }
  }

  /** One turn of the upload loop: resolve the entry's dynamic attributes,
      append the static ones, and make the create-worklog call. */
  method LogEntry(client: JtClient, config: Config.Config, entry: PlanEntry, response: Response) returns (step: Step)
    requires Valid(entry.day)
    ensures step == EntryStep(client, config, entry, response)
  {
    EntryStepOf(client, config, entry, response);
    var dynamics := ResolveDynamic(entry.task.fields, config.dynamicAttributes);
    if dynamics.Failure? {
      return Unresolved(dynamics.error);
    }
    var attributes := dynamics.value;
    attributes := attributes + config.staticAttributes;
    var call := CreateWorklog(client, config.worker, entry.day, entry.task.key, attributes, response);
    return Called(call);
  }

  /** The upload loop's invariant: the calls made so far, followed by
      logging from entry `i` on, is logging the whole plan. */
  ghost predicate LoggedUpTo(steps: seq<Step>, i: nat, calls: seq<WorklogCall>)
    requires i <= |steps|
  {
    UploadFrom(steps, 0) == Upload(calls + UploadFrom(steps, i).calls, UploadFrom(steps, i).result)
  }

  /** After a successful call the loop goes on with the next entry. */
  lemma LoggedNext(steps: seq<Step>, i: nat, calls: seq<WorklogCall>)
    requires i < |steps| && LoggedUpTo(steps, i, calls)
    requires steps[i].Called? && steps[i].call.outcome.Success?
    ensures LoggedUpTo(steps, i + 1, calls + [steps[i].call])
  {
    var rest := UploadFrom(steps, i + 1);
    assert calls + ([steps[i].call] + rest.calls) == (calls + [steps[i].call]) + rest.calls;
  }

  /** An entry whose attributes do not resolve ends logging with its error. */
  lemma LoggedUnresolved(steps: seq<Step>, i: nat, calls: seq<WorklogCall>)
    requires i < |steps| && LoggedUpTo(steps, i, calls)
    requires steps[i].Unresolved?
    ensures UploadFrom(steps, 0) == Upload(calls, Failure(AttributeUnresolved(i, steps[i].reason)))
  {
    assert calls + [] == calls;
  }

  /** A failed call ends logging with its error. */
  lemma LoggedFailedCall(steps: seq<Step>, i: nat, calls: seq<WorklogCall>)
    requires i < |steps| && LoggedUpTo(steps, i, calls)
    requires steps[i].Called? && steps[i].call.outcome.Failure?
    ensures UploadFrom(steps, 0) == Upload(calls + [steps[i].call], Failure(UploadFailed(i, steps[i].call.outcome.error)))
  {
  }

  /** The upload loop: one turn per plan entry, in plan order; the first
      failure ends the loop with its error. */
  method LogWork(client: JtClient, config: Config.Config, work: seq<PlanEntry>, responses: seq<Response>)
    returns (calls: seq<WorklogCall>, result: Result<(), FillError>)
    requires ValidDays(work) && |work| <= |responses|
    ensures Upload(calls, result) == UploadFrom(Steps(client, config, work, responses), 0)
  {
    ghost var steps := Steps(client, config, work, responses);
    calls := [];
    var i := 0;
    while i < |work|
      invariant 0 <= i <= |work|
      invariant LoggedUpTo(steps, i, calls)
    {
      var step := LogEntry(client, config, work[i], responses[i]);
      StepsAt(client, config, work, responses, i);
      if step.Unresolved? {
        LoggedUnresolved(steps, i, calls);
        return calls, Failure(AttributeUnresolved(i, step.reason));
      }
      var call := step.call;
      if call.outcome.Failure? {
        LoggedFailedCall(steps, i, calls);
        calls := calls + [call];
        return calls, Failure(UploadFailed(i, call.outcome.error));
      }
      LoggedNext(steps, i, calls);
      calls := calls + [call];
      i := i + 1;
    }
    assert calls + [] == calls;
    return calls, Success(());
  }

  /** The whole `fill` run over a fetched task list: plan the intended week,
      then log it. Planning completes before any worklog call, so a planning
      failure logs nothing; once the week can be planned, the calls and the
      result are exactly the fail-fast upload of that week's plan. */
  method Run(client: JtClient, config: Config.Config, tasks: seq<Issue>, now: Date, next: bool,
             choices: seq<int>, responses: seq<Response>)
    returns (calls: seq<WorklogCall>, result: Result<(), FillError>)
    requires Valid(now)
    requires |responses| >= 5
    ensures !CanPlan(tasks, choices) ==> calls == [] && result.Failure?
    ensures CanPlan(tasks, choices) ==>
      var work := WeekPlan(IntendedMonday(now, next), tasks, choices);
      Upload(calls, result) == UploadFrom(Steps(client, config, work, responses), 0)
    ensures result.Success? ==> CanPlan(tasks, choices) && |calls| == 5
    ensures result.Success? ==> forall d :: 0 <= d < 5 ==>
      var day := AddDays(IntendedMonday(now, next), d);
      && GoodChoice(tasks, choices, d)
      && calls[d].outcome.Success?
      && calls[d].sent == !client.dryRun
      && calls[d].request.started == FormatDate(day)
      && calls[d].request.originTaskId == tasks[choices[d]].key
      && calls[d].request.worker == config.worker
      && calls[d].request.timeSpentSeconds == 28800
  {
    var firstDay := IntendedMonday(now, next);
    var plan := PlanWeek(firstDay, tasks, choices);
    if plan.Failure? {
      return [], Failure(plan.error);
    }
    var work := plan.value;
    forall i | 0 <= i < |work| ensures Valid(work[i].day) {
      assert work[i].day == AddDays(firstDay, i);
    }
    calls, result := LogWork(client, config, work, responses);
    ghost var steps := Steps(client, config, work, responses);
    LogWorkCalls(client, config, work, responses);
    UploadFailFast(steps, 0);
    if result.Success? {
      forall d | 0 <= d < 5
        ensures calls[d].outcome.Success?
        ensures calls[d].sent == !client.dryRun
        ensures calls[d].request.started == FormatDate(AddDays(firstDay, d))
        ensures calls[d].request.originTaskId == tasks[choices[d]].key
        ensures calls[d].request.worker == config.worker
        ensures calls[d].request.timeSpentSeconds == 28800
      {
        assert work[d] == PlanEntry(AddDays(firstDay, d), tasks[choices[d]]);
      }
    }
  }
}
