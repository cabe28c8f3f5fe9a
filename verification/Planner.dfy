/** Turning a command into a plan without a model (apps/api/app/agents/planner.py, `DeterministicPlanner.plan`). What
    the patterns find in the text, and the entities extracted from it, come in as data: any outcome is possible. */
module Planner {
  import opened Values
  import opened Contracts
  import opened Decimal
  import opened Strings = Text
  import Bindings

  /** The pattern tests on the text. */
  datatype Test =
    | UpdateWord | RecordWord | InternetWord | OverviewWord | BothSidesWord | DocumentWord | AttendanceWord
    | ShortageWord
    | FeeWord | CollectionWord | PendingWord | ExamWord | HodWord | FacultyWord | StaffWord | ProgramWord
    | DepartmentWord
    | CourseWord | EventWord | AdmissionWord | ProfileWord | StudentWord | DashboardWord | ImportWord | QuestionMark

  datatype Entities = Entities(
    program: Option<string>, semester: Option<int>, threshold: Option<real>, department: Option<string>,
    studentId: Option<string>, academicYear: Option<string>, windowDays: Option<int>, reportFormat: Option<string>,
    recipients: seq<string>, recipientRole: Option<string>, wantsList: bool, wantsReport: bool, wantsEmail: bool,
    wantsNotification: bool, wantsCount: bool, fieldChange: Option<(string, Value)>)

  /** The command: its text, what was found in it, and the titles that depend on number formatting. */
  datatype Command = Command(text: string, holds: Test -> bool, entities: Entities, topics: seq<string>,
      lowAttendanceTitle: string)

  datatype AgentPlan = AgentPlan(intent: string, steps: seq<PlanStep>, clarification: Option<string>, confidence: real)

  /** What a later step reads from the result of an earlier one. */
  datatype Path = Students | Faculty | ReportIds | HodIds | FacultyIds

  /** The list a question was answered with, which a report or an email can be made of. */
  datatype Rows = Rows(path: Path, columns: seq<string>, title: string)

  /** What the chain of tests settles on. */
  datatype Choice =
    | Clarify(intent: string, question: string)
    | Update(field: string, value: Value, student: string)
    | Internet
    | Documents
    | Call(intent: string, tool: string, arguments: seq<(string, Value)>, purpose: string, rows: Option<Rows>)
    | Nothing

  // ------------------------------------------------------------------- arguments

  function Text(s: Option<string>): Value { if s.Some? then Str(s.value) else Null }

  function Whole(n: Option<int>): Value { if n.Some? then Int(n.value) else Null }

  function Texts(items: seq<string>): (r: seq<Value>)
    ensures |r| == |items|
  {
    if items == [] then [] else [Str(items[0])] + Texts(items[1..])
  }

  /** `None`, an empty text and an empty list are left out of a step's arguments. */
  predicate LeftOut(v: Value) {
    v == Null || v == Str("") || v == List([])
  }

  function Or(s: Option<string>, other: Option<string>): Option<string> {
    if s.Some? && s.value != "" then s else other
  }

  // ------------------------------------------------------------------- the chain of tests

  predicate Given(s: Option<string>) {
    s.Some? && s.value != ""
  }

  predicate ListNeeded(e: Entities) {
    e.wantsList || e.wantsReport || e.wantsEmail
  }

  function Filters(e: Entities): seq<(string, Value)> {
    [("program", Text(e.program)), ("semester", Whole(e.semester)), ("department", Text(e.department))]
  }

  function Limit(e: Entities): Value {
    if e.wantsReport || e.wantsEmail then Int(500) else Int(100)
  }

  function ForProgram(title: string, e: Entities): string {
    if Given(e.program) then title + " - " + e.program.value else title
  }

  function Choose(c: Command): Choice {
    var e, holds := c.entities, c.holds;
    if holds(UpdateWord) && Given(e.studentId) && e.fieldChange.Some? then
        Update(e.fieldChange.value.0, e.fieldChange.value.1, e.studentId.value)
    else if holds(UpdateWord) && holds(RecordWord) && e.fieldChange.None? then
      Clarify("update_student_record",
          "Tell me the student ID, the field to change (phone, email, semester, section, status, address), "
              + "and the new value.")
    else if holds(InternetWord) then Internet
    else if holds(DocumentWord) then Documents
    else if holds(AttendanceWord) then ChooseAttendance(c)
    else if holds(FeeWord) || (holds(CollectionWord) && (Given(e.program) || Given(e.academicYear))) then ChooseFees(c)
    else if holds(ExamWord) then ChooseExams(e)
    else if holds(HodWord) && !e.wantsEmail then
      Call("find_hod", "find_hod", [("department", Text(e.department)), ("program", Text(e.program))],
          "identify the head of department", None)
    else if holds(FacultyWord) then
      Call("find_faculty", "find_faculty",
           [("department", Text(Or(e.department, e.program))), ("limit", if e.wantsReport then Int(500)
               else Int(100))], "list faculty",
           Some(Rows(Faculty, ["faculty_id", "name", "designation", "department", "qualification"], "Faculty list")))
    else if holds(StaffWord) then Call("find_staff", "find_staff", [("department", Text(e.department))], "list staff",
        None)
    else if holds(ProgramWord) && !e.wantsCount then Call("list_programs", "list_programs", [], "list programs", None)
    else if holds(DepartmentWord) && !Given(e.program) then Call("list_departments", "list_departments", [],
        "list departments", None)
    else ChooseCampus(c)
  }

  function ChooseAttendance(c: Command): Choice {
    var e := c.entities;
    if e.threshold.Some? || c.holds(ShortageWord) then
      Call("low_attendance", "find_low_attendance",
           Filters(e) + [("threshold", Num(if e.threshold.Some? && e.threshold.value != 0.0 then e.threshold.value
               else 75.0)),
                         ("include_students", Bool(ListNeeded(e) || !e.wantsCount)), ("limit", Limit(e))],
           "find students below the attendance threshold",
           Some(Rows(Students, ["student_id", "name", "program", "semester", "attendance_percent", "classes_attended",
               "classes_held"],
                     ForProgram(c.lowAttendanceTitle, e))))
    else Call("attendance_summary", "get_attendance_summary", Filters(e), "summarise attendance", None)
  }

  function ChooseFees(c: Command): Choice {
    var e := c.entities;
    var about := [("program", Text(e.program)), ("semester", Whole(e.semester)),
        ("academic_year", Text(e.academicYear))];
    if !c.holds(PendingWord) then Call("fee_summary", "get_fee_summary", about, "summarise fee collection", None)
    else
      Call("pending_fees", "get_pending_fees",
           about + [("include_students", Bool(ListNeeded(e) || !e.wantsCount)), ("limit", Limit(e))],
               "find students with pending fees",
           Some(Rows(Students, ["student_id", "name", "program", "semester", "balance", "amount_due", "amount_paid",
               "earliest_due_date"],
                     ForProgram("Students with pending fees", e))))
  }

  function ChooseExams(e: Entities): Choice {
    if Given(e.studentId) then
      Call("student_results", "get_student_results", [("student_id", Text(e.studentId))],
          "fetch one student's results", None)
    else Call("exam_summary", "get_exam_summary", [("program", Text(e.program)), ("semester", Whole(e.semester))],
        "summarise exam performance", None)
  }

  function ChooseCampus(c: Command): Choice {
    var e, holds := c.entities, c.holds;
    if holds(CourseWord) then
      Call("list_courses", "list_courses", [("program", Text(e.program)), ("semester", Whole(e.semester))],
          "list courses", None)
    else if holds(EventWord) then
      Call("upcoming_events", "list_upcoming_events",
           [("days", if e.windowDays.Some? && e.windowDays.value != 0 then Int(e.windowDays.value) else Int(30))],
               "list upcoming events", None)
    else if holds(AdmissionWord) then
      Call("admissions_summary", "get_admissions_summary", [("program", Text(e.program))], "summarise admissions", None)
    else if Given(e.studentId) && holds(ProfileWord) then
      Call("get_student", "get_student", [("student_id", Text(e.studentId))], "fetch one student", None)
    else if holds(StudentWord) && e.wantsCount && !ListNeeded(e) then Call("count_students", "count_students",
        Filters(e), "count students", None)
    else if holds(StudentWord) then
      Call("find_students", "find_students", Filters(e) + [("limit", Limit(e))], "list students",
           Some(Rows(Students, ["student_id", "name", "program", "semester", "department", "section"],
               ForProgram("Student list", e))))
    else if holds(OverviewWord) || holds(DashboardWord) then
      Call("institution_summary", "get_institution_summary", [], "institution overview", None)
    else if holds(ImportWord) then Call("ingestion_status", "get_ingestion_status", [], "recent imports", None)
    else Nothing
  }

  // ------------------------------------------------------------------- sound plans

  /** The name of the step at a position. */
  function StepName(k: nat): (name: string)
    ensures |name| >= 2 && name[0] == 's'
  {
    "s" + Digits(k + 1)
  }

  lemma StepNamesDiffer(a: nat, b: nat)
    ensures StepName(a) == StepName(b) ==> a == b
  {
    NumberOfDigits(a + 1);
    NumberOfDigits(b + 1);
    assert StepName(a)[1..] == Digits(a + 1) && StepName(b)[1..] == Digits(b + 1);
  }

  /** A text that refers to step `k`. */
  predicate RefersTo(reference: string, k: nat) {
    var parsed := Bindings.ParseReference(reference);
    parsed.Some? && parsed.value.step == StepName(k)
  }

  /** A dependency on an earlier step. */
  ghost predicate EarlierStep(name: string, i: nat) {
    exists k: nat :: k < i && name == StepName(k)
  }

  /** A binding of an earlier step that the step also waits for. */
  ghost predicate EarlierOutput(reference: string, dependsOn: seq<string>, i: nat) {
    exists k: nat :: k < i && RefersTo(reference, k) && StepName(k) in dependsOn
  }

  ghost predicate WaitsForEarlier(dependsOn: seq<string>, i: nat) {
    forall d | d in dependsOn :: EarlierStep(d, i)
  }

  ghost predicate ReadsEarlier(bindings: seq<(string, string)>, dependsOn: seq<string>, i: nat) {
    forall j | 0 <= j < |bindings| :: EarlierOutput(bindings[j].1, dependsOn, i)
  }

  /** Step `i` of a plan: named by its position, on an available tool, waiting for and reading from earlier steps only,
      and waiting for everything it reads from. */
  ghost predicate SoundStep(step: PlanStep, i: nat, tools: map<string, string>) {
    && step.stepId == StepName(i) && step.tool in tools
    && WaitsForEarlier(step.dependsOn, i) && ReadsEarlier(step.bindings, step.dependsOn, i)
  }

  ghost predicate Sound(steps: seq<PlanStep>, tools: map<string, string>) {
    forall i | 0 <= i < |steps| :: SoundStep(steps[i], i, tools)
  }

  /** A sound plan of few steps passes the checks on plans, so building it never fails. */
  lemma SoundPlansAreValid(steps: seq<PlanStep>, tools: map<string, string>)
    requires Sound(steps, tools) && |steps| <= MAX_PLAN_STEPS
    ensures ValidPlan(steps)
  {
    forall i, j | 0 <= i < j < |steps| ensures steps[i].stepId != steps[j].stepId {
      assert SoundStep(steps[i], i, tools) && SoundStep(steps[j], j, tools);
      StepNamesDiffer(i, j);
    }
    forall i, d | 0 <= i < |steps| && d in steps[i].dependsOn ensures d in StepIds(steps) {
      assert SoundStep(steps[i], i, tools) && EarlierStep(d, i);
      var k: nat :| k < i && d == StepName(k);
      assert SoundStep(steps[k], k, tools);
      assert StepIds(steps)[k] == d;
    }
  }

  function AgentFor(group: string): string {
    if group in ["reports", "email", "notifications", "records"] then "action"
    else if group == "internet" then "internet"
    else "data"
  }

  /** The tools of the steps, in order. */
  function ToolsOf(steps: seq<PlanStep>): (names: seq<string>)
    ensures |names| == |steps| && forall i | 0 <= i < |steps| :: names[i] == steps[i].tool
  {
    seq(|steps|, i requires 0 <= i < |steps| => steps[i].tool)
  }

  /** The arguments are those given that say something. */
  ghost predicate Said(arguments: Args, given: seq<(string, Value)>) {
    && (forall name | name in arguments :: !LeftOut(arguments[name]) && (name, arguments[name]) in given)
    && (forall i | 0 <= i < |given| :: !LeftOut(given[i].1) ==> given[i].0 in arguments)
  }

  /** The arguments of a step: those given that say something. */
  method Fill(given: seq<(string, Value)>) returns (arguments: Args)
    ensures Said(arguments, given)
  {
    arguments := map[];
    for i := 0 to |given|
      invariant forall name | name in arguments :: !LeftOut(arguments[name]) && (name, arguments[name]) in given
      invariant forall j | 0 <= j < i :: !LeftOut(given[j].1) ==> given[j].0 in arguments
    {
      if !LeftOut(given[i].1) {
        arguments := arguments[given[i].0 := given[i].1];
      }
    }
  }

  /** Adding a step on an available tool, named after its position. */
  method Add(steps0: seq<PlanStep>, tools: map<string, string>, tool: string, arguments: Args, purpose: string,
             dependsOn: seq<string>, bindings: seq<(string, string)>) returns (steps: seq<PlanStep>, id: string)
    requires Sound(steps0, tools) && tool in tools
    requires WaitsForEarlier(dependsOn, |steps0|) && ReadsEarlier(bindings, dependsOn, |steps0|)
    ensures Sound(steps, tools) && |steps| == |steps0| + 1 && id == StepName(|steps0|) && steps[..|steps0|] == steps0
    ensures steps[|steps0|].tool == tool && steps[|steps0|].arguments == arguments
    ensures steps[|steps0|].dependsOn == dependsOn && steps[|steps0|].bindings == bindings
    ensures ToolsOf(steps) == ToolsOf(steps0) + [tool]
  {
    id := "s" + Digits(|steps0| + 1);
    var step := PlanStep(id, tool, arguments, purpose, dependsOn, bindings, AgentFor(tools[tool]));
    assert SoundStep(step, |steps0|, tools);
    steps := steps0 + [step];
  }

  // ------------------------------------------------------------------- references to earlier steps

  function Under(key: string, rest: string): string {
    "." + (key + rest)
  }

  function PathText(path: Path): string {
    match path
    case Students => Under("data", Under("students", ""))
    case Faculty => Under("data", Under("faculty", ""))
    case ReportIds => Under("data", Under("report_id", "[*]"))
    case HodIds => Under("data", Under("hods", FacultyIdOfEach()))
    case FacultyIds => Under("data", Under("faculty", FacultyIdOfEach()))
  }

  function FacultyIdOfEach(): string {
    "[*]" + Under("faculty_id", "")
  }

  predicate AllWordChars(name: string) {
    forall i | 0 <= i < |name| :: Bindings.WordChar(name[i])
  }

  lemma KeyParses(name: string, rest: string)
    requires name != "" && AllWordChars(name) && (rest == "" || !Bindings.WordChar(rest[0]))
            && Bindings.ParsePath(rest).Some?
    ensures Bindings.ParsePath(Under(name, rest)).Some?
  {
    var s := Under(name, rest);
    assert s[1..] == name + rest;
    assert forall i | 0 <= i < |name| :: (name + rest)[i] == name[i];
    assert rest != "" ==> (name + rest)[|name|] == rest[0];
    assert Bindings.Span(name + rest, Bindings.WordChar) == |name|;
    assert (name + rest)[..|name|] == name && (name + rest)[|name|..] == rest;
  }

  lemma EveryParses(rest: string)
    requires Bindings.ParsePath(rest).Some?
    ensures Bindings.ParsePath("[*]" + rest).Some?
  {
    var s := "[*]" + rest;
    assert s[3..] == rest;
  }

  /** Two keys and nothing, or something that starts with a bracket, after them. */
  lemma TwoKeysParse(first: string, second: string, rest: string)
    requires first != "" && AllWordChars(first) && second != "" && AllWordChars(second)
    requires (rest == "" || rest[0] == '[') && Bindings.ParsePath(rest).Some?
    ensures Bindings.ParsePath(Under(first, Under(second, rest))).Some?
  {
    KeyParses(second, rest);
    KeyParses(first, Under(second, rest));
  }

  lemma BracketsParse(rest: string)
    requires rest == "" || rest == "[*]" || rest == FacultyIdOfEach()
    ensures (rest == "" || rest[0] == '[') && Bindings.ParsePath(rest).Some?
  {
    if rest == "[*]" {
      EveryParses("");
      assert "[*]" + "" == "[*]";
    } else if rest == FacultyIdOfEach() {
      KeyParses("faculty_id", "");
      EveryParses(Under("faculty_id", ""));
    }
  }

  lemma DataParses(key: string, rest: string)
    requires key != "" && AllWordChars(key) && (rest == "" || rest == "[*]" || rest == FacultyIdOfEach())
    ensures Bindings.ParsePath(Under("data", Under(key, rest))).Some?
  {
    BracketsParse(rest);
    TwoKeysParse("data", key, rest);
  }

  lemma PathsParse(path: Path)
    ensures PathText(path) != "" && PathText(path)[0] == '.' && Bindings.ParsePath(PathText(path)).Some?
  {
    match path
    case Students => DataParses("students", "");
    case Faculty => DataParses("faculty", "");
    case ReportIds => DataParses("report_id", "[*]");
    case HodIds => DataParses("hods", FacultyIdOfEach());
    case FacultyIds => DataParses("faculty", FacultyIdOfEach());
  }

  function Reference(step: string, path: Path): string {
    "$" + step + PathText(path)
  }

  lemma ReferenceRefers(k: nat, path: Path)
    ensures RefersTo(Reference(StepName(k), path), k)
  {
    NameIsWord(k);
    PathsParse(path);
    RefersByName(k, PathText(path));
  }

  lemma OneMoreDependency(dependsOn: seq<string>, k: nat, i: nat)
    requires WaitsForEarlier(dependsOn, i) && k < i
    ensures WaitsForEarlier(dependsOn + [StepName(k)], i)
  {
    assert EarlierStep(StepName(k), i);
  }

  lemma OneMoreBinding(bindings: seq<(string, string)>, dependsOn: seq<string>, name: string, k: nat, path: Path,
      i: nat)
    requires ReadsEarlier(bindings, dependsOn, i) && k < i && StepName(k) in dependsOn
    ensures ReadsEarlier(bindings + [(name, Reference(StepName(k), path))], dependsOn, i)
  {
    ReferenceRefers(k, path);
    assert EarlierOutput(Reference(StepName(k), path), dependsOn, i);
  }

  lemma OnlyBinding(name: string, k: nat, path: Path, i: nat)
    requires k < i
    ensures WaitsForEarlier([StepName(k)], i) && ReadsEarlier([(name, Reference(StepName(k), path))], [StepName(k)], i)
  {
    OneMoreDependency([], k, i);
    OneMoreBinding([], [StepName(k)], name, k, path, i);
    assert [] + [StepName(k)] == [StepName(k)];
    assert [] + [(name, Reference(StepName(k), path))] == [(name, Reference(StepName(k), path))];
  }

  lemma NameIsWord(k: nat)
    ensures forall i | 0 <= i < |StepName(k)| :: Bindings.StepChar(StepName(k)[i])
  {
    var name := StepName(k);
    assert forall i | 1 <= i < |name| :: name[i] == Digits(k + 1)[i - 1] && IsDigit(name[i]);
  }

  lemma RefersByName(k: nat, path: string)
    requires path != "" && path[0] == '.' && Bindings.ParsePath(path).Some?
    requires forall i | 0 <= i < |StepName(k)| :: Bindings.StepChar(StepName(k)[i])
    ensures RefersTo("$" + StepName(k) + path, k)
  {
    Bindings.ReferenceNamesStep(StepName(k), path);
  }

  // ------------------------------------------------------------------- planning

  predicate IsRole(role: Option<string>, name: string) {
    role == Some(name)
  }

  function Asking(intent: string, steps: seq<PlanStep>, question: string): AgentPlan {
    AgentPlan(intent, steps, Some(question), 1.0)
  }

  const NO_PERMISSION := "This request needs a tool which your role does not have permission to use."
  const UNMAPPED := "I could not map this request to an institutional tool."
  const DETERMINISTIC_LAST_RESORT: real := 0.4

  /** A step that waits for nothing. */
  method AddFinder(steps0: seq<PlanStep>, tools: map<string, string>, tool: string, given: seq<(string, Value)>,
      purpose: string)
      returns (steps: seq<PlanStep>, id: string)
    requires Sound(steps0, tools) && tool in tools
    ensures Sound(steps, tools) && |steps| == |steps0| + 1 && id == StepName(|steps0|) && steps[..|steps0|] == steps0
    ensures steps[|steps0|].tool == tool && Said(steps[|steps0|].arguments, given)
    ensures ToolsOf(steps) == ToolsOf(steps0) + [tool]
  {
    var arguments := Fill(given);
    steps, id := Add(steps0, tools, tool, arguments, purpose, [], []);
  }

  /** How a recipient named by role is looked up. */
  datatype Lookup = Lookup(tool: string, given: seq<(string, Value)>, purpose: string, path: Path, permission: string)

  function LookupFor(e: Entities): Option<Lookup> {
    if IsRole(e.recipientRole, "hod") then
      Some(Lookup("find_hod", [("department", Text(e.department)), ("program", Text(e.program))],
          "resolve the HOD as recipient", HodIds,
                  "Finding the head of department requires the faculty:read permission."))
    else if IsRole(e.recipientRole, "principal") || IsRole(e.recipientRole, "dean") then
      Some(Lookup("find_faculty", [("designation", Text(e.recipientRole)), ("limit", Int(5))],
          "resolve the " + e.recipientRole.value + " as recipient", FacultyIds,
                  "Finding the principal requires the faculty:read permission."))
    else None
  }

  const WHO :=
    "Who should receive the email? Name a person from the directory (for example 'the HOD') "
    + "or an institutional email address."

  /** The tool that finds the recipient, if there is one to be found. */
  function FinderOf(lookup: Option<Lookup>): seq<string> {
    if lookup.Some? then [lookup.value.tool] else []
  }

  /** What step `k` finds, if it finds a recipient. */
  function FoundBy(lookup: Option<Lookup>, k: nat): Option<(string, Path)> {
    if lookup.Some? then Some((StepName(k), lookup.value.path)) else None
  }

  /** Nobody to write to: no named recipient, or one that the available tools cannot find. */
  predicate NobodyToMail(tools: map<string, string>, e: Entities) {
    if IsRole(e.recipientRole, "hod") then "find_hod" !in tools
    else if IsRole(e.recipientRole, "principal") || IsRole(e.recipientRole, "dean") then "find_faculty" !in tools
    else e.recipients == []
  }

  /** The recipient cannot be found, or there is none. */
  predicate Unmailable(tools: map<string, string>, e: Entities, lookup: Option<Lookup>) {
    if lookup.Some? then lookup.value.tool !in tools else e.recipients == []
  }

  lemma UnmailableIsNobody(tools: map<string, string>, e: Entities)
    ensures Unmailable(tools, e, LookupFor(e)) <==> NobodyToMail(tools, e)
  {
  }

  /** Who the email goes to: a step that finds the recipient if one is needed, or what to say when there is none. */
  method Recipients(steps0: seq<PlanStep>, tools: map<string, string>, e: Entities, lookup: Option<Lookup>)
      returns (steps: seq<PlanStep>, found: Option<(string, Path)>, refused: Option<string>)
    requires Sound(steps0, tools)
    ensures Sound(steps, tools) && |steps0| <= |steps| <= |steps0| + 1
    ensures found.Some? ==> |steps| == |steps0| + 1
    ensures refused.Some? ==> steps == steps0
    ensures refused.None? ==> found == FoundBy(lookup, |steps0|) && ToolsOf(steps) == ToolsOf(steps0) + FinderOf(lookup)
    ensures refused.Some? <==> Unmailable(tools, e, lookup)
    ensures steps[..|steps0|] == steps0
  {
    steps, found, refused := steps0, None, None;
    if lookup.Some? {
      if lookup.value.tool !in tools {
        refused := Some(lookup.value.permission);
        return;
      }
      var id;
      steps, id := AddFinder(steps0, tools, lookup.value.tool, lookup.value.given, lookup.value.purpose);
      found := Some((id, lookup.value.path));
    } else if e.recipients == [] {
      refused := Some(WHO);
    }
  }

  /** A report of the rows that the first step lists. */
  method AddReport(steps0: seq<PlanStep>, tools: map<string, string>, c: Command, rows: Rows, purpose: string)
      returns (steps: seq<PlanStep>, id: string)
    requires Sound(steps0, tools) && |steps0| == 1 && "generate_report" in tools
    ensures Sound(steps, tools) && |steps| == 2 && id == StepName(1) && steps[..1] == steps0
    ensures ToolsOf(steps) == ToolsOf(steps0) + ["generate_report"]
    ensures steps[1].dependsOn == [steps0[0].stepId]
    ensures steps[1].bindings == [("rows", Reference(steps0[0].stepId, rows.path))]
    ensures Said(steps[1].arguments, ReportOf(c, rows))
  {
    var primary := steps0[0].stepId;
    assert SoundStep(steps0[0], 0, tools);
    OnlyBinding("rows", 0, rows.path, 1);
    var arguments := ReportArguments(c, rows);
    steps, id := Add(steps0, tools, "generate_report", arguments, purpose, [primary],
        [("rows", Reference(primary, rows.path))]);
  }

  /** What a report is told: the title and columns of its list, and the format asked for. */
  function ReportOf(c: Command, rows: Rows): seq<(string, Value)> {
    [("title", Str(rows.title)),
     ("format", Str(if Given(c.entities.reportFormat) then c.entities.reportFormat.value else "xlsx")),
     ("columns", List(Texts(rows.columns)))]
  }

  method ReportArguments(c: Command, rows: Rows) returns (arguments: Args)
    ensures Said(arguments, ReportOf(c, rows))
  {
    var format := if Given(c.entities.reportFormat) then c.entities.reportFormat.value else "xlsx";
    arguments := Fill([("title", Str(rows.title)), ("format", Str(format)), ("columns", List(Texts(rows.columns)))]);
  }

  /** The email with the report, to the people named or the person a step finds. */
  method AddEmail(steps0: seq<PlanStep>, tools: map<string, string>, c: Command, lookup: Option<Lookup>,
                  report: Option<string>, title: string)
      returns (steps: seq<PlanStep>, refused: Option<string>)
    requires Sound(steps0, tools) && 1 <= |steps0| <= 2 && "send_email" in tools
    requires report.Some? ==> report.value == StepName(1) && |steps0| == 2
    ensures Sound(steps, tools) && |steps0| <= |steps| <= |steps0| + 2 && steps[..|steps0|] == steps0
    ensures refused.Some? <==> Unmailable(tools, c.entities, lookup)
    ensures refused.None? ==> ToolsOf(steps) == ToolsOf(steps0) + (FinderOf(lookup) + ["send_email"])
    ensures refused.None? ==>
            |steps| > |steps0| && Mails(steps[|steps| - 1], c, FoundBy(lookup, |steps0|), report, title)
  {
    var found;
    steps, found, refused := Recipients(steps0, tools, c.entities, lookup);
    if refused.None? {
      ghost var middle := steps;
      steps := SendTo(steps, tools, c, found, |steps0|, report, title);
      assert middle[..|steps0|] == steps0;
      EmailToolsFollow(ToolsOf(steps0), FinderOf(lookup));
    }
  }

  lemma EmailToolsFollow(front: seq<string>, finder: seq<string>)
    ensures front + finder + ["send_email"] == front + (finder + ["send_email"])
  {
  }

  /** The email goes to the named recipients or to the one that a step finds, with the report if there is one. */
  ghost predicate Mails(step: PlanStep, c: Command, found: Option<(string, Path)>, report: Option<string>,
      title: string)
  {
    && step.tool == "send_email" && Said(step.arguments, EmailOf(c, title))
    && step.bindings ==
         (if found.Some? then [("recipients", Reference(found.value.0, found.value.1))] else [])
         + (if report.Some? then [("report_ids", Reference(report.value, ReportIds))] else [])
    && step.dependsOn == (if report.Some? then [report.value] else []) + (if found.Some? then [found.value.0] else [])
  }

  /** What an email is told. */
  function EmailOf(c: Command, title: string): seq<(string, Value)> {
    [("recipients", List(Texts(c.entities.recipients))), ("subject", Str(title)),
     ("body", Str("Please find the requested report: " + title
                  + ". This message was generated from the institutional assistant for the command: \""
                  + Clip(c.text, 200) + "\"."))]
  }

  /** The email step, once it is known who finds the recipient. */
  method SendTo(steps0: seq<PlanStep>, tools: map<string, string>, c: Command, found: Option<(string, Path)>,
                ghost at: nat, report: Option<string>, title: string)
      returns (steps: seq<PlanStep>)
    requires Sound(steps0, tools) && "send_email" in tools
    requires found.Some? ==> found.value.0 == StepName(at) && at < |steps0|
    requires report.Some? ==> report.value == StepName(1) && |steps0| >= 2
    ensures Sound(steps, tools) && |steps| == |steps0| + 1 && steps[..|steps0|] == steps0
    ensures ToolsOf(steps) == ToolsOf(steps0) + ["send_email"]
    ensures Mails(steps[|steps0|], c, found, report, title)
  {
    var depends: seq<string>, bindings: seq<(string, string)> := [], [];
    if report.Some? {
      depends := depends + [report.value];
      OneMoreDependency([], 1, |steps0|);
    }
    ghost var depends0 := depends;
    if found.Some? {
      depends := depends + [found.value.0];
      bindings := bindings + [("recipients", Reference(found.value.0, found.value.1))];
      OneMoreDependency(depends0, at, |steps0|);
      OneMoreBinding([], depends, "recipients", at, found.value.1, |steps0|);
    }
    if report.Some? {
      OneMoreBinding(bindings, depends, "report_ids", 1, ReportIds, |steps0|);
      bindings := bindings + [("report_ids", Reference(report.value, ReportIds))];
    }
    var arguments := EmailArguments(c, title);
    var id;
    steps, id := Add(steps0, tools, "send_email", arguments, "send the report by email", depends, bindings);
  }

  method EmailArguments(c: Command, title: string) returns (arguments: Args)
    ensures Said(arguments, EmailOf(c, title))
  {
    var body := "Please find the requested report: " + title
                + ". This message was generated from the institutional assistant for the command: \""
                    + Clip(c.text, 200) + "\".";
    arguments := Fill([("recipients", List(Texts(c.entities.recipients))), ("subject", Str(title)),
        ("body", Str(body))]);
  }

  /** A report, email or notification that is asked for and cannot be made. */
  predicate Refused(tools: map<string, string>, e: Entities, rows: Option<Rows>) {
    rows.Some?
    && ((e.wantsReport && "generate_report" !in tools)
        || (e.wantsEmail && ("send_email" !in tools || NobodyToMail(tools, e))))
  }

  /** The tools for a report, when there is a list to report and either it or an email is asked for. */
  function ReportTools(tools: map<string, string>, e: Entities, rows: Option<Rows>): seq<string> {
    if rows.Some? && (e.wantsReport || (e.wantsEmail && "generate_report" in tools)) then ["generate_report"] else []
  }

  function EmailTools(e: Entities, rows: Option<Rows>): seq<string> {
    if rows.Some? && e.wantsEmail then FinderOf(LookupFor(e)) + ["send_email"] else []
  }

  function NotificationTools(tools: map<string, string>, e: Entities): seq<string> {
    if e.wantsNotification && "create_notification" in tools then ["create_notification"] else []
  }

  /** All tools that follow the one that answers the command. */
  function FollowUpTools(tools: map<string, string>, e: Entities, rows: Option<Rows>): seq<string> {
    ReportTools(tools, e, rows) + (EmailTools(e, rows) + NotificationTools(tools, e))
  }

  /** The report, the email and the notification that a command asks for on top of its answer: all of them, or a refusal
      when one cannot be made. */
  method FollowUp(steps0: seq<PlanStep>, tools: map<string, string>, c: Command, rows: Option<Rows>)
      returns (steps: seq<PlanStep>, refused: Option<string>)
    requires Sound(steps0, tools) && |steps0| == 1
    ensures Sound(steps, tools) && 1 <= |steps| <= 5 && steps[0] == steps0[0]
    ensures refused.Some? <==> Refused(tools, c.entities, rows)
    ensures refused.None? ==> ToolsOf(steps) == ToolsOf(steps0) + FollowUpTools(tools, c.entities, rows)
  {
    steps, refused := steps0, None;
    var e := c.entities;
    if rows.Some? {
      steps, refused := ReportAndEmail(steps0, tools, c, rows.value);
      if refused.Some? {
        return;
      }
    }
    ghost var middle := steps;
    var title := if rows.Some? then rows.value.title else "Report";
    if e.wantsNotification && "create_notification" in tools {
      steps := AddNotification(steps, tools, c, title);
      assert steps[0] == steps[..|middle|][0];
    }
    ThreeFollow(ToolsOf(steps0), ReportTools(tools, e, rows), EmailTools(e, rows), NotificationTools(tools, e));
    Unchanged(ToolsOf(middle));
  }

  lemma Unchanged(names: seq<string>)
    ensures names + [] == names
  {
  }

  lemma ThreeFollow(a: seq<string>, b: seq<string>, c: seq<string>, d: seq<string>)
    ensures (a + (b + c)) + d == a + (b + (c + d)) && (a + b) + c == a + (b + c)
    ensures a + ([] + []) == a
  {
  }

  function ListTools(tools: map<string, string>, e: Entities, rows: Rows): seq<string> {
    ReportTools(tools, e, Some(rows)) + EmailTools(e, Some(rows))
  }

  /** The report and the email of a list. */
  method ReportAndEmail(steps0: seq<PlanStep>, tools: map<string, string>, c: Command, rows: Rows)
      returns (steps: seq<PlanStep>, refused: Option<string>)
    requires Sound(steps0, tools) && |steps0| == 1
    ensures Sound(steps, tools) && 1 <= |steps| <= 4 && steps[0] == steps0[0]
    ensures refused.Some? <==> Refused(tools, c.entities, Some(rows))
    ensures refused.None? ==> ToolsOf(steps) == ToolsOf(steps0) + ListTools(tools, c.entities, rows)
  {
    var report;
    steps, report, refused := WantedReport(steps0, tools, c, rows);
    ghost var middle := steps;
    if refused.None? && c.entities.wantsEmail {
      steps, refused := FollowUpEmail(steps, tools, c, rows, report);
    }
    if refused.None? {
      ListToolsFollow(tools, c.entities, rows, ToolsOf(steps0));
      Unchanged(ToolsOf(middle));
    }
  }

  /** The report that is asked for itself. */
  function Wanted(e: Entities): seq<string> {
    if e.wantsReport then ["generate_report"] else []
  }

  lemma ListToolsFollow(tools: map<string, string>, e: Entities, rows: Rows, front: seq<string>)
    requires e.wantsReport ==> "generate_report" in tools
    ensures front + Wanted(e) + (if e.wantsEmail then MailTools(tools, e, e.wantsReport) else []) ==
            front + ListTools(tools, e, rows)
  {
    ThreeFollow(front, Wanted(e), if e.wantsEmail then MailTools(tools, e, e.wantsReport) else [], []);
  }

  method WantedReport(steps0: seq<PlanStep>, tools: map<string, string>, c: Command, rows: Rows)
      returns (steps: seq<PlanStep>, report: Option<string>, refused: Option<string>)
    requires Sound(steps0, tools) && |steps0| == 1
    ensures Sound(steps, tools) && 1 <= |steps| <= 2 && steps[0] == steps0[0]
    ensures refused.Some? <==> c.entities.wantsReport && "generate_report" !in tools
    ensures refused.None? ==> ToolsOf(steps) == ToolsOf(steps0) + Wanted(c.entities)
    ensures if report.Some? then report.value == StepName(1) && |steps| == 2 else |steps| == 1
    ensures refused.None? ==> (report.Some? <==> c.entities.wantsReport)
  {
    steps, report, refused := steps0, None, None;
    if c.entities.wantsReport {
      if "generate_report" !in tools {
        refused := Some("Creating reports requires the reports:generate permission, which your role does not have.");
        return;
      }
      var id;
      steps, id := AddReport(steps, tools, c, rows, "create a report");
      report := Some(id);
      assert steps[0] == steps[..1][0];
    }
    Unchanged(ToolsOf(steps0));
  }

  /** The tools for an email: the report if it is still to be made, the one that finds the recipient, and the email. */
  function MailTools(tools: map<string, string>, e: Entities, reported: bool): seq<string> {
    Attached(tools, reported) + (FinderOf(LookupFor(e)) + ["send_email"])
  }

  method FollowUpEmail(steps0: seq<PlanStep>, tools: map<string, string>, c: Command, rows: Rows,
      report0: Option<string>)
      returns (steps: seq<PlanStep>, refused: Option<string>)
    requires Sound(steps0, tools) && if report0.Some? then report0.value == StepName(1)
            && |steps0| == 2 else |steps0| == 1
    ensures Sound(steps, tools) && 1 <= |steps| <= 4 && steps[0] == steps0[0]
    ensures refused.Some? <==> "send_email" !in tools || NobodyToMail(tools, c.entities)
    ensures refused.None? ==> ToolsOf(steps) == ToolsOf(steps0) + MailTools(tools, c.entities, report0.Some?)
  {
    steps, refused := steps0, None;
    if "send_email" !in tools {
      refused := Some("Sending email requires the actions:email permission, which your role does not include.");
      return;
    }
    var report;
    steps, report := AttachReport(steps0, tools, c, rows, report0);
    ghost var middle := steps;
    steps, refused := MailReport(steps, tools, c, report, rows.title);
    ThreeFollow(ToolsOf(steps0), Attached(tools, report0.Some?), FinderOf(LookupFor(c.entities)) + ["send_email"], []);
  }

  method MailReport(steps0: seq<PlanStep>, tools: map<string, string>, c: Command, report: Option<string>,
      title: string)
      returns (steps: seq<PlanStep>, refused: Option<string>)
    requires Sound(steps0, tools) && 1 <= |steps0| <= 2 && "send_email" in tools
    requires report.Some? ==> report.value == StepName(1) && |steps0| == 2
    ensures Sound(steps, tools) && 1 <= |steps| <= 4 && steps[0] == steps0[0]
    ensures refused.Some? <==> NobodyToMail(tools, c.entities)
    ensures refused.None? ==> ToolsOf(steps) == ToolsOf(steps0) + (FinderOf(LookupFor(c.entities)) + ["send_email"])
  {
    UnmailableIsNobody(tools, c.entities);
    steps, refused := AddEmail(steps0, tools, c, LookupFor(c.entities), report, title);
    assert steps[0] == steps[..|steps0|][0];
  }

  /** The report that an email is to carry, if it is not made yet and can be. */
  function Attached(tools: map<string, string>, reported: bool): seq<string> {
    if !reported && "generate_report" in tools then ["generate_report"] else []
  }

  method AttachReport(steps0: seq<PlanStep>, tools: map<string, string>, c: Command, rows: Rows,
      report0: Option<string>)
      returns (steps: seq<PlanStep>, report: Option<string>)
    requires Sound(steps0, tools) && if report0.Some? then report0.value == StepName(1)
            && |steps0| == 2 else |steps0| == 1
    ensures Sound(steps, tools) && 1 <= |steps| <= 2 && steps[0] == steps0[0]
    ensures report.Some? ==> report.value == StepName(1) && |steps| == 2
    ensures ToolsOf(steps) == ToolsOf(steps0) + Attached(tools, report0.Some?)
  {
    steps, report := steps0, report0;
    if report.None? && "generate_report" in tools {
      var id;
      steps, id := AddReport(steps, tools, c, rows, "create the report to attach");
      report := Some(id);
      assert steps[0] == steps[..1][0];
    }
    Unchanged(ToolsOf(steps0));
  }

  method AddNotification(steps0: seq<PlanStep>, tools: map<string, string>, c: Command, title: string)
      returns (steps: seq<PlanStep>)
    requires Sound(steps0, tools) && steps0 != [] && "create_notification" in tools
    ensures Sound(steps, tools) && |steps| == |steps0| + 1 && steps[..|steps0|] == steps0
    ensures ToolsOf(steps) == ToolsOf(steps0) + ["create_notification"]
  {
    var last := steps0[|steps0| - 1];
    assert SoundStep(last, |steps0| - 1, tools);
    OneMoreDependency([], |steps0| - 1, |steps0|);
    assert [] + [last.stepId] == [last.stepId];
    var arguments := Fill([("title", Str(Clip(title, 200))), ("body", Str("The assistant completed: "
        + Clip(c.text, 300)))]);
    var id;
    steps, id := Add(steps0, tools, "create_notification", arguments, "notify the requester", [last.stepId], []);
  }

  /** The institution's own summary, when both sides are asked for and it may be read. */
  function BothSides(tools: map<string, string>, c: Command): seq<string> {
    if (c.holds(OverviewWord) || c.holds(BothSidesWord)) && "get_institution_summary" in tools then
      ["get_institution_summary"]
    else []
  }

  /** What a search of public sources is given: the last 7 days unless the command names others. */
  function Investigation(c: Command): seq<(string, Value)> {
    var days := c.entities.windowDays;
    [("question", Str(Clip(c.text, 300))), ("window_days", Int(if days.Some?
        && days.value != 0 then days.value else 7)),
     ("topics", List(Texts(c.topics)))]
  }

  /** The search of public sources, with the institution's own summary when both sides are asked for. */
  method PlanInternet(tools: map<string, string>, c: Command) returns (steps: seq<PlanStep>)
    requires "internet_investigate" in tools
    ensures Sound(steps, tools) && 1 <= |steps| <= 2
    ensures ToolsOf(steps) == ["internet_investigate"] + BothSides(tools, c)
    ensures Said(steps[0].arguments, Investigation(c))
  {
    var id;
    steps, id := AddFinder([], tools, "internet_investigate", Investigation(c),
                           "search public sources about the institution");
    if (c.holds(OverviewWord) || c.holds(BothSidesWord)) && "get_institution_summary" in tools {
      steps, id := AddFinder(steps, tools, "get_institution_summary", [],
          "combine internal indicators with public information");
    }
  }

  method PlanOne(tools: map<string, string>, tool: string, given: seq<(string, Value)>, purpose: string)
      returns (steps: seq<PlanStep>)
    requires tool in tools
    ensures Sound(steps, tools) && |steps| == 1 && Said(steps[0].arguments, given)
    ensures ToolsOf(steps) == [tool]
  {
    var id;
    steps, id := AddFinder([], tools, tool, given, purpose);
  }

  // ------------------------------------------------------------------- which tools a command leads to

  /** A question comes back instead of a plan that can be run: the command is incomplete, a tool is missing, or nothing
      is mapped to it. */
  predicate AsksBack(tools: map<string, string>, c: Command) {
    match Choose(c)
    case Clarify(_, _) => true
    case Update(_, _, _) => "update_student_record" !in tools
    case Internet => "internet_investigate" !in tools
    case Documents => "search_documents" !in tools
    case Call(_, tool, _, _, rows) => tool !in tools || Refused(tools, c.entities, rows)
    case Nothing => "search_documents" !in tools || !c.holds(QuestionMark)
  }

  /** The tools of a plan that can be run, in order. */
  function PlannedTools(tools: map<string, string>, c: Command): seq<string> {
    match Choose(c)
    case Clarify(_, _) => []
    case Update(_, _, _) => ["update_student_record"]
    case Internet => ["internet_investigate"] + BothSides(tools, c)
    case Documents => ["search_documents"]
    case Call(_, tool, _, _, rows) => [tool] + FollowUpTools(tools, c.entities, rows)
    case Nothing => ["search_documents"]
  }

  /** What the first step of a plan that can be run is given. */
  function Opening(c: Command): seq<(string, Value)> {
    match Choose(c)
    case Update(field, value, student) => [("student_id", Str(student)), ("changes", Obj(map[field := value]))]
    case Internet => Investigation(c)
    case Call(_, _, arguments, _, _) => arguments
    case _ => [("question", Str(Clip(c.text, 500)))]
  }

  predicate HasFee(c: Command) {
    c.holds(FeeWord) || (c.holds(CollectionWord) && (Given(c.entities.program) || Given(c.entities.academicYear)))
  }

  /** The rules by which a command leads to a tool, in the order in which they are tried. */
  predicate Applies(c: Command, rule: nat) {
    var e, holds := c.entities, c.holds;
    match rule
    case 0 => holds(UpdateWord) && Given(e.studentId) && e.fieldChange.Some?
    case 1 => holds(UpdateWord) && holds(RecordWord) && e.fieldChange.None?
    case 2 => holds(InternetWord)
    case 3 => holds(DocumentWord)
    case 4 => holds(AttendanceWord) && (e.threshold.Some? || holds(ShortageWord))
    case 5 => holds(AttendanceWord)
    case 6 => HasFee(c) && holds(PendingWord)
    case 7 => HasFee(c)
    case 8 => holds(ExamWord) && Given(e.studentId)
    case 9 => holds(ExamWord)
    case 10 => holds(HodWord) && !e.wantsEmail
    case 11 => holds(FacultyWord)
    case 12 => holds(StaffWord)
    case 13 => holds(ProgramWord) && !e.wantsCount
    case 14 => holds(DepartmentWord) && !Given(e.program)
    case 15 => holds(CourseWord)
    case 16 => holds(EventWord)
    case 17 => holds(AdmissionWord)
    case 18 => Given(e.studentId) && holds(ProfileWord)
    case 19 => holds(StudentWord) && e.wantsCount && !ListNeeded(e)
    case 20 => holds(StudentWord)
    case 21 => holds(OverviewWord) || holds(DashboardWord)
    case 22 => holds(ImportWord)
    case 23 => holds(QuestionMark)
    case _ => true
  }

  const RULES: nat := 25

  /** The tool that a rule leads to; without one, a question comes back. */
  function ToolOfRule(rule: nat): Option<string> {
    match rule
    case 0 => Some("update_student_record")
    case 1 => None
    case 2 => Some("internet_investigate")
    case 3 => Some("search_documents")
    case 4 => Some("find_low_attendance")
    case 5 => Some("get_attendance_summary")
    case 6 => Some("get_pending_fees")
    case 7 => Some("get_fee_summary")
    case 8 => Some("get_student_results")
    case 9 => Some("get_exam_summary")
    case 10 => Some("find_hod")
    case 11 => Some("find_faculty")
    case 12 => Some("find_staff")
    case 13 => Some("list_programs")
    case 14 => Some("list_departments")
    case 15 => Some("list_courses")
    case 16 => Some("list_upcoming_events")
    case 17 => Some("get_admissions_summary")
    case 18 => Some("get_student")
    case 19 => Some("count_students")
    case 20 => Some("find_students")
    case 21 => Some("get_institution_summary")
    case 22 => Some("get_ingestion_status")
    case 23 => Some("search_documents")
    case _ => None
  }

  /** The tool that a command leads to. */
  function ChosenTool(c: Command): Option<string> {
    match Choose(c)
    case Clarify(_, _) => None
    case Update(_, _, _) => Some("update_student_record")
    case Internet => Some("internet_investigate")
    case Documents => Some("search_documents")
    case Call(_, tool, _, _, _) => Some(tool)
    case Nothing => if c.holds(QuestionMark) then Some("search_documents") else None
  }

  /** No rule before this one applies. */
  ghost predicate IsFirst(c: Command, rule: nat) {
    Applies(c, rule) && forall earlier: nat | earlier < rule :: !Applies(c, earlier)
  }

  lemma UpdateRuleDecides(c: Command, rule: nat)
    requires rule < 4 && IsFirst(c, rule)
    ensures ChosenTool(c) == ToolOfRule(rule)
  {
    assert (0 < rule ==> !Applies(c, 0)) && (1 < rule ==> !Applies(c, 1)) && (2 < rule ==> !Applies(c, 2));
  }

  lemma NoUpdateRule(c: Command, rule: nat)
    requires 4 <= rule && IsFirst(c, rule)
    ensures !c.holds(InternetWord) && !c.holds(DocumentWord)
    ensures c.holds(UpdateWord) ==> !Given(c.entities.studentId) || c.entities.fieldChange.None?
    ensures c.holds(UpdateWord) && c.holds(RecordWord) ==> c.entities.fieldChange.Some?
  {
    assert !Applies(c, 0) && !Applies(c, 1) && !Applies(c, 2) && !Applies(c, 3);
  }

  predicate Leads(choice: Choice, rule: nat) {
    choice.Call? && Some(choice.tool) == ToolOfRule(rule)
  }

  lemma NumbersDecide(c: Command)
    ensures c.holds(AttendanceWord) ==> Leads(ChooseAttendance(c), if Applies(c, 4) then 4 else 5)
    ensures HasFee(c) ==> Leads(ChooseFees(c), if Applies(c, 6) then 6 else 7)
    ensures Leads(ChooseExams(c.entities), if Given(c.entities.studentId) then 8 else 9)
  {
  }

  lemma NumberRuleDecides(c: Command, rule: nat)
    requires 4 <= rule < 10 && IsFirst(c, rule)
    ensures ChosenTool(c) == ToolOfRule(rule)
  {
    NoUpdateRule(c, rule);
    NumbersDecide(c);
    assert (4 < rule ==> !Applies(c, 4)) && (5 < rule ==> !Applies(c, 5)) && (6 < rule ==> !Applies(c, 6));
    assert (7 < rule ==> !Applies(c, 7)) && (8 < rule ==> !Applies(c, 8));
  }

  lemma NoEarlyRule(c: Command, rule: nat)
    requires 10 <= rule && IsFirst(c, rule)
    ensures !c.holds(InternetWord) && !c.holds(DocumentWord) && !c.holds(AttendanceWord) && !HasFee(c)
    ensures !c.holds(ExamWord) && (c.holds(UpdateWord) ==> !Given(c.entities.studentId) || c.entities.fieldChange.None?)
    ensures c.holds(UpdateWord) && c.holds(RecordWord) ==> c.entities.fieldChange.Some?
  {
    NoUpdateRule(c, rule);
    assert !Applies(c, 5) && !Applies(c, 7) && !Applies(c, 9);
  }

  lemma StaffRuleDecides(c: Command, rule: nat)
    requires 10 <= rule < 15 && IsFirst(c, rule)
    ensures ChosenTool(c) == ToolOfRule(rule)
  {
    NoEarlyRule(c, rule);
    assert (10 < rule ==> !Applies(c, 10)) && (11 < rule ==> !Applies(c, 11)) && (12 < rule ==> !Applies(c, 12));
    assert (13 < rule ==> !Applies(c, 13));
  }

  lemma NoStaffRule(c: Command, rule: nat)
    requires 15 <= rule && IsFirst(c, rule)
    ensures Choose(c) == ChooseCampus(c)
  {
    NoEarlyRule(c, rule);
    assert !Applies(c, 10) && !Applies(c, 11) && !Applies(c, 12) && !Applies(c, 13) && !Applies(c, 14);
  }

  lemma CampusRuleDecides(c: Command, rule: nat)
    requires 15 <= rule < 19 && IsFirst(c, rule)
    ensures ChosenTool(c) == ToolOfRule(rule)
  {
    NoStaffRule(c, rule);
    assert (15 < rule ==> !Applies(c, 15)) && (16 < rule ==> !Applies(c, 16)) && (17 < rule ==> !Applies(c, 17));
  }

  lemma NoCampusRule(c: Command, rule: nat)
    requires 19 <= rule && IsFirst(c, rule)
    ensures !c.holds(CourseWord) && !c.holds(EventWord) && !c.holds(AdmissionWord)
    ensures !(Given(c.entities.studentId) && c.holds(ProfileWord))
  {
    assert !Applies(c, 15) && !Applies(c, 16) && !Applies(c, 17) && !Applies(c, 18);
  }

  lemma CampusListsDecide(c: Command)
    requires !c.holds(CourseWord) && !c.holds(EventWord) && !c.holds(AdmissionWord) && !Applies(c, 18)
    ensures var choice := ChooseCampus(c);
            if c.holds(StudentWord) then
              choice.Call? && Some(choice.tool) == ToolOfRule(if Applies(c, 19) then 19 else 20)
            else if Applies(c, 21) then choice.Call? && Some(choice.tool) == ToolOfRule(21)
            else if Applies(c, 22) then choice.Call? && Some(choice.tool) == ToolOfRule(22)
            else choice == Nothing
  {
  }

  lemma ListRuleDecides(c: Command, rule: nat)
    requires 19 <= rule < 21 && IsFirst(c, rule)
    ensures ChosenTool(c) == ToolOfRule(rule)
  {
    NoStaffRule(c, rule);
    NoCampusRule(c, rule);
    CampusListsDecide(c);
    assert 19 < rule ==> !Applies(c, 19);
  }

  lemma LastRuleDecides(c: Command, rule: nat)
    requires 21 <= rule < RULES && IsFirst(c, rule)
    ensures ChosenTool(c) == ToolOfRule(rule)
  {
    NoStaffRule(c, rule);
    NoCampusRule(c, rule);
    CampusListsDecide(c);
    assert !Applies(c, 20) && (21 < rule ==> !Applies(c, 21)) && (22 < rule ==> !Applies(c, 22));
    assert 23 < rule ==> !Applies(c, 23);
  }

  /** The first rule that applies decides which tool a command leads to. */
  lemma FirstRuleDecides(c: Command, rule: nat)
    requires rule < RULES && IsFirst(c, rule)
    ensures ChosenTool(c) == ToolOfRule(rule)
  {
    if rule < 4 {
      UpdateRuleDecides(c, rule);
    } else if rule < 10 {
      NumberRuleDecides(c, rule);
    } else if rule < 15 {
      StaffRuleDecides(c, rule);
    } else if rule < 19 {
      CampusRuleDecides(c, rule);
    } else if rule < 21 {
      ListRuleDecides(c, rule);
    } else {
      LastRuleDecides(c, rule);
    }
  }

  /** The deterministic plan. Whatever the tests say and whatever tools there are, its steps are sound and few; a plan
      without steps asks something back. */
  method PlanCommand(tools: map<string, string>, c: Command) returns (plan: AgentPlan)
    ensures Sound(plan.steps, tools) && |plan.steps| <= 5 && ValidPlan(plan.steps)
    ensures plan.steps == [] ==> plan.clarification.Some?
    ensures plan.clarification.Some? <==> AsksBack(tools, c)
    ensures plan.clarification.None? ==> ToolsOf(plan.steps) == PlannedTools(tools, c)
    ensures plan.steps != [] ==> Said(plan.steps[0].arguments, Opening(c))
  {
    match Choose(c) {
    case Clarify(intent, question) =>
      plan := Asking(intent, [], question);
    case Update(field, value, student) =>
      plan := Asking("update_student_record", [], NO_PERMISSION);
      if "update_student_record" in tools {
        var steps := PlanOne(tools, "update_student_record", [("student_id", Str(student)),
            ("changes", Obj(map[field := value]))],
                             "change " + field + " for " + student);
        plan := AgentPlan("update_student_record", steps, None, 1.0);
      }
    case Internet =>
      plan := Asking("internet_intelligence", [], NO_PERMISSION);
      if "internet_investigate" in tools {
        var steps := PlanInternet(tools, c);
        plan := AgentPlan("internet_intelligence", steps, None, 1.0);
      }
    case Documents =>
      plan := Asking("document_question", [], NO_PERMISSION);
      if "search_documents" in tools {
        var steps := PlanOne(tools, "search_documents", [("question", Str(Clip(c.text, 500)))],
            "answer from institutional documents");
        plan := AgentPlan("document_question", steps, None, 1.0);
      }
    case Call(intent, tool, arguments, purpose, rows) =>
      plan := Asking(intent, [], NO_PERMISSION);
      if tool in tools {
        var steps := PlanOne(tools, tool, arguments, purpose);
        var refused;
        steps, refused := FollowUp(steps, tools, c, rows);
        plan := AgentPlan(intent, steps, refused, 1.0);
      }
    case Nothing =>
      plan := AgentPlan("unknown", [], Some(UNMAPPED), 0.0);
      if "search_documents" in tools && c.holds(QuestionMark) {
        var steps := PlanOne(tools, "search_documents", [("question", Str(Clip(c.text, 500)))],
            "try the institutional documents");
        plan := AgentPlan("document_question", steps, None, DETERMINISTIC_LAST_RESORT);
      }
    }
    SoundPlansAreValid(plan.steps, tools);
  }
}
