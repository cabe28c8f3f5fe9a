/** What a planned call is given (apps/api/app/agents/planner.py): the arguments that the rule which applies calls
    for, each saying what the command says of it. */
module CommandArguments {
  import opened Values
  import opened Planner

  /** What the command can say of a call. */
  datatype Aspect =
    | OfProgram | OfSemester | OfDepartment | OfStudent | OfYear | OfFaculty | Threshold | Days | WithStudents | AtMost
    | AtMostFaculty

  function NameOf(aspect: Aspect): string {
    match aspect
    case OfProgram => "program"
    case OfSemester => "semester"
    case OfDepartment => "department"
    case OfStudent => "student_id"
    case OfYear => "academic_year"
    case OfFaculty => "department"
    case Threshold => "threshold"
    case Days => "days"
    case WithStudents => "include_students"
    case AtMost => "limit"
    case AtMostFaculty => "limit"
  }

  /** What the command says, 75 percent and 30 days where it gives no number or zero. */
  function ValueOf(e: Entities, aspect: Aspect): Value {
    match aspect
    case OfProgram => Text(e.program)
    case OfSemester => Whole(e.semester)
    case OfDepartment => Text(e.department)
    case OfStudent => Text(e.studentId)
    case OfYear => Text(e.academicYear)
    case OfFaculty => Text(if Given(e.department) then e.department else e.program)
    case Threshold => Num(if e.threshold.None? || e.threshold.value == 0.0 then 75.0 else e.threshold.value)
    case Days => Int(if e.windowDays.None? || e.windowDays.value == 0 then 30 else e.windowDays.value)
    case WithStudents => Bool(!e.wantsCount || e.wantsList || e.wantsReport || e.wantsEmail)
    case AtMost => Int(if e.wantsReport || e.wantsEmail then 500 else 100)
    case AtMostFaculty => Int(if e.wantsReport then 500 else 100)
  }

  /** What a rule's call is told. */
  function ToldBy(rule: nat): seq<Aspect> {
    match rule
    case 4 => [OfProgram, OfSemester, OfDepartment, Threshold, WithStudents, AtMost]
    case 5 => [OfProgram, OfSemester, OfDepartment]
    case 6 => [OfProgram, OfSemester, OfYear, WithStudents, AtMost]
    case 7 => [OfProgram, OfSemester, OfYear]
    case 8 => [OfStudent]
    case 9 => [OfProgram, OfSemester]
    case 10 => [OfDepartment, OfProgram]
    case 11 => [OfFaculty, AtMostFaculty]
    case 12 => [OfDepartment]
    case 15 => [OfProgram, OfSemester]
    case 16 => [Days]
    case 17 => [OfProgram]
    case 18 => [OfStudent]
    case 19 => [OfProgram, OfSemester, OfDepartment]
    case 20 => [OfProgram, OfSemester, OfDepartment, AtMost]
    case _ => []
  }

  ghost predicate Tells(choice: Choice, e: Entities, told: seq<Aspect>) {
    && choice.Call? && |choice.arguments| == |told|
    && forall i | 0 <= i < |told| :: choice.arguments[i] == (NameOf(told[i]), ValueOf(e, told[i]))
  }

  lemma AttendanceTells(c: Command)
    requires !Applies(c, 4)
    ensures Tells(ChooseAttendance(c), c.entities, ToldBy(5)) || !Applies(c, 5)
  {
  }

  lemma ShortageTells(c: Command)
    requires Applies(c, 4)
    ensures Tells(ChooseAttendance(c), c.entities, ToldBy(4))
  {
  }

  lemma FeesTell(c: Command)
    requires HasFee(c)
    ensures Tells(ChooseFees(c), c.entities, ToldBy(if Applies(c, 6) then 6 else 7))
  {
  }

  lemma ExamsTell(e: Entities)
    ensures Tells(ChooseExams(e), e, ToldBy(if Given(e.studentId) then 8 else 9))
  {
  }

  lemma NumbersTell(c: Command, rule: nat)
    requires 4 <= rule < 10 && IsFirst(c, rule)
    ensures Tells(Choose(c), c.entities, ToldBy(rule))
  {
    NoUpdateRule(c, rule);
    if rule <= 5 {
      if rule == 4 { ShortageTells(c); } else { AttendanceTells(c); assert !Applies(c, 4); }
    } else {
      assert !Applies(c, 5);
      if rule <= 7 {
        FeesTell(c);
        assert rule == 7 ==> !Applies(c, 6);
      } else {
        assert !Applies(c, 7);
        assert rule == 9 ==> !Applies(c, 8);
        ExamsTell(c.entities);
      }
    }
  }

  lemma StaffTells(c: Command, rule: nat)
    requires 10 <= rule < 15 && IsFirst(c, rule)
    ensures Tells(Choose(c), c.entities, ToldBy(rule))
  {
    NoEarlyRule(c, rule);
    assert (10 < rule ==> !Applies(c, 10)) && (11 < rule ==> !Applies(c, 11)) && (12 < rule ==> !Applies(c, 12));
    assert (13 < rule ==> !Applies(c, 13));
  }

  lemma CampusTells(c: Command, rule: nat)
    requires 15 <= rule < 19 && IsFirst(c, rule)
    ensures Tells(Choose(c), c.entities, ToldBy(rule))
  {
    NoStaffRule(c, rule);
    assert (15 < rule ==> !Applies(c, 15)) && (16 < rule ==> !Applies(c, 16)) && (17 < rule ==> !Applies(c, 17));
  }

  lemma CampusListsTell(c: Command)
    requires !c.holds(CourseWord) && !c.holds(EventWord) && !c.holds(AdmissionWord) && !Applies(c, 18)
    ensures Applies(c, 19) ==> Tells(ChooseCampus(c), c.entities, ToldBy(19))
    ensures Applies(c, 20) && !Applies(c, 19) ==> Tells(ChooseCampus(c), c.entities, ToldBy(20))
    ensures !Applies(c, 20) && (Applies(c, 21) || Applies(c, 22)) ==> Tells(ChooseCampus(c), c.entities, [])
  {
  }

  lemma ListsTell(c: Command, rule: nat)
    requires 19 <= rule < 23 && IsFirst(c, rule)
    ensures Tells(Choose(c), c.entities, ToldBy(rule))
  {
    NoStaffRule(c, rule);
    NoCampusRule(c, rule);
    CampusListsTell(c);
    assert (19 < rule ==> !Applies(c, 19)) && (20 < rule ==> !Applies(c, 20));
  }

  /** The first rule that applies decides what the call is given, too. */
  lemma FirstRuleTells(c: Command, rule: nat)
    requires 4 <= rule < 23 && IsFirst(c, rule)
    ensures Tells(Choose(c), c.entities, ToldBy(rule))
  {
    if rule < 10 {
      NumbersTell(c, rule);
    } else if rule < 15 {
      StaffTells(c, rule);
    } else if rule < 19 {
      CampusTells(c, rule);
    } else {
      ListsTell(c, rule);
    }
  }
}
