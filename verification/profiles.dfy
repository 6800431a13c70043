/** The profile part of the user summary: `getProfileDetails` in src/App.js,
    as a pure function from a user record with optional per-role profiles to
    the HTML text shown. */
module Profiles {
  import opened Wrappers
  import opened Text

  datatype PersonName = PersonName(fname: Option<string>, lname: Option<string>)

  datatype AdminProfile = AdminProfile(admId: string)

  /** A class the teacher is assigned to (`teacher_classes[i].class`). */
  datatype ClassRef = ClassRef(level: Option<string>, room: Option<string>)

  datatype TeacherProfile = TeacherProfile(teaId: string, classes: seq<ClassRef>)

  datatype ExecutiveProfile = ExecutiveProfile(execId: string, position: string)

  datatype RegistrarProfile = RegistrarProfile(regId: string)

  /** `students[i].student_name` are the dependants' names. */
  datatype ParentProfile = ParentProfile(parId: string, studentNames: seq<string>)

  datatype Term = Term(name: string, academicYear: string)

  /** A homeroom assignment of the student's class. `teacherUser` is
      `tc.teacher?.user`: absent when either link is missing. */
  datatype Homeroom = Homeroom(teacherUser: Option<PersonName>, term: Option<Term>)

  /** The student's class; `homerooms` is `SchTeacherClass`. */
  datatype StudentClass = StudentClass(level: Option<string>, room: Option<string>, homerooms: Option<seq<Homeroom>>)

  /** `parents[i].parent_name` are the parents' names. */
  datatype StudentProfile = StudentProfile(
    code: string,
    gender: string,
    state: string,
    studentClass: Option<StudentClass>,
    parentNames: seq<string>)

  /** The profile mapping: one optional variant per role key. */
  datatype ProfileMap = ProfileMap(
    admin: Option<AdminProfile>,
    teacher: Option<TeacherProfile>,
    executive: Option<ExecutiveProfile>,
    registrar: Option<RegistrarProfile>,
    parent: Option<ParentProfile>,
    student: Option<StudentProfile>)

  /** A user as the login reply carries it. `uname` and `natId` feed only the
      summary header of `showUserRoles`, which is not part of this model. */
  datatype User = User(
    uname: string,
    name: PersonName,
    email: Option<string>,
    phone: Option<string>,
    natId: Option<string>,
    roles: seq<string>,
    profiles: ProfileMap)

  const NotSpecified := "ไม่ระบุ"
  const NoData := "ไม่มีข้อมูล"

  // The labelled lines of the blocks.
  const NameLabel := "ชื่อ-นามสกุล: "
  const AdminIdLabel := "รหัสผู้ดูแลระบบ: "
  const TeacherIdLabel := "รหัสครู: "
  const ClassesLabel := "ประจำชั้น: "
  const ExecutiveIdLabel := "รหัสผู้บริหาร: "
  const PositionLabel := "ตำแหน่ง: "
  const RegistrarIdLabel := "รหัสเจ้าหน้าที่: "
  const ParentIdLabel := "รหัสผู้ปกครอง: "
  const ChildrenHeading := "นักเรียนในปกครอง:"
  const StudentCodeLabel := "รหัสนักเรียน: "
  const GenderLabel := "เพศ: "
  const StateLabel := "สถานะการศึกษา: "
  const HomeroomHeading := "ครูประจำชั้น:"
  const TermLabel := "ภาคเรียน: "
  const ParentsHeading := "ผู้ปกครอง:"

  // ---------------------------------------------------------------------
  // Shared header: name and contact

  /** `${fname || ''} ${lname || ''}`. */
  function FullName(n: PersonName): string
  {
    OrEmpty(n.fname) + " " + OrEmpty(n.lname)
  }

  function EmailText(email: string): string { "อีเมล: " + email }
  function PhoneText(phone: string): string { "เบอร์โทร: " + phone }

  /** The contact entries present, email first; an empty string counts as absent. */
  function ContactParts(u: User): seq<string>
  {
    AsSeq(if Truthy(OrEmpty(u.email)) then Some(EmailText(u.email.value)) else None)
    + AsSeq(if Truthy(OrEmpty(u.phone)) then Some(PhoneText(u.phone.value)) else None)
  }

  /** `userContact`. */
  function Contact(u: User): string
  {
    Join(ContactParts(u), "<br>")
  }

  /** The contact line of every block: the contact and a break, or nothing. */
  function ContactLine(u: User): string
  {
    if Truthy(Contact(u)) then Contact(u) + "<br>" else ""
  }

  /** The contact text holds the email and the phone exactly when each is
      present, email first and `<br>` between; with neither there is no
      contact line at all. */
  lemma ContactCases(u: User)
    ensures Truthy(OrEmpty(u.email)) && Truthy(OrEmpty(u.phone)) ==>
      Contact(u) == EmailText(u.email.value) + "<br>" + PhoneText(u.phone.value)
    ensures Truthy(OrEmpty(u.email)) && !Truthy(OrEmpty(u.phone)) ==> Contact(u) == EmailText(u.email.value)
    ensures !Truthy(OrEmpty(u.email)) && Truthy(OrEmpty(u.phone)) ==> Contact(u) == PhoneText(u.phone.value)
    ensures ContactLine(u) == "" <==> !Truthy(OrEmpty(u.email)) && !Truthy(OrEmpty(u.phone))
    ensures ContactLine(u) != "" ==> ContactLine(u) == Contact(u) + "<br>"
  {
    var parts := ContactParts(u);
    assert forall i :: 0 <= i < |parts| ==> parts[i] != "";
    JoinEmptyIff(parts, "<br>");
  }

  // ---------------------------------------------------------------------
  // Teacher block: class list

  /** `${class_level || ''} /${class_room || ''}`. */
  function ClassLabel(c: ClassRef): string
  {
    OrEmpty(c.level) + " /" + OrEmpty(c.room)
  }

  function ClassLabels(classes: seq<ClassRef>): seq<string>
  {
    seq(|classes|, i requires 0 <= i < |classes| => ClassLabel(classes[i]))
  }

  /** `classDetails`: the labels, empty ones filtered out, comma-joined. */
  function ClassDetails(t: TeacherProfile): string
  {
    Join(NonEmptyOnly(ClassLabels(t.classes)), ", ")
  }

  /** What follows "ประจำชั้น: ". */
  function TeacherClassesText(t: TeacherProfile): string
  {
    OrElse(ClassDetails(t), NotSpecified)
  }

  /** Every class label contains " /". */
  lemma ClassLabelHasSlash(c: ClassRef)
    ensures Contains(ClassLabel(c), " /")
  {
    assert OccursAt(" /", " /", 0);
    ContainsInfix(OrEmpty(c.level), " /", OrEmpty(c.room), " /");
  }

  /** No class label is empty, so the filter keeps them all. */
  lemma ClassLabelsNonEmpty(classes: seq<ClassRef>)
    ensures forall i :: 0 <= i < |classes| ==> ClassLabels(classes)[i] != ""
    ensures NonEmptyOnly(ClassLabels(classes)) == ClassLabels(classes)
  {
    var labels := ClassLabels(classes);
    forall i | 0 <= i < |labels| ensures labels[i] != "" {
      ClassLabelHasSlash(classes[i]);
    }
  }

  /** With at least one class the joined text contains " /", which the
      sentinel does not, so it is never mistaken for the sentinel. */
  lemma ClassDetailsNotSentinel(t: TeacherProfile)
    requires |t.classes| > 0
    ensures ClassDetails(t) != "" && ClassDetails(t) != NotSpecified
  {
    var labels := ClassLabels(t.classes);
    ClassLabelsNonEmpty(t.classes);
    var details := ClassDetails(t);
    var tail := if |labels| == 1 then "" else ", " + Join(labels[1..], ", ");
    assert details == labels[0] + tail;
    var c := t.classes[0];
    assert details == OrEmpty(c.level) + " /" + (OrEmpty(c.room) + tail);
    assert OccursAt(" /", " /", 0);
    ContainsInfix(OrEmpty(c.level), " /", OrEmpty(c.room) + tail, " /");
    NoStartCharNoContains(NotSpecified, " /");
  }

  /** The filter of empty labels drops nothing, and the sentinel shows exactly
      when the teacher has no classes. When no label contains ", " the class
      text reads back as exactly the labels, one per class, in order. */
  lemma TeacherClassesTextSpec(t: TeacherProfile)
    ensures NonEmptyOnly(ClassLabels(t.classes)) == ClassLabels(t.classes)
    ensures TeacherClassesText(t) == NotSpecified <==> |t.classes| == 0
    ensures |t.classes| > 0 && FreeOf(ClassLabels(t.classes), ", ") ==>
      Split(TeacherClassesText(t), ", ") == ClassLabels(t.classes)
  {
    var labels := ClassLabels(t.classes);
    ClassLabelsNonEmpty(t.classes);
    JoinEmptyIff(labels, ", ");
    if |t.classes| > 0 {
      ClassDetailsNotSentinel(t);
      if FreeOf(labels, ", ") {
        SeparatorsBorderFree();
        SplitJoin(labels, ", ");
      }
    }
  }

  // ---------------------------------------------------------------------
  // Dash lists (parent's students, student's parents)

  /** `names.map(n => `- ${n}`)`. */
  function DashLines(names: seq<string>): seq<string>
  {
    seq(|names|, i requires 0 <= i < |names| => "- " + names[i])
  }

  /** The names as "- name" lines joined by `<br>`. */
  function DashList(names: seq<string>): string
  {
    Join(DashLines(names), "<br>")
  }

  /** A dash list is empty exactly when there are no names; it never equals a
      sentinel (which does not start with '-'); and it reads back as one
      "- name" line per name when no name contains `<br>`. */
  lemma DashListSpec(names: seq<string>, sentinel: string)
    requires sentinel != "" && sentinel[0] != '-'
    ensures DashList(names) == "" <==> |names| == 0
    ensures OrElse(DashList(names), sentinel) == sentinel <==> |names| == 0
    ensures |names| > 0 && (forall i :: 0 <= i < |names| ==> !Contains(names[i], "<br>")) ==>
      Split(DashList(names), "<br>") == DashLines(names)
  {
    var lines := DashLines(names);
    JoinEmptyIff(lines, "<br>");
    if |names| > 0 {
      var tail := if |lines| == 1 then "" else "<br>" + Join(lines[1..], "<br>");
      assert DashList(names) == lines[0] + tail;
      assert DashList(names)[0] == '-';
      if forall i :: 0 <= i < |names| ==> !Contains(names[i], "<br>") {
        forall i | 0 <= i < |lines| ensures !Contains(lines[i], "<br>") {
          PrefixNoContains("- ", names[i], "<br>");
        }
        SeparatorsBorderFree();
        SplitJoin(lines, "<br>");
      }
    }
  }

  /** What follows "นักเรียนในปกครอง:<br>" in the parent block. */
  function ParentStudentsText(p: ParentProfile): string
  {
    OrElse(DashList(p.studentNames), NoData)
  }

  /** The "no data" sentinel shows exactly when the parent has no students. */
  lemma ParentStudentsSentinel(p: ParentProfile)
    ensures ParentStudentsText(p) == NoData <==> |p.studentNames| == 0
    ensures |p.studentNames| > 0 ==> ParentStudentsText(p) == DashList(p.studentNames)
  {
    DashListSpec(p.studentNames, NoData);
  }

  // ---------------------------------------------------------------------
  // Student block: homeroom teachers and term

  /** `class?.SchTeacherClass || []`. */
  function HomeroomsOf(s: StudentProfile): seq<Homeroom>
  {
    match s.studentClass
    case None => []
    case Some(c) => c.homerooms.GetOr([])
  }

  /** The line of a homeroom entry, or `null` when its teacher has no user. */
  function TeacherLine(h: Homeroom): Option<string>
  {
    match h.teacherUser
    case None => None
    case Some(n) => Some("- " + FullName(n))
  }

  /** The mapped list, before `filter(Boolean)`. */
  function TeacherLineOptions(hs: seq<Homeroom>): seq<Option<string>>
  {
    seq(|hs|, i requires 0 <= i < |hs| => TeacherLine(hs[i]))
  }

  /** `tc.teacher?.user` of each homeroom entry. */
  function TeacherUsers(hs: seq<Homeroom>): seq<Option<PersonName>>
  {
    seq(|hs|, i requires 0 <= i < |hs| => hs[i].teacherUser)
  }

  /** "- first last" for each name. */
  function NameLines(names: seq<PersonName>): seq<string>
  {
    seq(|names|, i requires 0 <= i < |names| => "- " + FullName(names[i]))
  }

  /** Mapping each entry to its line and then dropping the nulls gives the
      lines of the resolvable teacher users, in homeroom order and with
      repeats kept. */
  lemma TeacherLinesAreResolvedNames(hs: seq<Homeroom>)
    ensures Somes(TeacherLineOptions(hs)) == NameLines(Somes(TeacherUsers(hs)))
  {
    var users := TeacherUsers(hs);
    var f := (n: PersonName) => "- " + FullName(n);
    forall i | 0 <= i < |users|
      ensures TeacherLineOptions(hs)[i] == if users[i].Some? then Some(f(users[i].value)) else None
    {
      assert TeacherLineOptions(hs)[i] == TeacherLine(hs[i]);
    }
    SomesMap(users, f, TeacherLineOptions(hs));
  }

  /** Every kept homeroom line starts with the dash. */
  lemma TeacherLinesDashed(hs: seq<Homeroom>)
    ensures forall i :: 0 <= i < |Somes(TeacherLineOptions(hs))| ==>
      |Somes(TeacherLineOptions(hs))[i]| > 0 && Somes(TeacherLineOptions(hs))[i][0] == '-'
  {
    var opts := TeacherLineOptions(hs);
    var lines := Somes(opts);
    forall i | 0 <= i < |lines| ensures |lines[i]| > 0 && lines[i][0] == '-' {
      assert Some(lines[i]) in opts;
      var j :| 0 <= j < |opts| && opts[j] == Some(lines[i]);
      assert TeacherLine(hs[j]) == Some(lines[i]);
    }
  }

  /** A `<br>`-join of lines that all start with a dash is empty or starts
      with a dash. */
  lemma {:induction false} DashedJoin(lines: seq<string>)
    requires forall i :: 0 <= i < |lines| ==> |lines[i]| > 0 && lines[i][0] == '-'
    ensures Join(lines, "<br>") == "" <==> |lines| == 0
    ensures |lines| > 0 ==> Join(lines, "<br>")[0] == '-'
  {
    JoinEmptyIff(lines, "<br>");
    if |lines| > 1 {
      assert Join(lines, "<br>") == lines[0] + ("<br>" + Join(lines[1..], "<br>"));
    }
  }

  /** `teacherNames`: the lines of entries with a teacher user, `<br>`-joined;
      empty exactly when no entry's teacher user resolves. */
  function TeacherNames(hs: seq<Homeroom>): (r: string)
    ensures r == "" <==> forall i :: 0 <= i < |hs| ==> hs[i].teacherUser.None?
    ensures r != "" ==> r[0] == '-'
  {
    var lines := Somes(TeacherLineOptions(hs));
    TeacherLinesDashed(hs);
    DashedJoin(lines);
    assert forall i :: 0 <= i < |hs| ==> TeacherLineOptions(hs)[i] == TeacherLine(hs[i]);
    Join(lines, "<br>")
  }

  /** The homeroom list shows, in homeroom order and repeats included, one
      "- name" line per entry whose teacher user resolves; the sentinel
      shows exactly when none resolves. */
  lemma TeacherNamesSpec(hs: seq<Homeroom>)
    ensures TeacherNames(hs) == Join(NameLines(Somes(TeacherUsers(hs))), "<br>")
    ensures |NameLines(Somes(TeacherUsers(hs)))| == CountSome(TeacherUsers(hs))
    ensures OrElse(TeacherNames(hs), NotSpecified) == NotSpecified <==>
      forall i :: 0 <= i < |hs| ==> hs[i].teacherUser.None?
  {
    TeacherLinesAreResolvedNames(hs);
    assert NotSpecified[0] != '-';
  }

  function TermText(t: Term): string
  {
    t.name + " ปีการศึกษา " + t.academicYear
  }

  /** `academicInfo`: the term of the first homeroom entry, if it has one;
      the sentinel exactly when it has none. */
  function AcademicInfo(hs: seq<Homeroom>): (r: string)
    ensures r == NotSpecified <==> |hs| == 0 || hs[0].term.None?
    ensures |hs| > 0 && hs[0].term.Some? ==>
      && hs[0].term.value.name <= r
      && |hs[0].term.value.academicYear| <= |r|
      && r[|r| - |hs[0].term.value.academicYear|..] == hs[0].term.value.academicYear
  {
    if |hs| > 0 && hs[0].term.Some? then TermText(hs[0].term.value) else NotSpecified
  }

  /** Only the first homeroom entry decides the term shown. */
  lemma AcademicInfoFirstOnly(hs: seq<Homeroom>, hs': seq<Homeroom>)
    requires |hs| > 0 && |hs'| > 0 && hs[0] == hs'[0]
    ensures AcademicInfo(hs) == AcademicInfo(hs')
    ensures AcademicInfo([]) == NotSpecified
  {
  }

  // ---------------------------------------------------------------------
  // Blocks

  datatype ProfileKey = AdminKey | TeacherKey | ExecutiveKey | RegistrarKey | ParentKey | StudentKey

  /** The order in which blocks are emitted. */
  const BlockOrder: seq<ProfileKey> := [AdminKey, TeacherKey, ExecutiveKey, RegistrarKey, ParentKey, StudentKey]

  function Rank(k: ProfileKey): nat
  {
    match k
    case AdminKey => 0
    case TeacherKey => 1
    case ExecutiveKey => 2
    case RegistrarKey => 3
    case ParentKey => 4
    case StudentKey => 5
  }

  /** The bold title line of a block. */
  function HeadingLine(k: ProfileKey): string
  {
    match k
    case AdminKey => "<strong>ข้อมูลผู้ดูแลระบบ:</strong>"
    case TeacherKey => "<strong>ข้อมูลครู:</strong>"
    case ExecutiveKey => "<strong>ข้อมูลผู้บริหาร:</strong>"
    case RegistrarKey => "<strong>ข้อมูลเจ้าหน้าที่ทะเบียน:</strong>"
    case ParentKey => "<strong>ข้อมูลผู้ปกครอง:</strong>"
    case StudentKey => "<strong>ข้อมูลนักเรียน:</strong>"
  }

  function Heading(k: ProfileKey): string
  {
    HeadingLine(k) + "<br>"
  }

  function AdminBody(a: AdminProfile): string
  {
    AdminIdLabel + a.admId
  }

  function TeacherBody(t: TeacherProfile): string
  {
    TeacherIdLabel + t.teaId + "<br>" + ClassesLabel + TeacherClassesText(t)
  }

  function ExecutiveBody(e: ExecutiveProfile): string
  {
    ExecutiveIdLabel + e.execId + "<br>" + PositionLabel + e.position
  }

  function RegistrarBody(r: RegistrarProfile): string
  {
    RegistrarIdLabel + r.regId
  }

  function ParentBody(p: ParentProfile): string
  {
    ParentIdLabel + p.parId + "<br>" + ChildrenHeading + "<br>" + ParentStudentsText(p)
  }

  /** `ระดับชั้น: ${class?.class_level || 'ไม่ระบุ'} ห้อง ${class?.class_room || ''}`. */
  function ClassLine(s: StudentProfile): string
  {
    var level := match s.studentClass case None => None case Some(c) => c.level;
    var room := match s.studentClass case None => None case Some(c) => c.room;
    "ระดับชั้น: " + OrElse(OrEmpty(level), NotSpecified) + " ห้อง " + OrEmpty(room)
  }

  function StudentBody(s: StudentProfile): string
  {
    var hs := HomeroomsOf(s);
    StudentCodeLabel + s.code + "<br>"
    + GenderLabel + s.gender + "<br>"
    + StateLabel + s.state + "<br>"
    + ClassLine(s) + "<br>"
    + HomeroomHeading + "<br>" + OrElse(TeacherNames(hs), NotSpecified) + "<br>"
    + TermLabel + AcademicInfo(hs) + "<br>"
    + ParentsHeading + "<br>" + OrElse(DashList(s.parentNames), NotSpecified)
  }

  /** The profile mapping has key `k`. */
  predicate Has(p: ProfileMap, k: ProfileKey)
  {
    match k
    case AdminKey => p.admin.Some?
    case TeacherKey => p.teacher.Some?
    case ExecutiveKey => p.executive.Some?
    case RegistrarKey => p.registrar.Some?
    case ParentKey => p.parent.Some?
    case StudentKey => p.student.Some?
  }

  /** The role-specific part of the block for `k`, when that profile exists. */
  function Body(p: ProfileMap, k: ProfileKey): (r: Option<string>)
    ensures r.Some? <==> Has(p, k)
  {
    match k
    case AdminKey => if p.admin.Some? then Some(AdminBody(p.admin.value)) else None
    case TeacherKey => if p.teacher.Some? then Some(TeacherBody(p.teacher.value)) else None
    case ExecutiveKey => if p.executive.Some? then Some(ExecutiveBody(p.executive.value)) else None
    case RegistrarKey => if p.registrar.Some? then Some(RegistrarBody(p.registrar.value)) else None
    case ParentKey => if p.parent.Some? then Some(ParentBody(p.parent.value)) else None
    case StudentKey => if p.student.Some? then Some(StudentBody(p.student.value)) else None
  }

  /** The whole block for `k`: heading, name line, contact line, body. It
      exists exactly when the profile does and opens with its heading. */
  function Block(u: User, k: ProfileKey): (r: Option<string>)
    ensures r.Some? <==> Has(u.profiles, k)
    ensures r.Some? ==> Heading(k) <= r.value
  {
    match Body(u.profiles, k)
    case None => None
    case Some(b) => Some(Heading(k) + NameLabel + FullName(u.name) + "<br>" + ContactLine(u) + b)
  }

  /** The `details` array: the six conditional pushes, taken in source order. */
  function DetailBlocks(u: User): seq<string>
  {
    BlocksFor(u, BlockOrder)
  }

  /** `getProfileDetails`: empty exactly when the user has no profiles. */
  function ProfileDetails(u: User): (r: string)
    ensures r == "" <==> NoProfiles(u.profiles)
  {
    DetailBlocksNonEmpty(u);
    JoinEmptyIff(DetailBlocks(u), "<br><br>");
    Join(DetailBlocks(u), "<br><br>")
  }

  /** The keys among `keys` whose profile is present, in the order given. */
  function PresentKeys(p: ProfileMap, keys: seq<ProfileKey>): seq<ProfileKey>
  {
    if |keys| == 0 then []
    else (if Has(p, keys[0]) then [keys[0]] else []) + PresentKeys(p, keys[1..])
  }

  /** Ranks strictly increase along `keys`. */
  ghost predicate Ascending(keys: seq<ProfileKey>)
  {
    forall i, j :: 0 <= i < j < |keys| ==> Rank(keys[i]) < Rank(keys[j])
  }

  lemma {:induction false} PresentKeysSpec(p: ProfileMap, keys: seq<ProfileKey>)
    requires Ascending(keys)
    ensures forall k :: k in PresentKeys(p, keys) <==> k in keys && Has(p, k)
    ensures Ascending(PresentKeys(p, keys))
  {
    if |keys| > 0 {
      assert Ascending(keys[1..]);
      PresentKeysSpec(p, keys[1..]);
      var rest := PresentKeys(p, keys[1..]);
      forall k | k in rest ensures Rank(keys[0]) < Rank(k) {
        var j :| 0 <= j < |keys[1..]| && keys[1..][j] == k;
        assert keys[j + 1] == k;
      }
    }
  }

  /** The blocks for `keys`, in that order. */
  function BlocksFor(u: User, keys: seq<ProfileKey>): seq<string>
  {
    if |keys| == 0 then [] else AsSeq(Block(u, keys[0])) + BlocksFor(u, keys[1..])
  }

  lemma {:induction false} BlocksForPresent(u: User, keys: seq<ProfileKey>)
    ensures |BlocksFor(u, keys)| == |PresentKeys(u.profiles, keys)|
    ensures forall i :: 0 <= i < |BlocksFor(u, keys)| ==>
      Block(u, PresentKeys(u.profiles, keys)[i]).Some?
      && BlocksFor(u, keys)[i] == Block(u, PresentKeys(u.profiles, keys)[i]).value
  {
    if |keys| > 0 {
      BlocksForPresent(u, keys[1..]);
      var k := keys[0];
      var rest := BlocksFor(u, keys[1..]);
      var restKeys := PresentKeys(u.profiles, keys[1..]);
      var b := Block(u, k);
      assert BlocksFor(u, keys) == AsSeq(b) + rest;
      if b.Some? {
        BlocksForStep(k' => Block(u, k'), b.value, k, rest, restKeys);
        assert PresentKeys(u.profiles, keys) == [k] + restKeys;
        assert BlocksFor(u, keys) == [b.value] + rest;
      } else {
        assert PresentKeys(u.profiles, keys) == restKeys;
        assert BlocksFor(u, keys) == rest;
      }
    }
  }

  /** The inductive step of `BlocksForPresent` for a present key, over any
      lookup `f` from keys to optional blocks. */
  lemma BlocksForStep(f: ProfileKey -> Option<string>, b: string, k: ProfileKey, rest: seq<string>, restKeys: seq<ProfileKey>)
    requires f(k) == Some(b)
    requires |rest| == |restKeys|
    requires forall i :: 0 <= i < |rest| ==> f(restKeys[i]).Some? && rest[i] == f(restKeys[i]).value
    ensures forall i :: 0 <= i < |[b] + rest| ==>
      f(([k] + restKeys)[i]).Some? && ([b] + rest)[i] == f(([k] + restKeys)[i]).value
  {
    forall i | 0 <= i < |[b] + rest|
      ensures f(([k] + restKeys)[i]).Some? && ([b] + rest)[i] == f(([k] + restKeys)[i]).value
    {
      if i > 0 {
        assert ([k] + restKeys)[i] == restKeys[i - 1];
        assert ([b] + rest)[i] == rest[i - 1];
      }
    }
  }

  /** Every key is in the emission order. */
  lemma BlockOrderComplete()
    ensures forall k :: k in BlockOrder
    ensures Ascending(BlockOrder)
  {
    forall k ensures k in BlockOrder {
      assert BlockOrder[Rank(k)] == k;
    }
  }

  /** The profile text has one block per present profile, in the fixed order
      admin, teacher, executive, registrar, parent, student, each block being
      the block of its profile key. */
  lemma DetailBlocksFollowOrder(u: User)
    ensures Ascending(PresentKeys(u.profiles, BlockOrder))
    ensures forall k :: k in PresentKeys(u.profiles, BlockOrder) <==> Has(u.profiles, k)
    ensures |DetailBlocks(u)| == |PresentKeys(u.profiles, BlockOrder)|
    ensures forall i :: 0 <= i < |DetailBlocks(u)| ==>
      DetailBlocks(u)[i] == Block(u, PresentKeys(u.profiles, BlockOrder)[i]).value
  {
    BlockOrderComplete();
    PresentKeysSpec(u.profiles, BlockOrder);
    BlocksForPresent(u, BlockOrder);
  }

  /** No profile of any role is present. */
  predicate NoProfiles(p: ProfileMap)
  {
    p.admin.None? && p.teacher.None? && p.executive.None? && p.registrar.None? && p.parent.None? && p.student.None?
  }

  /** A present block is never empty. */
  lemma BlockNonEmpty(u: User, k: ProfileKey)
    requires Has(u.profiles, k)
    ensures |Block(u, k).value| >= |Heading(k)| > 0
  {
  }

  /** Some key has a present profile unless there are no profiles. */
  lemma SomeKeyPresent(p: ProfileMap) returns (k: ProfileKey)
    requires !NoProfiles(p)
    ensures Has(p, k)
  {
    if p.admin.Some? { k := AdminKey; }
    else if p.teacher.Some? { k := TeacherKey; }
    else if p.executive.Some? { k := ExecutiveKey; }
    else if p.registrar.Some? { k := RegistrarKey; }
    else if p.parent.Some? { k := ParentKey; }
    else { k := StudentKey; }
  }

  /** There are no blocks exactly when there are no profiles. */
  lemma NoBlocksIff(p: ProfileMap)
    ensures |PresentKeys(p, BlockOrder)| == 0 <==> NoProfiles(p)
  {
    BlockOrderComplete();
    PresentKeysSpec(p, BlockOrder);
    var keys := PresentKeys(p, BlockOrder);
    if !NoProfiles(p) {
      var k := SomeKeyPresent(p);
      assert k in keys;
    }
  }

  /** Every emitted block is non-empty, and there are none exactly when
      there are no profiles. */
  lemma DetailBlocksNonEmpty(u: User)
    ensures forall i :: 0 <= i < |DetailBlocks(u)| ==> DetailBlocks(u)[i] != ""
    ensures |DetailBlocks(u)| == 0 <==> NoProfiles(u.profiles)
  {
    DetailBlocksFollowOrder(u);
    NoBlocksIff(u.profiles);
    var blocks := DetailBlocks(u);
    var keys := PresentKeys(u.profiles, BlockOrder);
    forall i | 0 <= i < |blocks| ensures blocks[i] != "" {
      assert keys[i] in keys;
      BlockNonEmpty(u, keys[i]);
    }
  }

  /** When only `k` is present, the present keys are the occurrences of `k`. */
  lemma {:induction false} PresentKeysOnly(p: ProfileMap, keys: seq<ProfileKey>, k: ProfileKey)
    requires Has(p, k)
    requires forall k' :: k' != k ==> !Has(p, k')
    ensures |PresentKeys(p, keys)| == multiset(keys)[k]
    ensures forall i :: 0 <= i < |PresentKeys(p, keys)| ==> PresentKeys(p, keys)[i] == k
  {
    if |keys| > 0 {
      PresentKeysOnly(p, keys[1..], k);
      assert keys == [keys[0]] + keys[1..];
      assert multiset(keys) == multiset{keys[0]} + multiset(keys[1..]);
    }
  }

  /** With a single profile present, that is the only present key. */
  lemma SinglePresentKey(p: ProfileMap, k: ProfileKey)
    requires Has(p, k)
    requires forall k' :: k' != k ==> !Has(p, k')
    ensures PresentKeys(p, BlockOrder) == [k]
  {
    PresentKeysOnly(p, BlockOrder, k);
    assert multiset(BlockOrder)[k] == 1;
  }

  /** With a single profile the profile text is exactly that profile's block. */
  lemma SingleProfileDetails(u: User, k: ProfileKey)
    requires Has(u.profiles, k)
    requires forall k' :: k' != k ==> !Has(u.profiles, k')
    ensures ProfileDetails(u) == Block(u, k).value
  {
    DetailBlocksFollowOrder(u);
    SinglePresentKey(u.profiles, k);
    assert |DetailBlocks(u)| == 1;
  }

  // ---------------------------------------------------------------------
  // Blocks as lists of lines

  /** A list section: its lines, or the fallback line when it has none. */
  function Section(lines: seq<string>, fallback: string): seq<string>
  {
    if |lines| == 0 then [fallback] else lines
  }

  /** `list || fallback` is the join of the section. */
  lemma SectionJoin(lines: seq<string>, fallback: string)
    requires forall i :: 0 <= i < |lines| ==> lines[i] != ""
    ensures Join(Section(lines, fallback), "<br>") == OrElse(Join(lines, "<br>"), fallback)
  {
    JoinEmptyIff(lines, "<br>");
  }

  /** The lines of the student body, top to bottom: one per homeroom
      teacher and one per parent, each list replaced by the sentinel line
      when it is empty. */
  function StudentLines(s: StudentProfile): seq<string>
  {
    var hs := HomeroomsOf(s);
    [StudentCodeLabel + s.code, GenderLabel + s.gender, StateLabel + s.state, ClassLine(s), HomeroomHeading]
    + Section(NameLines(Somes(TeacherUsers(hs))), NotSpecified)
    + [TermLabel + AcademicInfo(hs), ParentsHeading]
    + Section(DashLines(s.parentNames), NotSpecified)
  }

  /** The lines of the role-specific part of each block, top to bottom. */
  function BodyLines(p: ProfileMap, k: ProfileKey): seq<string>
    requires Has(p, k)
  {
    match k
    case AdminKey => [AdminIdLabel + p.admin.value.admId]
    case TeacherKey => [TeacherIdLabel + p.teacher.value.teaId, ClassesLabel + TeacherClassesText(p.teacher.value)]
    case ExecutiveKey => [ExecutiveIdLabel + p.executive.value.execId, PositionLabel + p.executive.value.position]
    case RegistrarKey => [RegistrarIdLabel + p.registrar.value.regId]
    case ParentKey =>
      [ParentIdLabel + p.parent.value.parId, ChildrenHeading] + Section(DashLines(p.parent.value.studentNames), NoData)
    case StudentKey => StudentLines(p.student.value)
  }

  /** The lines of a whole block: title, name, the contact entries present,
      then the role's lines. */
  function BlockLines(u: User, k: ProfileKey): seq<string>
    requires Has(u.profiles, k)
  {
    [HeadingLine(k), NameLabel + FullName(u.name)] + ContactParts(u) + BodyLines(u.profiles, k)
  }

  /** Two lines joined by `<br>`. */
  lemma JoinPair(x: string, y: string)
    ensures Join([x, y], "<br>") == x + "<br>" + y
  {
    assert [x, y][1..] == [y];
  }

  /** Regrouping five `<br>`-separated lines. */
  lemma FiveConcat(x0: string, x1: string, x2: string, x3: string, x4: string)
    ensures x0 + "<br>" + (x1 + "<br>" + (x2 + "<br>" + (x3 + "<br>" + x4)))
         == x0 + "<br>" + x1 + "<br>" + x2 + "<br>" + x3 + "<br>" + x4
  {
  }

  /** Five lines joined by `<br>`. */
  lemma JoinFive(a: seq<string>)
    requires |a| == 5
    ensures Join(a, "<br>") == a[0] + "<br>" + a[1] + "<br>" + a[2] + "<br>" + a[3] + "<br>" + a[4]
  {
    var br := "<br>";
    var s4, s3, s2, s1 := a[4..], a[3..], a[2..], a[1..];
    assert s4 == [a[4]];
    assert s3[0] == a[3] && s3[1..] == s4;
    assert s2[0] == a[2] && s2[1..] == s3;
    assert s1[0] == a[1] && s1[1..] == s2;
    assert Join(s4, br) == a[4];
    assert Join(s3, br) == a[3] + br + a[4];
    assert Join(s2, br) == a[2] + br + Join(s3, br);
    assert Join(s1, br) == a[1] + br + Join(s2, br);
    assert Join(a, br) == a[0] + br + Join(s1, br);
    FiveConcat(a[0], a[1], a[2], a[3], a[4]);
  }

  /** Four non-empty groups of lines joined by `<br>`. */
  lemma JoinFour(a: seq<string>, b: seq<string>, c: seq<string>, d: seq<string>)
    requires |a| > 0 && |b| > 0 && |c| > 0 && |d| > 0
    ensures Join(a + b + c + d, "<br>") ==
      Join(a, "<br>") + "<br>" + Join(b, "<br>") + "<br>" + Join(c, "<br>") + "<br>" + Join(d, "<br>")
  {
    JoinAppend(a, b, "<br>");
    JoinAppend(a + b, c, "<br>");
    JoinAppend(a + b + c, d, "<br>");
  }

  /** The join of a block's lines, with and without contact entries. */
  lemma BlockJoin(title: string, line: string, contact: seq<string>, body: seq<string>)
    requires |body| > 0
    ensures |contact| == 0 ==>
      Join([title, line] + contact + body, "<br>") == title + "<br>" + line + "<br>" + Join(body, "<br>")
    ensures |contact| > 0 ==>
      Join([title, line] + contact + body, "<br>")
      == title + "<br>" + line + "<br>" + Join(contact, "<br>") + "<br>" + Join(body, "<br>")
  {
    var head := [title, line];
    JoinPair(title, line);
    if |contact| == 0 {
      assert head + contact + body == head + body;
      JoinAppend(head, body, "<br>");
    } else {
      JoinAppend(head, contact, "<br>");
      JoinAppend(head + contact, body, "<br>");
    }
  }

  /** Regrouping the block's concatenation. */
  lemma BlockConcat(title: string, nameLabel: string, name: string, jc: string, jb: string)
    ensures title + "<br>" + nameLabel + name + "<br>" + "" + jb == title + "<br>" + (nameLabel + name) + "<br>" + jb
    ensures title + "<br>" + nameLabel + name + "<br>" + (jc + "<br>") + jb
         == title + "<br>" + (nameLabel + name) + "<br>" + jc + "<br>" + jb
  {
  }

  /** The layout of a block, for any title, name, contact entries and body
      lines: the contact line is there only when some entry is. */
  lemma BlockShape(title: string, nameLabel: string, name: string, contact: seq<string>, body: seq<string>)
    requires |body| > 0
    ensures title + "<br>" + nameLabel + name + "<br>"
            + (if |contact| == 0 then "" else Join(contact, "<br>") + "<br>") + Join(body, "<br>")
         == Join([title, nameLabel + name] + contact + body, "<br>")
  {
    BlockJoin(title, nameLabel + name, contact, body);
    BlockConcat(title, nameLabel, name, Join(contact, "<br>"), Join(body, "<br>"));
  }

  /** The join of the student body's four groups of lines. */
  lemma StudentJoin(a: seq<string>, b: seq<string>, c: seq<string>, d: seq<string>)
    requires |a| == 5 && |b| > 0 && |c| == 2 && |d| > 0
    ensures Join(a + b + c + d, "<br>") ==
      a[0] + "<br>" + a[1] + "<br>" + a[2] + "<br>" + a[3] + "<br>" + a[4] + "<br>" + Join(b, "<br>")
      + "<br>" + c[0] + "<br>" + c[1] + "<br>" + Join(d, "<br>")
  {
    JoinFive(a);
    JoinPair(c[0], c[1]);
    assert c == [c[0], c[1]];
    JoinFour(a, b, c, d);
  }

  /** Regrouping the student body's concatenation. */
  lemma StudentConcat(l0: string, v0: string, l1: string, v1: string, l2: string, v2: string,
                      cl: string, h: string, l3: string, v3: string, ph: string, jb: string, jd: string)
    ensures l0 + v0 + "<br>" + l1 + v1 + "<br>" + l2 + v2 + "<br>" + cl + "<br>" + h + "<br>" + jb
            + "<br>" + l3 + v3 + "<br>" + ph + "<br>" + jd
         == (l0 + v0) + "<br>" + (l1 + v1) + "<br>" + (l2 + v2) + "<br>" + cl + "<br>" + h + "<br>" + jb
            + "<br>" + (l3 + v3) + "<br>" + ph + "<br>" + jd
  {
  }

  /** The layout of the student body, for any labels and values: five lines,
      the homeroom section, two lines, the parents section. */
  lemma StudentShape(l0: string, v0: string, l1: string, v1: string, l2: string, v2: string,
                     cl: string, h: string, l3: string, v3: string, ph: string,
                     b: seq<string>, d: seq<string>)
    requires |b| > 0 && |d| > 0
    ensures l0 + v0 + "<br>" + l1 + v1 + "<br>" + l2 + v2 + "<br>" + cl + "<br>"
            + h + "<br>" + Join(b, "<br>") + "<br>" + l3 + v3 + "<br>" + ph + "<br>" + Join(d, "<br>")
         == Join([l0 + v0, l1 + v1, l2 + v2, cl, h] + b + [l3 + v3, ph] + d, "<br>")
  {
    StudentJoin([l0 + v0, l1 + v1, l2 + v2, cl, h], b, [l3 + v3, ph], d);
    StudentConcat(l0, v0, l1, v1, l2, v2, cl, h, l3, v3, ph, Join(b, "<br>"), Join(d, "<br>"));
  }

  /** The student body is its lines separated by `<br>`. */
  lemma StudentBodyIsLines(s: StudentProfile)
    ensures StudentBody(s) == Join(StudentLines(s), "<br>")
  {
    var hs := HomeroomsOf(s);
    var names := NameLines(Somes(TeacherUsers(hs)));
    var b := Section(names, NotSpecified);
    var d := Section(DashLines(s.parentNames), NotSpecified);
    TeacherNamesSpec(hs);
    SectionJoin(names, NotSpecified);
    SectionJoin(DashLines(s.parentNames), NotSpecified);
    StudentShape(StudentCodeLabel, s.code, GenderLabel, s.gender, StateLabel, s.state,
                 ClassLine(s), HomeroomHeading, TermLabel, AcademicInfo(hs), ParentsHeading, b, d);
  }

  /** Each role's body is its lines separated by `<br>`. */
  lemma BodyIsLines(p: ProfileMap, k: ProfileKey)
    requires Has(p, k)
    ensures Body(p, k).value == Join(BodyLines(p, k), "<br>")
  {
    match k
    case ParentKey =>
      var q := p.parent.value;
      var a := [ParentIdLabel + q.parId, ChildrenHeading];
      SectionJoin(DashLines(q.studentNames), NoData);
      JoinAppend(a, Section(DashLines(q.studentNames), NoData), "<br>");
    case StudentKey =>
      StudentBodyIsLines(p.student.value);
    case _ =>
  }

  /** Each block is its lines separated by `<br>`: the bold title, the name
      line, one line for each contact entry present, then the role's lines. */
  lemma BlockIsLines(u: User, k: ProfileKey)
    requires Has(u.profiles, k)
    ensures Block(u, k).value == Join(BlockLines(u, k), "<br>")
  {
    var contact := ContactParts(u);
    BodyIsLines(u.profiles, k);
    assert forall i :: 0 <= i < |contact| ==> contact[i] != "";
    JoinEmptyIff(contact, "<br>");
    assert ContactLine(u) == if |contact| == 0 then "" else Join(contact, "<br>") + "<br>";
    BlockShape(HeadingLine(k), NameLabel, FullName(u.name), contact, BodyLines(u.profiles, k));
  }

  /** Read back on `<br>`, a block gives exactly its lines, in order, as
      long as no line holds a `<br>` of its own. */
  lemma BlockReadsBack(u: User, k: ProfileKey)
    requires Has(u.profiles, k)
    ensures FreeOf(BlockLines(u, k), "<br>") ==> Split(Block(u, k).value, "<br>") == BlockLines(u, k)
  {
    BlockIsLines(u, k);
    if FreeOf(BlockLines(u, k), "<br>") {
      SeparatorsBorderFree();
      SplitJoin(BlockLines(u, k), "<br>");
    }
  }

  /** No line of `lines` is empty. */
  ghost predicate NoEmptyLine(lines: seq<string>)
  {
    forall i :: 0 <= i < |lines| ==> lines[i] != ""
  }

  lemma SectionNoEmptyLine(lines: seq<string>, fallback: string)
    requires fallback != "" && NoEmptyLine(lines)
    ensures NoEmptyLine(Section(lines, fallback))
  {
  }

  lemma DashLinesNoEmptyLine(names: seq<string>)
    ensures NoEmptyLine(DashLines(names))
  {
    forall i | 0 <= i < |names| ensures DashLines(names)[i] != "" {
      assert |DashLines(names)[i]| >= 2;
    }
  }

  lemma NameLinesNoEmptyLine(names: seq<PersonName>)
    ensures NoEmptyLine(NameLines(names))
  {
    forall i | 0 <= i < |names| ensures NameLines(names)[i] != "" {
      assert |NameLines(names)[i]| >= 2;
    }
  }

  lemma StudentLinesNoEmptyLine(s: StudentProfile)
    ensures NoEmptyLine(StudentLines(s))
  {
    var hs := HomeroomsOf(s);
    var teachers := Section(NameLines(Somes(TeacherUsers(hs))), NotSpecified);
    var parents := Section(DashLines(s.parentNames), NotSpecified);
    NameLinesNoEmptyLine(Somes(TeacherUsers(hs)));
    SectionNoEmptyLine(NameLines(Somes(TeacherUsers(hs))), NotSpecified);
    DashLinesNoEmptyLine(s.parentNames);
    SectionNoEmptyLine(DashLines(s.parentNames), NotSpecified);
    var head := [StudentCodeLabel + s.code, GenderLabel + s.gender, StateLabel + s.state, ClassLine(s), HomeroomHeading];
    var mid := [TermLabel + AcademicInfo(hs), ParentsHeading];
    assert |ClassLine(s)| > 0;
    assert NoEmptyLine(head);
    assert NoEmptyLine(mid);
    assert StudentLines(s) == head + teachers + mid + parents;
  }

  lemma BodyLinesNoEmptyLine(p: ProfileMap, k: ProfileKey)
    requires Has(p, k)
    ensures NoEmptyLine(BodyLines(p, k))
  {
    match k
    case StudentKey => StudentLinesNoEmptyLine(p.student.value);
    case ParentKey =>
      DashLinesNoEmptyLine(p.parent.value.studentNames);
      SectionNoEmptyLine(DashLines(p.parent.value.studentNames), NoData);
    case _ =>
  }

  /** Every line of a block is non-empty: each is a non-empty label or
      heading followed by a value, or a sentinel. */
  lemma BlockLinesNonEmpty(u: User, k: ProfileKey)
    requires Has(u.profiles, k)
    ensures NoEmptyLine(BlockLines(u, k))
  {
    var contact := ContactParts(u);
    BodyLinesNoEmptyLine(u.profiles, k);
    assert HeadingLine(k) != "";
    assert NoEmptyLine(contact);
    assert NoEmptyLine([HeadingLine(k), NameLabel + FullName(u.name)]);
  }

  /** Every present block's lines are free of `<br>`. */
  ghost predicate LinesFree(u: User)
  {
    forall k :: Has(u.profiles, k) ==> FreeOf(BlockLines(u, k), "<br>")
  }

  /** A present block is the `<br>`-join of its non-empty lines. */
  lemma BlockGroup(u: User, k: ProfileKey)
    requires Has(u.profiles, k) && LinesFree(u)
    ensures |BlockLines(u, k)| > 0 && FreeOf(BlockLines(u, k), "<br>") && NoEmptyLine(BlockLines(u, k))
    ensures Block(u, k).value == Join(BlockLines(u, k), "<br>")
  {
    BlockIsLines(u, k);
    BlockLinesNonEmpty(u, k);
  }

  /** The profile text reads back into its blocks by splitting on `<br><br>`
      when no line holds a `<br>` of its own: each block is a `<br>`-join of
      non-empty lines, so `<br><br>` only occurs between blocks. With no
      profiles the text is empty and splits into one empty string. */
  lemma ProfileDetailsReadsBack(u: User)
    ensures NoProfiles(u.profiles) ==> Split(ProfileDetails(u), "<br><br>") == [""]
    ensures !NoProfiles(u.profiles) && LinesFree(u) ==> Split(ProfileDetails(u), "<br><br>") == DetailBlocks(u)
  {
    SeparatorsBorderFree();
    if NoProfiles(u.profiles) {
      SplitEmpty("<br><br>");
    } else if LinesFree(u) {
      assert ProfileDetails(u) == Join(DetailBlocks(u), "<br><br>");
      DetailBlocksReadBack(u);
    }
  }

  /** The blocks of a user with profiles split back from their
      `<br><br>`-join. */
  lemma DetailBlocksReadBack(u: User)
    requires !NoProfiles(u.profiles) && LinesFree(u)
    ensures Split(Join(DetailBlocks(u), "<br>" + "<br>"), "<br>" + "<br>") == DetailBlocks(u)
  {
    var blocks := DetailBlocks(u);
    var keys := PresentKeys(u.profiles, BlockOrder);
    DetailBlocksFollowOrder(u);
    NoBlocksIff(u.profiles);
    assert forall i :: 0 <= i < |keys| ==> Has(u.profiles, keys[i]) by {
      forall i | 0 <= i < |keys| ensures Has(u.profiles, keys[i]) {
        assert keys[i] in keys;
      }
    }
    var groups := seq(|keys|, i requires 0 <= i < |keys| => BlockLines(u, keys[i]));
    forall i | 0 <= i < |keys|
      ensures |groups[i]| > 0 && FreeOf(groups[i], "<br>") && NoEmptyLine(groups[i])
      ensures blocks[i] == Join(groups[i], "<br>")
    {
      BlockGroup(u, keys[i]);
    }
    SeparatorsBorderFree();
    SplitJoinDoubled(blocks, groups, "<br>");
  }

  /** The teacher of the sample login: class M1 room 1 shows as "M1 /1". */
  lemma SampleTeacherClasses()
    ensures TeacherClassesText(TeacherProfile("T1", [ClassRef(Some("M1"), Some("1"))])) == "M1 /1"
    ensures TeacherBody(TeacherProfile("T1", [ClassRef(Some("M1"), Some("1"))])) == "รหัสครู: T1<br>ประจำชั้น: M1 /1"
  {
  }
}
