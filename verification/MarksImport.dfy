/** Marks of a whole section: the sheet, the template made from it and the upload of a filled-in one
    (services/exam_results_import.py), on rows of text cells. How numbers are written and read as text
    is given from outside. */
module MarksImport {
  import opened Collections
  import opened Text

  const LIMIT: real := 10000.0

  /** float(text): NaN compares false with everything. */
  datatype Reading = NotNumber | NaN | Number(value: real)

  datatype Student = Student(id: nat, name: string, admission: Option<string>, roll: Option<string>)

  datatype Result = Result(marks: Option<real>, top: Option<real>, grade: Option<string>, remarks: Option<string>)

  /** By student and subject; the subject "" is the exam as a whole. */
  type Table = map<(nat, string), Result>

  // ------------------------------------------------- the sheet and template

  datatype Shown = Blank | Absent | Mark(value: real)

  predicate IsAb(grade: Option<string>) {
    grade.Some? && Upper(grade.value) == "AB"
  }

  function ShownAt(t: Table, student: nat, subject: string): Shown {
    if (student, subject) !in t then Blank
    else
      var r := t[(student, subject)];
      if r.marks.Some? then Mark(r.marks.value) else if IsAb(r.grade) then Absent else Blank
  }

  function TextOf(o: Option<string>): string {
    if o.Some? then o.value else ""
  }

  function RemarkAt(t: Table, student: nat): string {
    if (student, "") in t then TextOf(t[(student, "")].remarks) else ""
  }

  const ID_COLUMNS: seq<string> := ["student_id", "admission_no", "roll_no", "student_name"]

  function CellText(show: real -> string, shown: Shown): string {
    match shown
    case Blank => ""
    case Absent => "AB"
    case Mark(value) => show(value)
  }

  function MarkCells(t: Table, show: real -> string, subjects: seq<string>, student: nat): (cells: seq<string>)
    ensures |cells| == |subjects|
  {
    seq(|subjects|, k requires 0 <= k < |subjects| => CellText(show, ShownAt(t, student, subjects[k])))
  }

  function TemplateRow(t: Table, show: real -> string, subjects: seq<string>, st: Student): seq<string> {
    [Show(st.id), TextOf(st.admission), TextOf(st.roll), st.name] + MarkCells(t, show, subjects, st.id)
        + [RemarkAt(t, st.id)]
  }

  function TemplateHeader(subjects: seq<string>): seq<string> {
    ID_COLUMNS + subjects + ["remarks"]
  }

  function TemplateRows(t: Table, show: real -> string, subjects: seq<string>,
      students: seq<Student>): (rows: seq<seq<string>>)
    ensures |rows| == |students|
  {
    seq(|students|, j requires 0 <= j < |students| => TemplateRow(t, show, subjects, students[j]))
  }

  // ------------------------------------------------------------- the header

  datatype Error = Error(row: nat, column: string)

  /** Where the identifying columns, the remarks and the subjects are. */
  datatype Columns = Columns(ids: map<string, nat>, subjectAt: seq<(nat, string)>, errors: seq<Error>)

  function Underscored(s: string): string {
    seq(|s|, i requires 0 <= i < |s| => if s[i] == ' ' then '_' else s[i])
  }

  predicate IsIdKey(key: string) {
    key in ID_COLUMNS || key in ["name", "admission_number", "roll", "roll_number"]
  }

  function Canonical(key: string): string {
    if key == "name" then "student_name"
    else if key == "admission_number" then "admission_no"
    else if key == "roll" || key == "roll_number" then "roll_no"
    else key
  }

  /** The subject with that normal form; the last one, if several have it. */
  function Known(subjects: seq<string>, h: string): Option<string> {
    if subjects == [] then None
    else if Norm(subjects[|subjects| - 1]) == h then Some(subjects[|subjects| - 1])
    else Known(subjects[..|subjects| - 1], h)
  }

  predicate HasSubject(at: seq<(nat, string)>, subject: string) {
    exists k :: 0 <= k < |at| && at[k].1 == subject
  }

  function HeaderStep(c: Columns, i: nat, raw: string, subjects: seq<string>): Columns {
    var h := Norm(raw);
    var key := Underscored(h);
    if h == "" then c
    else if IsIdKey(key) then c.(ids := c.ids[Canonical(key) := i])
    else if key == "remarks" || key == "remark" then c.(ids := c.ids["remarks" := i])
    else
      match Known(subjects, h)
      case None => c.(errors := c.errors + [Error(1, raw)])
      case Some(s) =>
        c.(subjectAt := c.subjectAt + [(i, s)],
           errors := if HasSubject(c.subjectAt, s) then c.errors + [Error(1, raw)] else c.errors)
  }

  function HeaderCells(cells: seq<string>, subjects: seq<string>): Columns {
    if cells == [] then Columns(map[], [], [])
    else HeaderStep(HeaderCells(cells[..|cells| - 1], subjects), |cells| - 1, cells[|cells| - 1], subjects)
  }

  predicate NoIdColumn(c: Columns) {
    "student_id" !in c.ids && "admission_no" !in c.ids && "roll_no" !in c.ids
  }

  function Header(cells: seq<string>, subjects: seq<string>): Columns {
    var c := HeaderCells(cells, subjects);
    c.(errors := c.errors
         + (if NoIdColumn(c) then [Error(1, "")] else [])
         + (if c.subjectAt == [] && "remarks" !in c.ids then [Error(1, "")] else []))
  }

  // --------------------------------------------------------------- the rows

  function CellAt(row: seq<string>, at: Option<nat>): string {
    if at.Some? && at.value < |row| then Strip(row[at.value]) else ""
  }

  function Col(c: Columns, name: string): Option<nat> {
    if name in c.ids then Some(c.ids[name]) else None
  }

  predicate IsBlank(row: seq<string>) {
    forall i :: 0 <= i < |row| ==> Strip(row[i]) == ""
  }

  /** The row of maxima in the old template; the first identifying column is one of the three. */
  predicate IsMaxRow(c: Columns, row: seq<string>) {
    || Upper(CellAt(row, Col(c, "student_id"))) == "MAX"
    || Upper(CellAt(row, Col(c, "admission_no"))) == "MAX"
    || Upper(CellAt(row, Col(c, "roll_no"))) == "MAX"
  }

  /** A dictionary over the students: the last one with the key. */
  function Last(students: seq<Student>, such: Student -> bool): (found: Option<Student>)
    ensures found.Some? ==> found.value in students && such(found.value)
  {
    if students == [] then None
    else if such(students[|students| - 1]) then Some(students[|students| - 1])
    else Last(students[..|students| - 1], such)
  }

  function WithId(text: string): Student -> bool {
    (s: Student) => Show(s.id) == text
  }

  function WithAdmission(text: string): Student -> bool {
    (s: Student) => TextOf(s.admission) != "" && Norm(TextOf(s.admission)) == Norm(text)
  }

  function WithRoll(text: string): Student -> bool {
    (s: Student) => TextOf(s.roll) != "" && Norm(TextOf(s.roll)) == Norm(text)
  }

  /** By student id, else by admission number, else by roll number; only students of the section. */
  function Find(c: Columns, students: seq<Student>, row: seq<string>): (found: Option<Student>)
    ensures found.Some? ==> found.value in students
  {
    var sid, adm := CellAt(row, Col(c, "student_id")), CellAt(row, Col(c, "admission_no"));
    var roll := CellAt(row, Col(c, "roll_no"));
    var byId := if sid != "" then Last(students, WithId(sid)) else None;
    var byAdm := if byId == None && adm != "" then Last(students, WithAdmission(adm)) else byId;
    if byAdm == None && roll != "" then Last(students, WithRoll(roll)) else byAdm
  }

  /** No mark: absent. */
  datatype Entry = Entry(student: nat, subject: string, mark: Option<Reading>)

  datatype Checked = Empty | Bad | Good(mark: Option<Reading>)

  function CheckCell(v: string, top: real, read: string -> Reading): Checked {
    if v == "" then Empty
    else if Lower(v) in ["ab", "abs", "absent"] then Good(None)
    else
      match read(v)
      case NotNumber => Bad
      case NaN => Good(Some(NaN))
      case Number(x) => if x < 0.0 || x >= LIMIT || x > top then Bad else Good(Some(Number(x)))
  }

  function CellsOf(row: seq<string>, n: nat, student: nat, at: seq<(nat, string)>, top: real,
      read: string -> Reading): (seq<Entry>, seq<Error>) {
    if at == [] then ([], [])
    else
      var (i, subject) := at[|at| - 1];
      var (entries, errors) := CellsOf(row, n, student, at[..|at| - 1], top, read);
      match CheckCell(CellAt(row, Some(i)), top, read)
      case Empty => (entries, errors)
      case Bad => (entries, errors + [Error(n, subject)])
      case Good(mark) => (entries + [Entry(student, subject, mark)], errors)
  }

  datatype Progress = Progress(entries: seq<Entry>, remarks: seq<(nat, string)>, seen: set<nat>, errors: seq<Error>)

  function Cut(s: string): (r: string)
    ensures r <= s && (|r| == 255 || (|r| < 255 && r == s))
  {
    if |s| > 255 then s[..255] else s
  }

  function RowStep(c: Columns, students: seq<Student>, top: real, read: string -> Reading, p: Progress, n: nat,
      row: seq<string>): Progress {
    match Find(c, students, row)
    case None => p.(errors := p.errors + [Error(n, "")])
    case Some(st) =>
      if st.id in p.seen then p.(errors := p.errors + [Error(n, "")])
      else
        var (entries, errors) := CellsOf(row, n, st.id, c.subjectAt, top, read);
        var remark := Cut(CellAt(row, Col(c, "remarks")));
        Progress(p.entries + entries, if remark != "" then p.remarks + [(st.id, remark)] else p.remarks,
                 p.seen + {st.id}, p.errors + errors)
  }

  /** Rows are numbered from 2; empty ones and the row of maxima are passed over. */
  function RowsOf(c: Columns, students: seq<Student>, top: real, read: string -> Reading,
      rows: seq<seq<string>>): Progress {
    if rows == [] then Progress([], [], {}, [])
    else
      var p := RowsOf(c, students, top, read, rows[..|rows| - 1]);
      var row := rows[|rows| - 1];
      if IsBlank(row) || IsMaxRow(c, row) then p else RowStep(c, students, top, read, p, |rows| + 1, row)
  }

  // ----------------------------------------------------------------- saving

  /** INSERT … ON DUPLICATE KEY UPDATE: a number keeps a grade typed earlier but clears an old AB. */
  function SaveEntry(t: Table, top: real, e: Entry): Table {
    var marks := if e.mark.Some? && e.mark.value.Number? then Some(e.mark.value.value) else None;
    var key := (e.student, e.subject);
    if key in t then
      t[key := t[key].(marks := marks, top := Some(top),
                       grade := if marks == None then Some("AB")
                                else if IsAb(t[key].grade) then None else t[key].grade)]
    else t[key := Result(marks, Some(top), if marks == None then Some("AB") else None, None)]
  }

  function SaveEntries(t: Table, top: real, entries: seq<Entry>): Table {
    if entries == [] then t else SaveEntry(SaveEntries(t, top, entries[..|entries| - 1]), top, entries[|entries| - 1])
  }

  function SaveRemark(t: Table, student: nat, remark: string): Table {
    var key := (student, "");
    if key in t then t[key := t[key].(remarks := Some(remark))] else t[key := Result(None, None, None, Some(remark))]
  }

  function SaveRemarks(t: Table, remarks: seq<(nat, string)>): Table {
    if remarks == [] then t
    else SaveRemark(SaveRemarks(t, remarks[..|remarks| - 1]), remarks[|remarks| - 1].0, remarks[|remarks| - 1].1)
  }

  datatype Outcome =
    | BadMaximum
    | Forbidden
    | NoSubjects
    | Invalid(errors: seq<Error>)
    | NothingToSave
    | Unstorable
    | Saved(students: nat, marks: nat)

  /** A column of DECIMAL(6,2) has no NaN: that INSERT fails, and with it the whole transaction. */
  predicate Storable(entries: seq<Entry>) {
    forall k :: 0 <= k < |entries| ==> entries[k].mark != Some(NaN)
  }

  /** `import_results` on the rows of the file; `allowed`: a manager or the section's class teacher. */
  function Import(t: Table, allowed: bool, students: seq<Student>, subjects: seq<string>, top: real,
      read: string -> Reading, rows: seq<seq<string>>): (Table, Outcome)
    requires rows != []
  {
    if !(0.0 < top < LIMIT) then (t, BadMaximum)
    else if !allowed then (t, Forbidden)
    else if subjects == [] then (t, NoSubjects)
    else
      var c := Header(rows[0], subjects);
      if c.errors != [] then (t, Invalid(c.errors))
      else
        var p := RowsOf(c, students, top, read, rows[1..]);
        if p.errors != [] then (t, Invalid(p.errors))
        else if p.entries == [] && p.remarks == [] then (t, NothingToSave)
        else if !Storable(p.entries) then (t, Unstorable)
        else (SaveRemarks(SaveEntries(t, top, p.entries), p.remarks), Saved(|p.seen|, |p.entries|))
  }

  // -------------------------------------------------- what may be saved

  predicate SubjectsOnce(at: seq<(nat, string)>) {
    forall j, k :: 0 <= j < k < |at| ==> at[j].1 != at[k].1
  }

  // ------------------------------------------ what cells, headings and rows mean

  /** A cell of the template shows the mark, AB where there is none but the grade is AB, else nothing. */
  lemma SheetShows(t: Table, show: real -> string, subjects: seq<string>, st: Student, k: nat)
    requires k < |subjects|
    ensures var cell, key := TemplateRow(t, show, subjects, st)[4 + k], (st.id, subjects[k]);
      var marked := key in t && t[key].marks.Some?;
      var absent := key in t && !marked && t[key].grade.Some? && Upper(t[key].grade.value) == "AB";
      && (marked ==> cell == show(t[key].marks.value)) && (absent ==> cell == "AB")
      && (!marked && !absent ==> cell == "")
    ensures var row, key := TemplateRow(t, show, subjects, st), (st.id, "");
      && |row| == |subjects| + 5 && row[..4] == [Show(st.id), TextOf(st.admission), TextOf(st.roll), st.name]
      && row[|subjects| + 4] == if key in t then TextOf(t[key].remarks) else ""
  {
    hide Upper, Show;
  }

  /** What a heading may be called, and the column it stands for. */
  const NAMES: seq<(string, string)> := [
    ("student_id", "student_id"), ("admission_no", "admission_no"), ("admission_number", "admission_no"),
    ("roll_no", "roll_no"), ("roll_number", "roll_no"), ("roll", "roll_no"),
    ("student_name", "student_name"), ("name", "student_name"), ("remarks", "remarks"), ("remark", "remarks")]

  /** The heading without regard to case and spacing, blanks written as underscores, is one of the names. */
  ghost predicate Names(raw: string, key: string) {
    |Norm(raw)| == |key| && forall i :: 0 <= i < |key| ==> key[i] == if Norm(raw)[i] == ' ' then '_' else Norm(raw)[i]
  }

  lemma NamesOne(raw: string, key: string)
    ensures Names(raw, key) <==> Underscored(Norm(raw)) == key
  {
  }

  lemma KeyNames(key: string, k: nat)
    requires k < |NAMES| && key == NAMES[k].0
    ensures |key| > 0
    ensures k < 8 ==> IsIdKey(key) && Canonical(key) == NAMES[k].1
    ensures k >= 8 ==> !IsIdKey(key) && (key == "remarks" || key == "remark") && NAMES[k].1 == "remarks"
  {
    assert "student_name"[0] != "admission_no"[0] && "name"[0] != "roll"[0] && "roll_no"[1] != "remarks"[1];
  }

  lemma NoName(key: string)
    requires forall k :: 0 <= k < |NAMES| ==> key != NAMES[k].0
    ensures !IsIdKey(key) && key != "remarks" && key != "remark"
  {
    assert key != NAMES[0].0 && key != NAMES[1].0 && key != NAMES[2].0 && key != NAMES[3].0 && key != NAMES[4].0;
    assert key != NAMES[5].0 && key != NAMES[6].0 && key != NAMES[7].0 && key != NAMES[8].0 && key != NAMES[9].0;
  }

  /** A heading stands for a column of the sheet, else for a subject of the class, else it is an error;
      so is a second column of a subject. */
  lemma HeadingOutcome(c: Columns, i: nat, raw: string, subjects: seq<string>)
    ensures var c', key := HeaderStep(c, i, raw, subjects), Underscored(Norm(raw));
      && Names(raw, key) && (Norm(raw) == "" ==> c' == c)
      && (forall k :: 0 <= k < |NAMES| && key == NAMES[k].0 ==> c' == c.(ids := c.ids[NAMES[k].1 := i]))
      && (Norm(raw) != "" && (forall k :: 0 <= k < |NAMES| ==> key != NAMES[k].0) ==>
            if forall s :: s in subjects ==> Norm(s) != Norm(raw)
            then c' == c.(errors := c.errors + [Error(1, raw)])
            else exists s :: s in subjects && Norm(s) == Norm(raw) && SubjectColumn(c, c', i, raw, s))
  {
    var h, key := Norm(raw), Underscored(Norm(raw));
    NamesOne(raw, key);
    assert |key| == |h|;
    forall k | 0 <= k < |NAMES| && key == NAMES[k].0
      ensures HeaderStep(c, i, raw, subjects) == c.(ids := c.ids[NAMES[k].1 := i])
    {
      KeyNames(key, k);
      hide Norm, Underscored, IsIdKey, Canonical, Known;
    }
    if h != "" && forall k :: 0 <= k < |NAMES| ==> key != NAMES[k].0 {
      NoName(key);
      KnownIsSubject(subjects, h);
      KnownIff(subjects, h);
      hide Norm, Underscored, IsIdKey, Canonical, Known;
      if Known(subjects, h).Some? {
        assert SubjectColumn(c, HeaderStep(c, i, raw, subjects), i, raw, Known(subjects, h).value);
      }
    }
    hide Norm, Underscored, IsIdKey, Canonical, Known, HeaderStep, Names;
  }

  /** A heading row is right exactly when no heading is an error by itself, something identifies the
      student, and there is a column to read. */
  lemma HeaderRight(cells: seq<string>, subjects: seq<string>)
    ensures var c := HeaderCells(cells, subjects);
      Header(cells, subjects).errors == [] <==>
        && c.errors == [] && (exists id :: id in ["student_id", "admission_no", "roll_no"] && id in c.ids)
        && (c.subjectAt != [] || "remarks" in c.ids)
  {
    hide HeaderCells;
    var ids := ["student_id", "admission_no", "roll_no"];
    assert ids[0] in ids && ids[1] in ids && ids[2] in ids;
  }

  ghost predicate SubjectColumn(c: Columns, c': Columns, i: nat, raw: string, s: string) {
    && c'.ids == c.ids && c'.subjectAt == c.subjectAt + [(i, s)]
    && c'.errors == if exists k :: 0 <= k < |c.subjectAt| && c.subjectAt[k].1 == s then c.errors + [Error(1, raw)]
                    else c.errors
  }

  lemma {:induction false} KnownIff(subjects: seq<string>, h: string)
    ensures Known(subjects, h).Some? <==> exists s :: s in subjects && Norm(s) == h
  {
    hide Norm;
    if subjects != [] { KnownIff(subjects[..|subjects| - 1], h); }
  }

  predicate SameId(st: Student, text: string) {
    text != "" && Show(st.id) == text
  }

  predicate SameText(o: Option<string>, text: string) {
    text != "" && o.Some? && o.value != "" && Norm(o.value) == Norm(text)
  }

  /** A row is the student's with its id; where nobody has that, with its admission number; and where
      nobody has that either, with its roll number. */
  lemma FindOutcome(c: Columns, students: seq<Student>, row: seq<string>)
    ensures var found := Find(c, students, row);
      var sid, adm := CellAt(row, Col(c, "student_id")), CellAt(row, Col(c, "admission_no"));
      var roll := CellAt(row, Col(c, "roll_no"));
      && (found.Some? ==> found.value in students)
      && if exists st :: st in students && SameId(st, sid) then found.Some? && SameId(found.value, sid)
         else if exists st :: st in students && SameText(st.admission, adm)
         then found.Some? && SameText(found.value.admission, adm)
         else if exists st :: st in students && SameText(st.roll, roll)
         then found.Some? && SameText(found.value.roll, roll)
         else found.None?
  {
    var sid, adm := CellAt(row, Col(c, "student_id")), CellAt(row, Col(c, "admission_no"));
    var roll := CellAt(row, Col(c, "roll_no"));
    LastIff(students, WithId(sid));
    LastIff(students, WithAdmission(adm));
    LastIff(students, WithRoll(roll));
    hide Norm, Show, Last, CellAt, Col;
  }

  lemma {:induction false} LastIff(students: seq<Student>, such: Student -> bool)
    ensures Last(students, such).Some? <==> exists st :: st in students && such(st)
  {
    if students != [] { LastIff(students[..|students| - 1], such); }
  }

  lemma {:induction false} KnownIsSubject(subjects: seq<string>, h: string)
    ensures Known(subjects, h).Some? ==> Known(subjects, h).value in subjects && Norm(Known(subjects, h).value) == h
  {
    if subjects != [] { KnownIsSubject(subjects[..|subjects| - 1], h); }
  }

  lemma {:induction false} HeaderSound(cells: seq<string>, subjects: seq<string>)
    ensures var c := HeaderCells(cells, subjects);
      && (forall k :: 0 <= k < |c.subjectAt| ==> c.subjectAt[k].1 in subjects)
      && (c.errors == [] ==> SubjectsOnce(c.subjectAt))
  {
    if cells != [] {
      HeaderSound(cells[..|cells| - 1], subjects);
      KnownIsSubject(subjects, Norm(cells[|cells| - 1]));
      hide Norm, Underscored, IsIdKey, Canonical;
    }
  }

  ghost predicate MarkFits(mark: Option<Reading>, top: real) {
    mark.Some? ==> mark.value.NaN? || (mark.value.Number? && 0.0 <= mark.value.value <= top && mark.value.value < LIMIT)
  }

  predicate Distinct(entries: seq<Entry>) {
    forall j, k :: 0 <= j < k < |entries| ==>
      entries[j].student != entries[k].student || entries[j].subject != entries[k].subject
  }

  ghost predicate CellsSound(entries: seq<Entry>, student: nat, at: seq<(nat, string)>, top: real) {
    && (forall k :: 0 <= k < |entries| ==>
          entries[k].student == student && HasSubject(at, entries[k].subject) && MarkFits(entries[k].mark, top))
    && Distinct(entries)
  }

  lemma HasOneMore(at: seq<(nat, string)>, subject: string)
    requires at != []
    ensures HasSubject(at, subject) <==> HasSubject(at[..|at| - 1], subject) || at[|at| - 1].1 == subject
  {
  }

  lemma CheckedFits(v: string, top: real, read: string -> Reading)
    ensures CheckCell(v, top, read).Good? ==> MarkFits(CheckCell(v, top, read).mark, top)
  {
  }

  lemma {:induction false} CellsAreSound(row: seq<string>, n: nat, student: nat, at: seq<(nat, string)>,
      top: real, read: string -> Reading)
    requires SubjectsOnce(at)
    ensures CellsSound(CellsOf(row, n, student, at, top, read).0, student, at, top)
  {
    if at != [] {
      var rest := at[..|at| - 1];
      CellsAreSound(row, n, student, rest, top, read);
      var (entries, _) := CellsOf(row, n, student, rest, top, read);
      assert !HasSubject(rest, at[|at| - 1].1);
      HasOneMore(at, at[|at| - 1].1);
      forall k | 0 <= k < |entries| ensures HasSubject(at, entries[k].subject) && entries[k].subject != at[|at| - 1].1 {
        HasOneMore(at, entries[k].subject);
      }
      CheckedFits(CellAt(row, Some(at[|at| - 1].0)), top, read);
      hide HasSubject, SubjectsOnce, CellAt, CheckCell, MarkFits;
    }
  }

  ghost predicate ProgressSound(p: Progress, students: seq<Student>, at: seq<(nat, string)>, top: real) {
    && (forall k :: 0 <= k < |p.entries| ==>
          p.entries[k].student in p.seen && HasSubject(at, p.entries[k].subject) && MarkFits(p.entries[k].mark, top))
    && Distinct(p.entries)
    && (forall id :: id in p.seen ==> exists j :: 0 <= j < |students| && students[j].id == id)
  }

  lemma DistinctTogether(before: seq<Entry>, entries: seq<Entry>, seen: set<nat>, student: nat)
    requires Distinct(before) && Distinct(entries) && student !in seen
    requires forall k :: 0 <= k < |before| ==> before[k].student in seen
    requires forall k :: 0 <= k < |entries| ==> entries[k].student == student
    ensures Distinct(before + entries)
  {
  }

  lemma RowIsSound(c: Columns, students: seq<Student>, top: real, read: string -> Reading, p: Progress, n: nat,
      row: seq<string>)
    requires SubjectsOnce(c.subjectAt) && ProgressSound(p, students, c.subjectAt, top)
    ensures ProgressSound(RowStep(c, students, top, read, p, n, row), students, c.subjectAt, top)
  {
    var found := Find(c, students, row);
    if found.Some? && found.value.id !in p.seen {
      CellsAreSound(row, n, found.value.id, c.subjectAt, top, read);
      DistinctTogether(p.entries, CellsOf(row, n, found.value.id, c.subjectAt, top, read).0, p.seen, found.value.id);
      hide HasSubject, SubjectsOnce, CellAt, MarkFits, Find, Distinct, CellsOf;
    }
  }

  lemma {:induction false} RowsAreSound(c: Columns, students: seq<Student>, top: real, read: string -> Reading,
      rows: seq<seq<string>>)
    requires SubjectsOnce(c.subjectAt)
    ensures ProgressSound(RowsOf(c, students, top, read, rows), students, c.subjectAt, top)
  {
    if rows != [] {
      RowsAreSound(c, students, top, read, rows[..|rows| - 1]);
      hide ProgressSound, SubjectsOnce, RowStep, IsBlank, IsMaxRow;
      var before := RowsOf(c, students, top, read, rows[..|rows| - 1]);
      RowIsSound(c, students, top, read, before, |rows| + 1, rows[|rows| - 1]);
    }
  }

  lemma {:induction false} SavedElsewhere(t: Table, top: real, entries: seq<Entry>, key: (nat, string))
    requires forall k :: 0 <= k < |entries| ==> (entries[k].student, entries[k].subject) != key
    ensures key in SaveEntries(t, top, entries) <==> key in t
    ensures key in t ==> SaveEntries(t, top, entries)[key] == t[key]
    decreases |entries|
  {
    if entries != [] { SavedElsewhere(t, top, entries[..|entries| - 1], key); }
  }

  /** Each entry is saved on its own: what its row becomes depends on that row alone. */
  lemma {:induction false} SavedAt(t: Table, top: real, entries: seq<Entry>, k: nat)
    requires k < |entries| && Distinct(entries)
    ensures var key := (entries[k].student, entries[k].subject);
      key in SaveEntries(t, top, entries) && SaveEntries(t, top, entries)[key] == SaveEntry(t, top, entries[k])[key]
    decreases |entries|
  {
    var rest, last := entries[..|entries| - 1], entries[|entries| - 1];
    if k == |entries| - 1 {
      SavedElsewhere(t, top, rest, (last.student, last.subject));
    } else {
      SavedAt(t, top, rest, k);
    }
  }

  /** The row of an entry: its mark out of the maximum of the upload, AB exactly without one, a grade typed
      earlier otherwise kept, and the remark as it was. */
  lemma SavedRow(t: Table, top: real, entries: seq<Entry>, k: nat)
    requires k < |entries| && Distinct(entries)
    ensures var e, key := entries[k], (entries[k].student, entries[k].subject);
      var was := if key in t then t[key] else Result(None, None, None, None);
      var number := e.mark.Some? && e.mark.value.Number?;
      key in SaveEntries(t, top, entries) && SaveEntries(t, top, entries)[key] ==
        Result(if number then Some(e.mark.value.value) else None, Some(top),
               if !number then Some("AB")
               else if was.grade.Some? && Upper(was.grade.value) == "AB" then None else was.grade,
               was.remarks)
  {
    SavedAt(t, top, entries, k);
    hide SaveEntries, Distinct, Upper;
  }

  lemma {:induction false} RemarksLeaveMarks(t: Table, remarks: seq<(nat, string)>, key: (nat, string))
    requires key.1 != ""
    ensures (key in SaveRemarks(t, remarks) <==> key in t) && (key in t ==> SaveRemarks(t, remarks)[key] == t[key])
    decreases |remarks|
  {
    if remarks != [] { RemarksLeaveMarks(t, remarks[..|remarks| - 1], key); }
  }

  predicate Changed(t: Table, t': Table, key: (nat, string)) {
    if key in t && key in t' then t[key] != t'[key] else key in t || key in t'
  }

  lemma SavedSound(t: Table, top: real, entries: seq<Entry>, key: (nat, string))
    requires Distinct(entries) && Storable(entries) && Changed(t, SaveEntries(t, top, entries), key)
    requires forall k :: 0 <= k < |entries| ==> MarkFits(entries[k].mark, top)
    ensures var t' := SaveEntries(t, top, entries);
      && key in t' && t'[key].top == Some(top)
      && (if t'[key].marks.Some? then 0.0 <= t'[key].marks.value <= top else IsAb(t'[key].grade))
    ensures exists k :: 0 <= k < |entries| && (entries[k].student, entries[k].subject) == key
  {
    if forall k :: 0 <= k < |entries| ==> (entries[k].student, entries[k].subject) != key {
      SavedElsewhere(t, top, entries, key);
    } else {
      var k :| 0 <= k < |entries| && (entries[k].student, entries[k].subject) == key;
      SavedAt(t, top, entries, k);
      UpperAb();
      assert MarkFits(entries[k].mark, top);
    }
  }

  lemma RemarksKeepChanges(t: Table, t': Table, remarks: seq<(nat, string)>, key: (nat, string))
    requires key.1 != ""
    ensures Changed(t, SaveRemarks(t', remarks), key) <==> Changed(t, t', key)
    ensures key in t' ==> key in SaveRemarks(t', remarks) && SaveRemarks(t', remarks)[key] == t'[key]
  {
    RemarksLeaveMarks(t', remarks, key);
  }

  lemma ImportSaves(t: Table, allowed: bool, students: seq<Student>, subjects: seq<string>, top: real,
      read: string -> Reading, rows: seq<seq<string>>)
    requires rows != []
    ensures var (t', outcome) := Import(t, allowed, students, subjects, top, read, rows);
      var c := Header(rows[0], subjects);
      var p := RowsOf(c, students, top, read, rows[1..]);
      if outcome.Saved?
      then allowed && c.errors == [] && Storable(p.entries)
          && t' == SaveRemarks(SaveEntries(t, top, p.entries), p.remarks)
      else t' == t
  {
    hide Header, RowsOf, SaveEntries, SaveRemarks, Storable;
  }

  /** An upload goes through exactly with a possible maximum, by somebody who may, for a class with
      subjects, without an error in heading or rows, with something to save and no entry that is no number;
      else nothing changes and the first of these is named. */
  lemma ImportOutcome(t: Table, allowed: bool, students: seq<Student>, subjects: seq<string>, top: real,
      read: string -> Reading, rows: seq<seq<string>>)
    requires rows != []
    ensures var (t', outcome) := Import(t, allowed, students, subjects, top, read, rows);
      var c := Header(rows[0], subjects);
      var p := RowsOf(c, students, top, read, rows[1..]);
      var begun := 0.0 < top < LIMIT && allowed && subjects != [];
      var something := p.entries != [] || p.remarks != [];
      var storable := forall e :: e in p.entries ==> e.mark != Some(NaN);
      && (outcome == BadMaximum <==> top <= 0.0 || LIMIT <= top)
      && (outcome == Forbidden <==> 0.0 < top < LIMIT && !allowed)
      && (outcome == NoSubjects <==> 0.0 < top < LIMIT && allowed && subjects == [])
      && (outcome.Invalid? <==> begun && (c.errors != [] || p.errors != []))
      && (outcome.Invalid? ==> outcome.errors == if c.errors != [] then c.errors else p.errors)
      && (outcome == NothingToSave <==> begun && c.errors == [] == p.errors && !something)
      && (outcome == Unstorable <==> begun && c.errors == [] == p.errors && something && !storable)
      && (outcome.Saved? ==> outcome == Saved(|p.seen|, |p.entries|))
      && (outcome.Saved? ==> t' == SaveRemarks(SaveEntries(t, top, p.entries), p.remarks))
      && (!outcome.Saved? ==> t' == t)
  {
    hide Header, RowsOf, SaveEntries, SaveRemarks;
  }

  lemma HeadingOnce(cells: seq<string>, subjects: seq<string>)
    requires Header(cells, subjects).errors == []
    ensures var at := Header(cells, subjects).subjectAt;
      SubjectsOnce(at) && forall k :: 0 <= k < |at| ==> at[k].1 in subjects
  {
    HeaderSound(cells, subjects);
    hide HeaderCells, SubjectsOnce;
  }

  /** All or nothing; and what is saved is for students of the section and subjects of the class, one
      mark each, from 0 to the maximum. */
  lemma UploadIsSound(t: Table, allowed: bool, students: seq<Student>, subjects: seq<string>, top: real,
      read: string -> Reading, rows: seq<seq<string>>, student: nat, subject: string)
    requires rows != [] && subject != ""
    ensures var (t', outcome) := Import(t, allowed, students, subjects, top, read, rows);
      var key := (student, subject);
      && (!outcome.Saved? ==> t' == t) && (outcome.Saved? ==> allowed)
      && (Changed(t, t', key) ==>
            && outcome.Saved? && key in t' && subject in subjects
            && (exists j :: 0 <= j < |students| && students[j].id == student)
            && t'[key].top == Some(top)
            && (if t'[key].marks.Some? then 0.0 <= t'[key].marks.value <= top else IsAb(t'[key].grade)))
  {
    var (t', outcome) := Import(t, allowed, students, subjects, top, read, rows);
    ImportSaves(t, allowed, students, subjects, top, read, rows);
    hide Import, Header, RowsOf, SaveEntries, SaveRemarks, IsAb, Changed, SubjectsOnce;
    if outcome.Saved? && Changed(t, t', (student, subject)) {
      var c := Header(rows[0], subjects);
      HeadingOnce(rows[0], subjects);
      RowsAreSound(c, students, top, read, rows[1..]);
      var p := RowsOf(c, students, top, read, rows[1..]);
      RemarksKeepChanges(t, SaveEntries(t, top, p.entries), p.remarks, (student, subject));
      SavedSound(t, top, p.entries, (student, subject));
      var k :| 0 <= k < |p.entries| && (p.entries[k].student, p.entries[k].subject) == (student, subject);
      assert HasSubject(c.subjectAt, subject) && student in p.seen;
    } else {
      NothingChanged(t, (student, subject));
    }
  }

  lemma NothingChanged(t: Table, key: (nat, string))
    ensures !Changed(t, t, key)
  {
  }

  /** Marks leave remarks alone, and a number leaves a grade typed earlier alone unless it is AB. */
  lemma {:induction false} SavingKeepsRest(t: Table, top: real, entries: seq<Entry>, key: (nat, string))
    requires key in t && Distinct(entries)
    ensures var t' := SaveEntries(t, top, entries);
      && key in t' && t'[key].remarks == t[key].remarks
      && (t'[key].marks.Some? && t'[key] != t[key] ==>
          t'[key].grade == if IsAb(t[key].grade) then None else t[key].grade)
      && (t'[key].marks.None? && t'[key] != t[key] ==> t'[key].grade == Some("AB"))
  {
    hide Upper;
    if forall k :: 0 <= k < |entries| ==> (entries[k].student, entries[k].subject) != key {
      SavedElsewhere(t, top, entries, key);
    } else {
      var k :| 0 <= k < |entries| && (entries[k].student, entries[k].subject) == key;
      SavedAt(t, top, entries, k);
    }
  }

  lemma UpperAb()
    ensures Upper("AB") == "AB"
  {
  }

  /** "nan" passes every comparison, so it is not reported as a bad cell. */
  lemma NotANumberPasses(top: real, read: string -> Reading)
    requires read("nan") == NaN
    ensures CheckCell("nan", top, read) == Good(Some(NaN))
  {
    assert Lower("nan")[0] == 'n';
  }

  /** A cell is let through as a number outside 0 to the maximum exactly when it reads as NaN. */
  lemma CheckedExactly(v: string, top: real, read: string -> Reading)
    requires top < LIMIT
    ensures CheckCell(v, top, read).Good? && CheckCell(v, top, read).mark.Some? ==>
      (read(v) == NaN <==> !(read(v).Number? && 0.0 <= read(v).value <= top))
    ensures read(v).Number? && 0.0 <= read(v).value <= top && v != "" && Lower(v) !in ["ab", "abs", "absent"] ==>
      CheckCell(v, top, read) == Good(Some(read(v)))
  {
  }

  // ------------------------------------------------ template and back again

  predicate ClearSubject(subject: string) {
    var h := Norm(subject);
    h != "" && !IsIdKey(Underscored(h)) && Underscored(h) != "remarks" && Underscored(h) != "remark"
  }

  /** Subject names apart after normalising, and none of them a heading of another kind. */
  ghost predicate ClearSubjects(subjects: seq<string>) {
    && (forall k :: 0 <= k < |subjects| ==> ClearSubject(subjects[k]))
    && (forall j, k :: 0 <= j < k < |subjects| ==> Norm(subjects[j]) != Norm(subjects[k]))
  }

  ghost predicate ClearStudents(students: seq<Student>) {
    && (forall j, k :: 0 <= j < k < |students| ==> students[j].id != students[k].id)
    && (forall k :: 0 <= k < |students| ==>
          Upper(Strip(TextOf(students[k].admission))) != "MAX" && Upper(Strip(TextOf(students[k].roll))) != "MAX")
  }

  /** The number is written as text that is read back as the same number. */
  ghost predicate ReadsBack(v: real, show: real -> string, read: string -> Reading) {
    read(show(v)) == Number(v) && Strip(show(v)) == show(v) != "" && Lower(show(v)) !in ["ab", "abs", "absent"]
  }

  /** So are the student's own marks, none of them above the maximum. */
  ghost predicate StudentReadsBack(t: Table, student: nat, top: real, show: real -> string, read: string -> Reading) {
    forall subject: string :: (student, subject) in t && t[(student, subject)].marks.Some? ==>
      && 0.0 <= t[(student, subject)].marks.value <= top
      && ReadsBack(t[(student, subject)].marks.value, show, read)
  }

  /** And those of every student of the section. */
  ghost predicate MarksReadBack(t: Table, students: seq<Student>, top: real, show: real -> string,
      read: string -> Reading)
  {
    forall j :: 0 <= j < |students| ==> StudentReadsBack(t, students[j].id, top, show, read)
  }

  lemma {:induction false} KnownFinds(subjects: seq<string>, k: nat)
    requires k < |subjects| && forall i, j :: 0 <= i < j < |subjects| ==> Norm(subjects[i]) != Norm(subjects[j])
    ensures Known(subjects, Norm(subjects[k])) == Some(subjects[k])
    decreases |subjects|
  {
    hide Norm;
    if k < |subjects| - 1 { KnownFinds(subjects[..|subjects| - 1], k); }
  }

  function SubjectColumns(subjects: seq<string>): (at: seq<(nat, string)>)
    ensures |at| == |subjects|
  {
    seq(|subjects|, k requires 0 <= k < |subjects| => (4 + k, subjects[k]))
  }

  const TEMPLATE_IDS: map<string, nat> :=
    map["student_id" := 0, "admission_no" := 1, "roll_no" := 2, "student_name" := 3]

  lemma PlainKey(key: string)
    requires Plain(key)
    ensures Norm(key) == key && Underscored(key) == key
  {
    PlainIsNormal(key);
  }

  lemma IdNames(i: nat)
    requires i < 4
    ensures Plain(ID_COLUMNS[i]) && ID_COLUMNS[i] in ID_COLUMNS && ID_COLUMNS[i] != ""
    ensures Canonical(ID_COLUMNS[i]) == ID_COLUMNS[i]
  {
    assert |"student_id"| == 10 && |"admission_no"| == 12 && |"roll_no"| == 7 && |"student_name"| == 12;
    assert |"name"| == 4 && |"admission_number"| == 16 && |"roll"| == 4 && |"roll_number"| == 11;
  }

  lemma IdStep(c: Columns, i: nat, subjects: seq<string>)
    requires i < 4
    ensures HeaderStep(c, i, ID_COLUMNS[i], subjects) == c.(ids := c.ids[ID_COLUMNS[i] := i])
  {
    var name := ID_COLUMNS[i];
    IdNames(i);
    PlainKey(name);
    hide Norm, Underscored, Known, HasSubject, Canonical, Plain;
    assert IsIdKey(name);
  }

  lemma IdCells(subjects: seq<string>)
    ensures HeaderCells(ID_COLUMNS, subjects) == Columns(TEMPLATE_IDS, [], [])
  {
    var c: Columns := HeaderCells([], subjects);
    assert ID_COLUMNS[..1][..0] == [] && ID_COLUMNS[..2][..1] == ID_COLUMNS[..1];
    assert ID_COLUMNS[..3][..2] == ID_COLUMNS[..2] && ID_COLUMNS[..4][..3] == ID_COLUMNS[..3];
    assert ID_COLUMNS[..4] == ID_COLUMNS;
    hide HeaderStep;
    IdStep(HeaderCells(ID_COLUMNS[..0], subjects), 0, subjects);
    IdStep(HeaderCells(ID_COLUMNS[..1], subjects), 1, subjects);
    IdStep(HeaderCells(ID_COLUMNS[..2], subjects), 2, subjects);
    IdStep(HeaderCells(ID_COLUMNS[..3], subjects), 3, subjects);
    assert HeaderCells(ID_COLUMNS[..1], subjects).ids == map["student_id" := 0];
    assert HeaderCells(ID_COLUMNS[..2], subjects).ids == map["student_id" := 0, "admission_no" := 1];
    assert HeaderCells(ID_COLUMNS[..3], subjects).ids == map["student_id" := 0, "admission_no" := 1, "roll_no" := 2];
  }

  lemma SubjectStep(c: Columns, i: nat, subjects: seq<string>, k: nat)
    requires ClearSubjects(subjects) && k < |subjects| && !HasSubject(c.subjectAt, subjects[k])
    ensures HeaderStep(c, i, subjects[k], subjects) == c.(subjectAt := c.subjectAt + [(i, subjects[k])])
  {
    assert ClearSubject(subjects[k]);
    KnownFinds(subjects, k);
    hide Norm, Underscored, Known, HasSubject, IsIdKey;
  }

  lemma {:induction false} SubjectCells(subjects: seq<string>, k: nat)
    requires ClearSubjects(subjects) && k <= |subjects|
    ensures HeaderCells(ID_COLUMNS + subjects[..k], subjects) ==
        Columns(TEMPLATE_IDS, SubjectColumns(subjects)[..k], [])
    decreases k
  {
    hide Norm, Underscored, IsIdKey, Known, HeaderStep;
    var cells := ID_COLUMNS + subjects[..k];
    if k == 0 {
      assert cells == ID_COLUMNS;
      IdCells(subjects);
    } else {
      assert cells[..|cells| - 1] == ID_COLUMNS + subjects[..k - 1];
      SubjectCells(subjects, k - 1);
      var at := SubjectColumns(subjects)[..k - 1];
      forall j | 0 <= j < |at| ensures at[j].1 != subjects[k - 1] { assert Norm(subjects[j]) != Norm(subjects[k - 1]); }
      assert !HasSubject(at, subjects[k - 1]);
      hide ClearSubjects, HasSubject;
      SubjectStep(HeaderCells(cells[..|cells| - 1], subjects), |cells| - 1, subjects, k - 1);
      assert SubjectColumns(subjects)[..k] == at + [(3 + k, subjects[k - 1])];
    }
  }

  function TemplateColumns(subjects: seq<string>): Columns {
    Columns(TEMPLATE_IDS["remarks" := 4 + |subjects|], SubjectColumns(subjects), [])
  }

  lemma RemarksStep(c: Columns, i: nat, subjects: seq<string>)
    ensures HeaderStep(c, i, "remarks", subjects) == c.(ids := c.ids["remarks" := i])
  {
    PlainKey("remarks");
    hide Norm, Underscored, Known, HasSubject, Plain;
    assert !IsIdKey("remarks") by {
      assert |"remarks"| == |"roll_no"| == 7 && "remarks"[1] != "roll_no"[1];
      assert |"student_id"| == 10 && |"admission_no"| == 12 && |"student_name"| == 12;
      assert |"name"| == 4 && |"admission_number"| == 16 && |"roll"| == 4 && |"roll_number"| == 11;
    }
  }

  /** The template's own heading is understood: every column is found where it was put. */
  lemma HeadingIsUnderstood(subjects: seq<string>)
    requires ClearSubjects(subjects)
    ensures Header(TemplateHeader(subjects), subjects) == TemplateColumns(subjects)
  {
    hide Norm, Underscored, Known, HasSubject, HeaderStep, IsIdKey;
    var cells := TemplateHeader(subjects);
    SubjectCells(subjects, |subjects|);
    assert subjects[..|subjects|] == subjects && cells[..|cells| - 1] == ID_COLUMNS + subjects;
    assert SubjectColumns(subjects)[..|subjects|] == SubjectColumns(subjects);
    hide ClearSubjects, SubjectColumns;
    RemarksStep(Columns(TEMPLATE_IDS, SubjectColumns(subjects), []), 4 + |subjects|, subjects);
    assert HeaderCells(cells, subjects) == TemplateColumns(subjects);
  }

  lemma {:induction false} LastFinds(students: seq<Student>, such: Student -> bool, k: nat)
    requires k < |students| && such(students[k])
    ensures Last(students, such).Some?
    decreases |students|
  {
    if k < |students| - 1 { LastFinds(students[..|students| - 1], such, k); }
  }

  lemma ShownPlain(n: nat)
    ensures Strip(Show(n)) == Show(n) != "" && Upper(Show(n)) != "MAX" && Upper(Strip(Show(n))) != "MAX"
  {
    PlainIsNormal(Show(n));
    assert IsDigit(Show(n)[0]) && Upper(Show(n))[0] == Show(n)[0];
    assert "MAX"[0] == 'M';
  }

  lemma FoundById(students: seq<Student>, j: nat)
    requires ClearStudents(students) && j < |students|
    ensures Last(students, WithId(Show(students[j].id))) == Some(students[j])
  {
    var st := students[j];
    LastFinds(students, WithId(Show(st.id)), j);
    var found := Last(students, WithId(Show(st.id)));
    ReadShow(found.value.id);
    ReadShow(st.id);
    hide Last, Show, Read, Upper, Strip;
    var k :| 0 <= k < |students| && students[k] == found.value;
    assert k == j;
  }

  lemma TemplateRowKeys(t: Table, show: real -> string, subjects: seq<string>, st: Student)
    ensures var (row, c) := (TemplateRow(t, show, subjects, st), TemplateColumns(subjects));
      && CellAt(row, Col(c, "student_id")) == Show(st.id)
      && CellAt(row, Col(c, "admission_no")) == Strip(TextOf(st.admission))
      && CellAt(row, Col(c, "roll_no")) == Strip(TextOf(st.roll))
      && !IsBlank(row)
  {
    var row := TemplateRow(t, show, subjects, st);
    ShownPlain(st.id);
    assert row[0] == Show(st.id) && row[1] == TextOf(st.admission) && row[2] == TextOf(st.roll);
    hide TemplateRow, Strip, Show;
  }

  lemma RowIsFound(t: Table, show: real -> string, subjects: seq<string>, students: seq<Student>, j: nat)
    requires ClearStudents(students) && j < |students|
    ensures var row := TemplateRow(t, show, subjects, students[j]);
      Find(TemplateColumns(subjects), students, row) == Some(students[j])
      && !IsBlank(row) && !IsMaxRow(TemplateColumns(subjects), row)
  {
    ShownPlain(students[j].id);
    FoundById(students, j);
    TemplateRowKeys(t, show, subjects, students[j]);
    hide TemplateRow, TemplateColumns, Col, CellAt, Last, Show, Strip, Upper, IsBlank, WithId;
  }

  /** The entry says what the sheet shows. */
  ghost predicate Agrees(t: Table, e: Entry) {
    match ShownAt(t, e.student, e.subject)
    case Blank => false
    case Absent => e.mark == None
    case Mark(v) => e.mark == Some(Number(v))
  }

  lemma AbIsAbsent()
    ensures Lower("AB") == "ab" && Strip("AB") == "AB"
  {
  }

  lemma CellReadsBack(t: Table, top: real, show: real -> string, read: string -> Reading, student: nat, subject: string)
    requires StudentReadsBack(t, student, top, show, read) && top < LIMIT
    ensures var checked := CheckCell(Strip(CellText(show, ShownAt(t, student, subject))), top, read);
      && (checked.Empty? <==> ShownAt(t, student, subject).Blank?)
      && (checked.Empty? || (checked.Good? && Agrees(t, Entry(student, subject, checked.mark))))
  {
    AbIsAbsent();
    hide Lower, Strip, Upper;
  }

  lemma TemplateCell(t: Table, show: real -> string, subjects: seq<string>, st: Student, k: nat)
    requires k < |subjects|
    ensures CellAt(TemplateRow(t, show, subjects, st), Some(4 + k)) ==
        Strip(CellText(show, ShownAt(t, st.id, subjects[k])))
  {
    hide Strip, ShownAt, CellText, Show;
  }

  predicate HasEntry(entries: seq<Entry>, student: nat, subject: string) {
    exists i :: 0 <= i < |entries| && entries[i].student == student && entries[i].subject == subject
  }

  lemma HasEntryStays(a: seq<Entry>, b: seq<Entry>, student: nat, subject: string)
    ensures HasEntry(a + b, student, subject) <==> HasEntry(a, student, subject) || HasEntry(b, student, subject)
  {
    if i :| 0 <= i < |b| && b[i].student == student && b[i].subject == subject {
      assert (a + b)[|a| + i] == b[i];
    }
    if i :| 0 <= i < |a| && a[i].student == student && a[i].subject == subject {
      assert (a + b)[i] == a[i];
    }
  }

  /** Every filled cell of the student's first `k` columns has an entry. */
  ghost predicate AllEntered(t: Table, entries: seq<Entry>, subjects: seq<string>, student: nat, k: nat)
    requires k <= |subjects|
  {
    forall i :: 0 <= i < k && !ShownAt(t, student, subjects[i]).Blank? ==> HasEntry(entries, student, subjects[i])
  }

  lemma EnteredStays(t: Table, a: seq<Entry>, b: seq<Entry>, subjects: seq<string>, student: nat, k: nat)
    requires k <= |subjects| && (AllEntered(t, a, subjects, student, k) || AllEntered(t, b, subjects, student, k))
    ensures AllEntered(t, a + b, subjects, student, k)
  {
    forall i | 0 <= i < k { HasEntryStays(a, b, student, subjects[i]); }
  }

  lemma {:induction false} CellsReadBack(t: Table, top: real, show: real -> string, read: string -> Reading,
      subjects: seq<string>, st: Student, n: nat, k: nat)
    requires StudentReadsBack(t, st.id, top, show, read) && top < LIMIT && k <= |subjects|
    ensures var row, at := TemplateRow(t, show, subjects, st), SubjectColumns(subjects)[..k];
      var (entries, errors) := CellsOf(row, n, st.id, at, top, read);
      && errors == [] && (forall i :: 0 <= i < |entries| ==> Agrees(t, entries[i]))
      && AllEntered(t, entries, subjects, st.id, k)
    decreases k
  {
    hide TemplateRow, CheckCell, Agrees, CellText, ShownAt, StudentReadsBack, Strip, CellAt, HasEntry;
    if k > 0 {
      var row, at := TemplateRow(t, show, subjects, st), SubjectColumns(subjects)[..k];
      assert at[..|at| - 1] == SubjectColumns(subjects)[..k - 1] && at[|at| - 1] == (3 + k, subjects[k - 1]);
      TemplateCell(t, show, subjects, st, k - 1);
      CellsReadBack(t, top, show, read, subjects, st, n, k - 1);
      CellReadsBack(t, top, show, read, st.id, subjects[k - 1]);
      var before := CellsOf(row, n, st.id, at[..|at| - 1], top, read).0;
      var entries := CellsOf(row, n, st.id, at, top, read).0;
      if entries != before {
        EnteredStays(t, before, entries[|before|..], subjects, st.id, k - 1);
        assert entries == before + entries[|before|..];
        LastIsEntered(entries);
      }
    }
  }

  lemma LastIsEntered(entries: seq<Entry>)
    requires entries != []
    ensures HasEntry(entries, entries[|entries| - 1].student, entries[|entries| - 1].subject)
  {
  }

  function TrimmedAt(t: Table, student: nat): string {
    Cut(Strip(RemarkAt(t, student)))
  }

  predicate HasRemark(remarks: seq<(nat, string)>, student: nat) {
    exists i :: 0 <= i < |remarks| && remarks[i].0 == student
  }

  /** Every filled cell and every remark of the student is about to be saved. */
  ghost predicate RowRead(t: Table, p: Progress, subjects: seq<string>, student: nat) {
    && AllEntered(t, p.entries, subjects, student, |subjects|)
    && (TrimmedAt(t, student) != "" ==> HasRemark(p.remarks, student))
  }

  lemma RowStaysRead(t: Table, p: Progress, p': Progress, subjects: seq<string>, student: nat, more: seq<Entry>)
    requires RowRead(t, p, subjects, student) && p'.entries == p.entries + more && p.remarks <= p'.remarks
    ensures RowRead(t, p', subjects, student)
  {
    EnteredStays(t, p.entries, more, subjects, student, |subjects|);
    hide TrimmedAt;
    if i :| 0 <= i < |p.remarks| && p.remarks[i].0 == student { assert p'.remarks[i] == p.remarks[i]; }
  }

  ghost predicate ReadBack(t: Table, p: Progress, subjects: seq<string>, students: seq<Student>, upTo: nat)
    requires upTo <= |students|
  {
    && p.errors == []
    && (forall i :: 0 <= i < |p.entries| ==> Agrees(t, p.entries[i]))
    && (forall i :: 0 <= i < |p.remarks| ==>
          p.remarks[i].1 == TrimmedAt(t, p.remarks[i].0) != "" && p.remarks[i].0 in p.seen)
    && (forall j :: 0 <= j < upTo ==> RowRead(t, p, subjects, students[j].id))
    && (forall id :: id in p.seen ==> exists j :: 0 <= j < upTo && students[j].id == id)
  }

  function RemarkOf(t: Table, student: nat): seq<(nat, string)> {
    if TrimmedAt(t, student) == "" then [] else [(student, TrimmedAt(t, student))]
  }

  /** One more student's entries and remark. */
  lemma ReadOn(t: Table, subjects: seq<string>, students: seq<Student>, p: Progress, p': Progress, j: nat,
      more: seq<Entry>)
    requires j < |students| && ReadBack(t, p, subjects, students, j)
    requires p'.seen == p.seen + {students[j].id} && p'.errors == [] && p'.entries == p.entries + more
    requires p'.remarks == p.remarks + RemarkOf(t, students[j].id)
    requires (forall i :: 0 <= i < |more| ==> Agrees(t, more[i]))
    requires AllEntered(t, more, subjects, students[j].id, |subjects|)
    ensures ReadBack(t, p', subjects, students, j + 1)
  {
    hide Agrees, TrimmedAt, AllEntered;
    var st := students[j];
    EnteredStays(t, p.entries, more, subjects, st.id, |subjects|);
    if TrimmedAt(t, st.id) != "" { assert p'.remarks[|p.remarks|].0 == st.id; }
    assert RowRead(t, p', subjects, st.id);
    forall i | 0 <= i < j ensures RowRead(t, p', subjects, students[i].id) {
      RowStaysRead(t, p, p', subjects, students[i].id, more);
    }
    hide RowRead;
  }

  /** What a template row adds. */
  lemma TemplateRowAdds(t: Table, top: real, show: real -> string, read: string -> Reading,
      subjects: seq<string>, students: seq<Student>, p: Progress, j: nat)
    requires ClearStudents(students) && MarksReadBack(t, students, top, show, read) && top < LIMIT && j < |students|
    requires p.errors == [] && students[j].id !in p.seen
    ensures var c, row, id := TemplateColumns(subjects), TemplateRow(t, show, subjects, students[j]), students[j].id;
      var more := CellsOf(row, j + 2, id, c.subjectAt, top, read).0;
      var p' := RowStep(c, students, top, read, p, j + 2, row);
      && p'.seen == p.seen + {id} && p'.errors == [] && p'.entries == p.entries + more
      && p'.remarks == p.remarks + RemarkOf(t, id)
      && (forall i :: 0 <= i < |more| ==> Agrees(t, more[i]))
      && AllEntered(t, more, subjects, id, |subjects|)
  {
    hide Find, CellsOf, Agrees, StudentReadsBack, IsBlank, IsMaxRow, Strip, AllEntered;
    var c, row, st := TemplateColumns(subjects), TemplateRow(t, show, subjects, students[j]), students[j];
    RowIsFound(t, show, subjects, students, j);
    CellsReadBack(t, top, show, read, subjects, st, j + 2, |subjects|);
    assert SubjectColumns(subjects)[..|subjects|] == c.subjectAt;
    assert CellAt(row, Col(c, "remarks")) == Strip(RemarkAt(t, st.id));
    assert Cut(CellAt(row, Col(c, "remarks"))) == TrimmedAt(t, st.id);
    hide TemplateRow, RemarkAt, SubjectColumns, ClearStudents, TemplateColumns, Cut, CellAt, TrimmedAt, Col;
  }

  lemma TemplateRowReadsBack(t: Table, top: real, show: real -> string, read: string -> Reading,
      subjects: seq<string>, students: seq<Student>, p: Progress, j: nat)
    requires ClearStudents(students) && MarksReadBack(t, students, top, show, read) && top < LIMIT && j < |students|
    requires ReadBack(t, p, subjects, students, j)
    ensures var row := TemplateRow(t, show, subjects, students[j]);
      ReadBack(t, RowStep(TemplateColumns(subjects), students, top, read, p, j + 2, row), subjects, students, j + 1)
  {
    var c, row := TemplateColumns(subjects), TemplateRow(t, show, subjects, students[j]);
    assert students[j].id !in p.seen by { NotSeenYet(students, p.seen, j); }
    assert p.errors == [];
    hide *;
    TemplateRowAdds(t, top, show, read, subjects, students, p, j);
    ReadOn(t, subjects, students, p, RowStep(c, students, top, read, p, j + 2, row), j,
      CellsOf(row, j + 2, students[j].id, c.subjectAt, top, read).0);
  }

  lemma NotSeenYet(students: seq<Student>, seen: set<nat>, j: nat)
    requires ClearStudents(students) && j < |students|
    requires forall id :: id in seen ==> exists i :: 0 <= i < j && students[i].id == id
    ensures students[j].id !in seen
  {
  }

  lemma {:induction false} TemplateRowsReadBack(t: Table, top: real, show: real -> string,
      read: string -> Reading, subjects: seq<string>, students: seq<Student>, j: nat)
    requires ClearStudents(students) && MarksReadBack(t, students, top, show, read) && top < LIMIT && j <= |students|
    ensures var rows := TemplateRows(t, show, subjects, students)[..j];
      ReadBack(t, RowsOf(TemplateColumns(subjects), students, top, read, rows), subjects, students, j)
    decreases j
  {
    hide TemplateRow, RowStep, IsBlank, IsMaxRow, TemplateColumns, MarksReadBack, ClearStudents, Find, Agrees,
        TrimmedAt;
    if j > 0 {
      var rows := TemplateRows(t, show, subjects, students)[..j];
      assert rows[..j - 1] == TemplateRows(t, show, subjects, students)[..j - 1];
      assert rows[j - 1] == TemplateRow(t, show, subjects, students[j - 1]);
      TemplateRowsReadBack(t, top, show, read, subjects, students, j - 1);
      hide ReadBack;
      RowIsFound(t, show, subjects, students, j - 1);
      TemplateRowReadsBack(t, top, show, read, subjects, students,
                           RowsOf(TemplateColumns(subjects), students, top, read, rows[..j - 1]), j - 1);
    }
  }

  lemma SavedShows(t: Table, top: real, entries: seq<Entry>, student: nat, subject: string)
    requires Distinct(entries) && forall i :: 0 <= i < |entries| ==> Agrees(t, entries[i])
    ensures ShownAt(SaveEntries(t, top, entries), student, subject) == ShownAt(t, student, subject)
  {
    if k :| 0 <= k < |entries| && (entries[k].student, entries[k].subject) == (student, subject) {
      SavedAt(t, top, entries, k);
      UpperAb();
      assert Agrees(t, entries[k]);
    } else {
      SavedElsewhere(t, top, entries, (student, subject));
    }
  }

  lemma {:induction false} RemarkSaved(t: Table, was: Table, remarks: seq<(nat, string)>, student: nat)
    requires forall i :: 0 <= i < |remarks| ==> remarks[i].1 == TrimmedAt(was, remarks[i].0)
    requires RemarkAt(t, student) == RemarkAt(was, student)
    requires TrimmedAt(was, student) == RemarkAt(was, student)
    ensures RemarkAt(SaveRemarks(t, remarks), student) == RemarkAt(was, student)
    decreases |remarks|
  {
    if remarks != [] {
      hide TrimmedAt;
      RemarkSaved(t, was, remarks[..|remarks| - 1], student);
    }
  }

  lemma TemplateSubjectsOnce(subjects: seq<string>)
    requires ClearSubjects(subjects)
    ensures SubjectsOnce(SubjectColumns(subjects))
  {
    forall j, k | 0 <= j < k < |subjects| ensures subjects[j] != subjects[k] {
      assert Norm(subjects[j]) != Norm(subjects[k]);
    }
  }

  lemma AgreeingStorable(t: Table, entries: seq<Entry>)
    requires forall i :: 0 <= i < |entries| ==> Agrees(t, entries[i])
    ensures Storable(entries)
  {
    forall i | 0 <= i < |entries| ensures entries[i].mark != Some(NaN) { assert Agrees(t, entries[i]); }
  }

  lemma RemarksUntouched(t: Table, top: real, entries: seq<Entry>, subjects: seq<string>, student: nat)
    requires ClearSubjects(subjects)
    requires forall k :: 0 <= k < |entries| ==> HasSubject(SubjectColumns(subjects), entries[k].subject)
    ensures RemarkAt(SaveEntries(t, top, entries), student) == RemarkAt(t, student)
  {
    forall k | 0 <= k < |entries| ensures entries[k].subject != "" {
      assert HasSubject(SubjectColumns(subjects), entries[k].subject);
      var i :| 0 <= i < |subjects| && SubjectColumns(subjects)[i].1 == entries[k].subject;
      assert ClearSubject(subjects[i]);
    }
    SavedElsewhere(t, top, entries, (student, ""));
  }

  /** What is read from the rows of an unedited template. */
  lemma UneditedRows(t: Table, top: real, show: real -> string, read: string -> Reading, subjects: seq<string>,
      students: seq<Student>)
    requires ClearSubjects(subjects) && ClearStudents(students)
    requires MarksReadBack(t, students, top, show, read) && top < LIMIT
    ensures var p := RowsOf(TemplateColumns(subjects), students, top, read, TemplateRows(t, show, subjects, students));
      && ReadBack(t, p, subjects, students, |students|) && Storable(p.entries) && Distinct(p.entries)
      && forall k :: 0 <= k < |p.entries| ==>
           p.entries[k].student in p.seen && HasSubject(SubjectColumns(subjects), p.entries[k].subject)
  {
    var rows := TemplateRows(t, show, subjects, students);
    assert rows == rows[..|students|];
    TemplateRowsReadBack(t, top, show, read, subjects, students, |students|);
    TemplateSubjectsOnce(subjects);
    hide RowsOf, TemplateRows, ClearStudents, ClearSubjects, MarksReadBack, HasSubject, SubjectsOnce;
    RowsAreSound(TemplateColumns(subjects), students, top, read, rows);
    AgreeingStorable(t, RowsOf(TemplateColumns(subjects), students, top, read, rows).entries);
  }

  /** Uploading an unedited template changes no mark, no AB and no trimmed remark, whoever's it is. */
  lemma UneditedTemplateKeepsAll(t: Table, top: real, show: real -> string, read: string -> Reading,
      subjects: seq<string>, students: seq<Student>, student: nat, subject: string)
    requires ClearSubjects(subjects) && ClearStudents(students) && MarksReadBack(t, students, top, show, read)
    requires 0.0 < top < LIMIT && subjects != []
    ensures var rows := [TemplateHeader(subjects)] + TemplateRows(t, show, subjects, students);
      var (t', outcome) := Import(t, true, students, subjects, top, read, rows);
      && (outcome.Saved? || outcome.NothingToSave?)
      && (subject != "" ==> ShownAt(t', student, subject) == ShownAt(t, student, subject))
      && (TrimmedAt(t, student) == RemarkAt(t, student) ==> RemarkAt(t', student) == RemarkAt(t, student))
  {
    hide RowsOf, TemplateRows, TemplateHeader, Header, TemplateColumns, SaveEntries, SaveRemarks;
    hide ClearStudents, ClearSubjects, MarksReadBack, HasSubject, ShownAt, RemarkAt, Strip, Storable, Distinct, Agrees;
    var rows := [TemplateHeader(subjects)] + TemplateRows(t, show, subjects, students);
    assert rows[0] == TemplateHeader(subjects) && rows[1..] == TemplateRows(t, show, subjects, students);
    HeadingIsUnderstood(subjects);
    assert TemplateColumns(subjects).errors == [] by { NoHeadingErrors(subjects); }
    UneditedRows(t, top, show, read, subjects, students);
    var p := RowsOf(TemplateColumns(subjects), students, top, read, rows[1..]);
    SavedShows(t, top, p.entries, student, subject);
    if subject != "" { ShownDespiteRemarks(SaveEntries(t, top, p.entries), p.remarks, student, subject); }
    RemarksUntouched(t, top, p.entries, subjects, student);
    if TrimmedAt(t, student) == RemarkAt(t, student) {
      RemarkSaved(SaveEntries(t, top, p.entries), t, p.remarks, student);
    }
  }

  /** The row of a filled cell as the upload would write it. */
  predicate CellStays(t: Table, top: real, student: nat, subject: string) {
    match ShownAt(t, student, subject)
    case Blank => true
    case Absent => t[(student, subject)].top == Some(top) && t[(student, subject)].grade == Some("AB")
    case Mark(_) => t[(student, subject)].top == Some(top) && !IsAb(t[(student, subject)].grade)
  }

  predicate RemarkStays(t: Table, student: nat) {
    TrimmedAt(t, student) == "" || TrimmedAt(t, student) == RemarkAt(t, student)
  }

  lemma EntryStays(t: Table, top: real, e: Entry)
    requires Agrees(t, e)
    ensures (e.student, e.subject) in t
    ensures SaveEntry(t, top, e)[(e.student, e.subject)] == t[(e.student, e.subject)] <==>
      CellStays(t, top, e.student, e.subject)
  {
    UpperAb();
    hide Upper;
  }

  lemma EntriesStay(t: Table, top: real, entries: seq<Entry>)
    requires Distinct(entries) && forall i :: 0 <= i < |entries| ==> Agrees(t, entries[i])
    requires forall i :: 0 <= i < |entries| ==> CellStays(t, top, entries[i].student, entries[i].subject)
    ensures SaveEntries(t, top, entries) == t
  {
    var t' := SaveEntries(t, top, entries);
    forall key: (nat, string) ensures (key in t' <==> key in t) && (key in t ==> t'[key] == t[key]) {
      if k :| 0 <= k < |entries| && (entries[k].student, entries[k].subject) == key {
        SavedAt(t, top, entries, k);
        EntryStays(t, top, entries[k]);
      } else {
        SavedElsewhere(t, top, entries, key);
      }
    }
  }

  lemma {:induction false} RemarksStay(t: Table, remarks: seq<(nat, string)>)
    requires forall i :: 0 <= i < |remarks| ==> remarks[i].1 == RemarkAt(t, remarks[i].0) != ""
    ensures SaveRemarks(t, remarks) == t
    decreases |remarks|
  {
    if remarks != [] {
      var (student, remark) := remarks[|remarks| - 1];
      RemarksStay(t, remarks[..|remarks| - 1]);
      assert t[(student, "")].(remarks := Some(remark)) == t[(student, "")];
    }
  }

  lemma {:induction false} RemarkWritten(t: Table, remarks: seq<(nat, string)>, student: nat, remark: string)
    requires HasRemark(remarks, student)
    requires forall i :: 0 <= i < |remarks| && remarks[i].0 == student ==> remarks[i].1 == remark
    ensures RemarkAt(SaveRemarks(t, remarks), student) == remark
    decreases |remarks|
  {
    if remarks[|remarks| - 1].0 != student {
      RemarkWritten(t, remarks[..|remarks| - 1], student, remark);
    }
  }

  /** What the rows of an unedited template do to the table. */
  lemma UneditedStaysIff(t: Table, top: real, subjects: seq<string>, students: seq<Student>, p: Progress)
    requires ReadBack(t, p, subjects, students, |students|) && Distinct(p.entries)
    requires forall k :: 0 <= k < |p.entries| ==> p.entries[k].student in p.seen && p.entries[k].subject in subjects
    requires "" !in subjects
    ensures SaveRemarks(SaveEntries(t, top, p.entries), p.remarks) == t <==> AllStays(t, top, subjects, students)
  {
    hide CellStays, Agrees, TrimmedAt, RemarkAt, ShownAt;
    if AllStays(t, top, subjects, students) {
      forall i | 0 <= i < |p.entries| ensures CellStays(t, top, p.entries[i].student, p.entries[i].subject) {
        var j :| 0 <= j < |students| && students[j].id == p.entries[i].student;
        var k :| 0 <= k < |subjects| && subjects[k] == p.entries[i].subject;
      }
      EntriesStay(t, top, p.entries);
      forall i | 0 <= i < |p.remarks| ensures p.remarks[i].1 == RemarkAt(t, p.remarks[i].0) {
        var j :| 0 <= j < |students| && students[j].id == p.remarks[i].0;
        assert RemarkStays(t, students[j].id);
      }
      RemarksStay(t, p.remarks);
    } else if SaveRemarks(SaveEntries(t, top, p.entries), p.remarks) == t {
      var saved := SaveEntries(t, top, p.entries);
      forall j | 0 <= j < |students| ensures StudentStays(t, top, subjects, students[j].id) {
        StudentMustStay(t, top, subjects, students[j].id, p);
      }
    }
  }

  predicate StudentStays(t: Table, top: real, subjects: seq<string>, student: nat) {
    RemarkStays(t, student) && forall k :: 0 <= k < |subjects| ==> CellStays(t, top, student, subjects[k])
  }

  predicate AllStays(t: Table, top: real, subjects: seq<string>, students: seq<Student>) {
    forall j :: 0 <= j < |students| ==> StudentStays(t, top, subjects, students[j].id)
  }

  lemma StudentMustStay(t: Table, top: real, subjects: seq<string>, student: nat, p: Progress)
    requires RowRead(t, p, subjects, student) && Distinct(p.entries) && "" !in subjects
    requires forall i :: 0 <= i < |p.entries| ==> Agrees(t, p.entries[i])
    requires forall i :: 0 <= i < |p.remarks| ==> p.remarks[i].1 == TrimmedAt(t, p.remarks[i].0)
    requires SaveRemarks(SaveEntries(t, top, p.entries), p.remarks) == t
    ensures StudentStays(t, top, subjects, student)
  {
    var saved := SaveEntries(t, top, p.entries);
    hide Agrees, TrimmedAt, RemarkAt, SaveEntry, SaveRemark;
    if TrimmedAt(t, student) != "" { RemarkWritten(saved, p.remarks, student, TrimmedAt(t, student)); }
    forall k | 0 <= k < |subjects| ensures CellStays(t, top, student, subjects[k]) {
      var key := (student, subjects[k]);
      if !ShownAt(t, student, subjects[k]).Blank? {
        assert HasEntry(p.entries, student, subjects[k]);
        var i :| 0 <= i < |p.entries| && p.entries[i].student == student && p.entries[i].subject == subjects[k];
        SavedAt(t, top, p.entries, i);
        RemarksLeaveMarks(saved, p.remarks, key);
        EntryStays(t, top, p.entries[i]);
      }
    }
  }

  /** Uploading an unedited template leaves the table as it is exactly when every filled cell was saved
      with the maximum now given and the grade an upload leaves, and every remark that is not blank is
      trimmed and short enough already. */
  lemma UneditedChangesNothingIff(t: Table, top: real, show: real -> string, read: string -> Reading,
      subjects: seq<string>, students: seq<Student>)
    requires ClearSubjects(subjects) && ClearStudents(students) && MarksReadBack(t, students, top, show, read)
    requires 0.0 < top < LIMIT && subjects != []
    ensures var rows := [TemplateHeader(subjects)] + TemplateRows(t, show, subjects, students);
      Import(t, true, students, subjects, top, read, rows).0 == t <==> AllStays(t, top, subjects, students)
  {
    hide *;
    HeadingIsUnderstood(subjects);
    NoHeadingErrors(subjects);
    UneditedRows(t, top, show, read, subjects, students);
    var p := RowsOf(TemplateColumns(subjects), students, top, read, TemplateRows(t, show, subjects, students));
    ReadWithoutErrors(t, p, subjects, students);
    NoNamelessSubject(subjects);
    forall k | 0 <= k < |p.entries| ensures p.entries[k].subject in subjects {
      ColumnIsSubject(subjects, p.entries[k].subject);
    }
    UneditedStaysIff(t, top, subjects, students, p);
    UneditedImport(t, top, show, read, subjects, students, p);
  }

  lemma ReadWithoutErrors(t: Table, p: Progress, subjects: seq<string>, students: seq<Student>)
    requires ReadBack(t, p, subjects, students, |students|)
    ensures p.errors == []
  {
  }

  lemma NoNamelessSubject(subjects: seq<string>)
    requires ClearSubjects(subjects)
    ensures "" !in subjects
  {
    forall k | 0 <= k < |subjects| ensures subjects[k] != "" { assert ClearSubject(subjects[k]); }
  }

  lemma ColumnIsSubject(subjects: seq<string>, subject: string)
    requires HasSubject(SubjectColumns(subjects), subject)
    ensures subject in subjects
  {
    var i :| 0 <= i < |subjects| && SubjectColumns(subjects)[i].1 == subject;
  }

  lemma SavingNothing(t: Table, top: real)
    ensures SaveRemarks(SaveEntries(t, top, []), []) == t
  {
  }

  lemma UneditedImport(t: Table, top: real, show: real -> string, read: string -> Reading, subjects: seq<string>,
      students: seq<Student>, p: Progress)
    requires Header(TemplateHeader(subjects), subjects) == TemplateColumns(subjects)
    requires TemplateColumns(subjects).errors == [] && p.errors == [] && Storable(p.entries)
    requires p == RowsOf(TemplateColumns(subjects), students, top, read, TemplateRows(t, show, subjects, students))
    requires 0.0 < top < LIMIT && subjects != []
    ensures var rows := [TemplateHeader(subjects)] + TemplateRows(t, show, subjects, students);
      Import(t, true, students, subjects, top, read, rows).0 == SaveRemarks(SaveEntries(t, top, p.entries), p.remarks)
  {
    hide Header, TemplateHeader, TemplateColumns, TemplateRows, RowsOf, SaveRemarks, SaveEntries, Storable;
    var rows := [TemplateHeader(subjects)] + TemplateRows(t, show, subjects, students);
    assert rows[0] == TemplateHeader(subjects) && rows[1..] == TemplateRows(t, show, subjects, students);
    SavingNothing(t, top);
  }

  /** So a re-upload with another maximum changes something: a mark of 5 out of 10 becomes 5 out of 20. */
  lemma OtherMaximumRewrites(show: real -> string, read: string -> Reading)
    requires ReadsBack(5.0, show, read)
    ensures var t: Table := map[(1, "maths") := Result(Some(5.0), Some(10.0), None, None)];
      var subjects, students := ["maths"], [Student(1, "Asha", None, None)];
      var rows := [TemplateHeader(subjects)] + TemplateRows(t, show, subjects, students);
      Import(t, true, students, subjects, 20.0, read, rows).0 != t
  {
    var t: Table := map[(1, "maths") := Result(Some(5.0), Some(10.0), None, None)];
    var subjects, students := ["maths"], [Student(1, "Asha", None, None)];
    PlainKey("maths");
    assert "maths"[0] == 'm' && |"maths"| == 5 && |"remarks"| == 7 && |"remark"| == 6;
    assert |"student_id"| == 10 && |"admission_no"| == 12 && |"roll_no"| == 7 && |"student_name"| == 12;
    assert |"name"| == 4 && |"admission_number"| == 16 && |"roll"| == 4 && |"roll_number"| == 11;
    assert ClearSubject("maths");
    assert Upper(Strip("")) == "" != "MAX";
    assert !CellStays(t, 20.0, 1, "maths");
    hide CellStays, Norm, Underscored, IsIdKey, Import, TemplateRows, TemplateHeader;
    assert !StudentStays(t, 20.0, subjects, students[0].id) by { assert subjects[0] == "maths"; }
    UneditedChangesNothingIff(t, 20.0, show, read, subjects, students);
  }

  lemma NoHeadingErrors(subjects: seq<string>)
    ensures TemplateColumns(subjects).errors == []
  {
  }

  lemma ShownDespiteRemarks(t: Table, remarks: seq<(nat, string)>, student: nat, subject: string)
    requires subject != ""
    ensures ShownAt(SaveRemarks(t, remarks), student, subject) == ShownAt(t, student, subject)
  {
    RemarksLeaveMarks(t, remarks, (student, subject));
  }

  // ------------------------------------------------------------ as a program

  method ReadHeader(cells: seq<string>, subjects: seq<string>) returns (c: Columns)
    ensures c == Header(cells, subjects)
  {
    hide HeaderStep;
    c := Columns(map[], [], []);
    for i := 0 to |cells|
      invariant c == HeaderCells(cells[..i], subjects)
    {
      assert cells[..i + 1][..i] == cells[..i];
      c := HeaderStep(c, i, cells[i], subjects);
    }
    assert cells[..|cells|] == cells;
    var errors := c.errors;
    if NoIdColumn(c) { errors := errors + [Error(1, "")]; }
    if c.subjectAt == [] && "remarks" !in c.ids { errors := errors + [Error(1, "")]; }
    c := c.(errors := errors);
  }

  method ReadCells(row: seq<string>, n: nat, student: nat, at: seq<(nat, string)>, top: real, read: string -> Reading)
    returns (entries: seq<Entry>, errors: seq<Error>)
    ensures (entries, errors) == CellsOf(row, n, student, at, top, read)
  {
    hide CheckCell, CellAt;
    entries, errors := [], [];
    for k := 0 to |at|
      invariant (entries, errors) == CellsOf(row, n, student, at[..k], top, read)
    {
      assert at[..k + 1][..k] == at[..k];
      match CheckCell(CellAt(row, Some(at[k].0)), top, read) {
        case Empty =>
        case Bad => errors := errors + [Error(n, at[k].1)];
        case Good(mark) => entries := entries + [Entry(student, at[k].1, mark)];
      }
    }
    assert at[..|at|] == at;
  }

  method ReadRows(c: Columns, students: seq<Student>, top: real, read: string -> Reading,
      rows: seq<seq<string>>) returns (p: Progress)
    ensures p == RowsOf(c, students, top, read, rows)
  {
    hide IsBlank, IsMaxRow, Find, CellAt, Cut, CellsOf;
    p := Progress([], [], {}, []);
    for j := 0 to |rows|
      invariant p == RowsOf(c, students, top, read, rows[..j])
    {
      var row := rows[j];
      assert rows[..j + 1][..j] == rows[..j];
      if !IsBlank(row) && !IsMaxRow(c, row) {
        var found := Find(c, students, row);
        if found.None? || found.value.id in p.seen {
          p := p.(errors := p.errors + [Error(j + 2, "")]);
        } else {
          var st := found.value;
          var entries, errors := ReadCells(row, j + 2, st.id, c.subjectAt, top, read);
          var remark := Cut(CellAt(row, Col(c, "remarks")));
          p := Progress(p.entries + entries, if remark != "" then p.remarks + [(st.id, remark)] else p.remarks,
                        p.seen + {st.id}, p.errors + errors);
        }
      }
    }
    assert rows[..|rows|] == rows;
  }

  /** The exam's results, whether parents see them, and its maximum, if it has one. */
  class ResultTable {
    var table: Table
    var published: bool
    var examTop: Option<real>

    constructor (examTop: Option<real>)
      ensures table == map[] && !published && this.examTop == examTop
    {
      table, published, this.examTop := map[], false, examTop;
    }

    method InsertAll(top: real, entries: seq<Entry>, remarks: seq<(nat, string)>)
      modifies this`table
      ensures table == SaveRemarks(SaveEntries(old(table), top, entries), remarks)
    {
      hide SaveEntry, SaveRemark;
      for k := 0 to |entries|
        invariant table == SaveEntries(old(table), top, entries[..k])
      {
        assert entries[..k + 1][..k] == entries[..k];
        table := SaveEntry(table, top, entries[k]);
      }
      assert entries[..|entries|] == entries;
      ghost var marked := table;
      for k := 0 to |remarks|
        invariant table == SaveRemarks(marked, remarks[..k])
      {
        assert remarks[..k + 1][..k] == remarks[..k];
        table := SaveRemark(table, remarks[k].0, remarks[k].1);
      }
      assert remarks[..|remarks|] == remarks;
    }

    /** `import_results`: anything changes only when the whole file is right; then the results are
        published, and an exam without a maximum gets this one. */
    method ImportResults(allowed: bool, students: seq<Student>, subjects: seq<string>, top: real,
        read: string -> Reading, rows: seq<seq<string>>)
      returns (outcome: Outcome)
      requires rows != []
      modifies this
      ensures (table, outcome) == Import(old(table), allowed, students, subjects, top, read, rows)
      ensures published <==> old(published) || outcome.Saved?
      ensures examTop == if outcome.Saved? && old(examTop).None? then Some(top) else old(examTop)
    {
      hide Header, RowsOf, SaveEntries, SaveRemarks;
      if !(0.0 < top < LIMIT) { return BadMaximum; }
      if !allowed { return Forbidden; }
      if subjects == [] { return NoSubjects; }
      var c := ReadHeader(rows[0], subjects);
      if c.errors != [] { return Invalid(c.errors); }
      var p := ReadRows(c, students, top, read, rows[1..]);
      if p.errors != [] { return Invalid(p.errors); }
      if p.entries == [] && p.remarks == [] { return NothingToSave; }
      if !Storable(p.entries) { return Unstorable; }
      InsertAll(top, p.entries, p.remarks);
      published, examTop := true, if examTop.None? then Some(top) else examTop;
      outcome := Saved(|p.seen|, |p.entries|);
    }
  }
}
