/**
  Classroom lists (`bpslibrary/views/users.py`): the extension check on
  uploaded class lists, the checks `update_classroom` makes on the upload,
  and `update_db`, which turns the rows of the CSV file into classrooms and
  their pupils.

  The CSV file is given as the rows `csv.reader` yields; reading and saving
  the file, flashing messages and rendering pages are left out.
 */
module Users {
  import opened Wrappers
  import opened Text
  import opened Models
  import opened Database
  import opened FileUploader
  import Enums

  /** `UPLOAD_DIR` */
  const UploadDir := "/tmp/"

  /** `ALLOWED_EXTENSIONS` */
  const AllowedExtensionsCsv: seq<string> := ["csv"]

  /** The form field the class list is uploaded in. */
  const ClassroomField := "classroom_file"

  /** `allowed_file(filename)` */
  predicate AllowedFile(fileName: string)
  {
    '.' in fileName && Lower(Extension(fileName)) in AllowedExtensionsCsv
  }

  /** A file is allowed exactly when its name ends in ".csv", in any case. */
  lemma AllowedFileIffCsvSuffix(fileName: string)
    ensures AllowedFile(fileName) <==> |fileName| >= 4 && Lower(fileName[|fileName| - 4..]) == ".csv"
  {
    if AllowedFile(fileName) {
      CsvSuffixOfAllowed(fileName);
    }
    if |fileName| >= 4 && Lower(fileName[|fileName| - 4..]) == ".csv" {
      AllowedOfCsvSuffix(fileName);
    }
  }

  lemma CsvSuffixOfAllowed(fileName: string)
    requires AllowedFile(fileName)
    ensures |fileName| >= 4 && Lower(fileName[|fileName| - 4..]) == ".csv"
  {
    var n := |fileName|;
    var i := LastIndexOf(fileName, '.');
    var e := fileName[i + 1..];
    assert Extension(fileName) == e;
    assert |e| == |Lower(e)| == 3;
    assert fileName[n - 4..] == [fileName[i]] + e;
    LowerAppend([fileName[i]], e);
  }

  lemma AllowedOfCsvSuffix(fileName: string)
    requires |fileName| >= 4 && Lower(fileName[|fileName| - 4..]) == ".csv"
    ensures AllowedFile(fileName)
  {
    var n := |fileName|;
    var p, c, e := fileName[..n - 4], fileName[n - 4], fileName[n - 3..];
    var low := Lower(fileName[n - 4..]);
    assert fileName[n - 4..] == [c] + e;
    LowerAppend([c], e);
    assert low == [LowerChar(c)] + Lower(e);
    assert low[0] == LowerChar(c) == '.';
    assert c == '.';
    assert Lower(e) == low[1..] == "csv";
    assert '.' !in e by {
      forall k | 0 <= k < |e| ensures e[k] != '.' {
        assert LowerChar(e[k]) == "csv"[k];
      }
    }
    assert fileName == p + "." + e;
    ExtensionUnique(fileName, p, e);
  }

  /** `allowed_file` is the CSV case of the general upload check. */
  lemma AllowedFileIsCsvUpload(fileName: string)
    ensures AllowedFile(fileName) <==> Permitted(fileName, AllowedExtensions(Enums.Csv))
  {
  }

  /** The checks `update_classroom` makes on a POSTed class list, in order,
      and the path the file is saved to. They agree with `upload_to_tmp`
      for a CSV file in the same field. */
  function CheckClassroomFile(files: map<string, string>, secure: string -> string): (r: Result<string, UploadError>)
    ensures r == UploadToTmp(files, ClassroomField, Enums.Csv, secure)
  {
    if ClassroomField !in files then Failure(FileNotFound)
    else
      var name := files[ClassroomField];
      if name == "" then Failure(NoFileSelected)
      else if !AllowedFile(name) then Failure(NotPermitted)
      else Success(PathJoin(UploadDir, secure(name)))
  }

  /** How a POST to `update_classroom` ends: an error flashed by one of
      the checks, or the file saved at `path` and handed to `update_db`,
      which reports whether the classrooms were stored. */
  datatype UpdateOutcome = Rejected(error: UploadError) | Processed(path: string, stored: bool)

  /** The POST branch of `update_classroom`. `rows` stands for what
      `csv.reader` yields on the saved file. */
  method UpdateClassroom(files: map<string, string>, secure: string -> string, rows: seq<seq<string>>, session: Session)
    returns (r: UpdateOutcome, classrooms: seq<Classroom>)
    modifies session
    ensures CheckClassroomFile(files, secure).Failure? ==>
      && r == Rejected(CheckClassroomFile(files, secure).error)
      && classrooms == []
      && session.pending == old(session.pending) && session.committed == old(session.committed)
    ensures CheckClassroomFile(files, secure).Success? ==>
      r == Processed(CheckClassroomFile(files, secure).value, WellFormed(rows))
    ensures r.Processed? && r.stored ==>
      && Snapshot(classrooms) == Grouped(rows)
      && session.pending == []
      && session.committed == old(session.committed) + old(session.pending) + classrooms
    ensures r.Processed? && !r.stored ==>
      && Snapshot(classrooms) == AbandonedAt(rows)
      && session.pending == old(session.pending) + classrooms
      && session.committed == old(session.committed)
    ensures fresh(set c | c in classrooms)
  {
    var checked := CheckClassroomFile(files, secure);
    if checked.Failure? {
      return Rejected(checked.error), [];
    }
    var stored;
    stored, classrooms := UpdateDb(rows, session);
    r := Processed(checked.value, stored);
  }

  /** A classroom and its pupils as `update_db` leaves them. */
  datatype Group = Group(name: string, year: Option<string>, pupils: seq<string>)

  /** Every row has a classroom name, a year and a pupil name. */
  predicate WellFormed(rows: seq<seq<string>>)
  {
    forall i :: 0 <= i < |rows| ==> |rows[i]| >= 3
  }

  /** A row starts a new classroom when there is none yet or its first
      field differs from the current classroom's name. */
  predicate StartsNew(gs: seq<Group>, row: seq<string>)
    requires row != []
  {
    gs == [] || row[0] != gs[|gs| - 1].name
  }

  /** The classrooms after a row with a name and a year is looked at: a
      new one, still without pupils, when the row starts one. */
  function Open(gs: seq<Group>, row: seq<string>): (r: seq<Group>)
    requires |row| >= 2
    ensures r != []
  {
    if StartsNew(gs, row) then gs + [Group(row[0], Some(row[1]), [])] else gs
  }

  /** Appending a pupil to the last classroom. */
  function Grow(gs: seq<Group>, pupil: string): seq<Group>
    requires gs != []
  {
    gs[..|gs| - 1] + [gs[|gs| - 1].(pupils := gs[|gs| - 1].pupils + [pupil])]
  }

  /** What one complete row does to the classrooms built so far. */
  function AddRow(gs: seq<Group>, row: seq<string>): seq<Group>
    requires |row| >= 3
  {
    Grow(Open(gs, row), row[2])
  }

  /** What a row with fewer than three fields leaves behind when it raises
      `IndexError`: a classroom it started, with no pupil, when the row
      had a name and a year. */
  function Abandon(gs: seq<Group>, row: seq<string>): seq<Group>
    requires |row| < 3
  {
    if |row| == 2 then Open(gs, row) else gs
  }

  /** The classrooms `update_db` builds from complete rows. */
  function Grouped(rows: seq<seq<string>>): seq<Group>
    requires WellFormed(rows)
    decreases |rows|
  {
    if rows == [] then [] else AddRow(Grouped(rows[..|rows| - 1]), rows[|rows| - 1])
  }

  /** The first row with fewer than three fields. */
  function FirstShort(rows: seq<seq<string>>): (k: nat)
    requires !WellFormed(rows)
    ensures k < |rows| && |rows[k]| < 3 && WellFormed(rows[..k])
    ensures forall j :: 0 <= j < k ==> |rows[j]| >= 3
  {
    if |rows[0]| < 3 then 0
    else
      var k := 1 + FirstShort(rows[1..]);
      assert rows[..k] == rows[..1] + rows[1..][..k - 1];
      k
  }

  /** The classrooms left in the session when the row at `FirstShort`
      raises. */
  function AbandonedAt(rows: seq<seq<string>>): seq<Group>
    requires !WellFormed(rows)
  {
    var k := FirstShort(rows);
    Abandon(Grouped(rows[..k]), rows[k])
  }

  /** The pupils' names, classroom after classroom. */
  function PupilNames(gs: seq<Group>): seq<string>
  {
    if gs == [] then [] else PupilNames(gs[..|gs| - 1]) + gs[|gs| - 1].pupils
  }

  /** The third field of every row, in file order. */
  function PupilColumn(rows: seq<seq<string>>): (r: seq<string>)
    requires WellFormed(rows)
    ensures |r| == |rows|
  {
    seq(|rows|, i requires 0 <= i < |rows| => rows[i][2])
  }

  /** The name and year of each classroom, in order. */
  function Heads(gs: seq<Group>): seq<(string, Option<string>)>
  {
    seq(|gs|, i requires 0 <= i < |gs| => (gs[i].name, gs[i].year))
  }

  /** An independent account of where classrooms start: at the first row,
      and at every row whose name differs from the row just before it, with
      the name and year of that row. */
  function RunStarts(rows: seq<seq<string>>): seq<(string, Option<string>)>
    requires WellFormed(rows)
    decreases |rows|
  {
    if rows == [] then []
    else
      var n := |rows|;
      WellFormedPrefix(rows, n - 1);
      RunStarts(rows[..n - 1])
        + (if n == 1 || rows[n - 1][0] != rows[n - 2][0] then [(rows[n - 1][0], Some(rows[n - 1][1]))] else [])
  }

  lemma WellFormedPrefix(rows: seq<seq<string>>, k: nat)
    requires WellFormed(rows) && k <= |rows|
    ensures WellFormed(rows[..k])
  {
    var pre := rows[..k];
    forall j | 0 <= j < k ensures |pre[j]| >= 3 {
      assert pre[j] == rows[j];
    }
  }

  lemma PupilNamesSnoc(gs: seq<Group>, g: Group)
    ensures PupilNames(gs + [g]) == PupilNames(gs) + g.pupils
  {
    assert (gs + [g])[..|gs|] == gs;
  }

  lemma PupilNamesGrow(gs: seq<Group>, pupil: string)
    requires gs != []
    ensures PupilNames(Grow(gs, pupil)) == PupilNames(gs) + [pupil]
  {
    var n := |gs|;
    PupilNamesSnoc(gs[..n - 1], gs[n - 1].(pupils := gs[n - 1].pupils + [pupil]));
    assert gs[..n - 1] + [gs[n - 1]] == gs;
    PupilNamesSnoc(gs[..n - 1], gs[n - 1]);
  }

  /** A complete row adds its pupil after all earlier ones. */
  lemma PupilNamesAddRow(gs: seq<Group>, row: seq<string>)
    requires |row| >= 3
    ensures PupilNames(AddRow(gs, row)) == PupilNames(gs) + [row[2]]
  {
    if StartsNew(gs, row) {
      PupilNamesSnoc(gs, Group(row[0], Some(row[1]), []));
    }
    PupilNamesGrow(Open(gs, row), row[2]);
  }

  lemma PupilColumnLast(rows: seq<seq<string>>)
    requires WellFormed(rows) && rows != []
    ensures WellFormed(rows[..|rows| - 1])
    ensures PupilColumn(rows) == PupilColumn(rows[..|rows| - 1]) + [rows[|rows| - 1][2]]
  {
    WellFormedPrefix(rows, |rows| - 1);
  }

  /** Each row adds exactly its own pupil: reading the classrooms' pupils
      one classroom after another gives back the third column of the file,
      so there are as many pupils as rows. */
  lemma {:induction false} GroupedPupils(rows: seq<seq<string>>)
    requires WellFormed(rows)
    ensures PupilNames(Grouped(rows)) == PupilColumn(rows)
    ensures |PupilNames(Grouped(rows))| == |rows|
    decreases |rows|
  {
    if rows != [] {
      var n := |rows|;
      PupilColumnLast(rows);
      GroupedPupils(rows[..n - 1]);
      PupilNamesAddRow(Grouped(rows[..n - 1]), rows[n - 1]);
    }
  }

  /** A complete row adds a classroom, named and dated after it, exactly
      when it starts a new one; either way the last classroom is named
      after it, and the other classrooms keep their names and years. */
  lemma HeadsAddRow(gs: seq<Group>, row: seq<string>)
    requires |row| >= 3
    ensures Heads(AddRow(gs, row)) == Heads(gs) + (if StartsNew(gs, row) then [(row[0], Some(row[1]))] else [])
    ensures AddRow(gs, row) != [] && AddRow(gs, row)[|AddRow(gs, row)| - 1].name == row[0]
  {
    var hs := Open(gs, row);
    HeadsGrow(hs, row[2]);
    if StartsNew(gs, row) {
      HeadsSnoc(gs, Group(row[0], Some(row[1]), []));
    }
  }

  lemma HeadsSnoc(gs: seq<Group>, g: Group)
    ensures Heads(gs + [g]) == Heads(gs) + [(g.name, g.year)]
  {
  }

  /** Adding a pupil changes no name or year. */
  lemma HeadsGrow(gs: seq<Group>, pupil: string)
    requires gs != []
    ensures Heads(Grow(gs, pupil)) == Heads(gs)
    ensures Grow(gs, pupil)[|gs| - 1].name == gs[|gs| - 1].name
  {
    var r := Grow(gs, pupil);
    assert |r| == |gs|;
    forall k | 0 <= k < |gs| ensures Heads(r)[k] == Heads(gs)[k] {
      assert r[k].name == gs[k].name && r[k].year == gs[k].year;
    }
  }

  /** The classrooms' names and years are exactly the run starts: a new
      classroom begins where the name changes from the previous row, and
      its year is the one on the first row of the run. The last classroom
      is named after the last row. So rows of one class that are not next
      to each other make two classrooms. */
  lemma {:induction false} GroupedHeads(rows: seq<seq<string>>)
    requires WellFormed(rows)
    ensures Heads(Grouped(rows)) == RunStarts(rows)
    ensures rows != [] ==> Grouped(rows) != [] && Grouped(rows)[|Grouped(rows)| - 1].name == rows[|rows| - 1][0]
    decreases |rows|
  {
    if rows != [] {
      var n := |rows|;
      var row := rows[n - 1];
      WellFormedPrefix(rows, n - 1);
      var gs := Grouped(rows[..n - 1]);
      GroupedHeads(rows[..n - 1]);
      assert n > 1 ==> rows[..n - 1][n - 2] == rows[n - 2];
      assert StartsNew(gs, row) <==> n == 1 || row[0] != rows[n - 2][0];
      HeadsAddRow(gs, row);
    }
  }

  /** Neighbouring classrooms differ in name. */
  predicate NeighboursDiffer(gs: seq<Group>)
  {
    forall k :: 0 <= k < |gs| - 1 ==> gs[k].name != gs[k + 1].name
  }

  /** Every classroom has a pupil. */
  predicate NoneEmpty(gs: seq<Group>)
  {
    forall k :: 0 <= k < |gs| ==> gs[k].pupils != []
  }

  lemma AddRowKeeps(gs: seq<Group>, row: seq<string>)
    requires |row| >= 3
    ensures NeighboursDiffer(gs) ==> NeighboursDiffer(AddRow(gs, row))
    ensures NoneEmpty(gs) ==> NoneEmpty(AddRow(gs, row))
  {
    var hs := Open(gs, row);
    var r := Grow(hs, row[2]);
    assert |r| == |hs|;
    assert forall k :: 0 <= k < |r| ==> r[k].name == hs[k].name;
    assert forall k :: 0 <= k < |hs| - 1 ==> hs[k] == gs[k];
    assert r[|r| - 1].pupils != [];
  }

  /** Two neighbouring classrooms never share a name, and every classroom
      made from complete rows has a pupil. */
  lemma {:induction false} GroupedShape(rows: seq<seq<string>>)
    requires WellFormed(rows)
    ensures NeighboursDiffer(Grouped(rows)) && NoneEmpty(Grouped(rows))
    decreases |rows|
  {
    if rows != [] {
      var n := |rows|;
      WellFormedPrefix(rows, n - 1);
      GroupedShape(rows[..n - 1]);
      AddRowKeeps(Grouped(rows[..n - 1]), rows[n - 1]);
    }
  }

  /** What a `Classroom` object holds. */
  function View(c: Classroom): Group
    reads c
  {
    Group(c.name, c.year, seq(|c.pupils|, j requires 0 <= j < |c.pupils| reads c => c.pupils[j].name))
  }

  function Snapshot(cs: seq<Classroom>): (r: seq<Group>)
    reads set c | c in cs
    ensures |r| == |cs|
  {
    if cs == [] then [] else Snapshot(cs[..|cs| - 1]) + [View(cs[|cs| - 1])]
  }

  /** The last classroom, the only one `update_db` still changes, is not
      also one of the earlier ones. */
  predicate LastIsNew(cs: seq<Classroom>)
  {
    cs != [] ==> cs[|cs| - 1] !in cs[..|cs| - 1]
  }

  /** `update_db(classroom_file)` on the rows of the file: it returns whether
      every row had three fields. When they all had, the session stored the
      classrooms built from consecutive runs of rows; otherwise nothing was
      committed and the classrooms made before the failing row stay pending. */
  method UpdateDb(rows: seq<seq<string>>, session: Session) returns (ok: bool, classrooms: seq<Classroom>)
    modifies session
    ensures fresh(set c | c in classrooms)
    ensures ok <==> WellFormed(rows)
    ensures ok ==>
      && Snapshot(classrooms) == Grouped(rows)
      && session.pending == []
      && session.committed == old(session.committed) + old(session.pending) + classrooms
    ensures !ok ==>
      && Snapshot(classrooms) == AbandonedAt(rows)
      && session.pending == old(session.pending) + classrooms
      && session.committed == old(session.committed)
  {
    ok, classrooms := ReadRows(rows, session);
    if ok {
      session.Commit();
    }
  }

  /** The loop of `update_db` over the rows, up to the first row that raises. */
  method ReadRows(rows: seq<seq<string>>, session: Session) returns (ok: bool, classrooms: seq<Classroom>)
    modifies session
    ensures fresh(set c | c in classrooms)
    ensures ok <==> WellFormed(rows)
    ensures ok ==> Snapshot(classrooms) == Grouped(rows)
    ensures !ok ==> Snapshot(classrooms) == AbandonedAt(rows)
    ensures session.pending == old(session.pending) + classrooms
    ensures session.committed == old(session.committed)
  {
    var current: Classroom? := null;
    classrooms := [];
    var i := 0;
    while i < |rows|
      invariant 0 <= i <= |rows| && WellFormed(rows[..i])
      invariant fresh(set c | c in classrooms)
      invariant LastIsNew(classrooms)
      invariant Snapshot(classrooms) == Grouped(rows[..i])
      invariant current == null <==> classrooms == []
      invariant current != null ==> current == classrooms[|classrooms| - 1] && fresh(current)
      invariant session.pending == old(session.pending) + classrooms
      invariant session.committed == old(session.committed)
    {
      if |rows[i]| < 3 {
        classrooms := ShortRow(rows, i, session, classrooms, current, old(session.pending));
        return false, classrooms;
      }
      classrooms, current := FullRow(rows, i, session, classrooms, current, old(session.pending));
      i := i + 1;
    }
    assert rows[..i] == rows;
    ok := true;
  }

  lemma SnapshotSnoc(cs: seq<Classroom>, c: Classroom)
    ensures Snapshot(cs + [c]) == Snapshot(cs) + [View(c)]
  {
    assert (cs + [c])[..|cs|] == cs;
  }

  /** The row at `i`, the first with fewer than three fields, is the one
      `AbandonedAt` stops at. */
  lemma ShortRowIsFirst(rows: seq<seq<string>>, i: nat)
    requires i < |rows| && WellFormed(rows[..i]) && |rows[i]| < 3
    ensures !WellFormed(rows) && AbandonedAt(rows) == Abandon(Grouped(rows[..i]), rows[i])
  {
    assert forall j :: 0 <= j < i ==> rows[..i][j] == rows[j];
    var k := FirstShort(rows);
    assert k == i;
  }

  lemma GroupedStep(rows: seq<seq<string>>, i: nat)
    requires i < |rows| && WellFormed(rows[..i]) && |rows[i]| >= 3
    ensures WellFormed(rows[..i + 1]) && Grouped(rows[..i + 1]) == AddRow(Grouped(rows[..i]), rows[i])
  {
    var upTo := rows[..i + 1];
    forall j | 0 <= j <= i ensures |upTo[j]| >= 3 {
      if j < i { assert upTo[j] == rows[..i][j]; }
    }
    assert upTo[..i] == rows[..i];
  }

  /** `Classroom(row[0])` with `year = row[1]`, added to the session. */
  method OpenClassroom(name: string, year: string, session: Session, classrooms: seq<Classroom>,
                       ghost pending0: seq<object>)
    returns (c: Classroom)
    requires session.pending == pending0 + classrooms
    modifies session
    ensures fresh(c) && LastIsNew(classrooms + [c])
    ensures Snapshot(classrooms + [c]) == Snapshot(classrooms) + [Group(name, Some(year), [])]
    ensures session.pending == pending0 + (classrooms + [c]) && session.committed == old(session.committed)
  {
    c := new Classroom(name);
    c.year := Some(year);
    session.Add(c);
    assert pending0 + classrooms + [c] == pending0 + (classrooms + [c]);
    SnapshotSnoc(classrooms, c);
    assert (classrooms + [c])[..|classrooms|] == classrooms;
    assert View(c) == Group(name, Some(year), []);
  }

  /** `current_classroom.pupils.append(Pupil(name))`, where the current
      classroom is the last one made. */
  method AddPupil(classrooms: seq<Classroom>, current: Classroom, name: string)
    requires LastIsNew(classrooms) && classrooms != [] && current == classrooms[|classrooms| - 1]
    modifies current
    ensures Snapshot(classrooms) == Grow(old(Snapshot(classrooms)), name)
  {
    var n := |classrooms|;
    assert Snapshot(classrooms) == Snapshot(classrooms[..n - 1]) + [View(current)];
    ghost var names := View(current).pupils;
    var p := new Pupil(name);
    current.pupils := current.pupils + [p];
    assert current !in classrooms[..n - 1];
    assert View(current).pupils == names + [name];
    assert Snapshot(classrooms) == Snapshot(classrooms[..n - 1]) + [View(current)];
  }

  /** Row `i` of `update_db` when it has fewer than three fields: what it
      does before it raises `IndexError`. */
  method ShortRow(rows: seq<seq<string>>, i: nat, session: Session, classrooms: seq<Classroom>, current: Classroom?,
                  ghost pending0: seq<object>)
    returns (classrooms': seq<Classroom>)
    requires i < |rows| && WellFormed(rows[..i]) && |rows[i]| < 3
    requires LastIsNew(classrooms) && Snapshot(classrooms) == Grouped(rows[..i])
    requires current == null <==> classrooms == []
    requires current != null ==> current == classrooms[|classrooms| - 1]
    requires session.pending == pending0 + classrooms
    modifies session
    ensures !WellFormed(rows) && Snapshot(classrooms') == AbandonedAt(rows)
    ensures forall c :: c in classrooms' ==> c in classrooms || fresh(c)
    ensures session.pending == pending0 + classrooms'
    ensures session.committed == old(session.committed)
  {
    var row := rows[i];
    ghost var gs := Grouped(rows[..i]);
    ShortRowIsFirst(rows, i);
    classrooms' := classrooms;
    if |row| == 0 {
      return;
    }
    if current != null {
      assert gs[|gs| - 1] == View(current);
    }
    // `Classroom(row[0])` is built before `row[1]` is read; one built for a
    // row that then raises is never added, so it is not made here.
    if (current == null || row[0] != current.name) && |row| == 2 {
      var c := OpenClassroom(row[0], row[1], session, classrooms, pending0);
      classrooms' := classrooms + [c];
    }
  }

  /** The first half of a complete row of `update_db`: starting a new
      classroom when the row's name differs from the current one's. */
  method OpenFor(row: seq<string>, gs: seq<Group>, session: Session, classrooms: seq<Classroom>, current: Classroom?,
                 ghost pending0: seq<object>)
    returns (classrooms': seq<Classroom>, current': Classroom)
    requires |row| >= 2
    requires LastIsNew(classrooms) && Snapshot(classrooms) == gs
    requires current == null <==> classrooms == []
    requires current != null ==> current == classrooms[|classrooms| - 1]
    requires session.pending == pending0 + classrooms
    modifies session
    ensures Snapshot(classrooms') == Open(gs, row)
    ensures LastIsNew(classrooms') && current' == classrooms'[|classrooms'| - 1]
    ensures current' == current || fresh(current')
    ensures forall c :: c in classrooms' ==> c in classrooms || fresh(c)
    ensures session.pending == pending0 + classrooms'
    ensures session.committed == old(session.committed)
  {
    if current != null {
      assert gs[|gs| - 1] == View(current);
    }
    if current == null || row[0] != current.name {
      var c := OpenClassroom(row[0], row[1], session, classrooms, pending0);
      classrooms', current' := classrooms + [c], c;
    } else {
      classrooms', current' := classrooms, current;
    }
  }

  /** Row `i` of `update_db` when it has a name, a year and a pupil. */
  method FullRow(rows: seq<seq<string>>, i: nat, session: Session, classrooms: seq<Classroom>, current: Classroom?,
                 ghost pending0: seq<object>)
    returns (classrooms': seq<Classroom>, current': Classroom)
    requires i < |rows| && WellFormed(rows[..i]) && |rows[i]| >= 3
    requires LastIsNew(classrooms) && Snapshot(classrooms) == Grouped(rows[..i])
    requires current == null <==> classrooms == []
    requires current != null ==> current == classrooms[|classrooms| - 1]
    requires session.pending == pending0 + classrooms
    modifies session, current
    ensures WellFormed(rows[..i + 1]) && Snapshot(classrooms') == Grouped(rows[..i + 1])
    ensures LastIsNew(classrooms') && current' == classrooms'[|classrooms'| - 1]
    ensures current' == current || fresh(current')
    ensures forall c :: c in classrooms' ==> c in classrooms || fresh(c)
    ensures session.pending == pending0 + classrooms'
    ensures session.committed == old(session.committed)
  {
    classrooms', current' := OpenFor(rows[i], Grouped(rows[..i]), session, classrooms, current, pending0);
    AddPupil(classrooms', current', rows[i][2]);
    GroupedStep(rows, i);
  }
}
