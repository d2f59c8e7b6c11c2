/*
 * The daily attendance report: `daily-report/<date>/` parses the date with
 * strptime's `%Y-%m-%d`, then splits the people, in name order, into those
 * with an attendance record on that date (with their arrival time) and
 * those without.
 */
module Report {
  import opened Optional

  /** A date of the proleptic Gregorian calendar, as Python's `datetime.date`. */
  datatype Date = Date(year: int, month: int, day: int)

  predicate IsLeap(y: int) {
    y % 4 == 0 && (y % 100 != 0 || y % 400 == 0)
  }

  function DaysInMonth(y: int, m: int): int
    requires 1 <= m <= 12
  {
    if m == 2 then (if IsLeap(y) then 29 else 28)
    else if m == 4 || m == 6 || m == 9 || m == 11 then 30
    else 31
  }

  /** The dates `datetime.date` accepts: years 1 to 9999, a real day of the month. */
  predicate ValidDate(d: Date) {
    1 <= d.year <= 9999 && 1 <= d.month <= 12 && 1 <= d.day <= DaysInMonth(d.year, d.month)
  }

  predicate IsDigit(c: char) { '0' <= c <= '9' }

  predicate IsNonZeroDigit(c: char) { '1' <= c <= '9' }

  predicate AllDigits(s: string) {
    forall i :: 0 <= i < |s| ==> IsDigit(s[i])
  }

  /** The decimal value of a digit string, most significant digit first. */
  function Value(s: string): nat
    requires AllDigits(s)
  {
    if s == [] then 0 else 10 * Value(s[..|s| - 1]) + (s[|s| - 1] as int - '0' as int)
  }

  function Pow10(n: nat): nat {
    if n == 0 then 1 else 10 * Pow10(n - 1)
  }

  function Digit(n: int): char
    requires 0 <= n <= 9
  {
    ('0' as int + n) as char
  }

  /** `n` printed with exactly `width` digits, zero-padded on the left (`%02d`, `%04d`). */
  function Padded(n: nat, width: nat): string {
    if width == 0 then [] else Padded(n / 10, width - 1) + [Digit(n % 10)]
  }

  /** Printing then reading back a number that fits the width gives the number. */
  lemma {:induction false} PaddedValue(n: nat, width: nat)
    requires n < Pow10(width)
    ensures |Padded(n, width)| == width
    ensures AllDigits(Padded(n, width))
    ensures Value(Padded(n, width)) == n
  {
    if width > 0 {
      PaddedValue(n / 10, width - 1);
      var s := Padded(n, width);
      assert s[..|s| - 1] == Padded(n / 10, width - 1);
    }
  }

  /** Reading a digit string, then printing it at its own width, gives the string back. */
  lemma {:induction false} ValuePadded(s: string)
    requires AllDigits(s)
    ensures Padded(Value(s), |s|) == s
  {
    if s != [] {
      var init := s[..|s| - 1];
      ValuePadded(init);
      var d := s[|s| - 1] as int - '0' as int;
      assert (10 * Value(init) + d) / 10 == Value(init);
      assert (10 * Value(init) + d) % 10 == d;
      assert s == init + [s[|s| - 1]];
    }
  }

  /**
   * How many characters the `%m` group `(1[0-2]|0[1-9]|[1-9])` takes when it
   * must be followed by the `-` of the format, 0 when it cannot match.
   */
  function MonthWidth(t: string): (w: nat)
    ensures w <= 2 && (w > 0 ==> |t| > w && t[w] == '-' && AllDigits(t[..w]))
  {
    if |t| >= 3 && ((t[0] == '1' && '0' <= t[1] <= '2') || (t[0] == '0' && IsNonZeroDigit(t[1]))) && t[2] == '-' then 2
    else if |t| >= 2 && IsNonZeroDigit(t[0]) && t[1] == '-' then 1
    else 0
  }

  /**
   * How many characters the `%d` group `(3[01]|[12]\d|0[1-9]|[1-9]| [1-9])`
   * takes: it is the last group, so the first alternative that matches wins.
   */
  function DayWidth(u: string): (w: nat)
    ensures w <= 2 && w <= |u|
  {
    if |u| >= 2 && u[0] == '3' && (u[1] == '0' || u[1] == '1') then 2
    else if |u| >= 2 && (u[0] == '1' || u[0] == '2') && IsDigit(u[1]) then 2
    else if |u| >= 2 && u[0] == '0' && IsNonZeroDigit(u[1]) then 2
    else if |u| >= 1 && IsNonZeroDigit(u[0]) then 1
    else if |u| >= 2 && u[0] == ' ' && IsNonZeroDigit(u[1]) then 2
    else 0
  }

  /** The day's digits, after the blank the last alternative allows (`int(" 5") == 5`). */
  function DayValue(u: string): int
    requires 0 < DayWidth(u) == |u|
  {
    if u[0] == ' ' then Value(u[1..]) else Value(u)
  }

  /**
   * `datetime.strptime(s, '%Y-%m-%d').date()`: four digits, `-`, the month,
   * `-`, the day, nothing after it ("unconverted data remains" otherwise),
   * and a date the calendar has. None stands for the ValueError.
   */
  function ParseDate(s: string): (r: Option<Date>)
    ensures r.Some? ==> ValidDate(r.value)
  {
    if |s| < 5 || !AllDigits(s[..4]) || s[4] != '-' then None
    else
      var t := s[5..];
      var mw := MonthWidth(t);
      if mw == 0 then None
      else
        var u := t[mw + 1..];
        if DayWidth(u) == 0 || DayWidth(u) != |u| then None
        else
          var d := Date(Value(s[..4]), Value(t[..mw]), DayValue(u));
          if ValidDate(d) then Some(d) else None
  }

  /** `%Y-%m-%d` output of a date, the form the report's links use. */
  function FormatDate(d: Date): string
    requires ValidDate(d)
  {
    Padded(d.year, 4) + "-" + Padded(d.month, 2) + "-" + Padded(d.day, 2)
  }

  /** Two digits of a number below 100. */
  lemma TwoDigits(n: nat)
    requires n < 100
    ensures Padded(n, 2) == [Digit(n / 10), Digit(n % 10)]
  {
    var hi := n / 10;
    assert hi / 10 == 0 && hi % 10 == hi;
    assert Padded(hi, 1) == Padded(hi / 10, 0) + [Digit(hi % 10)] == [Digit(hi)];
    assert Padded(n, 2) == Padded(hi, 1) + [Digit(n % 10)];
  }

  /** A two-digit month followed by the separator takes the two-character alternatives. */
  lemma MonthFieldWidth(m: int, rest: string)
    requires 1 <= m <= 12
    ensures MonthWidth(Padded(m, 2) + "-" + rest) == 2
  {
    TwoDigits(m);
    assert (m / 10 == 1 && m % 10 <= 2) || (m / 10 == 0 && 1 <= m % 10);
  }

  /** A two-digit day takes one of the two-character alternatives, without a blank. */
  lemma DayFieldWidth(day: int)
    requires 1 <= day <= 31
    ensures DayWidth(Padded(day, 2)) == 2 && Padded(day, 2)[0] != ' '
  {
    TwoDigits(day);
    assert (day / 10 == 3 && day % 10 <= 1) || (1 <= day / 10 <= 2) || (day / 10 == 0 && 1 <= day % 10);
  }

  /** Every calendar date, written canonically, is accepted and read back unchanged. */
  lemma ParseFormat(d: Date)
    requires ValidDate(d)
    ensures ParseDate(FormatDate(d)) == Some(d)
  {
    var y, m, dd := Padded(d.year, 4), Padded(d.month, 2), Padded(d.day, 2);
    PaddedValue(d.year, 4);
    PaddedValue(d.month, 2);
    PaddedValue(d.day, 2);
    var s := FormatDate(d);
    assert s[..4] == y;
    var t := s[5..];
    assert t == m + "-" + dd;
    MonthFieldWidth(d.month, dd);
    assert t[..2] == m;
    assert t[3..] == dd;
    DayFieldWidth(d.day);
  }

  /**
   * A ten-character string that parses is the canonical form of its date,
   * except that the day's leading zero may be a blank.
   */
  lemma CanonicalForm(s: string)
    requires |s| == 10 && ParseDate(s).Some?
    ensures var f := FormatDate(ParseDate(s).value);
            s == f || (s[8] == ' ' && s[..8] + "0" + s[9..] == f)
  {
    var d := ParseDate(s).value;
    var t := s[5..];
    assert MonthWidth(t) == 2;
    var u := t[3..];
    ValuePadded(s[..4]);
    ValuePadded(t[..2]);
    assert s == s[..4] + "-" + t[..2] + "-" + u;
    if u[0] == ' ' {
      var z := "0" + u[1..];
      ValuePadded(z);
      assert z[..1] == "0" && z[1..] == u[1..];
      assert Value(z) == Value(u[1..]) by { ValueDropsLeadingZero(z); }
      assert s[..8] + "0" + s[9..] == s[..4] + "-" + t[..2] + "-" + z;
    } else {
      ValuePadded(u);
    }
  }

  lemma ValueDropsLeadingZero(z: string)
    requires |z| == 2 && AllDigits(z) && z[0] == '0'
    ensures Value(z) == Value(z[1..])
  {
    assert z[..1][..0] == [];
    assert z[1..][..0] == [];
  }

  /** The value of a digit string of one, two or four digits, digit by digit. */
  lemma ValueDigits(s: string)
    requires AllDigits(s)
    ensures |s| == 1 ==> Value(s) == s[0] as int - '0' as int
    ensures |s| == 2 ==> Value(s) == 10 * (s[0] as int - '0' as int) + (s[1] as int - '0' as int)
    ensures |s| == 4 ==> Value(s) == 1000 * (s[0] as int - '0' as int) + 100 * (s[1] as int - '0' as int)
                                     + 10 * (s[2] as int - '0' as int) + (s[3] as int - '0' as int)
  {
    if |s| == 1 {
      assert s[..0] == [];
    } else if |s| == 2 {
      assert s[..1][..0] == [];
    } else if |s| == 4 {
      assert s[..3][..2][..1][..0] == [];
    }
  }

  /** A one-digit month and day are accepted. */
  lemma ShortFieldsAccepted()
    ensures ParseDate("2024-2-9") == Some(Date(2024, 2, 9))
  {
    var s := "2024-2-9";
    ValueDigits(s[..4]);
    ValueDigits(s[5..][..1]);
    ValueDigits(s[5..][2..]);
  }

  /** A blank may stand for the day's leading zero. */
  lemma BlankDayAccepted()
    ensures ParseDate("2024-01- 5") == Some(Date(2024, 1, 5))
  {
    var s := "2024-01- 5";
    ValueDigits(s[..4]);
    ValueDigits(s[5..][..2]);
    ValueDigits(s[5..][3..][1..]);
  }

  /** A day the month does not have is refused. */
  lemma NoLeapDayRefused()
    ensures ParseDate("2023-02-29") == None
  {
    var s := "2023-02-29";
    ValueDigits(s[..4]);
    ValueDigits(s[5..][..2]);
    ValueDigits(s[5..][3..]);
  }

  /** Text left over after the day is refused. */
  lemma TrailingDigitRefused()
    ensures ParseDate("2024-01-123") == None
  {
    var s := "2024-01-123";
    assert s[5..][3..] == "123";
  }

  /** A `TimeField` value. */
  datatype Clock = Clock(hour: int, minute: int, second: int)

  predicate ValidClock(c: Clock) {
    0 <= c.hour < 24 && 0 <= c.minute < 60 && 0 <= c.second < 60
  }

  /** `time_in.strftime('%H:%M:%S')`. */
  function FormatClock(c: Clock): string
    requires ValidClock(c)
  {
    Padded(c.hour, 2) + ":" + Padded(c.minute, 2) + ":" + Padded(c.second, 2)
  }

  /** The arrival time is eight characters whose fields read back as the time. */
  lemma ClockFields(c: Clock)
    requires ValidClock(c)
    ensures var s := FormatClock(c);
            && |s| == 8 && s[2] == ':' && s[5] == ':'
            && AllDigits(s[..2]) && AllDigits(s[3..5]) && AllDigits(s[6..])
            && Value(s[..2]) == c.hour && Value(s[3..5]) == c.minute && Value(s[6..]) == c.second
  {
    PaddedValue(c.hour, 2);
    PaddedValue(c.minute, 2);
    PaddedValue(c.second, 2);
    var s := FormatClock(c);
    assert s[..2] == Padded(c.hour, 2);
    assert s[3..5] == Padded(c.minute, 2);
    assert s[6..] == Padded(c.second, 2);
  }

  datatype Department = Department(name: string)

  datatype Person = Person(id: int, name: string, className: string, department: Option<Department>)

  /** An `Attendance` row: one per person and date, as the table's uniqueness demands. */
  datatype Attendance = Attendance(personId: int, date: Date, timeIn: Clock)

  /** `Attendance.objects.filter(date=...)`, in the queryset's order. */
  function OnDate(records: seq<Attendance>, d: Date): (r: seq<Attendance>)
    ensures forall a :: a in r <==> a in records && a.date == d
  {
    if records == [] then []
    else (if records[0].date == d then [records[0]] else []) + OnDate(records[1..], d)
  }

  /** `set(... values_list('person_id'))`. */
  function PresentIds(records: seq<Attendance>): set<int> {
    if records == [] then {} else PresentIds(records[..|records| - 1]) + {records[|records| - 1].personId}
  }

  /** `{a.person_id: a.time_in for a in records}`: a later record for the same person wins. */
  function TimesOn(records: seq<Attendance>): map<int, Clock> {
    if records == [] then map[]
    else TimesOn(records[..|records| - 1])[records[|records| - 1].personId := records[|records| - 1].timeIn]
  }

  /** The time map has an entry exactly for the present ids, taken from that person's last record. */
  lemma {:induction false} TimesOnPresent(records: seq<Attendance>)
    ensures TimesOn(records).Keys == PresentIds(records)
    ensures forall id :: id in TimesOn(records) ==>
              exists i :: 0 <= i < |records| && records[i].personId == id && TimesOn(records)[id] == records[i].timeIn
                          && forall j :: i < j < |records| ==> records[j].personId != id
  {
    if records != [] {
      var init := records[..|records| - 1];
      TimesOnPresent(init);
      var last := records[|records| - 1];
      forall id | id in TimesOn(records)
        ensures exists i :: 0 <= i < |records| && records[i].personId == id && TimesOn(records)[id] == records[i].timeIn
                            && forall j :: i < j < |records| ==> records[j].personId != id
      {
        if id == last.personId {
          assert records[|records| - 1].personId == id;
        } else {
          var i :| 0 <= i < |init| && init[i].personId == id && TimesOn(init)[id] == init[i].timeIn
                   && forall j :: i < j < |init| ==> init[j].personId != id;
          assert records[i] == init[i];
          assert forall j :: i < j < |records| ==> records[j].personId != id by {
            forall j | i < j < |records| ensures records[j].personId != id {
              if j < |init| { assert records[j] == init[j]; }
            }
          }
        }
      }
    }
  }

  /** The people with a record, in the given order. */
  function PresentPeople(people: seq<Person>, ids: set<int>): (r: seq<Person>)
    ensures forall p :: p in r ==> p in people && p.id in ids
  {
    if people == [] then []
    else
      var init := PresentPeople(people[..|people| - 1], ids);
      var p := people[|people| - 1];
      if p.id in ids then init + [p] else init
  }

  /** The people without a record, in the given order. */
  function AbsentPeople(people: seq<Person>, ids: set<int>): (r: seq<Person>)
    ensures forall p :: p in r ==> p in people && p.id !in ids
  {
    if people == [] then []
    else
      var init := AbsentPeople(people[..|people| - 1], ids);
      var p := people[|people| - 1];
      if p.id !in ids then init + [p] else init
  }

  /**
   * Every person lands in exactly one list: the two lists together are the
   * people (as a multiset), the present list holds those with a record and
   * the absent list those without.
   */
  lemma {:induction false} PartitionExact(people: seq<Person>, ids: set<int>)
    ensures multiset(PresentPeople(people, ids)) + multiset(AbsentPeople(people, ids)) == multiset(people)
    ensures forall p :: p in PresentPeople(people, ids) <==> p in people && p.id in ids
    ensures forall p :: p in AbsentPeople(people, ids) <==> p in people && p.id !in ids
  {
    if people != [] {
      var init := people[..|people| - 1];
      PartitionExact(init, ids);
      assert people == init + [people[|people| - 1]];
    }
  }

  /** `order_by('name')`: names never decrease, compared character by character. */
  predicate NameLe(a: string, b: string) {
    |a| == 0 || (|b| > 0 && (a[0] < b[0] || (a[0] == b[0] && NameLe(a[1..], b[1..]))))
  }

  predicate SortedByName(ps: seq<Person>) {
    forall i, j :: 0 <= i < j < |ps| ==> NameLe(ps[i].name, ps[j].name)
  }

  /** Both lists keep the name order of the people query. */
  lemma {:induction false} PartitionKeepsOrder(people: seq<Person>, ids: set<int>)
    requires SortedByName(people)
    ensures SortedByName(PresentPeople(people, ids))
    ensures SortedByName(AbsentPeople(people, ids))
  {
    if people != [] {
      var init := people[..|people| - 1];
      var last := people[|people| - 1];
      assert SortedByName(init);
      PartitionKeepsOrder(init, ids);
      PartitionExact(init, ids);
      forall p | p in init ensures NameLe(p.name, last.name) {
        var k :| 0 <= k < |init| && init[k] == p;
        assert people[k] == p;
      }
      if last.id in ids {
        SortedSnoc(PresentPeople(init, ids), last);
      } else {
        SortedSnoc(AbsentPeople(init, ids), last);
      }
    }
  }

  /** A sorted list stays sorted when a name no smaller than all of its own is appended. */
  lemma SortedSnoc(ps: seq<Person>, q: Person)
    requires SortedByName(ps)
    requires forall p :: p in ps ==> NameLe(p.name, q.name)
    ensures SortedByName(ps + [q])
  {
    forall i, j | 0 <= i < j < |ps| + 1 ensures NameLe((ps + [q])[i].name, (ps + [q])[j].name) {
      if j == |ps| {
        assert ps[i] in ps;
      }
    }
  }

  /** A row of the `present` list. */
  datatype PresentRow = PresentRow(name: string, className: string, department: Option<string>, timeIn: string)

  /** A row of the `absent` list. */
  datatype AbsentRow = AbsentRow(name: string, className: string, department: Option<string>)

  /** The department as the JSON can carry it: its name, or null. */
  function DepartmentName(d: Option<Department>): Option<string> {
    if d.Some? then Some(d.value.name) else None
  }

  predicate TimesValid(times: map<int, Clock>) {
    forall id :: id in times ==> ValidClock(times[id])
  }

  function PresentRows(ps: seq<Person>, times: map<int, Clock>): seq<PresentRow>
    requires TimesValid(times) && forall p :: p in ps ==> p.id in times
  {
    if ps == [] then []
    else
      var p := ps[|ps| - 1];
      PresentRows(ps[..|ps| - 1], times) + [PresentRow(p.name, p.className, DepartmentName(p.department), FormatClock(times[p.id]))]
  }

  function AbsentRows(ps: seq<Person>): seq<AbsentRow> {
    if ps == [] then []
    else
      var p := ps[|ps| - 1];
      AbsentRows(ps[..|ps| - 1]) + [AbsentRow(p.name, p.className, DepartmentName(p.department))]
  }

  /** The JSON body: the date string as given and the two lists, or the 400 error. */
  datatype Response = InvalidDate | DayReport(date: string, present: seq<PresentRow>, absent: seq<AbsentRow>) | ServerError

  /** Every stored arrival time is a real time of day. */
  predicate RecordsValid(records: seq<Attendance>) {
    forall a :: a in records ==> ValidClock(a.timeIn)
  }

  lemma {:induction false} TimesOnValid(records: seq<Attendance>)
    requires RecordsValid(records)
    ensures TimesValid(TimesOn(records))
  {
    if records != [] {
      TimesOnValid(records[..|records| - 1]);
    }
  }

  /** What the report answers, with the department given by name. */
  function Expected(dateStr: string, people: seq<Person>, attendance: seq<Attendance>): (r: Response)
    requires RecordsValid(attendance)
    ensures r == InvalidDate <==> ParseDate(dateStr).None?
    ensures r != ServerError
  {
    var d := ParseDate(dateStr);
    if d.None? then InvalidDate
    else
      var records := OnDate(attendance, d.value);
      var ids := PresentIds(records);
      var times := TimesOn(records);
      TimesOnValid(records);
      TimesOnPresent(records);
      DayReport(dateStr, PresentRows(PresentPeople(people, ids), times), AbsentRows(AbsentPeople(people, ids)))
  }

  /**
   * The view as written: the rows carry the `Department` object itself, which
   * the JSON encoder cannot serialise, so a listed person with a department
   * turns the answer into a server error.
   */
  function ExpectedAsWritten(dateStr: string, people: seq<Person>, attendance: seq<Attendance>): (r: Response)
    requires RecordsValid(attendance)
    ensures r == InvalidDate <==> ParseDate(dateStr).None?
    ensures r != ServerError ==> r == Expected(dateStr, people, attendance)
  {
    var d := ParseDate(dateStr);
    if d.None? then InvalidDate
    else
      var ids := PresentIds(OnDate(attendance, d.value));
      var listed := PresentPeople(people, ids) + AbsentPeople(people, ids);
      if exists p :: p in listed && p.department.Some? then ServerError
      else Expected(dateStr, people, attendance)
  }

  /**
   * As written, a valid date yields a server error exactly when some person
   * has a department, where the report by name answers.
   */
  lemma DepartmentBreaksReport(dateStr: string, people: seq<Person>, attendance: seq<Attendance>)
    requires RecordsValid(attendance) && ParseDate(dateStr).Some?
    ensures ExpectedAsWritten(dateStr, people, attendance) == ServerError
            <==> exists p :: p in people && p.department.Some?
    ensures Expected(dateStr, people, attendance).DayReport?
  {
    var ids := PresentIds(OnDate(attendance, ParseDate(dateStr).value));
    PartitionExact(people, ids);
    var listed := PresentPeople(people, ids) + AbsentPeople(people, ids);
    assert forall p :: p in listed <==> p in people;
  }

  /** One person in a department is enough. */
  lemma DepartmentExample()
    ensures ExpectedAsWritten(FormatDate(Date(2024, 5, 6)), [Person(1, "Ana", "S1", Some(Department("Science")))], [])
            == ServerError
  {
    ParseFormat(Date(2024, 5, 6));
    DepartmentBreaksReport(FormatDate(Date(2024, 5, 6)), [Person(1, "Ana", "S1", Some(Department("Science")))], []);
    assert Person(1, "Ana", "S1", Some(Department("Science"))) in [Person(1, "Ana", "S1", Some(Department("Science")))];
  }

  /**
   * With the department given by name, every date that parses gets a report
   * and the rest get the 400 answer; the report echoes the date string.
   */
  lemma ReportAnswersEveryDate(dateStr: string, people: seq<Person>, attendance: seq<Attendance>)
    requires RecordsValid(attendance)
    ensures var r := Expected(dateStr, people, attendance);
            && (r.InvalidDate? <==> ParseDate(dateStr).None?)
            && (r.DayReport? <==> ParseDate(dateStr).Some?)
            && (r.DayReport? ==> (r.date == dateStr && |r.present| + |r.absent| == |people|))
  {
    var d := ParseDate(dateStr);
    if d.Some? {
      var records := OnDate(attendance, d.value);
      var ids := PresentIds(records);
      TimesOnValid(records);
      TimesOnPresent(records);
      PartitionExact(people, ids);
      RowsLength(PresentPeople(people, ids), TimesOn(records));
      AbsentRowsLength(AbsentPeople(people, ids));
      assert |multiset(PresentPeople(people, ids))| + |multiset(AbsentPeople(people, ids))| == |multiset(people)|;
    }
  }

  lemma {:induction false} RowsLength(ps: seq<Person>, times: map<int, Clock>)
    requires TimesValid(times) && forall p :: p in ps ==> p.id in times
    ensures |PresentRows(ps, times)| == |ps|
  {
    if ps != [] {
      RowsLength(ps[..|ps| - 1], times);
    }
  }

  lemma {:induction false} AbsentRowsLength(ps: seq<Person>)
    ensures |AbsentRows(ps)| == |ps|
  {
    if ps != [] {
      AbsentRowsLength(ps[..|ps| - 1]);
    }
  }

  /** Adding one more person to the query adds one row, to the list the person belongs in. */
  lemma RowsStep(people: seq<Person>, i: nat, ids: set<int>, times: map<int, Clock>)
    requires i < |people| && ids <= times.Keys && TimesValid(times)
    ensures var p := people[i];
            && PresentRows(PresentPeople(people[..i + 1], ids), times)
               == PresentRows(PresentPeople(people[..i], ids), times)
                  + (if p.id in ids then [PresentRow(p.name, p.className, DepartmentName(p.department), FormatClock(times[p.id]))] else [])
            && AbsentRows(AbsentPeople(people[..i + 1], ids))
               == AbsentRows(AbsentPeople(people[..i], ids))
                  + (if p.id in ids then [] else [AbsentRow(p.name, p.className, DepartmentName(p.department))])
  {
    assert people[..i + 1][..i] == people[..i];
  }

  /** The categorising loop over the people, filling both lists by appending. */
  method Categorize(people: seq<Person>, ids: set<int>, times: map<int, Clock>)
    returns (present: seq<PresentRow>, absent: seq<AbsentRow>)
    requires ids <= times.Keys && TimesValid(times)
    ensures present == PresentRows(PresentPeople(people, ids), times)
    ensures absent == AbsentRows(AbsentPeople(people, ids))
  {
    present, absent := [], [];
    var i := 0;
    while i < |people|
      invariant 0 <= i <= |people|
      invariant present == PresentRows(PresentPeople(people[..i], ids), times)
      invariant absent == AbsentRows(AbsentPeople(people[..i], ids))
    {
      var p := people[i];
      RowsStep(people, i, ids, times);
      if p.id in ids {
        present := present + [PresentRow(p.name, p.className, DepartmentName(p.department), FormatClock(times[p.id]))];
      } else {
        absent := absent + [AbsentRow(p.name, p.className, DepartmentName(p.department))];
      }
      i := i + 1;
    }
    assert people[..i] == people;
  }

  /** daily_report_view, with the department given by name. */
  method DailyReport(dateStr: string, people: seq<Person>, attendance: seq<Attendance>) returns (r: Response)
    requires RecordsValid(attendance)
    ensures r == Expected(dateStr, people, attendance)
  {
    var d := ParseDate(dateStr);
    if d.None? {
      return InvalidDate;
    }
    var records := OnDate(attendance, d.value);
    var ids := PresentIds(records);
    var times := TimesOn(records);
    TimesOnValid(records);
    TimesOnPresent(records);
    var present, absent := Categorize(people, ids, times);
    r := DayReport(dateStr, present, absent);
  }
}
