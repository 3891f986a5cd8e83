/**
  The study planner of CREATE.java: adding a study session from the
  form's text fields, the random start hour, sorting the schedule, and
  the "Randomize" button. Dates are day numbers counted from 1970-01-01
  (as LocalDate.toEpochDay counts them); the Swing form is not modelled,
  its fields arrive as strings and its random draws as parameters.
 */
module StudyPlanner {
  import opened Wrappers
  import opened JavaText

  datatype Weekday = Monday | Tuesday | Wednesday | Thursday | Friday | Saturday | Sunday

  /** The day of the week of a day number; day 0, 1970-01-01, was a Thursday, and the days repeat every seven. */
  function WeekdayOf(day: int): Weekday {
    var k := (day + 3) % 7;
    if k == 0 then Monday else if k == 1 then Tuesday else if k == 2 then Wednesday
    else if k == 3 then Thursday else if k == 4 then Friday else if k == 5 then Saturday else Sunday
  }

  predicate IsWeekend(day: int) {
    WeekdayOf(day) == Saturday || WeekdayOf(day) == Sunday
  }

  datatype Session = Session(subject: string, priority: int, time: int, date: int, startTime: int)

  // ---- validateTime ------------------------------------------------------------------

  /** The bound of the `rand.nextInt` draw validateTime makes on that day. */
  function StartDrawBound(date: int): nat {
    if IsWeekend(date) then 7 else 6
  }

  /** validateTime: an hour from 1 to 7 at weekends, from 3 to 8 on weekdays. */
  function ValidateTime(date: int, draw: int): (hour: int)
    requires 0 <= draw < StartDrawBound(date)
    ensures IsWeekend(date) ==> 1 <= hour <= 7
    ensures !IsWeekend(date) ==> 3 <= hour <= 8
  {
    if IsWeekend(date) then draw + 1 else draw + 3
  }

  /** Every hour of the day's range is the answer to exactly one draw. */
  lemma ValidateTimeCovers(date: int, hour: int)
    requires if IsWeekend(date) then 1 <= hour <= 7 else 3 <= hour <= 8
    ensures exists draw :: 0 <= draw < StartDrawBound(date) && ValidateTime(date, draw) == hour
    ensures forall d1, d2 ::
      (0 <= d1 < StartDrawBound(date) && 0 <= d2 < StartDrawBound(date) &&
       ValidateTime(date, d1) == hour && ValidateTime(date, d2) == hour) ==> d1 == d2
  {
    var draw := if IsWeekend(date) then hour - 1 else hour - 3;
    assert ValidateTime(date, draw) == hour;
  }

  // ---- addStudySession ---------------------------------------------------------------

  /** The schedule's sessions and the lines of its list model (one per session, formatted). */
  datatype Planner = Planner(sessions: seq<Session>, shown: seq<Session>)

  datatype AddError = EmptySubject | BadTime | BadStartTime

  /** Every session has a priority of the combo box and a start hour validateTime can give. */
  predicate SessionOk(s: Session) {
    1 <= s.priority <= 5 && 1 <= s.startTime <= 8
  }

  predicate PlannerOk(pl: Planner) {
    forall i :: 0 <= i < |pl.sessions| ==> SessionOk(pl.sessions[i])
  }

  /**
    What addStudySession reads from the form: the subject and time are
    trimmed; an empty subject or a time Integer.parseInt rejects shows an
    error dialog and yields no session. The `startTime == -1` check is kept.
   */
  function ReadForm(subjectText: string, timeText: string, priority: int, date: int, draw: int): (r: Result<Session, AddError>)
    requires 0 <= draw < StartDrawBound(date)
    ensures r.Err? ==> r.error != BadStartTime
    ensures r == Err(EmptySubject) <==> forall k :: 0 <= k < |subjectText| ==> IsBlank(subjectText[k])
    ensures r == Err(BadTime) <==> |Trim(subjectText)| > 0 && ParseInt(Trim(timeText)).None?
    ensures r.Ok? ==>
      r.value.subject == Trim(subjectText) && |r.value.subject| > 0 && ParseInt(Trim(timeText)) == Some(r.value.time) &&
      r.value.priority == priority && r.value.date == date &&
      (if IsWeekend(date) then 1 <= r.value.startTime <= 7 else 3 <= r.value.startTime <= 8)
  {
    var subject := Trim(subjectText);
    if |subject| == 0 then Err(EmptySubject)
    else
      match ParseInt(Trim(timeText))
      case None => Err(BadTime)
      case Some(time) =>
        var startTime := ValidateTime(date, draw);
        if startTime == -1 then Err(BadStartTime)
        else Ok(Session(subject, priority, time, date, startTime))
  }

  /**
    addStudySession: the session read from the form is appended to
    `sessions` and its line to the list model; nothing is added when the
    form is refused.
   */
  function AddSession(pl: Planner, subjectText: string, timeText: string, priority: int, date: int, draw: int): (r: Result<Planner, AddError>)
    requires 0 <= draw < StartDrawBound(date)
    ensures r.Err? ==> r.error != BadStartTime
    ensures r == Err(EmptySubject) <==> forall k :: 0 <= k < |subjectText| ==> IsBlank(subjectText[k])
    ensures r == Err(BadTime) <==> |Trim(subjectText)| > 0 && ParseInt(Trim(timeText)).None?
    ensures r.Ok? ==>
      |r.value.sessions| == |pl.sessions| + 1 && r.value.sessions[..|pl.sessions|] == pl.sessions &&
      r.value.shown == pl.shown + [r.value.sessions[|pl.sessions|]]
    ensures r.Ok? ==>
      var s := r.value.sessions[|pl.sessions|];
      s.subject == Trim(subjectText) && |s.subject| > 0 && ParseInt(Trim(timeText)) == Some(s.time) &&
      s.priority == priority && s.date == date &&
      (if IsWeekend(date) then 1 <= s.startTime <= 7 else 3 <= s.startTime <= 8)
  {
    match ReadForm(subjectText, timeText, priority, date, draw)
    case Err(e) => Err(e)
    case Ok(s) =>
      assert (pl.sessions + [s])[..|pl.sessions|] == pl.sessions;
      Ok(Planner(pl.sessions + [s], pl.shown + [s]))
  }

  /** Adding a session with a priority from the combo box keeps every session well formed. */
  lemma AddSessionKeepsOk(pl: Planner, subjectText: string, timeText: string, priority: int, date: int, draw: int)
    requires PlannerOk(pl) && 1 <= priority <= 5 && 0 <= draw < StartDrawBound(date)
    ensures var r := AddSession(pl, subjectText, timeText, priority, date, draw);
      r.Ok? ==> PlannerOk(r.value)
  {
    var r := AddSession(pl, subjectText, timeText, priority, date, draw);
    if r.Ok? {
      forall i | 0 <= i < |r.value.sessions| ensures SessionOk(r.value.sessions[i]) {
        if i < |pl.sessions| {
          assert r.value.sessions[i] == r.value.sessions[..|pl.sessions|][i];
        }
      }
    }
  }

  // ---- generateSchedule -----------------------------------------------------------------

  /**
    The comparator of generateSchedule: higher priority first, then the
    earlier date, then the earlier start hour; `a` may stand before `b`.
   */
  predicate Precedes(a: Session, b: Session) {
    a.priority > b.priority ||
    (a.priority == b.priority && (a.date < b.date || (a.date == b.date && a.startTime <= b.startTime)))
  }

  /** The comparator is a total preorder: any two sessions are ordered one way or the other, transitively. */
  lemma PrecedesTotalPreorder(a: Session, b: Session, c: Session)
    ensures Precedes(a, b) || Precedes(b, a)
    ensures Precedes(a, b) && Precedes(b, c) ==> Precedes(a, c)
  {
  }

  predicate Sorted(s: seq<Session>) {
    forall i, j :: 0 <= i < j < |s| ==> Precedes(s[i], s[j])
  }

  /** Every session of `s` may precede `y`. */
  predicate AllPrecede(s: seq<Session>, y: Session) {
    forall i :: 0 <= i < |s| ==> Precedes(s[i], y)
  }

  /** A rearrangement of `init` with `x` added still precedes `y` when they all did. */
  lemma AllPrecedeRearranged(front: seq<Session>, init: seq<Session>, x: Session, y: Session)
    requires multiset(front) == multiset(init) + multiset{x}
    requires AllPrecede(init, y) && Precedes(x, y)
    ensures AllPrecede(front, y)
  {
    forall i | 0 <= i < |front| ensures Precedes(front[i], y) {
      assert front[i] in multiset(front);
      if front[i] != x {
        assert front[i] in multiset(init);
        var j :| 0 <= j < |init| && init[j] == front[i];
      }
    }
  }

  /** A sorted list followed by a session all of it may precede is sorted. */
  lemma SortedSnoc(s: seq<Session>, y: Session)
    requires Sorted(s) && AllPrecede(s, y)
    ensures Sorted(s + [y])
  {
  }

  /** Insert `x` into a sorted list behind every session that may precede it (keeps equal keys in order). */
  function Insert(x: Session, s: seq<Session>): (r: seq<Session>)
    requires Sorted(s)
    ensures Sorted(r) && multiset(r) == multiset(s) + multiset{x}
    ensures |r| == |s| + 1
    decreases |s|
  {
    if |s| == 0 then [x]
    else
      var init, last := s[..|s| - 1], s[|s| - 1];
      assert s == init + [last];
      if Precedes(last, x) then
        assert AllPrecede(s, x) by {
          forall i | 0 <= i < |s| ensures Precedes(s[i], x) {
            PrecedesTotalPreorder(s[i], last, x);
          }
        }
        SortedSnoc(s, x);
        s + [x]
      else
        var front := Insert(x, init);
        PrecedesTotalPreorder(x, last, x);
        AllPrecedeRearranged(front, init, x, last);
        SortedSnoc(front, last);
        front + [last]
  }

  /** Neither session of the pair goes first: priority, date and start hour are all equal. */
  predicate SameKey(a: Session, b: Session) {
    a.priority == b.priority && a.date == b.date && a.startTime == b.startTime
  }

  /** The sessions of `s` with the same key as `k`, in their order in `s`. */
  function Tied(s: seq<Session>, k: Session): seq<Session>
    decreases |s|
  {
    if |s| == 0 then []
    else Tied(s[..|s| - 1], k) + (if SameKey(s[|s| - 1], k) then [s[|s| - 1]] else [])
  }

  /**
    Inserting `x` puts it behind every session with its key, so each group
    of tied sessions keeps its order and `x` joins its own group at the end.
   */
  lemma {:induction false} InsertTied(x: Session, s: seq<Session>, k: Session)
    requires Sorted(s)
    ensures Tied(Insert(x, s), k) == Tied(s, k) + (if SameKey(x, k) then [x] else [])
    decreases |s|
  {
    if |s| > 0 {
      var init, last := s[..|s| - 1], s[|s| - 1];
      if Precedes(last, x) {
        assert Insert(x, s) == s + [x];
        assert (s + [x])[..|s|] == s;
      } else {
        var front := Insert(x, init);
        assert Insert(x, s) == front + [last];
        InsertTied(x, init, k);
        assert (front + [last])[..|front|] == front;
        assert Tied(s, k) == Tied(init, k) + (if SameKey(last, k) then [last] else []);
        assert !(SameKey(x, k) && SameKey(last, k));
      }
    }
  }

  /**
    `List.sort` with that comparator, written as insertion sort. The sort is
    stable: sessions with equal keys keep the order they were added in.
   */
  function Sort(s: seq<Session>): (r: seq<Session>)
    ensures Sorted(r) && multiset(r) == multiset(s)
    ensures forall k :: Tied(r, k) == Tied(s, k)
    decreases |s|
  {
    if |s| == 0 then []
    else
      var init, last := s[..|s| - 1], s[|s| - 1];
      assert s == init + [last];
      var sorted := Sort(init);
      assert forall k :: Tied(Insert(last, sorted), k) == Tied(s, k) by {
        forall k ensures Tied(Insert(last, sorted), k) == Tied(s, k) {
          InsertTied(last, sorted, k);
        }
      }
      Insert(last, sorted)
  }

  /** A sorted list whose tie groups are those of `s` is the sort of `s`: stability fixes the schedule. */
  lemma {:induction false} SortUnique(s: seq<Session>, t: seq<Session>)
    requires Sorted(t) && forall k :: Tied(t, k) == Tied(s, k)
    ensures t == Sort(s)
  {
    SortedAlike(t, Sort(s));
  }

  /** Only sessions of `s` are in a tie group of `s`. */
  lemma {:induction false} TiedIn(s: seq<Session>, k: Session, x: Session)
    requires x in Tied(s, k)
    ensures x in s && SameKey(x, k)
    decreases |s|
  {
    var init := s[..|s| - 1];
    if x in Tied(init, k) {
      TiedIn(init, k, x);
      assert s == init + [s[|s| - 1]];
    }
  }

  /** The last session of a list is in its own tie group. */
  lemma TiedLast(s: seq<Session>)
    ensures 0 < |s| ==> Tied(s, s[|s| - 1]) != []
    ensures forall k :: Tied([], k) == []
  {
  }

  /** In a sorted list every session may precede the last one. */
  lemma PrecedesLast(t: seq<Session>, z: Session)
    requires Sorted(t) && z in t
    ensures Precedes(z, t[|t| - 1])
  {
    var i :| 0 <= i < |t| && t[i] == z;
    if i < |t| - 1 {
      assert Precedes(t[i], t[|t| - 1]);
    }
  }

  /** Two sorted lists with the same tie groups end in the same session. */
  lemma SameLast(t: seq<Session>, u: seq<Session>)
    requires Sorted(t) && Sorted(u) && 0 < |t| && 0 < |u|
    requires Tied(t, t[|t| - 1]) == Tied(u, t[|t| - 1]) && Tied(t, u[|u| - 1]) == Tied(u, u[|u| - 1])
    ensures t[|t| - 1] == u[|u| - 1]
  {
    var x, y := t[|t| - 1], u[|u| - 1];
    var t', u' := t[..|t| - 1], u[..|u| - 1];
    assert Tied(t, x) == Tied(t', x) + [x];
    assert Tied(u, y) == Tied(u', y) + [y];
    TiedIn(t, y, y);
    TiedIn(u, x, x);
    PrecedesLast(t, y);
    PrecedesLast(u, x);
    assert SameKey(y, x);
    assert Tied(u, x) == Tied(u', x) + [y];
    assert Tied(t, x)[|Tied(t, x)| - 1] == x;
  }

  /** Dropping the same last session from both lists keeps their tie groups equal. */
  lemma DropLastTied(t: seq<Session>, u: seq<Session>, x: Session)
    requires forall k :: Tied(t + [x], k) == Tied(u + [x], k)
    ensures forall k :: Tied(t, k) == Tied(u, k)
  {
    forall k
      ensures Tied(t, k) == Tied(u, k)
    {
      assert (t + [x])[..|t|] == t && (u + [x])[..|u|] == u;
      var tail := if SameKey(x, k) then [x] else [];
      assert Tied(t + [x], k) == Tied(t, k) + tail;
      assert Tied(u + [x], k) == Tied(u, k) + tail;
      assert (Tied(t, k) + tail)[..|Tied(t, k)|] == Tied(t, k);
      assert (Tied(u, k) + tail)[..|Tied(u, k)|] == Tied(u, k);
    }
  }

  /** Two sorted lists with the same tie groups are the same list. */
  lemma {:induction false} SortedAlike(t: seq<Session>, u: seq<Session>)
    requires Sorted(t) && Sorted(u) && forall k :: Tied(t, k) == Tied(u, k)
    ensures t == u
    decreases |t| + |u|
  {
    TiedLast(t);
    TiedLast(u);
    if |t| == 0 || |u| == 0 {
      return;
    }
    SameLast(t, u);
    var x := t[|t| - 1];
    var t', u' := t[..|t| - 1], u[..|u| - 1];
    assert t == t' + [x] && u == u' + [x];
    DropLastTied(t', u', x);
    SortedAlike(t', u');
  }

  /** Sorting a schedule that is already in order leaves it as it is. */
  lemma SortIdempotent(s: seq<Session>)
    requires Sorted(s)
    ensures Sort(s) == s
  {
    SortUnique(s, s);
  }

  /** Sorting twice is sorting once. */
  lemma SortTwice(s: seq<Session>)
    ensures Sort(Sort(s)) == Sort(s)
  {
    SortIdempotent(Sort(s));
  }

  /**
    generateSchedule: the sessions are sorted in place and the list model
    is refilled with one line per session, in the new order.
   */
  function GenerateSchedule(pl: Planner): (r: Planner)
    ensures Sorted(r.sessions) && multiset(r.sessions) == multiset(pl.sessions)
    ensures forall k :: Tied(r.sessions, k) == Tied(pl.sessions, k)
    ensures |r.sessions| == |pl.sessions| && r.shown == r.sessions
    ensures PlannerOk(pl) ==> PlannerOk(r)
  {
    var sorted := Sort(pl.sessions);
    assert |sorted| == |multiset(sorted)| == |multiset(pl.sessions)| == |pl.sessions|;
    assert PlannerOk(pl) ==> PlannerOk(Planner(sorted, sorted)) by {
      if PlannerOk(pl) {
        forall i | 0 <= i < |sorted| ensures SessionOk(sorted[i]) {
          assert sorted[i] in multiset(pl.sessions);
        }
      }
    }
    Planner(sorted, sorted)
  }

  /**
    After a session is added, "Generate Schedule" lists it together with
    every earlier session, each exactly as often as before.
   */
  lemma ScheduleKeepsAddedSession(pl: Planner, subjectText: string, timeText: string, priority: int, date: int, draw: int)
    requires 0 <= draw < StartDrawBound(date)
    requires AddSession(pl, subjectText, timeText, priority, date, draw).Ok?
    ensures var r := AddSession(pl, subjectText, timeText, priority, date, draw).value;
      multiset(GenerateSchedule(r).shown) == multiset(pl.sessions) + multiset{r.sessions[|pl.sessions|]}
  {
    var r := AddSession(pl, subjectText, timeText, priority, date, draw).value;
    assert r.sessions == r.sessions[..|pl.sessions|] + [r.sessions[|pl.sessions|]];
  }

  // ---- randomizeInputs ------------------------------------------------------------------

  const Subjects: seq<string> := ["Math", "Science", "History", "English", "Computer Science"]

  /** What randomizeInputs writes into the form: subject text, time text, priority index and date. */
  datatype FormInputs = FormInputs(subjectText: string, timeText: string, priorityIndex: int, date: int)

  /** randomizeInputs, given its four draws and today's day number. */
  function RandomizeInputs(today: int, subjectDraw: int, timeDraw: int, priorityDraw: int, dayDraw: int): (r: FormInputs)
    requires 0 <= subjectDraw < 5 && 0 <= timeDraw < 4 && 0 <= priorityDraw < 5 && 0 <= dayDraw < 7
    ensures r.subjectText in Subjects
    ensures ParseInt(r.timeText).Some? &&
      var t := ParseInt(r.timeText).value; t % 15 == 0 && 15 <= t <= 60
    ensures 0 <= r.priorityIndex < 5 && today <= r.date < today + 7
  {
    var minutes := (timeDraw + 1) * 15;
    ParseIntToString(minutes);
    FormInputs(Subjects[subjectDraw], IntToString(minutes), priorityDraw, today + dayDraw)
  }

  /** The form as randomizeInputs fills it is always accepted by addStudySession. */
  lemma RandomizedInputsAccepted(pl: Planner, today: int, subjectDraw: int, timeDraw: int, priorityDraw: int, dayDraw: int, draw: int)
    requires 0 <= subjectDraw < 5 && 0 <= timeDraw < 4 && 0 <= priorityDraw < 5 && 0 <= dayDraw < 7
    requires 0 <= draw < StartDrawBound(today + dayDraw)
    ensures var form := RandomizeInputs(today, subjectDraw, timeDraw, priorityDraw, dayDraw);
      AddSession(pl, form.subjectText, form.timeText, form.priorityIndex + 1, form.date, draw).Ok?
  {
    var form := RandomizeInputs(today, subjectDraw, timeDraw, priorityDraw, dayDraw);
    SubjectUntrimmed(subjectDraw);
    assert form.timeText == IntToString((timeDraw + 1) * 15);
    DigitsUntrimmed(form.timeText);
    FilledFormAccepted(pl, form.subjectText, form.timeText, form.priorityIndex + 1, form.date, draw);
  }

  /** Every subject of the combo box survives `trim` unchanged. */
  lemma SubjectUntrimmed(i: int)
    requires 0 <= i < |Subjects|
    ensures |Subjects[i]| > 0 && Trim(Subjects[i]) == Subjects[i]
  {
    var t := Subjects[i];
    assert !IsBlank(t[0]) && !IsBlank(t[|t| - 1]);
  }

  /** A non-empty run of digits survives `trim` unchanged. */
  lemma DigitsUntrimmed(t: string)
    requires 0 < |t| && AllDigits(t)
    ensures Trim(t) == t
  {
    assert IsDigit(t[0]) && IsDigit(t[|t| - 1]);
  }

  /** A non-blank subject and a time Integer.parseInt accepts are all addStudySession needs. */
  lemma FilledFormAccepted(pl: Planner, subjectText: string, timeText: string, priority: int, date: int, draw: int)
    requires 0 <= draw < StartDrawBound(date)
    requires |Trim(subjectText)| > 0 && ParseInt(Trim(timeText)).Some?
    ensures ReadForm(subjectText, timeText, priority, date, draw).Ok?
    ensures AddSession(pl, subjectText, timeText, priority, date, draw).Ok?
  {
  }
}
