/** The search for older recordings of src/recorder/media_query.cpp: a walk back over the date and
    hour folders. */
module OlderFiles {
  import opened Common

  /** A regular file. `name` is the place of its path in string order. */
  datatype File = File(time: int, name: int, extension: string)

  /** A folder inside a date folder; `dated` says that its name is two or eight digits. */
  datatype Hour = Hour(dated: bool, files: seq<File>)

  /** The folders inside a date folder, by the place of their names in string order. */
  type Day = map<int, Hour>

  /** The date folders, by the numbers of their days. */
  type Tree = map<int, Day>

  datatype Position = Position(date: int, hour: int)

  // ----- Dates -----

  datatype Date = Date(year: nat, month: nat, day: nat)

  predicate IsLeap(year: nat) { year % 4 == 0 && (year % 100 != 0 || year % 400 == 0) }

  function MonthLength(year: nat, month: nat): (n: nat)
    ensures n > 0
  {
    if month in {4, 6, 9, 11} then 30 else if month != 2 then 31 else if IsLeap(year) then 29 else 28
  }

  predicate IsDate(d: Date) { 1 <= d.month <= 12 && 1 <= d.day <= MonthLength(d.year, d.month) }

  function DaysBeforeMonth(year: nat, month: nat): nat {
    if month <= 1 then 0 else DaysBeforeMonth(year, month - 1) + MonthLength(year, month - 1)
  }

  function DaysBeforeYear(year: nat): nat {
    if year == 0 then 0 else DaysBeforeYear(year - 1) + DaysBeforeMonth(year - 1, 13)
  }

  /** How many days of the calendar come before this one. */
  function DayNumber(d: Date): nat
    requires IsDate(d)
  {
    DaysBeforeYear(d.year) + DaysBeforeMonth(d.year, d.month) + d.day - 1
  }

  /** One day less, brought back into range. */
  function GetPreviousDate(d: Date): (p: Date)
    requires IsDate(d) && d.year > 0
    ensures IsDate(p)
  {
    if d.day > 1 then d.(day := d.day - 1)
    else if d.month > 1 then Date(d.year, d.month - 1, MonthLength(d.year, d.month - 1))
    else Date(d.year - 1, 12, 31)
  }

  /** The previous date is the day before, across months and years. */
  lemma PreviousIsTheDayBefore(d: Date)
    requires IsDate(d) && d.year > 0
    ensures DayNumber(GetPreviousDate(d)) == DayNumber(d) - 1
  {
    if d.day == 1 && d.month == 1 {
      assert DaysBeforeMonth(d.year - 1, 13) == DaysBeforeMonth(d.year - 1, 12) + 31;
    }
  }

  /** The order of names written as yyyyMMdd. */
  predicate NamedBefore(a: Date, b: Date) {
    a.year < b.year || (a.year == b.year && (a.month < b.month || (a.month == b.month && a.day < b.day)))
  }

  /** The order of the names is the order of the days, so that date folders may be numbered. */
  lemma NamesFollowDays(a: Date, b: Date)
    requires IsDate(a) && IsDate(b)
    ensures NamedBefore(a, b) <==> DayNumber(a) < DayNumber(b)
  {
    if NamedBefore(a, b) { LaterNameLaterDay(a, b); }
    if NamedBefore(b, a) { LaterNameLaterDay(b, a); }
  }

  lemma MonthEnd(d: Date)
    requires IsDate(d)
    ensures DaysBeforeMonth(d.year, d.month) + d.day <= DaysBeforeMonth(d.year, d.month + 1)
  {}

  lemma YearEnd(d: Date)
    requires IsDate(d)
    ensures DayNumber(d) < DaysBeforeYear(d.year + 1)
  {
    MonthEnd(d);
    MonthsAddUp(d.year, d.month + 1, 13);
  }

  lemma LaterNameLaterDay(a: Date, b: Date)
    requires IsDate(a) && IsDate(b) && NamedBefore(a, b)
    ensures DayNumber(a) < DayNumber(b)
  {
    if a.year < b.year {
      YearEnd(a);
      YearsAddUp(a.year + 1, b.year);
    } else if a.month < b.month {
      MonthEnd(a);
      MonthsAddUp(a.year, a.month + 1, b.month);
    }
  }

  lemma {:induction false} MonthsAddUp(year: nat, from: nat, to: nat)
    requires from <= to
    ensures DaysBeforeMonth(year, from) <= DaysBeforeMonth(year, to)
  {
    if from < to { MonthsAddUp(year, from, to - 1); }
  }

  lemma {:induction false} YearsAddUp(from: nat, to: nat)
    requires from <= to
    ensures DaysBeforeYear(from) <= DaysBeforeYear(to)
  {
    if from < to { YearsAddUp(from, to - 1); }
  }

  // ----- The folders that are walked -----

  ghost function Greatest(names: set<int>): (m: Option<int>)
    ensures m.None? <==> names == {}
    ensures m.Some? ==> m.value in names && forall x <- names :: x <= m.value
  {
    if names == {} then None else
      GreatestExists(names);
      var m :| m in names && forall x <- names :: x <= m;
      Some(m)
  }

  lemma {:induction false} GreatestExists(names: set<int>)
    requires names != {}
    ensures exists m :: m in names && forall x <- names :: x <= m
    decreases |names|
  {
    if forall x :: x !in names { assert false; }
    var x :| x in names;
    var rest := names - {x};
    if rest == {} {
      assert forall y <- names :: y == x || y in rest;
    } else {
      GreatestExists(rest);
      var m :| m in rest && forall y <- rest :: y <= m;
      var best := if x > m then x else m;
      assert best in names;
      forall y | y in names ensures y <= best {
        assert y == x || y in rest;
      }
    }
  }

  /** A running maximum. */
  lemma GreatestOfOneMore(names: set<int>, x: int)
    ensures Greatest(names + {x})
         == if Greatest(names).None? || x > Greatest(names).value then Some(x) else Greatest(names)
  {
    var m := Greatest(names + {x}).value;
    assert m == x || m in names;
    assert x in names + {x} && forall y <- names :: y in names + {x};
  }

  function Earlier(day: Day, hour: int): set<int> { set h | h in day && h < hour }

  function Dated(day: Day): set<int> { set h | h in day && day[h].dated }

  /** Where the walk goes next: to the folder before this one on the same date, or to the last dated
      folder of the day before. */
  ghost function Next(tree: Tree, p: Position): Option<Position> {
    var earlier := if p.date in tree then Greatest(Earlier(tree[p.date], p.hour)) else None;
    var latest := if p.date - 1 in tree then Greatest(Dated(tree[p.date - 1])) else None;
    if earlier.Some? then Some(Position(p.date, earlier.value))
    else if latest.Some? then Some(Position(p.date - 1, latest.value))
    else None
  }

  function DatesBefore(tree: Tree, date: int): set<int> { set d | d in tree && d < date }

  function HoursBefore(tree: Tree, p: Position): set<int> {
    if p.date in tree then Earlier(tree[p.date], p.hour) else {}
  }

  lemma NextDescends(tree: Tree, p: Position)
    requires Next(tree, p).Some?
    ensures var q := Next(tree, p).value;
      || |DatesBefore(tree, q.date)| < |DatesBefore(tree, p.date)|
      || (q.date == p.date && |HoursBefore(tree, q)| < |HoursBefore(tree, p)|)
  {
    var q := Next(tree, p).value;
    if q.date == p.date {
      Smaller(HoursBefore(tree, q), HoursBefore(tree, p), q.hour);
    } else {
      Smaller(DatesBefore(tree, q.date), DatesBefore(tree, p.date), q.date);
    }
  }

  lemma Smaller(a: set<int>, b: set<int>, x: int)
    requires a <= b && x in b && x !in a
    ensures |a| < |b|
  {
    CardinalityOfSubset(a, b - {x});
  }

  lemma {:induction false} CardinalityOfSubset(a: set<int>, b: set<int>)
    requires a <= b
    ensures |a| <= |b|
    decreases |a|
  {
    if a != {} {
      if forall x :: x !in a { assert false; }
      var x :| x in a;
      CardinalityOfSubset(a - {x}, b - {x});
    }
  }

  /** All folders that the search looks into, in this order. */
  ghost function Walk(tree: Tree, p: Position): seq<Position>
    decreases |DatesBefore(tree, p.date)|, |HoursBefore(tree, p)|
  {
    if Next(tree, p).None? then [p] else
      NextDescends(tree, p);
      [p] + Walk(tree, Next(tree, p).value)
  }

  predicate After(p: Position, q: Position) { p.date > q.date || (p.date == q.date && p.hour > q.hour) }

  /** The walk strictly descends, so that it looks into no folder twice. */
  lemma {:induction false} WalkDescends(tree: Tree, p: Position, i: nat, j: nat)
    requires i < j < |Walk(tree, p)|
    ensures After(Walk(tree, p)[i], Walk(tree, p)[j])
    decreases |DatesBefore(tree, p.date)|, |HoursBefore(tree, p)|
  {
    NextDescends(tree, p);
    var q := Next(tree, p).value;
    if i > 0 {
      WalkDescends(tree, q, i - 1, j - 1);
    } else if j > 1 {
      WalkDescends(tree, q, 0, j - 1);
    }
  }

  /** Which folders are reached from `p`: those of its own date up to it; and those of an earlier
      date up to its last dated folder, if each day since then has a dated folder. */
  ghost predicate Reached(tree: Tree, p: Position, q: Position) {
    || q == p
    || (q.date == p.date && q.date in tree && q.hour in Earlier(tree[q.date], p.hour))
    || (q.date < p.date && Unbroken(tree, q.date, p.date)
        && q.hour in tree[q.date] && exists h <- Dated(tree[q.date]) :: q.hour <= h)
  }

  ghost predicate Unbroken(tree: Tree, from: int, to: int) {
    forall d :: from <= d < to ==> d in tree && Dated(tree[d]) != {}
  }

  lemma {:induction false} WalkReaches(tree: Tree, p: Position, q: Position)
    ensures q in Walk(tree, p) <==> Reached(tree, p, q)
    decreases |DatesBefore(tree, p.date)|, |HoursBefore(tree, p)|
  {
    if Next(tree, p).None? {
      StopReaches(tree, p, q);
    } else {
      NextDescends(tree, p);
      var n := Next(tree, p).value;
      WalkReaches(tree, n, q);
      if n.date == p.date { HourStepReaches(tree, p, q); } else { DateStepReaches(tree, p, q); }
    }
  }

  lemma StopReaches(tree: Tree, p: Position, q: Position)
    requires Next(tree, p).None?
    ensures Reached(tree, p, q) <==> q == p
  {
    assert p.date - 1 in tree ==> Dated(tree[p.date - 1]) == {};
  }

  lemma HourStepReaches(tree: Tree, p: Position, q: Position)
    requires Next(tree, p).Some? && Next(tree, p).value.date == p.date
    ensures Reached(tree, p, q) <==> q == p || Reached(tree, Next(tree, p).value, q)
  {}

  lemma DateStepReaches(tree: Tree, p: Position, q: Position)
    requires Next(tree, p).Some? && Next(tree, p).value.date != p.date
    ensures Reached(tree, p, q) <==> q == p || Reached(tree, Next(tree, p).value, q)
  {
    var n := Next(tree, p).value;
    assert n.date == p.date - 1 && n.hour in Dated(tree[n.date]);
    if q.date < n.date {
      assert Unbroken(tree, q.date, p.date) <==> Unbroken(tree, q.date, n.date);
    } else if q.date == n.date {
      assert Unbroken(tree, q.date, p.date);
    }
  }

  // ----- The files of one folder -----

  /** The order of std::greater on pairs of time and path. */
  predicate Precedes(a: File, b: File) { a.time > b.time || (a.time == b.time && a.name >= b.name) }

  function Insert(f: File, files: seq<File>): seq<File> {
    if files == [] || Precedes(f, files[0]) then [f] + files else [files[0]] + Insert(f, files[1..])
  }

  function Sorted(files: seq<File>): seq<File> {
    if files == [] then [] else Insert(files[0], Sorted(files[1..]))
  }

  ghost predicate InOrder(files: seq<File>) {
    forall i, j :: 0 <= i < j < |files| ==> Precedes(files[i], files[j])
  }

  ghost predicate NewestFirst(files: seq<File>) {
    forall i, j :: 0 <= i < j < |files| ==> files[i].time >= files[j].time
  }

  lemma AppendNewestFirst(a: seq<File>, b: seq<File>)
    requires (a != [] ==> NewestFirst(a)) && NewestFirst(b)
    requires forall i, j :: 0 <= i < |a| && 0 <= j < |b| ==> a[i].time >= b[j].time
    ensures NewestFirst(a + b)
  {}

  lemma {:induction false} InsertBag(f: File, files: seq<File>)
    ensures multiset(Insert(f, files)) == multiset(files) + multiset{f}
  {
    if files != [] {
      assert files == [files[0]] + files[1..];
      if !Precedes(f, files[0]) { InsertBag(f, files[1..]); }
    }
  }

  lemma {:induction false} InsertOrder(f: File, files: seq<File>)
    requires InOrder(files)
    ensures InOrder(Insert(f, files))
  {
    if files != [] {
      if Precedes(f, files[0]) {
        forall i | 0 <= i < |files| ensures Precedes(f, files[i]) {
          assert i > 0 ==> Precedes(files[0], files[i]);
        }
      } else {
        var rest := Insert(f, files[1..]);
        InsertOrder(f, files[1..]);
        InsertBag(f, files[1..]);
        forall i | 0 <= i < |rest| ensures Precedes(files[0], rest[i]) {
          assert rest[i] in multiset(rest);
          assert rest[i] == f || rest[i] in files[1..];
        }
        PutFirst(files[0], rest);
      }
    }
  }

  lemma PutFirst(f: File, files: seq<File>)
    requires InOrder(files) && forall i :: 0 <= i < |files| ==> Precedes(f, files[i])
    ensures InOrder([f] + files)
  {}

  lemma {:induction false} SortedFacts(files: seq<File>)
    ensures InOrder(Sorted(files)) && multiset(Sorted(files)) == multiset(files)
  {
    if files != [] {
      SortedFacts(files[1..]);
      InsertBag(files[0], Sorted(files[1..]));
      InsertOrder(files[0], Sorted(files[1..]));
      assert files == [files[0]] + files[1..];
    }
  }

  function WithExtension(files: seq<File>, extension: string): seq<File> {
    if files == [] then [] else
      WithExtension(files[..|files| - 1], extension) +
      if files[|files| - 1].extension == extension then [files[|files| - 1]] else []
  }

  function OlderOf(files: seq<File>, time: int): seq<File> {
    if files == [] then [] else
      OlderOf(files[..|files| - 1], time) + if files[|files| - 1].time < time then [files[|files| - 1]] else []
  }

  lemma {:induction false} WithExtensionFacts(files: seq<File>, extension: string, f: File)
    ensures f in WithExtension(files, extension) <==> f in files && f.extension == extension
  {
    if files != [] {
      WithExtensionFacts(files[..|files| - 1], extension, f);
      assert files == files[..|files| - 1] + [files[|files| - 1]];
    }
  }

  lemma {:induction false} OlderOfFacts(files: seq<File>, time: int)
    ensures forall f :: f in OlderOf(files, time) <==> f in files && f.time < time
    ensures InOrder(files) ==> InOrder(OlderOf(files, time))
  {
    if files != [] {
      OlderOfFacts(files[..|files| - 1], time);
      assert files == files[..|files| - 1] + [files[|files| - 1]];
    }
  }

  lemma {:induction false} OlderOfPrefix(files: seq<File>, k: nat, time: int)
    requires k <= |files|
    ensures OlderOf(files[..k], time) <= OlderOf(files, time)
  {
    if k < |files| {
      OlderOfPrefix(files[..|files| - 1], k, time);
      assert files[..|files| - 1][..k] == files[..k];
    } else {
      assert files[..k] == files;
    }
  }

  /** One more file of a listing. */
  lemma OlderOfNext(files: seq<File>, i: nat, time: int)
    requires i < |files|
    ensures OlderOf(files[..i + 1], time)
         == OlderOf(files[..i], time) + (if files[i].time < time then [files[i]] else [])
    ensures OlderOf(files[..i + 1], time) <= OlderOf(files, time)
  {
    assert files[..i + 1][..i] == files[..i];
    OlderOfPrefix(files, i + 1, time);
  }

  /** The recordings of one listing that are older than `time`, the newest first. */
  function Candidates(files: seq<File>, extension: string, time: int): seq<File> {
    OlderOf(Sorted(WithExtension(files, extension)), time)
  }

  lemma CandidatesFacts(files: seq<File>, extension: string, time: int, f: File)
    ensures f in Candidates(files, extension, time) <==> f in files && f.extension == extension && f.time < time
    ensures InOrder(Candidates(files, extension, time))
  {
    var matching := WithExtension(files, extension);
    WithExtensionFacts(files, extension, f);
    SortedFacts(matching);
    assert f in Sorted(matching) <==> f in multiset(Sorted(matching));
    OlderOfFacts(Sorted(matching), time);
  }

  // ----- The whole list -----

  function FilesAt(tree: Tree, p: Position): seq<File> {
    if p.date in tree && p.hour in tree[p.date] then tree[p.date][p.hour].files else []
  }

  function Collect(tree: Tree, walk: seq<Position>, extension: string, time: int): seq<File> {
    if walk == [] then []
    else Candidates(FilesAt(tree, walk[0]), extension, time) + Collect(tree, walk[1..], extension, time)
  }

  /** All older recordings the search could find, in the order in which it would find them. */
  ghost function AllOlder(tree: Tree, p: Position, extension: string, time: int): seq<File> {
    Collect(tree, Walk(tree, p), extension, time)
  }

  /** The recording is in one of these folders. */
  predicate Listed(tree: Tree, walk: seq<Position>, f: File) {
    walk != [] && (f in FilesAt(tree, walk[0]) || Listed(tree, walk[1..], f))
  }

  lemma {:induction false} ListedIff(tree: Tree, walk: seq<Position>, f: File)
    ensures Listed(tree, walk, f) <==> exists q :: q in walk && f in FilesAt(tree, q)
  {
    if walk != [] {
      ListedIff(tree, walk[1..], f);
      assert walk == [walk[0]] + walk[1..];
      if f in FilesAt(tree, walk[0]) { assert walk[0] in walk; }
    }
  }

  lemma {:induction false} CollectLists(tree: Tree, walk: seq<Position>, extension: string, time: int, f: File)
    ensures f in Collect(tree, walk, extension, time)
       <==> f.extension == extension && f.time < time && Listed(tree, walk, f)
  {
    if walk != [] {
      CollectLists(tree, walk[1..], extension, time, f);
      CandidatesFacts(FilesAt(tree, walk[0]), extension, time, f);
    }
  }

  lemma CollectFinds(tree: Tree, walk: seq<Position>, extension: string, time: int, f: File)
    ensures f in Collect(tree, walk, extension, time) <==>
      f.extension == extension && f.time < time && exists q :: q in walk && f in FilesAt(tree, q)
  {
    CollectLists(tree, walk, extension, time, f);
    ListedIff(tree, walk, f);
  }

  /** A recording is found, sooner or later, exactly if it is older and in a folder that is reached. */
  lemma FoundIff(tree: Tree, p: Position, extension: string, time: int, f: File)
    ensures f in AllOlder(tree, p, extension, time) <==>
      f.extension == extension && f.time < time && exists q :: Reached(tree, p, q) && f in FilesAt(tree, q)
  {
    CollectFinds(tree, Walk(tree, p), extension, time, f);
    forall q ensures q in Walk(tree, p) <==> Reached(tree, p, q) {
      WalkReaches(tree, p, q);
    }
  }

  /** Recordings in a later folder are no older than those in an earlier one. */
  ghost predicate FoldersAgreeWithTimes(tree: Tree) {
    forall p, q, f, g :: After(p, q) && f in FilesAt(tree, p) && g in FilesAt(tree, q) ==> f.time >= g.time
  }

  lemma {:induction false} CollectNewestFirst(tree: Tree, walk: seq<Position>, extension: string, time: int)
    requires FoldersAgreeWithTimes(tree)
    requires forall i, j :: 0 <= i < j < |walk| ==> After(walk[i], walk[j])
    ensures NewestFirst(Collect(tree, walk, extension, time))
  {
    if walk != [] {
      var here, rest := Candidates(FilesAt(tree, walk[0]), extension, time), Collect(tree, walk[1..], extension, time);
      CollectNewestFirst(tree, walk[1..], extension, time);
      forall i, j | 0 <= i < |here| && 0 <= j < |rest| ensures here[i].time >= rest[j].time {
        CandidatesFacts(FilesAt(tree, walk[0]), extension, time, here[i]);
        CollectFinds(tree, walk[1..], extension, time, rest[j]);
        var q :| q in walk[1..] && rest[j] in FilesAt(tree, q);
      }
      if here != [] { CandidatesFacts(FilesAt(tree, walk[0]), extension, time, here[0]); }
      AppendNewestFirst(here, rest);
    }
  }

  function Take(files: seq<File>, n: nat): (r: seq<File>)
    ensures |r| <= n && r <= files && (|files| > n ==> |r| == n)
  {
    if |files| <= n then files else files[..n]
  }

  /** When folders agree with write times, what is returned is the newest of what could be found,
      the newest first. */
  lemma ReturnsTheNewest(tree: Tree, p: Position, extension: string, time: int, n: nat, f: File)
    requires FoldersAgreeWithTimes(tree)
    ensures var all := AllOlder(tree, p, extension, time);
      && NewestFirst(Take(all, n))
      && (f in all && f !in Take(all, n) ==> |Take(all, n)| == n && forall g <- Take(all, n) :: g.time >= f.time)
  {
    var walk, all := Walk(tree, p), AllOlder(tree, p, extension, time);
    forall i, j | 0 <= i < j < |walk| ensures After(walk[i], walk[j]) {
      WalkDescends(tree, p, i, j);
    }
    CollectNewestFirst(tree, walk, extension, time);
  }

  // ----- Each recording once -----

  /** One more file in a listing, or not. */
  lemma CountAppend(files: seq<File>, last: File, kept: bool, f: File)
    ensures multiset(files + (if kept then [last] else []))[f]
         == multiset(files)[f] + if kept && last == f then 1 else 0
  {
    if !kept { assert files + [] == files; }
  }

  lemma CountLast(files: seq<File>, f: File)
    requires files != []
    ensures var front, last := files[..|files| - 1], files[|files| - 1];
      multiset(files)[f] == multiset(front)[f] + if last == f then 1 else 0
  {
    assert files == files[..|files| - 1] + [files[|files| - 1]];
  }

  lemma {:induction false} WithExtensionCount(files: seq<File>, extension: string, f: File)
    ensures multiset(WithExtension(files, extension))[f] == if f.extension == extension then multiset(files)[f] else 0
  {
    if files != [] {
      var front, last := files[..|files| - 1], files[|files| - 1];
      WithExtensionCount(front, extension, f);
      CountLast(files, f);
      CountAppend(WithExtension(front, extension), last, last.extension == extension, f);
    }
  }

  lemma {:induction false} OlderOfCount(files: seq<File>, time: int, f: File)
    ensures multiset(OlderOf(files, time))[f] == if f.time < time then multiset(files)[f] else 0
  {
    if files != [] {
      var front, last := files[..|files| - 1], files[|files| - 1];
      OlderOfCount(front, time, f);
      CountLast(files, f);
      CountAppend(OlderOf(front, time), last, last.time < time, f);
    }
  }

  /** A listing's candidates are its older recordings, each as often as it is listed. */
  lemma CandidatesCount(files: seq<File>, extension: string, time: int, f: File)
    ensures multiset(Candidates(files, extension, time))[f]
         == if f.extension == extension && f.time < time then multiset(files)[f] else 0
  {
    WithExtensionCount(files, extension, f);
    SortedFacts(WithExtension(files, extension));
    OlderOfCount(Sorted(WithExtension(files, extension)), time, f);
  }

  /** No recording is listed twice, in one folder or in two. */
  ghost predicate ListedOnce(tree: Tree) {
    && (forall p, f :: multiset(FilesAt(tree, p))[f] <= 1)
    && (forall p, q, f :: f in FilesAt(tree, p) && f in FilesAt(tree, q) ==> p == q)
  }

  lemma {:induction false} CollectOnce(tree: Tree, walk: seq<Position>, extension: string, time: int, f: File)
    requires ListedOnce(tree)
    requires forall i, j :: 0 <= i < j < |walk| ==> After(walk[i], walk[j])
    ensures multiset(Collect(tree, walk, extension, time))[f] <= 1
  {
    if walk != [] {
      var here, rest := Candidates(FilesAt(tree, walk[0]), extension, time), Collect(tree, walk[1..], extension, time);
      CollectOnce(tree, walk[1..], extension, time, f);
      CandidatesCount(FilesAt(tree, walk[0]), extension, time, f);
      CollectFinds(tree, walk[1..], extension, time, f);
      assert multiset(here + rest)[f] == multiset(here)[f] + multiset(rest)[f];
      if f in here {
        CandidatesFacts(FilesAt(tree, walk[0]), extension, time, f);
        assert forall q <- walk[1..] :: q != walk[0];
        assert f !in rest;
      }
      assert f !in here ==> multiset(here)[f] == 0;
      assert f !in rest ==> multiset(rest)[f] == 0;
    }
  }

  /** No recording is returned twice, if none is listed twice. */
  lemma EachReturnedOnce(tree: Tree, p: Position, extension: string, time: int, n: nat, f: File)
    requires ListedOnce(tree)
    ensures multiset(Take(AllOlder(tree, p, extension, time), n))[f] <= 1
  {
    var walk, all := Walk(tree, p), AllOlder(tree, p, extension, time);
    forall i, j | 0 <= i < j < |walk| ensures After(walk[i], walk[j]) {
      WalkDescends(tree, p, i, j);
    }
    CollectOnce(tree, walk, extension, time, f);
    TakeCount(all, n, f);
  }

  lemma TakeCount(all: seq<File>, n: nat, f: File)
    ensures multiset(Take(all, n))[f] <= multiset(all)[f]
  {
    var taken := Take(all, n);
    assert all == taken + all[|taken|..];
  }

  // ----- The search -----

  method FindLatestSubDir(day: Day) returns (latest: Option<int>)
    ensures latest == Greatest(Dated(day))
  {
    latest := None;
    var todo := day.Keys;
    ghost var seen: set<int> := {};
    while todo != {}
      invariant todo <= day.Keys && seen == Dated(day) - todo
      invariant latest == Greatest(seen)
      decreases |todo|
    {
      if forall h :: h !in todo { assert false; }
      var h :| h in todo;
      todo := todo - {h};
      if day[h].dated {
        GreatestOfOneMore(seen, h);
        seen := seen + {h};
        if latest.None? || h > latest.value {
          latest := Some(h);
        }
      }
    }
    assert seen == Dated(day);
  }

  method FindEarlierHour(day: Day, hour: int) returns (earlier: Option<int>)
    ensures earlier == Greatest(Earlier(day, hour))
  {
    earlier := None;
    var todo := day.Keys;
    ghost var seen: set<int> := {};
    while todo != {}
      invariant todo <= day.Keys && seen == Earlier(day, hour) - todo
      invariant earlier == Greatest(seen)
      decreases |todo|
    {
      if forall h :: h !in todo { assert false; }
      var h :| h in todo;
      todo := todo - {h};
      if h < hour {
        GreatestOfOneMore(seen, h);
        seen := seen + {h};
        if earlier.None? || h > earlier.value {
          earlier := Some(h);
        }
      }
    }
    assert seen == Earlier(day, hour);
  }

  /** `static_cast<size_t>(request_num)`. */
  function SizeT(requestNum: int): (n: nat)
    requires -0x8000_0000 <= requestNum < 0x8000_0000
  {
    if requestNum < 0 then requestNum + 0x1_0000_0000_0000_0000 else requestNum
  }

  lemma FullAfter(before: seq<File>, found: seq<File>, all: seq<File>, n: nat)
    requires found <= all && |before + found| == n
    ensures before + found == Take(before + all, n)
  {}

  /** A file that lies directly in the base folder. A request for no files gives all of them. */
  method FindFlat(files: seq<File>, extension: string, time: int, requestNum: int) returns (result: seq<File>)
    requires -0x8000_0000 <= requestNum < 0x8000_0000
    ensures var all := Candidates(files, extension, time);
      result == if requestNum == 0 then all else Take(all, SizeT(requestNum))
  {
    var sorted := Sorted(WithExtension(files, extension));
    result := [];
    for i := 0 to |sorted|
      invariant result == OlderOf(sorted[..i], time)
      invariant requestNum == 0 || |result| < SizeT(requestNum)
    {
      OlderOfNext(sorted, i, time);
      if sorted[i].time < time {
        result := result + [sorted[i]];
        if |result| == SizeT(requestNum) {
          return;
        }
      }
    }
    assert sorted[..|sorted|] == sorted;
  }

  /** One folder's part of the search, up to `n` results in all. */
  method AddFolder(before: seq<File>, files: seq<File>, extension: string, time: int, n: nat)
    returns (result: seq<File>)
    requires |before| < n
    ensures result == Take(before + Candidates(files, extension, time), n)
  {
    var sorted := Sorted(WithExtension(files, extension));
    result := before;
    for i := 0 to |sorted|
      invariant result == before + OlderOf(sorted[..i], time)
      invariant |result| < n
    {
      OlderOfNext(sorted, i, time);
      if sorted[i].time < time {
        result := result + [sorted[i]];
        if |result| == n {
          FullAfter(before, OlderOf(sorted[..i + 1], time), OlderOf(sorted, time), n);
          return;
        }
      }
    }
    assert sorted[..|sorted|] == sorted;
  }

  /** A file in an hour folder of a date folder. */
  method FindNested(tree: Tree, start: Position, extension: string, time: int, requestNum: int)
      returns (result: seq<File>)
    requires -0x8000_0000 <= requestNum < 0x8000_0000
    ensures result == Take(AllOlder(tree, start, extension, time), SizeT(requestNum))
  {
    var n := SizeT(requestNum);
    ghost var all := AllOlder(tree, start, extension, time);
    var p := start;
    result := [];
    while |result| < n
      invariant |result| <= n
      invariant if |result| < n then all == result + AllOlder(tree, p, extension, time) else result == Take(all, n)
      decreases n > |result|, |DatesBefore(tree, p.date)|, |HoursBefore(tree, p)|
    {
      ghost var next := Next(tree, p);
      var found := AddFolder(result, FilesAt(tree, p), extension, time, n);
      FolderThenRest(tree, p, extension, time, result, found, n);
      result := found;
      if |result| == n { return; }
      var earlier := None;
      if p.date in tree {
        earlier := FindEarlierHour(tree[p.date], p.hour);
      }
      if earlier.Some? {
        NextDescends(tree, p);
        p := Position(p.date, earlier.value);
      } else {
        if p.date - 1 !in tree { break; }
        var latest := FindLatestSubDir(tree[p.date - 1]);
        if latest.None? { break; }
        NextDescends(tree, p);
        p := Position(p.date - 1, latest.value);
      }
    }
  }

  lemma ThisFolderFirst(tree: Tree, p: Position, extension: string, time: int)
    ensures AllOlder(tree, p, extension, time) == Candidates(FilesAt(tree, p), extension, time)
      + (if Next(tree, p).None? then [] else AllOlder(tree, Next(tree, p).value, extension, time))
  {
    var walk := Walk(tree, p);
    if Next(tree, p).Some? {
      NextDescends(tree, p);
      assert walk[1..] == Walk(tree, Next(tree, p).value);
    } else {
      assert walk == [p] && walk[1..] == [];
      assert Collect(tree, walk[1..], extension, time) == [];
    }
    assert walk[0] == p;
    assert AllOlder(tree, p, extension, time)
        == Candidates(FilesAt(tree, p), extension, time) + Collect(tree, walk[1..], extension, time);
  }

  lemma FolderThenRest(tree: Tree, p: Position, extension: string, time: int, before: seq<File>,
                       found: seq<File>, n: nat)
    requires |before| < n && found == Take(before + Candidates(FilesAt(tree, p), extension, time), n)
    ensures var all := before + AllOlder(tree, p, extension, time);
      if |found| == n then found == Take(all, n)
      else all == found + (if Next(tree, p).None? then [] else AllOlder(tree, Next(tree, p).value, extension, time))
  {
    ThisFolderFirst(tree, p, extension, time);
    FoundThenRest(before, Candidates(FilesAt(tree, p), extension, time),
                  if Next(tree, p).None? then [] else AllOlder(tree, Next(tree, p).value, extension, time), found, n);
  }

  lemma FoundThenRest(before: seq<File>, here: seq<File>, rest: seq<File>, found: seq<File>, n: nat)
    requires |before| < n && found == Take(before + here, n)
    ensures var all := before + (here + rest);
      if |found| == n then found == Take(all, n) else all == found + rest
  {
    assert before + (here + rest) == before + here + rest;
    TakeOfMore(before + here, rest, n);
  }

  lemma TakeOfMore(files: seq<File>, more: seq<File>, n: nat)
    ensures |Take(files, n)| == n ==> Take(files, n) == Take(files + more, n)
    ensures |Take(files, n)| < n ==> Take(files, n) == files
  {}

  /** `file` is what the file system says of the given path, if there is such a file; `flat` is
      whether it lies directly in the base folder. */
  method FindOlderFiles(base: seq<File>, tree: Tree, file: Option<File>, flat: bool, start: Position, requestNum: int)
      returns (result: seq<File>)
    requires -0x8000_0000 <= requestNum < 0x8000_0000
    ensures file.None? ==> result == []
    ensures file.Some? && flat && requestNum == 0 ==> result == Candidates(base, file.value.extension, file.value.time)
    ensures file.Some? && flat && requestNum != 0 ==>
      result == Take(Candidates(base, file.value.extension, file.value.time), SizeT(requestNum))
    ensures file.Some? && !flat ==>
      result == Take(AllOlder(tree, start, file.value.extension, file.value.time), SizeT(requestNum))
  {
    if file.None? {
      return [];
    }
    if flat {
      result := FindFlat(base, file.value.extension, file.value.time, requestNum);
    } else {
      result := FindNested(tree, start, file.value.extension, file.value.time, requestNum);
    }
  }
}
