/**
 Months of experience: the sort-and-sweep union of month intervals and the chronology built on it
 (packages/candidate/src/domain.ts).
 */
module Chronology {
  import opened Outcome
  import opened Collections
  import opened Sorting
  import opened TextOrder

  datatype Range = Range(from: int, to: int)

  function Max(a: int, b: int): int {
    if a < b then b else a
  }

  ghost function Interval(from: int, to: int): (r: set<int>)
    ensures forall m :: m in r <==> from <= m <= to
    ensures |r| == Max(0, to - from + 1)
    decreases Max(0, to - from + 1)
  {
    if to < from then {}
    else
      var rest := Interval(from, to - 1);
      assert to !in rest && |rest + {to}| == |rest| + 1;
      rest + {to}
  }

  /** The calendar months (month index 0 and later) that some range covers. */
  ghost function Months(ranges: seq<Range>): set<int> {
    if ranges == [] then {}
    else Months(ranges[..|ranges| - 1]) + Interval(Max(0, ranges[|ranges| - 1].from), ranges[|ranges| - 1].to)
  }

  ghost predicate Covers(r: Range, m: int) {
    0 <= m && r.from <= m <= r.to
  }

  lemma {:induction false} MonthsAreTheCovered(ranges: seq<Range>)
    ensures forall m :: m in Months(ranges) <==> exists r :: r in ranges && Covers(r, m)
  {
    if ranges != [] {
      var rest, last := ranges[..|ranges| - 1], ranges[|ranges| - 1];
      MonthsAreTheCovered(rest);
      assert forall r :: r in ranges <==> r in rest || r == last by {
        assert ranges == rest + [last];
      }
      forall m
        ensures m in Months(ranges) <==> exists r :: r in ranges && Covers(r, m)
      {
        assert m in Months(ranges) <==> m in Months(rest) || Covers(last, m);
      }
    }
  }

  predicate StartsNoLater(a: Range, b: Range) {
    a.from <= b.from
  }

  /** `end` is the last month any swept range reaches, or -1. */
  ghost predicate Swept(done: seq<Range>, end: int) {
    && -1 <= end
    && (forall p :: p in done ==> p.to <= end)
    && (end == -1 || exists p :: p in done && p.to == end)
  }

  /** What one sweep step adds: exactly the months past `end`. */
  lemma SweepStep(done: seq<Range>, r: Range, end: int)
    requires Swept(done, end)
    requires forall p :: p in done ==> p.from <= r.from
    ensures |Months(done + [r])| == |Months(done)| + Max(0, r.to - Max(r.from, end + 1) + 1)
  {
    var gained := Interval(Max(r.from, end + 1), r.to);
    MonthsAreTheCovered(done);
    assert (done + [r])[..|done|] == done;
    SweptIsCovered(done, r, end);
    forall m
      ensures m in Months(done + [r]) <==> m in Months(done) || m in gained
    {
      assert m in Months(done + [r]) <==> m in Months(done) || m in Interval(Max(0, r.from), r.to);
    }
    assert Months(done + [r]) == Months(done) + gained;
    assert Months(done) !! gained;
  }

  lemma SweptIsCovered(done: seq<Range>, r: Range, end: int)
    requires Swept(done, end)
    requires forall p :: p in done ==> p.from <= r.from
    ensures forall m :: 0 <= m && r.from <= m <= end ==> m in Months(done)
  {
    MonthsAreTheCovered(done);
    forall m | 0 <= m && r.from <= m <= end
      ensures m in Months(done)
    {
      var p :| p in done && p.to == end;
      assert Covers(p, m);
    }
  }

  lemma SweptGrows(done: seq<Range>, r: Range, end: int)
    requires Swept(done, end)
    ensures Swept(done + [r], Max(end, r.to))
  {
    assert forall p :: p in done + [r] <==> p in done || p == r;
    if end != -1 {
      var p :| p in done && p.to == end;
      assert p in done + [r];
    }
    assert r in done + [r];
  }

  lemma StartedEarlier(s: seq<Range>, i: nat)
    requires Sorted(StartsNoLater, s) && i < |s|
    ensures forall p :: p in s[..i] ==> p.from <= s[i].from
  {
    forall p | p in s[..i]
      ensures p.from <= s[i].from
    {
      var k :| 0 <= k < i && s[k] == p;
      assert StartsNoLater(s[k], s[i]);
    }
  }

  lemma MonthsOfSameRanges(a: seq<Range>, b: seq<Range>)
    requires multiset(a) == multiset(b)
    ensures Months(a) == Months(b)
  {
    SameMembers(a, b);
    MonthsAreTheCovered(a);
    MonthsAreTheCovered(b);
  }

  /**
   The number of distinct months covered, for any ranges in any order. No range needs to be
   well-ordered; only months before index 0 are never counted.
   */
  method UnionMonths(ranges: seq<Range>) returns (total: int)
    ensures total == |Months(ranges)|
  {
    var sorted := Sort(StartsNoLater, ranges);
    SortSorts(StartsNoLater, ranges);
    MonthsOfSameRanges(sorted, ranges);
    total := 0;
    var end := -1;
    for i := 0 to |sorted|
      invariant Swept(sorted[..i], end)
      invariant total == |Months(sorted[..i])|
    {
      var r := sorted[i];
      StartedEarlier(sorted, i);
      SweepStep(sorted[..i], r, end);
      SweptGrows(sorted[..i], r, end);
      PrefixGrows(sorted, i);
      total := total + Max(0, r.to - Max(r.from, end + 1) + 1);
      end := Max(end, r.to);
    }
    assert sorted[..|sorted|] == sorted;
  }

  // ---- Facts ----

  datatype Status = Extracted | OwnerAsserted | Verified | Conflicting | Expired
  datatype Workload = FullTime | PartTime

  /** `Skill.key` is the trimmed, lower-cased skill name. */
  datatype FactValue =
    | Employment(start: string, end: Option<string>, workload: Workload)
    | Education(start: string, end: Option<string>)
    | Project(start: string, end: Option<string>)
    | Skill(key: string, firstUsed: Option<string>)
    | WorkAuthorization(permitExpiresOn: Option<string>)
    | Timeless

  datatype Fact = Fact(id: string, status: Status, expiresOn: Option<string>, value: FactValue)

  datatype Code = ChronologyInvalid | TechnologyDateRequiresReview
  datatype Issue = Issue(factId: string, code: Code)
  datatype Summary = Summary(totalMonths: int, fullTimeMonths: int, partTimeMonths: int, issues: seq<Issue>)

  predicate Digit(c: char) {
    '0' <= c <= '9'
  }

  function DigitValue(c: char): (v: int)
    requires Digit(c)
    ensures 0 <= v <= 9
  {
    c as int - '0' as int
  }

  /** Four year digits, a dash and two month digits: what the month schema guarantees. */
  predicate MonthText(s: string) {
    && |s| == 7
    && (forall i :: 0 <= i < 7 && i != 4 ==> Digit(s[i]))
    && s[4] == '-'
    && 1 <= DigitValue(s[5]) * 10 + DigitValue(s[6]) <= 12
  }

  function MonthIndex(s: string): (m: int)
    requires MonthText(s)
    ensures 0 <= m
  {
    (DigitValue(s[0]) * 1000 + DigitValue(s[1]) * 100 + DigitValue(s[2]) * 10 + DigitValue(s[3])) * 12
    + DigitValue(s[5]) * 10 + DigitValue(s[6]) - 1
  }

  /** Comparing month texts as strings is comparing month numbers. */
  lemma TextOrderIsMonthOrder(a: string, b: string)
    requires MonthText(a) && MonthText(b)
    ensures Before(a, b) <==> MonthIndex(a) < MonthIndex(b)
  {
    if a[0] == b[0] && a[1] == b[1] && a[2] == b[2] && a[3] == b[3] {
      BeforeSkips(a, b, 5);
      assert Before(a[5..], b[5..]) <==> a[5] < b[5] || (a[5] == b[5] && Before(a[6..], b[6..]));
      assert Before(a[6..], b[6..]) <==> a[6] < b[6] || (a[6] == b[6] && Before(a[7..], b[7..]));
    } else {
      var k := if a[0] != b[0] then 0 else if a[1] != b[1] then 1 else if a[2] != b[2] then 2 else 3;
      BeforeSkips(a, b, k);
    }
  }

  lemma {:induction false} BeforeSkips(a: string, b: string, k: nat)
    requires k < |a| && k < |b| && a[..k] == b[..k]
    ensures Before(a, b) <==> Before(a[k..], b[k..])
  {
    if k > 0 {
      assert a[0] == a[..k][0] && b[0] == b[..k][0];
      assert a[1..][..k - 1] == a[..k][1..] && b[1..][..k - 1] == b[..k][1..];
      BeforeSkips(a[1..], b[1..], k - 1);
      assert a[1..][k - 1..] == a[k..] && b[1..][k - 1..] == b[k..];
    } else {
      assert a[0..] == a && b[0..] == b;
    }
  }

  /** The decimal number one larger, in as many digits. */
  function Incremented(s: string): string {
    if s == "" then ""
    else
      var rest, last := s[..|s| - 1], s[|s| - 1];
      if last == '9' then Incremented(rest) + "0"
      else if last < '9' then rest + [(last as int + 1) as char] else s
  }

  /** The month after, as text: the month counts up to 12, then the year counts up and the month starts over. */
  function NextMonth(s: string): string
    requires |s| == 7
  {
    if s[5..] == "12" then Incremented(s[..4]) + "-01" else s[..5] + Incremented(s[5..])
  }

  lemma TwoDigits(s: string)
    requires |s| == 2 && s[0] < '9'
    ensures Incremented(s) == if s[1] == '9' then [(s[0] as int + 1) as char] + "0"
                              else if s[1] < '9' then [s[0], (s[1] as int + 1) as char] else s
  {
    assert s[..1] == [s[0]] && s[..1][..0] == "";
    assert Incremented([s[0]]) == [][..0] + [(s[0] as int + 1) as char];
  }

  /** A year as a number, by the place of each digit. */
  function YearOf(s: string): int
    requires |s| == 4 && forall i :: 0 <= i < 4 ==> Digit(s[i])
  {
    DigitValue(s[0]) * 1000 + DigitValue(s[1]) * 100 + DigitValue(s[2]) * 10 + DigitValue(s[3])
  }

  lemma OneDigit(s: string)
    requires |s| == 1 && s[0] <= '9'
    ensures Incremented(s) == if s[0] == '9' then "0" else [(s[0] as int + 1) as char]
  {
    assert s[..0] == "";
  }

  lemma NextYear(s: string)
    requires |s| == 4 && (forall i :: 0 <= i < 4 ==> Digit(s[i])) && s != "9999"
    ensures var t := Incremented(s);
            |t| == 4 && (forall i :: 0 <= i < 4 ==> Digit(t[i])) && YearOf(t) == YearOf(s) + 1
  {
    var a, b, c := s[..3], s[..2], s[..1];
    assert a[..2] == b && b[..1] == c;
    OneDigit(c);
    assert s == [s[0], s[1], s[2], s[3]];
    assert Incremented(b) == if s[1] == '9' then Incremented(c) + "0" else c + [(s[1] as int + 1) as char];
    assert Incremented(a) == if s[2] == '9' then Incremented(b) + "0" else b + [(s[2] as int + 1) as char];
    assert Incremented(s) == if s[3] == '9' then Incremented(a) + "0" else a + [(s[3] as int + 1) as char];
    hide Incremented;
  }

  /** Month numbers count the months from January of the year 0000 on. */
  lemma MonthsCountUp(s: string)
    requires MonthText(s) && s != "9999-12"
    ensures MonthText(NextMonth(s)) && MonthIndex(NextMonth(s)) == MonthIndex(s) + 1
    ensures MonthText("0000-01") && MonthIndex("0000-01") == 0
  {
    var year, month := s[..4], s[5..];
    if month == "12" {
      assert s == year + [s[4]] + month;
      NextYear(year);
      assert MonthIndex(s) == YearOf(year) * 12 + 11;
      hide Incremented;
    } else {
      TwoDigits(month);
      assert month[0] == s[5] && month[1] == s[6];
      hide Incremented;
    }
  }

  predicate ElapsedBefore(date: Option<string>, day: string) {
    date.Some? && date.value != "" && Before(date.value, day)
  }

  function FactStatus(fact: Fact, day: string): Status {
    if ElapsedBefore(fact.expiresOn, day)
       || (fact.value.WorkAuthorization? && ElapsedBefore(fact.value.permitExpiresOn, day))
    then Expired
    else fact.status
  }

  predicate UsableFact(fact: Fact, day: string) {
    FactStatus(fact, day) in {Verified, OwnerAsserted}
  }

  predicate Dated(v: FactValue) {
    v.Employment? || v.Education? || v.Project?
  }

  predicate WellFormed(fact: Fact) {
    && (Dated(fact.value) ==> MonthText(fact.value.start) && (fact.value.end.Some? ==> MonthText(fact.value.end.value)))
    && (fact.value.Skill? && fact.value.firstUsed.Some? ==> MonthText(fact.value.firstUsed.value))
  }

  function Period(v: FactValue, current: int): Range
    requires Dated(v) && WellFormed(Fact("", Verified, None, v))
  {
    Range(MonthIndex(v.start), if v.end.Some? then MonthIndex(v.end.value) else current)
  }

  predicate Impossible(r: Range, current: int) {
    r.to < r.from || r.from > current || r.to > current
  }

  /** The month texts the technology history anchors, by skill key. */
  const TECHNOLOGY_HISTORY: map<string, string> := map["python" := "1991-02", "react" := "2013-05"]

  /** A fact counts towards the months of `workload` when it is usable employment with a possible period. */
  ghost predicate Counted(fact: Fact, asOf: string, current: int, workload: Workload) {
    && WellFormed(fact)
    && fact.value.Employment?
    && fact.value.workload == workload
    && UsableFact(fact, asOf)
    && !Impossible(Period(fact.value, current), current)
  }

  /** The months a candidate worked in one workload, read straight off the facts. */
  ghost function Worked(facts: seq<Fact>, asOf: string, current: int, workload: Workload): set<int> {
    if facts == [] then {}
    else
      var rest, last := facts[..|facts| - 1], facts[|facts| - 1];
      Worked(rest, asOf, current, workload)
      + (if Counted(last, asOf, current, workload)
         then Interval(Period(last.value, current).from, Period(last.value, current).to) else {})
  }

  ghost predicate PeriodFlagged(fact: Fact, current: int) {
    && WellFormed(fact)
    && ((Dated(fact.value) && Impossible(Period(fact.value, current), current))
        || (fact.value.Skill? && fact.value.firstUsed.Some? && MonthIndex(fact.value.firstUsed.value) > current))
  }

  ghost predicate TechnologyFlagged(fact: Fact) {
    && WellFormed(fact)
    && fact.value.Skill? && fact.value.firstUsed.Some?
    && fact.value.key in TECHNOLOGY_HISTORY
    && MonthText(TECHNOLOGY_HISTORY[fact.value.key])
    && MonthIndex(fact.value.firstUsed.value) < MonthIndex(TECHNOLOGY_HISTORY[fact.value.key])
  }

  lemma AnchorsAreMonths(key: string)
    requires key in TECHNOLOGY_HISTORY
    ensures MonthText(TECHNOLOGY_HISTORY[key])
  {
  }

  /** Inclusion-exclusion over the two workloads. */
  lemma WorkloadsOverlapOnce(full: set<int>, part: set<int>)
    ensures |full + part| + |full * part| == |full| + |part|
  {
    assert full + part == full + (part - full);
    assert part == (part - full) + (part * full);
    assert full * part == part * full;
    assert |part| == |part - full| + |part * full|;
  }

  lemma {:induction false} WorkedWithinPast(facts: seq<Fact>, asOf: string, current: int, workload: Workload)
    ensures forall m :: m in Worked(facts, asOf, current, workload) ==> 0 <= m <= current
  {
    if facts != [] {
      WorkedWithinPast(facts[..|facts| - 1], asOf, current, workload);
    }
  }

  /** Employment a candidate may rely on: verified or asserted by the owner, and not past its expiry. */
  ghost predicate Reliable(f: Fact, day: string) {
    && f.value.Employment? && (f.status == Verified || f.status == OwnerAsserted)
    && (f.expiresOn.Some? && f.expiresOn.value != "" ==> !Before(f.expiresOn.value, day))
  }

  ghost predicate CoversMonth(start: string, end: Option<string>, m: int, current: int) {
    && MonthText(start) && MonthIndex(start) <= m <= current
    && (end.Some? ==> MonthText(end.value) && m <= MonthIndex(end.value) <= current)
  }

  /** A month is counted exactly when some reliable employment covers it and neither starts nor ends in the future. */
  lemma {:induction false} WorkedExactly(facts: seq<Fact>, asOf: string, current: int, workload: Workload, m: int)
    requires forall f :: f in facts ==> WellFormed(f)
    ensures m in Worked(facts, asOf, current, workload) <==>
              exists f :: f in facts && Reliable(f, asOf) && f.value.workload == workload
                          && CoversMonth(f.value.start, f.value.end, m, current)
  {
    hide Reliable, CoversMonth;
    if facts != [] {
      var rest, last := facts[..|facts| - 1], facts[|facts| - 1];
      assert facts == rest + [last] && last in facts;
      assert forall f :: f in facts <==> f in rest || f == last;
      WorkedExactly(rest, asOf, current, workload, m);
      CountedExactly(last, asOf, current, workload, m);
      hide Counted, Period;
    }
  }

  lemma CountedExactly(f: Fact, asOf: string, current: int, workload: Workload, m: int)
    requires WellFormed(f)
    ensures Reliable(f, asOf) ==> f.value.Employment?
    ensures Counted(f, asOf, current, workload) ==> Dated(f.value) && WellFormed(Fact("", Verified, None, f.value))
    ensures Counted(f, asOf, current, workload)
            && m in Interval(Period(f.value, current).from, Period(f.value, current).to) <==>
            (Reliable(f, asOf) && f.value.workload == workload && CoversMonth(f.value.start, f.value.end, m, current))
  {
  }

  /** What is reported of a fact: dates that are in the future or end before they start, ... */
  lemma PeriodFlaggedExactly(f: Fact, current: int)
    requires WellFormed(f)
    ensures PeriodFlagged(f, current) <==>
              match f.value
              case Employment(start, end, _) => BadDates(start, end, current)
              case Education(start, end) => BadDates(start, end, current)
              case Project(start, end) => BadDates(start, end, current)
              case Skill(_, firstUsed) => firstUsed.Some? && MonthIndex(firstUsed.value) > current
              case _ => false
  {
  }

  ghost predicate BadDates(start: string, end: Option<string>, current: int)
    requires MonthText(start) && (end.Some? ==> MonthText(end.value))
  {
    MonthIndex(start) > current
    || (end.Some? && (MonthIndex(end.value) > current || MonthIndex(end.value) < MonthIndex(start)))
  }

  /** ... and skills used before their technology was published. */
  lemma TechnologyFlaggedExactly(f: Fact)
    requires WellFormed(f)
    ensures TechnologyFlagged(f) <==>
              && f.value.Skill? && f.value.firstUsed.Some?
              && ((f.value.key == "python" && Before(f.value.firstUsed.value, "1991-02"))
                  || (f.value.key == "react" && Before(f.value.firstUsed.value, "2013-05")))
  {
    if f.value.Skill? && f.value.firstUsed.Some? {
      TextOrderIsMonthOrder(f.value.firstUsed.value, "1991-02");
      TextOrderIsMonthOrder(f.value.firstUsed.value, "2013-05");
    }
  }

  /** The reports name exactly the impossible periods and the anachronistic skills among `facts`. */
  ghost predicate Reported(facts: seq<Fact>, issues: seq<Issue>, current: int) {
    && (forall id :: Issue(id, ChronologyInvalid) in issues
                     <==> exists f :: f in facts && f.id == id && PeriodFlagged(f, current))
    && (forall id :: Issue(id, TechnologyDateRequiresReview) in issues
                     <==> exists f :: f in facts && f.id == id && TechnologyFlagged(f))
  }

  lemma ReportedAppend(facts: seq<Fact>, fact: Fact, issues: seq<Issue>, own: seq<Issue>, current: int)
    requires Reported(facts, issues, current) && Reported([fact], own, current)
    ensures Reported(facts + [fact], issues + own, current)
  {
    assert forall f :: f in facts + [fact] <==> f in facts || f in [fact];
    assert forall i :: i in issues + own <==> i in issues || i in own;
  }

  /** The reports one fact gives rise to. */
  method Inspect(fact: Fact, current: int) returns (own: seq<Issue>)
    requires WellFormed(fact)
    ensures Reported([fact], own, current)
  {
    own := [];
    var v := fact.value;
    if Dated(v) && Impossible(Period(v, current), current) {
      own := own + [Issue(fact.id, ChronologyInvalid)];
    }
    if v.Skill? && v.firstUsed.Some? && MonthIndex(v.firstUsed.value) > current {
      own := own + [Issue(fact.id, ChronologyInvalid)];
    }
    if v.Skill? && v.firstUsed.Some? && v.key in TECHNOLOGY_HISTORY {
      AnchorsAreMonths(v.key);
      TextOrderIsMonthOrder(v.firstUsed.value, TECHNOLOGY_HISTORY[v.key]);
      if Before(v.firstUsed.value, TECHNOLOGY_HISTORY[v.key]) {
        own := own + [Issue(fact.id, TechnologyDateRequiresReview)];
      }
    }
    assert fact in [fact];
  }

  /** The three range lists cover exactly the worked months of the facts read so far. */
  ghost predicate Tallied(facts: seq<Fact>, asOf: string, current: int, all: seq<Range>, full: seq<Range>,
                          part: seq<Range>) {
    && Months(full) == Worked(facts, asOf, current, FullTime)
    && Months(part) == Worked(facts, asOf, current, PartTime)
    && Months(all) == Months(full) + Months(part)
  }

  lemma TallyAppend(facts: seq<Fact>, fact: Fact, asOf: string, current: int, all: seq<Range>, full: seq<Range>,
                    part: seq<Range>)
    requires Tallied(facts, asOf, current, all, full, part) && WellFormed(fact)
    ensures Counted(fact, asOf, current, FullTime) ==>
              var r := Period(fact.value, current); Tallied(facts + [fact], asOf, current, all + [r], full + [r], part)
    ensures Counted(fact, asOf, current, PartTime) ==>
              var r := Period(fact.value, current); Tallied(facts + [fact], asOf, current, all + [r], full, part + [r])
    ensures !Counted(fact, asOf, current, FullTime) && !Counted(fact, asOf, current, PartTime) ==>
              Tallied(facts + [fact], asOf, current, all, full, part)
  {
    hide Counted, Period, Interval;
    WorkedNext(facts, fact, asOf, current, FullTime);
    WorkedNext(facts, fact, asOf, current, PartTime);
    NotBoth(fact, asOf, current);
    hide Worked;
    if Counted(fact, asOf, current, FullTime) || Counted(fact, asOf, current, PartTime) {
      var r := Period(fact.value, current);
      StartsInTime(fact, current);
      MonthsNext(all, r);
      MonthsNext(full, r);
      MonthsNext(part, r);
    }
    hide Months;
  }

  lemma WorkedNext(facts: seq<Fact>, fact: Fact, asOf: string, current: int, workload: Workload)
    ensures Counted(fact, asOf, current, workload) ==> CanBeDated(fact)
    ensures Worked(facts + [fact], asOf, current, workload) == Worked(facts, asOf, current, workload)
            + (if Counted(fact, asOf, current, workload)
               then Interval(Period(fact.value, current).from, Period(fact.value, current).to) else {})
  {
    assert (facts + [fact])[..|facts|] == facts;
  }

  predicate CanBeDated(fact: Fact) {
    Dated(fact.value) && WellFormed(Fact("", Verified, None, fact.value))
  }

  lemma NotBoth(fact: Fact, asOf: string, current: int)
    ensures !(Counted(fact, asOf, current, FullTime) && Counted(fact, asOf, current, PartTime))
  {
  }

  lemma StartsInTime(fact: Fact, current: int)
    requires CanBeDated(fact)
    ensures Period(fact.value, current).from >= 0
  {
  }

  lemma MonthsNext(ranges: seq<Range>, r: Range)
    requires r.from >= 0
    ensures Months(ranges + [r]) == Months(ranges) + Interval(r.from, r.to)
  {
    assert (ranges + [r])[..|ranges|] == ranges;
  }

  method ChronologyOf(facts: seq<Fact>, asOf: string) returns (r: Summary)
    requires |asOf| >= 7 && MonthText(asOf[..7])
    requires forall f :: f in facts ==> WellFormed(f)
    // The totals are the sizes of the month sets the facts describe, ...
    ensures r.fullTimeMonths == |Worked(facts, asOf, MonthIndex(asOf[..7]), FullTime)|
    ensures r.partTimeMonths == |Worked(facts, asOf, MonthIndex(asOf[..7]), PartTime)|
    // ... a month in both workloads is counted once in the total, ...
    ensures var now := MonthIndex(asOf[..7]);
            r.totalMonths + |Worked(facts, asOf, now, FullTime) * Worked(facts, asOf, now, PartTime)|
            == r.fullTimeMonths + r.partTimeMonths
    // ... and exactly the impossible and anachronistic facts are reported.
    ensures Reported(facts, r.issues, MonthIndex(asOf[..7]))
  {
    var current := MonthIndex(asOf[..7]);
    var all, full, part: seq<Range> := [], [], [];
    var issues: seq<Issue> := [];
    for i := 0 to |facts|
      invariant Tallied(facts[..i], asOf, current, all, full, part)
      invariant Reported(facts[..i], issues, current)
    {
      var fact := facts[i];
      PrefixGrows(facts, i);
      TallyAppend(facts[..i], fact, asOf, current, all, full, part);
      var own := Inspect(fact, current);
      ReportedAppend(facts[..i], fact, issues, own, current);
      issues := issues + own;
      var v := fact.value;
      if v.Employment? && !Impossible(Period(v, current), current) && UsableFact(fact, asOf) {
        var period := Period(v, current);
        all := all + [period];
        if v.workload == FullTime {
          full := full + [period];
        } else {
          part := part + [period];
        }
      }
    }
    assert facts[..|facts|] == facts;
    WorkloadsOverlapOnce(Months(full), Months(part));
    var total := UnionMonths(all);
    var fullTime := UnionMonths(full);
    var partTime := UnionMonths(part);
    r := Summary(total, fullTime, partTime, issues);
  }
}
