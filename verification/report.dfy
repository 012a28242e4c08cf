/**
 * The decisions inside the PDF report (fedchecker/reports/generator.py):
 * the overall score and its verdict, the status colours and symbols, the
 * rows of a category table, and the recommendations list with its stable
 * ordering by severity. Layout, charts and system information are not modelled.
 */
module Report {
  import opened Wrappers
  import opened Status

  /** The report's own colours (`ReportGenerator.SUCCESS_GREEN` and so on). */
  const Green := "#2ECC71"
  const Yellow := "#F39C12"
  const Red := "#E74C3C"
  const Gray := "#7F8C8D"

  /** `_status_color`: ERROR shares FAIL's red, and SKIP is grey. */
  function StatusColor(s: CheckStatus): (color: string)
    ensures color == Red <==> s == Fail || s == Error
    ensures color == Gray <==> s == Skip
    ensures color == Green <==> s == Pass
    ensures color == Yellow <==> s == Warn
  {
    match s
    case Pass => Green
    case Fail => Red
    case Warn => Yellow
    case Skip => Gray
    case Error => Red
  }

  /** `_status_symbol`: ERROR shares FAIL's cross, and SKIP is a circle. */
  function StatusSymbol(s: CheckStatus): (symbol: string)
    ensures symbol == "✗" <==> s == Fail || s == Error
    ensures symbol == "○" <==> s == Skip
    ensures symbol == "✓" <==> s == Pass
    ensures symbol == "⚠" <==> s == Warn
  {
    match s
    case Pass => "✓"
    case Fail => "✗"
    case Warn => "⚠"
    case Skip => "○"
    case Error => "✗"
  }

  /** The sum of a list of numbers. */
  function Sum(xs: seq<real>): real
    decreases |xs|
  {
    if |xs| == 0 then 0.0 else Sum(xs[..|xs| - 1]) + xs[|xs| - 1]
  }

  /** Numbers between `lo` and `hi` sum to between `lo` and `hi` per number. */
  lemma {:induction false} SumBetween(xs: seq<real>, lo: real, hi: real)
    requires forall i :: 0 <= i < |xs| ==> lo <= xs[i] <= hi
    ensures lo * |xs| as real <= Sum(xs) <= hi * |xs| as real
    decreases |xs|
  {
    if |xs| > 0 {
      var m := (|xs| - 1) as real;
      SumBetween(xs[..|xs| - 1], lo, hi);
      assert lo * (m + 1.0) == lo * m + lo;
      assert hi * (m + 1.0) == hi * m + hi;
    }
  }

  /** The mean of `n` numbers in [0, 100] with sum `sum` lies in [0, 100]. */
  lemma MeanFacts(sum: real, n: real)
    requires 0.0 <= sum <= 100.0 * n && n > 0.0
    ensures 0.0 <= sum / n <= 100.0
    ensures (sum / n) * n == sum
  {
    var q := sum / n;
    assert q * n == sum;
    if q > 100.0 {
      MulStrict(100.0, q, n);
      assert false;
    }
    if q < 0.0 {
      MulStrict(q, 0.0, n);
      assert false;
    }
  }

  /** The mean of numbers in [0, 100], and 0 for none. */
  function Mean(xs: seq<real>): (r: real)
    requires forall i :: 0 <= i < |xs| ==> 0.0 <= xs[i] <= 100.0
    ensures 0.0 <= r <= 100.0
    ensures |xs| == 0 ==> r == 0.0
    ensures |xs| > 0 ==> r * |xs| as real == Sum(xs)
  {
    if |xs| == 0 then 0.0
    else
      var sum, n := Sum(xs), |xs| as real;
      SumBetween(xs, 0.0, 100.0);
      MeanFacts(sum, n);
      sum / n
  }

  /** The mean lies between the smallest and the largest number. */
  lemma MeanBetween(xs: seq<real>, lo: real, hi: real)
    requires |xs| > 0 && forall i :: 0 <= i < |xs| ==> 0.0 <= xs[i] <= 100.0
    requires forall i :: 0 <= i < |xs| ==> lo <= xs[i] <= hi
    ensures lo <= Mean(xs) <= hi
  {
    SumBetween(xs, lo, hi);
    var n := |xs| as real;
    var r := Mean(xs);
    if r < lo {
      MulStrict(r, lo, n);
      assert false;
    }
    if r > hi {
      MulStrict(hi, r, n);
      assert false;
    }
  }

  /** The category scores, in order. */
  function Scores(cats: seq<Category>): (xs: seq<real>)
    ensures |xs| == |cats|
    ensures forall i :: 0 <= i < |cats| ==> xs[i] == Score(cats[i]) && 0.0 <= xs[i] <= 100.0
  {
    seq(|cats|, i requires 0 <= i < |cats| => Score(cats[i]))
  }

  /** The overall score (`_create_summary_section`): the mean of the category scores, and 0 with no categories. */
  function OverallScore(cats: seq<Category>): (r: real)
    ensures 0.0 <= r <= 100.0
    ensures |cats| == 0 ==> r == 0.0
    ensures |cats| > 0 ==> r * |cats| as real == Sum(Scores(cats))
  {
    Mean(Scores(cats))
  }

  /** The overall score lies between the lowest and the highest category score. */
  lemma OverallBetween(cats: seq<Category>, lo: real, hi: real)
    requires |cats| > 0 && forall i :: 0 <= i < |cats| ==> lo <= Score(cats[i]) <= hi
    ensures lo <= OverallScore(cats) <= hi
  {
    var xs := Scores(cats);
    forall i | 0 <= i < |xs| ensures lo <= xs[i] <= hi {
      assert xs[i] == Score(cats[i]);
    }
    MeanBetween(xs, lo, hi);
  }

  /** The executive summary's verdict. */
  datatype Band = Excellent | SomeIssues | Attention

  /** The summary banding: at least 80 is excellent, at least 60 has some issues, anything lower needs attention. */
  function Banding(score: real): (b: Band)
    ensures b == Excellent <==> score >= 80.0
    ensures b == SomeIssues <==> 60.0 <= score < 80.0
    ensures b == Attention <==> score < 60.0
  {
    if score >= 80.0 then Excellent else if score >= 60.0 then SomeIssues else Attention
  }

  /** The sentence and colour shown for each verdict. */
  function Summary(b: Band): (string, string) {
    match b
    case Excellent => ("Your system is in excellent health. Keep up the good work!", Green)
    case SomeIssues => ("Your system has some issues that should be addressed.", Yellow)
    case Attention => ("Your system requires immediate attention. Please review the recommendations.", Red)
  }

  /** All categories in excellent health make an excellent report. */
  lemma AllExcellent(cats: seq<Category>)
    requires |cats| > 0 && forall i :: 0 <= i < |cats| ==> Score(cats[i]) >= 80.0
    ensures Banding(OverallScore(cats)) == Excellent
  {
    OverallBetween(cats, 80.0, 100.0);
  }

  /** The rows of a category's results table. */
  function CategoryTable(c: Category): (rows: seq<seq<string>>)
    ensures |rows| == 1 + |c.results|
    ensures rows[0] == ["Status", "Check", "Result"]
    ensures forall i :: 0 <= i < |c.results| ==>
              rows[i + 1] == [StatusSymbol(c.results[i].status), c.results[i].name, c.results[i].message]
  {
    [["Status", "Check", "Result"]]
    + seq(|c.results|, i requires 0 <= i < |c.results| =>
        [StatusSymbol(c.results[i].status), c.results[i].name, c.results[i].message])
  }

  datatype Severity = High | Medium

  /** One recommendation: where it comes from, what it says, and the fix command when one is offered. */
  datatype Recommendation = Recommendation(
    category: string,
    check: string,
    message: string,
    details: string,
    fix: Option<string>,
    severity: Severity)

  /** A result needs attention when it failed or warned. */
  predicate NeedsAttention(r: CheckResult) {
    r.status == Fail || r.status == Warn
  }

  /** The recommendation made for a result. */
  function Recommend(category: string, r: CheckResult): (rec: Recommendation)
    ensures rec.severity == High <==> r.status == Fail
    ensures rec.fix.Some? <==> r.fixAvailable
    ensures rec.fix.Some? ==> rec.fix.value == r.fixCommand
    ensures rec.category == category && rec.check == r.name && rec.message == r.message && rec.details == r.details
  {
    Recommendation(category, r.name, r.message, r.details,
                   if r.fixAvailable then Some(r.fixCommand) else None,
                   if r.status == Fail then High else Medium)
  }

  /** The recommendations for one category's results, in order. */
  function RecommendationsOf(name: string, rs: seq<CheckResult>): (recs: seq<Recommendation>)
    ensures |recs| <= |rs|
    decreases |rs|
  {
    if |rs| == 0 then []
    else
      var rest := RecommendationsOf(name, rs[1..]);
      if NeedsAttention(rs[0]) then [Recommend(name, rs[0])] + rest else rest
  }

  /** Every recommendation comes from a result that failed or warned. */
  lemma {:induction false} RecommendationsOfSound(name: string, rs: seq<CheckResult>, i: nat)
    requires i < |RecommendationsOf(name, rs)|
    ensures exists j :: 0 <= j < |rs| && NeedsAttention(rs[j]) && RecommendationsOf(name, rs)[i] == Recommend(name, rs[j])
    decreases |rs|
  {
    var rest := RecommendationsOf(name, rs[1..]);
    if NeedsAttention(rs[0]) && i == 0 {
      assert RecommendationsOf(name, rs)[0] == Recommend(name, rs[0]);
    } else {
      var k := if NeedsAttention(rs[0]) then i - 1 else i;
      assert RecommendationsOf(name, rs)[i] == rest[k];
      RecommendationsOfSound(name, rs[1..], k);
      var j :| 0 <= j < |rs[1..]| && NeedsAttention(rs[1..][j]) && rest[k] == Recommend(name, rs[1..][j]);
      assert rs[j + 1] == rs[1..][j];
    }
  }

  /** Every result that failed or warned gives a recommendation. */
  lemma {:induction false} RecommendationsOfComplete(name: string, rs: seq<CheckResult>)
    ensures forall j :: 0 <= j < |rs| && NeedsAttention(rs[j]) ==> Recommend(name, rs[j]) in RecommendationsOf(name, rs)
    decreases |rs|
  {
    if |rs| > 0 {
      RecommendationsOfComplete(name, rs[1..]);
      forall j | 1 <= j < |rs| && NeedsAttention(rs[j]) ensures Recommend(name, rs[j]) in RecommendationsOf(name, rs) {
        assert rs[j] == rs[1..][j - 1];
      }
    }
  }

  /** A category gives no recommendation exactly when none of its results failed or warned. */
  lemma {:induction false} RecommendationsOfEmpty(name: string, rs: seq<CheckResult>)
    ensures RecommendationsOf(name, rs) == [] <==> forall j :: 0 <= j < |rs| ==> !NeedsAttention(rs[j])
    decreases |rs|
  {
    if |rs| > 0 {
      RecommendationsOfEmpty(name, rs[1..]);
      assert forall j :: 1 <= j < |rs| ==> rs[j] == rs[1..][j - 1];
    }
  }

  /** The recommendations across categories, in category-then-result order, before sorting. */
  function Recommendations(cats: seq<Category>): (recs: seq<Recommendation>)
    decreases |cats|
  {
    if |cats| == 0 then []
    else Recommendations(cats[..|cats| - 1]) + RecommendationsOf(cats[|cats| - 1].name, cats[|cats| - 1].results)
  }

  /** There are recommendations exactly when some result of some category failed or warned. */
  lemma {:induction false} RecommendationsEmpty(cats: seq<Category>)
    ensures Recommendations(cats) == [] <==>
              forall i, j :: 0 <= i < |cats| && 0 <= j < |cats[i].results| ==> !NeedsAttention(cats[i].results[j])
    decreases |cats|
  {
    if |cats| > 0 {
      var p := cats[..|cats| - 1];
      var last := cats[|cats| - 1];
      RecommendationsEmpty(p);
      RecommendationsOfEmpty(last.name, last.results);
      assert Recommendations(cats) == Recommendations(p) + RecommendationsOf(last.name, last.results);
      assert forall i :: 0 <= i < |p| ==> p[i] == cats[i];
    }
  }

  /** The High recommendations, in order. */
  function Highs(recs: seq<Recommendation>): (hs: seq<Recommendation>)
    ensures forall i :: 0 <= i < |hs| ==> hs[i].severity == High
    decreases |recs|
  {
    if |recs| == 0 then []
    else Highs(recs[..|recs| - 1]) + (if recs[|recs| - 1].severity == High then [recs[|recs| - 1]] else [])
  }

  /** The Medium recommendations, in order. */
  function Mediums(recs: seq<Recommendation>): (ms: seq<Recommendation>)
    ensures forall i :: 0 <= i < |ms| ==> ms[i].severity == Medium
    decreases |recs|
  {
    if |recs| == 0 then []
    else Mediums(recs[..|recs| - 1]) + (if recs[|recs| - 1].severity == Medium then [recs[|recs| - 1]] else [])
  }

  /**
   * One step of a stable insertion sort on the key `severity == High`,
   * descending: the new element goes after every element that does not sort
   * after it.
   */
  function Insert(x: Recommendation, sorted: seq<Recommendation>): (r: seq<Recommendation>)
    ensures |r| == |sorted| + 1
    decreases |sorted|
  {
    if |sorted| == 0 then [x]
    else if x.severity == Medium || sorted[0].severity == High then [sorted[0]] + Insert(x, sorted[1..])
    else [x] + sorted
  }

  /**
   * `recommendations.sort(key=lambda x: x['severity'] == 'High', reverse=True)`:
   * Python's sort is stable even with `reverse=True`, so it is the stable
   * insertion sort, taking the elements in order.
   */
  function SortBySeverity(recs: seq<Recommendation>): (r: seq<Recommendation>)
    ensures |r| == |recs|
    decreases |recs|
  {
    if |recs| == 0 then [] else Insert(recs[|recs| - 1], SortBySeverity(recs[..|recs| - 1]))
  }

  /** A Medium element goes to the end. */
  lemma {:induction false} InsertMedium(x: Recommendation, s: seq<Recommendation>)
    requires x.severity == Medium
    ensures Insert(x, s) == s + [x]
    decreases |s|
  {
    if |s| > 0 {
      InsertMedium(x, s[1..]);
      assert s == [s[0]] + s[1..];
    }
  }

  /** A High element goes after the Highs and before the Mediums. */
  lemma {:induction false} InsertHigh(x: Recommendation, hs: seq<Recommendation>, ms: seq<Recommendation>)
    requires x.severity == High
    requires forall i :: 0 <= i < |hs| ==> hs[i].severity == High
    requires forall i :: 0 <= i < |ms| ==> ms[i].severity == Medium
    ensures Insert(x, hs + ms) == hs + [x] + ms
    decreases |hs|
  {
    if |hs| > 0 {
      assert (hs + ms)[1..] == hs[1..] + ms;
      InsertHigh(x, hs[1..], ms);
      assert hs == [hs[0]] + hs[1..];
    }
  }

  /**
   * The sorted list is the High recommendations followed by the Medium ones,
   * each group in its original order.
   */
  lemma {:induction false} SortPartitions(recs: seq<Recommendation>)
    ensures SortBySeverity(recs) == Highs(recs) + Mediums(recs)
    decreases |recs|
  {
    if |recs| > 0 {
      var p := recs[..|recs| - 1];
      var x := recs[|recs| - 1];
      SortPartitions(p);
      if x.severity == High {
        InsertHigh(x, Highs(p), Mediums(p));
      } else {
        InsertMedium(x, Highs(p) + Mediums(p));
      }
    }
  }

  /** After sorting every High recommendation precedes every Medium one. */
  lemma HighsFirst(recs: seq<Recommendation>)
    ensures var s := SortBySeverity(recs);
      forall i, j :: 0 <= i < j < |s| && s[j].severity == High ==> s[i].severity == High
  {
    SortPartitions(recs);
  }

  /** Sorting only reorders: each recommendation occurs as often as before. */
  lemma SortPermutes(recs: seq<Recommendation>)
    ensures multiset(SortBySeverity(recs)) == multiset(recs)
  {
    SortPartitions(recs);
    PartitionPermutes(recs);
  }

  /** Splitting by severity loses and duplicates nothing. */
  lemma {:induction false} PartitionPermutes(recs: seq<Recommendation>)
    ensures multiset(Highs(recs) + Mediums(recs)) == multiset(recs)
    decreases |recs|
  {
    if |recs| > 0 {
      var p := recs[..|recs| - 1];
      var x := recs[|recs| - 1];
      PartitionPermutes(p);
      var hx := if x.severity == High then [x] else [];
      var mx := if x.severity == Medium then [x] else [];
      assert Highs(recs) == Highs(p) + hx && Mediums(recs) == Mediums(p) + mx;
      assert multiset(hx + mx) == multiset{x};
      SplitLast(recs);
      Regroup(Highs(p), hx, Mediums(p), mx);
    }
  }

  /** A non-empty sequence holds its last element and the rest. */
  lemma SplitLast<T>(s: seq<T>)
    requires |s| > 0
    ensures multiset(s) == multiset(s[..|s| - 1]) + multiset{s[|s| - 1]}
  {
    assert s == s[..|s| - 1] + [s[|s| - 1]];
  }

  /** Moving two tails together keeps the multiset of a concatenation. */
  lemma Regroup<T>(a: seq<T>, x: seq<T>, b: seq<T>, y: seq<T>)
    ensures multiset(a + x + (b + y)) == multiset(a + b) + multiset(x + y)
  {
  }

  /** The recommendations section: the placeholder line, or the sorted list. */
  datatype Section = NoRecommendations | Listed(recs: seq<Recommendation>)

  /** `_create_recommendations_section` */
  function RecommendationsSection(cats: seq<Category>): (s: Section)
    ensures s.NoRecommendations? <==> forall i, j :: 0 <= i < |cats| && 0 <= j < |cats[i].results| ==> !NeedsAttention(cats[i].results[j])
    ensures s.Listed? ==> s.recs == Highs(Recommendations(cats)) + Mediums(Recommendations(cats))
  {
    RecommendationsEmpty(cats);
    var recs := Recommendations(cats);
    if recs == [] then NoRecommendations
    else
      SortPartitions(recs);
      Listed(SortBySeverity(recs))
  }
}
