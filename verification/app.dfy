/**
 * The application layer of fedchecker/main.py: the cache of displayed
 * categories, the auto-fix pass over every cached fixable result, the
 * decision to rerun the checkers before a report, and the exit codes.
 */
module App {
  import opened Wrappers
  import opened Status
  import opened Exec
  import opened Fix
  import HealthFix
  import DriverFix
  import SecurityFix
  import DesktopFix

  /** `self.check_results`: a dict, so a sequence of (key, category) entries in insertion order. */
  type Cache = seq<(string, Category)>

  /** The position of `k`'s entry, the first one when keys repeat. */
  function Find(c: Cache, k: string): (r: Option<nat>)
    ensures r.Some? ==> r.value < |c| && c[r.value].0 == k && forall j :: 0 <= j < r.value ==> c[j].0 != k
    ensures r.None? ==> forall j :: 0 <= j < |c| ==> c[j].0 != k
    decreases |c|
  {
    if |c| == 0 then None
    else if c[0].0 == k then Some(0)
    else match Find(c[1..], k)
      case Some(i) => Some(i + 1)
      case None => None
  }

  /** `self.check_results.get(k)` */
  function Get(c: Cache, k: string): Option<Category> {
    match Find(c, k)
    case Some(i) => Some(c[i].1)
    case None => None
  }

  /** No key occurs twice, as in any dict. */
  predicate Distinct(c: Cache) {
    forall i, j :: 0 <= i < j < |c| ==> c[i].0 != c[j].0
  }

  /**
   * `self.check_results[k] = v`: an existing key keeps its place and gets the
   * new value; a new key is appended.
   */
  function Put(c: Cache, k: string, v: Category): (r: Cache)
    ensures Get(r, k) == Some(v)
    ensures forall k' :: k' != k ==> Get(r, k') == Get(c, k')
    ensures |r| == if Find(c, k).Some? then |c| else |c| + 1
    ensures Distinct(c) ==> Distinct(r)
  {
    match Find(c, k)
    case Some(i) =>
      var r := c[i := (k, v)];
      assert Find(r, k) == Some(i) by { FindSameKeys(c, r, k); }
      forall k' | k' != k ensures Get(r, k') == Get(c, k') {
        FindSameKeys(c, r, k');
      }
      r
    case None =>
      var r := c + [(k, v)];
      FindAppend(c, (k, v), k);
      forall k' | k' != k ensures Get(r, k') == Get(c, k') {
        FindAppend(c, (k, v), k');
      }
      r
  }

  /** Finding depends only on the keys. */
  lemma {:induction false} FindSameKeys(c: Cache, d: Cache, k: string)
    requires |c| == |d| && forall i :: 0 <= i < |c| ==> c[i].0 == d[i].0
    ensures Find(c, k) == Find(d, k)
    decreases |c|
  {
    if |c| > 0 {
      FindSameKeys(c[1..], d[1..], k);
    }
  }

  /** Appending an entry leaves earlier keys where they were and makes a new key findable at the end. */
  lemma {:induction false} FindAppend(c: Cache, e: (string, Category), k: string)
    ensures Find(c, k).Some? ==> Find(c + [e], k) == Find(c, k)
    ensures Find(c, k).None? && e.0 == k ==> Find(c + [e], k) == Some(|c|)
    ensures Find(c, k).None? && e.0 != k ==> Find(c + [e], k).None?
    decreases |c|
  {
    if |c| > 0 {
      assert (c + [e])[1..] == c[1..] + [e];
      FindAppend(c[1..], e, k);
    }
  }

  /** `_display_category_results` caches the category under its own name (the table and panel are presentation). */
  function Display(c: Cache, cat: Category): (r: Cache)
    ensures Get(r, cat.name) == Some(cat)
    ensures forall k :: k != cat.name ==> Get(r, k) == Get(c, k)
  {
    Put(c, cat.name, cat)
  }

  /** A result is offered for fixing when it has a fix and failed or warned. */
  predicate Offered(r: CheckResult) {
    r.fixAvailable && (r.status == Fail || r.status == Warn)
  }

  /** One `(category.name, result)` pair of the fixable list. */
  datatype Item = Item(category: string, result: CheckResult)

  /** The offered results of one category, in order. */
  function ItemsOf(name: string, rs: seq<CheckResult>): (items: seq<Item>)
    ensures |items| <= |rs|
    ensures forall i :: 0 <= i < |items| ==> items[i].category == name && Offered(items[i].result) && items[i].result in rs
    ensures forall r :: r in rs && Offered(r) ==> Item(name, r) in items
    decreases |rs|
  {
    if |rs| == 0 then []
    else
      var rest := ItemsOf(name, rs[1..]);
      assert forall r :: r in rs[1..] ==> r in rs;
      if Offered(rs[0]) then [Item(name, rs[0])] + rest else rest
  }

  /** The fixable list: the offered results category by category, in cache order. */
  function Fixable(c: Cache): (items: seq<Item>)
    decreases |c|
  {
    if |c| == 0 then [] else Fixable(c[..|c| - 1]) + ItemsOf(c[|c| - 1].1.name, c[|c| - 1].1.results)
  }

  /**
   * Exactly the offered results are listed: every listed item is an offered
   * result of a cached category, and every offered result of every cached
   * category is listed (so a SKIP result with a fix never is).
   */
  lemma {:induction false} FixableExactly(c: Cache)
    ensures forall it :: it in Fixable(c) ==>
              Offered(it.result) && exists i :: 0 <= i < |c| && it.category == c[i].1.name && it.result in c[i].1.results
    ensures forall i, r :: 0 <= i < |c| && r in c[i].1.results && Offered(r) ==> Item(c[i].1.name, r) in Fixable(c)
    decreases |c|
  {
    if |c| > 0 {
      var p := c[..|c| - 1];
      FixableExactly(p);
      var last := ItemsOf(c[|c| - 1].1.name, c[|c| - 1].1.results);
      assert Fixable(c) == Fixable(p) + last;
      forall it | it in Fixable(c)
        ensures Offered(it.result) && exists i :: 0 <= i < |c| && it.category == c[i].1.name && it.result in c[i].1.results
      {
        if it in Fixable(p) {
          var i :| 0 <= i < |p| && it.category == p[i].1.name && it.result in p[i].1.results;
          assert c[i] == p[i];
        } else {
          var k :| 0 <= k < |last| && last[k] == it;
        }
      }
      forall i, r | 0 <= i < |c| && r in c[i].1.results && Offered(r)
        ensures Item(c[i].1.name, r) in Fixable(c)
      {
        if i < |c| - 1 {
          assert c[i] == p[i];
        }
      }
    }
  }

  /** What the host looks like to the fixers: the swap file, the fstab permission and `XDG_CURRENT_DESKTOP`. */
  datatype Host = Host(swapExists: bool, fstabWritable: bool, desktop: string)

  /** A fixer's `apply_fix`. */
  type FixerFn = (World, CheckResult) -> Applied

  /** A lookup from category name to fixer, such as `fixer_map`. */
  type Fixers = string -> Option<FixerFn>

  /** `fixer_map`: the fixer for each checker's category name. */
  function Fixer(category: string, h: Host): (f: Option<FixerFn>)
    ensures f.Some? <==> category in {"Health Check", "Driver Check", "Security Check", "Desktop Check"}
  {
    if category == "Health Check" then
      Some((w: World, r: CheckResult) => HealthFix.ApplyFix(w, r, h.swapExists, h.fstabWritable))
    else if category == "Driver Check" then Some((w: World, r: CheckResult) => DriverFix.ApplyFix(w, r))
    else if category == "Security Check" then Some((w: World, r: CheckResult) => SecurityFix.ApplyFix(w, r))
    else if category == "Desktop Check" then Some((w: World, r: CheckResult) => DesktopFix.ApplyFix(w, r, h.desktop))
    else None
  }

  /** One item's contribution: none for an unmapped category, else whether it counts as fixed. */
  datatype Counted = Counted(fixed: Option<bool>, w: World)

  /** One pass of the tally loop: a `None` result or an unsuccessful one counts as failed. */
  function FixOne(w: World, it: Item, fixers: Fixers): (c: Counted)
    ensures c.fixed.Some? <==> fixers(it.category).Some?
    ensures c.fixed.Some? ==>
              var a := fixers(it.category).value(w, it.result);
              c.fixed.value == (a.result.Some? && a.result.value.success) && c.w == a.w
    ensures c.fixed.None? ==> c.w == w
  {
    match fixers(it.category)
    case None => Counted(None, w)
    case Some(f) =>
      var a := f(w, it.result);
      Counted(Some(a.result.Some? && a.result.value.success), a.w)
  }

  /** How many items belong to a category with a fixer. */
  function Handled(items: seq<Item>, fixers: Fixers): (n: nat)
    ensures n <= |items|
  {
    if |items| == 0 then 0
    else (if fixers(items[0].category).Some? then 1 else 0) + Handled(items[1..], fixers)
  }

  datatype Tally = Tally(fixed: nat, failed: nat, w: World)

  /** The tally loop: each handled item adds one to exactly one of the two counts. */
  function FixAll(w: World, items: seq<Item>, fixers: Fixers): (t: Tally)
    ensures t.fixed + t.failed == Handled(items, fixers)
    decreases |items|
  {
    if |items| == 0 then Tally(0, 0, w)
    else
      var one := FixOne(w, items[0], fixers);
      var rest := FixAll(one.w, items[1..], fixers);
      match one.fixed
      case None => rest
      case Some(true) => Tally(rest.fixed + 1, rest.failed, rest.w)
      case Some(false) => Tally(rest.fixed, rest.failed + 1, rest.w)
  }

  /** One item: counted as fixed iff its category has a fixer whose result is present and successful, as failed iff it has a fixer and not that. */
  lemma FixAllOne(w: World, it: Item, fixers: Fixers)
    ensures var t := FixAll(w, [it], fixers);
            && t.fixed <= 1 && t.failed <= 1
            && (t.fixed == 1 <==> fixers(it.category).Some? &&
                                  var a := fixers(it.category).value(w, it.result);
                                  a.result.Some? && a.result.value.success)
            && (t.failed == 1 <==> fixers(it.category).Some? &&
                                   var a := fixers(it.category).value(w, it.result);
                                   !(a.result.Some? && a.result.value.success))
  {
  }

  /** The tally adds up over consecutive stretches of the fixable list, the second starting from the world the first leaves. */
  lemma {:induction false} FixAllAppend(w: World, xs: seq<Item>, ys: seq<Item>, fixers: Fixers)
    ensures var tx := FixAll(w, xs, fixers);
            var ty := FixAll(tx.w, ys, fixers);
            FixAll(w, xs + ys, fixers) == Tally(tx.fixed + ty.fixed, tx.failed + ty.failed, ty.w)
    decreases |xs|
  {
    if |xs| == 0 {
      assert xs + ys == ys;
    } else {
      var one := FixOne(w, xs[0], fixers);
      assert (xs + ys)[0] == xs[0];
      assert (xs + ys)[1..] == xs[1..] + ys;
      FixAllAppend(one.w, xs[1..], ys, fixers);
    }
  }

  datatype AutoFixRun = NoChecks | NothingToFix | Declined | Attempted(fixed: nat, failed: nat)

  datatype AutoFixed = AutoFixed(run: AutoFixRun, w: World)

  /**
   * `_run_auto_fix`: with nothing cached or nothing fixable it returns at
   * once; otherwise it asks once and, if accepted, runs the tally loop over
   * the fixable list.
   */
  function AutoFix(w: World, c: Cache, fixers: Fixers): (a: AutoFixed)
    ensures |c| == 0 ==> a == AutoFixed(NoChecks, w)
    ensures |c| > 0 && Fixable(c) == [] ==> a == AutoFixed(NothingToFix, w)
    ensures a.run.Attempted? ==> AnswerAt(w, 0) && a.run.fixed + a.run.failed <= |Fixable(c)|
    ensures a.run.Declined? <==> |c| > 0 && Fixable(c) != [] && !AnswerAt(w, 0)
    ensures |c| > 0 && Fixable(c) != [] && AnswerAt(w, 0) ==>
              var t := FixAll(Ask(w).w, Fixable(c), fixers);
              a == AutoFixed(Attempted(t.fixed, t.failed), t.w)
  {
    if |c| == 0 then AutoFixed(NoChecks, w)
    else
      var items := Fixable(c);
      if items == [] then AutoFixed(NothingToFix, w)
      else
        var q := Ask(w);
        if !q.yes then AutoFixed(Declined, q.w)
        else
          var t := FixAll(q.w, items, fixers);
          AutoFixed(Attempted(t.fixed, t.failed), t.w)
  }

  /** Declining the fix-all prompt invokes no fixer: no command is issued and no outcome consumed. */
  lemma DecliningFixesNothing(w: World, c: Cache, fixers: Fixers)
    requires !AnswerAt(w, 0)
    ensures AutoFix(w, c, fixers).w.issued == w.issued && AutoFix(w, c, fixers).w.ran == w.ran
    ensures !AutoFix(w, c, fixers).run.Attempted?
  {
  }

  /** The categories the four checkers' `run_all_checks` return when rerun. */
  datatype Fresh = Fresh(health: Category, drivers: Category, security: Category, desktop: Category)

  /** Rerunning every checker stores each category under its checker's name. */
  function RunChecks(c: Cache, f: Fresh): (r: Cache)
    ensures Get(r, "Health Check") == Some(f.health)
    ensures Get(r, "Driver Check") == Some(f.drivers)
    ensures Get(r, "Security Check") == Some(f.security)
    ensures Get(r, "Desktop Check") == Some(f.desktop)
  {
    var r1 := Put(c, "Health Check", f.health);
    var r2 := Put(r1, "Driver Check", f.drivers);
    var r3 := Put(r2, "Security Check", f.security);
    Put(r3, "Desktop Check", f.desktop)
  }

  /** The categories the report is generated from (none when the cache is empty) and the cache afterwards. */
  datatype ReportRun = ReportRun(cache: Cache, report: Option<seq<Category>>, w: World)

  function Values(c: Cache): (vs: seq<Category>)
    ensures |vs| == |c| && forall i :: 0 <= i < |c| ==> vs[i] == c[i].1
  {
    seq(|c|, i requires 0 <= i < |c| => c[i].1)
  }

  /**
   * `_generate_report`: with fewer than four cached categories it offers to
   * rerun every checker; then a report is made from the cached categories,
   * in cache order, unless there are none.
   */
  function GenerateReport(w: World, c: Cache, f: Fresh): (r: ReportRun)
    ensures |c| >= 4 ==> r.cache == c && r.w == w
    ensures |c| < 4 && AnswerAt(w, 0) ==> r.cache == RunChecks(c, f)
    ensures |c| < 4 && !AnswerAt(w, 0) ==> r.cache == c
    ensures r.report.Some? <==> |r.cache| > 0
    ensures r.report.Some? ==> r.report.value == Values(r.cache)
    ensures r.w.issued == w.issued
  {
    var (c', w') :=
      if |c| < 4 then
        var q := Ask(w);
        (if q.yes then RunChecks(c, f) else c, q.w)
      else (c, w);
    ReportRun(c', if |c'| == 0 then None else Some(Values(c')), w')
  }

  /** After an accepted rerun all four checkers' names are cached, so the report covers them. */
  lemma RerunCachesAll(w: World, c: Cache, f: Fresh)
    requires |c| < 4 && AnswerAt(w, 0)
    ensures var r := GenerateReport(w, c, f).cache;
      Find(r, "Health Check").Some? && Find(r, "Driver Check").Some?
      && Find(r, "Security Check").Some? && Find(r, "Desktop Check").Some?
    ensures GenerateReport(w, c, f).report.Some?
  {
  }

  /** How `main` ends: the loop's exit choice, Ctrl-C, or any other exception. */
  datatype Ending = Quit | Interrupted | Crashed(error: string)

  /** The process exit status: an interrupt exits 0 and any other exception 1; a normal return is 0. */
  function ExitCode(e: Ending): (code: int)
    ensures code == 0 || code == 1
    ensures code == 1 <==> e.Crashed?
  {
    match e
    case Quit => 0
    case Interrupted => 0
    case Crashed(_) => 1
  }
}
