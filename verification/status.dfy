/**
 * Check results and their aggregation into a scored category
 * (fedchecker/ui/colors.py).
 */
module Status {

  datatype CheckStatus = Pass | Fail | Warn | Skip | Error

  /** One probe's verdict. `fixCommand` is a shell command the fixers may run. */
  datatype CheckResult = CheckResult(
    name: string,
    status: CheckStatus,
    message: string,
    details: string,
    fixAvailable: bool,
    fixCommand: string)

  /** A result that offers no fix (the dataclass defaults). */
  function Plain(name: string, status: CheckStatus, message: string): CheckResult {
    CheckResult(name, status, message, "", false, "")
  }

  /** A result that offers `command` as its fix. */
  function Fixable(name: string, status: CheckStatus, message: string, command: string): CheckResult {
    CheckResult(name, status, message, "", true, command)
  }

  /** The convention every probe follows: a fix is offered exactly when there is a command to run. */
  predicate FixConsistent(r: CheckResult) {
    r.fixAvailable <==> r.fixCommand != ""
  }

  datatype Category = Category(name: string, icon: string, results: seq<CheckResult>)

  /** Rich markup constants (StatusIcon and Colors). */
  const IconPass := "[bold green]✓[/]"
  const IconFail := "[bold red]✗[/]"
  const IconWarn := "[bold yellow]⚠[/]"
  const IconSkip := "[dim]○[/]"
  const ColorPass := "#2ECC71"
  const ColorFail := "#E74C3C"
  const ColorWarn := "#F39C12"
  const ColorSkip := "#95A5A6"
  const ColorError := "#E74C3C"

  /** `get_icon`: ERROR is drawn with the FAIL icon. */
  function Icon(s: CheckStatus): (icon: string)
    ensures icon == IconFail <==> s == Fail || s == Error
    ensures icon in {IconPass, IconFail, IconWarn, IconSkip}
  {
    match s
    case Pass => IconPass
    case Fail => IconFail
    case Warn => IconWarn
    case Skip => IconSkip
    case Error => IconFail
  }

  /** Two statuses share an icon (and a colour) exactly when both are FAIL or ERROR. */
  lemma IconsDistinguish(s: CheckStatus, t: CheckStatus)
    ensures Icon(s) == Icon(t) <==> s == t || (s in {Fail, Error} && t in {Fail, Error})
    ensures Color(s) == Color(t) <==> s == t || (s in {Fail, Error} && t in {Fail, Error})
  {
  }

  /** `get_color`: the ERROR colour has the same value as the FAIL colour. */
  function Color(s: CheckStatus): (color: string)
    ensures color == ColorFail <==> s == Fail || s == Error
    ensures color in {ColorPass, ColorFail, ColorWarn, ColorSkip}
  {
    match s
    case Pass => ColorPass
    case Fail => ColorFail
    case Warn => ColorWarn
    case Skip => ColorSkip
    case Error => ColorError
  }

  /** The statuses of a result list, in order. */
  function Statuses(rs: seq<CheckResult>): (ss: seq<CheckStatus>)
    ensures |ss| == |rs|
    ensures forall i :: 0 <= i < |rs| ==> ss[i] == rs[i].status
  {
    seq(|rs|, i requires 0 <= i < |rs| => rs[i].status)
  }

  /** Number of results carrying status `s`. */
  function CountOf(rs: seq<CheckResult>, s: CheckStatus): (n: nat)
    ensures n <= |rs|
    decreases |rs|
  {
    if |rs| == 0 then 0
    else (if rs[0].status == s then 1 else 0) + CountOf(rs[1..], s)
  }

  function Passed(c: Category): nat { CountOf(c.results, Pass) }
  function Failed(c: Category): nat { CountOf(c.results, Fail) }
  function Warnings(c: Category): nat { CountOf(c.results, Warn) }
  function Total(c: Category): nat { |c.results| }

  /** Each count is the multiplicity of its status in the multiset of statuses. */
  lemma {:induction false} CountIsMultiplicity(rs: seq<CheckResult>, s: CheckStatus)
    ensures CountOf(rs, s) == multiset(Statuses(rs))[s]
    decreases |rs|
  {
    if |rs| > 0 {
      CountIsMultiplicity(rs[1..], s);
      assert Statuses(rs) == [rs[0].status] + Statuses(rs[1..]);
    }
  }

  /** The five counts partition the results. */
  lemma {:induction false} CountsPartition(rs: seq<CheckResult>)
    ensures CountOf(rs, Pass) + CountOf(rs, Fail) + CountOf(rs, Warn)
            + CountOf(rs, Skip) + CountOf(rs, Error) == |rs|
    decreases |rs|
  {
    if |rs| > 0 {
      CountsPartition(rs[1..]);
    }
  }

  /** Some result carries `s` exactly when its count is positive. */
  lemma {:induction false} CountPositive(rs: seq<CheckResult>, s: CheckStatus)
    ensures CountOf(rs, s) > 0 <==> exists i :: 0 <= i < |rs| && rs[i].status == s
    decreases |rs|
  {
    if |rs| > 0 {
      CountPositive(rs[1..], s);
      if CountOf(rs[1..], s) > 0 {
        var i :| 0 <= i < |rs[1..]| && rs[1..][i].status == s;
        assert rs[i + 1].status == s;
      }
      if exists i :: 0 <= i < |rs| && rs[i].status == s {
        var i :| 0 <= i < |rs| && rs[i].status == s;
        if i > 0 { assert rs[1..][i - 1].status == s; }
      }
    }
  }

  /** Every result carries `s` exactly when the count is the full length. */
  lemma {:induction false} CountFull(rs: seq<CheckResult>, s: CheckStatus)
    ensures CountOf(rs, s) == |rs| <==> forall i :: 0 <= i < |rs| ==> rs[i].status == s
    decreases |rs|
  {
    if |rs| > 0 {
      CountFull(rs[1..], s);
      if forall i :: 0 <= i < |rs| ==> rs[i].status == s {
        assert forall i :: 0 <= i < |rs[1..]| ==> rs[1..][i].status == s by {
          forall i | 0 <= i < |rs[1..]| ensures rs[1..][i].status == s {
            assert rs[1..][i] == rs[i + 1];
          }
        }
      }
      if CountOf(rs, s) == |rs| {
        forall i | 0 <= i < |rs| ensures rs[i].status == s {
          if i > 0 { assert rs[i] == rs[1..][i - 1]; }
        }
      }
    }
  }

  /** `passed + failed + warnings <= total`: SKIP and ERROR results are counted by none of them. */
  lemma CountsBounded(c: Category)
    ensures Passed(c) + Failed(c) + Warnings(c) + CountOf(c.results, Skip) + CountOf(c.results, Error) == Total(c)
    ensures Passed(c) + Failed(c) + Warnings(c) <= Total(c)
  {
    CountsPartition(c.results);
  }

  /** What the results earn: a full point per PASS and half a point per WARN. */
  function Credit(c: Category): real {
    Passed(c) as real + 0.5 * Warnings(c) as real
  }

  /** `score`: (passed + warnings/2) / total * 100, and 100 for an empty category. */
  function Score(c: Category): (r: real)
    ensures 0.0 <= r <= 100.0
    ensures Total(c) == 0 ==> r == 100.0
    ensures Total(c) > 0 ==> r * (Total(c) as real) == 100.0 * Credit(c)
  {
    if Total(c) == 0 then 100.0
    else
      var t := Total(c) as real;
      var num := Credit(c);
      assert 0.0 <= num <= t by { CountsBounded(c); }
      Percent(num, t)
  }

  /** `num / t * 100` for a share `num` of a positive whole `t`. */
  function Percent(num: real, t: real): (r: real)
    requires 0.0 <= num <= t && t > 0.0
    ensures 0.0 <= r <= 100.0
    ensures r * t == 100.0 * num
    ensures r == 100.0 <==> num == t
  {
    ShareFacts(num, t);
    var q := num / t;
    assert (q * 100.0) * t == 100.0 * (q * t);
    q * 100.0
  }

  lemma MulStrict(a: real, b: real, t: real)
    requires a < b && t > 0.0
    ensures a * t < b * t
  {
  }

  lemma WholeShare(t: real)
    requires t > 0.0
    ensures t / t == 1.0
  {
  }

  /** A share of a whole lies in [0, 1] and is 1 only for the whole itself. */
  lemma ShareFacts(num: real, t: real)
    requires 0.0 <= num <= t && t > 0.0
    ensures 0.0 <= num / t <= 1.0
    ensures (num / t) * t == num
    ensures num / t == 1.0 <==> num == t
  {
    var q := num / t;
    assert q * t == num;
    if q > 1.0 {
      MulStrict(1.0, q, t);
      assert false;
    }
    if q < 0.0 {
      MulStrict(q, 0.0, t);
      assert false;
    }
    if num == t {
      WholeShare(t);
    }
  }

  /** A non-empty category scores 100 exactly when every result passed. */
  lemma ScorePerfect(c: Category)
    requires Total(c) > 0
    ensures Score(c) == 100.0 <==> forall i :: 0 <= i < |c.results| ==> c.results[i].status == Pass
  {
    CountsBounded(c);
    CountFull(c.results, Pass);
    assert Score(c) == Percent(Credit(c), Total(c) as real);
  }

  function R(s: CheckStatus): CheckResult { Plain("", s, "") }

  /** [PASS, PASS, WARN, FAIL, SKIP] scores (2 + 0.5) / 5 * 100 = 50. */
  lemma ScoreExampleMixed()
    ensures Score(Category("", "", [R(Pass), R(Pass), R(Warn), R(Fail), R(Skip)])) == 50.0
  {
    var rs := [R(Pass), R(Pass), R(Warn), R(Fail), R(Skip)];
    var c := Category("", "", rs);
    assert rs[1..][1..][1..][1..][1..] == [];
    assert Passed(c) == 2 && Warnings(c) == 1;
    assert Score(c) * 5.0 == 250.0;
  }

  /** Nine PASS and one SKIP score 90: a skipped check still costs its share. */
  lemma ScoreExampleSkip()
    ensures Score(Category("", "", [R(Pass), R(Pass), R(Pass), R(Pass), R(Pass),
                                    R(Pass), R(Pass), R(Pass), R(Pass), R(Skip)])) == 90.0
  {
    var rs := [R(Pass), R(Pass), R(Pass), R(Pass), R(Pass), R(Pass), R(Pass), R(Pass), R(Pass), R(Skip)];
    var c := Category("", "", rs);
    assert rs[1..][1..][1..][1..][1..][1..][1..][1..][1..][1..] == [];
    assert Passed(c) == 9 && Warnings(c) == 0;
    assert Score(c) * 10.0 == 900.0;
  }

  /** `overall_status`: the worst of FAIL, WARN, PASS; SKIP and ERROR never surface. */
  function OverallStatus(c: Category): (s: CheckStatus)
    ensures s == Fail <==> exists i :: 0 <= i < |c.results| && c.results[i].status == Fail
    ensures s == Warn <==> (exists i :: 0 <= i < |c.results| && c.results[i].status == Warn)
                           && !(exists i :: 0 <= i < |c.results| && c.results[i].status == Fail)
    ensures s != Skip && s != Error
  {
    CountPositive(c.results, Fail);
    CountPositive(c.results, Warn);
    if Failed(c) > 0 then Fail
    else if Warnings(c) > 0 then Warn
    else Pass
  }

  /** Counts, score and overall status see only the multiset of statuses, so reordering results changes none of them. */
  lemma PermutationInvariant(c1: Category, c2: Category)
    requires multiset(Statuses(c1.results)) == multiset(Statuses(c2.results))
    ensures Passed(c1) == Passed(c2) && Failed(c1) == Failed(c2) && Warnings(c1) == Warnings(c2)
    ensures Total(c1) == Total(c2)
    ensures Score(c1) == Score(c2)
    ensures OverallStatus(c1) == OverallStatus(c2)
  {
    CountIsMultiplicity(c1.results, Pass);
    CountIsMultiplicity(c2.results, Pass);
    CountIsMultiplicity(c1.results, Fail);
    CountIsMultiplicity(c2.results, Fail);
    CountIsMultiplicity(c1.results, Warn);
    CountIsMultiplicity(c2.results, Warn);
    assert |Statuses(c1.results)| == |multiset(Statuses(c1.results))|;
  }
}
