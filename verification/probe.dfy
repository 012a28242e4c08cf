/**
 * What the probes observe and how a checker's table of probes is run
 * (the `run_all_checks` loop shared by the four checker modules).
 */
module Probe {
  import opened Text
  import opened Status

  /** A probe either returned a result or raised an exception whose `str()` is `msg`. */
  datatype Attempt = Returned(result: CheckResult) | Raised(msg: string)

  /** The `(success, stdout + stderr)` pair a `_run_command` wrapper returns. */
  datatype CmdOut = CmdOut(ok: bool, out: string)

  /** A direct `subprocess.run`: it completed, the binary was missing, or it timed out. */
  datatype Proc = Completed(returncode: int, stdout: string, stderr: string) | NotFound | TimedOut

  /** Reading a file: it does not exist, reading it is refused, or its text. */
  datatype FileRead = Missing | Denied | Content(text: string)

  /** A numeric reading together with the text Python prints for it in a message. */
  datatype Reading = Reading(value: real, shown: string)

  /** A command looked up by name in a table of outcomes; an absent one failed with no output. */
  function Query(outcomes: map<string, CmdOut>, name: string): CmdOut {
    if name in outcomes then outcomes[name] else CmdOut(false, "")
  }

  /** `systemctl is-active` style: the command succeeded and said "active". */
  predicate Active(c: CmdOut) {
    c.ok && Contains(c.out, "active")
  }

  /** The text of the PermissionError a `read_text` of `path` raises. */
  function Denial(path: string): string {
    "[Errno 13] Permission denied: '" + path + "'"
  }

  /** The `except Exception` arm of `run_all_checks`: a raising probe becomes an ERROR result under its table name. */
  function Guard(name: string, a: Attempt): (r: CheckResult)
    ensures a.Returned? ==> r == a.result
    ensures a.Raised? ==> r.name == name && r.status == Error && !r.fixAvailable && r.fixCommand == ""
    ensures a.Raised? ==> r.message == "Check failed: " + a.msg
  {
    match a
    case Returned(res) => res
    case Raised(msg) => Plain(name, Error, "Check failed: " + msg)
  }

  /** Runs a table of probes in order; one result per entry. */
  function RunTable(names: seq<string>, attempts: seq<Attempt>): (rs: seq<CheckResult>)
    requires |names| == |attempts|
    ensures |rs| == |names|
    ensures forall i :: 0 <= i < |rs| ==> rs[i] == Guard(names[i], attempts[i])
    decreases |names|
  {
    if |names| == 0 then []
    else [Guard(names[0], attempts[0])] + RunTable(names[1..], attempts[1..])
  }

  /**
   * Isolation: whatever probe `j` does (raise or return anything), every other
   * entry of the table produces the same result.
   */
  lemma Isolation(names: seq<string>, attempts: seq<Attempt>, j: nat, other: Attempt)
    requires |names| == |attempts| && j < |attempts|
    ensures |RunTable(names, attempts[j := other])| == |RunTable(names, attempts)|
    ensures forall i :: 0 <= i < |names| && i != j ==>
              RunTable(names, attempts[j := other])[i] == RunTable(names, attempts)[i]
  {
  }

  /** The per-table guarantees each `run_all_checks` gives: names in table order and well-formed fixes. */
  predicate TableShaped(names: seq<string>, rs: seq<CheckResult>) {
    |rs| == |names|
    && (forall i :: 0 <= i < |rs| ==> rs[i].name == names[i])
    && (forall i :: 0 <= i < |rs| ==> FixConsistent(rs[i]))
  }

  /** What the runner needs from a table entry: a returned result is named after the entry and keeps fixes consistent. */
  predicate EntryShaped(name: string, a: Attempt) {
    a.Returned? ==> a.result.name == name && FixConsistent(a.result)
  }

  /** Every entry of `attempts` is shaped for the entry of `names` at its position. */
  predicate AllShaped(names: seq<string>, attempts: seq<Attempt>) {
    |names| == |attempts| && forall i :: 0 <= i < |attempts| ==> EntryShaped(names[i], attempts[i])
  }

  /** Shaped pieces of a table concatenate to a shaped table. */
  lemma AllShapedConcat(n1: seq<string>, a1: seq<Attempt>, n2: seq<string>, a2: seq<Attempt>)
    requires AllShaped(n1, a1) && AllShaped(n2, a2)
    ensures AllShaped(n1 + n2, a1 + a2)
  {
    forall i | 0 <= i < |a1 + a2| ensures EntryShaped((n1 + n2)[i], (a1 + a2)[i]) {
      if i >= |a1| {
        assert (n1 + n2)[i] == n2[i - |a1|] && (a1 + a2)[i] == a2[i - |a1|];
      }
    }
  }

  /** Three returned results, each named after its entry and keeping fixes consistent, form a shaped piece of a table. */
  lemma ShapedThree(names: seq<string>, r0: CheckResult, r1: CheckResult, r2: CheckResult)
    requires |names| == 3
    requires r0.name == names[0] && FixConsistent(r0)
    requires r1.name == names[1] && FixConsistent(r1)
    requires r2.name == names[2] && FixConsistent(r2)
    ensures AllShaped(names, [Returned(r0), Returned(r1), Returned(r2)])
  {
  }

  /** A table whose probes each name their result after their entry and keep fixes consistent yields a well-shaped category. */
  lemma RunTableShaped(names: seq<string>, attempts: seq<Attempt>)
    requires AllShaped(names, attempts)
    ensures TableShaped(names, RunTable(names, attempts))
  {
  }

  /** The ordering of verdicts along a threshold ladder. */
  function Rank(s: CheckStatus): nat {
    match s
    case Pass => 0
    case Skip => 0
    case Warn => 1
    case Fail => 2
    case Error => 2
  }

  /** `"\n".join(xs[:5])` style listings keep at most five names. */
  function FirstFive(xs: seq<string>): (r: seq<string>)
    ensures |r| <= 5 && |r| <= |xs|
    ensures r == xs[..|r|]
    ensures |xs| <= 5 ==> r == xs
  {
    if |xs| <= 5 then xs else xs[..5]
  }
}
