/**
 * The scripted executor the fixers and post-install steps run against.
 * Every `_run_command` takes the next outcome of a script and is recorded;
 * every `Confirm.ask` takes the next scripted answer. An exhausted script
 * fails with no output, and an exhausted answer list declines.
 */
module Exec {
  import opened Wrappers

  /** An argument vector, as passed to `subprocess.run`. */
  type Cmd = seq<string>

  /**
   * What running one command yields: its success, its combined output, and
   * the packages (or `@group`s) the package queries report as installed
   * afterwards that they did not before.
   */
  datatype Outcome = Outcome(ok: bool, out: string, adds: set<string>)

  /**
   * The system as the fixers see it: the scripted outcomes and answers, what
   * the package queries report as installed, the commands issued so far, and
   * how many outcomes and answers have been used (`ran`, `asked`).
   */
  datatype World = World(
    script: seq<Outcome>,
    answers: seq<bool>,
    installed: set<string>,
    issued: seq<Cmd>,
    ran: nat,
    asked: nat)

  const Exhausted := Outcome(false, "", {})

  /** The outcome the `k`-th command from now will get. */
  function Nth(w: World, k: nat): Outcome {
    if w.ran + k < |w.script| then w.script[w.ran + k] else Exhausted
  }

  /** The answer the `k`-th prompt from now will get. */
  predicate AnswerAt(w: World, k: nat) {
    w.asked + k < |w.answers| && w.answers[w.asked + k]
  }

  /** Only the record of issued commands and the two positions have moved (the installed set may grow). */
  predicate Moved(w: World, w': World, ran: nat, asked: nat) {
    w'.script == w.script && w'.answers == w.answers
    && w'.ran == w.ran + ran && w'.asked == w.asked + asked
  }

  /** `cmd = ["sudo"] + cmd`, the `sudo=True` branch of every `_run_command`. */
  function Sudo(c: Cmd): Cmd {
    ["sudo"] + c
  }

  /** A command's `(success, output)` pair and the world after it. */
  datatype Ran = Ran(ok: bool, out: string, w: World)

  /** Runs one command: it gets the next outcome and is recorded; no prompt is shown. */
  function Run(w: World, c: Cmd): (r: Ran)
    ensures r.ok == Nth(w, 0).ok && r.out == Nth(w, 0).out
    ensures r.w.issued == w.issued + [c]
    ensures Moved(w, r.w, 1, 0)
    ensures r.w.installed == w.installed + Nth(w, 0).adds
  {
    var o := Nth(w, 0);
    Ran(o.ok, o.out, w.(ran := w.ran + 1, installed := w.installed + o.adds, issued := w.issued + [c]))
  }

  /** A prompt's answer and the world after it. */
  datatype Asked = Asked(yes: bool, w: World)

  /** Shows one prompt: it gets the next answer; no command is issued. */
  function Ask(w: World): (r: Asked)
    ensures r.yes == AnswerAt(w, 0)
    ensures r.w == w.(asked := w.asked + 1)
  {
    Asked(AnswerAt(w, 0), w.(asked := w.asked + 1))
  }

  /** One `(description, command)` entry of a fixer's step list. */
  datatype Step = Step(desc: string, cmd: Cmd)

  function Cmds(steps: seq<Step>): (cs: seq<Cmd>)
    ensures |cs| == |steps|
    ensures forall i :: 0 <= i < |steps| ==> cs[i] == steps[i].cmd
  {
    seq(|steps|, i requires 0 <= i < |steps| => steps[i].cmd)
  }

  /** Where a step loop stopped (`None` when it ran to the end) and the output of its last command. */
  datatype Sequenced = Sequenced(failedAt: Option<nat>, out: string, w: World)

  /** How many commands a step loop issued. */
  function Issued(r: Sequenced, steps: seq<Step>): nat {
    if r.failedAt.Some? then r.failedAt.value + 1 else |steps|
  }

  /**
   * The `for desc, cmd in steps: ... if <fatal>: return` loop: runs the steps
   * in order and stops right after the first whose outcome `fatal` rejects.
   */
  function RunUntil(w: World, steps: seq<Step>, fatal: (string, Outcome) -> bool): (r: Sequenced)
    ensures r.failedAt.Some? ==> r.failedAt.value < |steps|
    decreases |steps|
  {
    if |steps| == 0 then Sequenced(None, "", w)
    else
      var first := Run(w, steps[0].cmd);
      if fatal(steps[0].desc, Nth(w, 0)) then
        Sequenced(Some(0), first.out, first.w)
      else
        var rest := RunUntil(first.w, steps[1..], fatal);
        var at := if rest.failedAt.Some? then Some(rest.failedAt.value + 1) else None;
        Sequenced(at, rest.out, rest.w)
  }

  /** The loop stops exactly at the first fatal outcome, reporting that command's output. */
  lemma {:induction false} RunUntilVerdict(w: World, steps: seq<Step>, fatal: (string, Outcome) -> bool)
    ensures var r := RunUntil(w, steps, fatal);
      r.failedAt.Some? ==>
        fatal(steps[r.failedAt.value].desc, Nth(w, r.failedAt.value)) && r.out == Nth(w, r.failedAt.value).out
    ensures var r := RunUntil(w, steps, fatal);
      forall i :: 0 <= i < |steps| && (r.failedAt.None? || i < r.failedAt.value) ==> !fatal(steps[i].desc, Nth(w, i))
    decreases |steps|
  {
    if |steps| > 0 && !fatal(steps[0].desc, Nth(w, 0)) {
      var first := Run(w, steps[0].cmd);
      RunUntilVerdict(first.w, steps[1..], fatal);
      var rest := RunUntil(first.w, steps[1..], fatal);
      forall i | 1 <= i < |steps| && (rest.failedAt.None? || i < rest.failedAt.value + 1)
        ensures !fatal(steps[i].desc, Nth(w, i))
      {
        assert steps[i] == steps[1..][i - 1] && Nth(w, i) == Nth(first.w, i - 1);
      }
    }
  }

  /**
   * The commands the loop issued are the first `Issued` commands of the step
   * list, so always a prefix of it; the script moves on by as many outcomes
   * and no prompt is shown.
   */
  lemma {:induction false} RunUntilEffect(w: World, steps: seq<Step>, fatal: (string, Outcome) -> bool)
    ensures var r := RunUntil(w, steps, fatal);
      r.w.issued == w.issued + Cmds(steps)[..Issued(r, steps)]
    ensures var r := RunUntil(w, steps, fatal);
      Moved(w, r.w, Issued(r, steps), 0)
    decreases |steps|
  {
    if |steps| > 0 && !fatal(steps[0].desc, Nth(w, 0)) {
      var first := Run(w, steps[0].cmd);
      RunUntilEffect(first.w, steps[1..], fatal);
      var rest := RunUntil(first.w, steps[1..], fatal);
      var n := Issued(rest, steps[1..]);
      assert Issued(RunUntil(w, steps, fatal), steps) == n + 1;
      assert Cmds(steps)[..n + 1] == [steps[0].cmd] + Cmds(steps[1..])[..n];
    }
  }

  /** A loop whose `k`-th outcome is the first fatal one stops exactly there. */
  lemma RunUntilFirst(w: World, steps: seq<Step>, fatal: (string, Outcome) -> bool, k: nat)
    requires k < |steps| && fatal(steps[k].desc, Nth(w, k))
    requires forall i :: 0 <= i < k ==> !fatal(steps[i].desc, Nth(w, i))
    ensures RunUntil(w, steps, fatal).failedAt == Some(k)
  {
    RunUntilVerdict(w, steps, fatal);
  }

  /** A loop runs to the end exactly when no outcome is fatal. */
  lemma RunUntilCompletes(w: World, steps: seq<Step>, fatal: (string, Outcome) -> bool)
    ensures RunUntil(w, steps, fatal).failedAt.None? <==>
              forall i :: 0 <= i < |steps| ==> !fatal(steps[i].desc, Nth(w, i))
  {
    RunUntilVerdict(w, steps, fatal);
  }

  /** What a run-everything loop saw: each command's success, in order. */
  datatype Batch = Batch(oks: seq<bool>, w: World)

  /** Runs every command in order whatever the outcomes. */
  function RunAll(w: World, cmds: seq<Cmd>): (r: Batch)
    ensures |r.oks| == |cmds|
    ensures forall i :: 0 <= i < |cmds| ==> r.oks[i] == Nth(w, i).ok
    ensures r.w.issued == w.issued + cmds
    ensures Moved(w, r.w, |cmds|, 0)
    decreases |cmds|
  {
    if |cmds| == 0 then Batch([], w)
    else
      var first := Run(w, cmds[0]);
      var rest := RunAll(first.w, cmds[1..]);
      assert cmds == [cmds[0]] + cmds[1..];
      Batch([first.ok] + rest.oks, rest.w)
  }
}
