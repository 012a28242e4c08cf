/**
 * What the four fixer classes share: the `FixResult` record and the
 * `apply_fix` dispatch (no fix offered, then a confirmed handler, then a
 * confirmed generic command, else nothing).
 */
module Fix {
  import opened Wrappers
  import Text
  import opened Status
  import opened Exec

  /** The outcome of one fix operation. */
  datatype FixResult = FixResult(success: bool, message: string, details: string, requiresReboot: bool)

  /** A fix result with the dataclass defaults for `details` and `requires_reboot`. */
  function Simple(success: bool, message: string): FixResult {
    FixResult(success, message, "", false)
  }

  /** A fix's result and the world after it. */
  datatype Fixed = Fixed(result: FixResult, w: World)

  /** What `apply_fix` returns (`None` or a result) and the world after it. */
  datatype Applied = Applied(result: Option<FixResult>, w: World)

  /** A bound fixer method such as `self.fix_disk_space`. */
  type Handler = World -> Fixed

  /** The argv of the generic branch: the check's command through `bash -c` under sudo. */
  function FixCommandArgv(command: string): Cmd {
    Sudo(["bash", "-c", command])
  }

  /** The generic branch: runs the check's own command; success is that command's success. */
  function RunFixCommand(w: World, command: string): (f: Fixed)
    ensures f.result.success == Nth(w, 0).ok && f.result.details == Nth(w, 0).out
    ensures f.result.message == (if Nth(w, 0).ok then "Fix applied" else "Fix failed")
    ensures !f.result.requiresReboot
    ensures f.w.issued == w.issued + [FixCommandArgv(command)] && f.w.asked == w.asked
  {
    var c := Run(w, FixCommandArgv(command));
    Fixed(FixResult(c.ok, if c.ok then "Fix applied" else "Fix failed", c.out, false), c.w)
  }

  /** The second prompt: offers the check's own command when it has one. */
  function OfferCommand(w: World, r: CheckResult): (a: Applied)
    ensures a.result.Some? <==> r.fixCommand != "" && AnswerAt(w, 0)
    ensures a.result.Some? ==> a.result == Some(RunFixCommand(Ask(w).w, r.fixCommand).result)
    ensures a.result.None? ==> a.w.issued == w.issued
  {
    if r.fixCommand == "" then Applied(None, w)
    else
      var q := Ask(w);
      if q.yes then
        var f := RunFixCommand(q.w, r.fixCommand);
        Applied(Some(f.result), f.w)
      else Applied(None, q.w)
  }

  /**
   * `apply_fix`: nothing at all happens unless the result offers a fix; a
   * handler for the check's name is offered first and, when accepted, its
   * result is returned; otherwise the generic command is offered.
   */
  function ApplyFix(w: World, r: CheckResult, handler: Option<Handler>): (a: Applied)
    ensures !r.fixAvailable ==> a == Applied(None, w)
    ensures r.fixAvailable && handler.Some? && AnswerAt(w, 0) ==>
              a == Applied(Some(handler.value(Ask(w).w).result), handler.value(Ask(w).w).w)
    ensures r.fixAvailable && handler.None? ==> a == OfferCommand(w, r)
    ensures r.fixAvailable && handler.Some? && !AnswerAt(w, 0) ==> a == OfferCommand(Ask(w).w, r)
  {
    if !r.fixAvailable then Applied(None, w)
    else if handler.Some? then
      var q := Ask(w);
      if q.yes then
        var f := handler.value(q.w);
        Applied(Some(f.result), f.w)
      else OfferCommand(q.w, r)
    else OfferCommand(w, r)
  }

  /** Declining every prompt returns `None` and issues no command. */
  lemma DecliningRunsNothing(w: World, r: CheckResult, handler: Option<Handler>)
    requires !AnswerAt(w, 0) && !AnswerAt(w, 1)
    ensures ApplyFix(w, r, handler).result.None?
    ensures ApplyFix(w, r, handler).w.issued == w.issued
  {
    if r.fixAvailable && handler.Some? {
      assert !AnswerAt(Ask(w).w, 0);
    }
  }

  /** Accepting the generic command runs exactly that command, and the fix succeeds iff it does. */
  lemma GenericCommandMirrors(w: World, r: CheckResult, handler: Option<Handler>)
    requires r.fixAvailable && r.fixCommand != ""
    requires handler.None? && AnswerAt(w, 0)
    ensures ApplyFix(w, r, handler).result.Some?
    ensures ApplyFix(w, r, handler).result.value.success == Nth(w, 0).ok
    ensures ApplyFix(w, r, handler).w.issued == w.issued + [FixCommandArgv(r.fixCommand)]
  {
  }

  /** A single package install whose success is the fix's; the failure keeps the output. */
  function InstallPackages(w: World, packages: seq<string>, ok: FixResult, failure: string): (f: Fixed)
    ensures f.w.issued == w.issued + [Sudo(["dnf", "install", "-y"] + packages)]
    ensures Moved(w, f.w, 1, 0)
    ensures f.result == (if Nth(w, 0).ok then ok else FixResult(false, failure, Nth(w, 0).out, false))
  {
    var c := Run(w, Sudo(["dnf", "install", "-y"] + packages));
    Fixed(if c.ok then ok else FixResult(false, failure, c.out, false), c.w)
  }

  /** How many of `oks` are true: the `len(cleaned)` / `len(fixed)` of a run-everything loop. */
  function Trues(oks: seq<bool>): (n: nat)
    ensures n <= |oks|
  {
    if |oks| == 0 then 0 else (if oks[0] then 1 else 0) + Trues(oks[1..])
  }

  /** Every entry is true exactly when all of them count. */
  lemma {:induction false} TruesAll(oks: seq<bool>)
    ensures Trues(oks) == |oks| <==> forall i :: 0 <= i < |oks| ==> oks[i]
  {
    if |oks| > 0 {
      TruesAll(oks[1..]);
      assert forall i :: 1 <= i < |oks| ==> oks[i] == oks[1..][i - 1];
    }
  }

  /** The descriptions whose success flag equals `want`, in order (`cleaned` or `failed`). */
  function Chosen(descs: seq<string>, oks: seq<bool>, want: bool): (r: seq<string>)
    requires |descs| == |oks|
    ensures |r| <= |descs|
  {
    if |descs| == 0 then []
    else (if oks[0] == want then [descs[0]] else []) + Chosen(descs[1..], oks[1..], want)
  }

  /** The successful steps number `Trues`, and the two lists split the steps between them. */
  lemma {:induction false} ChosenCounts(descs: seq<string>, oks: seq<bool>)
    requires |descs| == |oks|
    ensures |Chosen(descs, oks, true)| == Trues(oks)
    ensures |Chosen(descs, oks, true)| + |Chosen(descs, oks, false)| == |descs|
  {
    if |descs| > 0 {
      ChosenCounts(descs[1..], oks[1..]);
    }
  }

  /** `", ".join(xs)` */
  function CommaList(xs: seq<string>): string {
    Text.Join(xs, ", ")
  }

  /** The success flags of the next `n` commands. */
  function Oks(w: World, n: nat): (oks: seq<bool>)
    ensures |oks| == n && forall i :: 0 <= i < n ==> oks[i] == Nth(w, i).ok
  {
    seq(n, i requires 0 <= i < n => Nth(w, i).ok)
  }

  /** The success flags of the `n` commands that follow the next `from`. */
  function OksFrom(w: World, from: nat, n: nat): (oks: seq<bool>)
    ensures |oks| == n && forall i :: 0 <= i < n ==> oks[i] == Nth(w, from + i).ok
  {
    seq(n, i requires 0 <= i < n => Nth(w, from + i).ok)
  }

  /** A run-everything loop sees exactly the next outcomes' success flags. */
  lemma RunAllOks(w: World, cmds: seq<Cmd>)
    ensures RunAll(w, cmds).oks == Oks(w, |cmds|)
  {
  }

  /** After `k` commands, the upcoming outcomes are the ones `k` further along the original script. */
  lemma OksMoved(w: World, w': World, k: nat, n: nat)
    requires Moved(w, w', k, 0)
    ensures Oks(w', n) == OksFrom(w, k, n)
  {
  }

  /** A step loop's fatal condition when any failure aborts. */
  predicate AnyFailure(desc: string, o: Exec.Outcome) {
    !o.ok
  }

  /** The steps that would fail and the first of them, for stating step-loop outcomes. */
  predicate FirstFailure(w: World, k: nat) {
    !Nth(w, k).ok && forall i :: 0 <= i < k ==> Nth(w, i).ok
  }
}
