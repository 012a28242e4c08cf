/**
 * The health fixer (fedchecker/fixes/health_fix.py): disk cleanup, failed
 * units, package-manager repair, orphan removal and swap creation, each
 * against the scripted executor.
 */
module HealthFix {
  import opened Wrappers
  import opened Text
  import opened Status
  import opened Exec
  import opened Fix

  const DiskSteps: seq<Step> := [
    Step("Cleaning DNF cache", Sudo(["dnf", "clean", "all"])),
    Step("Removing orphaned packages", Sudo(["dnf", "autoremove", "-y"])),
    Step("Cleaning old kernels", Sudo(["dnf", "remove", "--oldinstallonly", "-y"])),
    Step("Cleaning journal logs", Sudo(["journalctl", "--vacuum-time=7d"]))
  ]

  function Descs(steps: seq<Step>): (ds: seq<string>)
    ensures |ds| == |steps| && forall i :: 0 <= i < |steps| ==> ds[i] == steps[i].desc
  {
    seq(|steps|, i requires 0 <= i < |steps| => steps[i].desc)
  }

  /**
   * `fix_disk_space`: all four steps run whatever their outcomes; the fix
   * succeeds iff none failed, and a partial run reports how many completed.
   */
  function FixDiskSpace(w: World): (f: Fixed)
    ensures f.w.issued == w.issued + Cmds(DiskSteps) && f.w.asked == w.asked
    ensures f.result.success <==> forall i :: 0 <= i < 4 ==> Nth(w, i).ok
    ensures !f.result.success ==>
              Trues(Oks(w, 4)) < 4
              && f.result.message == "Partial cleanup: " + NatStr(Trues(Oks(w, 4))) + "/4 steps completed"
    ensures f.result.success ==> f.result.message == "Disk cleanup completed"
  {
    var b := RunAll(w, Cmds(DiskSteps));
    assert b.oks == Oks(w, 4);
    var cleaned := Chosen(Descs(DiskSteps), b.oks, true);
    var failed := Chosen(Descs(DiskSteps), b.oks, false);
    ChosenCounts(Descs(DiskSteps), b.oks);
    TruesAll(b.oks);
    if |failed| > 0 then
      Fixed(FixResult(false, "Partial cleanup: " + NatStr(|cleaned|) + "/4 steps completed",
                      "Failed: " + CommaList(failed), false), b.w)
    else
      Fixed(FixResult(true, "Disk cleanup completed", "Completed: " + CommaList(cleaned), false), b.w)
  }

  /** `fix_failed_units`: one `systemctl reset-failed`, whose success is the fix's. */
  function FixFailedUnits(w: World): (f: Fixed)
    ensures f.w.issued == w.issued + [Sudo(["systemctl", "reset-failed"])]
    ensures f.result.success == Nth(w, 0).ok
    ensures !f.result.success ==> f.result.details == Nth(w, 0).out
  {
    var c := Exec.Run(w, Sudo(["systemctl", "reset-failed"]));
    if c.ok then Fixed(Simple(true, "Failed units reset"), c.w)
    else Fixed(FixResult(false, "Failed to reset units", c.out, false), c.w)
  }

  const DnfSteps: seq<Step> := [
    Step("Rebuilding RPM database", Sudo(["rpm", "--rebuilddb"])),
    Step("Cleaning DNF cache", Sudo(["dnf", "clean", "all"])),
    Step("Checking for problems", Sudo(["dnf", "check"])),
    Step("Syncing distribution", Sudo(["dnf", "distro-sync", "-y"]))
  ]


  /**
   * `fix_dnf_issues`: the steps run until one fails; a failure names the
   * step and keeps at most 500 characters of its output.
   */
  function FixDnfIssues(w: World): (f: Fixed)
    ensures |f.result.details| <= 500
  {
    var s := RunUntil(w, DnfSteps, AnyFailure);
    match s.failedAt
    case Some(k) =>
      Fixed(FixResult(false, "Failed at: " + DnfSteps[k].desc, Take(s.out, 500), false), s.w)
    case None =>
      Fixed(Simple(true, "Package manager issues fixed"), s.w)
  }

  /** The repair succeeds exactly when all four steps do, and then it has issued all four. */
  lemma DnfIssuesSucceeds(w: World)
    ensures FixDnfIssues(w).result.success <==> forall i :: 0 <= i < 4 ==> Nth(w, i).ok
    ensures FixDnfIssues(w).result.success ==> FixDnfIssues(w).w.issued == w.issued + Cmds(DnfSteps)
  {
    RunUntilCompletes(w, DnfSteps, AnyFailure);
    RunUntilEffect(w, DnfSteps, AnyFailure);
  }

  /**
   * At the first failing step the repair stops: it reports that step and at
   * most 500 characters of its output, and has issued only the steps up to it.
   */
  lemma DnfIssuesStops(w: World, k: nat)
    requires k < 4 && FirstFailure(w, k)
    ensures FixDnfIssues(w).result.message == "Failed at: " + DnfSteps[k].desc
    ensures FixDnfIssues(w).result.details == Take(Nth(w, k).out, 500)
    ensures FixDnfIssues(w).w.issued == w.issued + Cmds(DnfSteps)[..k + 1]
  {
    RunUntilFirst(w, DnfSteps, AnyFailure, k);
    RunUntilVerdict(w, DnfSteps, AnyFailure);
    RunUntilEffect(w, DnfSteps, AnyFailure);
  }

  /** `output[-500:] if len(output) > 500 else output` */
  function Tail(s: string, n: nat): (r: string)
    ensures |r| <= n && |r| <= |s|
    ensures r == s[|s| - |r|..]
    ensures |s| <= n ==> r == s
  {
    if |s| > n then s[|s| - n..] else s
  }

  /** `fix_orphaned_packages`: success is `dnf autoremove`'s, keeping the last 500 characters of its output. */
  function FixOrphanedPackages(w: World): (f: Fixed)
    ensures f.w.issued == w.issued + [Sudo(["dnf", "autoremove", "-y"])]
    ensures f.result.success == Nth(w, 0).ok
    ensures f.result.success ==> f.result.details == Tail(Nth(w, 0).out, 500) && |f.result.details| <= 500
    ensures !f.result.success ==> f.result.details == Nth(w, 0).out
  {
    var c := Exec.Run(w, Sudo(["dnf", "autoremove", "-y"]));
    if c.ok then Fixed(FixResult(true, "Removed orphaned packages", Tail(c.out, 500), false), c.w)
    else Fixed(FixResult(false, "Failed to remove orphaned packages", c.out, false), c.w)
  }

  const SwapFile := "/swapfile"

  function SwapSteps(sizeGb: nat): seq<Step> {
    [
      Step("Allocating space", Sudo(["fallocate", "-l", NatStr(sizeGb) + "G", SwapFile])),
      Step("Setting permissions", Sudo(["chmod", "600", SwapFile])),
      Step("Formatting swap", Sudo(["mkswap", SwapFile])),
      Step("Enabling swap", Sudo(["swapon", SwapFile]))
    ]
  }

  const SwapCleanup: Cmd := Sudo(["rm", "-f", SwapFile])

  /** The sudo fallback used when appending to `/etc/fstab` raises PermissionError. */
  const FstabFallback: Cmd := Sudo(["bash", "-c", "echo '" + SwapFile + " none swap sw 0 0' >> /etc/fstab"])

  /**
   * `create_swap`: an existing swap file fails before any command; the steps
   * run until one fails, which is followed by removing the file; otherwise the
   * fstab entry is appended (through sudo when the file is not writable).
   */
  function CreateSwap(w: World, swapExists: bool, fstabWritable: bool, sizeGb: nat): (f: Fixed)
    ensures swapExists ==> !f.result.success && f.w == w
    ensures f.result.success ==> f.result.message == "Created " + NatStr(sizeGb) + "GB swap file"
  {
    if swapExists then
      Fixed(FixResult(false, "Swap file already exists", "Remove /swapfile first if you want to recreate it", false), w)
    else
      var steps := SwapSteps(sizeGb);
      var s := RunUntil(w, steps, AnyFailure);
      match s.failedAt
      case Some(k) =>
        var c := Exec.Run(s.w, SwapCleanup);
        Fixed(FixResult(false, "Failed at: " + steps[k].desc, s.out, false), c.w)
      case None =>
        var w2 := if fstabWritable then s.w else Exec.Run(s.w, FstabFallback).w;
        Fixed(FixResult(true, "Created " + NatStr(sizeGb) + "GB swap file",
                        "Swap is now active and will persist across reboots", false), w2)
  }

  /** Creation succeeds exactly when no swap file exists and all four steps succeed; then all four ran, plus the fstab fallback when needed. */
  lemma SwapSucceeds(w: World, swapExists: bool, fstabWritable: bool, sizeGb: nat)
    ensures CreateSwap(w, swapExists, fstabWritable, sizeGb).result.success <==>
              !swapExists && forall i :: 0 <= i < 4 ==> Nth(w, i).ok
    ensures CreateSwap(w, swapExists, fstabWritable, sizeGb).result.success ==>
              CreateSwap(w, swapExists, fstabWritable, sizeGb).w.issued ==
                w.issued + Cmds(SwapSteps(sizeGb)) + (if fstabWritable then [] else [FstabFallback])
  {
    RunUntilCompletes(w, SwapSteps(sizeGb), AnyFailure);
    RunUntilEffect(w, SwapSteps(sizeGb), AnyFailure);
  }

  /** A failing step is followed by exactly one removal of the swap file, and nothing else. */
  lemma SwapCleansUp(w: World, fstabWritable: bool, sizeGb: nat, k: nat)
    requires k < 4 && FirstFailure(w, k)
    ensures !CreateSwap(w, false, fstabWritable, sizeGb).result.success
    ensures CreateSwap(w, false, fstabWritable, sizeGb).result.message == "Failed at: " + SwapSteps(sizeGb)[k].desc
    ensures CreateSwap(w, false, fstabWritable, sizeGb).w.issued ==
              w.issued + Cmds(SwapSteps(sizeGb))[..k + 1] + [SwapCleanup]
  {
    RunUntilFirst(w, SwapSteps(sizeGb), AnyFailure, k);
    RunUntilEffect(w, SwapSteps(sizeGb), AnyFailure);
  }

  /** The `fix_map` of `apply_fix`; `create_swap` runs with its default size of 4 GB. */
  function Handler(name: string, swapExists: bool, fstabWritable: bool): (h: Option<Fix.Handler>)
    ensures h.Some? <==> name in {"Disk Space", "Failed Systemd Units", "Package Manager", "Orphaned Packages", "Swap Space"}
  {
    if name == "Disk Space" then Some(FixDiskSpace)
    else if name == "Failed Systemd Units" then Some(FixFailedUnits)
    else if name == "Package Manager" then Some(FixDnfIssues)
    else if name == "Orphaned Packages" then Some(FixOrphanedPackages)
    else if name == "Swap Space" then Some((w: World) => CreateSwap(w, swapExists, fstabWritable, 4))
    else None
  }

  /** `HealthFixer.apply_fix` */
  function ApplyFix(w: World, r: CheckResult, swapExists: bool, fstabWritable: bool): (a: Applied)
    ensures !r.fixAvailable ==> a == Applied(None, w)
    ensures r.fixAvailable && r.name == "Swap Space" && AnswerAt(w, 0) ==>
              a.result == Some(CreateSwap(Ask(w).w, swapExists, fstabWritable, 4).result)
    ensures r.fixAvailable && r.name == "Package Manager" && AnswerAt(w, 0) ==>
              a.result == Some(FixDnfIssues(Ask(w).w).result)
    ensures r.fixAvailable && r.name == "Disk Space" && AnswerAt(w, 0) ==>
              a.result == Some(FixDiskSpace(Ask(w).w).result)
  {
    Fix.ApplyFix(w, r, Handler(r.name, swapExists, fstabWritable))
  }
}
