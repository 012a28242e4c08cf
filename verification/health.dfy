/**
 * The system health checker (fedchecker/checks/health.py): ten probes over
 * psutil readings and command outputs, each a threshold ladder.
 */
module Health {
  import opened Wrappers
  import opened Text
  import opened Status
  import opened Probe

  /** The probe table of `run_all_checks`, in four groups. */
  const Names1: seq<string> := ["Disk Space", "Memory Usage", "CPU Temperature"]
  const Names2: seq<string> := ["Swap Space", "Failed Systemd Units", "System Load"]
  const Names3: seq<string> := ["Zombie Processes", "Package Manager"]
  const Names4: seq<string> := ["Journal Errors", "Orphaned Packages"]
  const Names: seq<string> := Names1 + Names2 + Names3 + Names4

  const HealthIcon := "[bold green]🏥[/]"
  const DiskFix := "dnf autoremove && dnf clean all"
  const SwapFix := "fallocate -l 4G /swapfile && chmod 600 /swapfile && mkswap /swapfile && swapon /swapfile"
  const UnitsFix := "systemctl reset-failed"
  const DnfFix := "dnf check && dnf distro-sync"
  const OrphansFix := "dnf autoremove"

  // ---------------------------------------------------------------- disk

  /** A mounted partition; `usage` is None when reading its usage raises PermissionError. */
  datatype Partition = Partition(fstype: string, mountpoint: string, usage: Option<Reading>)

  /** Only real file systems outside /snap are looked at. */
  predicate Considered(p: Partition) {
    p.fstype != "" && !StartsWith(p.mountpoint, "/snap")
  }

  predicate IsCritical(p: Partition) {
    Considered(p) && p.usage.Some? && p.usage.value.value >= 95.0
  }

  predicate IsNearlyFull(p: Partition) {
    Considered(p) && p.usage.Some? && 85.0 <= p.usage.value.value < 95.0
  }

  function UsageLine(p: Partition): string
    requires p.usage.Some?
  {
    p.mountpoint + ": " + p.usage.value.shown + "% used"
  }

  /** Lines for the critical partitions, in partition order. */
  function CriticalLines(ps: seq<Partition>): (ls: seq<string>)
    ensures |ls| <= |ps|
    ensures |ls| > 0 <==> exists i :: 0 <= i < |ps| && IsCritical(ps[i])
    decreases |ps|
  {
    if |ps| == 0 then []
    else
      var rest := CriticalLines(ps[1..]);
      assert forall i :: 1 <= i < |ps| ==> ps[i] == ps[1..][i - 1];
      if IsCritical(ps[0]) then [UsageLine(ps[0])] + rest else rest
  }

  /** Lines for the partitions between 85% and 95%, in partition order. */
  function NearlyFullLines(ps: seq<Partition>): (ls: seq<string>)
    ensures |ls| <= |ps|
    ensures |ls| > 0 <==> exists i :: 0 <= i < |ps| && IsNearlyFull(ps[i])
    decreases |ps|
  {
    if |ps| == 0 then []
    else
      var rest := NearlyFullLines(ps[1..]);
      assert forall i :: 1 <= i < |ps| ==> ps[i] == ps[1..][i - 1];
      if IsNearlyFull(ps[0]) then [UsageLine(ps[0])] + rest else rest
  }

  /** `check_disk_space` */
  function DiskSpace(ps: seq<Partition>, root: Reading): (r: CheckResult)
    ensures r.name == "Disk Space" && FixConsistent(r)
    ensures r.status == Fail <==> exists i :: 0 <= i < |ps| && IsCritical(ps[i])
    ensures r.status == Warn <==> (exists i :: 0 <= i < |ps| && IsNearlyFull(ps[i]))
                                  && !(exists i :: 0 <= i < |ps| && IsCritical(ps[i]))
    ensures r.status in {Pass, Warn, Fail}
    ensures r.fixAvailable <==> r.status != Pass
    ensures r.fixAvailable ==> r.fixCommand == DiskFix
  {
    var critical := CriticalLines(ps);
    var warnings := NearlyFullLines(ps);
    if |critical| > 0 then
      CheckResult("Disk Space", Fail, "Critical: " + NatStr(|critical|) + " partition(s) nearly full",
                  Join(critical + warnings, "\n"), true, DiskFix)
    else if |warnings| > 0 then
      CheckResult("Disk Space", Warn, "Warning: " + NatStr(|warnings|) + " partition(s) above 85%",
                  Join(warnings, "\n"), true, DiskFix)
    else
      Plain("Disk Space", Pass, "Root partition: " + root.shown + "% used")
  }

  /** Filling a partition further never improves the disk verdict. */
  lemma DiskMonotone(ps: seq<Partition>, j: nat, v: Reading, root: Reading)
    requires j < |ps| && ps[j].usage.Some? && ps[j].usage.value.value <= v.value
    ensures Rank(DiskSpace(ps, root).status) <= Rank(DiskSpace(ps[j := ps[j].(usage := Some(v))], root).status)
  {
    var qs := ps[j := ps[j].(usage := Some(v))];
    if exists i :: 0 <= i < |ps| && IsCritical(ps[i]) {
      var i :| 0 <= i < |ps| && IsCritical(ps[i]);
      assert IsCritical(qs[i]);
    } else if exists i :: 0 <= i < |ps| && IsNearlyFull(ps[i]) {
      var i :| 0 <= i < |ps| && IsNearlyFull(ps[i]);
      assert IsCritical(qs[i]) || IsNearlyFull(qs[i]);
    }
  }

  // ---------------------------------------------------------------- memory

  /** `check_memory`: `available` is the free amount as printed in GB. */
  function Memory(percent: Reading, available: string): (r: CheckResult)
    ensures r.name == "Memory Usage" && !r.fixAvailable && r.fixCommand == ""
    ensures r.status == Fail <==> percent.value >= 95.0
    ensures r.status == Warn <==> 85.0 <= percent.value < 95.0
    ensures r.status == Pass <==> percent.value < 85.0
  {
    if percent.value >= 95.0 then
      CheckResult("Memory Usage", Fail, "Critical: " + percent.shown + "% RAM used",
                  "Only " + available + " GB available", false, "")
    else if percent.value >= 85.0 then
      CheckResult("Memory Usage", Warn, "Warning: " + percent.shown + "% RAM used",
                  available + " GB available", false, "")
    else
      Plain("Memory Usage", Pass, percent.shown + "% used (" + available + " GB free)")
  }

  // ---------------------------------------------------------------- temperature

  /** `psutil.sensors_temperatures()`: it raised, or the readings grouped by sensor. */
  datatype Sensors = Unreadable | Sensors(groups: seq<seq<Reading>>)

  /** The running maximum of the loop, which starts at 0 and keeps the first of equal maxima. */
  function MaxFrom(cur: Reading, es: seq<Reading>): (m: Reading)
    ensures m.value >= cur.value
    ensures forall k :: 0 <= k < |es| ==> m.value >= es[k].value
    ensures m == cur || m in es
    decreases |es|
  {
    if |es| == 0 then cur
    else MaxFrom(if es[0].value > cur.value then es[0] else cur, es[1..])
  }

  function Flatten(groups: seq<seq<Reading>>): (es: seq<Reading>)
    ensures forall g, k :: 0 <= g < |groups| && 0 <= k < |groups[g]| ==> groups[g][k] in es
    ensures forall e :: e in es ==> exists g :: 0 <= g < |groups| && e in groups[g]
    decreases |groups|
  {
    if |groups| == 0 then [] else groups[0] + Flatten(groups[1..])
  }

  const Zero := Reading(0.0, "0")

  /** `check_cpu_temperature` */
  function CpuTemperature(s: Sensors): (r: CheckResult)
    ensures r.name == "CPU Temperature" && !r.fixAvailable && r.fixCommand == ""
    ensures r.status == Skip <==> s.Unreadable? || |s.groups| == 0
    ensures s.Sensors? ==>
              (r.status == Fail <==> |s.groups| > 0 && exists g, k :: 0 <= g < |s.groups| && 0 <= k < |s.groups[g]|
                                                          && s.groups[g][k].value >= 90.0)
    ensures r.status in {Pass, Warn, Fail, Skip}
  {
    match s
    case Unreadable => Plain("CPU Temperature", Skip, "Unable to read temperature")
    case Sensors(groups) =>
      if |groups| == 0 then Plain("CPU Temperature", Skip, "Temperature sensors not available")
      else
        var es := Flatten(groups);
        var m := MaxFrom(Zero, es);
        if m.value >= 90.0 then
          assert m in es;
          CheckResult("CPU Temperature", Fail, "Critical: " + m.shown + "°C", "CPU is overheating!", false, "")
        else if m.value >= 75.0 then
          CheckResult("CPU Temperature", Warn, "Warning: " + m.shown + "°C", "CPU temperature is high", false, "")
        else
          Plain("CPU Temperature", Pass, m.shown + "°C")
  }

  /** The verdict is decided by the hottest reading, and readings at or below 0 count as 0. */
  lemma TemperatureLadder(groups: seq<seq<Reading>>)
    requires |groups| > 0
    ensures var m := MaxFrom(Zero, Flatten(groups));
            var r := CpuTemperature(Sensors(groups));
            (r.status == Warn <==> 75.0 <= m.value < 90.0) && (r.status == Pass <==> m.value < 75.0)
            && m.value >= 0.0
  {
    var es := Flatten(groups);
    var m := MaxFrom(Zero, es);
    assert m.value >= Zero.value;
    var r := CpuTemperature(Sensors(groups));
    assert r.status == (if m.value >= 90.0 then Fail else if m.value >= 75.0 then Warn else Pass);
  }

  // ---------------------------------------------------------------- swap

  /** `check_swap`: `total` in bytes, `size` the printed size in GB. */
  function Swap(total: nat, percent: Reading, size: string): (r: CheckResult)
    ensures r.name == "Swap Space" && FixConsistent(r)
    ensures total == 0 ==> r.status == Warn && r.fixAvailable && r.fixCommand == SwapFix
    ensures total > 0 ==> !r.fixAvailable
    ensures total > 0 ==> (r.status == Warn <==> percent.value >= 80.0)
    ensures r.status in {Pass, Warn}
  {
    if total == 0 then
      CheckResult("Swap Space", Warn, "No swap configured", "Consider adding swap for stability", true, SwapFix)
    else if percent.value >= 80.0 then
      CheckResult("Swap Space", Warn, "Swap " + percent.shown + "% used", size + " GB total swap", false, "")
    else
      Plain("Swap Space", Pass, size + " GB configured, " + percent.shown + "% used")
  }

  // ---------------------------------------------------------------- failed units

  /** `[line.split()[0] for line in lines]`: None when some line has no token (IndexError). */
  function FirstTokens(lines: seq<string>): (us: Option<seq<string>>)
    ensures us.None? <==> exists i :: 0 <= i < |lines| && FirstField(lines[i]).None?
    ensures us.Some? ==> |us.value| == |lines|
    ensures us.Some? ==> forall i :: 0 <= i < |lines| ==> FirstField(lines[i]) == Some(us.value[i])
    decreases |lines|
  {
    if |lines| == 0 then Some([])
    else
      var f := FirstField(lines[0]);
      if f.None? then None
      else
        var rest := FirstTokens(lines[1..]);
        assert forall i :: 1 <= i < |lines| ==> lines[i] == lines[1..][i - 1];
        if rest.None? then None
        else Some([f.value] + rest.value)
  }

  /** The non-empty lines of the stripped `systemctl --failed` output. */
  function UnitLines(stdout: string): seq<string> {
    Filter(Split(Strip(stdout), '\n'))
  }

  const IndexErrorText := "list index out of range"
  const NoSystemctlText := "[Errno 2] No such file or directory: 'systemctl'"

  /** `check_failed_units`; only the timeout is caught, so a missing binary or a blank-looking line raises. */
  function FailedUnits(p: Proc): (a: Attempt)
    ensures p.NotFound? ==> a.Raised?
    ensures p.TimedOut? ==> a.Returned? && a.result.status == Skip
    ensures p.Completed? ==>
              (a.Raised? <==> exists i :: 0 <= i < |UnitLines(p.stdout)| && FirstField(UnitLines(p.stdout)[i]).None?)
    ensures p.Completed? && a.Returned? ==> (a.result.status == Fail <==> |UnitLines(p.stdout)| > 0)
    ensures a.Returned? ==> a.result.name == "Failed Systemd Units" && FixConsistent(a.result)
    ensures a.Returned? && a.result.status == Fail ==> a.result.fixCommand == UnitsFix
    ensures a.Returned? ==> a.result.status in {Pass, Fail, Skip}
  {
    match p
    case NotFound => Raised(NoSystemctlText)
    case TimedOut => Returned(Plain("Failed Systemd Units", Skip, "Check timed out"))
    case Completed(_, stdout, _) =>
      var tokens := FirstTokens(UnitLines(stdout));
      if tokens.None? then Raised(IndexErrorText)
      else
        var units := tokens.value;
        if |units| > 0 then
          Returned(CheckResult("Failed Systemd Units", Fail, NatStr(|units|) + " failed unit(s)",
                               Join(FirstFive(units), "\n"), true, UnitsFix))
        else Returned(Plain("Failed Systemd Units", Pass, "No failed units"))
  }

  /** The details of a FAIL list the first unit names, at most five of them. */
  lemma FailedUnitsDetails(stdout: string)
    requires FailedUnits(Completed(0, stdout, "")).Returned?
    ensures var lines := UnitLines(stdout);
            var a := FailedUnits(Completed(0, stdout, ""));
            a.result.status == Fail ==>
              (exists units :: FirstTokens(lines) == Some(units) && a.result.details == Join(FirstFive(units), "\n")
                               && |FirstFive(units)| <= 5)
  {
  }

  // ---------------------------------------------------------------- load

  /** `check_system_load`; `cpus` is `os.cpu_count()` with 0 standing for "unknown". */
  function Load(load1: Reading, load5: string, load15: string, cpus: nat): (r: CheckResult)
    ensures r.name == "System Load" && !r.fixAvailable && r.fixCommand == ""
    ensures var n := if cpus == 0 then 1 else cpus;
            (r.status == Fail <==> load1.value >= 2.0 * n as real)
            && (r.status == Warn <==> n as real <= load1.value < 2.0 * n as real)
            && (r.status == Pass <==> load1.value < n as real)
  {
    var n := if cpus == 0 then 1 else cpus;
    var perCpu := load1.value / n as real;
    DivAtLeast(load1.value, n as real, 2.0);
    DivAtLeast(load1.value, n as real, 1.0);
    if perCpu >= 2.0 then
      CheckResult("System Load", Fail, "High load: " + load1.shown,
                  "Load avg: " + load1.shown + ", " + load5 + ", " + load15 + " (" + NatStr(n) + " CPUs)", false, "")
    else if perCpu >= 1.0 then
      CheckResult("System Load", Warn, "Elevated load: " + load1.shown,
                  "Load avg: " + load1.shown + ", " + load5 + ", " + load15, false, "")
    else
      Plain("System Load", Pass, "Load: " + load1.shown + " (" + NatStr(n) + " CPUs)")
  }

  lemma MulMono(a: real, b: real, c: real)
    requires a <= b && c > 0.0
    ensures a * c <= b * c
  {
  }

  lemma MulStrictMono(a: real, b: real, c: real)
    requires a < b && c > 0.0
    ensures a * c < b * c
  {
  }

  /** Comparing a per-CPU load with a threshold is comparing the load with the threshold times the CPU count. */
  lemma DivAtLeast(x: real, c: real, k: real)
    requires c > 0.0
    ensures x / c >= k <==> x >= k * c
  {
    var q := x / c;
    assert q * c == x;
    if q >= k {
      MulMono(k, q, c);
    } else {
      MulStrictMono(q, k, c);
    }
  }

  // ---------------------------------------------------------------- zombies

  /** A process from `psutil.process_iter`; Vanished ones raise NoSuchProcess/AccessDenied and are skipped. */
  datatype ProcEntry = ProcEntry(pid: nat, name: string, zombie: bool) | Vanished

  function ZombieLines(ps: seq<ProcEntry>): (ls: seq<string>)
    ensures |ls| > 0 <==> exists i :: 0 <= i < |ps| && ps[i].ProcEntry? && ps[i].zombie
    decreases |ps|
  {
    if |ps| == 0 then []
    else
      var rest := ZombieLines(ps[1..]);
      assert forall i :: 1 <= i < |ps| ==> ps[i] == ps[1..][i - 1];
      if ps[0].ProcEntry? && ps[0].zombie then ["PID " + NatStr(ps[0].pid) + ": " + ps[0].name] + rest
      else rest
  }

  /** `check_zombie_processes` */
  function Zombies(ps: seq<ProcEntry>): (r: CheckResult)
    ensures r.name == "Zombie Processes" && !r.fixAvailable && r.fixCommand == ""
    ensures r.status == Warn <==> exists i :: 0 <= i < |ps| && ps[i].ProcEntry? && ps[i].zombie
    ensures r.status in {Pass, Warn}
  {
    var zs := ZombieLines(ps);
    if |zs| > 0 then
      CheckResult("Zombie Processes", Warn, NatStr(|zs|) + " zombie process(es)", Join(FirstFive(zs), "\n"), false, "")
    else Plain("Zombie Processes", Pass, "No zombie processes")
  }

  // ---------------------------------------------------------------- dnf check

  /** `check_dnf_status`: the missing binary is reported as an ERROR result, not raised. */
  function DnfStatus(p: Proc): (r: CheckResult)
    ensures r.name == "Package Manager" && FixConsistent(r)
    ensures r.status == Fail <==> p.Completed? && p.returncode != 0
    ensures r.status == Fail ==> r.fixCommand == DnfFix && (|r.details| <= 200 || r.details == "Package database may be corrupted")
    ensures r.status == Error <==> p.NotFound?
    ensures r.status == Skip <==> p.TimedOut?
    ensures r.status == Pass <==> p.Completed? && p.returncode == 0
  {
    match p
    case Completed(rc, _, stderr) =>
      if rc != 0 then
        CheckResult("Package Manager", Fail, "DNF reports issues",
                    if stderr != "" then Take(stderr, 200) else "Package database may be corrupted", true, DnfFix)
      else Plain("Package Manager", Pass, "DNF is healthy")
    case NotFound => Plain("Package Manager", Error, "DNF not found")
    case TimedOut => Plain("Package Manager", Skip, "Check timed out")
  }

  // ---------------------------------------------------------------- journal and orphans

  /** `check_journal_errors`: any failure to run the command is a SKIP. */
  function JournalErrors(p: Proc): (r: CheckResult)
    ensures r.name == "Journal Errors" && !r.fixAvailable && r.fixCommand == ""
    ensures !p.Completed? <==> r.status == Skip
    ensures p.Completed? ==> (r.status == Warn <==> |NonEmptyLines(p.stdout)| > 100)
    ensures r.status in {Pass, Warn, Skip}
  {
    match p
    case Completed(_, stdout, _) =>
      var n := |NonEmptyLines(stdout)|;
      if n > 100 then
        CheckResult("Journal Errors", Warn, NatStr(n) + " errors since boot",
                    "Many errors in journal. Check 'journalctl -p err -b'", false, "")
      else if n > 0 then Plain("Journal Errors", Pass, NatStr(n) + " error(s) since boot")
      else Plain("Journal Errors", Pass, "No errors since boot")
    case _ => Plain("Journal Errors", Skip, "Unable to read journal")
  }

  /** `check_orphaned_packages` */
  function OrphanedPackages(p: Proc): (r: CheckResult)
    ensures r.name == "Orphaned Packages" && FixConsistent(r)
    ensures !p.Completed? <==> r.status == Skip
    ensures p.Completed? ==> (r.status == Warn <==> |NonEmptyLines(p.stdout)| > 10)
    ensures r.fixAvailable <==> r.status == Warn
    ensures r.fixAvailable ==> r.fixCommand == OrphansFix
    ensures r.status in {Pass, Warn, Skip}
  {
    match p
    case Completed(_, stdout, _) =>
      var n := |NonEmptyLines(stdout)|;
      if n > 10 then
        CheckResult("Orphaned Packages", Warn, NatStr(n) + " orphaned package(s)",
                    "Run 'dnf autoremove' to clean up", true, OrphansFix)
      else Plain("Orphaned Packages", Pass, if n > 0 then NatStr(n) + " orphaned package(s)" else "No orphaned packages")
    case _ => Plain("Orphaned Packages", Skip, "Unable to check")
  }

  // ---------------------------------------------------------------- the table

  /** Everything the ten probes read from the machine. */
  datatype Observation = Observation(
    partitions: seq<Partition>, rootUsage: Reading,
    memoryPercent: Reading, memoryAvailable: string,
    sensors: Sensors,
    swapTotal: nat, swapPercent: Reading, swapSize: string,
    failedUnits: Proc,
    load1: Reading, load5: string, load15: string, cpuCount: nat,
    processes: seq<ProcEntry>,
    dnfCheck: Proc, journal: Proc, extras: Proc)

  function Group1(o: Observation): (as_: seq<Attempt>)
    ensures AllShaped(Names1, as_)
  {
    [Returned(DiskSpace(o.partitions, o.rootUsage)),
     Returned(Memory(o.memoryPercent, o.memoryAvailable)),
     Returned(CpuTemperature(o.sensors))]
  }

  function Group2(o: Observation): (as_: seq<Attempt>)
    ensures AllShaped(Names2, as_)
  {
    [Returned(Swap(o.swapTotal, o.swapPercent, o.swapSize)),
     FailedUnits(o.failedUnits),
     Returned(Load(o.load1, o.load5, o.load15, o.cpuCount))]
  }

  function Group3(o: Observation): (as_: seq<Attempt>)
    ensures AllShaped(Names3, as_)
  {
    [Returned(Zombies(o.processes)), Returned(DnfStatus(o.dnfCheck))]
  }

  function Group4(o: Observation): (as_: seq<Attempt>)
    ensures AllShaped(Names4, as_)
  {
    [Returned(JournalErrors(o.journal)), Returned(OrphanedPackages(o.extras))]
  }

  /** The ten probes in table order; only "Failed Systemd Units" can raise. */
  function Attempts(o: Observation): (as_: seq<Attempt>)
    ensures AllShaped(Names, as_)
  {
    var g1, g2, g3, g4 := Group1(o), Group2(o), Group3(o), Group4(o);
    AllShapedConcat(Names1, g1, Names2, g2);
    AllShapedConcat(Names1 + Names2, g1 + g2, Names3, g3);
    AllShapedConcat(Names1 + Names2 + Names3, g1 + g2 + g3, Names4, g4);
    g1 + g2 + g3 + g4
  }

  /**
   * `run_all_checks`: ten results in table order, each named after its
   * entry; a raising probe becomes an ERROR entry and the others are unaffected.
   */
  function RunAllChecks(o: Observation): (c: Category)
    ensures c.name == "Health Check" && c.icon == HealthIcon
    ensures |c.results| == 10
    ensures TableShaped(Names, c.results)
    ensures forall i :: 0 <= i < 10 ==> c.results[i] == Guard(Names[i], Attempts(o)[i])
  {
    var attempts := Attempts(o);
    RunTableShaped(Names, attempts);
    Category("Health Check", HealthIcon, RunTable(Names, attempts))
  }
}
