/**
 * The security checker (fedchecker/checks/security.py): twelve probes over
 * command outputs, configuration files and file modes.
 */
module Security {
  import opened Wrappers
  import opened Text
  import opened Status
  import opened Probe

  /** The probe table of `run_all_checks`, in four groups of three. */
  const Names1: seq<string> := ["Firewall (firewalld)", "SELinux Status", "SSH Configuration"]
  const Names2: seq<string> := ["Open Ports", "Failed Login Attempts", "Root Account"]
  const Names3: seq<string> := ["Sudo Configuration", "Automatic Updates", "Password Policy"]
  const Names4: seq<string> := ["File Permissions", "Kernel Security", "Antivirus (ClamAV)"]
  const Names: seq<string> := Names1 + Names2 + Names3 + Names4

  const SecurityIcon := "[bold red]\U{1F6E1}\U{FE0F}[/]"
  const FirewallFix := "systemctl enable --now firewalld"
  const PermissiveFix := "setenforce 1 && sed -i 's/SELINUX=permissive/SELINUX=enforcing/' /etc/selinux/config"
  const DisabledFix := "sed -i 's/SELINUX=disabled/SELINUX=enforcing/' /etc/selinux/config && reboot"
  const SshFix := "sed -i 's/PermitRootLogin yes/PermitRootLogin no/' /etc/ssh/sshd_config && systemctl restart sshd"
  const Fail2banFix := "dnf install fail2ban && systemctl enable --now fail2ban"
  const AutoUpdatesFix := "dnf install dnf-automatic && systemctl enable --now dnf-automatic.timer"
  const PwqualityFix := "dnf install libpwquality"
  const ClamInstallFix := "dnf install clamav clamav-update"
  const FreshclamFix := "systemctl enable --now clamav-freshclam"

  // ---------------------------------------------------------------- firewall

  /** `check_firewall` */
  function Firewall(active: CmdOut, zone: CmdOut, services: CmdOut): (r: CheckResult)
    ensures r.name == "Firewall (firewalld)" && FixConsistent(r)
    ensures r.status == Fail <==> !active.ok || Contains(active.out, "inactive")
    ensures r.status == Fail ==> r.fixCommand == FirewallFix
    ensures r.status != Fail ==> r.status == Pass && !r.fixAvailable
  {
    if !active.ok || Contains(active.out, "inactive") then
      CheckResult("Firewall (firewalld)", Fail, "Firewall is not running",
                  "Your system is not protected by a firewall", true, FirewallFix)
    else
      var z := if zone.ok then Strip(zone.out) else "unknown";
      var n := if services.ok then |Fields(services.out)| else 0;
      CheckResult("Firewall (firewalld)", Pass, "Active (zone: " + z + ")", NatStr(n) + " allowed services", false, "")
  }

  // ---------------------------------------------------------------- SELinux

  /** `check_selinux`: the stripped, lower-cased mode decides. */
  function SELinux(c: CmdOut): (r: CheckResult)
    ensures r.name == "SELinux Status" && FixConsistent(r)
    ensures !c.ok ==> r.status == Warn && !r.fixAvailable
    ensures c.ok ==> (r.status == Pass <==> Lower(Strip(c.out)) == "enforcing")
    ensures c.ok ==> (r.status == Warn <==> Lower(Strip(c.out)) == "permissive")
    ensures c.ok ==> (r.status == Fail <==> Lower(Strip(c.out)) !in {"enforcing", "permissive"})
    ensures c.ok && r.status == Warn ==> r.fixCommand == PermissiveFix
    ensures r.status == Fail ==> r.fixCommand == DisabledFix
  {
    if !c.ok then Plain("SELinux Status", Warn, "Unable to check SELinux")
    else
      var mode := Lower(Strip(c.out));
      if mode == "enforcing" then Plain("SELinux Status", Pass, "SELinux is enforcing")
      else if mode == "permissive" then
        CheckResult("SELinux Status", Warn, "SELinux is permissive", "Consider setting to enforcing mode", true, PermissiveFix)
      else
        CheckResult("SELinux Status", Fail, "SELinux is disabled", "Highly recommended to enable SELinux", true, DisabledFix)
  }

  // ---------------------------------------------------------------- SSH

  /**
   * `\s*KEY\s+yes` matched (ignoring case) at the start of `t`: optional
   * whitespace, the key, at least one whitespace character, then "yes" as a
   * prefix of what follows.
   */
  predicate DirectiveAt(t: string, key: string) {
    var u := TrimStart(t);
    |u| >= |key| && Lower(u[..|key|]) == Lower(key)
    && var v := u[|key|..];
       |v| > 0 && IsSpace(v[0])
       && var w := TrimStart(v);
          |w| >= 3 && Lower(w[..3]) == "yes"
  }

  /** `re.search(r'^\s*KEY\s+yes', config, re.MULTILINE | re.IGNORECASE)` */
  predicate Directive(config: string, key: string) {
    FirstLineMatch(config, t => DirectiveAt(t, key), 0).Some?
  }

  /** A directive is set exactly when some line start begins a match. */
  lemma DirectiveSomewhere(config: string, key: string)
    ensures Directive(config, key) <==> exists i :: 0 <= i <= |config| && LineStart(config, i) && DirectiveAt(config[i..], key)
  {
    var m := FirstLineMatch(config, t => DirectiveAt(t, key), 0);
    if m.Some? {
      assert DirectiveAt(config[m.value..], key);
    }
  }

  /** The issues the SSH probe reports, in the order it looks for them. */
  function SshIssues(config: string): (issues: seq<string>)
    ensures |issues| <= 2
    ensures |issues| > 0 <==> Directive(config, "PermitRootLogin") || Directive(config, "PermitEmptyPasswords")
  {
    (if Directive(config, "PermitRootLogin") then ["Root login enabled"] else [])
    + (if Directive(config, "PermitEmptyPasswords") then ["Empty passwords allowed"] else [])
  }

  /**
   * `check_ssh_config`: a missing sshd_config is a SKIP and an unreadable one
   * raises; PasswordAuthentication and X11Forwarding are looked at but never
   * change the verdict.
   */
  function SshConfig(config: FileRead, sshd: CmdOut): (a: Attempt)
    ensures config.Missing? ==> a.Returned? && a.result.status == Skip
    ensures config.Denied? <==> a.Raised?
    ensures config.Denied? ==> a.msg == Denial("/etc/ssh/sshd_config")
    ensures a.Returned? ==> a.result.name == "SSH Configuration" && FixConsistent(a.result)
    ensures config.Content? ==>
              (a.result.status == Warn <==> Directive(config.text, "PermitRootLogin")
                                            || Directive(config.text, "PermitEmptyPasswords"))
    ensures config.Content? ==> a.result.status in {Pass, Warn}
    ensures config.Content? ==> (a.result.fixAvailable <==> a.result.status == Warn)
    ensures a.Returned? && a.result.fixAvailable ==> a.result.fixCommand == SshFix
  {
    match config
    case Missing => Returned(Plain("SSH Configuration", Skip, "SSH server not installed"))
    case Denied => Raised(Denial("/etc/ssh/sshd_config"))
    case Content(text) =>
      var issues := SshIssues(text);
      if |issues| > 0 then
        Returned(CheckResult("SSH Configuration", Warn, NatStr(|issues|) + " security issue(s)",
                             Join(issues, "\n"), true, SshFix))
      else if sshd.ok then Returned(Plain("SSH Configuration", Pass, "SSH configured securely"))
      else Returned(Plain("SSH Configuration", Pass, "SSH not running (secure)"))
  }

  // ---------------------------------------------------------------- open ports

  /** The port a `ss -tuln` line lists: the text after the last ':' of its fifth field. */
  function PortOf(line: string): Option<string> {
    if !Contains(line, "LISTEN") then None
    else
      var parts := Fields(line);
      if |parts| >= 5 && ':' in parts[4] then Some(AfterLast(parts[4], ':')) else None
  }

  /** The port of each line, None for lines that list none. */
  function LinePorts(lines: seq<string>): (ps: seq<Option<string>>)
    ensures |ps| == |lines|
    ensures forall i :: 0 <= i < |lines| ==> ps[i] == PortOf(lines[i])
  {
    seq(|lines|, i requires 0 <= i < |lines| => PortOf(lines[i]))
  }

  /** The ports of all listening lines, in line order, one entry per line. */
  function ListeningPorts(lines: seq<string>): (ps: seq<string>)
    ensures |ps| <= |lines|
  {
    Somes(LinePorts(lines))
  }

  /** Each listed port comes from some line, and every line that names a port contributes it. */
  lemma ListeningPortsSpec(lines: seq<string>)
    ensures forall k :: 0 <= k < |ListeningPorts(lines)| ==>
              exists i :: 0 <= i < |lines| && PortOf(lines[i]) == Some(ListeningPorts(lines)[k])
    ensures forall i :: 0 <= i < |lines| && PortOf(lines[i]).Some? ==> PortOf(lines[i]).value in ListeningPorts(lines)
  {
    var xs := LinePorts(lines);
    var ps := ListeningPorts(lines);
    SomesSpec(xs);
    assert ps == Somes(xs);
    forall k | 0 <= k < |ps|
      ensures exists i :: 0 <= i < |lines| && PortOf(lines[i]) == Some(ps[k])
    {
      assert Some(ps[k]) in xs;
      var i :| 0 <= i < |xs| && xs[i] == Some(ps[k]);
      assert PortOf(lines[i]) == Some(ps[k]);
    }
  }

  /** SSH, CUPS and mDNS. */
  const SafePorts: set<string> := {"22", "631", "5353"}

  /** `[p for p in listening if p not in safe_ports]` */
  function ExternalPorts(ps: seq<string>): (r: seq<string>)
    ensures |r| <= |ps|
    ensures forall p :: p in r <==> p in ps && p !in SafePorts
    decreases |ps|
  {
    if |ps| == 0 then []
    else if ps[0] in SafePorts then ExternalPorts(ps[1..])
    else [ps[0]] + ExternalPorts(ps[1..])
  }

  /** Duplicates are kept: every unsafe port occurs in the filtered list as often as it was listed. */
  lemma {:induction false} ExternalPortsCounted(ps: seq<string>)
    ensures forall p :: p !in SafePorts ==> multiset(ExternalPorts(ps))[p] == multiset(ps)[p]
    ensures forall p :: p in SafePorts ==> multiset(ExternalPorts(ps))[p] == 0
    decreases |ps|
  {
    if |ps| > 0 {
      ExternalPortsCounted(ps[1..]);
      assert ps == [ps[0]] + ps[1..];
    }
  }

  /** The ports read from the output of `ss -tuln`. */
  function SocketPorts(out: string): seq<string> {
    ListeningPorts(Split(out, '\n'))
  }

  /** `check_open_ports` */
  function OpenPorts(c: CmdOut): (r: CheckResult)
    ensures r.name == "Open Ports" && !r.fixAvailable && r.fixCommand == ""
    ensures r.status == Skip <==> !c.ok
    ensures c.ok ==> (r.status == Warn <==> |ExternalPorts(SocketPorts(c.out))| > 5)
    ensures c.ok ==> r.message == NatStr(|SocketPorts(c.out)|) + " ports listening"
    ensures r.status in {Pass, Warn, Skip}
  {
    if !c.ok then Plain("Open Ports", Skip, "Unable to check ports")
    else
      var listening := SocketPorts(c.out);
      var external := ExternalPorts(listening);
      if |external| > 5 then
        CheckResult("Open Ports", Warn, NatStr(|listening|) + " ports listening",
                    "External: " + Join(FirstFive(external), ", ") + "...", false, "")
      else Plain("Open Ports", Pass, NatStr(|listening|) + " ports listening")
  }

  // ---------------------------------------------------------------- failed logins

  /** Occurrences of "failed" plus occurrences of "authentication failure", ignoring case. */
  function FailureCount(out: string): nat {
    var low := Lower(out);
    Count(low, "failed") + Count(low, "authentication failure")
  }

  /** The log the login probe reads: the sshd journal, else `lastb`. */
  function LoginLog(journal: CmdOut, lastb: CmdOut): CmdOut {
    if journal.ok then journal else lastb
  }

  /** `check_failed_logins` */
  function FailedLogins(journal: CmdOut, lastb: CmdOut): (r: CheckResult)
    ensures r.name == "Failed Login Attempts" && FixConsistent(r)
    ensures r.status == Skip <==> !journal.ok && !lastb.ok
    ensures journal.ok ==> LoginLog(journal, lastb) == journal
    ensures r.status != Skip ==> (r.status == Warn <==> FailureCount(LoginLog(journal, lastb).out) > 50)
    ensures r.fixAvailable <==> r.status == Warn
    ensures r.fixAvailable ==> r.fixCommand == Fail2banFix
    ensures r.status in {Pass, Warn, Skip}
  {
    var log := LoginLog(journal, lastb);
    if !log.ok then Plain("Failed Login Attempts", Skip, "Unable to check login attempts")
    else
      var n := FailureCount(log.out);
      if n > 50 then
        CheckResult("Failed Login Attempts", Warn, NatStr(n) + "+ failed attempts (24h)",
                    "Consider installing fail2ban", true, Fail2banFix)
      else if n > 0 then Plain("Failed Login Attempts", Pass, NatStr(n) + " failed attempt(s) (24h)")
      else Plain("Failed Login Attempts", Pass, "No failed attempts (24h)")
  }

  // ---------------------------------------------------------------- root account

  /** Hash fields that mean "no password login": empty, `*`, `!!` and `!`. */
  const LockedHashes: set<string> := {"", "*", "!!", "!"}

  /** `line.split(":")[1]`, or "" for a line with no ':'. */
  function HashField(line: string): string {
    var parts := Split(line, ':');
    if |parts| > 1 then parts[1] else ""
  }

  /** The hash field of the first line starting with "root:", if there is one. */
  function RootHash(lines: seq<string>): (h: Option<string>)
    ensures h.None? <==> forall i :: 0 <= i < |lines| ==> !StartsWith(lines[i], "root:")
    ensures h.Some? ==> exists i :: 0 <= i < |lines| && StartsWith(lines[i], "root:")
                                    && (forall k :: 0 <= k < i ==> !StartsWith(lines[k], "root:"))
                                    && h.value == HashField(lines[i])
    decreases |lines|
  {
    if |lines| == 0 then None
    else if StartsWith(lines[0], "root:") then
      Some(HashField(lines[0]))
    else
      var rest := RootHash(lines[1..]);
      assert forall i :: 1 <= i < |lines| ==> lines[i] == lines[1..][i - 1];
      rest
  }

  /**
   * What `check_root_account` gets from /etc/shadow: the file is missing or
   * `os.access` refuses it, `os.access` allows it but opening it raises
   * PermissionError, or its text.
   */
  datatype ShadowRead = Inaccessible | OpenRefused | Readable(text: string)

  /**
   * `check_root_account`: both kinds of refusal are a SKIP, each with its own
   * message; no root line at all passes.
   */
  function RootAccount(shadow: ShadowRead): (r: CheckResult)
    ensures r.name == "Root Account" && !r.fixAvailable && r.fixCommand == ""
    ensures r.status == Skip <==> !shadow.Readable?
    ensures shadow.Inaccessible? ==> r.message == "Cannot read shadow file"
    ensures shadow.OpenRefused? ==> r.message == "Cannot check root account"
    ensures shadow.Readable? ==>
              (r.status == Warn <==> RootHash(FileLines(shadow.text)).Some?
                                     && RootHash(FileLines(shadow.text)).value !in LockedHashes)
    ensures r.status in {Pass, Warn, Skip}
  {
    match shadow
    case Inaccessible => Plain("Root Account", Skip, "Cannot read shadow file")
    case OpenRefused => Plain("Root Account", Skip, "Cannot check root account")
    case Readable(text) =>
      var h := RootHash(FileLines(text));
      if h.None? then Plain("Root Account", Pass, "Root account secure")
      else if h.value in LockedHashes then Plain("Root Account", Pass, "Root login disabled")
      else CheckResult("Root Account", Warn, "Root has password set", "Consider using sudo instead of root login", false, "")
  }

  // ---------------------------------------------------------------- sudo

  /** `/etc/sudoers.d`: absent, not listable, or its entries (Missing stands for an entry that is not a file). */
  datatype DirListing = NoDir | DirDenied | Entries(files: seq<FileRead>)

  predicate HasNopasswd(f: FileRead) {
    f.Content? && Contains(f.text, "NOPASSWD")
  }

  predicate AnyNopasswd(d: DirListing) {
    d.Entries? && exists i :: 0 <= i < |d.files| && HasNopasswd(d.files[i])
  }

  /** `check_sudo`: listing an unreadable sudoers.d raises; unreadable files in it are passed over. */
  function Sudo(groups: CmdOut, sudoers: FileRead, dir: DirListing): (a: Attempt)
    ensures a.Raised? <==> Contains(groups.out, "wheel") && dir.DirDenied?
    ensures a.Returned? ==> a.result.name == "Sudo Configuration" && !a.result.fixAvailable && a.result.fixCommand == ""
    ensures a.Returned? ==>
              (a.result.status == Warn <==> !Contains(groups.out, "wheel") || HasNopasswd(sudoers) || AnyNopasswd(dir))
    ensures a.Returned? ==> a.result.status in {Pass, Warn}
  {
    if !Contains(groups.out, "wheel") then
      Returned(CheckResult("Sudo Configuration", Warn, "Current user not in wheel group", "May not have sudo access", false, ""))
    else if dir.DirDenied? then Raised(Denial("/etc/sudoers.d"))
    else if HasNopasswd(sudoers) || AnyNopasswd(dir) then
      Returned(CheckResult("Sudo Configuration", Warn, "NOPASSWD entries found", "Some commands don't require password", false, ""))
    else Returned(Plain("Sudo Configuration", Pass, "Sudo configured properly"))
  }

  // ---------------------------------------------------------------- automatic updates

  predicate Enabled(c: CmdOut) {
    c.ok && Contains(c.out, "enabled")
  }

  /** `check_auto_updates` */
  function AutoUpdates(dnfAutomatic: CmdOut, packagekit: CmdOut): (r: CheckResult)
    ensures r.name == "Automatic Updates" && FixConsistent(r)
    ensures r.status == Pass <==> Enabled(dnfAutomatic) || Enabled(packagekit)
    ensures r.status != Pass ==> r.status == Warn && r.fixCommand == AutoUpdatesFix
  {
    if Enabled(dnfAutomatic) then Plain("Automatic Updates", Pass, "dnf-automatic enabled")
    else if Enabled(packagekit) then Plain("Automatic Updates", Pass, "PackageKit updates enabled")
    else
      CheckResult("Automatic Updates", Warn, "Auto-updates not configured",
                  "Consider enabling automatic security updates", true, AutoUpdatesFix)
  }

  // ---------------------------------------------------------------- password policy

  /** `\s*minlen\s*=\s*(\d+)` matched at the start of `t`, with the captured number. */
  function MinlenAt(t: string): Option<nat> {
    var u := TrimStart(t);
    if !StartsWith(u, "minlen") then None
    else
      var v := TrimStart(u[6..]);
      if |v| == 0 || v[0] != '=' then None
      else
        var d := Digits(TrimStart(v[1..]));
        if |d| == 0 then None else Some(DigitsValue(d))
  }

  /** The first `minlen = N` setting of pwquality.conf, or 8 when there is none. */
  function MinLength(config: string): (n: nat)
    ensures FirstLineMatch(config, t => MinlenAt(t).Some?, 0).None? ==> n == 8
    ensures FirstLineMatch(config, t => MinlenAt(t).Some?, 0).Some? ==>
              Some(n) == MinlenAt(config[FirstLineMatch(config, t => MinlenAt(t).Some?, 0).value..])
  {
    var m := FirstLineMatch(config, t => MinlenAt(t).Some?, 0);
    if m.None? then 8 else MinlenAt(config[m.value..]).value
  }

  /** `check_password_policy` */
  function PasswordPolicy(pwquality: FileRead): (a: Attempt)
    ensures pwquality.Denied? <==> a.Raised?
    ensures pwquality.Missing? ==> a.result.status == Warn && a.result.fixCommand == PwqualityFix
    ensures a.Returned? ==> a.result.name == "Password Policy" && FixConsistent(a.result)
    ensures pwquality.Content? ==> (a.result.status == Warn <==> MinLength(pwquality.text) < 8)
    ensures pwquality.Content? ==> !a.result.fixAvailable
    ensures a.Returned? ==> a.result.status in {Pass, Warn}
  {
    match pwquality
    case Missing => Returned(Fixable("Password Policy", Warn, "pwquality not configured", PwqualityFix))
    case Denied => Raised(Denial("/etc/security/pwquality.conf"))
    case Content(text) =>
      var n := MinLength(text);
      if n < 8 then
        Returned(CheckResult("Password Policy", Warn, "Minimum password length: " + NatStr(n),
                             "Recommended: at least 12 characters", false, ""))
      else Returned(Plain("Password Policy", Pass, "Password policy OK (min: " + NatStr(n) + ")"))
  }

  // ---------------------------------------------------------------- file permissions

  /** `st_mode` of the four sensitive files; None when the file does not exist. */
  datatype FileModes = FileModes(passwd: Option<nat>, shadow: Option<nat>, gshadow: Option<nat>, sudoers: Option<nat>)

  const SensitivePaths: seq<string> := ["/etc/passwd", "/etc/shadow", "/etc/gshadow", "/etc/sudoers"]
  /** 0o644, 0o000, 0o000 and 0o440. */
  const ExpectedModes: seq<nat> := [420, 0, 0, 288]

  function ModeList(m: FileModes): seq<Option<nat>> {
    [m.passwd, m.shadow, m.gshadow, m.sudoers]
  }

  /** `st_mode & 0o777` */
  function PermBits(mode: nat): (b: nat)
    ensures b < 512
  {
    mode % 512
  }

  /** The comparison the probe makes: the permission bits read as a number exceed the expected mode. */
  predicate Flagged(mode: Option<nat>, expected: nat) {
    mode.Some? && PermBits(mode.value) > expected
  }

  /** `oct(n)` */
  function Oct(n: nat): (r: string)
    ensures |r| >= 3 && r[..2] == "0o"
  {
    "0o" + OctDigits(n)
  }

  function OctDigits(n: nat): (r: string)
    ensures |r| >= 1
  {
    var d := ['0' + (n % 8) as char];
    if n < 8 then d else OctDigits(n / 8) + d
  }

  /** One "path: 0oNNN" line per flagged file, in table order. */
  function PermissionIssues(paths: seq<string>, expected: seq<nat>, modes: seq<Option<nat>>): (ls: seq<string>)
    requires |paths| == |expected| == |modes|
    ensures |ls| <= |modes|
    ensures |ls| > 0 <==> exists i :: 0 <= i < |modes| && Flagged(modes[i], expected[i])
    decreases |modes|
  {
    if |modes| == 0 then []
    else
      var rest := PermissionIssues(paths[1..], expected[1..], modes[1..]);
      assert forall i :: 1 <= i < |modes| ==> modes[i] == modes[1..][i - 1] && expected[i] == expected[1..][i - 1];
      if Flagged(modes[0], expected[0]) then [paths[0] + ": " + Oct(PermBits(modes[0].value))] + rest
      else rest
  }

  /** `check_sensitive_files` */
  function SensitiveFiles(m: FileModes): (r: CheckResult)
    ensures r.name == "File Permissions" && !r.fixAvailable && r.fixCommand == ""
    ensures r.status == Warn <==> exists i :: 0 <= i < 4 && Flagged(ModeList(m)[i], ExpectedModes[i])
    ensures r.status in {Pass, Warn}
  {
    var issues := PermissionIssues(SensitivePaths, ExpectedModes, ModeList(m));
    if |issues| > 0 then
      CheckResult("File Permissions", Warn, NatStr(|issues|) + " permission issue(s)", Join(issues, "\n"), false, "")
    else Plain("File Permissions", Pass, "Sensitive files secured")
  }

  /**
   * The comparison is numeric, not by permission bits: a world-writable
   * /etc/passwd (0o622) passes, while an owner-only 0o700 is flagged.
   */
  lemma NumericModeComparison()
    ensures !Flagged(Some(0x8000 + 402), 420)
    ensures Flagged(Some(0x8000 + 448), 420)
    ensures SensitiveFiles(FileModes(Some(0x8000 + 402), None, None, None)).status == Pass
  {
    var m := FileModes(Some(0x8000 + 402), None, None, None);
    assert forall i :: 0 <= i < 4 ==> !Flagged(ModeList(m)[i], ExpectedModes[i]);
  }

  // ---------------------------------------------------------------- kernel parameters

  /** A sysctl file is flagged when it was read and its stripped value is not the expected one; read errors are ignored. */
  predicate SysctlOff(f: FileRead, expected: string) {
    f.Content? && Strip(f.text) != expected
  }

  function KernelIssues(ipForward: FileRead, rpFilter: FileRead, aslr: FileRead): (issues: seq<string>)
    ensures |issues| <= 3
    ensures |issues| > 0 <==> SysctlOff(ipForward, "0") || SysctlOff(rpFilter, "1") || SysctlOff(aslr, "2")
  {
    (if SysctlOff(ipForward, "0") then ["IP forwarding enabled"] else [])
    + (if SysctlOff(rpFilter, "1") then ["Reverse path filtering disabled"] else [])
    + (if SysctlOff(aslr, "2") then ["ASLR not fully enabled"] else [])
  }

  /** `check_kernel_security` */
  function KernelSecurity(ipForward: FileRead, rpFilter: FileRead, aslr: FileRead): (r: CheckResult)
    ensures r.name == "Kernel Security" && !r.fixAvailable && r.fixCommand == ""
    ensures r.status == Warn <==> SysctlOff(ipForward, "0") || SysctlOff(rpFilter, "1") || SysctlOff(aslr, "2")
    ensures r.status in {Pass, Warn}
  {
    var issues := KernelIssues(ipForward, rpFilter, aslr);
    if |issues| > 0 then
      CheckResult("Kernel Security", Warn, NatStr(|issues|) + " setting(s) suboptimal", Join(issues, "\n"), false, "")
    else Plain("Kernel Security", Pass, "Kernel security OK")
  }

  // ---------------------------------------------------------------- antivirus

  /** `check_antivirus`: an absent ClamAV is a SKIP that still offers an install command. */
  function Antivirus(which: CmdOut, freshclam: CmdOut): (r: CheckResult)
    ensures r.name == "Antivirus (ClamAV)" && FixConsistent(r)
    ensures r.status == Skip <==> !which.ok
    ensures !which.ok ==> r.fixCommand == ClamInstallFix
    ensures which.ok ==> (r.status == Pass <==> freshclam.ok && Contains(freshclam.out, "active"))
    ensures r.status == Warn ==> r.fixCommand == FreshclamFix
    ensures r.fixAvailable <==> r.status != Pass
    ensures r.status in {Pass, Warn, Skip}
  {
    if !which.ok then
      CheckResult("Antivirus (ClamAV)", Skip, "ClamAV not installed", "Optional: install for malware scanning", true, ClamInstallFix)
    else if freshclam.ok && Contains(freshclam.out, "active") then
      Plain("Antivirus (ClamAV)", Pass, "ClamAV installed and updating")
    else Fixable("Antivirus (ClamAV)", Warn, "ClamAV installed, updates disabled", FreshclamFix)
  }

  // ---------------------------------------------------------------- the table

  /** Everything the twelve probes read from the machine. */
  datatype Observation = Observation(
    firewallActive: CmdOut, defaultZone: CmdOut, services: CmdOut,
    getenforce: CmdOut,
    sshdConfig: FileRead, sshdActive: CmdOut,
    sockets: CmdOut,
    sshdJournal: CmdOut, lastb: CmdOut,
    shadow: ShadowRead,
    groups: CmdOut, sudoers: FileRead, sudoersD: DirListing,
    dnfAutomatic: CmdOut, packagekit: CmdOut,
    pwquality: FileRead,
    modes: FileModes,
    ipForward: FileRead, rpFilter: FileRead, aslr: FileRead,
    clamscan: CmdOut, freshclam: CmdOut)

  function Quarter1(o: Observation): (as_: seq<Attempt>)
    ensures AllShaped(Names1, as_)
  {
    [Returned(Firewall(o.firewallActive, o.defaultZone, o.services)),
     Returned(SELinux(o.getenforce)),
     SshConfig(o.sshdConfig, o.sshdActive)]
  }

  function Quarter2(o: Observation): (as_: seq<Attempt>)
    ensures AllShaped(Names2, as_)
  {
    [Returned(OpenPorts(o.sockets)),
     Returned(FailedLogins(o.sshdJournal, o.lastb)),
     Returned(RootAccount(o.shadow))]
  }

  function Quarter3(o: Observation): (as_: seq<Attempt>)
    ensures AllShaped(Names3, as_)
  {
    [Sudo(o.groups, o.sudoers, o.sudoersD),
     Returned(AutoUpdates(o.dnfAutomatic, o.packagekit)),
     PasswordPolicy(o.pwquality)]
  }

  function Quarter4(o: Observation): (as_: seq<Attempt>)
    ensures AllShaped(Names4, as_)
  {
    [Returned(SensitiveFiles(o.modes)),
     Returned(KernelSecurity(o.ipForward, o.rpFilter, o.aslr)),
     Returned(Antivirus(o.clamscan, o.freshclam))]
  }

  /** The twelve probes in table order. */
  function Attempts(o: Observation): (as_: seq<Attempt>)
    ensures AllShaped(Names, as_)
  {
    var q1, q2, q3, q4 := Quarter1(o), Quarter2(o), Quarter3(o), Quarter4(o);
    AllShapedConcat(Names1, q1, Names2, q2);
    AllShapedConcat(Names1 + Names2, q1 + q2, Names3, q3);
    AllShapedConcat(Names1 + Names2 + Names3, q1 + q2 + q3, Names4, q4);
    q1 + q2 + q3 + q4
  }

  /**
   * `run_all_checks`: twelve results in table order, each named after its
   * entry; a raising probe becomes an ERROR entry and the others are unaffected.
   */
  function RunAllChecks(o: Observation): (c: Category)
    ensures c.name == "Security Check" && c.icon == SecurityIcon
    ensures |c.results| == 12
    ensures TableShaped(Names, c.results)
    ensures forall i :: 0 <= i < 12 ==> c.results[i] == Guard(Names[i], Attempts(o)[i])
  {
    var attempts := Attempts(o);
    RunTableShaped(Names, attempts);
    Category("Security Check", SecurityIcon, RunTable(Names, attempts))
  }
}
