/**
 * The security fixer (fedchecker/fixes/security_fix.py): firewall, SELinux,
 * SSH hardening, fail2ban, automatic updates, ClamAV and file permissions,
 * each against the scripted executor.
 */
module SecurityFix {
  import opened Wrappers
  import opened Text
  import opened Status
  import opened Exec
  import opened Fix

  const FirewallSteps: seq<Step> := [
    Step("Installing firewalld", Sudo(["dnf", "install", "-y", "firewalld"])),
    Step("Enabling service", Sudo(["systemctl", "enable", "--now", "firewalld"])),
    Step("Setting default zone", Sudo(["firewall-cmd", "--set-default-zone=FedoraWorkstation"]))
  ]

  /** A failed firewall step aborts unless its output says the package is already installed. */
  predicate FirewallFatal(desc: string, o: Exec.Outcome) {
    !o.ok && !Contains(Lower(o.out), "already installed")
  }

  /** `enable_firewall` */
  function EnableFirewall(w: World): (f: Fixed)
    ensures f.result.success ==> f.result.message == "Firewall enabled and configured"
    ensures !f.result.success ==> exists k :: 0 <= k < |FirewallSteps| && f.result.message == "Failed at: " + FirewallSteps[k].desc
  {
    var s := RunUntil(w, FirewallSteps, FirewallFatal);
    match s.failedAt
    case Some(k) => Fixed(FixResult(false, "Failed at: " + FirewallSteps[k].desc, s.out, false), s.w)
    case None => Fixed(Simple(true, "Firewall enabled and configured"), s.w)
  }

  /**
   * The firewall is enabled exactly when every step either succeeds or
   * reports "already installed" in any letter case; then all three were issued.
   */
  lemma FirewallSucceeds(w: World)
    ensures EnableFirewall(w).result.success <==>
              forall i :: 0 <= i < 3 ==> Nth(w, i).ok || Contains(Lower(Nth(w, i).out), "already installed")
    ensures EnableFirewall(w).result.success ==> EnableFirewall(w).w.issued == w.issued + Cmds(FirewallSteps)
  {
    RunUntilCompletes(w, FirewallSteps, FirewallFatal);
    RunUntilEffect(w, FirewallSteps, FirewallFatal);
  }

  /** At the first fatal step the fix stops, reporting that step and its whole output. */
  lemma FirewallStops(w: World, k: nat)
    requires k < 3 && FirewallFatal(FirewallSteps[k].desc, Nth(w, k))
    requires forall i :: 0 <= i < k ==> !FirewallFatal(FirewallSteps[i].desc, Nth(w, i))
    ensures !EnableFirewall(w).result.success
    ensures EnableFirewall(w).result.message == "Failed at: " + FirewallSteps[k].desc
    ensures EnableFirewall(w).result.details == Nth(w, k).out
    ensures EnableFirewall(w).w.issued == w.issued + Cmds(FirewallSteps)[..k + 1]
  {
    RunUntilFirst(w, FirewallSteps, FirewallFatal, k);
    RunUntilVerdict(w, FirewallSteps, FirewallFatal);
    RunUntilEffect(w, FirewallSteps, FirewallFatal);
  }

  const SelinuxConfig := "/etc/selinux/config"

  const SelinuxEdits: seq<Cmd> := [
    Sudo(["sed", "-i", "s/SELINUX=permissive/SELINUX=enforcing/", SelinuxConfig]),
    Sudo(["sed", "-i", "s/SELINUX=disabled/SELINUX=enforcing/", SelinuxConfig])
  ]

  /** `enforce_selinux`: only `setenforce 1` decides; the two config edits run but are not checked. */
  function EnforceSelinux(w: World): (f: Fixed)
    ensures f.result.success == Nth(w, 0).ok
    ensures !f.result.success ==> f.result.details == Nth(w, 0).out
    ensures f.w.issued == w.issued + [Sudo(["setenforce", "1"])] + (if Nth(w, 0).ok then SelinuxEdits else [])
  {
    var c := Exec.Run(w, Sudo(["setenforce", "1"]));
    if !c.ok then Fixed(FixResult(false, "Failed to enable SELinux", c.out, false), c.w)
    else
      var b := RunAll(c.w, SelinuxEdits);
      Fixed(FixResult(true, "SELinux set to enforcing", "Configuration updated for persistence", false), b.w)
  }

  const SshConfig := "/etc/ssh/sshd_config"

  const SshSettings: seq<(string, string)> := [
    ("PermitRootLogin", "no"),
    ("PermitEmptyPasswords", "no"),
    ("MaxAuthTries", "3"),
    ("ClientAliveInterval", "300"),
    ("ClientAliveCountMax", "2")
  ]

  /** The `sed` expression that replaces a (possibly commented) `key` line with `key value`. */
  function SedSetting(key: string, value: string): string {
    "s/^#*" + key + ".*/" + key + " " + value + "/"
  }

  function SshEdits(): (cs: seq<Cmd>)
    ensures |cs| == |SshSettings|
    ensures forall i :: 0 <= i < |cs| ==>
              cs[i] == Sudo(["sed", "-i", SedSetting(SshSettings[i].0, SshSettings[i].1), SshConfig])
  {
    seq(|SshSettings|, i requires 0 <= i < |SshSettings| =>
      Sudo(["sed", "-i", SedSetting(SshSettings[i].0, SshSettings[i].1), SshConfig]))
  }

  const SshRestart: Cmd := Sudo(["systemctl", "restart", "sshd"])

  /** `harden_ssh`: all five edits run unchecked, and the fix succeeds iff the restart (the sixth command) does. */
  function HardenSsh(w: World): (f: Fixed)
    ensures f.result.success == Nth(w, 5).ok
    ensures !f.result.success ==> f.result.details == Nth(w, 5).out
    ensures f.w.issued == w.issued + SshEdits() + [SshRestart]
  {
    var b := RunAll(w, SshEdits());
    var c := Exec.Run(b.w, SshRestart);
    if c.ok then Fixed(FixResult(true, "SSH hardened", "Root login disabled, auth limits set", false), c.w)
    else Fixed(FixResult(false, "Failed to restart SSH", c.out, false), c.w)
  }

  /**
   * The install-configure-enable shape of `install_fail2ban` and
   * `enable_auto_updates`: a failed install returns at once; otherwise the
   * configuration command runs unchecked and the enable decides.
   */
  function InstallThenEnable(w: World, package: string, configure: Cmd, enable: Cmd,
                             done: string, installFailed: string, enableFailed: string): (f: Fixed)
    ensures f.result.success <==> Nth(w, 0).ok && Nth(w, 2).ok
    ensures !Nth(w, 0).ok ==>
              f.result == FixResult(false, installFailed, Nth(w, 0).out, false)
              && f.w.issued == w.issued + [Sudo(["dnf", "install", "-y", package])]
    ensures Nth(w, 0).ok ==> f.w.issued == w.issued + [Sudo(["dnf", "install", "-y", package]), configure, enable]
    ensures Nth(w, 0).ok && !Nth(w, 2).ok ==> f.result == FixResult(false, enableFailed, Nth(w, 2).out, false)
    ensures f.result.success ==> f.result.message == done
  {
    var c := Exec.Run(w, Sudo(["dnf", "install", "-y", package]));
    if !c.ok then Fixed(FixResult(false, installFailed, c.out, false), c.w)
    else
      var conf := Exec.Run(c.w, configure);
      var e := Exec.Run(conf.w, enable);
      if e.ok then Fixed(Simple(true, done), e.w)
      else Fixed(FixResult(false, enableFailed, e.out, false), e.w)
  }

  const JailConfig := "[DEFAULT]\nbantime = 1h\nfindtime = 10m\nmaxretry = 5\n\n[sshd]\nenabled = true\n"

  const WriteJail: Cmd := Sudo(["bash", "-c", "echo '" + JailConfig + "' > /etc/fail2ban/jail.local"])

  /** `install_fail2ban` */
  function InstallFail2ban(w: World): (f: Fixed)
    ensures f.result.success <==> Nth(w, 0).ok && Nth(w, 2).ok
    ensures !Nth(w, 0).ok ==> f.w.issued == w.issued + [Sudo(["dnf", "install", "-y", "fail2ban"])]
  {
    InstallThenEnable(w, "fail2ban", WriteJail, Sudo(["systemctl", "enable", "--now", "fail2ban"]),
      "fail2ban installed and configured", "Failed to install fail2ban", "Failed to enable fail2ban")
  }

  /** The two edits of `/etc/dnf/automatic.conf`, joined by `&&` (the backslash-newline in the source is a line continuation). */
  const AutoUpdateConfig :=
    "sed -i 's/apply_updates = no/apply_updates = yes/' /etc/dnf/automatic.conf && "
    + "sed -i 's/upgrade_type = default/upgrade_type = security/' /etc/dnf/automatic.conf"

  /** `enable_auto_updates` */
  function EnableAutoUpdates(w: World): (f: Fixed)
    ensures f.result.success <==> Nth(w, 0).ok && Nth(w, 2).ok
    ensures !Nth(w, 0).ok ==> f.w.issued == w.issued + [Sudo(["dnf", "install", "-y", "dnf-automatic"])]
  {
    InstallThenEnable(w, "dnf-automatic", Sudo(["bash", "-c", AutoUpdateConfig]),
      Sudo(["systemctl", "enable", "--now", "dnf-automatic.timer"]),
      "Automatic security updates enabled", "Failed to install dnf-automatic", "Failed to enable auto-updates")
  }

  const ClamavInstall: Cmd := Sudo(["dnf", "install", "-y", "clamav", "clamav-update", "clamd"])

  const ClamavFollowUp: seq<Cmd> := [
    Sudo(["freshclam"]),
    Sudo(["systemctl", "enable", "--now", "clamav-freshclam"])
  ]

  /** `install_clamav`: only the install decides; the definitions update and the service run unchecked. */
  function InstallClamav(w: World): (f: Fixed)
    ensures f.result.success == Nth(w, 0).ok
    ensures !f.result.success ==> f.result.details == Nth(w, 0).out
    ensures f.w.issued == w.issued + [ClamavInstall] + (if Nth(w, 0).ok then ClamavFollowUp else [])
  {
    var c := Exec.Run(w, ClamavInstall);
    if !c.ok then Fixed(FixResult(false, "Failed to install ClamAV", c.out, false), c.w)
    else
      var b := RunAll(c.w, ClamavFollowUp);
      Fixed(Simple(true, "ClamAV installed and updating"), b.w)
  }

  const SensitiveFiles: seq<(string, string)> := [
    ("/etc/passwd", "644"),
    ("/etc/shadow", "000"),
    ("/etc/gshadow", "000"),
    ("/etc/sudoers", "440")
  ]

  function Chmods(): (cs: seq<Cmd>)
    ensures |cs| == |SensitiveFiles|
    ensures forall i :: 0 <= i < |cs| ==> cs[i] == Sudo(["chmod", SensitiveFiles[i].1, SensitiveFiles[i].0])
  {
    seq(|SensitiveFiles|, i requires 0 <= i < |SensitiveFiles| =>
      Sudo(["chmod", SensitiveFiles[i].1, SensitiveFiles[i].0]))
  }

  /**
   * `fix_file_permissions`: all four `chmod`s run whatever their outcomes; the
   * fix succeeds iff all of them did and reports how many did.
   */
  function FixFilePermissions(w: World): (f: Fixed)
    ensures f.w.issued == w.issued + Chmods()
    ensures f.result.success <==> forall i :: 0 <= i < 4 ==> Nth(w, i).ok
    ensures f.result.message == "Fixed " + NatStr(Trues(Oks(w, 4))) + "/4 file permissions"
    ensures Trues(Oks(w, 4)) <= 4
  {
    var b := RunAll(w, Chmods());
    assert b.oks == Oks(w, 4);
    TruesAll(b.oks);
    Fixed(Simple(Trues(b.oks) == 4, "Fixed " + NatStr(Trues(b.oks)) + "/4 file permissions"), b.w)
  }

  /** The `fix_map` of `apply_fix`. */
  function Handler(name: string): (h: Option<Fix.Handler>)
    ensures h.Some? <==> name in {"Firewall (firewalld)", "SELinux Status", "SSH Configuration",
                                  "Failed Login Attempts", "Automatic Updates", "Antivirus (ClamAV)",
                                  "File Permissions"}
  {
    if name == "Firewall (firewalld)" then Some(EnableFirewall)
    else if name == "SELinux Status" then Some(EnforceSelinux)
    else if name == "SSH Configuration" then Some(HardenSsh)
    else if name == "Failed Login Attempts" then Some(InstallFail2ban)
    else if name == "Automatic Updates" then Some(EnableAutoUpdates)
    else if name == "Antivirus (ClamAV)" then Some(InstallClamav)
    else if name == "File Permissions" then Some(FixFilePermissions)
    else None
  }

  /** `SecurityFixer.apply_fix` */
  function ApplyFix(w: World, r: CheckResult): (a: Applied)
    ensures !r.fixAvailable ==> a == Applied(None, w)
    ensures r.fixAvailable && r.name == "File Permissions" && AnswerAt(w, 0) ==>
              a.result == Some(FixFilePermissions(Ask(w).w).result)
    ensures r.fixAvailable && Handler(r.name).None? ==> a == OfferCommand(w, r)
  {
    Fix.ApplyFix(w, r, Handler(r.name))
  }
}
