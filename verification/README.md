# FedChecker, modelled in Dafny

FedChecker is a terminal tool for Fedora workstations. Its checkers probe
the health, drivers, security and desktop of the machine. Each probe gives
a check result (PASS, FAIL, WARN, SKIP or ERROR). The results of one checker
form a category, which is counted, scored and given a worst-of status.
Fixers act on the results flagged as fixable. A report generator averages
the category scores and lists recommendations by severity. A post-install
menu optimizes `/etc/dnf/dnf.conf`, enables repositories and installs
codecs and development tools.

This project models that pipeline as immutable datatypes and pure
functions, and proves properties of it.

- Every probe is a function from an observation record to a result. The
  record holds command outcomes, file contents and numeric readings.
- Each checker's `run_all_checks` is a fixed table of probes run in order.
  An exception in one probe becomes an ERROR result for that probe alone.
- Fixers and installers run against a scripted world (module `Exec`).
  Each command takes the next scripted outcome and is recorded as issued.
  Each confirmation prompt takes the next scripted answer. Package queries
  are answered from a set of installed packages.
- The menu cursor, the task-progress list, the dnf.conf parser and
  rewriter, the report's recommendation partition and the application's
  result cache and auto-fix pass are modelled on sequences.

Nothing here touches a real system. Command outputs, file contents,
environment variables, sensor readings and user answers are all parameters.

| file | models |
|---|---|
| wrappers.dfy, text.dfy | `Option`/`Result`, and the string operations the source uses (`split`, `strip`, `lower`, `in`, `replace`, `join`) |
| status.dfy | fedchecker/ui/colors.py |
| probe.dfy | the observation records and the exception isolation of `run_all_checks` |
| health.dfy, security.dfy, drivers.dfy, desktop.dfy | fedchecker/checks/ |
| progress.dfy, menu.dfy | fedchecker/ui/progress.py, fedchecker/ui/menu.py |
| report.dfy | the scoring and recommendation logic of fedchecker/reports/generator.py |
| exec.dfy, fix.dfy | the scripted executor, and the `FixResult` and `apply_fix` shape the four fixers share |
| health_fix.dfy, driver_fix.dfy, security_fix.dfy, desktop_fix.dfy | fedchecker/fixes/ |
| packages.dfy, dnf_optimizer.dfy, repos.dfy, codecs.dfy, devtools.dfy | fedchecker/postinstall/ |
| app.dfy | the result cache, auto-fix, report and exit logic of fedchecker/main.py |

## Model

| member | source | states |
|---|---|---|
| Status.Icon | fedchecker/ui/colors.py:87-96 | Exactly FAIL and ERROR get the FAIL icon; every status gets one of the four status icons, so the INFO fallback is never used |
| Status.Color | fedchecker/ui/colors.py:98-107 | Exactly FAIL and ERROR get the red colour (ERROR's colour has FAIL's value); every status gets one of the four check-result colours |
| Status.IconsDistinguish | fedchecker/ui/colors.py:87-107 | Two statuses share an icon, and likewise a colour, exactly when they are equal or both are FAIL/ERROR |
| Status.CountIsMultiplicity | fedchecker/ui/colors.py:117-127 | Each of passed/failed/warnings is the multiplicity of its status among the results |
| Status.CountsPartition | fedchecker/ui/colors.py:117-131 | The five per-status counts add up to the number of results |
| Status.CountPositive | fedchecker/ui/colors.py:117-127 | A status count is positive exactly when some result has that status |
| Status.CountFull | fedchecker/ui/colors.py:117-131 | A status count equals total exactly when every result has that status |
| Status.CountsBounded | fedchecker/ui/colors.py:117-131 | passed + failed + warnings <= total; the gap is the SKIP and ERROR results |
| Status.Score | fedchecker/ui/colors.py:133-140 | The score lies in [0, 100]; an empty category scores 100; otherwise score × total = 100 × (passed + warnings/2) |
| Status.ScorePerfect | fedchecker/ui/colors.py:136-140 | A non-empty category scores 100 exactly when every result is PASS |
| Status.ScoreExampleMixed | fedchecker/ui/colors.py:136-140 | [PASS, PASS, WARN, FAIL, SKIP] scores 50 |
| Status.ScoreExampleSkip | fedchecker/ui/colors.py:136-140 | Nine PASS and one SKIP score 90: SKIP only enlarges the denominator |
| Status.OverallStatus | fedchecker/ui/colors.py:142-149 | FAIL exactly when some result fails; WARN exactly when none fails and some warns; never SKIP or ERROR |
| Status.PermutationInvariant | fedchecker/ui/colors.py:117-149 | Two categories with the same multiset of statuses have equal counts, total, score and overall status |
| Progress.AddTask | fedchecker/ui/progress.py:130-137 | Appends exactly one task with the given name and status and no result, leaves the earlier tasks unchanged, and returns the old length as the new task's index |
| Progress.UpdateTask | fedchecker/ui/progress.py:139-143 | Inside the bounds only the indexed task changes, getting the new status and result under its old name; outside the bounds nothing changes |
| Progress.TaskIcon | fedchecker/ui/progress.py:145-155 | Total: exactly the six known status names avoid the "?" fallback; success, failed and warning get the PASS, FAIL and WARN icons; pending and skipped get the SKIP circle |
| Progress.Render | fedchecker/ui/progress.py:157-185 | One row per task in order; each row carries its task's status icon and its result text, or "" when there is none |
| Progress.ProgressOutcome | fedchecker/ui/progress.py:109-117 | A returned result is kept as is; an exception becomes an ERROR result named by the task description with message "Error: " + text |
| Progress.RunWithProgress | fedchecker/ui/progress.py:96-120 | One result per task, in task order; entry i is task i's outcome, so a raising task does not stop the others |
| Progress.FinalStatus | fedchecker/ui/progress.py:223-239 | A finished check leaves its task as success, warning, skipped or failed, never pending or running |
| Progress.FinalIconMatchesResult | fedchecker/ui/progress.py:223-239 | The icon of a task's final status equals the icon of the result the runner returns for it (FAIL, ERROR and exceptions all show as failed) |
| Progress.RunChecks | fedchecker/ui/progress.py:194-244 | One result per check, in order, with an exception becoming ERROR carrying its text; the task list ends with one finished task per check, under the check's name |
| Probe.Guard | fedchecker/checks/health.py:40-49 | A returned result passes through unchanged; a raising probe becomes an ERROR result with the table name, message "Check failed: " + text and no fix |
| Probe.RunTable | fedchecker/checks/health.py:40-55 | One result per table entry, in table order, each the guarded outcome of that entry's probe |
| Probe.Isolation | fedchecker/checks/health.py:40-49 | Changing what one probe does, including raising, changes no other entry's result and not the number of results |
| Probe.AllShapedConcat | fedchecker/checks/health.py:27-38 | Table pieces whose entries are each named after their row and keep fixes consistent concatenate to a table with the same property |
| Probe.RunTableShaped | fedchecker/checks/health.py:40-55 | Running such a table gives results named in table order, each with fix_available exactly when it has a fix command |
| Probe.FirstFive | fedchecker/checks/health.py:223 | `xs[:5]` keeps at most five entries, is a prefix of the list, and is the whole list when it has at most five |
| Health.CriticalLines | fedchecker/checks/health.py:62-69 | There is a critical line exactly when some considered, readable partition is at least 95% used; never more lines than partitions |
| Health.NearlyFullLines | fedchecker/checks/health.py:62-73 | There is a warning line exactly when some considered, readable partition is between 85% and 95% used |
| Health.DiskSpace | fedchecker/checks/health.py:57-99 | FAIL exactly when some partition (non-empty fstype, not under /snap, readable) is >= 95%; WARN exactly when none is but one is >= 85%; else PASS; the cleanup fix is offered exactly on FAIL and WARN |
| Health.DiskMonotone | fedchecker/checks/health.py:62-92 | Raising one partition's usage never lowers the verdict along PASS < WARN < FAIL |
| Health.Memory | fedchecker/checks/health.py:101-127 | FAIL exactly at >= 95% used, WARN exactly in [85, 95), PASS below 85; never a fix |
| Health.MaxFrom | fedchecker/checks/health.py:141-145 | The running maximum is at least the start and every reading, and is one of them |
| Health.Flatten | fedchecker/checks/health.py:142-143 | Every reading of every sensor is visited, and nothing else |
| Health.CpuTemperature | fedchecker/checks/health.py:129-173 | SKIP exactly when the sensors cannot be read or there are none; FAIL exactly when some reading is >= 90; never a fix |
| Health.TemperatureLadder | fedchecker/checks/health.py:141-167 | With sensors present the hottest reading (floored at 0) decides: WARN exactly in [75, 90), PASS exactly below 75 |
| Health.Swap | fedchecker/checks/health.py:175-204 | No swap gives WARN with the swap-file fix; with swap, WARN without a fix exactly at >= 80% used, else PASS |
| Health.FirstTokens | fedchecker/checks/health.py:216 | `line.split()[0]` for every line: fails (IndexError) exactly when some line has no token; otherwise one first token per line, in order |
| Health.FailedUnits | fedchecker/checks/health.py:206-238 | Timeout gives SKIP; a missing binary raises; a completed run raises exactly when a non-empty line is all whitespace, otherwise FAIL with `systemctl reset-failed` exactly when some unit is listed |
| Health.FailedUnitsDetails | fedchecker/checks/health.py:216-226 | A FAIL's details join the first at most five unit names |
| Health.Load | fedchecker/checks/health.py:240-267 | With n the CPU count (1 when unknown): FAIL exactly when load1 >= 2n, WARN exactly in [n, 2n), PASS below n; never a fix |
| Health.DivAtLeast | fedchecker/checks/health.py:246-255 | Comparing load1/n with a threshold is comparing load1 with threshold × n |
| Health.ZombieLines | fedchecker/checks/health.py:271-278 | There is a line exactly when some readable process is a zombie; vanished processes are skipped |
| Health.Zombies | fedchecker/checks/health.py:269-292 | WARN exactly when some readable process is a zombie, else PASS; never a fix |
| Health.DnfStatus | fedchecker/checks/health.py:294-330 | Non-zero exit gives FAIL with the repair command and at most 200 characters of stderr (or the fallback text); a missing binary gives ERROR; timeout gives SKIP; exit 0 gives PASS |
| Health.JournalErrors | fedchecker/checks/health.py:332-369 | Failure to run gives SKIP; otherwise WARN exactly when more than 100 non-empty lines, else PASS; never a fix |
| Health.OrphanedPackages | fedchecker/checks/health.py:371-403 | Failure to run gives SKIP; otherwise WARN with `dnf autoremove` exactly when more than 10 packages, else PASS |
| Health.Group1 | fedchecker/checks/health.py:28-30 | The first three probes are each named after their table entry and keep fixes consistent |
| Health.Group2 | fedchecker/checks/health.py:31-33 | Likewise for Swap Space, Failed Systemd Units and System Load |
| Health.Group3 | fedchecker/checks/health.py:34-35 | Likewise for Zombie Processes and Package Manager |
| Health.Group4 | fedchecker/checks/health.py:36-37 | Likewise for Journal Errors and Orphaned Packages |
| Health.Attempts | fedchecker/checks/health.py:27-38 | The ten probes in table order, each shaped for its entry |
| Health.RunAllChecks | fedchecker/checks/health.py:23-55 | Exactly ten results in table order, each named after its entry with consistent fixes, each the guarded outcome of its probe; the category is "Health Check" with the health icon |
| Security.Firewall | fedchecker/checks/security.py:70-98 | FAIL with the enable-firewalld fix exactly when the status query fails or says "inactive"; otherwise PASS with no fix |
| Security.SELinux | fedchecker/checks/security.py:100-136 | A failed query gives WARN without a fix; otherwise the stripped, lower-cased mode decides: "enforcing" PASS, "permissive" WARN with the setenforce fix, anything else FAIL with the config fix |
| Security.DirectiveSomewhere | fedchecker/checks/security.py:153-166 | A `^\s*KEY\s+yes` multi-line search succeeds exactly when some line start begins a match |
| Security.SshIssues | fedchecker/checks/security.py:150-171 | At most two issues; there is one exactly when PermitRootLogin or PermitEmptyPasswords is set to yes |
| Security.SshConfig | fedchecker/checks/security.py:138-194 | A missing sshd_config gives SKIP; an unreadable one raises; otherwise WARN with the sshd fix exactly when root login or empty passwords are allowed, else PASS, whatever PasswordAuthentication and X11Forwarding say |
| Security.LinePorts | fedchecker/checks/security.py:209-219 | One optional port per output line, the port its line lists |
| Security.ListeningPorts | fedchecker/checks/security.py:208-219 | At most one port per line |
| Security.ListeningPortsSpec | fedchecker/checks/security.py:208-219 | Every listed port comes from some LISTEN line with at least five fields, and every such line's port (text after the last ':' of field 5) is listed |
| Security.ExternalPorts | fedchecker/checks/security.py:220-221 | Exactly the listed ports other than 22, 631 and 5353 remain |
| Security.ExternalPortsCounted | fedchecker/checks/security.py:221 | Duplicates are kept: each unsafe port keeps its multiplicity and safe ports vanish |
| Security.OpenPorts | fedchecker/checks/security.py:196-235 | A failed `ss` gives SKIP; otherwise WARN exactly when more than five unsafe ports remain (duplicates counted), with the number of all listening ports in the message; never a fix |
| Security.FailedLogins | fedchecker/checks/security.py:237-281 | SKIP exactly when both the journal and lastb fail; the journal is used when it succeeds; WARN with the fail2ban fix exactly when occurrences of "failed" plus "authentication failure" in the lower-cased log exceed 50 |
| Security.RootHash | fedchecker/checks/security.py:297-300 | None exactly when no line starts with "root:"; otherwise the second ':'-field ("" if none) of the first such line |
| Security.RootAccount | fedchecker/checks/security.py:283-326 | A missing or unreadable shadow file gives SKIP ("Cannot read shadow file"), a refused open gives SKIP ("Cannot check root account"); otherwise WARN exactly when a root line exists whose hash is not "", "*", "!!" or "!"; otherwise PASS; never a fix |
| Security.Sudo | fedchecker/checks/security.py:328-373 | Raises exactly when the user is in wheel and sudoers.d cannot be listed; otherwise WARN exactly when the user is not in wheel or a readable sudoers file contains NOPASSWD |
| Security.AutoUpdates | fedchecker/checks/security.py:375-404 | PASS exactly when dnf-automatic or PackageKit reports "enabled"; otherwise WARN with the dnf-automatic fix |
| Security.MinLength | fedchecker/checks/security.py:422-423 | The number of the first line matching `^\s*minlen\s*=\s*(\d+)`, or 8 when no line matches |
| Security.PasswordPolicy | fedchecker/checks/security.py:406-437 | A missing pwquality.conf gives WARN with the libpwquality fix; an unreadable one raises; otherwise WARN exactly when minlen < 8, never with a fix |
| Security.PermBits | fedchecker/checks/security.py:453 | `st_mode & 0o777` is below 512 |
| Security.Oct | fedchecker/checks/security.py:455 | `oct()` output starts with "0o" and has at least one digit |
| Security.PermissionIssues | fedchecker/checks/security.py:450-455 | There is an issue line exactly when some existing file's permission bits are numerically greater than its expected mode |
| Security.SensitiveFiles | fedchecker/checks/security.py:439-469 | WARN exactly when one of the four files is flagged by the numeric comparison, else PASS; never a fix |
| Security.NumericModeComparison | fedchecker/checks/security.py:453-454 | The comparison is numeric, not by bits: a 0o622 /etc/passwd passes while 0o700 is flagged |
| Security.KernelIssues | fedchecker/checks/security.py:475-489 | At most three issues; there is one exactly when a readable sysctl's stripped value differs from its expected value |
| Security.KernelSecurity | fedchecker/checks/security.py:471-503 | WARN exactly when ip_forward is not "0", rp_filter not "1" or randomize_va_space not "2" (unreadable files ignored), else PASS |
| Security.Antivirus | fedchecker/checks/security.py:505-536 | No clamscan gives SKIP with the install fix; otherwise PASS exactly when freshclam is active, else WARN with the freshclam fix; a fix is offered exactly when not PASS |
| Security.Quarter1 | fedchecker/checks/security.py:26-28 | The first three probes are each named after their table entry and keep fixes consistent |
| Security.Quarter2 | fedchecker/checks/security.py:29-31 | Likewise for Open Ports, Failed Login Attempts and Root Account |
| Security.Quarter3 | fedchecker/checks/security.py:32-34 | Likewise for Sudo Configuration, Automatic Updates and Password Policy |
| Security.Quarter4 | fedchecker/checks/security.py:35-37 | Likewise for File Permissions, Kernel Security and Antivirus |
| Security.Attempts | fedchecker/checks/security.py:25-38 | The twelve probes in table order, each shaped for its entry |
| Security.RunAllChecks | fedchecker/checks/security.py:21-55 | Exactly twelve results in table order, each named after its entry with consistent fixes, each the guarded outcome of its probe |
| Drivers.KeptPrefix | fedchecker/checks/drivers.py:87-95 | The captured lines among the first n, never more than n |
| Drivers.CaptureGpuLines | fedchecker/checks/drivers.py:84-95 | The loop with its `capturing` flag captures exactly the lines that are headers, or tab-indented lines following a captured line |
| Drivers.KeptHasHeader | fedchecker/checks/drivers.py:87-95 | Every captured line has a header (VGA, 3D controller, Display controller) at or before it |
| Drivers.KeptPrefixSpec | fedchecker/checks/drivers.py:87-95 | The captured list holds exactly the kept lines: headers always, tab-indented lines only while capturing |
| Drivers.GpuLinesEmpty | fedchecker/checks/drivers.py:87-97 | Nothing is captured exactly when no line is a GPU header |
| Drivers.GpuDriver | fedchecker/checks/drivers.py:68-157 | lspci failure gives SKIP; no GPU lines gives WARN; an NVIDIA GPU gives WARN with the nvidia fix on nouveau and FAIL with the akmod fix without a driver; PASS exactly when a GPU was found and it is not NVIDIA or runs the proprietary nvidia driver, with the vendor heading the message and the first GPU line as details |
| Drivers.InterfaceName | fedchecker/checks/drivers.py:168-170 | `re.match(r'\d+: (\w+):')` yields a non-empty name, and only for a line starting with a digit |
| Drivers.LineInterfaces | fedchecker/checks/drivers.py:165-170 | For each line, the interface it names when its lower-cased text mentions one of the keys, else nothing |
| Drivers.InterfacesEmpty | fedchecker/checks/drivers.py:165-172 | No interface is found exactly when `ip link` failed or no line both mentions a key and names an interface |
| Drivers.WifiDriver | fedchecker/checks/drivers.py:159-213 | Without a wireless interface: FAIL with the firmware fix exactly when lspci mentions Wireless/Wi-Fi/WLAN, else SKIP; with one: WARN with `rfkill unblock wifi` exactly when soft- or hard-blocked, else PASS |
| Drivers.CardMatch | fedchecker/checks/drivers.py:252 | A `\s*\d+\s+\[` match at the start of the text is at least three characters long and inside the text |
| Drivers.CardCount | fedchecker/checks/drivers.py:252 | The card count is positive exactly when some line start begins a `\s*\d+\s+\[` match |
| Drivers.AudioDriver | fedchecker/checks/drivers.py:215-258 | No /proc/asound/cards gives FAIL with the sound-subsystem fix; an unreadable one raises; FAIL with the firmware fix exactly when it says "no soundcards" or is blank; else PASS |
| Drivers.Bluetooth | fedchecker/checks/drivers.py:260-305 | SKIP exactly when neither lsusb nor lspci mentions Bluetooth and there is no hci entry; otherwise WARN exactly when the service is not active (service fix) or the radio is blocked (unblock fix), else PASS |
| Drivers.NonBlank | fedchecker/checks/drivers.py:318 | Filtering keeps at most the input lines |
| Drivers.NonBlankSpec | fedchecker/checks/drivers.py:318 | The kept lines are exactly the input lines whose stripped text is non-empty |
| Drivers.Usb | fedchecker/checks/drivers.py:307-328 | lsusb failure gives SKIP, anything else PASS; never a fix |
| Drivers.Ethernet | fedchecker/checks/drivers.py:330-367 | SKIP exactly when no eth/enp/eno interface is found; otherwise PASS naming the first interface's driver and "connected" exactly when its carrier reads 1 |
| Drivers.Webcam | fedchecker/checks/drivers.py:369-396 | No video device gives SKIP; otherwise PASS counting the /dev/videoN nodes v4l2-ctl lists when it prints something, else the devices found |
| Drivers.NoVideoNodes | fedchecker/checks/drivers.py:385 | Output without "/dev/video" counts no camera |
| Drivers.Firmware | fedchecker/checks/drivers.py:398-434 | No fwupdmgr gives WARN with the install fix; otherwise WARN with `fwupdmgr update` exactly when the query succeeded without "No upgrades"/"No updates", else PASS |
| Drivers.LineHead | fedchecker/checks/drivers.py:449 | The text up to the first newline is a prefix without a newline, so `.*` stays on one line |
| Drivers.LastIndex | fedchecker/checks/drivers.py:449 | The last occurrence of a pattern: it occurs there and at no later position; None when it never occurs |
| Drivers.ProbeMatch | fedchecker/checks/drivers.py:449 | A `(\w+): probe of .* failed` match captures the maximal non-empty run of word characters and stays inside the text |
| Drivers.DistinctAtMost | fedchecker/checks/drivers.py:451 | `len(set(xs))` is at most `len(xs)` |
| Drivers.DistinctRepeat | fedchecker/checks/drivers.py:451 | Finding a name again adds no issue |
| Drivers.ModuleIssues | fedchecker/checks/drivers.py:448-451 | The issue count (distinct missing firmware plus distinct failing modules) is at most the number of matches |
| Drivers.KernelModules | fedchecker/checks/drivers.py:436-473 | dmesg failure gives SKIP; otherwise WARN with the linux-firmware fix exactly when more than five issues, else PASS |
| Drivers.HwAcceleration | fedchecker/checks/drivers.py:475-510 | PASS exactly when vainfo lists a VAProfile or vdpauinfo reports VDPAU; otherwise WARN with the acceleration fix |
| Drivers.Group1 | fedchecker/checks/drivers.py:26 | The GPU probe is named after its table entry and keeps fixes consistent |
| Drivers.Group2 | fedchecker/checks/drivers.py:27-28 | Likewise for WiFi Driver and Audio Driver |
| Drivers.Group3 | fedchecker/checks/drivers.py:29-31 | Likewise for Bluetooth, USB Controllers and Network (Ethernet) |
| Drivers.Group4 | fedchecker/checks/drivers.py:32-33 | Likewise for Webcam and Firmware Updates |
| Drivers.Group5 | fedchecker/checks/drivers.py:34-35 | Likewise for Kernel Modules and Hardware Acceleration |
| Drivers.Attempts | fedchecker/checks/drivers.py:25-36 | The ten probes in table order, each shaped for its entry |
| Drivers.RunAllChecks | fedchecker/checks/drivers.py:21-53 | Exactly ten results in table order, each named after its entry with consistent fixes, each the guarded outcome of its probe |
| Desktop.DeNameKnown | fedchecker/checks/desktop.py:89-102 | The desktop is "Unknown" exactly when no `de_map` key occurs in the lower-cased XDG_CURRENT_DESKTOP and neither GNOME_DESKTOP_SESSION_ID nor KDE_FULL_SESSION is set non-empty |
| Desktop.DeMapNamed | fedchecker/checks/desktop.py:75-88 | No `de_map` entry maps to "Unknown", so a found key always settles the name |
| Desktop.DeNameFirstKey | fedchecker/checks/desktop.py:92-95 | The first key in map order that occurs in the session name gives the name, whatever the fallback variables say |
| Desktop.VersionMatch | fedchecker/checks/desktop.py:121 | A `\d+\.\d+` match is a non-empty prefix of the text it is taken from |
| Desktop.DesktopEnvironment | fedchecker/checks/desktop.py:71-131 | WARN exactly when the desktop is unknown; otherwise PASS with a message that starts with the desktop name; never a fix |
| Desktop.DisplayServer | fedchecker/checks/desktop.py:133-163 | PASS exactly for a "wayland" or "x11" session type, SKIP exactly for "tty", WARN exactly for anything else |
| Desktop.Compositor | fedchecker/checks/desktop.py:165-217 | A Wayland session always passes; otherwise SKIP exactly when xdpyinfo fails and WARN exactly when it succeeds without mentioning "Composite" |
| Desktop.DisplayManager | fedchecker/checks/desktop.py:219-243 | PASS exactly when one of gdm, sddm, lightdm, lxdm, xdm is active, reporting the first active one in that order; otherwise WARN |
| Desktop.RateMatch | fedchecker/checks/desktop.py:266 | A refresh-rate match is non-empty and fits in the text |
| Desktop.HeightRate | fedchecker/checks/desktop.py:266 | The height captured ends before the whole match does, and the match fits in the text |
| Desktop.ResolutionMatch | fedchecker/checks/desktop.py:266 | A resolution match is non-empty and fits in the text |
| Desktop.ConnectedMatch | fedchecker/checks/desktop.py:276 | A `(\w+) connected` match captures a non-empty name and is ten characters longer than it |
| Desktop.Resolution | fedchecker/checks/desktop.py:245-288 | SKIP exactly when `xrandr --current` fails; otherwise PASS exactly when a starred mode or a connected output is found, else WARN; the Wayland commands before it do not matter |
| Desktop.Themes | fedchecker/checks/desktop.py:294-313 | No theme is recorded exactly when all three gsettings queries fail |
| Desktop.Ellipsize | fedchecker/checks/desktop.py:320 | A text of at most n characters is kept; a longer one keeps its first n characters and gains "...", so the result has at most n + 3 characters |
| Desktop.ThemesCheck | fedchecker/checks/desktop.py:290-327 | SKIP exactly when no theme is found; otherwise PASS with a message of at most 53 characters |
| Desktop.FontCount | fedchecker/checks/desktop.py:340 | The count is one more than the number of newlines in the stripped listing, so an empty listing counts one font |
| Desktop.FoundFonts | fedchecker/checks/desktop.py:343-344 | No more families are reported than are looked for; which ones is stated by Desktop.FoundFontsSpec |
| Desktop.FoundFontsSpec | fedchecker/checks/desktop.py:343-344 | A family is reported exactly when it is one looked for and its lower-cased name occurs in the lower-cased fc-list output |
| Desktop.FoundFontsAppend | fedchecker/checks/desktop.py:343-344 | The families keep the order of the common-font list: the result over two stretches of the list is the two results in turn |
| Desktop.Fonts | fedchecker/checks/desktop.py:329-360 | SKIP exactly when fc-list fails; otherwise WARN with the font-package fix exactly when fewer than 50 fonts are counted, else PASS |
| Desktop.GnomeExtensions | fedchecker/checks/desktop.py:362-397 | SKIP exactly when the session is not GNOME or `gnome-extensions list --enabled` fails; otherwise PASS |
| Desktop.Flatpak | fedchecker/checks/desktop.py:399-442 | WARN exactly when flatpak is missing or the app list succeeds without a flathub remote, with the install fix or the remote-add fix respectively; otherwise PASS |
| Desktop.PortalLabelCore | fedchecker/checks/desktop.py:457 | The core package `xdg-desktop-portal` is listed as "core" |
| Desktop.PortalLabelBackend | fedchecker/checks/desktop.py:457 | A backend package `xdg-desktop-portal-X` is listed as X, when X does not itself contain the package prefix |
| Desktop.InstalledPortals | fedchecker/checks/desktop.py:453-457 | At most one label per package; none exactly when every `rpm -q` fails |
| Desktop.Portals | fedchecker/checks/desktop.py:444-487 | PASS exactly when some portal package is installed and the user portal service is active; otherwise WARN with the install fix when none is installed and the service fix when one is |
| Desktop.Group1 | fedchecker/checks/desktop.py:28-29 | The first two probes are named after their table entries and keep fixes consistent |
| Desktop.Group2 | fedchecker/checks/desktop.py:30-32 | Likewise for Compositor, Display Manager and Screen Resolution |
| Desktop.Group3 | fedchecker/checks/desktop.py:33-35 | Likewise for Theme & Icons, Fonts and GNOME Extensions |
| Desktop.Group4 | fedchecker/checks/desktop.py:36-37 | Likewise for Flatpak Apps and Desktop Portals |
| Desktop.Attempts | fedchecker/checks/desktop.py:27-38 | The ten probes in table order, each shaped for its entry |
| Desktop.RunAllChecks | fedchecker/checks/desktop.py:23-55 | Exactly ten results in table order, each named after its entry with consistent fixes, each the guarded outcome of its probe |
| Report.StatusColor | fedchecker/reports/generator.py:129-137 | Red exactly for FAIL and ERROR, grey exactly for SKIP, green exactly for PASS, yellow exactly for WARN |
| Report.StatusSymbol | fedchecker/reports/generator.py:139-147 | A cross exactly for FAIL and ERROR, a circle exactly for SKIP, a tick exactly for PASS, a warning sign exactly for WARN |
| Report.SumBetween | fedchecker/reports/generator.py:210 | A list of n numbers between lo and hi sums to between n·lo and n·hi |
| Report.MeanFacts | fedchecker/reports/generator.py:210 | Dividing a sum of n scores in [0, 100] by n gives a value in [0, 100] that multiplies back to the sum |
| Report.Mean | fedchecker/reports/generator.py:209-212 | The mean of scores in [0, 100] is in [0, 100]; it is 0 for no scores and otherwise n times it is the sum |
| Report.MeanBetween | fedchecker/reports/generator.py:210 | The mean lies between any lower and upper bound of the numbers |
| Report.Scores | fedchecker/reports/generator.py:210 | One score per category, each that category's score and each in [0, 100] |
| Report.OverallScore | fedchecker/reports/generator.py:208-212 | The overall score is in [0, 100], 0 with no categories, and otherwise the category scores' sum divided by their number |
| Report.OverallBetween | fedchecker/reports/generator.py:208-212 | The overall score lies between the lowest and the highest category score |
| Report.Banding | fedchecker/reports/generator.py:221-229 | Excellent exactly at 80 or more, some issues exactly from 60 up to but not including 80, attention exactly below 60 |
| Report.AllExcellent | fedchecker/reports/generator.py:208-223 | When every category scores at least 80 the summary says excellent health |
| Report.CategoryTable | fedchecker/reports/generator.py:265-275 | A header row then one row per result, in order, holding its status symbol, name and message |
| Report.Recommend | fedchecker/reports/generator.py:315-322 | A recommendation carries its category, check name, message and details; it is High exactly for a FAIL; it has a fix exactly when one is available, and then it is the result's fix command |
| Report.RecommendationsOf | fedchecker/reports/generator.py:313-322 | A category gives at most one recommendation per result |
| Report.RecommendationsOfSound | fedchecker/reports/generator.py:314 | Every recommendation of a category is made for one of its results that failed or warned |
| Report.RecommendationsOfComplete | fedchecker/reports/generator.py:314 | Every result of a category that failed or warned gets its recommendation |
| Report.RecommendationsOfEmpty | fedchecker/reports/generator.py:313-322 | A category gives no recommendation exactly when none of its results failed or warned |
| Report.RecommendationsEmpty | fedchecker/reports/generator.py:312-329 | There is no recommendation at all exactly when no result of any category failed or warned |
| Report.Highs | fedchecker/reports/generator.py:332 | The High group holds only High recommendations |
| Report.Mediums | fedchecker/reports/generator.py:332 | The Medium group holds only Medium recommendations |
| Report.Insert | fedchecker/reports/generator.py:332 | Inserting adds exactly one element |
| Report.SortBySeverity | fedchecker/reports/generator.py:332 | Sorting keeps the length |
| Report.InsertMedium | fedchecker/reports/generator.py:332 | A Medium recommendation is placed after everything already sorted |
| Report.InsertHigh | fedchecker/reports/generator.py:332 | A High recommendation is placed after the Highs already sorted and before the Mediums |
| Report.SortPartitions | fedchecker/reports/generator.py:331-332 | The sort is stable: its result is the High recommendations in their original order followed by the Medium ones in theirs |
| Report.HighsFirst | fedchecker/reports/generator.py:332 | After sorting no Medium recommendation precedes a High one |
| Report.SortPermutes | fedchecker/reports/generator.py:332 | Sorting is a permutation: every recommendation occurs as often as before |
| Report.PartitionPermutes | fedchecker/reports/generator.py:332 | The High and Medium groups together hold every recommendation exactly as often as the list does |
| Report.RecommendationsSection | fedchecker/reports/generator.py:301-360 | "No recommendations" exactly when no result failed or warned; otherwise the list shown is the High recommendations then the Medium ones, each in category-then-result order |
| DnfOptimizer.OptimizationsGood | fedchecker/postinstall/dnf_optimizer.py:29-36 | The six optimizations have distinct plain keys and values, none starting like a comment or a section header |
| DnfOptimizer.IndexOf | fedchecker/postinstall/dnf_optimizer.py:70 | `split('=', 1)` cuts at the first `=`: the position holds `=` and no earlier one does |
| DnfOptimizer.ParseSilent | fedchecker/postinstall/dnf_optimizer.py:67-71 | A key is read from the file exactly when some line sets it |
| DnfOptimizer.ParseLast | fedchecker/postinstall/dnf_optimizer.py:67-71 | A key's value is the one given by the last line that sets it |
| DnfOptimizer.ParseAppend | fedchecker/postinstall/dnf_optimizer.py:67-71 | Reading two blocks of lines, a key takes the second block's value when that block sets it and the first block's otherwise |
| DnfOptimizer.ParseSame | fedchecker/postinstall/dnf_optimizer.py:67-71 | Texts that set a key on the same lines to the same values read the same value for it |
| DnfOptimizer.ParseAll | fedchecker/postinstall/dnf_optimizer.py:67-71 | A key that some line sets, and that every such line sets to v, reads v |
| DnfOptimizer.CurrentConfig | fedchecker/postinstall/dnf_optimizer.py:58-75 | A missing or unreadable file gives no settings; otherwise a key is read exactly when some stripped, non-comment, non-header line with `=` sets it |
| DnfOptimizer.CurrentStatus | fedchecker/postinstall/dnf_optimizer.py:77-96 | One row per optimization in table order, showing its current value or "Not set" and its recommended value; a row is done exactly when the rewrite would treat the setting as settled, for any good table whose values are not "not set" |
| DnfOptimizer.StatusAgreesWithRewrite | fedchecker/postinstall/dnf_optimizer.py:87-91 | For the six optimizations, the status table marks a setting done exactly when the rewrite leaves it alone |
| DnfOptimizer.MatchFrom | fedchecker/postinstall/dnf_optimizer.py:128-129 | The optimization a line matches is the first in table order whose `key=` or `#key=` starts the stripped line; none when no optimization does |
| DnfOptimizer.EditLine | fedchecker/postinstall/dnf_optimizer.py:123-140 | A line matching no optimization is kept unchanged; a matching one is replaced by `key=value` with a change recorded exactly when the current value differs from the recommended one ignoring case, and kept otherwise |
| DnfOptimizer.Edits | fedchecker/postinstall/dnf_optimizer.py:123-140 | The rewrite loop handles each line on its own, in order, one output line per input line |
| DnfOptimizer.MissingFromSpec | fedchecker/postinstall/dnf_optimizer.py:146-147 | The optimizations listed as missing are exactly those no line applied, in increasing table order |
| DnfOptimizer.Inserted | fedchecker/postinstall/dnf_optimizer.py:148 | One `key=value` line per missing optimization, in order |
| DnfOptimizer.FirstMatch | fedchecker/postinstall/dnf_optimizer.py:128-129 | With distinct keys without `=`, a line starting `k=` matches k's optimization first |
| DnfOptimizer.MatchOfAssign | fedchecker/postinstall/dnf_optimizer.py:131 | A `key=value` line the rewrite writes matches its own optimization |
| DnfOptimizer.EntryOfAssign | fedchecker/postinstall/dnf_optimizer.py:131 | A `key=value` line the rewrite writes sets its key to the recommended value |
| DnfOptimizer.SetterMatches | fedchecker/postinstall/dnf_optimizer.py:67-129 | A line that sets an optimization's key with no whitespace before `=` matches that optimization |
| DnfOptimizer.EditKeepsMatch | fedchecker/postinstall/dnf_optimizer.py:128-137 | Rewriting a line does not change which optimization it matches |
| DnfOptimizer.EditSetsOnlyMatched | fedchecker/postinstall/dnf_optimizer.py:128-137 | After the rewrite, a well-spelled line sets an optimization's key only if it matched that optimization |
| DnfOptimizer.WrittenMain | fedchecker/postinstall/dnf_optimizer.py:143-145 | The first `[main]` line of the rewritten lines is where it was before the rewrite |
| DnfOptimizer.AppliedMatched | fedchecker/postinstall/dnf_optimizer.py:135 | An optimization is marked applied exactly when some line matches it |
| DnfOptimizer.RewriteShape | fedchecker/postinstall/dnf_optimizer.py:119-151 | Each input line gives one output line; without a `[main]` line nothing is inserted; with one, the missing settings go right after the first `[main]` line and their "Not set" changes follow the loop's changes |
| DnfOptimizer.InsertedUnmatched | fedchecker/postinstall/dnf_optimizer.py:142-151 | The inserted settings are exactly the optimizations no line matched, in table order |
| DnfOptimizer.NoChanges | fedchecker/postinstall/dnf_optimizer.py:123-191 | No change is recorded exactly when every matched line already has its recommended value and, if there is a `[main]` line, every optimization is matched by some line |
| DnfOptimizer.LoopUnchanged | fedchecker/postinstall/dnf_optimizer.py:123-140 | The rewrite loop records no change exactly when every matched line already has its recommended value |
| DnfOptimizer.NothingMissing | fedchecker/postinstall/dnf_optimizer.py:146-147 | Nothing is inserted exactly when every optimization was applied |
| DnfOptimizer.SettledKeeps | fedchecker/postinstall/dnf_optimizer.py:130-134 | A setting that already has its value reads the same after the rewrite loop |
| DnfOptimizer.UnsettledSets | fedchecker/postinstall/dnf_optimizer.py:130-132 | A matched setting without its value reads the recommended value after the rewrite loop |
| DnfOptimizer.UnmatchedSilent | fedchecker/postinstall/dnf_optimizer.py:123-140 | A setting no line matches is set by no rewritten line |
| DnfOptimizer.MatchedAfter | fedchecker/postinstall/dnf_optimizer.py:119-151 | After one rewrite, a setting some line matched reads its recommended value |
| DnfOptimizer.InsertedAfter | fedchecker/postinstall/dnf_optimizer.py:142-151 | After one rewrite of a file with a `[main]` line, a setting no line matched reads its recommended value |
| DnfOptimizer.AssembleCovers | fedchecker/postinstall/dnf_optimizer.py:142-151 | With a `[main]` line, every optimization is matched by some line of the result |
| DnfOptimizer.ResultSettled | fedchecker/postinstall/dnf_optimizer.py:119-151 | Every line of the result that matches an optimization reads that optimization's recommended value |
| DnfOptimizer.Idempotent | fedchecker/postinstall/dnf_optimizer.py:119-151 | Rewriting the result a second time records no change, provided no original line spells an optimization key with whitespace before its `=` |
| DnfOptimizer.RewriteLinesPlain | fedchecker/postinstall/dnf_optimizer.py:118-154 | Lines without newlines rewrite to lines without newlines, so joining and splitting the result gives its lines back |
| DnfOptimizer.ApplyOptimizations | fedchecker/postinstall/dnf_optimizer.py:98-191 | An unreadable file fails with "Cannot read DNF config: …" and writes nothing; otherwise the joined lines of the rewrite (of `[main]\n` for a missing file) are written; when both the echo and the staging of the copy fail it reports "Failed to write config: …"; otherwise it succeeds with the rewrite's changes, saying "DNF already optimized" exactly when there are none and "Applied n optimization(s)" otherwise |
| DnfOptimizer.MissingFile | fedchecker/postinstall/dnf_optimizer.py:108-151 | Without a file, every optimization is inserted after a bare `[main]` and recorded as not set |
| DnfOptimizer.ConfigOfSource | fedchecker/postinstall/dnf_optimizer.py:58-119 | The settings read at the start are the ones read from the lines the rewrite starts from |
| DnfOptimizer.AppliedTwice | fedchecker/postinstall/dnf_optimizer.py:98-191 | Applying the optimizations to the content they computed reports "DNF already optimized", for a well-spelled original |
| DnfOptimizer.RewriteUnchanged | fedchecker/postinstall/dnf_optimizer.py:119-151 | A rewrite that records no change gives back exactly the lines it read |
| DnfOptimizer.WrittenStable | fedchecker/postinstall/dnf_optimizer.py:98-154 | Applying the optimizations to the content they computed computes the same content again |
| DnfOptimizer.RunOptimizer | fedchecker/postinstall/dnf_optimizer.py:155-227 | The result is the one computed for the echo's outcome; an unreadable file issues nothing; otherwise the echo is issued, then the `cp` fallback when the echo failed and staging succeeded, then `dnf clean all` and `dnf makecache --refresh` exactly when the run succeeded with changes |
| DnfOptimizer.RunTwice | fedchecker/postinstall/dnf_optimizer.py:211-227 | Running again over the content computed finds nothing to change and issues only the echo, with the same content |
| DnfOptimizer.HeaderUnmatched | fedchecker/postinstall/dnf_optimizer.py:128-129 | A line starting with `[` matches no optimization |
| DnfOptimizer.MainUnmatched | fedchecker/postinstall/dnf_optimizer.py:128-144 | The `[main]` header matches no optimization |
| Menu.AddItem | fedchecker/ui/menu.py:41-59 | Exactly one item, built from the arguments, is appended at the end; the other items, the title, the subtitle and the selection are unchanged |
| Menu.Toward | fedchecker/ui/menu.py:127-139 | Walking k single steps from a position lands on a valid position that lies k steps away |
| Menu.Start | fedchecker/ui/menu.py:129-136 | The first step `(selected_index ± 1) % len(items)` lands on a valid position, the cyclic neighbour of a valid selection |
| Menu.ScanRoom | fedchecker/ui/menu.py:131-139 | While the scan is on a disabled item with an enabled item somewhere, fewer steps have been taken than there are items, so the loop terminates |
| Menu.Scan | fedchecker/ui/menu.py:131-139 | The skipping loop stops on an enabled item and passes no enabled item on the way |
| Menu.Move | fedchecker/ui/menu.py:127-139 | Only the selection changes; it lands on an enabled item, the first met stepping from the current one in the move's direction, cyclically; when the current item is the only enabled one the move returns to it |
| Menu.MoveBack | fedchecker/ui/menu.py:127-139 | From an enabled item, a move in one direction followed by a move in the other returns to the same menu |
| Menu.Select | fedchecker/ui/menu.py:141-146 | An action is invoked exactly when the selected item is enabled and has one, and it is that item's action |
| Menu.KeyAction | fedchecker/ui/menu.py:148-153 | The item found is the first enabled one whose key equals the pressed key ignoring case; none when no enabled item does |
| Menu.Shortcut | fedchecker/ui/menu.py:271-275 | The selection moves to the first item whose key equals the found item's key exactly; nothing else changes |
| Menu.RunMenu | fedchecker/ui/menu.py:241-276 | The items, title and subtitle never change and the selection stays valid; a returned key is "0" or the key of some item |
| Menu.QuitKeys | fedchecker/ui/menu.py:266-267 | "escape", "q" and "ctrl+c" return "0" at once, whatever the items, so an item keyed "q" is never reached by its shortcut |
| Menu.EnterKey | fedchecker/ui/menu.py:263-265 | Enter returns the selected item's key, whether or not the item is enabled |
| Menu.ShortcutKey | fedchecker/ui/menu.py:268-275 | A key that some enabled item answers to returns the stored key of the first such item and leaves selected an item with exactly that key |
| Menu.IgnoredKey | fedchecker/ui/menu.py:254-276 | A key that no enabled item answers to, and that is neither a navigation nor a quitting key, is ignored |
| Menu.DownUp | fedchecker/ui/menu.py:257-262 | From an enabled item, "down" followed by "up" changes nothing the rest of the key sequence can see |
| Menu.AddOptions | fedchecker/ui/menu.py:287-288 | One enabled bullet item per option, in order, appended after the existing items |
| Menu.Submenu | fedchecker/ui/menu.py:278-290 | The options as enabled bullet items in order, then the "0"/Back item last, with the first item selected |
| Menu.LowerZero | fedchecker/ui/menu.py:151 | Only "0" equals "0" ignoring case |
| Menu.SubmenuBack | fedchecker/ui/menu.py:278-292 | Pressing "0" in a submenu returns "0", whatever the options |
| Repos.FedoraVersion | fedchecker/postinstall/repos.py:52-55 | The version is the stripped output of `rpm -E %fedora`, or "unknown" when it fails; exactly that one command is issued |
| Repos.RepoEnabled | fedchecker/postinstall/repos.py:57-60 | A repository counts as enabled exactly when its name occurs in the `dnf repolist --enabled` output ignoring case, whether or not the command succeeded |
| Repos.RepoStatuses | fedchecker/postinstall/repos.py:77-83 | One repository-list query per repository in order, each repository enabled exactly when its own query's output names it |
| Repos.ShowRepoStatus | fedchecker/postinstall/repos.py:62-85 | The five listed repositories are looked up with five repository-list queries, each enabled exactly when its query's output names it |
| Repos.SetupRpmFusion | fedchecker/postinstall/repos.py:87-144 | Already enabled: success, nothing listed, nothing installed; a failed Free install: failure with nothing listed; otherwise success listing Free, and Nonfree only when its install succeeded; the AppStream update is never consulted |
| Repos.SetupFlathub | fedchecker/postinstall/repos.py:146-195 | Flatpak missing and its install failing: failure; a remote list naming flathub: success with nothing listed; otherwise success, listing flathub, exactly when remote-add succeeds |
| Repos.SetupOpenH264 | fedchecker/postinstall/repos.py:197-232 | Already enabled: success with nothing listed and only the query issued; a failed enable: failure with nothing listed; otherwise success listing the repository, the codec install issued but not consulted |
| Repos.Errors | fedchecker/postinstall/repos.py:238-260 | No step is named exactly when every step succeeded |
| Repos.NoErrors | fedchecker/postinstall/repos.py:238-262 | For the three steps, the error list is empty exactly when all three succeeded |
| Repos.SetupAll | fedchecker/postinstall/repos.py:234-273 | The three steps always run in order; it succeeds exactly when all three do, lists what they listed in order, and otherwise names the failed steps in order |
| Repos.RunRepoSetup | fedchecker/postinstall/repos.py:275-287 | The five status queries of `show_repo_status` are always issued first; accepting the prompt then runs `setup_all`; declining reports "Repository setup skipped" with nothing listed and issues nothing after those five queries |
| Packages.FindGroup | fedchecker/postinstall/codecs.py:144-151 | A group found for an id is in the table and has that id; none is found exactly when no group has the id |
| Packages.FlattenHas | fedchecker/postinstall/codecs.py:199-201 | A package is in the flattened table exactly when some group lists it |
| Packages.Keep | fedchecker/postinstall/codecs.py:155-158 | The filter keeps exactly the entries whose installed state is the one asked for, and never more entries than it was given |
| Packages.KeepAppend | fedchecker/postinstall/codecs.py:199-206 | Filtering the concatenated groups is filtering each group and concatenating, so list order is kept |
| Packages.KeepAll | fedchecker/postinstall/codecs.py:155-158 | The filter keeps the whole list exactly when every entry qualifies |
| Packages.KeepNone | fedchecker/postinstall/codecs.py:160-165 | The filter keeps nothing exactly when no entry qualifies |
| Packages.Queries | fedchecker/postinstall/codecs.py:104-107 | One query per package, in order, each the query for that package |
| Packages.FilterInstall | fedchecker/postinstall/codecs.py:155-187 | With nothing missing: success with the "already" message, nothing listed, only the queries issued; otherwise one install of exactly the missing packages, and on success the missing packages that are installed afterwards are listed; on failure nothing is listed; only packages missing before and present afterwards are ever listed |
| Packages.GroupInstall | fedchecker/postinstall/codecs.py:151-187 | "<group> already installed" when nothing is missing; "Failed to install <group>" with nothing listed after a failed install; otherwise "Installed n package(s)" listing the rechecked packages |
| Packages.InstallSettles | fedchecker/postinstall/codecs.py:155-187 | Once an install has put every missing package in place, running it again reports "already" and installs nothing |
| Codecs.CheckRpmFusion | fedchecker/postinstall/codecs.py:109-112 | RPM Fusion counts as enabled exactly when the repository list mentions "rpmfusion" ignoring case; one query is issued |
| Codecs.InstallGroup | fedchecker/postinstall/codecs.py:142-187 | An unknown id fails with "Unknown codec group: <id>", lists nothing and issues nothing; a known one runs the shared filter-and-install with `rpm -q` queries and a `--skip-broken` install |
| Codecs.InstallAllAfterCheck | fedchecker/postinstall/codecs.py:199-241 | Nothing missing gives "All codecs already installed"; otherwise success follows the single install, a failure lists nothing, and only packages missing before and present afterwards are listed |
| Codecs.InstallAll | fedchecker/postinstall/codecs.py:189-241 | The repolist query is issued first; with nothing of the flattened table missing the result is "All codecs already installed"; otherwise success is the single install's outcome and a failure lists nothing; every listed package is from the table, was missing and is now installed |
| Codecs.InstallAllIgnoresCheck | fedchecker/postinstall/codecs.py:193-197 | Whatever the repository list says, the result of installing everything is the same: a missing RPM Fusion only warns |
| Codecs.InstallEssential | fedchecker/postinstall/codecs.py:243-284 | Nothing missing gives "Essential codecs already installed"; otherwise success follows the install, "Essential codecs installed" on success and "Failed to install essential codecs" with nothing listed on failure |
| Codecs.SwapMesaFreeworld | fedchecker/postinstall/codecs.py:286-315 | Without RPM Fusion it fails before any swap; otherwise the VA-API swap runs, the VDPAU swap runs only after it succeeds, and success and the list follow the VA-API swap alone |
| Codecs.RunCodecs | fedchecker/postinstall/codecs.py:317-331 | The status queries come first; accepting the first prompt installs everything; declining it and accepting the second installs the essential set; declining both reports "Codec installation skipped" and issues nothing but the status queries |
| DevTools.EssentialKeysKnown | fedchecker/postinstall/devtools.py:301 | "essential", "python" and "tools" are all groups of the table |
| DevTools.DevQueryShape | fedchecker/postinstall/devtools.py:133-143 | An `@` name is asked of `dnf group info` with all leading `@` removed; any other name is asked of `rpm -q` |
| DevTools.InstallGroup | fedchecker/postinstall/devtools.py:173-216 | An unknown id fails with "Unknown group: <id>", lists nothing and issues nothing; a known one runs the shared filter-and-install; every listed package is in a group with that id, was missing and is now installed |
| DevTools.GroupLoop | fedchecker/postinstall/devtools.py:224-240 | Installed groups are skipped; only groups missing at the start can be listed, under their name without `@`; with none missing nothing is issued and nothing listed |
| DevTools.GroupLoopHead | fedchecker/postinstall/devtools.py:227-240 | For a missing first group, it heads the list when its install succeeds and is left out when it fails |
| DevTools.InstallDnfGroups | fedchecker/postinstall/devtools.py:218-246 | Always success, listing at most the two groups, with the count of listed groups in the message |
| DevTools.InstallAll | fedchecker/postinstall/devtools.py:248-297 | Nothing missing gives "All development tools already installed" and installs neither groups nor packages; otherwise the groups are installed first, then one install of exactly the missing packages whose outcome alone decides success |
| DevTools.InstallEssential | fedchecker/postinstall/devtools.py:299-315 | Always success; every listed package belongs to the essential, python or tools group, was missing and is now installed; with all three groups already installed nothing is listed and nothing is run |
| DevTools.GroupSettled | fedchecker/postinstall/devtools.py:185-195 | A group whose packages are all installed lists nothing and takes no scripted outcome |
| DevTools.SetupGitConfig | fedchecker/postinstall/devtools.py:317-336 | Always true after reading the two git settings |
| DevTools.RunDevTools | fedchecker/postinstall/devtools.py:338-356 | The status queries come first; accepting the first prompt installs everything; declining it and accepting the second installs the essential groups; declining both reports "Development tools installation skipped" and issues nothing but the status queries |
| Exec.Run | fedchecker/fixes/health_fix.py:34-55 | A command receives the next scripted outcome and is recorded as issued; no prompt is consumed |
| Exec.Ask | fedchecker/fixes/health_fix.py:248 | A confirmation prompt receives the next scripted answer; no command is issued |
| Exec.RunUntil | fedchecker/fixes/health_fix.py:134-142 | The step loop runs the steps in order and stops right after the first step whose outcome is fatal |
| Exec.RunUntilVerdict | fedchecker/fixes/health_fix.py:134-142 | When the loop stops early, it stops at a fatal outcome, before which no outcome was fatal, and reports that command's output |
| Exec.RunUntilEffect | fedchecker/fixes/health_fix.py:134-142 | The commands issued are a prefix of the step list, one scripted outcome used per command, and no prompt is shown |
| Exec.RunUntilFirst | fedchecker/fixes/health_fix.py:134-142 | A loop whose k-th outcome is the first fatal one stops exactly at step k |
| Exec.RunUntilCompletes | fedchecker/fixes/health_fix.py:134-147 | The loop runs to the end exactly when no outcome is fatal |
| Exec.RunAll | fedchecker/fixes/health_fix.py:74-83 | Every command runs in order whatever the outcomes; each success flag is that command's outcome |
| Fix.RunFixCommand | fedchecker/fixes/health_fix.py:253-265 | The check's own command runs through `sudo bash -c`; the fix succeeds exactly when it does, says "Fix applied" or "Fix failed", and keeps its output as details |
| Fix.OfferCommand | fedchecker/fixes/health_fix.py:252-267 | A result comes back exactly when the check has a command and the prompt is accepted, and then it is that command's result; otherwise nothing is issued |
| Fix.ApplyFix | fedchecker/fixes/health_fix.py:232-267 | No fix offered: nothing happens at all; a handler, when its prompt is accepted, gives its own result and nothing else runs; when there is no handler, or its prompt is declined, the generic command is offered |
| Fix.DecliningRunsNothing | fedchecker/fixes/health_fix.py:246-267 | Declining every prompt returns no result and issues no command |
| Fix.GenericCommandMirrors | fedchecker/fixes/health_fix.py:252-265 | Without a handler, accepting the generic command runs exactly that command, and the fix succeeds exactly when it does |
| Fix.InstallPackages | fedchecker/fixes/desktop_fix.py:254-283 | One `dnf install -y` of the packages is issued; the fix's result is the success result when it succeeds and a failure keeping its output otherwise |
| Fix.Trues | fedchecker/fixes/health_fix.py:85-88 | The count of successes is at most the number of steps |
| Fix.TruesAll | fedchecker/fixes/health_fix.py:85-96 | Every step succeeded exactly when the success count equals the number of steps |
| Fix.Chosen | fedchecker/fixes/health_fix.py:76-81 | No more descriptions are chosen than there are steps |
| Fix.ChosenCounts | fedchecker/fixes/health_fix.py:76-88 | The `cleaned` list has one entry per successful step, and `cleaned` and `failed` together hold every step once |
| Fix.Oks | fedchecker/fixes/health_fix.py:74-83 | The success flags of the next n commands, in order |
| Fix.OksFrom | fedchecker/fixes/health_fix.py:74-83 | The success flags of n commands after skipping some, in order |
| Fix.RunAllOks | fedchecker/fixes/health_fix.py:74-83 | A run-everything loop sees exactly the next outcomes' success flags |
| Fix.OksMoved | fedchecker/fixes/health_fix.py:74-83 | After k commands have run, the upcoming success flags are those k further along the original script |
| HealthFix.Descs | fedchecker/fixes/health_fix.py:61-66 | The step descriptions, in order |
| HealthFix.FixDiskSpace | fedchecker/fixes/health_fix.py:57-96 | All four cleanup commands run whatever their outcomes; success exactly when all four succeed, "Disk cleanup completed"; otherwise "Partial cleanup: k/4 steps completed" with k < 4 the number that succeeded |
| HealthFix.FixFailedUnits | fedchecker/fixes/health_fix.py:98-114 | One `systemctl reset-failed`, whose success is the fix's; a failure keeps its output |
| HealthFix.FixDnfIssues | fedchecker/fixes/health_fix.py:116-146 | The details never exceed 500 characters |
| HealthFix.DnfIssuesSucceeds | fedchecker/fixes/health_fix.py:116-146 | The repair succeeds exactly when all four steps succeed, and then all four were issued |
| HealthFix.DnfIssuesStops | fedchecker/fixes/health_fix.py:134-142 | At the first failing step it reports "Failed at: <step>" with the first 500 characters of that step's output, having issued only the steps up to it |
| HealthFix.Tail | fedchecker/fixes/health_fix.py:165 | At most n characters are kept, they are the end of the output, and an output of at most n characters is kept whole |
| HealthFix.FixOrphanedPackages | fedchecker/fixes/health_fix.py:148-172 | One `dnf autoremove -y`, whose success is the fix's; on success the details are the last 500 characters of its output, on failure the whole output |
| HealthFix.CreateSwap | fedchecker/fixes/health_fix.py:174-230 | An existing swap file fails at once with nothing issued; a success reports "Created nGB swap file" |
| HealthFix.SwapSucceeds | fedchecker/fixes/health_fix.py:174-230 | Creation succeeds exactly when no swap file exists and all four steps succeed; then the four steps ran, followed by the sudo fstab append only when /etc/fstab is not writable |
| HealthFix.SwapCleansUp | fedchecker/fixes/health_fix.py:194-210 | At the first failing step it reports "Failed at: <step>", having issued the steps up to it and then exactly one `rm -f /swapfile` |
| HealthFix.Handler | fedchecker/fixes/health_fix.py:237-245 | A handler exists exactly for Disk Space, Failed Systemd Units, Package Manager, Orphaned Packages and Swap Space |
| HealthFix.ApplyFix | fedchecker/fixes/health_fix.py:232-267 | No fix offered gives nothing; an accepted handler prompt runs the named repair, with a 4 GB swap file for Swap Space |
| DriverFix.InstallNvidiaDriver | fedchecker/fixes/driver_fix.py:55-100 | A successful install always asks for a reboot; a failure's details are at most 500 characters of the failing step's output |
| DriverFix.RpmFusionStepTolerated | fedchecker/fixes/driver_fix.py:60-61 | The first NVIDIA step is the one whose description mentions RPM Fusion, so the loop tolerates its failure |
| DriverFix.DriverStepFatal | fedchecker/fixes/driver_fix.py:66 | The driver step's description does not mention RPM Fusion, so its failure aborts the install |
| DriverFix.CudaStepFatal | fedchecker/fixes/driver_fix.py:67 | The CUDA step's description does not mention RPM Fusion, so its failure aborts the install |
| DriverFix.FirstStepTolerated | fedchecker/fixes/driver_fix.py:73-91 | For any three steps of which only the first mentions RPM Fusion, the loop runs to the end exactly when the second and third commands succeed |
| DriverFix.NvidiaCompletes | fedchecker/fixes/driver_fix.py:73-93 | The NVIDIA loop runs to the end exactly when the driver and CUDA installs succeed |
| DriverFix.NvidiaSucceeds | fedchecker/fixes/driver_fix.py:55-100 | The NVIDIA fix succeeds exactly when the driver and CUDA installs succeed, whatever the RPM Fusion step did |
| DriverFix.NvidiaIssuesAll | fedchecker/fixes/driver_fix.py:73-93 | A successful NVIDIA fix has issued all three steps, in order |
| DriverFix.RpmFusionThroughShell | fedchecker/fixes/driver_fix.py:76-81 | The RPM Fusion URLs contain `$(rpm -E %fedora)`, so that step is issued as `sudo bash -c` with the joined command for the shell to expand |
| DriverFix.DriverStepDirect | fedchecker/fixes/driver_fix.py:82-83 | The driver step has nothing for the shell to expand, so it is issued under sudo exactly as written |
| DriverFix.InstallWifiFirmware | fedchecker/fixes/driver_fix.py:102-133 | The firmware fix succeeds exactly when the single package install does, and then asks for a reboot |
| DriverFix.UnblockWifi | fedchecker/fixes/driver_fix.py:135-151 | Unblocking issues exactly one `sudo rfkill unblock wifi` and succeeds exactly when it does |
| DriverFix.InstallAudioDrivers | fedchecker/fixes/driver_fix.py:153-182 | The audio fix succeeds exactly when the single package install does, and then asks for a reboot |
| DriverFix.EnableBluetooth | fedchecker/fixes/driver_fix.py:184-207 | A successful Bluetooth fix reports "Bluetooth enabled" |
| DriverFix.BluetoothSucceeds | fedchecker/fixes/driver_fix.py:184-207 | The Bluetooth fix succeeds exactly when both the unblock and the service enable succeed, and then both were issued in order |
| DriverFix.BluetoothUnblockFails | fedchecker/fixes/driver_fix.py:191-199 | A failing unblock is reported as the failed step and the service is never enabled |
| DriverFix.BluetoothServiceFails | fedchecker/fixes/driver_fix.py:191-199 | A failing service enable after a successful unblock is reported as the failed step, with that command's output as details |
| DriverFix.InstallFwupd | fedchecker/fixes/driver_fix.py:209-234 | The fwupd fix succeeds exactly when the install does; the service is enabled only after a successful install and its outcome is ignored |
| DriverFix.InstallHwAcceleration | fedchecker/fixes/driver_fix.py:236-266 | The acceleration fix succeeds exactly when the single package install does |
| DriverFix.UpdateFirmware | fedchecker/fixes/driver_fix.py:268-295 | The refresh always runs and is ignored; the update succeeds when the updater succeeds or says "No upgrades", and then asks for a reboot exactly when its output mentions one in any letter case |
| DriverFix.Handler | fedchecker/fixes/driver_fix.py:302-309 | The six check names the driver fixer has a dedicated fix for, and no others |
| DriverFix.Shortcut | fedchecker/fixes/driver_fix.py:311-316 | A direct fix is taken exactly when the message says "blocked" and the name mentions WiFi or Bluetooth, in any letter case |
| DriverFix.BlockedWifiUnprompted | fedchecker/fixes/driver_fix.py:311-314 | A fixable result whose message says "blocked" and whose name mentions WiFi gets the unblock fix with no prompt shown, issuing only `sudo rfkill unblock wifi` |
| DriverFix.ApplyFix | fedchecker/fixes/driver_fix.py:297-340 | No fix is available gives no result and no effect; a blocked radio is fixed directly without a prompt; anything else goes through the shared prompt-then-fix path with the driver fix map |
| SecurityFix.EnableFirewall | fedchecker/fixes/security_fix.py:55-79 | A success reports "Firewall enabled and configured"; a failure names one of the three firewall steps |
| SecurityFix.FirewallSucceeds | fedchecker/fixes/security_fix.py:65-79 | The firewall fix succeeds exactly when each of the three steps succeeds or says "already installed" in any letter case, and then all three were issued in order |
| SecurityFix.FirewallStops | fedchecker/fixes/security_fix.py:65-74 | At the first fatal step the fix fails naming that step, gives its whole output as details, and issues nothing after it |
| SecurityFix.EnforceSelinux | fedchecker/fixes/security_fix.py:81-112 | Only `setenforce 1` decides success and gives the failure details; the two config edits run only after it succeeds, and their outcomes are ignored |
| SecurityFix.HardenSsh | fedchecker/fixes/security_fix.py:114-152 | All five sshd_config edits are issued whatever their outcomes, then the restart; the fix succeeds exactly when the restart does |
| SecurityFix.InstallThenEnable | fedchecker/fixes/security_fix.py:154-246 | A failed install returns at once with its output and issues nothing else; otherwise the configure and enable commands are both issued, and the fix succeeds exactly when the enable does |
| SecurityFix.InstallFail2ban | fedchecker/fixes/security_fix.py:154-204 | The fail2ban fix succeeds exactly when the install and the enable both succeed; a failed install issues nothing more |
| SecurityFix.EnableAutoUpdates | fedchecker/fixes/security_fix.py:206-246 | The automatic-updates fix succeeds exactly when the install and the timer enable both succeed; a failed install issues nothing more |
| SecurityFix.InstallClamav | fedchecker/fixes/security_fix.py:248-281 | Only the install decides success; the definitions update and the service enable run only after it succeeds, and their outcomes are ignored |
| SecurityFix.FixFilePermissions | fedchecker/fixes/security_fix.py:283-306 | All four `chmod`s are issued whatever their outcomes; the fix succeeds exactly when all four succeed, and the message counts how many did, out of 4 |
| SecurityFix.Handler | fedchecker/fixes/security_fix.py:313-321 | The seven check names the security fixer has a dedicated fix for, and no others |
| SecurityFix.ApplyFix | fedchecker/fixes/security_fix.py:308-345 | No fix is available gives no result and no effect; an accepted prompt for "File Permissions" runs the permissions fix; a name without a dedicated fix falls back to offering the check's own fix command |
| DesktopFix.InstallFonts | fedchecker/fixes/desktop_fix.py:58-92 | The fonts fix succeeds exactly when the package install does; `fc-cache -fv` runs as the user only after a successful install, and its outcome is ignored |
| DesktopFix.FlatpakSudoOnlyForDnf | fedchecker/fixes/desktop_fix.py:98-109 | Of the two Flatpak steps, the package install runs under sudo and the Flathub remote is added as the user |
| DesktopFix.InstallFlatpak | fedchecker/fixes/desktop_fix.py:94-122 | A successful Flatpak fix reports "Flatpak configured with Flathub" |
| DesktopFix.FlatpakSucceeds | fedchecker/fixes/desktop_fix.py:106-122 | The Flatpak fix succeeds exactly when both steps succeed, and then both were issued in order |
| DesktopFix.FlatpakInstallFails | fedchecker/fixes/desktop_fix.py:106-116 | A failing package install is reported as the failed step with its output, and the Flathub remote is never added |
| DesktopFix.InstallPortals | fedchecker/fixes/desktop_fix.py:124-163 | One install of the portal plus the back end for the desktop (GNOME, else KDE or Plasma, else GTK) decides success; the user service is enabled only after it succeeds, and its outcome is ignored |
| DesktopFix.NonBlank | fedchecker/fixes/desktop_fix.py:180 | Keeps at most as many entries as it is given, and every kept entry is non-empty with no whitespace at either end |
| DesktopFix.FixGnomeExtensions | fedchecker/fixes/desktop_fix.py:165-211 | The fix succeeds exactly when the listing does; a failed or empty listing issues nothing after it, with "Cannot access GNOME extensions" or "No extensions to manage" |
| DesktopFix.ExtensionsToggled | fedchecker/fixes/desktop_fix.py:189-204 | With extensions listed, the commands issued are the listing, then a disable for every extension in order, then an enable for every extension in order |
| DesktopFix.ExtensionsCounted | fedchecker/fixes/desktop_fix.py:188-205 | With extensions listed, the message counts the re-enables that succeeded, which is at most the number of extensions |
| DesktopFix.ConfigureDisplayManager | fedchecker/fixes/desktop_fix.py:213-252 | All three commands are always issued (install, enable, graphical target) for `sddm` on KDE or Plasma and `gdm` otherwise; only the enable decides, and success names the manager in upper case |
| DesktopFix.InstallCodecsGui | fedchecker/fixes/desktop_fix.py:254-283 | The codec fix succeeds exactly when the single package install does, and a failure carries its output |
| DesktopFix.ResetGnomeSettings | fedchecker/fixes/desktop_fix.py:285-313 | Declining the prompt fails with "Reset cancelled by user" and runs nothing; accepting issues exactly `dconf reset -f /` and succeeds exactly when it does |
| DesktopFix.DecliningResetRunsNothing | fedchecker/fixes/desktop_fix.py:289-295 | Declining the reset gives an unsuccessful result, issues no command and uses no scripted outcome |
| DesktopFix.Handler | fedchecker/fixes/desktop_fix.py:320-326 | The five check names the desktop fixer has a dedicated fix for; the codec install and the settings reset are not among them |
| DesktopFix.ApplyFix | fedchecker/fixes/desktop_fix.py:315-350 | No fix is available gives no result and no effect; an accepted prompt for "Display Manager" configures the manager for the current desktop; a name without a dedicated fix falls back to offering the check's own fix command |
| App.Find | fedchecker/main.py:46 | The position found holds the key and no earlier entry does; no position means no entry has the key |
| App.Put | fedchecker/main.py:90 | After storing, the key maps to the new category and every other key maps to what it did before; an existing key keeps its place, a new one adds one entry, and keys stay distinct |
| App.FindSameKeys | fedchecker/main.py:46 | Looking a key up depends only on the keys in the cache, not on the categories stored |
| App.FindAppend | fedchecker/main.py:90 | Appending an entry leaves every key already present where it was, makes a new key findable at the end, and leaves other absent keys absent |
| App.Display | fedchecker/main.py:87-90 | Displaying a category caches it under its own name and leaves every other cached category as it was |
| App.ItemsOf | fedchecker/main.py:253-255 | Every listed item is an offered result (fix available, and FAIL or WARN) of this category, and every offered result of the category is listed |
| App.FixableExactly | fedchecker/main.py:251-255 | The fixable list holds exactly the offered results of the cached categories: each item is offered and comes from a cached category, and each offered result of each cached category is in the list |
| App.Fixer | fedchecker/main.py:284-289 | The four checker category names have a fixer, and no other name has one |
| App.FixAll | fedchecker/main.py:291-305 | Each item whose category has a fixer adds one to exactly one of the fixed and failed counts; items of other categories add to neither |
| App.FixAllOne | fedchecker/main.py:294-305 | An item counts as fixed exactly when its category has a fixer whose result is present and successful, and as failed exactly when it has a fixer and not that, a missing result included |
| App.FixAllAppend | fedchecker/main.py:294-305 | The counts over a list are the sums of the counts over its two stretches, the second run from the world the first leaves |
| App.AutoFix | fedchecker/main.py:240-307 | No cached checks or nothing fixable returns at once with no prompt; the prompt is declined exactly when something is fixable and the answer is no; an attempt happens only after a yes and counts at most as many items as are fixable; a yes with fixable items always runs the tally loop over the whole fixable list, from the world after the prompt, and reports its fixed and failed counts |
| App.DecliningFixesNothing | fedchecker/main.py:280-281 | A no to "Attempt to fix all issues?" invokes no fixer: no command is issued, no scripted outcome is used and no attempt is reported |
| App.RunChecks | fedchecker/main.py:318-340 | After the rerun each of the four checker names maps to that checker's fresh category |
| App.GenerateReport | fedchecker/main.py:309-352 | With four or more cached categories nothing is asked; with fewer, a yes reruns every checker and a no keeps the cache; a report is made exactly when the cache is not empty, from its categories in cache order; no command is issued |
| App.RerunCachesAll | fedchecker/main.py:315-341 | With fewer than four cached categories and a yes, all four checker names are cached afterwards and a report is made |
| App.ExitCode | fedchecker/main.py:388-400 | The exit status is 0 or 1, and 1 exactly when an exception other than an interrupt ended the program |

## Left out

- Real system access. Every `_run_command`, `subprocess.run`, `psutil` call, `os.getloadavg`, `Path` read or stat, `os.readlink` and `os.environ` lookup is a parameter: an observation record for the probes, or the scripted world for the fixers and installers. Command timeouts, `sudo` authentication and shell quoting are not modelled. Exec.Sudo prefixes `sudo` to a command, as `_run_command` does.
- The terminal UI: Rich tables, panels, `Live`, spinners, progress bars, `time.sleep`, the banner, `get_keypress` raw-tty reading and the list of items `create_main_menu` builds. Menu dispatch is modelled over a key, not over how the key is read.
- The PDF and charts: `charts.py`, `templates.py`, the reportlab and matplotlib layout and `_get_system_info`. Only the scoring and recommendation logic of the report generator is modelled.
- main.py's "Open the report now?" prompt after a report, and the `xdg-open` call it makes. App.GenerateReport ends when the report's categories are chosen.
- File writes with no checkable logic: the fstab append and the `/etc/fail2ban/jail.local` write. They are logged as the commands issued, and what they leave on disk is not modelled. The dnf.conf write-back via `echo` or `cp` is modelled as the content computed, not as the file's bytes.
- `setup.py`, `run.py` and the package `__init__.py` re-exports, which hold no logic.
- Status.Score: the score is an exact `real`, (passed + warnings/2)/total × 100. The source computes it in IEEE doubles, so rounding in the last bits is not modelled.
- Report.Mean: the mean of the category scores is exact, not a double-precision sum and division.
- Report.OverallScore: exact, like Report.Mean; no rounding.
- Message formatting of floats and regex-derived numbers (`:.1f`, `°C`, percentages). Messages that embed such a number are simplified. Thresholds are compared on the exact values.
- Probe.Reading: `shown` is the text a probe prints for a reading. Nothing ties it to the formatting of `value`.
- Text.IsSpace: only the ASCII whitespace Python's `str.split()`, `str.strip()` and `\s` accept (space, `\t` to `\r`, `\x1c` to `\x1f`). The non-ASCII ones (`\x85`, `\xa0` and the other Unicode spaces) are not whitespace here.
- Text.Lower: ASCII letters only. Python's `str.lower()` also maps non-ASCII letters.
- Text.Upper: ASCII letters only, like Text.Lower.
- The regular expressions are not a regex engine. Each pattern is an extractor written for that pattern. Their `\s`, `\w` and `\d` match ASCII only, where Python's match Unicode.
- DevTools.DevQuery: the model gives the query command `is_package_installed` issues. Its verdict comes from the set of installed packages, not from the command's output. The group check `success and "Installed" in output` (devtools.py:136-140) becomes membership of the group in that set. Package queries in Codecs and Packages are modelled the same way.
- DnfOptimizer.WrittenStable: relates the content `apply_optimizations` computes. The `echo` write adds a trailing newline to the file, which is not modelled. It also requires the file first read to be `WellSpelled`, for the reason given under DnfOptimizer.Idempotent.
- DnfOptimizer.RunTwice: the same content-level statement as DnfOptimizer.WrittenStable, under the same `WellSpelled` requirement. It also requires the second run's `echo` write to succeed. When that write fails, the second run goes to the `cp` fallback and issues more than the echo.
- DnfOptimizer.RunOptimizer: `tempError` stands for an exception raised before the `cp` fallback runs, while the temporary file is written. In that case the model issues no `cp`. The same `try` (dnf_optimizer.py:165-178) also covers `temp_file.unlink()`. If that raises after the `cp` has run, the result is again "Failed to write config", but the `cp` was issued. The model cannot express that path.
- Menu.Move: requires some enabled item, and Menu.RunMenu requires `Ready` (a valid selection and some enabled item). In the source, `move_up` and `move_down` (menu.py:127-139) loop forever when no item is enabled. On an empty menu, `% len(self.items)` raises ZeroDivisionError. Neither behaviour is modelled.
- DnfOptimizer.Idempotent: holds only for files that spell every optimization key without whitespace before its `=` (`WellSpelled`). `get_current_config` reads a line such as `max_parallel_downloads = 3` as a setting. The rewrite loop matches only `key=` and `#key=`, so it never rewrites that line. It inserts `key=value` after `[main]` instead, and a later run records a change again.
- DnfOptimizer.AppliedTwice: needs the same `WellSpelled` precondition as DnfOptimizer.Idempotent.
- Repos.RunRepoSetup: the five `dnf repolist --enabled` status queries (repos.py:59) are issued before the "Set up all recommended repositories?" prompt, as the code does. "Declining runs nothing" therefore holds only for the commands after the prompt.
- Exec.Run: each `_run_command` catches only `subprocess.TimeoutExpired` and `FileNotFoundError` (health_fix.py:52-55, drivers.py:65 and the copies in the other checks and fixers). Exec.Run and the probes' command observations always yield an outcome, so any other `OSError` the call raises is not modelled. In a check such an exception would become Probe.Guard's ERROR result. In a fixer it would escape `apply_fix`.
- The four copies of the `FixResult` dataclass in the fixer modules are modelled once, in Fix.
