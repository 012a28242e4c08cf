/**
 * The driver fixer (fedchecker/fixes/driver_fix.py): NVIDIA, WiFi, audio,
 * Bluetooth, firmware and hardware-acceleration installs against the
 * scripted executor, and its `apply_fix` with the "blocked" shortcut.
 */
module DriverFix {
  import opened Wrappers
  import opened Text
  import opened Status
  import opened Exec
  import opened Fix

  const RpmFusionFree := "https://download1.rpmfusion.org/free/fedora/rpmfusion-free-release-$(rpm -E %fedora).noarch.rpm"
  const RpmFusionNonfree := "https://download1.rpmfusion.org/nonfree/fedora/rpmfusion-nonfree-release-$(rpm -E %fedora).noarch.rpm"

  /** The NVIDIA steps as written, before the shell-expansion rewrite. */
  const NvidiaPlan: seq<Step> := [
    Step("Enabling RPM Fusion", ["dnf", "install", "-y", RpmFusionFree, RpmFusionNonfree]),
    Step("Installing NVIDIA driver", ["dnf", "install", "-y", "akmod-nvidia"]),
    Step("Installing CUDA support", ["dnf", "install", "-y", "xorg-x11-drv-nvidia-cuda"])
  ]

  /** `" ".join(cmd)` */
  function Spaced(c: Cmd): string {
    Join(c, " ")
  }

  /**
   * The argv actually issued for a planned command: one whose joined text
   * contains `$` goes through `bash -c` so the shell expands it; all run under sudo.
   */
  function Expanded(c: Cmd): (r: Cmd)
    ensures Contains(Spaced(c), "$") ==> r == Sudo(["bash", "-c", Spaced(c)])
    ensures !Contains(Spaced(c), "$") ==> r == Sudo(c)
  {
    if Contains(Spaced(c), "$") then Sudo(["bash", "-c", Spaced(c)]) else Sudo(c)
  }

  function NvidiaSteps(): (steps: seq<Step>)
    ensures |steps| == |NvidiaPlan|
    ensures forall i :: 0 <= i < |steps| ==>
              steps[i].desc == NvidiaPlan[i].desc && steps[i].cmd == Expanded(NvidiaPlan[i].cmd)
  {
    seq(|NvidiaPlan|, i requires 0 <= i < |NvidiaPlan| => Step(NvidiaPlan[i].desc, Expanded(NvidiaPlan[i].cmd)))
  }

  /** A failed NVIDIA step aborts unless its description mentions RPM Fusion. */
  predicate NvidiaFatal(desc: string, o: Exec.Outcome) {
    !o.ok && !Contains(desc, "RPM Fusion")
  }

  /** `install_nvidia_driver` */
  function InstallNvidiaDriver(w: World): (f: Fixed)
    ensures f.result.success ==> f.result.requiresReboot && f.result.message == "NVIDIA driver installed"
    ensures !f.result.success ==> |f.result.details| <= 500
  {
    var s := RunUntil(w, NvidiaSteps(), NvidiaFatal);
    match s.failedAt
    case Some(k) =>
      Fixed(FixResult(false, "Failed at: " + NvidiaSteps()[k].desc, Take(s.out, 500), false), s.w)
    case None =>
      Fixed(FixResult(true, "NVIDIA driver installed", "Reboot required to load the new driver", true), s.w)
  }

  /** The first step's description mentions RPM Fusion, so its failure is tolerated. */
  lemma RpmFusionStepTolerated()
    ensures Contains(NvidiaPlan[0].desc, "RPM Fusion")
  {
    ContainsAt(NvidiaPlan[0].desc, "RPM Fusion", 9);
  }

  /** The driver step's description does not mention RPM Fusion, so its failure aborts. */
  lemma DriverStepFatal()
    ensures !Contains(NvidiaPlan[1].desc, "RPM Fusion")
  {
    LacksFirstChar(NvidiaPlan[1].desc, "RPM Fusion");
  }

  /** The CUDA step's description does not mention RPM Fusion, so its failure aborts. */
  lemma CudaStepFatal()
    ensures !Contains(NvidiaPlan[2].desc, "RPM Fusion")
  {
    LacksFirstChar(NvidiaPlan[2].desc, "RPM Fusion");
  }

  /** For any three steps of which only the first mentions RPM Fusion, the loop completes iff the last two succeed. */
  lemma FirstStepTolerated(w: World, steps: seq<Step>)
    requires |steps| == 3 && Contains(steps[0].desc, "RPM Fusion")
    requires !Contains(steps[1].desc, "RPM Fusion") && !Contains(steps[2].desc, "RPM Fusion")
    ensures RunUntil(w, steps, NvidiaFatal).failedAt.None? <==> Nth(w, 1).ok && Nth(w, 2).ok
  {
    RunUntilCompletes(w, steps, NvidiaFatal);
    assert !NvidiaFatal(steps[0].desc, Nth(w, 0));
  }

  /** The NVIDIA loop runs to the end exactly when the driver and CUDA steps succeed. */
  lemma NvidiaCompletes(w: World)
    ensures RunUntil(w, NvidiaSteps(), NvidiaFatal).failedAt.None? <==> Nth(w, 1).ok && Nth(w, 2).ok
  {
    RpmFusionStepTolerated();
    DriverStepFatal();
    CudaStepFatal();
    FirstStepTolerated(w, NvidiaSteps());
  }

  /**
   * The install succeeds exactly when the driver and CUDA steps both succeed,
   * whatever the RPM Fusion step did.
   */
  lemma NvidiaSucceeds(w: World)
    ensures InstallNvidiaDriver(w).result.success <==> Nth(w, 1).ok && Nth(w, 2).ok
  {
    NvidiaCompletes(w);
  }

  /** A successful install has issued all three steps. */
  lemma NvidiaIssuesAll(w: World)
    requires InstallNvidiaDriver(w).result.success
    ensures InstallNvidiaDriver(w).w.issued == w.issued + Cmds(NvidiaSteps())
  {
    RunUntilEffect(w, NvidiaSteps(), NvidiaFatal);
  }

  /** The RPM Fusion step's URLs contain `$(...)`, so it is issued through `bash -c`. */
  lemma RpmFusionThroughShell()
    ensures NvidiaSteps()[0].cmd == Sudo(["bash", "-c", Spaced(NvidiaPlan[0].cmd)])
  {
    ContainsChar(RpmFusionFree, '$', 67);
    JoinContains(NvidiaPlan[0].cmd, " ", 3, "$");
  }

  /** The driver step has nothing to expand, so it is issued as written. */
  lemma DriverStepDirect()
    ensures NvidiaSteps()[1].cmd == Sudo(NvidiaPlan[1].cmd)
  {
    JoinLacks(NvidiaPlan[1].cmd, " ", '$');
    LacksFirstChar(Spaced(NvidiaPlan[1].cmd), "$");
  }

  const WifiFirmware := ["linux-firmware", "iwl*-firmware", "atheros-firmware", "b43-openfwwf", "brcmfmac-firmware"]

  /** `install_wifi_firmware` */
  function InstallWifiFirmware(w: World): (f: Fixed)
    ensures f.result.success == Nth(w, 0).ok
    ensures f.result.success ==> f.result.requiresReboot
  {
    InstallPackages(w, WifiFirmware,
      FixResult(true, "WiFi firmware installed", "You may need to reboot or reload the WiFi module", true),
      "Failed to install firmware")
  }

  /** `unblock_wifi` */
  function UnblockWifi(w: World): (f: Fixed)
    ensures f.w.issued == w.issued + [Sudo(["rfkill", "unblock", "wifi"])]
    ensures f.result.success == Nth(w, 0).ok
  {
    var c := Exec.Run(w, Sudo(["rfkill", "unblock", "wifi"]));
    if c.ok then Fixed(Simple(true, "WiFi unblocked"), c.w)
    else Fixed(FixResult(false, "Failed to unblock WiFi", c.out, false), c.w)
  }

  const AudioPackages := ["alsa-firmware", "alsa-plugins-pulseaudio", "pipewire-alsa", "sof-firmware"]

  /** `install_audio_drivers` */
  function InstallAudioDrivers(w: World): (f: Fixed)
    ensures f.result.success == Nth(w, 0).ok
    ensures f.result.success ==> f.result.requiresReboot
  {
    InstallPackages(w, AudioPackages, FixResult(true, "Audio packages installed", "", true),
      "Failed to install audio packages")
  }

  const BluetoothSteps: seq<Step> := [
    Step("Unblocking Bluetooth", Sudo(["rfkill", "unblock", "bluetooth"])),
    Step("Enabling service", Sudo(["systemctl", "enable", "--now", "bluetooth"]))
  ]


  /** `enable_bluetooth`: the two steps run until one fails, which is reported. */
  function EnableBluetooth(w: World): (f: Fixed)
    ensures f.result.success ==> f.result.message == "Bluetooth enabled"
  {
    var s := RunUntil(w, BluetoothSteps, AnyFailure);
    match s.failedAt
    case Some(k) => Fixed(FixResult(false, "Failed at: " + BluetoothSteps[k].desc, s.out, false), s.w)
    case None => Fixed(Simple(true, "Bluetooth enabled"), s.w)
  }

  /** Bluetooth is enabled exactly when both steps succeed, and then both were issued. */
  lemma BluetoothSucceeds(w: World)
    ensures EnableBluetooth(w).result.success <==> Nth(w, 0).ok && Nth(w, 1).ok
    ensures EnableBluetooth(w).result.success ==> EnableBluetooth(w).w.issued == w.issued + Cmds(BluetoothSteps)
  {
    RunUntilCompletes(w, BluetoothSteps, AnyFailure);
    RunUntilEffect(w, BluetoothSteps, AnyFailure);
  }

  /** A failing unblock is reported and stops before the service step. */
  lemma BluetoothUnblockFails(w: World)
    requires !Nth(w, 0).ok
    ensures EnableBluetooth(w).result.message == "Failed at: " + BluetoothSteps[0].desc
    ensures EnableBluetooth(w).w.issued == w.issued + [BluetoothSteps[0].cmd]
  {
    RunUntilFirst(w, BluetoothSteps, AnyFailure, 0);
    RunUntilEffect(w, BluetoothSteps, AnyFailure);
    assert Cmds(BluetoothSteps)[..1] == [BluetoothSteps[0].cmd];
  }

  /** A failing service step after a successful unblock is reported. */
  lemma BluetoothServiceFails(w: World)
    requires Nth(w, 0).ok && !Nth(w, 1).ok
    ensures EnableBluetooth(w).result.message == "Failed at: " + BluetoothSteps[1].desc
    ensures EnableBluetooth(w).result.details == Nth(w, 1).out
  {
    RunUntilFirst(w, BluetoothSteps, AnyFailure, 1);
    RunUntilVerdict(w, BluetoothSteps, AnyFailure);
  }

  /** `install_fwupd`: success is the install's; the service-enable outcome is ignored. */
  function InstallFwupd(w: World): (f: Fixed)
    ensures f.result.success == Nth(w, 0).ok
    ensures f.w.issued == w.issued + [Sudo(["dnf", "install", "-y", "fwupd"])]
                          + (if Nth(w, 0).ok then [Sudo(["systemctl", "enable", "--now", "fwupd"])] else [])
  {
    var c := Exec.Run(w, Sudo(["dnf", "install", "-y", "fwupd"]));
    if c.ok then
      var e := Exec.Run(c.w, Sudo(["systemctl", "enable", "--now", "fwupd"]));
      Fixed(Simple(true, "fwupd installed and enabled"), e.w)
    else Fixed(FixResult(false, "Failed to install fwupd", c.out, false), c.w)
  }

  const HwAccelPackages := ["libva-utils", "vdpauinfo", "mesa-va-drivers", "mesa-vdpau-drivers", "libva-intel-driver", "intel-media-driver"]

  /** `install_hw_acceleration` */
  function InstallHwAcceleration(w: World): (f: Fixed)
    ensures f.result.success == Nth(w, 0).ok
  {
    InstallPackages(w, HwAccelPackages, Simple(true, "Hardware acceleration installed"), "Failed to install packages")
  }

  /**
   * `update_firmware`: the refresh outcome is ignored; the fix succeeds when
   * the update does or says "No upgrades", and asks for a reboot when its
   * output mentions one.
   */
  function UpdateFirmware(w: World): (f: Fixed)
    ensures f.w.issued == w.issued + [Sudo(["fwupdmgr", "refresh", "--force"]), Sudo(["fwupdmgr", "update", "-y"])]
    ensures f.result.success <==> Nth(w, 1).ok || Contains(Nth(w, 1).out, "No upgrades")
    ensures f.result.success ==> (f.result.requiresReboot <==> Contains(Lower(Nth(w, 1).out), "reboot"))
  {
    var refresh := Exec.Run(w, Sudo(["fwupdmgr", "refresh", "--force"]));
    var c := Exec.Run(refresh.w, Sudo(["fwupdmgr", "update", "-y"]));
    if c.ok || Contains(c.out, "No upgrades") then
      Fixed(FixResult(true, "Firmware updated", "", Contains(Lower(c.out), "reboot")), c.w)
    else
      Fixed(FixResult(false, "Failed to update firmware", c.out, false), c.w)
  }

  /** The `fix_map` of `apply_fix`. */
  function Handler(name: string): (h: Option<Fix.Handler>)
    ensures h.Some? <==> name in {"GPU Driver", "WiFi Driver", "Audio Driver", "Bluetooth", "Firmware Updates", "Hardware Acceleration"}
  {
    if name == "GPU Driver" then Some(InstallNvidiaDriver)
    else if name == "WiFi Driver" then Some(InstallWifiFirmware)
    else if name == "Audio Driver" then Some(InstallAudioDrivers)
    else if name == "Bluetooth" then Some(EnableBluetooth)
    else if name == "Firmware Updates" then Some(UpdateFirmware)
    else if name == "Hardware Acceleration" then Some(InstallHwAcceleration)
    else None
  }

  /** The shortcut taken before the fix map: a blocked radio is unblocked without asking. */
  function Shortcut(r: CheckResult): (h: Option<Fix.Handler>)
    ensures h.Some? <==> Contains(Lower(r.message), "blocked")
                         && (Contains(Lower(r.name), "wifi") || Contains(Lower(r.name), "bluetooth"))
  {
    if Contains(Lower(r.message), "blocked") then
      if Contains(Lower(r.name), "wifi") then Some(UnblockWifi)
      else if Contains(Lower(r.name), "bluetooth") then Some(EnableBluetooth)
      else None
    else None
  }

  /** `DriverFixer.apply_fix` */
  function ApplyFix(w: World, r: CheckResult): (a: Applied)
    ensures !r.fixAvailable ==> a == Applied(None, w)
    ensures r.fixAvailable && Shortcut(r).Some? ==>
              a == Applied(Some(Shortcut(r).value(w).result), Shortcut(r).value(w).w)
    ensures r.fixAvailable && Shortcut(r).None? ==> a == Fix.ApplyFix(w, r, Handler(r.name))
  {
    if !r.fixAvailable then Applied(None, w)
    else match Shortcut(r)
      case Some(h) =>
        var f := h(w);
        Applied(Some(f.result), f.w)
      case None => Fix.ApplyFix(w, r, Handler(r.name))
  }

  /** A blocked WiFi radio is unblocked with no prompt shown. */
  lemma BlockedWifiUnprompted(w: World, r: CheckResult)
    requires r.fixAvailable && Contains(Lower(r.message), "blocked") && Contains(Lower(r.name), "wifi")
    ensures ApplyFix(w, r).result == Some(UnblockWifi(w).result)
    ensures ApplyFix(w, r).w.asked == w.asked
    ensures ApplyFix(w, r).w.issued == w.issued + [Sudo(["rfkill", "unblock", "wifi"])]
  {
  }
}
