/**
 * The driver checker (fedchecker/checks/drivers.py): ten probes over
 * `lspci`, `ip link`, sysfs and a handful of tools.
 */
module Drivers {
  import opened Wrappers
  import opened Text
  import opened Status
  import opened Probe

  /** The probe table of `run_all_checks`, in five groups. */
  const Names1: seq<string> := ["GPU Driver"]
  const Names2: seq<string> := ["WiFi Driver", "Audio Driver"]
  const Names3: seq<string> := ["Bluetooth", "USB Controllers", "Network (Ethernet)"]
  const Names4: seq<string> := ["Webcam", "Firmware Updates"]
  const Names5: seq<string> := ["Kernel Modules", "Hardware Acceleration"]
  const Names: seq<string> := Names1 + Names2 + Names3 + Names4 + Names5

  const DriverIcon := "[bold yellow]\U{1F527}[/]"
  const NouveauFix := "dnf install akmod-nvidia xorg-x11-drv-nvidia-cuda"
  const NvidiaFix := "dnf install akmod-nvidia"
  const WifiFirmwareFix := "dnf install linux-firmware iwlwifi-firmware"
  const WifiUnblockFix := "rfkill unblock wifi"
  const SoundSubsystemFix := "dnf install alsa-plugins-pulseaudio pipewire-alsa"
  const SoundFirmwareFix := "dnf install alsa-firmware sof-firmware"
  const BluetoothServiceFix := "systemctl enable --now bluetooth"
  const BluetoothUnblockFix := "rfkill unblock bluetooth"
  const FwupdInstallFix := "dnf install fwupd"
  const FwupdUpdateFix := "fwupdmgr update"
  const LinuxFirmwareFix := "dnf install linux-firmware"
  const AccelerationFix := "dnf install libva-utils vdpauinfo mesa-va-drivers"

  // ---------------------------------------------------------------- GPU

  /** A line that opens a GPU block of `lspci -nnk`. */
  predicate GpuHeader(line: string) {
    Contains(line, "VGA") || Contains(line, "3D controller") || Contains(line, "Display controller")
  }

  /**
   * Whether line `i` is captured: a header always is, and a tab-indented line
   * is when the line before it was captured.
   */
  predicate Kept(lines: seq<string>, i: nat)
    requires i < |lines|
    decreases i
  {
    GpuHeader(lines[i]) || (i > 0 && StartsWith(lines[i], "\t") && Kept(lines, i - 1))
  }

  /** The captured lines among the first `n`, in order. */
  function KeptPrefix(lines: seq<string>, n: nat): (r: seq<string>)
    requires n <= |lines|
    ensures |r| <= n
    decreases n
  {
    if n == 0 then []
    else KeptPrefix(lines, n - 1) + (if Kept(lines, n - 1) then [lines[n - 1]] else [])
  }

  /** The GPU block lines of an `lspci -nnk` listing. */
  function GpuLines(lines: seq<string>): seq<string> {
    KeptPrefix(lines, |lines|)
  }

  /** The capture loop of `check_gpu_driver`, with its `capturing` flag. */
  method CaptureGpuLines(lines: seq<string>) returns (vga: seq<string>)
    ensures vga == GpuLines(lines)
  {
    vga := [];
    var capturing := false;
    var i := 0;
    while i < |lines|
      invariant 0 <= i <= |lines|
      invariant vga == KeptPrefix(lines, i)
      invariant capturing <==> i > 0 && Kept(lines, i - 1)
    {
      var line := lines[i];
      if GpuHeader(line) {
        vga := vga + [line];
        capturing := true;
      } else if capturing {
        if StartsWith(line, "\t") {
          vga := vga + [line];
        } else {
          capturing := false;
        }
      }
      i := i + 1;
    }
  }

  /** A captured line is preceded, at or before it, by a header. */
  lemma {:induction false} KeptHasHeader(lines: seq<string>, i: nat)
    requires i < |lines| && Kept(lines, i)
    ensures exists j :: 0 <= j <= i && GpuHeader(lines[j])
    decreases i
  {
    if !GpuHeader(lines[i]) {
      KeptHasHeader(lines, i - 1);
    }
  }

  /** Captured lines are exactly the kept ones, so nothing is captured without a header. */
  lemma {:induction false} KeptPrefixSpec(lines: seq<string>, n: nat)
    requires n <= |lines|
    ensures forall x :: x in KeptPrefix(lines, n) ==> exists i :: 0 <= i < n && Kept(lines, i) && lines[i] == x
    ensures forall i :: 0 <= i < n && Kept(lines, i) ==> lines[i] in KeptPrefix(lines, n)
    decreases n
  {
    if n > 0 {
      KeptPrefixSpec(lines, n - 1);
    }
  }

  /** No GPU block is captured exactly when no line is a header. */
  lemma GpuLinesEmpty(lines: seq<string>)
    ensures |GpuLines(lines)| == 0 <==> forall i :: 0 <= i < |lines| ==> !GpuHeader(lines[i])
  {
    KeptPrefixSpec(lines, |lines|);
    if |GpuLines(lines)| > 0 {
      var x := GpuLines(lines)[0];
      assert x in GpuLines(lines);
      var i :| 0 <= i < |lines| && Kept(lines, i) && lines[i] == x;
      KeptHasHeader(lines, i);
    }
    forall i | 0 <= i < |lines| && GpuHeader(lines[i]) ensures lines[i] in GpuLines(lines) {
      assert Kept(lines, i);
    }
  }

  /** `'NVIDIA' in gpu_text.upper()` */
  predicate NvidiaGpu(text: string) { Contains(Upper(text), "NVIDIA") }

  /** The proprietary driver is loaded. */
  predicate ProprietaryNvidia(text: string) {
    Contains(Lower(text), "nvidia") && Contains(text, "Kernel driver in use: nvidia")
  }

  /** `re.search(r'Kernel driver in use: (\w+)', text)`, its group. */
  function KernelDriver(text: string): Option<string> {
    Search(text, t => PrefixRun(t, "Kernel driver in use: ", IsWordChar))
  }

  /** The vendor and default driver names `check_gpu_driver` reports for a non-failing GPU block. */
  function VendorDriver(text: string): (vd: (string, string)) {
    if NvidiaGpu(text) then ("NVIDIA", "nvidia (proprietary)")
    else if Contains(Upper(text), "AMD") || Contains(Upper(text), "ATI") || Contains(text, "Radeon") then
      ("AMD", if Contains(Lower(text), "amdgpu") then "amdgpu"
              else if Contains(Lower(text), "radeon") then "radeon" else "Unknown")
    else if Contains(text, "Intel") then
      ("Intel", if Contains(Lower(text), "i915") then "i915" else "Unknown")
    else ("Unknown", "Unknown")
  }

  /** `check_gpu_driver` */
  function GpuDriver(lspci: CmdOut): (r: CheckResult)
    ensures r.name == "GPU Driver" && FixConsistent(r)
    ensures r.status == Skip <==> !lspci.ok
    ensures lspci.ok ==>
              var vga := GpuLines(Split(lspci.out, '\n'));
              var text := Join(vga, "\n");
              && (r.status == Warn <==> |vga| == 0 || (NvidiaGpu(text) && !ProprietaryNvidia(text) && Contains(Lower(text), "nouveau")))
              && (r.status == Fail <==> |vga| > 0 && NvidiaGpu(text) && !ProprietaryNvidia(text) && !Contains(Lower(text), "nouveau"))
              && (r.status == Pass <==> |vga| > 0 && (!NvidiaGpu(text) || ProprietaryNvidia(text)))
              && (r.status == Pass ==> r.details == vga[0] && StartsWith(r.message, VendorDriver(text).0 + ": "))
    ensures r.status == Warn && r.fixAvailable ==> r.fixCommand == NouveauFix
    ensures r.status == Fail ==> r.fixCommand == NvidiaFix
  {
    if !lspci.ok then Plain("GPU Driver", Skip, "Unable to detect GPU")
    else
      var vga := GpuLines(Split(lspci.out, '\n'));
      if |vga| == 0 then Plain("GPU Driver", Warn, "No GPU detected")
      else
        var text := Join(vga, "\n");
        if NvidiaGpu(text) && !ProprietaryNvidia(text) && Contains(Lower(text), "nouveau") then
          CheckResult("GPU Driver", Warn, "NVIDIA using nouveau driver",
                      "Consider installing nvidia-driver for better performance", true, NouveauFix)
        else if NvidiaGpu(text) && !ProprietaryNvidia(text) then
          CheckResult("GPU Driver", Fail, "NVIDIA GPU without proper driver", "", true, NvidiaFix)
        else
          var vd := VendorDriver(text);
          var driver := KernelDriver(text).GetOr(vd.1);
          CheckResult("GPU Driver", Pass, vd.0 + ": " + driver, vga[0], false, "")
  }

  // ---------------------------------------------------------------- interfaces

  /** `re.match(r'\d+: (\w+):', line)`, its group. */
  function InterfaceName(line: string): (n: Option<string>)
    ensures n.Some? ==> |n.value| > 0 && |line| > 0 && IsDigit(line[0])
  {
    var d := Digits(line);
    var rest := line[|d|..];
    if |d| == 0 || !StartsWith(rest, ": ") then None
    else
      var w := WordChars(rest[2..]);
      if |w| > 0 && 2 + |w| < |rest| && rest[2 + |w|] == ':' then Some(w) else None
  }

  /** Some key occurs in the line. */
  predicate MentionsAny(line: string, keys: seq<string>) {
    exists k :: 0 <= k < |keys| && Contains(line, keys[k])
  }

  /** Per line of `ip link show`: the interface it names, when it mentions a key. */
  function LineInterfaces(lines: seq<string>, keys: seq<string>): (ns: seq<Option<string>>)
    ensures |ns| == |lines|
    ensures forall i :: 0 <= i < |lines| ==>
              ns[i] == (if MentionsAny(Lower(lines[i]), keys) then InterfaceName(lines[i]) else None)
  {
    seq(|lines|, i requires 0 <= i < |lines| =>
      if MentionsAny(Lower(lines[i]), keys) then InterfaceName(lines[i]) else None)
  }

  /** The interfaces of a successful `ip link show` whose line mentions a key. */
  function Interfaces(ipLink: CmdOut, keys: seq<string>): seq<string> {
    if ipLink.ok then Somes(LineInterfaces(Split(ipLink.out, '\n'), keys)) else []
  }

  /** A line of `ip link show` that mentions a key and names an interface. */
  predicate NamesInterface(line: string, keys: seq<string>) {
    MentionsAny(Lower(line), keys) && InterfaceName(line).Some?
  }

  /** No interface is found exactly when the listing failed or no line names one. */
  lemma InterfacesEmpty(ipLink: CmdOut, keys: seq<string>)
    ensures |Interfaces(ipLink, keys)| == 0 <==>
              !ipLink.ok || forall line :: line in Split(ipLink.out, '\n') ==> !NamesInterface(line, keys)
  {
    var ls := Split(ipLink.out, '\n');
    var xs := LineInterfaces(ls, keys);
    SomesEmpty(xs);
    if ipLink.ok {
      assert Interfaces(ipLink, keys) == Somes(xs);
      if |Somes(xs)| == 0 {
        forall line | line in ls ensures !NamesInterface(line, keys) {
          var i :| 0 <= i < |ls| && ls[i] == line;
          assert xs[i].None?;
        }
      } else {
        var i :| 0 <= i < |xs| && xs[i].Some?;
        assert ls[i] in ls && NamesInterface(ls[i], keys);
      }
    }
  }

  const WirelessKeys: seq<string> := ["wl", "wlan"]
  const EthernetKeys: seq<string> := ["eth", "enp", "eno"]

  /** `os.path.basename(os.readlink(...))` of an interface's driver link, or "unknown" when it is absent. */
  function DriverName(iface: string, links: map<string, string>): string {
    var path := "/sys/class/net/" + iface + "/device/driver";
    if path in links then AfterLast(links[path], '/') else "unknown"
  }

  /** An `rfkill list` output reporting a block. */
  predicate Blocked(rfkill: string) {
    Contains(rfkill, "Soft blocked: yes") || Contains(rfkill, "Hard blocked: yes")
  }

  /** `lspci -nnk` mentions wireless hardware. */
  predicate WifiHardware(lspci: string) {
    Contains(lspci, "Wireless") || Contains(lspci, "Wi-Fi") || Contains(lspci, "WLAN")
  }

  // ---------------------------------------------------------------- WiFi

  /** `check_wifi_driver` */
  function WifiDriver(ipLink: CmdOut, lspci: CmdOut, links: map<string, string>, rfkill: CmdOut): (r: CheckResult)
    ensures r.name == "WiFi Driver" && FixConsistent(r)
    ensures |Interfaces(ipLink, WirelessKeys)| == 0 ==>
              (r.status == Fail <==> WifiHardware(lspci.out)) && (r.status == Skip <==> !WifiHardware(lspci.out))
    ensures |Interfaces(ipLink, WirelessKeys)| > 0 ==>
              r.status in {Pass, Warn} && (r.status == Warn <==> Blocked(rfkill.out))
    ensures r.status == Fail ==> r.fixCommand == WifiFirmwareFix
    ensures r.status == Warn ==> r.fixCommand == WifiUnblockFix
  {
    var ws := Interfaces(ipLink, WirelessKeys);
    if |ws| == 0 then
      if WifiHardware(lspci.out) then
        CheckResult("WiFi Driver", Fail, "WiFi hardware found but no driver loaded", "", true, WifiFirmwareFix)
      else Plain("WiFi Driver", Skip, "No WiFi hardware detected")
    else
      var driver := DriverName(ws[0], links);
      if Blocked(rfkill.out) then
        CheckResult("WiFi Driver", Warn, driver + " driver loaded, WiFi blocked", "Interface: " + ws[0], true, WifiUnblockFix)
      else Plain("WiFi Driver", Pass, driver + " (" + ws[0] + ")")
  }

  // ---------------------------------------------------------------- audio

  /** `\s*\d+\s+\[` at the start of `t`: the length of the match. */
  function CardMatch(t: string): (n: Option<nat>)
    ensures n.Some? ==> 3 <= n.value <= |t|
  {
    var u := TrimStart(t);
    var d := Digits(u);
    var v := u[|d|..];
    var w := TrimStart(v);
    if |d| > 0 && |w| < |v| && |w| > 0 && w[0] == '[' then Some(|t| - |w| + 1) else None
  }

  /** `len(re.findall(r'^\s*\d+\s+\[', cards[p:], re.MULTILINE))`, scanning from `p`. */
  function CardCount(s: string, p: nat): (n: nat)
    requires p <= |s|
    ensures n > 0 <==> exists i :: p <= i <= |s| && LineStart(s, i) && CardMatch(s[i..]).Some?
    decreases |s| - p
  {
    match FirstLineMatch(s, t => CardMatch(t).Some?, p)
    case None => 0
    case Some(i) => 1 + CardCount(s, i + CardMatch(s[i..]).value)
  }

  /** Which sound server reports itself active. */
  function AudioServer(pipewire: CmdOut, pulseaudio: CmdOut): string {
    if pipewire.ok && Contains(pipewire.out, "active") then "PipeWire"
    else if pulseaudio.ok && Contains(pulseaudio.out, "active") then "PulseAudio"
    else "Unknown"
  }

  /** `check_audio_driver`: reading /proc/asound/cards may raise. */
  function AudioDriver(cards: FileRead, pipewire: CmdOut, pulseaudio: CmdOut): (a: Attempt)
    ensures a.Raised? <==> cards.Denied?
    ensures a.Raised? ==> a.msg == Denial("/proc/asound/cards")
    ensures a.Returned? ==> a.result.name == "Audio Driver" && FixConsistent(a.result)
    ensures cards.Missing? ==> a.result.status == Fail && a.result.fixCommand == SoundSubsystemFix
    ensures cards.Content? ==>
              (a.result.status == Fail <==> Contains(Lower(cards.text), "no soundcards") || |Strip(cards.text)| == 0)
    ensures cards.Content? && a.result.status == Fail ==> a.result.fixCommand == SoundFirmwareFix
    ensures a.Returned? ==> a.result.status in {Pass, Fail}
  {
    match cards
    case Missing =>
      Returned(CheckResult("Audio Driver", Fail, "No sound subsystem detected", "", true, SoundSubsystemFix))
    case Denied => Raised(Denial("/proc/asound/cards"))
    case Content(text) =>
      if Contains(Lower(text), "no soundcards") || |Strip(text)| == 0 then
        Returned(CheckResult("Audio Driver", Fail, "No sound cards found", "", true, SoundFirmwareFix))
      else
        Returned(Plain("Audio Driver", Pass,
                       NatStr(CardCount(text, 0)) + " card(s), " + AudioServer(pipewire, pulseaudio)))
  }

  // ---------------------------------------------------------------- Bluetooth

  /**
   * `check_bluetooth`: `hci` is the number of entries of /sys/class/bluetooth,
   * or None when it does not exist.
   */
  function Bluetooth(lsusb: CmdOut, lspci: CmdOut, hci: Option<nat>, service: CmdOut, rfkill: CmdOut): (r: CheckResult)
    ensures r.name == "Bluetooth" && FixConsistent(r)
    ensures r.status == Skip <==>
              !Contains(lsusb.out, "Bluetooth") && !Contains(lspci.out, "Bluetooth") && (hci.None? || hci.value == 0)
    ensures r.status != Skip ==>
              (r.status == Warn <==> !service.ok || Contains(service.out, "inactive") || Blocked(rfkill.out))
    ensures r.status in {Skip, Warn, Pass}
    ensures r.status == Warn ==>
              r.fixCommand == (if !service.ok || Contains(service.out, "inactive") then BluetoothServiceFix
                               else BluetoothUnblockFix)
  {
    var hardware := Contains(lsusb.out, "Bluetooth") || Contains(lspci.out, "Bluetooth");
    if !hardware && (hci.None? || hci.value == 0) then Plain("Bluetooth", Skip, "No Bluetooth hardware detected")
    else if !service.ok || Contains(service.out, "inactive") then
      CheckResult("Bluetooth", Warn, "Bluetooth service not running", "", true, BluetoothServiceFix)
    else if Blocked(rfkill.out) then
      CheckResult("Bluetooth", Warn, "Bluetooth is blocked", "", true, BluetoothUnblockFix)
    else Plain("Bluetooth", Pass, "Bluetooth active")
  }

  // ---------------------------------------------------------------- USB

  /** `[l for l in lines if l.strip()]` */
  function NonBlank(lines: seq<string>): (r: seq<string>)
    ensures |r| <= |lines|
    decreases |lines|
  {
    if |lines| == 0 then []
    else if |Strip(lines[0])| > 0 then [lines[0]] + NonBlank(lines[1..])
    else NonBlank(lines[1..])
  }

  /** The kept lines are the non-blank ones. */
  lemma {:induction false} NonBlankSpec(lines: seq<string>)
    ensures forall x :: x in NonBlank(lines) <==> x in lines && |Strip(x)| > 0
    decreases |lines|
  {
    if |lines| > 0 {
      NonBlankSpec(lines[1..]);
      assert lines == [lines[0]] + lines[1..];
    }
  }

  /** `check_usb` */
  function Usb(lsusb: CmdOut, lspciVerbose: CmdOut): (r: CheckResult)
    ensures r.name == "USB Controllers" && !r.fixAvailable
    ensures r.status == Skip <==> !lsusb.ok
    ensures r.status in {Skip, Pass}
  {
    if !lsusb.ok then Plain("USB Controllers", Skip, "Unable to query USB devices")
    else
      var n := |NonBlank(Split(lsusb.out, '\n'))|;
      var usb3 := Contains(lspciVerbose.out, "xHCI") || Contains(lspciVerbose.out, "USB 3");
      Plain("USB Controllers", Pass, NatStr(n) + " device(s)" + (if usb3 then ", USB 3.0" else ""))
  }

  // ---------------------------------------------------------------- Ethernet

  /** `cat /sys/class/net/IFACE/carrier` succeeded and printed 1; `carriers` maps present files to their text. */
  predicate Connected(iface: string, carriers: map<string, string>) {
    var path := "/sys/class/net/" + iface + "/carrier";
    path in carriers && Strip(carriers[path]) == "1"
  }

  /** `check_ethernet` */
  function Ethernet(ipLink: CmdOut, links: map<string, string>, carriers: map<string, string>): (r: CheckResult)
    ensures r.name == "Network (Ethernet)" && !r.fixAvailable
    ensures r.status == Skip <==> |Interfaces(ipLink, EthernetKeys)| == 0
    ensures r.status in {Skip, Pass}
    ensures r.status == Pass ==>
              var iface := Interfaces(ipLink, EthernetKeys)[0];
              r.message == DriverName(iface, links) + " (" + iface + "): "
                           + (if Connected(iface, carriers) then "connected" else "no link")
  {
    var es := Interfaces(ipLink, EthernetKeys);
    if |es| == 0 then Plain("Network (Ethernet)", Skip, "No ethernet interface detected")
    else
      var state := if Connected(es[0], carriers) then "connected" else "no link";
      Plain("Network (Ethernet)", Pass, DriverName(es[0], links) + " (" + es[0] + "): " + state)
  }

  // ---------------------------------------------------------------- webcam

  /** `len(re.findall(r'/dev/video\d+', output))` */
  function VideoNodes(output: string): nat {
    |FindAllRuns(output, "/dev/video", IsDigit)|
  }

  /** `check_webcam`: `devices` is the number of /dev/video* entries. */
  function Webcam(devices: nat, v4l2: CmdOut): (r: CheckResult)
    ensures r.name == "Webcam" && !r.fixAvailable
    ensures r.status == Skip <==> devices == 0
    ensures r.status in {Skip, Pass}
    ensures r.status == Pass ==>
              r.message == NatStr(if v4l2.ok && |Strip(v4l2.out)| > 0 then VideoNodes(v4l2.out) else devices)
                           + " video device(s)" + (if v4l2.ok && |Strip(v4l2.out)| > 0 then " found" else "")
  {
    if devices == 0 then Plain("Webcam", Skip, "No video devices found")
    else if v4l2.ok && |Strip(v4l2.out)| > 0 then
      Plain("Webcam", Pass, NatStr(VideoNodes(v4l2.out)) + " video device(s) found")
    else Plain("Webcam", Pass, NatStr(devices) + " video device(s)")
  }

  /** A listing without a device node counts none. */
  lemma NoVideoNodes(output: string)
    requires !Contains(output, "/dev/video")
    ensures VideoNodes(output) == 0
  {
    FindAllRunsNeedsPrefix(output, "/dev/video", IsDigit);
  }

  // ---------------------------------------------------------------- firmware

  /** fwupd says there is nothing to install. */
  predicate UpToDate(out: string) {
    Contains(out, "No upgrades") || Contains(out, "No updates")
  }

  /** `check_firmware` */
  function Firmware(which: CmdOut, updates: CmdOut): (r: CheckResult)
    ensures r.name == "Firmware Updates" && FixConsistent(r)
    ensures !which.ok ==> r.status == Warn && r.fixCommand == FwupdInstallFix
    ensures which.ok ==> (r.status == Warn <==> updates.ok && !UpToDate(updates.out))
    ensures which.ok && r.status == Warn ==> r.fixCommand == FwupdUpdateFix
    ensures r.status in {Pass, Warn}
  {
    if !which.ok then CheckResult("Firmware Updates", Warn, "fwupd not installed", "", true, FwupdInstallFix)
    else if UpToDate(updates.out) then Plain("Firmware Updates", Pass, "Firmware up to date")
    else if updates.ok then CheckResult("Firmware Updates", Warn, "Firmware updates available", "", true, FwupdUpdateFix)
    else Plain("Firmware Updates", Pass, "Unable to check updates")
  }

  // ---------------------------------------------------------------- kernel modules

  /** `\S` */
  predicate NonSpace(c: char) { !IsSpace(c) }

  /** `re.findall(r'firmware: failed to load (\S+)', dmesg)` */
  function MissingFirmware(dmesg: string): seq<string> {
    FindAllRuns(dmesg, "firmware: failed to load ", NonSpace)
  }

  /** The text of `t` up to its first newline. */
  function LineHead(t: string): (h: string)
    ensures |h| <= |t| && h == t[..|h|] && '\n' !in h
    decreases |t|
  {
    if |t| == 0 || t[0] == '\n' then "" else [t[0]] + LineHead(t[1..])
  }

  /** `p` occurs in `s` at position `j`. */
  predicate OccursAt(s: string, p: string, j: nat) {
    j + |p| <= |s| && s[j..j + |p|] == p
  }

  /** The last position at which `p` occurs in `s`. */
  function LastIndex(s: string, p: string): (i: Option<nat>)
    requires |p| > 0
    ensures i.Some? ==> OccursAt(s, p, i.value)
    ensures i.Some? ==> forall j :: i.value < j ==> !OccursAt(s, p, j)
    ensures i.None? ==> forall j :: !OccursAt(s, p, j)
    decreases |s|
  {
    if |s| < |p| then None
    else if s[|s| - |p|..] == p then Some(|s| - |p|)
    else
      var r := LastIndex(s[..|s| - 1], p);
      assert forall j :: OccursAt(s, p, j) ==> OccursAt(s[..|s| - 1], p, j);
      r
  }

  const ProbeOf := ": probe of "

  /**
   * `(\w+): probe of .* failed` at the start of `t`: the word and the length
   * of the match. The word must run up to the colon, and the greedy `.*`
   * reaches the last " failed" of the line.
   */
  function ProbeMatch(t: string): (m: Option<(string, nat)>)
    ensures m.Some? ==> m.value.0 == WordChars(t) && |m.value.0| > 0 && m.value.1 <= |t|
  {
    var w := WordChars(t);
    var rest := t[|w|..];
    if |w| == 0 || !StartsWith(rest, ProbeOf) then None
    else
      var line := LineHead(rest[|ProbeOf|..]);
      match LastIndex(line, " failed")
      case None => None
      case Some(k) => Some((w, |w| + |ProbeOf| + k + 7))
  }

  /** `re.findall(r'(\w+): probe of .* failed', dmesg)` */
  function FailedModules(dmesg: string): seq<string> {
    FindAll(dmesg, ProbeMatch)
  }

  /** `len(set(xs))` */
  function Distinct(xs: seq<string>): nat {
    |set x | x in xs|
  }

  /** Deduplication never counts more names than were found. */
  lemma {:induction false} DistinctAtMost(xs: seq<string>)
    ensures Distinct(xs) <= |xs|
    decreases |xs|
  {
    if |xs| > 0 {
      DistinctAtMost(xs[1..]);
      assert (set x | x in xs) == (set x | x in xs[1..]) + {xs[0]};
    }
  }

  /** A name found again adds no issue. */
  lemma DistinctRepeat(xs: seq<string>, k: nat)
    requires k < |xs|
    ensures Distinct(xs + [xs[k]]) == Distinct(xs)
  {
    assert (set x | x in xs + [xs[k]]) == (set x | x in xs);
  }

  /** The issue count of `check_kernel_modules`. */
  function ModuleIssues(dmesg: string): (n: nat)
    ensures n <= |MissingFirmware(dmesg)| + |FailedModules(dmesg)|
  {
    DistinctAtMost(MissingFirmware(dmesg));
    DistinctAtMost(FailedModules(dmesg));
    Distinct(MissingFirmware(dmesg)) + Distinct(FailedModules(dmesg))
  }

  /** `check_kernel_modules` */
  function KernelModules(dmesg: CmdOut): (r: CheckResult)
    ensures r.name == "Kernel Modules" && FixConsistent(r)
    ensures r.status == Skip <==> !dmesg.ok
    ensures dmesg.ok ==> (r.status == Warn <==> ModuleIssues(dmesg.out) > 5)
    ensures r.status == Warn ==> r.fixCommand == LinuxFirmwareFix
    ensures r.status in {Skip, Warn, Pass}
  {
    if !dmesg.ok then Plain("Kernel Modules", Skip, "Unable to read dmesg")
    else
      var issues := ModuleIssues(dmesg.out);
      if issues > 5 then
        CheckResult("Kernel Modules", Warn, NatStr(issues) + " firmware/module issue(s)",
                    "Check dmesg for details", true, LinuxFirmwareFix)
      else if issues > 0 then Plain("Kernel Modules", Pass, NatStr(issues) + " minor issue(s)")
      else Plain("Kernel Modules", Pass, "No module issues detected")
  }

  // ---------------------------------------------------------------- acceleration

  /** `check_hw_acceleration` */
  function HwAcceleration(vainfo: CmdOut, vdpauinfo: CmdOut): (r: CheckResult)
    ensures r.name == "Hardware Acceleration" && FixConsistent(r)
    ensures r.status == Pass <==>
              (vainfo.ok && Contains(vainfo.out, "VAProfile")) || (vdpauinfo.ok && Contains(vdpauinfo.out, "VDPAU"))
    ensures r.status != Pass ==> r.status == Warn && r.fixCommand == AccelerationFix
  {
    var vaapi := vainfo.ok && Contains(vainfo.out, "VAProfile");
    var vdpau := vdpauinfo.ok && Contains(vdpauinfo.out, "VDPAU");
    if vaapi && vdpau then Plain("Hardware Acceleration", Pass, "VA-API and VDPAU available")
    else if vaapi then Plain("Hardware Acceleration", Pass, "VA-API available")
    else if vdpau then Plain("Hardware Acceleration", Pass, "VDPAU available")
    else CheckResult("Hardware Acceleration", Warn, "No hardware acceleration detected", "", true, AccelerationFix)
  }

  // ---------------------------------------------------------------- the table

  /** Everything the driver probes observe. */
  datatype Observation = Observation(
    lspciNnk: CmdOut, ipLink: CmdOut, driverLinks: map<string, string>, rfkillWifi: CmdOut,
    soundCards: FileRead, pipewire: CmdOut, pulseaudio: CmdOut,
    lsusb: CmdOut, lspci: CmdOut, hci: Option<nat>, bluetoothService: CmdOut, rfkillBluetooth: CmdOut,
    lspciVerbose: CmdOut, carriers: map<string, string>, videoDevices: nat, v4l2: CmdOut,
    whichFwupd: CmdOut, fwupdUpdates: CmdOut, dmesg: CmdOut, vainfo: CmdOut, vdpauinfo: CmdOut)

  function Group1(o: Observation): (as_: seq<Attempt>)
    ensures AllShaped(Names1, as_)
  {
    [Returned(GpuDriver(o.lspciNnk))]
  }

  function Group2(o: Observation): (as_: seq<Attempt>)
    ensures AllShaped(Names2, as_)
  {
    [Returned(WifiDriver(o.ipLink, o.lspciNnk, o.driverLinks, o.rfkillWifi)),
     AudioDriver(o.soundCards, o.pipewire, o.pulseaudio)]
  }

  function Group3(o: Observation): (as_: seq<Attempt>)
    ensures AllShaped(Names3, as_)
  {
    [Returned(Bluetooth(o.lsusb, o.lspci, o.hci, o.bluetoothService, o.rfkillBluetooth)),
     Returned(Usb(o.lsusb, o.lspciVerbose)),
     Returned(Ethernet(o.ipLink, o.driverLinks, o.carriers))]
  }

  function Group4(o: Observation): (as_: seq<Attempt>)
    ensures AllShaped(Names4, as_)
  {
    [Returned(Webcam(o.videoDevices, o.v4l2)), Returned(Firmware(o.whichFwupd, o.fwupdUpdates))]
  }

  function Group5(o: Observation): (as_: seq<Attempt>)
    ensures AllShaped(Names5, as_)
  {
    [Returned(KernelModules(o.dmesg)), Returned(HwAcceleration(o.vainfo, o.vdpauinfo))]
  }

  /** The table's attempts, in order. */
  function Attempts(o: Observation): (as_: seq<Attempt>)
    ensures AllShaped(Names, as_)
  {
    var a1 := Group1(o);
    var a2 := Group2(o);
    var a3 := Group3(o);
    var a4 := Group4(o);
    var a5 := Group5(o);
    AllShapedConcat(Names1, a1, Names2, a2);
    AllShapedConcat(Names1 + Names2, a1 + a2, Names3, a3);
    AllShapedConcat(Names1 + Names2 + Names3, a1 + a2 + a3, Names4, a4);
    AllShapedConcat(Names1 + Names2 + Names3 + Names4, a1 + a2 + a3 + a4, Names5, a5);
    a1 + a2 + a3 + a4 + a5
  }

  /** `DriverChecker.run_all_checks` */
  function RunAllChecks(o: Observation): (c: Category)
    ensures c.name == "Driver Check" && c.icon == DriverIcon
    ensures |c.results| == 10 && TableShaped(Names, c.results)
    ensures forall i :: 0 <= i < 10 ==> c.results[i] == Guard(Names[i], Attempts(o)[i])
  {
    var as_ := Attempts(o);
    RunTableShaped(Names, as_);
    Category("Driver Check", DriverIcon, RunTable(Names, as_))
  }
}
