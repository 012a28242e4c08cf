/**
 * The desktop checker (fedchecker/checks/desktop.py): ten probes over the
 * session's environment variables and desktop tools.
 */
module Desktop {
  import opened Wrappers
  import opened Text
  import opened Status
  import opened Probe

  /** The probe table of `run_all_checks`, in four groups. */
  const Names1: seq<string> := ["Desktop Environment", "Display Server"]
  const Names2: seq<string> := ["Compositor", "Display Manager", "Screen Resolution"]
  const Names3: seq<string> := ["Theme & Icons", "Fonts", "GNOME Extensions"]
  const Names4: seq<string> := ["Flatpak Apps", "Desktop Portals"]
  const Names: seq<string> := Names1 + Names2 + Names3 + Names4

  const DesktopIcon := "[bold blue]\U{1F5A5}\U{FE0F}[/]"
  const FontsFix := "dnf install google-noto-fonts-common liberation-fonts dejavu-fonts-all"
  const FlatpakInstallFix := "dnf install flatpak && flatpak remote-add --if-not-exists flathub https://flathub.org/repo/flathub.flatpakrepo"
  const FlathubFix := "flatpak remote-add --if-not-exists flathub https://flathub.org/repo/flathub.flatpakrepo"
  const PortalInstallFix := "dnf install xdg-desktop-portal xdg-desktop-portal-gtk"
  const PortalServiceFix := "systemctl --user enable --now xdg-desktop-portal"

  /** The process environment. */
  type Env = map<string, string>

  /** `os.environ.get(key, default)` */
  function EnvGet(env: Env, key: string, default: string): string {
    if key in env then env[key] else default
  }

  /** `os.environ.get(key)` is truthy: set and non-empty. */
  predicate EnvSet(env: Env, key: string) {
    key in env && env[key] != ""
  }

  /** The lower-cased XDG_CURRENT_DESKTOP the checker keeps. */
  function DesktopSession(env: Env): string {
    Lower(EnvGet(env, "XDG_CURRENT_DESKTOP", ""))
  }

  /** The lower-cased XDG_SESSION_TYPE the checker keeps. */
  function SessionType(env: Env): string {
    Lower(EnvGet(env, "XDG_SESSION_TYPE", ""))
  }

  // ---------------------------------------------------------------- desktop environment

  /** `de_map`, in insertion order: the first key found in the session name wins. */
  const DeMap: seq<(string, string)> := [
    ("gnome", "GNOME"), ("kde", "KDE Plasma"), ("plasma", "KDE Plasma"), ("xfce", "XFCE"),
    ("cinnamon", "Cinnamon"), ("mate", "MATE"), ("lxde", "LXDE"), ("lxqt", "LXQt"),
    ("budgie", "Budgie"), ("pantheon", "Pantheon"), ("sway", "Sway"), ("i3", "i3"),
    ("hyprland", "Hyprland")]

  /** The desktop name `check_desktop_environment` settles on, "Unknown" if none. */
  function DeName(env: Env): string {
    var desktop := DesktopSession(env);
    match FirstIndex(DeMap, (e: (string, string)) => Contains(desktop, e.0), 0)
    case Some(i) => DeMap[i].1
    case None =>
      if EnvSet(env, "GNOME_DESKTOP_SESSION_ID") then "GNOME"
      else if EnvSet(env, "KDE_FULL_SESSION") then "KDE Plasma"
      else "Unknown"
  }

  /** A desktop is recognised exactly when a key occurs in the session name or a fallback variable is set. */
  lemma DeNameKnown(env: Env)
    ensures DeName(env) != "Unknown" <==>
              (exists i :: 0 <= i < |DeMap| && Contains(DesktopSession(env), DeMap[i].0))
              || EnvSet(env, "GNOME_DESKTOP_SESSION_ID") || EnvSet(env, "KDE_FULL_SESSION")
  {
    var desktop := DesktopSession(env);
    var m := FirstIndex(DeMap, (e: (string, string)) => Contains(desktop, e.0), 0);
    if m.Some? {
      DeMapNamed(m.value);
    }
  }

  /** Every entry of the map names a desktop. */
  lemma DeMapNamed(i: nat)
    requires i < |DeMap|
    ensures DeMap[i].1 != "Unknown"
  {
  }

  /** The session name decides before the fallback variables do. */
  lemma DeNameFirstKey(env: Env, i: nat)
    requires i < |DeMap| && Contains(DesktopSession(env), DeMap[i].0)
    requires forall j :: 0 <= j < i ==> !Contains(DesktopSession(env), DeMap[j].0)
    ensures DeName(env) == DeMap[i].1
  {
    var desktop := DesktopSession(env);
    var m := FirstIndex(DeMap, (e: (string, string)) => Contains(desktop, e.0), 0);
    assert m.Some? && m.value == i;
  }

  /** `(\d+\.\d+)` at the start of `t`: the version and its length. */
  function VersionMatch(t: string): (m: Option<(string, nat)>)
    ensures m.Some? ==> 0 < m.value.1 == |m.value.0| <= |t| && t[..m.value.1] == m.value.0
  {
    var d1 := Digits(t);
    if |d1| == 0 || |d1| == |t| || t[|d1|] != '.' then None
    else
      var d2 := Digits(t[|d1| + 1..]);
      if |d2| == 0 then None
      else
        assert t[..|d1| + 1 + |d2|] == d1 + "." + d2;
        Some((d1 + "." + d2, |d1| + 1 + |d2|))
  }

  /** The version `check_desktop_environment` appends for GNOME and KDE. */
  function DeVersion(de: string, gnomeShell: CmdOut, plasmashell: CmdOut): string {
    if Contains(Lower(de), "gnome") then
      if gnomeShell.ok then Replace(Strip(gnomeShell.out), "GNOME Shell ", "") else ""
    else if Contains(Lower(de), "kde") || Contains(Lower(de), "plasma") then
      if plasmashell.ok then Search(plasmashell.out, VersionMatch).GetOr("") else ""
    else ""
  }

  /** `check_desktop_environment` */
  function DesktopEnvironment(env: Env, gnomeShell: CmdOut, plasmashell: CmdOut): (r: CheckResult)
    ensures r.name == "Desktop Environment" && !r.fixAvailable
    ensures r.status == Warn <==> DeName(env) == "Unknown"
    ensures r.status != Warn ==> r.status == Pass && StartsWith(r.message, DeName(env))
  {
    var de := DeName(env);
    if de == "Unknown" then
      CheckResult("Desktop Environment", Warn, "Unable to detect DE", "Running in TTY or unknown DE", false, "")
    else
      var version := DeVersion(de, gnomeShell, plasmashell);
      var message := de + (if version != "" then " " + version else "");
      assert message[..|de|] == de;
      Plain("Desktop Environment", Pass, message)
  }

  // ---------------------------------------------------------------- display server

  /** `check_display_server` */
  function DisplayServer(env: Env): (r: CheckResult)
    ensures r.name == "Display Server" && !r.fixAvailable
    ensures r.status == Pass <==> SessionType(env) in {"wayland", "x11"}
    ensures r.status == Skip <==> SessionType(env) == "tty"
    ensures r.status == Warn <==> SessionType(env) !in {"wayland", "x11", "tty"}
  {
    var st := SessionType(env);
    if st == "wayland" then Plain("Display Server", Pass, "Wayland (" + EnvGet(env, "WAYLAND_DISPLAY", "") + ")")
    else if st == "x11" then Plain("Display Server", Pass, "X11 (" + EnvGet(env, "DISPLAY", ":0") + ")")
    else if st == "tty" then Plain("Display Server", Skip, "TTY session (no GUI)")
    else Plain("Display Server", Warn, "Unknown display server")
  }

  // ---------------------------------------------------------------- compositor

  /** The compositors looked for with `pgrep`, in order. */
  const Compositors: seq<string> := ["picom", "compton", "compiz", "kwin", "mutter"]

  /** `check_compositor`: `running` holds the names `pgrep` finds. */
  function Compositor(env: Env, xdpyinfo: CmdOut, running: set<string>): (r: CheckResult)
    ensures r.name == "Compositor" && !r.fixAvailable
    ensures SessionType(env) == "wayland" ==> r.status == Pass
    ensures SessionType(env) != "wayland" ==>
              (r.status == Skip <==> !xdpyinfo.ok)
              && (r.status == Warn <==> xdpyinfo.ok && !Contains(xdpyinfo.out, "Composite"))
    ensures r.status in {Pass, Skip, Warn}
  {
    if SessionType(env) == "wayland" then
      Plain("Compositor", Pass, "Wayland compositor (" + EnvGet(env, "XDG_CURRENT_DESKTOP", "Unknown") + ")")
    else if !xdpyinfo.ok then Plain("Compositor", Skip, "Cannot check compositor")
    else if Contains(xdpyinfo.out, "Composite") then
      match FirstIndex(Compositors, (c: string) => c in running, 0)
      case Some(i) => Plain("Compositor", Pass, Compositors[i] + " compositor active")
      case None => Plain("Compositor", Pass, "Composite extension enabled")
    else
      CheckResult("Compositor", Warn, "No compositor detected", "Desktop effects may not work properly", false, "")
  }

  // ---------------------------------------------------------------- display manager

  /** The display manager services tried, in order, with the names reported. */
  const DisplayManagers: seq<(string, string)> := [
    ("gdm", "GDM (GNOME)"), ("sddm", "SDDM (KDE)"), ("lightdm", "LightDM"), ("lxdm", "LXDM"), ("xdm", "XDM")]

  /** `check_display_manager`: `services` holds each `systemctl is-active` outcome by service. */
  function DisplayManager(services: map<string, CmdOut>): (r: CheckResult)
    ensures r.name == "Display Manager" && !r.fixAvailable
    ensures r.status == Pass <==> exists i :: 0 <= i < |DisplayManagers| && Active(Query(services, DisplayManagers[i].0))
    ensures r.status != Pass ==> r.status == Warn
    ensures r.status == Pass ==>
              exists i :: 0 <= i < |DisplayManagers| && Active(Query(services, DisplayManagers[i].0))
                          && r.message == DisplayManagers[i].1
                          && forall j :: 0 <= j < i ==> !Active(Query(services, DisplayManagers[j].0))
  {
    match FirstIndex(DisplayManagers, (d: (string, string)) => Active(Query(services, d.0)), 0)
    case Some(i) => Plain("Display Manager", Pass, DisplayManagers[i].1)
    case None =>
      CheckResult("Display Manager", Warn, "No display manager detected", "Using TTY login or startx", false, "")
  }

  // ---------------------------------------------------------------- resolution

  /** `\d+\.\d+\*` at the start of `w`: the length of the match. */
  function RateMatch(w: string): (n: Option<nat>)
    ensures n.Some? ==> 0 < n.value <= |w|
  {
    var a := RunLength(w, IsDigit);
    if a == 0 || a == |w| || w[a] != '.' then None
    else
      var b := RunLength(w[a + 1..], IsDigit);
      var k := a + 1 + b;
      if b == 0 || k == |w| || w[k] != '*' then None else Some(k + 1)
  }

  /**
   * `(\d{3,4}x\d{3,4})\s+\d+\.\d+\*` at the start of `t`. Since `x` and the
   * whitespace are not digits, each `\d{3,4}` must take a whole run of three
   * or four digits.
   */
  function ResolutionMatch(t: string): (m: Option<(string, nat)>)
    ensures m.Some? ==> 0 < m.value.1 <= |t|
  {
    var w := RunLength(t, IsDigit);
    if !(3 <= w <= 4) || w == |t| || t[w] != 'x' then None
    else
      match HeightRate(t[w + 1..])
      case None => None
      case Some(hn) => Some((t[..w + 1 + hn.0], w + 1 + hn.1))
  }

  /**
   * `\d{3,4})\s+\d+\.\d+\*`, the part after the `x`: the length of the
   * height and the length of the match.
   */
  function HeightRate(u: string): (m: Option<(nat, nat)>)
    ensures m.Some? ==> m.value.0 < m.value.1 <= |u|
  {
    var h := RunLength(u, IsDigit);
    if !(3 <= h <= 4) || h == |u| || !IsSpace(u[h]) then None
    else
      var w := TrimStart(u[h..]);
      match RateMatch(w)
      case None => None
      case Some(k) => Some((h, |u| - |w| + k))
  }

  /** `(\w+) connected` at the start of `t`. */
  function ConnectedMatch(t: string): (m: Option<(string, nat)>)
    ensures m.Some? ==> |m.value.0| > 0 && m.value.1 == |m.value.0| + 10
  {
    var w := WordChars(t);
    if |w| > 0 && StartsWith(t[|w|..], " connected") then Some((w, |w| + 10)) else None
  }

  /** `check_resolution`: only `xrandr --current` decides. */
  function Resolution(xrandr: CmdOut): (r: CheckResult)
    ensures r.name == "Screen Resolution" && !r.fixAvailable
    ensures r.status == Skip <==> !xrandr.ok
    ensures xrandr.ok ==>
              (r.status == Pass <==> |FindAll(xrandr.out, ResolutionMatch)| > 0 || |FindAll(xrandr.out, ConnectedMatch)| > 0)
    ensures r.status in {Skip, Pass, Warn}
  {
    if !xrandr.ok then Plain("Screen Resolution", Skip, "Cannot detect resolution")
    else
      var modes := FindAll(xrandr.out, ResolutionMatch);
      if |modes| > 0 then Plain("Screen Resolution", Pass, Join(modes, ", "))
      else
        var connected := FindAll(xrandr.out, ConnectedMatch);
        if |connected| > 0 then Plain("Screen Resolution", Pass, NatStr(|connected|) + " display(s) connected")
        else Plain("Screen Resolution", Warn, "No displays detected")
  }

  // ---------------------------------------------------------------- themes

  /** `output.strip().strip("'")` of a gsettings value. */
  function ThemeValue(c: CmdOut): string {
    StripChar(Strip(c.out), '\'')
  }

  /** The themes found, in the order the probe records them. */
  function Themes(gtk: CmdOut, icons: CmdOut, cursor: CmdOut): (ts: seq<(string, string)>)
    ensures |ts| == 0 <==> !gtk.ok && !icons.ok && !cursor.ok
  {
    (if gtk.ok then [("GTK", ThemeValue(gtk))] else [])
    + (if icons.ok then [("Icons", ThemeValue(icons))] else [])
    + (if cursor.ok then [("Cursor", ThemeValue(cursor))] else [])
  }

  /** `", ".join(f"{k}: {v}" for k, v in themes[:2])` */
  function ThemeLine(ts: seq<(string, string)>): string {
    var shown := if |ts| <= 2 then ts else ts[..2];
    Join(seq(|shown|, i requires 0 <= i < |shown| => shown[i].0 + ": " + shown[i].1), ", ")
  }

  /** `s[:n] + ("..." if len(s) > n else "")` */
  function Ellipsize(s: string, n: nat): (r: string)
    ensures |r| <= n + 3
    ensures |s| <= n ==> r == s
    ensures |s| > n ==> |r| == n + 3 && r[..n] == s[..n]
  {
    if |s| > n then s[..n] + "..." else s
  }

  /** `check_themes` */
  function ThemesCheck(gtk: CmdOut, icons: CmdOut, cursor: CmdOut): (r: CheckResult)
    ensures r.name == "Theme & Icons" && !r.fixAvailable
    ensures r.status == Skip <==> !gtk.ok && !icons.ok && !cursor.ok
    ensures r.status != Skip ==> r.status == Pass && |r.message| <= 53
  {
    var ts := Themes(gtk, icons, cursor);
    if |ts| == 0 then Plain("Theme & Icons", Skip, "Unable to detect themes")
    else Plain("Theme & Icons", Pass, Ellipsize(ThemeLine(ts), 50))
  }

  // ---------------------------------------------------------------- fonts

  /** `len(output.strip().split('\n'))`: an empty listing still counts one. */
  function FontCount(out: string): (n: nat)
    ensures n == multiset(Strip(out))['\n'] + 1
  {
    SplitLength(Strip(out), '\n');
    |Split(Strip(out), '\n')|
  }

  const CommonFonts: seq<string> := ["DejaVu", "Liberation", "Noto", "Roboto", "Fira"]

  /** The common families the listing mentions, ignoring case, in list order. */
  function FoundFonts(families: seq<string>, out: string): (r: seq<string>)
    ensures |r| <= |families|
    decreases |families|
  {
    if |families| == 0 then []
    else (if Contains(Lower(out), Lower(families[0])) then [families[0]] else []) + FoundFonts(families[1..], out)
  }

  /** A family is reported exactly when it is looked for and the listing mentions it, ignoring case. */
  lemma {:induction false} FoundFontsSpec(families: seq<string>, out: string)
    ensures forall f :: f in FoundFonts(families, out) <==> f in families && Contains(Lower(out), Lower(f))
    decreases |families|
  {
    if |families| > 0 {
      FoundFontsSpec(families[1..], out);
      assert families == [families[0]] + families[1..];
    }
  }

  /** The families are reported in list order: the result for a concatenation is the two results in turn. */
  lemma {:induction false} FoundFontsAppend(xs: seq<string>, ys: seq<string>, out: string)
    ensures FoundFonts(xs + ys, out) == FoundFonts(xs, out) + FoundFonts(ys, out)
    decreases |xs|
  {
    if |xs| == 0 {
      assert xs + ys == ys;
    } else {
      var head := if Contains(Lower(out), Lower(xs[0])) then [xs[0]] else [];
      assert (xs + ys)[0] == xs[0] && (xs + ys)[1..] == xs[1..] + ys;
      assert FoundFonts(xs + ys, out) == head + FoundFonts(xs[1..] + ys, out);
      FoundFontsAppend(xs[1..], ys, out);
    }
  }

  /** `check_fonts` */
  function Fonts(fcList: CmdOut): (r: CheckResult)
    ensures r.name == "Fonts" && FixConsistent(r)
    ensures r.status == Skip <==> !fcList.ok
    ensures fcList.ok ==> (r.status == Warn <==> FontCount(fcList.out) < 50)
    ensures r.status == Warn ==> r.fixCommand == FontsFix
    ensures r.status in {Skip, Warn, Pass}
  {
    if !fcList.ok then Plain("Fonts", Skip, "fontconfig not available")
    else
      var n := FontCount(fcList.out);
      if n < 50 then
        CheckResult("Fonts", Warn, "Only " + NatStr(n) + " fonts installed",
                    "Consider installing more font packages", true, FontsFix)
      else
        var found := FoundFonts(CommonFonts, fcList.out);
        Plain("Fonts", Pass, NatStr(n) + " fonts (" + Join(if |found| <= 3 then found else found[..3], ", ") + ")")
  }

  // ---------------------------------------------------------------- GNOME extensions

  /** `check_gnome_extensions` */
  function GnomeExtensions(env: Env, enabled: CmdOut, disabled: CmdOut): (r: CheckResult)
    ensures r.name == "GNOME Extensions" && !r.fixAvailable
    ensures r.status == Skip <==> !Contains(DesktopSession(env), "gnome") || !enabled.ok
    ensures r.status in {Skip, Pass}
  {
    if !Contains(DesktopSession(env), "gnome") then Plain("GNOME Extensions", Skip, "Not using GNOME")
    else if !enabled.ok then Plain("GNOME Extensions", Skip, "gnome-extensions not available")
    else
      var exts := NonEmptyLines(enabled.out);
      if |exts| == 0 then Plain("GNOME Extensions", Pass, "No extensions enabled")
      else
        Plain("GNOME Extensions", Pass,
              NatStr(|exts|) + " enabled, " + NatStr(|NonEmptyLines(disabled.out)|) + " disabled")
  }

  // ---------------------------------------------------------------- Flatpak

  /** `check_flatpak` */
  function Flatpak(which: CmdOut, list: CmdOut, remotes: CmdOut): (r: CheckResult)
    ensures r.name == "Flatpak Apps" && FixConsistent(r)
    ensures r.status == Warn <==> !which.ok || (list.ok && !Contains(Lower(remotes.out), "flathub"))
    ensures r.status != Warn ==> r.status == Pass
    ensures r.status == Warn ==> r.fixCommand == (if !which.ok then FlatpakInstallFix else FlathubFix)
  {
    if !which.ok then CheckResult("Flatpak Apps", Warn, "Flatpak not installed", "", true, FlatpakInstallFix)
    else if list.ok then
      var apps := |NonEmptyLines(list.out)|;
      if !Contains(Lower(remotes.out), "flathub") then
        CheckResult("Flatpak Apps", Warn, NatStr(apps) + " app(s), Flathub not configured", "", true, FlathubFix)
      else Plain("Flatpak Apps", Pass, NatStr(apps) + " app(s) installed")
    else Plain("Flatpak Apps", Pass, "Flatpak configured")
  }

  // ---------------------------------------------------------------- portals

  const PortalPackages: seq<string> :=
    ["xdg-desktop-portal", "xdg-desktop-portal-gtk", "xdg-desktop-portal-gnome", "xdg-desktop-portal-kde"]

  /** The short name a portal package is listed under. */
  function PortalLabel(pkg: string): string {
    Replace(Replace(pkg, "xdg-desktop-portal-", ""), "xdg-desktop-portal", "core")
  }

  /** The core package is listed as "core". */
  lemma PortalLabelCore()
    ensures PortalLabel("xdg-desktop-portal") == "core"
  {
    var pat := "xdg-desktop-portal";
    assert Replace(pat, "xdg-desktop-portal-", "") == pat;
    assert StartsWith(pat, pat);
    assert Replace(pat, pat, "core") == "core" + Replace("", pat, "core");
  }

  /** A backend package `xdg-desktop-portal-X` is listed as `X`. */
  lemma PortalLabelBackend(x: string)
    requires !Contains(x, "xdg-desktop-portal")
    ensures PortalLabel("xdg-desktop-portal-" + x) == x
  {
    var pat := "xdg-desktop-portal-";
    if Contains(x, pat) {
      assert pat == "xdg-desktop-portal" + "-";
      ContainsLonger(x, "xdg-desktop-portal", "-");
    }
    ReplaceAbsent(x, pat, "");
    assert StartsWith(pat + x, pat);
    assert (pat + x)[|pat|..] == x;
    assert Replace(pat + x, pat, "") == x;
    ReplaceAbsent(x, "xdg-desktop-portal", "core");
  }

  /** The labels of the packages `rpm -q` finds, in list order. */
  function InstalledPortals(pkgs: seq<string>, rpm: map<string, CmdOut>): (ls: seq<string>)
    ensures |ls| <= |pkgs|
    ensures |ls| == 0 <==> forall i :: 0 <= i < |pkgs| ==> !Query(rpm, pkgs[i]).ok
    decreases |pkgs|
  {
    if |pkgs| == 0 then []
    else
      var rest := InstalledPortals(pkgs[1..], rpm);
      assert forall i :: 1 <= i < |pkgs| ==> pkgs[i] == pkgs[1..][i - 1];
      (if Query(rpm, pkgs[0]).ok then [PortalLabel(pkgs[0])] else []) + rest
  }

  /** `check_portals`: `rpm` holds each `rpm -q` outcome by package. */
  function Portals(rpm: map<string, CmdOut>, service: CmdOut): (r: CheckResult)
    ensures r.name == "Desktop Portals" && FixConsistent(r)
    ensures r.status == Pass <==> (exists i :: 0 <= i < |PortalPackages| && Query(rpm, PortalPackages[i]).ok) && Active(service)
    ensures r.status != Pass ==> r.status == Warn
    ensures r.status == Warn ==>
              r.fixCommand == (if forall i :: 0 <= i < |PortalPackages| ==> !Query(rpm, PortalPackages[i]).ok
                               then PortalInstallFix else PortalServiceFix)
  {
    var installed := InstalledPortals(PortalPackages, rpm);
    if |installed| == 0 then
      CheckResult("Desktop Portals", Warn, "XDG portals not installed", "Flatpak apps may not work correctly", true, PortalInstallFix)
    else if Active(service) then
      Plain("Desktop Portals", Pass, "Active (" + Join(if |installed| <= 3 then installed else installed[..3], ", ") + ")")
    else CheckResult("Desktop Portals", Warn, "Portal service not running", "", true, PortalServiceFix)
  }

  // ---------------------------------------------------------------- the table

  /** Everything the desktop probes observe. */
  datatype Observation = Observation(
    env: Env, gnomeShell: CmdOut, plasmashell: CmdOut, xdpyinfo: CmdOut, running: set<string>,
    displayManagers: map<string, CmdOut>, xrandr: CmdOut, gtkTheme: CmdOut, iconTheme: CmdOut,
    cursorTheme: CmdOut, fcList: CmdOut, extensionsEnabled: CmdOut, extensionsDisabled: CmdOut,
    whichFlatpak: CmdOut, flatpakList: CmdOut, flatpakRemotes: CmdOut, rpm: map<string, CmdOut>,
    portalService: CmdOut)

  function Group1(o: Observation): (as_: seq<Attempt>)
    ensures AllShaped(Names1, as_)
  {
    [Returned(DesktopEnvironment(o.env, o.gnomeShell, o.plasmashell)), Returned(DisplayServer(o.env))]
  }

  function Group2(o: Observation): (as_: seq<Attempt>)
    ensures AllShaped(Names2, as_)
  {
    var r0 := Compositor(o.env, o.xdpyinfo, o.running);
    var r1 := DisplayManager(o.displayManagers);
    var r2 := Resolution(o.xrandr);
    ShapedThree(Names2, r0, r1, r2);
    [Returned(r0), Returned(r1), Returned(r2)]
  }

  function Group3(o: Observation): (as_: seq<Attempt>)
    ensures AllShaped(Names3, as_)
  {
    var r0 := ThemesCheck(o.gtkTheme, o.iconTheme, o.cursorTheme);
    var r1 := Fonts(o.fcList);
    var r2 := GnomeExtensions(o.env, o.extensionsEnabled, o.extensionsDisabled);
    ShapedThree(Names3, r0, r1, r2);
    [Returned(r0), Returned(r1), Returned(r2)]
  }

  function Group4(o: Observation): (as_: seq<Attempt>)
    ensures AllShaped(Names4, as_)
  {
    [Returned(Flatpak(o.whichFlatpak, o.flatpakList, o.flatpakRemotes)),
     Returned(Portals(o.rpm, o.portalService))]
  }

  /** The table's attempts, in order. */
  function Attempts(o: Observation): (as_: seq<Attempt>)
    ensures AllShaped(Names, as_)
  {
    var a1 := Group1(o);
    var a2 := Group2(o);
    var a3 := Group3(o);
    var a4 := Group4(o);
    AllShapedConcat(Names1, a1, Names2, a2);
    AllShapedConcat(Names1 + Names2, a1 + a2, Names3, a3);
    AllShapedConcat(Names1 + Names2 + Names3, a1 + a2 + a3, Names4, a4);
    a1 + a2 + a3 + a4
  }

  /** `DesktopChecker.run_all_checks`: no desktop probe raises on its own. */
  function RunAllChecks(o: Observation): (c: Category)
    ensures c.name == "Desktop Check" && c.icon == DesktopIcon
    ensures |c.results| == 10 && TableShaped(Names, c.results)
    ensures forall i :: 0 <= i < 10 ==> c.results[i] == Guard(Names[i], Attempts(o)[i])
  {
    var as_ := Attempts(o);
    RunTableShaped(Names, as_);
    Category("Desktop Check", DesktopIcon, RunTable(Names, as_))
  }
}
