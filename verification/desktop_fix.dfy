/**
 * The desktop fixer (fedchecker/fixes/desktop_fix.py): fonts, Flatpak,
 * portals, GNOME extensions, the display manager, codecs and the GNOME
 * settings reset, against the scripted executor. The desktop name is the
 * value of `XDG_CURRENT_DESKTOP` (empty when unset), passed in.
 */
module DesktopFix {
  import opened Wrappers
  import opened Text
  import opened Status
  import opened Exec
  import opened Fix

  const FontPackages := [
    "google-noto-fonts-common", "google-noto-sans-fonts", "google-noto-serif-fonts", "liberation-fonts",
    "dejavu-fonts-all", "fira-code-fonts", "mozilla-fira-sans-fonts", "adobe-source-code-pro-fonts"
  ]

  /** `install_fonts`: a successful install is followed by an unchecked `fc-cache -fv` without sudo. */
  function InstallFonts(w: World): (f: Fixed)
    ensures f.result.success == Nth(w, 0).ok
    ensures !f.result.success ==> f.result.details == Nth(w, 0).out
    ensures f.w.issued == w.issued + [Sudo(["dnf", "install", "-y"] + FontPackages)]
                          + (if Nth(w, 0).ok then [["fc-cache", "-fv"]] else [])
  {
    var c := Exec.Run(w, Sudo(["dnf", "install", "-y"] + FontPackages));
    if c.ok then
      var cache := Exec.Run(c.w, ["fc-cache", "-fv"]);
      Fixed(Simple(true, "Fonts installed successfully"), cache.w)
    else Fixed(FixResult(false, "Failed to install fonts", c.out, false), c.w)
  }

  /** `sudo = "dnf" in cmd`: a step runs under sudo exactly when one of its arguments is `dnf`. */
  function SudoIfDnf(c: Cmd): (r: Cmd)
    ensures "dnf" in c ==> r == Sudo(c)
    ensures "dnf" !in c ==> r == c
  {
    if "dnf" in c then Sudo(c) else c
  }

  const FlatpakPlan: seq<Step> := [
    Step("Installing Flatpak", ["dnf", "install", "-y", "flatpak"]),
    Step("Adding Flathub", ["flatpak", "remote-add", "--if-not-exists", "flathub", "https://flathub.org/repo/flathub.flatpakrepo"])
  ]

  function FlatpakSteps(): (steps: seq<Step>)
    ensures |steps| == |FlatpakPlan|
    ensures forall i :: 0 <= i < |steps| ==>
              steps[i].desc == FlatpakPlan[i].desc && steps[i].cmd == SudoIfDnf(FlatpakPlan[i].cmd)
  {
    seq(|FlatpakPlan|, i requires 0 <= i < |FlatpakPlan| => Step(FlatpakPlan[i].desc, SudoIfDnf(FlatpakPlan[i].cmd)))
  }

  /** The package install runs under sudo and the Flathub remote is added as the user. */
  lemma FlatpakSudoOnlyForDnf()
    ensures FlatpakSteps()[0].cmd == Sudo(FlatpakPlan[0].cmd)
    ensures FlatpakSteps()[1].cmd == FlatpakPlan[1].cmd
  {
    assert FlatpakPlan[0].cmd[0] == "dnf";
    var c := FlatpakPlan[1].cmd;
    assert forall i :: 0 <= i < |c| ==> c[i][0] != 'd';
  }

  /** `install_flatpak`: the two steps run until one fails, which is reported. */
  function InstallFlatpak(w: World): (f: Fixed)
    ensures f.result.success ==> f.result.message == "Flatpak configured with Flathub"
  {
    var s := RunUntil(w, FlatpakSteps(), AnyFailure);
    match s.failedAt
    case Some(k) => Fixed(FixResult(false, "Failed at: " + FlatpakSteps()[k].desc, s.out, false), s.w)
    case None =>
      Fixed(FixResult(true, "Flatpak configured with Flathub",
                      "You may need to log out and back in for apps to appear", false), s.w)
  }

  /** Flatpak is configured exactly when both steps succeed, and then both were issued. */
  lemma FlatpakSucceeds(w: World)
    ensures InstallFlatpak(w).result.success <==> Nth(w, 0).ok && Nth(w, 1).ok
    ensures InstallFlatpak(w).result.success ==> InstallFlatpak(w).w.issued == w.issued + Cmds(FlatpakSteps())
  {
    RunUntilCompletes(w, FlatpakSteps(), AnyFailure);
    RunUntilEffect(w, FlatpakSteps(), AnyFailure);
  }

  /** A failing install is reported and the Flathub remote is never added. */
  lemma FlatpakInstallFails(w: World)
    requires !Nth(w, 0).ok
    ensures InstallFlatpak(w).result.message == "Failed at: " + FlatpakPlan[0].desc
    ensures InstallFlatpak(w).result.details == Nth(w, 0).out
    ensures InstallFlatpak(w).w.issued == w.issued + [FlatpakSteps()[0].cmd]
  {
    RunUntilFirst(w, FlatpakSteps(), AnyFailure, 0);
    RunUntilVerdict(w, FlatpakSteps(), AnyFailure);
    RunUntilEffect(w, FlatpakSteps(), AnyFailure);
    assert Cmds(FlatpakSteps())[..1] == [FlatpakSteps()[0].cmd];
  }

  /** The desktop names a KDE session (`"kde" in de or "plasma" in de` on the lowercased name). */
  predicate IsKde(desktop: string) {
    Contains(Lower(desktop), "kde") || Contains(Lower(desktop), "plasma")
  }

  /** The portal back end for the desktop: GNOME first, then KDE, else GTK. */
  function PortalBackend(desktop: string): (p: string)
    ensures Contains(Lower(desktop), "gnome") ==> p == "xdg-desktop-portal-gnome"
    ensures !Contains(Lower(desktop), "gnome") && IsKde(desktop) ==> p == "xdg-desktop-portal-kde"
    ensures !Contains(Lower(desktop), "gnome") && !IsKde(desktop) ==> p == "xdg-desktop-portal-gtk"
  {
    if Contains(Lower(desktop), "gnome") then "xdg-desktop-portal-gnome"
    else if IsKde(desktop) then "xdg-desktop-portal-kde"
    else "xdg-desktop-portal-gtk"
  }

  const PortalService: Cmd := ["systemctl", "--user", "enable", "--now", "xdg-desktop-portal"]

  /**
   * `install_portals`: installs the portal and the back end for the desktop;
   * a failed install returns before the user service is enabled, whose own
   * outcome is not checked.
   */
  function InstallPortals(w: World, desktop: string): (f: Fixed)
    ensures f.result.success == Nth(w, 0).ok
    ensures !f.result.success ==> f.result.details == Nth(w, 0).out
    ensures f.w.issued == w.issued + [Sudo(["dnf", "install", "-y", "xdg-desktop-portal", PortalBackend(desktop)])]
                          + (if Nth(w, 0).ok then [PortalService] else [])
  {
    var c := Exec.Run(w, Sudo(["dnf", "install", "-y", "xdg-desktop-portal", PortalBackend(desktop)]));
    if !c.ok then Fixed(FixResult(false, "Failed to install portals", c.out, false), c.w)
    else
      var e := Exec.Run(c.w, PortalService);
      Fixed(Simple(true, "Desktop portals installed"), e.w)
  }

  /** `[x.strip() for x in xs if x.strip()]` */
  function NonBlank(xs: seq<string>): (r: seq<string>)
    ensures |r| <= |xs|
    ensures forall i :: 0 <= i < |r| ==> |r[i]| > 0 && !IsSpace(r[i][0]) && !IsSpace(r[i][|r[i]| - 1])
    decreases |xs|
  {
    if |xs| == 0 then []
    else if |Strip(xs[0])| == 0 then NonBlank(xs[1..])
    else [Strip(xs[0])] + NonBlank(xs[1..])
  }

  /** The extension ids listed one per line. */
  function Extensions(out: string): seq<string> {
    NonBlank(Split(out, '\n'))
  }

  function Toggles(verb: string, exts: seq<string>): (cs: seq<Cmd>)
    ensures |cs| == |exts|
    ensures forall i :: 0 <= i < |exts| ==> cs[i] == ["gnome-extensions", verb, exts[i]]
  {
    seq(|exts|, i requires 0 <= i < |exts| => ["gnome-extensions", verb, exts[i]])
  }

  /** `f"Reset {enabled} extensions"` */
  function ResetMessage(enabled: nat): string {
    "Reset " + NatStr(enabled) + " extensions"
  }

  const ListExtensions: Cmd := ["gnome-extensions", "list", "--enabled"]

  /**
   * `fix_gnome_extensions`: when the listing works and is not empty, every
   * listed extension is disabled and then re-enabled, and the fix reports
   * how many re-enables succeeded.
   */
  function FixGnomeExtensions(w: World): (f: Fixed)
    ensures f.result.success == Nth(w, 0).ok
    ensures !Nth(w, 0).ok ==> f.result.message == "Cannot access GNOME extensions" && f.w.issued == w.issued + [ListExtensions]
    ensures Nth(w, 0).ok && Extensions(Nth(w, 0).out) == [] ==>
              f.result.message == "No extensions to manage" && f.w.issued == w.issued + [ListExtensions]
  {
    var l := Exec.Run(w, ListExtensions);
    if !l.ok then Fixed(FixResult(false, "Cannot access GNOME extensions", l.out, false), l.w)
    else
      var exts := Extensions(l.out);
      if exts == [] then Fixed(Simple(true, "No extensions to manage"), l.w)
      else
        var off := RunAll(l.w, Toggles("disable", exts));
        var on := RunAll(off.w, Toggles("enable", exts));
        Fixed(FixResult(true, ResetMessage(Trues(on.oks)), "Extensions have been reloaded", false), on.w)
  }

  /** With extensions listed, all of them are disabled before any is re-enabled. */
  lemma ExtensionsToggled(w: World)
    requires Nth(w, 0).ok && Extensions(Nth(w, 0).out) != []
    ensures var exts := Extensions(Nth(w, 0).out);
      FixGnomeExtensions(w).w.issued == w.issued + [ListExtensions] + Toggles("disable", exts) + Toggles("enable", exts)
  {
  }

  /** The reported count is the number of re-enables that succeeded, so at most the number listed. */
  lemma ExtensionsCounted(w: World)
    requires Nth(w, 0).ok && Extensions(Nth(w, 0).out) != []
    ensures var n := |Extensions(Nth(w, 0).out)|;
      FixGnomeExtensions(w).result.message == ResetMessage(Trues(OksFrom(w, 1 + n, n)))
      && Trues(OksFrom(w, 1 + n, n)) <= n
  {
    var l := Exec.Run(w, ListExtensions);
    var exts := Extensions(l.out);
    var n := |exts|;
    var off := RunAll(l.w, Toggles("disable", exts));
    RunAllOks(off.w, Toggles("enable", exts));
    OksMoved(w, off.w, 1 + n, n);
  }

  /** The display manager for the desktop: `sddm` for KDE, otherwise `gdm`. */
  function DisplayManager(desktop: string): (dm: string)
    ensures dm == (if IsKde(desktop) then "sddm" else "gdm")
  {
    if IsKde(desktop) then "sddm" else "gdm"
  }

  function DisplaySteps(dm: string): seq<Cmd> {
    [Sudo(["dnf", "install", "-y", dm]), Sudo(["systemctl", "enable", dm]),
     Sudo(["systemctl", "set-default", "graphical.target"])]
  }

  /**
   * `configure_display_manager`: all three commands always run; only the
   * enable (the second) decides, and success names the manager in upper case.
   */
  function ConfigureDisplayManager(w: World, desktop: string): (f: Fixed)
    ensures f.w.issued == w.issued + DisplaySteps(DisplayManager(desktop))
    ensures f.result.success == Nth(w, 1).ok
    ensures f.result.success ==> f.result.message == Upper(DisplayManager(desktop)) + " enabled"
    ensures !f.result.success ==> f.result.details == Nth(w, 1).out
  {
    var dm := DisplayManager(desktop);
    var b := RunAll(w, DisplaySteps(dm));
    if b.oks[1] then Fixed(Simple(true, Upper(dm) + " enabled"), b.w)
    else Fixed(FixResult(false, "Failed to configure display manager", Nth(w, 1).out, false), b.w)
  }

  const CodecPackages := [
    "gstreamer1-plugins-bad-free", "gstreamer1-plugins-good", "gstreamer1-plugins-ugly-free",
    "gstreamer1-plugin-openh264", "mozilla-openh264"
  ]

  /** `install_codecs_gui` */
  function InstallCodecsGui(w: World): (f: Fixed)
    ensures f.result.success == Nth(w, 0).ok
    ensures !f.result.success ==> f.result.details == Nth(w, 0).out
  {
    InstallPackages(w, CodecPackages, Simple(true, "Multimedia codecs installed"), "Failed to install codecs")
  }

  const DconfReset: Cmd := ["dconf", "reset", "-f", "/"]

  /** `reset_gnome_settings`: asks first; declining fails without running anything. */
  function ResetGnomeSettings(w: World): (f: Fixed)
    ensures !AnswerAt(w, 0) ==> f == Fixed(Simple(false, "Reset cancelled by user"), Ask(w).w)
    ensures AnswerAt(w, 0) ==> f.result.success == Nth(w, 0).ok && f.w.issued == w.issued + [DconfReset]
  {
    var q := Ask(w);
    if !q.yes then Fixed(Simple(false, "Reset cancelled by user"), q.w)
    else
      var c := Exec.Run(q.w, DconfReset);
      if c.ok then Fixed(FixResult(true, "GNOME settings reset", "Log out and back in for full effect", false), c.w)
      else Fixed(FixResult(false, "Failed to reset settings", c.out, false), c.w)
  }

  /** Declining the reset issues no command and consumes no scripted outcome. */
  lemma DecliningResetRunsNothing(w: World)
    requires !AnswerAt(w, 0)
    ensures !ResetGnomeSettings(w).result.success
    ensures ResetGnomeSettings(w).w.issued == w.issued && ResetGnomeSettings(w).w.ran == w.ran
  {
  }

  /** The `fix_map` of `apply_fix` (the codec install and the settings reset are not in it). */
  function Handler(name: string, desktop: string): (h: Option<Fix.Handler>)
    ensures h.Some? <==> name in {"Fonts", "Flatpak Apps", "Desktop Portals", "GNOME Extensions", "Display Manager"}
  {
    if name == "Fonts" then Some(InstallFonts)
    else if name == "Flatpak Apps" then Some((w: World) => InstallFlatpak(w))
    else if name == "Desktop Portals" then Some((w: World) => InstallPortals(w, desktop))
    else if name == "GNOME Extensions" then Some(FixGnomeExtensions)
    else if name == "Display Manager" then Some((w: World) => ConfigureDisplayManager(w, desktop))
    else None
  }

  /** `DesktopFixer.apply_fix` */
  function ApplyFix(w: World, r: CheckResult, desktop: string): (a: Applied)
    ensures !r.fixAvailable ==> a == Applied(None, w)
    ensures r.fixAvailable && r.name == "Display Manager" && AnswerAt(w, 0) ==>
              a.result == Some(ConfigureDisplayManager(Ask(w).w, desktop).result)
    ensures r.fixAvailable && Handler(r.name, desktop).None? ==> a == OfferCommand(w, r)
  {
    Fix.ApplyFix(w, r, Handler(r.name, desktop))
  }
}
