/**
 * The multimedia codec installer (fedchecker/postinstall/codecs.py): the
 * codec groups, per-group and whole-table installs, the essential subset,
 * the Mesa freeworld swap and the interactive `run`.
 */
module Codecs {
  import opened Wrappers
  import opened Text
  import opened Exec
  import opened Packages

  /** `CODEC_GROUPS`, the table the members below take as `gs`. */
  const CodecGroups: seq<Group> := [
    Group("gstreamer", "GStreamer Plugins",
          ["gstreamer1-plugins-bad-free", "gstreamer1-plugins-bad-freeworld", "gstreamer1-plugins-good",
           "gstreamer1-plugins-ugly", "gstreamer1-plugins-ugly-free", "gstreamer1-plugin-openh264",
           "gstreamer1-libav"]),
    Group("ffmpeg", "FFmpeg & Libraries", ["ffmpeg", "ffmpeg-libs", "libavcodec-freeworld"]),
    Group("vaapi", "Hardware Acceleration (VA-API)",
          ["libva", "libva-utils", "mesa-va-drivers", "libva-intel-driver", "intel-media-driver"]),
    Group("vdpau", "Hardware Acceleration (VDPAU)", ["libvdpau", "vdpauinfo", "mesa-vdpau-drivers"]),
    Group("audio", "Audio Codecs", ["lame", "lame-libs", "opus", "flac", "wavpack"])
  ]

  /** The subset `install_essential` installs. */
  const Essential: seq<string> := [
    "gstreamer1-plugins-good", "gstreamer1-plugins-bad-free", "gstreamer1-plugin-openh264",
    "ffmpeg", "libva", "libva-utils"
  ]

  /** `is_package_installed` here always asks rpm. */
  function RpmQuery(p: string): Cmd {
    ["rpm", "-q", p]
  }

  /** Every codec install passes `--skip-broken`. */
  const InstallPrefix: Cmd := Sudo(["dnf", "install", "-y", "--skip-broken"])

  /** `check_rpmfusion`: the enabled-repository list mentions RPM Fusion, ignoring case. */
  function CheckRpmFusion(w: World): (r: Ran)
    ensures r.ok <==> Contains(Lower(Nth(w, 0).out), "rpmfusion")
    ensures r.w.issued == w.issued + [["dnf", "repolist", "--enabled"]] && Moved(w, r.w, 1, 0)
  {
    var c := Exec.Run(w, ["dnf", "repolist", "--enabled"]);
    Ran(Contains(Lower(c.out), "rpmfusion"), c.out, c.w)
  }

  // ---------------------------------------------------------------------
  // install_group

  /**
   * `install_group` with `gs` as the group table: an unknown key fails at
   * once, lists nothing and runs nothing.
   */
  function InstallGroup(w: World, gs: seq<Group>, id: string): (d: Done)
    ensures FindGroup(gs, id).None? ==>
              d == Done(PackageResult(false, "Unknown codec group: " + id, []), w)
    ensures FindGroup(gs, id).Some? ==> d == GroupInstall(w, FindGroup(gs, id).value, RpmQuery, InstallPrefix)
  {
    match FindGroup(gs, id)
    case None => Done(PackageResult(false, "Unknown codec group: " + id, []), w)
    case Some(g) => GroupInstall(w, g, RpmQuery, InstallPrefix)
  }

  // ---------------------------------------------------------------------
  // install_all and install_essential

  /** The filter-and-install step of `install_all`, once the repository check is done. */
  function InstallAllAfterCheck(w: World, all: seq<string>): (d: Done)
    ensures Missing(all, w.installed) == [] ==> d.result == PackageResult(true, "All codecs already installed", [])
    ensures Missing(all, w.installed) != [] ==> d.result.success == Nth(w, 0).ok
    ensures Missing(all, w.installed) != [] && !Nth(w, 0).ok ==>
              d.result == PackageResult(false, "Some packages failed to install", [])
    ensures forall p :: p in d.result.packagesInstalled ==> p in all && p !in w.installed && p in d.w.installed
  {
    FilterInstall(w, all, RpmQuery, InstallPrefix, "All codecs already installed",
                  (n: nat, total: nat) => "Installed " + NatStr(n) + "/" + NatStr(total) + " package(s)",
                  "Some packages failed to install")
  }

  /**
   * `install_all` with `gs` as the group table: the RPM Fusion check only
   * prints a warning, then the whole flattened table is filtered and
   * installed.
   */
  function InstallAll(w: World, gs: seq<Group>): (d: Done)
    ensures d == InstallAllAfterCheck(CheckRpmFusion(w).w, Flatten(gs))
    ensures |d.w.issued| > |w.issued| && d.w.issued[..|w.issued| + 1] == w.issued + [["dnf", "repolist", "--enabled"]]
    ensures var have := w.installed + Nth(w, 0).adds;
            && (Missing(Flatten(gs), have) == [] ==> d.result == PackageResult(true, "All codecs already installed", []))
            && (Missing(Flatten(gs), have) != [] ==> d.result.success == Nth(w, 1).ok)
            && (Missing(Flatten(gs), have) != [] && !Nth(w, 1).ok ==>
                  d.result == PackageResult(false, "Some packages failed to install", []))
    ensures forall p :: p in d.result.packagesInstalled ==> p in Flatten(gs) && p !in w.installed && p in d.w.installed
    ensures d.w.asked == w.asked
  {
    var c := CheckRpmFusion(w);
    var d := InstallAllAfterCheck(c.w, Flatten(gs));
    assert Nth(c.w, 0) == Nth(w, 1);
    assert d.w.issued[..|c.w.issued|] == c.w.issued;
    d
  }

  /** Whether RPM Fusion is enabled changes nothing in the outcome of `install_all`. */
  lemma InstallAllIgnoresCheck(w: World, gs: seq<Group>, out: string, out': string)
    requires w.ran < |w.script|
    ensures var v := w.(script := w.script[w.ran := Outcome(w.script[w.ran].ok, out, w.script[w.ran].adds)]);
            var v' := w.(script := w.script[w.ran := Outcome(w.script[w.ran].ok, out', w.script[w.ran].adds)]);
            InstallAll(v, gs).result == InstallAll(v', gs).result
  {
    var v := w.(script := w.script[w.ran := Outcome(w.script[w.ran].ok, out, w.script[w.ran].adds)]);
    var v' := w.(script := w.script[w.ran := Outcome(w.script[w.ran].ok, out', w.script[w.ran].adds)]);
    var c := CheckRpmFusion(v);
    var c' := CheckRpmFusion(v');
    assert Nth(c.w, 0) == Nth(c'.w, 0);
    assert c.w.installed == c'.w.installed;
    assert c.w.issued == c'.w.issued;
  }

  /** `install_essential`: the same filter over the essential subset. */
  function InstallEssential(w: World): (d: Done)
    ensures Missing(Essential, w.installed) == [] ==> d.result == PackageResult(true, "Essential codecs already installed", [])
    ensures Missing(Essential, w.installed) != [] ==> d.result.success == Nth(w, 0).ok
    ensures Missing(Essential, w.installed) != [] && Nth(w, 0).ok ==> d.result.message == "Essential codecs installed"
    ensures Missing(Essential, w.installed) != [] && !Nth(w, 0).ok ==>
              d.result == PackageResult(false, "Failed to install essential codecs", [])
    ensures forall p :: p in d.result.packagesInstalled ==> p in Essential && p !in w.installed && p in d.w.installed
  {
    FilterInstall(w, Essential, RpmQuery, InstallPrefix, "Essential codecs already installed",
                  (n: nat, total: nat) => "Essential codecs installed", "Failed to install essential codecs")
  }

  // ---------------------------------------------------------------------
  // swap_mesa_freeworld

  const SwapVa: Cmd := Sudo(["dnf", "swap", "mesa-va-drivers", "mesa-va-drivers-freeworld", "-y"])
  const SwapVdpau: Cmd := Sudo(["dnf", "swap", "mesa-vdpau-drivers", "mesa-vdpau-drivers-freeworld", "-y"])

  /**
   * `swap_mesa_freeworld`: without RPM Fusion nothing is swapped; the VDPAU
   * swap is tried only after the VA-API swap succeeds, and the result
   * follows the VA-API swap alone.
   */
  function SwapMesaFreeworld(w: World): (d: Done)
    ensures !Contains(Lower(Nth(w, 0).out), "rpmfusion") ==>
              d.result == PackageResult(false, "RPM Fusion required for Mesa Freeworld", [])
              && d.w.issued == w.issued + [["dnf", "repolist", "--enabled"]]
    ensures Contains(Lower(Nth(w, 0).out), "rpmfusion") ==>
              d.w.issued == w.issued + [["dnf", "repolist", "--enabled"], SwapVa] + (if Nth(w, 1).ok then [SwapVdpau] else [])
              && d.result.success == Nth(w, 1).ok
              && d.result.packagesInstalled == (if Nth(w, 1).ok then ["mesa-va-drivers-freeworld"] else [])
    ensures d.w.asked == w.asked
  {
    var c := CheckRpmFusion(w);
    if !c.ok then Done(PackageResult(false, "RPM Fusion required for Mesa Freeworld", []), c.w)
    else
      var va := Exec.Run(c.w, SwapVa);
      var after := if va.ok then Exec.Run(va.w, SwapVdpau).w else va.w;
      Done(PackageResult(va.ok, if va.ok then "Mesa Freeworld installed" else "Failed to swap Mesa",
                         if va.ok then ["mesa-va-drivers-freeworld"] else []), after)
  }

  // ---------------------------------------------------------------------
  // run

  /**
   * `run` with `gs` as the group table: the status queries (one per
   * package; the table itself is not modelled), then up to two prompts;
   * declining both installs nothing, takes no scripted outcome and reports
   * success.
   */
  function RunCodecs(w: World, gs: seq<Group>): (d: Done)
    ensures var s := Probe(w, Flatten(gs), RpmQuery);
            && (AnswerAt(w, 0) ==> d == InstallAll(Ask(s).w, gs))
            && (!AnswerAt(w, 0) && AnswerAt(w, 1) ==> d == InstallEssential(Ask(Ask(s).w).w))
    ensures !AnswerAt(w, 0) && !AnswerAt(w, 1) ==>
              d.result == PackageResult(true, "Codec installation skipped", [])
              && d.w.issued == w.issued + Queries(Flatten(gs), RpmQuery)
              && Moved(w, d.w, 0, 2)
  {
    var s := Probe(w, Flatten(gs), RpmQuery);
    var all := Ask(s);
    assert all.yes == AnswerAt(w, 0) && all.w.asked == w.asked + 1;
    if all.yes then InstallAll(all.w, gs)
    else
      var essential := Ask(all.w);
      assert essential.yes == AnswerAt(w, 1);
      if essential.yes then InstallEssential(essential.w)
      else Done(PackageResult(true, "Codec installation skipped", []), essential.w)
  }
}
