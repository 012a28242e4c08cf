/**
 * Repository setup (fedchecker/postinstall/repos.py): RPM Fusion, Flathub
 * and OpenH264, each checked and then enabled through scripted commands,
 * their combination in `setup_all`, and the interactive `run`.
 */
module Repos {
  import opened Wrappers
  import opened Text
  import opened Exec

  /** `RepoResult` */
  datatype RepoResult = RepoResult(success: bool, message: string, reposAdded: seq<string>)

  /** A setup step's result and the world after it. */
  datatype Done = Done(result: RepoResult, w: World)

  /** A yes/no query's answer and the world after it. */
  datatype Checked = Checked(yes: bool, w: World)

  /** A value read from a command and the world after it. */
  datatype Read = Read(value: string, w: World)

  const VersionCmd: Cmd := ["rpm", "-E", "%fedora"]
  const RepolistCmd: Cmd := ["dnf", "repolist", "--enabled"]

  /** `get_fedora_version`: the stripped output, or "unknown" when the query fails. */
  function FedoraVersion(w: World): (r: Read)
    ensures r.value == (if Nth(w, 0).ok then Strip(Nth(w, 0).out) else "unknown")
    ensures r.w.issued == w.issued + [VersionCmd] && Moved(w, r.w, 1, 0)
  {
    var c := Exec.Run(w, VersionCmd);
    Read(if c.ok then Strip(c.out) else "unknown", c.w)
  }

  /**
   * `check_repo_enabled`: the name occurs in the repository list, ignoring
   * case; the list's exit status is not looked at.
   */
  function RepoEnabled(w: World, name: string): (r: Checked)
    ensures r.yes <==> Contains(Lower(Nth(w, 0).out), Lower(name))
    ensures r.w.issued == w.issued + [RepolistCmd] && Moved(w, r.w, 1, 0)
  {
    var c := Exec.Run(w, RepolistCmd);
    Checked(Contains(Lower(c.out), Lower(name)), c.w)
  }

  // ---------------------------------------------------------------------
  // setup_rpmfusion

  function ReleaseUrl(flavour: string, version: string): string {
    "https://download1.rpmfusion.org/" + flavour + "/fedora/rpmfusion-" + flavour + "-release-" + version + ".noarch.rpm"
  }

  function InstallCmd(url: string): Cmd {
    Sudo(["dnf", "install", "-y", url])
  }

  const CoreUpdateCmd: Cmd := Sudo(["dnf", "groupupdate", "core", "-y"])

  /** What `setup_rpmfusion` lists: Free, then Nonfree when its install succeeded. */
  function FusionAdded(nonfree: bool): seq<string> {
    ["rpmfusion-free"] + (if nonfree then ["rpmfusion-nonfree"] else [])
  }

  /**
   * `setup_rpmfusion`: nothing is installed when Free is already enabled; a
   * failed Free install fails the step with nothing listed; a failed
   * Nonfree install is tolerated, and the AppStream update is not looked at.
   */
  function SetupRpmFusion(w: World): (d: Done)
    ensures var already := Contains(Lower(Nth(w, 1).out), Lower("rpmfusion-free"));
            && (already ==> d.result == RepoResult(true, "RPM Fusion already configured", []))
            && (already ==> d.w.issued == w.issued + [VersionCmd, RepolistCmd])
            && (!already && !Nth(w, 2).ok ==> d.result == RepoResult(false, "Failed to install RPM Fusion Free", []))
            && (!already && Nth(w, 2).ok ==> d.result.success && d.result.reposAdded == FusionAdded(Nth(w, 3).ok))
    ensures d.result.success || d.result.reposAdded == []
    ensures d.w.asked == w.asked
  {
    var v := FedoraVersion(w);
    var e := RepoEnabled(v.w, "rpmfusion-free");
    if e.yes then Done(RepoResult(true, "RPM Fusion already configured", []), e.w)
    else
      var free := Exec.Run(e.w, InstallCmd(ReleaseUrl("free", v.value)));
      if !free.ok then Done(RepoResult(false, "Failed to install RPM Fusion Free", []), free.w)
      else
        var nonfree := Exec.Run(free.w, InstallCmd(ReleaseUrl("nonfree", v.value)));
        var added := FusionAdded(nonfree.ok);
        var core := Exec.Run(nonfree.w, CoreUpdateCmd);
        Done(RepoResult(true, "RPM Fusion configured (" + Join(added, ", ") + ")", added), core.w)
  }

  // ---------------------------------------------------------------------
  // setup_flathub

  const WhichCmd: Cmd := ["which", "flatpak"]
  const FlatpakInstallCmd: Cmd := Sudo(["dnf", "install", "-y", "flatpak"])
  const RemotesCmd: Cmd := ["flatpak", "remotes"]
  const RemoteAddCmd: Cmd := ["flatpak", "remote-add", "--if-not-exists", "flathub", "https://flathub.org/repo/flathub.flatpakrepo"]

  /**
   * `setup_flathub`: Flatpak is installed first when `which` does not find
   * it, and a failed install fails the step; a remote list that mentions
   * Flathub needs nothing more; otherwise the step succeeds exactly when
   * adding the remote does. `k` is the position of the remote listing.
   */
  function SetupFlathub(w: World): (d: Done)
    ensures !Nth(w, 0).ok && !Nth(w, 1).ok ==> d.result == RepoResult(false, "Failed to install Flatpak", [])
    ensures var k := if Nth(w, 0).ok then 1 else 2;
            (Nth(w, 0).ok || Nth(w, 1).ok) ==>
              && (Contains(Lower(Nth(w, k).out), "flathub") ==> d.result == RepoResult(true, "Flathub already configured", []))
              && (!Contains(Lower(Nth(w, k).out), "flathub") ==>
                    d.result.success == Nth(w, k + 1).ok
                    && d.result.reposAdded == (if Nth(w, k + 1).ok then ["flathub"] else []))
    ensures d.result.success || d.result.reposAdded == []
    ensures d.w.asked == w.asked
  {
    var which := Exec.Run(w, WhichCmd);
    var present :=
      if which.ok then Ran(true, "", which.w)
      else Exec.Run(which.w, FlatpakInstallCmd);
    if !present.ok then Done(RepoResult(false, "Failed to install Flatpak", []), present.w)
    else
      var remotes := Exec.Run(present.w, RemotesCmd);
      if Contains(Lower(remotes.out), "flathub") then Done(RepoResult(true, "Flathub already configured", []), remotes.w)
      else
        var add := Exec.Run(remotes.w, RemoteAddCmd);
        if add.ok then Done(RepoResult(true, "Flathub configured", ["flathub"]), add.w)
        else Done(RepoResult(false, "Failed to add Flathub", []), add.w)
  }

  // ---------------------------------------------------------------------
  // setup_openh264

  const EnableH264Cmd: Cmd := Sudo(["dnf", "config-manager", "--enable", "fedora-cisco-openh264"])
  const H264InstallCmd: Cmd := Sudo(["dnf", "install", "-y", "openh264", "mozilla-openh264"])

  /** The first repository listing mentions the Cisco OpenH264 repository. */
  predicate H264Enabled(w: World) {
    Contains(Lower(Nth(w, 0).out), Lower("fedora-cisco-openh264"))
  }

  /**
   * `setup_openh264`: an enabled repository needs nothing; a failed enable
   * fails the step; after a successful enable the codec install is issued
   * but its outcome is not looked at.
   */
  function SetupOpenH264(w: World): (d: Done)
    ensures H264Enabled(w) ==> d.result == RepoResult(true, "OpenH264 already enabled", [])
    ensures H264Enabled(w) ==> d.w.issued == w.issued + [RepolistCmd]
    ensures !H264Enabled(w) ==> d.result.success == Nth(w, 1).ok
    ensures !H264Enabled(w) && !Nth(w, 1).ok ==> d.result == RepoResult(false, "Failed to enable OpenH264", [])
    ensures !H264Enabled(w) && Nth(w, 1).ok ==>
              d.result == RepoResult(true, "OpenH264 enabled and installed", ["fedora-cisco-openh264"])
    ensures !H264Enabled(w) && Nth(w, 1).ok ==> d.w.issued == w.issued + [RepolistCmd, EnableH264Cmd, H264InstallCmd]
    ensures d.result.success || d.result.reposAdded == []
    ensures d.w.asked == w.asked
  {
    var e := RepoEnabled(w, "fedora-cisco-openh264");
    if e.yes then Done(RepoResult(true, "OpenH264 already enabled", []), e.w)
    else
      var en := Exec.Run(e.w, EnableH264Cmd);
      if !en.ok then Done(RepoResult(false, "Failed to enable OpenH264", []), en.w)
      else
        var inst := Exec.Run(en.w, H264InstallCmd);
        Done(RepoResult(true, "OpenH264 enabled and installed", ["fedora-cisco-openh264"]), inst.w)
  }

  // ---------------------------------------------------------------------
  // setup_all and run

  /** What `setup_all` takes from one step: its list when it succeeded. */
  function Kept(r: RepoResult): seq<string> {
    if r.success then r.reposAdded else []
  }

  /** The labels of the failed steps, in order. */
  function Errors(rs: seq<(string, RepoResult)>): (es: seq<string>)
    ensures |es| <= |rs|
    ensures |es| == 0 <==> forall i :: 0 <= i < |rs| ==> rs[i].1.success
    decreases |rs|
  {
    if |rs| == 0 then []
    else (if rs[0].1.success then [] else [rs[0].0]) + Errors(rs[1..])
  }

  /** The three steps of `setup_all`, labelled as its error message names them. */
  function Steps(r1: RepoResult, r2: RepoResult, r3: RepoResult): seq<(string, RepoResult)> {
    [("RPM Fusion", r1), ("Flathub", r2), ("OpenH264", r3)]
  }

  /** No step is named exactly when every step succeeded. */
  lemma NoErrors(r1: RepoResult, r2: RepoResult, r3: RepoResult)
    ensures |Errors(Steps(r1, r2, r3))| == 0 <==> r1.success && r2.success && r3.success
  {
    var rs := Steps(r1, r2, r3);
    if |Errors(rs)| == 0 {
      assert rs[0].1.success && rs[1].1.success && rs[2].1.success;
    }
  }

  /**
   * `setup_all`: the three steps always run, in order; it succeeds exactly
   * when all three do, lists what they listed, and names the failed ones.
   */
  function SetupAll(w: World): (d: Done)
    ensures var r1 := SetupRpmFusion(w); var r2 := SetupFlathub(r1.w); var r3 := SetupOpenH264(r2.w);
            && d.w == r3.w
            && (d.result.success <==> r1.result.success && r2.result.success && r3.result.success)
            && d.result.reposAdded == r1.result.reposAdded + r2.result.reposAdded + r3.result.reposAdded
            && d.result.message
               == (if d.result.success then "All repositories configured"
                   else "Some repos failed: " + Join(Errors(Steps(r1.result, r2.result, r3.result)), ", "))
  {
    var r1 := SetupRpmFusion(w);
    var r2 := SetupFlathub(r1.w);
    var r3 := SetupOpenH264(r2.w);
    var errors := Errors(Steps(r1.result, r2.result, r3.result));
    NoErrors(r1.result, r2.result, r3.result);
    var all := Kept(r1.result) + Kept(r2.result) + Kept(r3.result);
    if |errors| > 0 then Done(RepoResult(false, "Some repos failed: " + Join(errors, ", "), all), r3.w)
    else Done(RepoResult(true, "All repositories configured", all), r3.w)
  }

  /** The repositories `show_repo_status` looks up, in table order. */
  const StatusRepos := ["rpmfusion-free", "rpmfusion-nonfree", "flathub", "fedora-cisco-openh264", "google-chrome"]

  /** Whether each repository is enabled, in order, and the world after the queries. */
  datatype Statuses = Statuses(enabled: seq<bool>, w: World)

  /** `check_repo_enabled` for each repository in turn, one repository-list query each. */
  function RepoStatuses(w: World, repos: seq<string>): (s: Statuses)
    ensures |s.enabled| == |repos|
    ensures forall i :: 0 <= i < |repos| ==> (s.enabled[i] <==> Contains(Lower(Nth(w, i).out), Lower(repos[i])))
    ensures s.w.issued == w.issued + seq(|repos|, i => RepolistCmd)
    ensures Moved(w, s.w, |repos|, 0)
    decreases |repos|
  {
    if |repos| == 0 then Statuses([], w)
    else
      var c := RepoEnabled(w, repos[0]);
      var rest := RepoStatuses(c.w, repos[1..]);
      forall i | 1 <= i < |repos|
        ensures Nth(c.w, i - 1) == Nth(w, i)
      {
        NthAfter(w, c.w, i);
      }
      RepolistsCons(|repos|);
      Statuses([c.yes] + rest.enabled, rest.w)
  }

  /** After one command, the outcome `i - 1` from now is the one that was `i` from now. */
  lemma NthAfter(w: World, w': World, i: nat)
    requires Moved(w, w', 1, 0) && i >= 1
    ensures Nth(w', i - 1) == Nth(w, i)
  {
  }

  lemma RepolistsCons(n: nat)
    requires n > 0
    ensures [RepolistCmd] + seq(n - 1, i => RepolistCmd) == seq(n, i => RepolistCmd)
  {
  }

  /**
   * `show_repo_status`: the status of each listed repository, one
   * repository-list query each; the table itself is not modelled.
   */
  function ShowRepoStatus(w: World): (r: Statuses)
    ensures |r.enabled| == |StatusRepos|
    ensures forall i :: 0 <= i < |StatusRepos| ==> (r.enabled[i] <==> Contains(Lower(Nth(w, i).out), Lower(StatusRepos[i])))
    ensures r.w.issued == w.issued + [RepolistCmd, RepolistCmd, RepolistCmd, RepolistCmd, RepolistCmd]
    ensures Moved(w, r.w, |StatusRepos|, 0)
  {
    var r := RepoStatuses(w, StatusRepos);
    assert seq(|StatusRepos|, i => RepolistCmd) == [RepolistCmd, RepolistCmd, RepolistCmd, RepolistCmd, RepolistCmd];
    r
  }

  /**
   * `run`: the status queries, then the prompt; accepting runs `setup_all`,
   * declining issues nothing further and reports success with no repository.
   */
  function RunRepoSetup(w: World): (d: Done)
    ensures var s := ShowRepoStatus(w);
            && (AnswerAt(w, 0) ==> d == SetupAll(Ask(s.w).w))
            && (!AnswerAt(w, 0) ==>
                  d.result == RepoResult(true, "Repository setup skipped", [])
                  && d.w.issued == w.issued + [RepolistCmd, RepolistCmd, RepolistCmd, RepolistCmd, RepolistCmd])
  {
    var s := ShowRepoStatus(w);
    var q := Ask(s.w);
    assert q.yes == AnswerAt(w, 0);
    if q.yes then SetupAll(q.w)
    else Done(RepoResult(true, "Repository setup skipped", []), q.w)
  }
}
