/**
 * The development-tools installer (fedchecker/postinstall/devtools.py): the
 * tool groups, per-group installs, the DNF group installs, the whole-table
 * install, the essential subset and the interactive `run`.
 */
module DevTools {
  import opened Wrappers
  import opened Text
  import opened Exec
  import opened Packages

  /** `DEV_GROUPS`, the table every member below takes as `gs`. */
  const DevGroups: seq<Group> := [
    Group("essential", "Essential Build Tools", ["git", "make", "gcc", "gcc-c++", "kernel-devel", "kernel-headers"]),
    Group("python", "Python Development",
          ["python3-devel", "python3-pip", "python3-virtualenv", "python3-wheel", "python3-setuptools"]),
    Group("web", "Web Development", ["nodejs", "npm"]),
    Group("rust", "Rust Development", ["rust", "cargo"]),
    Group("go", "Go Development", ["golang"]),
    Group("containers", "Container Tools", ["podman", "podman-compose", "buildah", "skopeo"]),
    Group("editors", "Code Editors", ["vim-enhanced", "neovim"]),
    Group("tools", "Development Utilities", ["curl", "wget", "jq", "htop", "tmux", "tree", "ripgrep", "fd-find", "bat"])
  ]

  /** The three keys `install_essential` asks for are keys of the table, so none of its installs fails as unknown. */
  lemma EssentialKeysKnown()
    ensures FindGroup(DevGroups, "essential").Some? && FindGroup(DevGroups, "python").Some?
            && FindGroup(DevGroups, "tools").Some?
  {
  }

  /** `DNF_GROUPS` */
  const DnfGroups: seq<string> := ["@development-tools", "@c-development"]

  /** The query `is_package_installed` runs for `p`. */
  function DevQuery(p: string): Cmd {
    if StartsWith(p, "@") then ["dnf", "group", "info", TrimStartChar(p, '@')] else ["rpm", "-q", p]
  }

  /**
   * A name starting with `@` is a DNF group, asked about by its name with
   * every leading `@` removed; anything else is asked of rpm by its name.
   */
  lemma DevQueryShape(p: string)
    ensures var c := DevQuery(p);
            && (!StartsWith(p, "@") ==> c == ["rpm", "-q", p])
            && (StartsWith(p, "@") ==>
                  && |c| == 4 && c[..3] == ["dnf", "group", "info"]
                  && |c[3]| < |p| && c[3] == p[|p| - |c[3]|..]
                  && (|c[3]| > 0 ==> c[3][0] != '@')
                  && forall i :: 0 <= i < |p| - |c[3]| ==> p[i] == '@')
  {
  }

  /** Group installs here pass no `--skip-broken`. */
  const GroupPrefix: Cmd := Sudo(["dnf", "install", "-y"])

  /**
   * `install_group` with `gs` as the group table (`DevGroups` in the
   * program): an unknown key fails at once, lists nothing and runs nothing.
   */
  function InstallGroup(w: World, gs: seq<Group>, id: string): (d: Done)
    ensures FindGroup(gs, id).None? ==> d == Done(PackageResult(false, "Unknown group: " + id, []), w)
    ensures FindGroup(gs, id).Some? ==> d == GroupInstall(w, FindGroup(gs, id).value, DevQuery, GroupPrefix)
    ensures forall p :: p in d.result.packagesInstalled ==> p !in w.installed && p in d.w.installed && InGroup(gs, id, p)
    ensures d.w.asked == w.asked && w.installed <= d.w.installed
  {
    match FindGroup(gs, id)
    case None => Done(PackageResult(false, "Unknown group: " + id, []), w)
    case Some(g) => GroupInstall(w, g, DevQuery, GroupPrefix)
  }

  /** Some group of `gs` with key `id` lists `p`. */
  predicate InGroup(gs: seq<Group>, id: string, p: string) {
    exists i :: 0 <= i < |gs| && gs[i].id == id && p in gs[i].packages
  }

  /** With every package of the groups keyed `id` already installed, the group install lists nothing and runs nothing. */
  lemma {:induction false} GroupSettled(w: World, gs: seq<Group>, id: string)
    ensures (forall p :: InGroup(gs, id, p) ==> p in w.installed) ==>
              InstallGroup(w, gs, id).result.packagesInstalled == [] && Moved(w, InstallGroup(w, gs, id).w, 0, 0)
  {
    if (forall p :: InGroup(gs, id, p) ==> p in w.installed) && FindGroup(gs, id).Some? {
      var g := FindGroup(gs, id).value;
      var i :| 0 <= i < |gs| && gs[i] == g;
      forall k | 0 <= k < |g.packages|
        ensures (g.packages[k] in w.installed) != false
      {
        assert InGroup(gs, id, g.packages[k]);
      }
      KeepNone(g.packages, w.installed, false);
    }
  }

  // ---------------------------------------------------------------------
  // install_dnf_groups

  /** The group names a DNF-group loop listed and the world after it. */
  datatype Listed = Listed(names: seq<string>, w: World)

  /** `dnf group install -y <name>` */
  function GroupInstallCmd(g: string): Cmd {
    Sudo(["dnf", "group", "install", "-y", TrimStartChar(g, '@')])
  }

  /**
   * The loop of `install_dnf_groups`: installed groups are skipped; every
   * other group is installed, and its name is listed when that succeeds.
   * Only groups missing at the start can be listed, and with none missing
   * nothing is installed.
   */
  function GroupLoop(w: World, gs: seq<string>): (r: Listed)
    ensures |r.names| <= |gs|
    ensures forall n :: n in r.names ==> exists i :: 0 <= i < |gs| && gs[i] !in w.installed && n == TrimStartChar(gs[i], '@')
    ensures (forall i :: 0 <= i < |gs| ==> gs[i] in w.installed) ==> r.names == [] && Moved(w, r.w, 0, 0)
    ensures r.w.script == w.script && r.w.answers == w.answers && r.w.asked == w.asked
    ensures r.w.ran >= w.ran && w.installed <= r.w.installed
    decreases |gs|
  {
    if |gs| == 0 then Listed([], w)
    else
      var q := Probe(w, [gs[0]], DevQuery);
      if gs[0] in w.installed then
        var rest := GroupLoop(q, gs[1..]);
        assert forall i :: 1 <= i < |gs| ==> gs[i] == gs[1..][i - 1];
        rest
      else
        var c := Exec.Run(q, GroupInstallCmd(gs[0]));
        var rest := GroupLoop(c.w, gs[1..]);
        assert forall i :: 1 <= i < |gs| ==> gs[i] == gs[1..][i - 1];
        Listed((if c.ok then [TrimStartChar(gs[0], '@')] else []) + rest.names, rest.w)
  }

  /** With the first group missing, its install outcome decides whether its name heads the list. */
  lemma GroupLoopHead(w: World, gs: seq<string>)
    requires |gs| > 0 && gs[0] !in w.installed
    ensures var r := GroupLoop(w, gs);
            (Nth(w, 0).ok ==> |r.names| > 0 && r.names[0] == TrimStartChar(gs[0], '@'))
            && (!Nth(w, 0).ok ==> r.names == GroupLoop(Exec.Run(Probe(w, [gs[0]], DevQuery), GroupInstallCmd(gs[0])).w, gs[1..]).names)
  {
  }

  /** `install_dnf_groups`: always reports success, counting the groups it listed. */
  function InstallDnfGroups(w: World): (d: Done)
    ensures d.result.success
    ensures d.result.packagesInstalled == GroupLoop(w, DnfGroups).names
    ensures d.result.message == "Installed " + NatStr(|d.result.packagesInstalled|) + " group(s)"
    ensures |d.result.packagesInstalled| <= |DnfGroups|
    ensures (forall i :: 0 <= i < |DnfGroups| ==> DnfGroups[i] in w.installed) ==>
              d.result.packagesInstalled == [] && Moved(w, d.w, 0, 0)
    ensures d.w.asked == w.asked && w.installed <= d.w.installed
  {
    var r := GroupLoop(w, DnfGroups);
    Done(PackageResult(true, "Installed " + NatStr(|r.names|) + " group(s)", r.names), r.w)
  }

  // ---------------------------------------------------------------------
  // install_all

  const SkipBrokenPrefix: Cmd := Sudo(["dnf", "install", "-y", "--skip-broken"])

  /**
   * `install_all` with `gs` as the group table: with nothing of the
   * flattened table missing it reports `already` and installs neither
   * groups nor packages; otherwise it installs the DNF groups first, then
   * the missing packages in one command whose outcome alone decides
   * success.
   */
  function InstallAll(w: World, gs: seq<Group>): (d: Done)
    ensures Missing(Flatten(gs), w.installed) == [] ==>
              d.result == PackageResult(true, "All development tools already installed", [])
              && d.w.issued == w.issued + Queries(Flatten(gs), DevQuery) && Moved(w, d.w, 0, 0)
    ensures var g := InstallDnfGroups(Probe(w, Flatten(gs), DevQuery));
            Missing(Flatten(gs), w.installed) != [] ==>
              && d.result.success == Nth(g.w, 0).ok
              && (!Nth(g.w, 0).ok ==> d.result == PackageResult(false, "Some packages failed to install", []))
              && |d.w.issued| > |g.w.issued| && d.w.issued[|g.w.issued|] == SkipBrokenPrefix + Missing(Flatten(gs), w.installed)
    ensures forall p :: p in d.result.packagesInstalled ==> p in Flatten(gs) && p !in w.installed && p in d.w.installed
  {
    var all := Flatten(gs);
    var q := Probe(w, all, DevQuery);
    var todo := Missing(all, w.installed);
    if todo == [] then Done(PackageResult(true, "All development tools already installed", []), q)
    else
      var g := InstallDnfGroups(q);
      var c := Exec.Run(g.w, SkipBrokenPrefix + todo);
      if c.ok then
        var got := Present(todo, c.w.installed);
        Done(PackageResult(true, "Installed " + NatStr(|got|) + "/" + NatStr(|todo|) + " package(s)", got),
             Probe(c.w, todo, DevQuery))
      else Done(PackageResult(false, "Some packages failed to install", []), c.w)
  }

  // ---------------------------------------------------------------------
  // install_essential

  /**
   * `install_essential`: installs the "essential", "python" and "tools"
   * groups in that order, always reports success, and lists what the three
   * group installs listed, in order.
   */
  function InstallEssential(w: World, gs: seq<Group>): (d: Done)
    ensures var r1 := InstallGroup(w, gs, "essential");
            var r2 := InstallGroup(r1.w, gs, "python");
            var r3 := InstallGroup(r2.w, gs, "tools");
            && d.w == r3.w
            && d.result.success
            && d.result.packagesInstalled
               == r1.result.packagesInstalled + r2.result.packagesInstalled + r3.result.packagesInstalled
            && d.result.message == "Essential tools installed (" + NatStr(|d.result.packagesInstalled|) + " packages)"
    ensures forall p :: p in d.result.packagesInstalled ==>
              && p !in w.installed && p in d.w.installed
              && (InGroup(gs, "essential", p) || InGroup(gs, "python", p) || InGroup(gs, "tools", p))
    ensures d.w.asked == w.asked && w.installed <= d.w.installed
    ensures (forall p :: InGroup(gs, "essential", p) || InGroup(gs, "python", p) || InGroup(gs, "tools", p) ==> p in w.installed) ==>
              d.result.packagesInstalled == [] && Moved(w, d.w, 0, 0)
  {
    var r1 := InstallGroup(w, gs, "essential");
    var r2 := InstallGroup(r1.w, gs, "python");
    var r3 := InstallGroup(r2.w, gs, "tools");
    GroupSettled(w, gs, "essential");
    GroupSettled(r1.w, gs, "python");
    GroupSettled(r2.w, gs, "tools");
    var all := r1.result.packagesInstalled + r2.result.packagesInstalled + r3.result.packagesInstalled;
    Done(PackageResult(true, "Essential tools installed (" + NatStr(|all|) + " packages)", all), r3.w)
  }

  // ---------------------------------------------------------------------
  // run

  /** `setup_git_config`: reads the two settings and always returns true; what it prints is not modelled. */
  function SetupGitConfig(w: World): (r: Ran)
    ensures r.ok
    ensures r.w.issued == w.issued + [["git", "config", "--global", "user.name"], ["git", "config", "--global", "user.email"]]
    ensures Moved(w, r.w, 2, 0)
  {
    var name := Exec.Run(w, ["git", "config", "--global", "user.name"]);
    var email := Exec.Run(name.w, ["git", "config", "--global", "user.email"]);
    Ran(true, "", email.w)
  }


  /**
   * `run` with `gs` as the group table: the status queries (one per
   * package; the table itself is not modelled), then up to two prompts. An
   * accepted install is followed by the Git check and keeps the install's
   * result; declining both installs nothing, takes no scripted outcome and
   * reports success.
   */
  function RunDevTools(w: World, gs: seq<Group>): (d: Done)
    ensures var s := Probe(w, Flatten(gs), DevQuery);
            && (AnswerAt(w, 0) ==> d.result == InstallAll(Ask(s).w, gs).result)
            && (!AnswerAt(w, 0) && AnswerAt(w, 1) ==> d.result == InstallEssential(Ask(Ask(s).w).w, gs).result)
    ensures !AnswerAt(w, 0) && !AnswerAt(w, 1) ==>
              d.result == PackageResult(true, "Development tools installation skipped", [])
              && d.w.issued == w.issued + Queries(Flatten(gs), DevQuery)
              && Moved(w, d.w, 0, 2)
  {
    var s := Probe(w, Flatten(gs), DevQuery);
    var install := Ask(s);
    assert install.yes == AnswerAt(w, 0) && install.w.asked == w.asked + 1;
    if install.yes then
      var r := InstallAll(install.w, gs);
      Done(r.result, SetupGitConfig(r.w).w)
    else
      var essential := Ask(install.w);
      assert essential.yes == AnswerAt(w, 1);
      if essential.yes then
        var r := InstallEssential(essential.w, gs);
        Done(r.result, SetupGitConfig(r.w).w)
      else Done(PackageResult(true, "Development tools installation skipped", []), essential.w)
  }
}
