/**
 * What the codec and development-tool installers share
 * (fedchecker/postinstall/codecs.py, fedchecker/postinstall/devtools.py):
 * their result record, their group tables, the "not yet installed" filter,
 * and the filter-install-recheck step every `install_*` method repeats.
 *
 * Package queries (`is_package_installed`) are answered from the world's
 * installed set: they are recorded among the issued commands but take no
 * scripted outcome. An install's outcome says what it added to that set.
 */
module Packages {
  import opened Wrappers
  import opened Text
  import opened Exec

  /** `CodecResult` / `DevToolsResult`: the two records have the same fields. */
  datatype PackageResult = PackageResult(success: bool, message: string, packagesInstalled: seq<string>)

  /** An installer step's result and the world after it. */
  datatype Done = Done(result: PackageResult, w: World)

  /** One entry of `CODEC_GROUPS` / `DEV_GROUPS`: its key, display name and packages. */
  datatype Group = Group(id: string, name: string, packages: seq<string>)

  /** `group_id in GROUPS` followed by `GROUPS[group_id]`. */
  function FindGroup(gs: seq<Group>, id: string): (r: Option<Group>)
    ensures r.Some? ==> r.value in gs && r.value.id == id
    ensures r.None? ==> forall i :: 0 <= i < |gs| ==> gs[i].id != id
    decreases |gs|
  {
    if |gs| == 0 then None
    else if gs[0].id == id then Some(gs[0])
    else FindGroup(gs[1..], id)
  }

  /** `for group in GROUPS.values(): all_packages.extend(group["packages"])` */
  function Flatten(gs: seq<Group>): seq<string>
    decreases |gs|
  {
    if |gs| == 0 then [] else gs[0].packages + Flatten(gs[1..])
  }

  /** A package is in the flattened list exactly when some group lists it. */
  lemma {:induction false} FlattenHas(gs: seq<Group>, p: string)
    ensures p in Flatten(gs) <==> exists i :: 0 <= i < |gs| && p in gs[i].packages
    decreases |gs|
  {
    if |gs| > 0 {
      FlattenHas(gs[1..], p);
      if p in Flatten(gs[1..]) {
        var i :| 0 <= i < |gs[1..]| && p in gs[1..][i].packages;
        assert p in gs[i + 1].packages;
      }
      if exists i :: 0 <= i < |gs| && p in gs[i].packages {
        var i :| 0 <= i < |gs| && p in gs[i].packages;
        if i > 0 {
          assert p in gs[1..][i - 1].packages;
        }
      }
    }
  }

  /**
   * The entries of `ps` whose membership in `have` is `want`, in order:
   * `[p for p in ps if not is_installed(p)]` for `want == false`, and the
   * post-install recheck for `want == true`.
   */
  function Keep(ps: seq<string>, have: set<string>, want: bool): (m: seq<string>)
    ensures |m| <= |ps|
    ensures forall p :: p in m <==> p in ps && (p in have) == want
    decreases |ps|
  {
    if |ps| == 0 then []
    else (if (ps[0] in have) == want then [ps[0]] else []) + Keep(ps[1..], have, want)
  }

  /** The packages of `ps` not yet installed, in order. */
  function Missing(ps: seq<string>, have: set<string>): seq<string> {
    Keep(ps, have, false)
  }

  /** The packages of `ps` installed, in order. */
  function Present(ps: seq<string>, have: set<string>): seq<string> {
    Keep(ps, have, true)
  }

  /** Filtering a concatenation filters each part: the filter keeps the list order. */
  lemma {:induction false} KeepAppend(a: seq<string>, b: seq<string>, have: set<string>, want: bool)
    ensures Keep(a + b, have, want) == Keep(a, have, want) + Keep(b, have, want)
    decreases |a|
  {
    if |a| == 0 {
      assert a + b == b;
    } else {
      assert (a + b)[0] == a[0] && (a + b)[1..] == a[1..] + b;
      KeepAppend(a[1..], b, have, want);
    }
  }

  /** The filter keeps everything exactly when every entry qualifies. */
  lemma {:induction false} KeepAll(ps: seq<string>, have: set<string>, want: bool)
    ensures Keep(ps, have, want) == ps <==> forall i :: 0 <= i < |ps| ==> (ps[i] in have) == want
    decreases |ps|
  {
    if |ps| > 0 {
      KeepAll(ps[1..], have, want);
      if (ps[0] in have) != want {
        assert |Keep(ps, have, want)| <= |ps[1..]| < |ps|;
      }
      assert forall i :: 1 <= i < |ps| ==> ps[i] == ps[1..][i - 1];
    }
  }

  /** The filter keeps nothing exactly when no entry qualifies. */
  lemma {:induction false} KeepNone(ps: seq<string>, have: set<string>, want: bool)
    ensures Keep(ps, have, want) == [] <==> forall i :: 0 <= i < |ps| ==> (ps[i] in have) != want
    decreases |ps|
  {
    if |ps| > 0 {
      KeepNone(ps[1..], have, want);
      assert forall i :: 1 <= i < |ps| ==> ps[i] == ps[1..][i - 1];
    }
  }

  /** The argument vector of one package query. */
  function Queries(ps: seq<string>, query: string -> Cmd): (cs: seq<Cmd>)
    ensures |cs| == |ps|
    ensures forall i :: 0 <= i < |ps| ==> cs[i] == query(ps[i])
  {
    seq(|ps|, i requires 0 <= i < |ps| => query(ps[i]))
  }

  /** Asking about each of `ps` in turn records the queries and changes nothing else. */
  function Probe(w: World, ps: seq<string>, query: string -> Cmd): World {
    w.(issued := w.issued + Queries(ps, query))
  }

  /**
   * The body every `install_*` method shares: filter out what is installed;
   * with nothing left, report `already` and install nothing; otherwise run
   * one install of the missing packages and, when it succeeds, recheck them
   * and list the ones now installed, with `done(len(installed),
   * len(to_install))` as the message; a failed install lists nothing.
   */
  function FilterInstall(w: World, ps: seq<string>, query: string -> Cmd, install: Cmd,
                         already: string, done: (nat, nat) -> string, failed: string): (d: Done)
    ensures Missing(ps, w.installed) == [] ==>
              d.result == PackageResult(true, already, []) && d.w.issued == w.issued + Queries(ps, query)
              && Moved(w, d.w, 0, 0)
    ensures var todo := Missing(ps, w.installed);
            var got := Present(todo, w.installed + Nth(w, 0).adds);
            todo != [] ==>
              && Moved(w, d.w, 1, 0)
              && d.w.issued == w.issued + Queries(ps, query) + [install + todo]
                               + (if Nth(w, 0).ok then Queries(todo, query) else [])
              && d.result == (if Nth(w, 0).ok then PackageResult(true, done(|got|, |todo|), got)
                              else PackageResult(false, failed, []))
    ensures forall p :: p in d.result.packagesInstalled ==> p in ps && p !in w.installed && p in d.w.installed
    ensures w.installed <= d.w.installed
  {
    var q := Probe(w, ps, query);
    var todo := Missing(ps, w.installed);
    if todo == [] then Done(PackageResult(true, already, []), q)
    else
      var c := Exec.Run(q, install + todo);
      if c.ok then
        var got := Present(todo, c.w.installed);
        Done(PackageResult(true, done(|got|, |todo|), got), Probe(c.w, todo, query))
      else Done(PackageResult(false, failed, []), c.w)
  }

  /**
   * `install_group` for a known group: `already installed` when nothing is
   * missing, `Installed N package(s)` listing the rechecked packages after
   * a successful install, and `Failed to install` with nothing listed.
   */
  function GroupInstall(w: World, g: Group, query: string -> Cmd, install: Cmd): (d: Done)
    ensures Missing(g.packages, w.installed) == [] ==>
              d.result == PackageResult(true, g.name + " already installed", []) && Moved(w, d.w, 0, 0)
    ensures Missing(g.packages, w.installed) != [] && !Nth(w, 0).ok ==>
              d.result == PackageResult(false, "Failed to install " + g.name, [])
    ensures Missing(g.packages, w.installed) != [] && Nth(w, 0).ok ==>
              d.result.success
              && d.result.packagesInstalled == Present(Missing(g.packages, w.installed), w.installed + Nth(w, 0).adds)
              && d.result.message == "Installed " + NatStr(|d.result.packagesInstalled|) + " package(s)"
    ensures forall p :: p in d.result.packagesInstalled ==> p in g.packages && p !in w.installed && p in d.w.installed
    ensures d.w.asked == w.asked && w.installed <= d.w.installed
  {
    FilterInstall(w, g.packages, query, install, g.name + " already installed",
                  (n: nat, total: nat) => "Installed " + NatStr(n) + " package(s)", "Failed to install " + g.name)
  }

  /**
   * Once an install has put every missing package in place, asking again
   * finds nothing to do: the second call reports `already`, lists nothing
   * and takes no scripted outcome.
   */
  lemma InstallSettles(w: World, ps: seq<string>, query: string -> Cmd, install: Cmd,
                       already: string, done: (nat, nat) -> string, failed: string)
    requires var d := FilterInstall(w, ps, query, install, already, done, failed);
             d.result.success && d.result.packagesInstalled == Missing(ps, w.installed)
    ensures var d := FilterInstall(w, ps, query, install, already, done, failed);
            FilterInstall(d.w, ps, query, install, already, done, failed).result == PackageResult(true, already, [])
  {
    var d := FilterInstall(w, ps, query, install, already, done, failed);
    var todo := Missing(ps, w.installed);
    assert w.installed <= d.w.installed;
    forall i | 0 <= i < |ps|
      ensures ps[i] in d.w.installed
    {
      if ps[i] !in w.installed {
        assert ps[i] in todo;
      }
    }
    KeepNone(ps, d.w.installed, false);
  }
}
