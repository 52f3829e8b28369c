/**
 * Script discovery for the Scripts menu (`handle_refresh_scripts`): each
 * script directory is walked for Python files, each file is described by the
 * names it declares, and the user directories are merged over the built-in one.
 *
 * The directory walk is given as the list of (directory, file name) pairs in
 * the order `os.walk` yields them, and what `get_docs` reads out of a file is
 * given as a map from its path; files it cannot parse are absent from the map.
 */
module Scripts {
  import opened Wrappers
  import opened FileKinds

  /** One file found by the walk: the directory it is in and its name. */
  datatype WalkEntry = WalkEntry(root: string, file: string)

  /** What `get_docs` reads: the docstring and the `__name__`, `__version__` and `__author__` assignments. */
  datatype Docs = Docs(doc: string, name: Option<string>, version: string, author: string)

  /** A menu entry of the Scripts menu. */
  datatype ScriptMeta = ScriptMeta(name: string, filepath: string, doc: string, version: string, author: string)

  /** A directory to search: its path, whether it is a directory, and what the walk finds in it. */
  datatype ScriptDir = ScriptDir(path: string, isDir: bool, walk: seq<WalkEntry>)

  /** `os.path.join` of a directory and a file name. */
  function PathJoin(root: string, file: string): string {
    root + "/" + file
  }

  /** Only Python files count, and never a package's `__init__.py`. */
  predicate IsScript(file: string): (b: bool)
    ensures b <==> file != "__init__.py" && |file| >= 3 && file[..|file| - 3] + ".py" == file
  {
    file != "__init__.py" && EndsWith(file, ".py")
  }

  /** `get_docs`: the declared name if there is one, the file name otherwise; empty texts when unreadable. */
  function GetDocs(script: string, file: string, declared: map<string, Docs>): (d: Docs)
    ensures d.name.Some?
    ensures script !in declared ==> d == Docs("", Some(file), "", "")
    ensures script in declared && declared[script].name.Some? ==> d.name == declared[script].name
  {
    if script !in declared then Docs("", Some(file), "", "")
    else
      var d := declared[script];
      if d.name.Some? then d else d.(name := Some(file))
  }

  /** The menu entry for one file of the walk. */
  function Meta(e: WalkEntry, declared: map<string, Docs>): (m: ScriptMeta)
    ensures m.filepath == PathJoin(e.root, e.file)
  {
    var script := PathJoin(e.root, e.file);
    var d := GetDocs(script, e.file, declared);
    ScriptMeta(d.name.value, script, d.doc, d.version, d.author)
  }

  /** The entries collected from a walk: each script in walk order, a later one replacing an earlier of the same name. */
  function Collected(walk: seq<WalkEntry>, declared: map<string, Docs>): (r: map<string, ScriptMeta>)
    ensures forall k :: k in r ==> r[k].name == k
  {
    if walk == [] then map[]
    else
      var m := Collected(walk[..|walk| - 1], declared);
      var e := walk[|walk| - 1];
      if IsScript(e.file) then m[Meta(e, declared).name := Meta(e, declared)] else m
  }

  /** Every collected name comes from a script of the walk, filed under its own name. */
  lemma {:induction false} CollectedFromScripts(walk: seq<WalkEntry>, declared: map<string, Docs>, k: string)
    requires k in Collected(walk, declared)
    ensures exists i :: 0 <= i < |walk| && IsScript(walk[i].file) && Collected(walk, declared)[k] == Meta(walk[i], declared)
    ensures Collected(walk, declared)[k].name == k
  {
    var n := |walk|;
    var m := Collected(walk[..n - 1], declared);
    var e := walk[n - 1];
    if IsScript(e.file) && Meta(e, declared).name == k {
    } else {
      assert k in m;
      CollectedFromScripts(walk[..n - 1], declared, k);
      var i :| 0 <= i < n - 1 && IsScript(walk[..n - 1][i].file) && m[k] == Meta(walk[..n - 1][i], declared);
      assert walk[i] == walk[..n - 1][i];
    }
  }

  /** A script whose name no later script of the walk takes is collected as it is. */
  lemma {:induction false} CollectedLastWins(walk: seq<WalkEntry>, declared: map<string, Docs>, i: nat)
    requires i < |walk| && IsScript(walk[i].file)
    requires forall j :: i < j < |walk| && IsScript(walk[j].file) ==> Meta(walk[j], declared).name != Meta(walk[i], declared).name
    ensures Meta(walk[i], declared).name in Collected(walk, declared)
    ensures Collected(walk, declared)[Meta(walk[i], declared).name] == Meta(walk[i], declared)
  {
    var n := |walk|;
    if i < n - 1 {
      var pre := walk[..n - 1];
      assert pre[i] == walk[i];
      forall j | i < j < |pre| && IsScript(pre[j].file)
        ensures Meta(pre[j], declared).name != Meta(pre[i], declared).name
      {
        assert pre[j] == walk[j];
      }
      CollectedLastWins(pre, declared, i);
    }
  }

  /**
   * `find_scripts`: None for an empty path or one that is not a directory;
   * otherwise the scripts of the walk keyed by name.
   */
  method FindScripts(dir: ScriptDir, declared: map<string, Docs>) returns (r: Option<map<string, ScriptMeta>>)
    ensures dir.path == "" || !dir.isDir ==> r.None?
    ensures dir.path != "" && dir.isDir ==> r == Some(Collected(dir.walk, declared))
  {
    if dir.path == "" || !dir.isDir {
      return None;
    }
    var scripts: map<string, ScriptMeta> := map[];
    var i := 0;
    while i < |dir.walk|
      invariant 0 <= i <= |dir.walk|
      invariant scripts == Collected(dir.walk[..i], declared)
    {
      var e := dir.walk[i];
      assert dir.walk[..i + 1][..i] == dir.walk[..i];
      if e.file != "__init__.py" && EndsWith(e.file, ".py") {
        var meta := Meta(e, declared);
        scripts := scripts[meta.name := meta];
      }
      i := i + 1;
    }
    assert dir.walk[..i] == dir.walk;
    return Some(scripts);
  }

  /** What `find_scripts` returns for a directory. */
  function Found(dir: ScriptDir, declared: map<string, Docs>): (r: Option<map<string, ScriptMeta>>)
    ensures r.None? <==> dir.path == "" || !dir.isDir
    ensures r.Some? ==> forall k :: k in r.value ==> r.value[k].name == k
  {
    if dir.path == "" || !dir.isDir then None else Some(Collected(dir.walk, declared))
  }

  /** The built-in entries updated by each user directory in turn (`dict.update`); a missing one adds nothing. */
  function Merged(base: map<string, ScriptMeta>, users: seq<Option<map<string, ScriptMeta>>>): (r: map<string, ScriptMeta>)
    ensures base.Keys <= r.Keys
  {
    if users == [] then base
    else Merged(base, users[..|users| - 1]) + users[|users| - 1].GetOr(map[])
  }

  /** A name is in the merge exactly when the built-in directory or some user directory has it. */
  lemma {:induction false} MergedKeys(base: map<string, ScriptMeta>, users: seq<Option<map<string, ScriptMeta>>>, k: string)
    ensures k in Merged(base, users) <==>
      k in base || exists u :: 0 <= u < |users| && users[u].Some? && k in users[u].value
  {
    if users != [] {
      var n := |users|;
      var pre := users[..n - 1];
      MergedKeys(base, pre, k);
      if exists u :: 0 <= u < |pre| && pre[u].Some? && k in pre[u].value {
        var u :| 0 <= u < |pre| && pre[u].Some? && k in pre[u].value;
        assert users[u] == pre[u];
      }
      if exists u :: 0 <= u < n && users[u].Some? && k in users[u].value {
        var u :| 0 <= u < n && users[u].Some? && k in users[u].value;
        if u < n - 1 {
          assert pre[u] == users[u];
        }
      }
    }
  }

  /** The last user directory that has a name decides its entry. */
  lemma {:induction false} MergedUserWins(base: map<string, ScriptMeta>, users: seq<Option<map<string, ScriptMeta>>>, u: nat, k: string)
    requires u < |users| && users[u].Some? && k in users[u].value
    requires forall v :: u < v < |users| && users[v].Some? ==> k !in users[v].value
    ensures k in Merged(base, users) && Merged(base, users)[k] == users[u].value[k]
  {
    var n := |users|;
    if u < n - 1 {
      var pre := users[..n - 1];
      assert pre[u] == users[u];
      forall v | u < v < |pre| && pre[v].Some? ensures k !in pre[v].value {
        assert pre[v] == users[v];
      }
      MergedUserWins(base, pre, u, k);
    }
  }

  /** A name no user directory has keeps its built-in entry. */
  lemma {:induction false} MergedKeepsBuiltin(base: map<string, ScriptMeta>, users: seq<Option<map<string, ScriptMeta>>>, k: string)
    requires k in base
    requires forall v :: 0 <= v < |users| && users[v].Some? ==> k !in users[v].value
    ensures k in Merged(base, users) && Merged(base, users)[k] == base[k]
  {
    if users != [] {
      var n := |users|;
      var pre := users[..n - 1];
      forall v | 0 <= v < |pre| && pre[v].Some? ensures k !in pre[v].value {
        assert pre[v] == users[v];
      }
      MergedKeepsBuiltin(base, pre, k);
    }
  }

  /**
   * The lookup of `handle_refresh_scripts`: the built-in scripts, updated by
   * each user directory in order.  A built-in directory that is missing
   * leaves None, on which the update (or the menu build) raises AttributeError.
   */
  method RefreshScripts(builtin: ScriptDir, userDirs: seq<ScriptDir>, declared: map<string, Docs>)
    returns (r: Result<map<string, ScriptMeta>>)
    ensures Found(builtin, declared).None? ==> r == Err(AttributeError)
    ensures Found(builtin, declared).Some? ==>
      r == Ok(Merged(Found(builtin, declared).value, seq(|userDirs|, u requires 0 <= u < |userDirs| => Found(userDirs[u], declared))))
  {
    var base := FindScripts(builtin, declared);
    if base.None? {
      return Err(AttributeError);
    }
    ghost var found := seq(|userDirs|, u requires 0 <= u < |userDirs| => Found(userDirs[u], declared));
    var scripts := base.value;
    var i := 0;
    while i < |userDirs|
      invariant 0 <= i <= |userDirs|
      invariant scripts == Merged(base.value, found[..i])
    {
      var more := FindScripts(userDirs[i], declared);
      assert found[..i + 1][..i] == found[..i];
      scripts := scripts + more.GetOr(map[]);
      i := i + 1;
    }
    assert found[..i] == found;
    return Ok(scripts);
  }
}
