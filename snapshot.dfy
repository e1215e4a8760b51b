/**
 * Locating the cookie database and planning the snapshot copy that is taken
 * before the database is opened.
 */
module Snapshot {

  /** `os.path.join(a, b)` with POSIX separators: an absolute `b` replaces `a`. */
  function PathJoin(a: string, b: string): (p: string)
    ensures |b| <= |p| && p[|p| - |b|..] == b
    ensures |b| > 0 && b[0] == '/' ==> p == b
    ensures |a| == 0 ==> p == b
    ensures |a| > 0 && (|b| == 0 || b[0] != '/') ==>
      p == (if a[|a| - 1] == '/' then a else a + "/") + b
    ensures |a| > 0 && (|b| == 0 || b[0] != '/') ==> p[|p| - |b| - 1] == '/'
  {
    if |b| > 0 && b[0] == '/' then b
    else if |a| == 0 || a[|a| - 1] == '/' then a + b
    else a + "/" + b
  }

  const DatabaseName: string := "cookies.sqlite"

  /**
   * `os.path.join(base_path, profile_name, "cookies.sqlite")`; for a nonempty
   * profile it ends in `/cookies.sqlite`.
   */
  function DatabasePath(basePath: string, profile: string): (p: string)
    ensures |p| >= |DatabaseName| && p[|p| - |DatabaseName|..] == DatabaseName
    ensures profile != "" ==> |p| > |DatabaseName| && p[|p| - |DatabaseName| - 1] == '/'
  {
    var dir := PathJoin(basePath, profile);
    assert profile != "" ==> |dir| > 0;
    PathJoin(dir, DatabaseName)
  }

  /** One `shutil.copy2(src, dst)`. */
  datatype Copy = Copy(src: string, dst: string)

  /** The write-ahead-log and shared-memory side files, in the order they are tried. */
  const Sidecars: seq<string> := ["-wal", "-shm"]

  /** The side-file copies for `suffixes`, in order, each kept only if its source exists. */
  function SidecarCopies(db: string, tmp: string, existing: set<string>, suffixes: seq<string>): (plan: seq<Copy>)
    ensures |plan| <= |suffixes|
  {
    if suffixes == [] then []
    else
      var last := suffixes[|suffixes| - 1];
      SidecarCopies(db, tmp, existing, suffixes[..|suffixes| - 1]) +
      (if db + last in existing then [Copy(db + last, tmp + last)] else [])
  }

  /** A side-file copy is planned exactly for an existing source, with the same suffix on both ends. */
  lemma {:induction false} SidecarCopiesMembers(db: string, tmp: string, existing: set<string>,
                                               suffixes: seq<string>, c: Copy)
    ensures c in SidecarCopies(db, tmp, existing, suffixes) <==>
      exists k :: 0 <= k < |suffixes| && db + suffixes[k] in existing &&
        c == Copy(db + suffixes[k], tmp + suffixes[k])
  {
    if suffixes != [] {
      var n := |suffixes| - 1;
      var init := suffixes[..n];
      SidecarCopiesMembers(db, tmp, existing, init, c);
      if c in SidecarCopies(db, tmp, existing, init) {
        var k :| 0 <= k < |init| && db + init[k] in existing && c == Copy(db + init[k], tmp + init[k]);
        assert suffixes[k] == init[k];
      }
      if exists k :: 0 <= k < |suffixes| && db + suffixes[k] in existing &&
           c == Copy(db + suffixes[k], tmp + suffixes[k]) {
        var k :| 0 <= k < |suffixes| && db + suffixes[k] in existing &&
           c == Copy(db + suffixes[k], tmp + suffixes[k]);
        if k < n {
          assert init[k] == suffixes[k];
        }
      }
    }
  }

  /**
   * The copy loop: the database itself first, then `-wal` and `-shm` in that
   * order, each only when its source exists.
   */
  method PlanCopies(db: string, tmp: string, existing: set<string>) returns (plan: seq<Copy>)
    ensures plan == [Copy(db, tmp)] + SidecarCopies(db, tmp, existing, Sidecars)
    ensures plan == [Copy(db, tmp)]
      + (if db + "-wal" in existing then [Copy(db + "-wal", tmp + "-wal")] else [])
      + (if db + "-shm" in existing then [Copy(db + "-shm", tmp + "-shm")] else [])
  {
    plan := [Copy(db, tmp)];
    for i := 0 to |Sidecars|
      invariant plan == [Copy(db, tmp)] + SidecarCopies(db, tmp, existing, Sidecars[..i])
    {
      var suffix := Sidecars[i];
      var src := db + suffix;
      var dst := tmp + suffix;
      if src in existing {
        plan := plan + [Copy(src, dst)];
      }
      assert Sidecars[..i + 1][..i] == Sidecars[..i];
    }
    assert Sidecars[..2] == Sidecars;
    assert Sidecars[..2][..1] == ["-wal"];
    assert ["-wal"][..0] == [];
  }
}
