/**
 * The top-level script: flag dispatch, argument defaults, profile precedence
 * and the sequence of early exits that ends in an extraction.
 */
module Cli {

  import opened Wrappers
  import opened Manifest
  import opened CookieOutput
  import opened Snapshot

  /** The domain used when no argument is given. */
  const DefaultDomain: string := "youtube.com"

  /** `USER_DEFINED_PROFILE` as the script ships it. */
  const ShippedUserProfile: string := ""

  /** What the script does, decided from `argv[1:]` alone. */
  datatype Mode = Help | List | Extract(domain: string, explicitProfile: Option<string>)

  /** Only the first argument is inspected for a flag; otherwise it is the domain. */
  function Dispatch(args: seq<string>): (m: Mode)
    ensures m == Help <==> |args| > 0 && args[0] == "--help"
    ensures m == List <==> |args| > 0 && args[0] == "--list-profiles"
    ensures m.Extract? ==> m.domain == (if |args| > 0 then args[0] else DefaultDomain)
    ensures m.Extract? ==> (m.explicitProfile.Some? <==> |args| > 1)
    ensures m.Extract? && |args| > 1 ==> m.explicitProfile.value == args[1]
  {
    if |args| > 0 && args[0] == "--help" then Help
    else if |args| > 0 && args[0] == "--list-profiles" then List
    else Extract(if |args| > 0 then args[0] else DefaultDomain,
                 if |args| > 1 then Some(args[1]) else None)
  }

  /**
   * `argv[2] if len(argv) > 2 else USER_DEFINED_PROFILE or find_default_profile_name()`:
   * the manifest is consulted only when both earlier sources are missing.
   */
  function ProfileName(explicit: Option<string>, userProfile: string,
                       manifest: Option<seq<Section>>): (r: Lookup)
    ensures explicit.Some? ==> r == Found(explicit.value)
    ensures explicit.None? && userProfile != "" ==> r == Found(userProfile)
    ensures explicit.None? && userProfile == "" ==> r == FindDefaultProfile(manifest)
  {
    if explicit.Some? then Found(explicit.value)
    else if userProfile != "" then Found(userProfile)
    else FindDefaultProfile(manifest)
  }

  /** A profile the script accepts: found and nonempty (`if not profile_name: exit(1)`). */
  function Usable(r: Lookup): (ok: bool)
    ensures ok ==> r.Found? && |r.value| > 0
    ensures r.NotFound? || r.Raised? || r == Found("") ==> !ok
  {
    r.Found? && r.value != ""
  }

  /** An explicit second argument decides the profile, even when it is empty. */
  lemma ExplicitProfileWins(explicit: string, userProfile: string, manifest: Option<seq<Section>>)
    ensures Usable(ProfileName(Some(explicit), userProfile, manifest)) <==> explicit != ""
  {
  }

  /** With the shipped empty `USER_DEFINED_PROFILE` and no second argument, the manifest decides. */
  lemma ShippedProfileFromManifest(manifest: Option<seq<Section>>)
    ensures ProfileName(None, ShippedUserProfile, manifest) == FindDefaultProfile(manifest)
  {
  }

  /** Everything the script reads from outside, already resolved. */
  datatype Host = Host(
    args: seq<string>,            // sys.argv[1:]
    userProfile: string,          // USER_DEFINED_PROFILE
    basePath: string,             // the Firefox base directory
    manifest: Option<seq<Section>>, // parsed profiles.ini, None when absent
    existing: set<string>,        // the paths that exist on disk
    scriptDir: string,            // directory of the script
    tempDir: string,              // the directory tempfile.mkdtemp() returns
    rows: seq<Cookie>)            // rows the query returns on the snapshot

  /** How a run ends. */
  datatype Outcome =
    | ShowedHelp
    | ListedProfiles(listing: Option<seq<Entry>>)
    | ManifestError                        // the default section lacks Path: uncaught exception
    | NoProfile
    | DatabaseMissing(dbPath: string)
    | Extracted(profile: string, dbPath: string, outPath: string, copies: seq<Copy>,
                pattern: string, count: nat, written: Option<string>)

  /** The process exit status; an uncaught exception exits with 1. */
  function ExitCode(o: Outcome): (code: int)
    ensures code == 0 || code == 1
    ensures code == 0 <==> o.ShowedHelp? || o.ListedProfiles? || o.Extracted?
  {
    match o
    case ShowedHelp => 0
    case ListedProfiles(_) => 0
    case Extracted(_, _, _, _, _, _, _) => 0
    case _ => 1
  }

  /** The whole script, one early exit after another. */
  method Run(h: Host) returns (o: Outcome)
    ensures o.ShowedHelp? <==> |h.args| > 0 && h.args[0] == "--help"
    ensures o.ListedProfiles? <==> |h.args| > 0 && h.args[0] == "--list-profiles"
    ensures o.ListedProfiles? ==> o.listing == ListProfiles(h.manifest)
    ensures Dispatch(h.args).Extract? ==>
      var m := Dispatch(h.args);
      var p := ProfileName(m.explicitProfile, h.userProfile, h.manifest);
      (o.ManifestError? <==> p.Raised?) &&
      (o.NoProfile? <==> !p.Raised? && !Usable(p)) &&
      (Usable(p) ==>
        var db := DatabasePath(h.basePath, p.value);
        (o.DatabaseMissing? <==> db !in h.existing) &&
        (o.DatabaseMissing? ==> o.dbPath == db) &&
        (o.Extracted? <==> db in h.existing) &&
        (o.Extracted? ==>
          o.profile == p.value && o.dbPath == db &&
          o.outPath == PathJoin(h.scriptDir, OutputName(m.domain)) &&
          o.copies == [Copy(db, PathJoin(h.tempDir, DatabaseName))]
            + SidecarCopies(db, PathJoin(h.tempDir, DatabaseName), h.existing, Sidecars) &&
          o.pattern == "%" + m.domain + "%"))
    ensures o.Extracted? ==> o.profile != "" && o.dbPath in h.existing
    ensures o.Extracted? ==> o.count == |h.rows|
    ensures o.Extracted? ==> o.written == FileContent(h.rows)
    ensures o.Extracted? ==> (o.written.Some? <==> |h.rows| > 0)
    ensures o.Extracted? && o.written.Some? ==> o.written.value == CookieString(h.rows) + "\n"
  {
    var mode := Dispatch(h.args);
    if mode == Help {
      return ShowedHelp;
    }
    if mode == List {
      return ListedProfiles(ListProfiles(h.manifest));
    }
    var targetDomain := mode.domain;
    var lookup := ProfileName(mode.explicitProfile, h.userProfile, h.manifest);
    if lookup.Raised? {
      return ManifestError;
    }
    if lookup.NotFound? || lookup.value == "" {
      return NoProfile;
    }
    var profileName := lookup.value;
    var dbPath := DatabasePath(h.basePath, profileName);
    var outPath := PathJoin(h.scriptDir, OutputName(targetDomain));
    if dbPath !in h.existing {
      return DatabaseMissing(dbPath);
    }
    var tempDbPath := PathJoin(h.tempDir, DatabaseName);
    var copies := PlanCopies(dbPath, tempDbPath, h.existing);
    var pattern := "%" + targetDomain + "%";
    var cookies := h.rows;
    var written := FileContent(cookies);
    o := Extracted(profileName, dbPath, outPath, copies, pattern, |cookies|, written);
  }
}
