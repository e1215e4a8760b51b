/**
 * The profile manifest (`profiles.ini`), taken as already parsed: an ordered
 * sequence of sections, each a map from key to value. `None` stands for a
 * manifest file that does not exist.
 */
module Manifest {

  import opened Wrappers

  /** One INI section, keys as written. */
  type Section = map<string, string>

  /** A profile as listed by `--list-profiles`: its display name and its directory. */
  datatype Entry = Entry(name: string, path: string)

  /**
   * The result of reading one value out of the manifest: nothing found, a
   * value, or the exception `config.get` raises when the key is absent.
   */
  datatype Lookup = NotFound | Found(value: string) | Raised

  /** A section marked as the default profile (`Default=1`). */
  predicate IsDefault(s: Section) {
    "Default" in s && s["Default"] == "1"
  }

  /** Section `i` is a default section and no earlier section is. */
  predicate IsFirstDefault(sections: seq<Section>, i: int) {
    0 <= i < |sections| && IsDefault(sections[i]) &&
    forall j :: 0 <= j < i ==> !IsDefault(sections[j])
  }

  /** The position of the first default section, found by a front-to-back scan. */
  function FirstDefaultIndex(sections: seq<Section>): (k: Option<nat>)
    ensures k.None? <==> forall i :: 0 <= i < |sections| ==> !IsDefault(sections[i])
    ensures k.Some? ==> IsFirstDefault(sections, k.value)
  {
    if |sections| == 0 then None
    else if IsDefault(sections[0]) then Some(0)
    else match FirstDefaultIndex(sections[1..])
      case None => None
      case Some(k) => Some(k + 1)
  }

  /** At most one section is the first default one. */
  lemma FirstDefaultUnique(sections: seq<Section>, i: int, j: int)
    requires IsFirstDefault(sections, i) && IsFirstDefault(sections, j)
    ensures i == j
  {
  }

  /**
   * `find_default_profile_name`: the `Path` of the first section whose
   * `Default` is "1"; nothing when the file is absent or no section qualifies.
   * A matching section without `Path` makes the lookup raise.
   */
  function FindDefaultProfile(manifest: Option<seq<Section>>): (r: Lookup)
    ensures manifest.None? ==> r == NotFound
    ensures r == NotFound <==>
      manifest.None? || forall i :: 0 <= i < |manifest.value| ==> !IsDefault(manifest.value[i])
    ensures manifest.Some? ==> forall i :: IsFirstDefault(manifest.value, i) ==>
      r == (if "Path" in manifest.value[i] then Found(manifest.value[i]["Path"]) else Raised)
  {
    match manifest
    case None => NotFound
    case Some(sections) =>
      match FirstDefaultIndex(sections)
      case None => NotFound
      case Some(k) =>
        assert forall i :: IsFirstDefault(sections, i) ==> i == k by {
          forall i | IsFirstDefault(sections, i) ensures i == k {
            FirstDefaultUnique(sections, i, k);
          }
        }
        if "Path" in sections[k] then Found(sections[k]["Path"]) else Raised
  }

  /** With exactly one default section, its `Path` is the answer. */
  lemma SingleDefault(sections: seq<Section>, i: int)
    requires 0 <= i < |sections| && IsDefault(sections[i]) && "Path" in sections[i]
    requires forall j :: 0 <= j < |sections| && j != i ==> !IsDefault(sections[j])
    ensures FindDefaultProfile(Some(sections)) == Found(sections[i]["Path"])
  {
    assert IsFirstDefault(sections, i);
  }

  /** Sections after the first default one never influence the answer. */
  lemma {:induction false} FindDefaultIgnoresTail(a: seq<Section>, b: seq<Section>)
    requires exists i :: 0 <= i < |a| && IsDefault(a[i])
    ensures FindDefaultProfile(Some(a + b)) == FindDefaultProfile(Some(a))
  {
    var k := FirstDefaultIndex(a).value;
    assert IsFirstDefault(a + b, k);
  }

  /** A section that `--list-profiles` shows: it has both `Name` and `Path`. */
  predicate IsListed(s: Section) {
    "Name" in s && "Path" in s
  }

  function EntryOf(s: Section): Entry
    requires IsListed(s)
  {
    Entry(s["Name"], s["Path"])
  }

  /** The entries of the listed sections, in section order. */
  function ListedEntries(sections: seq<Section>): (r: seq<Entry>)
    ensures |r| <= |sections|
    ensures (forall i :: 0 <= i < |sections| ==> IsListed(sections[i])) ==> |r| == |sections|
  {
    if |sections| == 0 then []
    else (if IsListed(sections[0]) then [EntryOf(sections[0])] else []) + ListedEntries(sections[1..])
  }

  /**
   * `list_profiles`: `None` when `profiles.ini` is absent (the script reports
   * that and lists nothing), otherwise the listed entries.
   */
  function ListProfiles(manifest: Option<seq<Section>>): (r: Option<seq<Entry>>)
    ensures r.None? <==> manifest.None?
    ensures r.Some? ==> |r.value| <= |manifest.value|
  {
    match manifest
    case None => None
    case Some(sections) => Some(ListedEntries(sections))
  }

  /** Listing distributes over concatenation of manifests: order is kept. */
  lemma {:induction false} ListedEntriesAppend(a: seq<Section>, b: seq<Section>)
    ensures ListedEntries(a + b) == ListedEntries(a) + ListedEntries(b)
  {
    if |a| == 0 {
      assert a + b == b;
    } else {
      assert (a + b)[1..] == a[1..] + b;
      ListedEntriesAppend(a[1..], b);
    }
  }

  /**
   * Every listed section `i` appears in the listing at the position given by
   * the number of listed sections before it.
   */
  lemma ListedEntryPosition(sections: seq<Section>, i: int)
    requires 0 <= i < |sections| && IsListed(sections[i])
    ensures |ListedEntries(sections[..i])| < |ListedEntries(sections)|
    ensures ListedEntries(sections)[|ListedEntries(sections[..i])|] == EntryOf(sections[i])
  {
    assert sections == sections[..i] + ([sections[i]] + sections[i + 1..]);
    ListedEntriesAppend(sections[..i], [sections[i]] + sections[i + 1..]);
    assert ([sections[i]] + sections[i + 1..])[1..] == sections[i + 1..];
  }

  /** The listing holds exactly the entries of the sections with both keys. */
  lemma {:induction false} ListedEntriesMembers(sections: seq<Section>, e: Entry)
    ensures e in ListedEntries(sections) <==>
      exists i :: 0 <= i < |sections| && IsListed(sections[i]) && EntryOf(sections[i]) == e
  {
    if |sections| > 0 {
      ListedEntriesMembers(sections[1..], e);
      if e in ListedEntries(sections[1..]) {
        var i :| 0 <= i < |sections[1..]| && IsListed(sections[1..][i]) && EntryOf(sections[1..][i]) == e;
        assert sections[i + 1] == sections[1..][i];
      }
      if exists i :: 0 <= i < |sections| && IsListed(sections[i]) && EntryOf(sections[i]) == e {
        var i :| 0 <= i < |sections| && IsListed(sections[i]) && EntryOf(sections[i]) == e;
        if i > 0 {
          assert sections[1..][i - 1] == sections[i];
        }
      }
    }
  }
}
