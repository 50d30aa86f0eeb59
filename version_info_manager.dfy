/**
 * The list of version records (src/version_info_manager/mod.rs).
 *
 * Versions are kept in order; version `i` sits at position `i` and carries index `i`, and
 * no label is used twice. Looking a version up by index is positional; looking it up by
 * label finds the first version carrying that label.
 */
module VersionInfoManagers {
  import opened Wrappers
  import Labels
  import opened VersionIdentifiers
  import opened VersionInfos

  datatype VersionInfoManagerError = DuplicateLabel(duplicate: Labels.Label)

  /** Version `j` is at position `j` and has index `j`. */
  ghost predicate Indexed(vs: seq<VersionInfo>) {
    forall j :: 0 <= j < |vs| ==> vs[j].index == j
  }

  /** No label is carried by two versions. */
  ghost predicate LabelsUnique(vs: seq<VersionInfo>) {
    forall i, j :: 0 <= i < j < |vs| && vs[i].tag.Some? ==> vs[i].tag != vs[j].tag
  }

  /** Labelling a version with a label no version carries makes it the one found by that label. */
  lemma LabelledThenFirst(vs: seq<VersionInfo>, k: nat, l: Labels.Label)
    requires k < |vs| && forall j :: 0 <= j < |vs| ==> vs[j].tag != Some(l)
    ensures FirstLabelled(vs[k := VersionInfos.SetLabel(vs[k], l)], l) == Some(k)
  {
    var ws := vs[k := VersionInfos.SetLabel(vs[k], l)];
    assert ws[k].tag == Some(l);
    assert forall j :: 0 <= j < |ws| && j != k ==> ws[j].tag != Some(l);
    assert FirstLabelled(ws, l).Some?;
  }

  class VersionInfoManager {
    var versions: seq<VersionInfo>

    ghost predicate Valid()
      reads this
    {
      Indexed(versions) && LabelsUnique(versions)
    }

    /** `VersionInfoManager::new`: no versions. */
    constructor ()
      ensures versions == [] && Valid()
    {
      versions := [];
    }

    /** `Clone`: a second manager with the same versions. */
    method Clone() returns (c: VersionInfoManager)
      ensures fresh(c) && c.versions == versions
    {
      c := new VersionInfoManager();
      c.versions := versions;
    }

    /**
     * The position `get_mut` (and `get`) refer to: the `i`-th entry for an index, the first
     * entry carrying the label for a label, none when there is no such entry.
     */
    function Position(id: VersionIdentifier): (r: Option<nat>)
      reads this
      ensures r.Some? ==> r.value < |versions|
      ensures id.ByIndex? ==> (r.Some? <==> id.index < |versions|) && (r.Some? ==> r.value == id.index)
      ensures id.ByLabel? ==> r == FirstLabelled(versions, id.name)
    {
      match id
      case ByIndex(i) => if i < |versions| then Some(i) else None
      case ByLabel(l) => FirstLabelled(versions, l)
    }

    /** `get`: the version an identifier names, if any. */
    function Get(id: VersionIdentifier): (r: Option<VersionInfo>)
      reads this
      ensures id.ByIndex? ==> (r.Some? <==> id.index < |versions|) && (r.Some? ==> r.value == versions[id.index])
      ensures id.ByLabel? ==> (r.Some? <==> ContainsLabel(id.name)) && (r.Some? ==> r.value.tag == Some(id.name))
      ensures Valid() && id.ByIndex? && r.Some? ==> r.value.index == id.index
      ensures Valid() && id.ByLabel? && r.Some? ==> forall j :: 0 <= j < |versions| && versions[j].tag == Some(id.name) ==> r.value == versions[j]
    {
      match Position(id)
      case Some(k) => Some(versions[k])
      case None => None
    }

    /** `contains_label`: some version carries `l`. */
    function ContainsLabel(l: Labels.Label): (b: bool)
      reads this
      ensures b <==> exists j :: 0 <= j < |versions| && versions[j].tag == Some(l)
    {
      FirstLabelled(versions, l).Some?
    }

    /**
     * `set_label`: a label already in use is refused with `DuplicateLabel` and nothing
     * changes; otherwise the version the identifier names, if there is one, gets the label,
     * and an unknown identifier changes nothing yet succeeds.
     */
    method SetLabel(id: VersionIdentifier, l: Labels.Label) returns (r: Result<(), VersionInfoManagerError>)
      requires Valid()
      modifies this
      ensures Valid()
      ensures old(ContainsLabel(l)) ==> r == Err(DuplicateLabel(l)) && versions == old(versions)
      ensures !old(ContainsLabel(l)) ==> r.Ok?
      ensures r.Ok? && old(Position(id)).None? ==> versions == old(versions)
      ensures r.Ok? && old(Position(id)).Some? ==>
                var k := old(Position(id)).value;
                versions == old(versions)[k := VersionInfos.SetLabel(old(versions)[k], l)] && Get(ByLabel(l)) == Some(versions[k])
    {
      if ContainsLabel(l) {
        return Err(DuplicateLabel(l));
      }
      var k := Position(id);
      if k.Some? {
        LabelledThenFirst(versions, k.value, l);
        versions := versions[k.value := VersionInfos.SetLabel(versions[k.value], l)];
      }
      return Ok(());
    }

    /** `add_version`: appends an unlabelled version whose index is the previous count. */
    method AddVersion()
      requires Valid()
      modifies this
      ensures Valid()
      ensures versions == old(versions) + [New(|old(versions)|)]
      ensures LatestVersionIndex() == Some(old(VersionCount()))
    {
      versions := versions + [New(|versions|)];
    }

    /**
     * `remove_version`: truncates the list to the index recorded in the version the
     * identifier names, which drops that version and every later one; an unknown identifier
     * changes nothing.
     */
    method RemoveVersion(id: VersionIdentifier)
      requires Valid()
      modifies this
      ensures Valid()
      ensures old(Get(id)).None? ==> versions == old(versions)
      ensures old(Get(id)).Some? ==> versions == old(versions)[..old(Position(id)).value]
    {
      var found := Get(id);
      if found.Some? {
        var index := found.value.index;
        if index < |versions| {
          versions := versions[..index];
        }
      }
    }

    /** `version_count`. */
    function VersionCount(): (n: nat)
      reads this
      ensures n == |versions|
    {
      |versions|
    }

    /** `is_empty`. */
    function IsEmpty(): (b: bool)
      reads this
      ensures b <==> VersionCount() == 0
    {
      VersionCount() == 0
    }

    /** `latest_version_index`: none when empty, otherwise the count less one. */
    function LatestVersionIndex(): (r: Option<nat>)
      reads this
      ensures r.None? <==> IsEmpty()
      ensures r.Some? ==> r.value + 1 == VersionCount() && Get(ByIndex(r.value)) == Some(versions[r.value])
    {
      if |versions| == 0 then None else Some(|versions| - 1)
    }

    /** `clear`: no versions. */
    method Clear()
      modifies this
      ensures versions == [] && Valid()
    {
      versions := [];
    }

    /**
     * `fork`: a new manager with a single unlabelled version, index 0; the original is not
     * changed.
     */
    method Fork() returns (f: VersionInfoManager)
      ensures fresh(f) && f.Valid() && f.versions == [New(0)]
      ensures f.VersionCount() == 1 && f.LatestVersionIndex() == Some(0)
    {
      f := Clone();
      f.Clear();
      f.AddVersion();
    }
  }

  /**
   * On a new manager with one version, labelling version 0 succeeds and labelling it again
   * with the same label is refused as a duplicate.
   */
  method SetLabelTwice(l: Labels.Label) returns (first: Result<(), VersionInfoManagerError>, second: Result<(), VersionInfoManagerError>)
    ensures first.Ok? && second == Err(DuplicateLabel(l))
  {
    var m := new VersionInfoManager();
    m.AddVersion();
    first := m.SetLabel(ByIndex(0), l);
    second := m.SetLabel(ByIndex(0), l);
  }
}
