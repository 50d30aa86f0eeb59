/**
 * The first-generation version records (src/version_info.rs): the same label, identifier
 * and record shapes as `Labels`, `VersionIdentifiers` and `VersionInfos`, with a label error
 * that carries the rejected name, a record that can name itself, and a manager whose
 * look-up by index searches the recorded indices instead of using positions.
 */
module LegacyVersionInfo {
  import opened Wrappers
  import Labels
  import opened VersionIdentifiers
  import opened VersionInfos

  datatype LabelError = InvalidLabel(name: string)

  datatype VersionInfoManagerError =
    | VersionIdentifierNotFound(id: VersionIdentifier)
    | DuplicateLabel(duplicate: Labels.Label)
    | DuplicateVersionInfo(info: VersionInfo)

  /**
   * `Label::new`: accepts exactly the names in which every character is not whitespace,
   * and reports a refused name back in the error.
   */
  function NewLabel(name: string): (r: Result<Labels.Label, LabelError>)
    ensures r.Ok? <==> Labels.IsValidName(name)
    ensures r.Ok? ==> r.value.name == name
    ensures r.Err? ==> r.error == InvalidLabel(name)
  {
    if !Labels.IsValidName(name) then Err(InvalidLabel(name)) else Ok(Labels.Label(name))
  }

  /** "v1.0", "foobar" and "foo-bar" are accepted. */
  lemma NewLabelAcceptsPlainNames()
    ensures NewLabel("v1.0").Ok? && NewLabel("foobar").Ok? && NewLabel("foo-bar").Ok?
  {
    var v, f, d := "v1.0", "foobar", "foo-bar";
    assert forall i :: 0 <= i < |v| ==> v[i] in {'v', '1', '.', '0'};
    assert forall i :: 0 <= i < |f| ==> f[i] in {'f', 'o', 'b', 'a', 'r'};
    assert forall i :: 0 <= i < |d| ==> d[i] in {'f', 'o', '-', 'b', 'a', 'r'};
  }

  /** " " and "foo bar" are refused, and the error names them. */
  lemma NewLabelRefusesSpacedNames()
    ensures NewLabel(" ") == Err(InvalidLabel(" "))
    ensures NewLabel("foo bar") == Err(InvalidLabel("foo bar"))
  {
    assert Labels.IsWhitespace(" "[0]);
    assert Labels.IsWhitespace("foo bar"[3]);
  }

  /** `VersionInfo::identifier`: the label when there is one, the index otherwise. */
  function Identifier(v: VersionInfo): (id: VersionIdentifier)
    ensures v.tag.Some? ==> LabelOf(id) == v.tag
    ensures v.tag.None? ==> IndexOf(id) == Some(v.index)
  {
    if v.tag.Some? then FromLabel(v.tag.value) else FromIndex(v.index)
  }

  /** A new record names itself by its index, a labelled one by its label. */
  lemma IdentifierOfNew(i: nat, l: Labels.Label)
    ensures Identifier(New(i)) == ByIndex(i)
    ensures Identifier(SetLabel(New(i), l)) == ByLabel(l)
    ensures Identifier(ClearLabel(SetLabel(New(i), l))) == ByIndex(i)
  {
  }

  /** `iter().find(|v| v.index() == i)`, as a position: the first version recording index `i`. */
  function FirstIndexed(vs: seq<VersionInfo>, i: nat): (r: Option<nat>)
    ensures r.None? <==> forall j :: 0 <= j < |vs| ==> vs[j].index != i
    ensures r.Some? ==> r.value < |vs| && vs[r.value].index == i
    ensures r.Some? ==> forall j :: 0 <= j < r.value ==> vs[j].index != i
  {
    if vs == [] then None
    else if vs[0].index == i then Some(0)
    else match FirstIndexed(vs[1..], i)
      case None => None
      case Some(k) => Some(k + 1)
  }

  class VersionInfoManager {
    var versions: seq<VersionInfo>

    /** `VersionInfoManager::new`: no versions. */
    constructor ()
      ensures versions == []
    {
      versions := [];
    }

    /** `from_versions`: exactly the versions given, in order. */
    constructor FromVersions(vs: seq<VersionInfo>)
      ensures versions == vs
    {
      versions := vs;
    }

    /**
     * The position `get_mut` (and `get`) refer to: the first entry recording the index, or
     * the first entry carrying the label.
     */
    function Position(id: VersionIdentifier): (r: Option<nat>)
      reads this
      ensures id.ByIndex? ==> r == FirstIndexed(versions, id.index)
      ensures id.ByLabel? ==> r == FirstLabelled(versions, id.name)
    {
      match id
      case ByIndex(i) => FirstIndexed(versions, i)
      case ByLabel(l) => FirstLabelled(versions, l)
    }

    /**
     * `get`: the first version recording the index, or the first carrying the label; for an
     * index this need not be the version at that position.
     */
    function Get(id: VersionIdentifier): (r: Option<VersionInfo>)
      reads this
      ensures id.ByIndex? ==> (r.Some? <==> exists j :: 0 <= j < |versions| && versions[j].index == id.index)
      ensures id.ByIndex? && r.Some? ==> r.value.index == id.index
      ensures id.ByLabel? ==> (r.Some? <==> ContainsLabel(id.name))
      ensures id.ByLabel? && r.Some? ==> r.value.tag == Some(id.name)
      ensures r.Some? ==> exists k :: Position(id) == Some(k) && k < |versions| && r.value == versions[k]
      ensures r.None? ==> Position(id).None?
    {
      match Position(id)
      case Some(k) => Some(versions[k])
      case None => None
    }

    /** `contains_label`: some version carries `l`. */
    function ContainsLabel(l: Labels.Label): (b: bool)
      reads this
      ensures b <==> exists j :: 0 <= j < |versions| && versions[j].tag == Some(l)
    {
      FirstLabelled(versions, l).Some?
    }

    /**
     * `set_label` as written: a label already in use is refused, but with
     * `VersionIdentifierNotFound`, the error for an unknown identifier; an unknown
     * identifier is refused the same way; otherwise the version found gets the label.
     * Nothing changes when it fails.
     */
    method SetLabel(id: VersionIdentifier, l: Labels.Label) returns (r: Result<(), VersionInfoManagerError>)
      modifies this
      ensures old(ContainsLabel(l)) ==> r == Err(VersionIdentifierNotFound(id))
      ensures r.Err? ==> versions == old(versions) && r == Err(VersionIdentifierNotFound(id))
      ensures r.Ok? <==> !old(ContainsLabel(l)) && old(Position(id)).Some?
      ensures r.Ok? ==> var k := old(Position(id)).value;
                        versions == old(versions)[k := VersionInfos.SetLabel(old(versions)[k], l)]
    {
      if ContainsLabel(l) {
        return Err(VersionIdentifierNotFound(id));
      }
      var k := Position(id);
      if k.None? {
        return Err(VersionIdentifierNotFound(id));
      }
      versions := versions[k.value := VersionInfos.SetLabel(versions[k.value], l)];
      return Ok(());
    }

    /**
     * `set_label` as its error type suggests: a label already in use is refused with
     * `DuplicateLabel`, so `VersionIdentifierNotFound` is reported exactly when the
     * identifier names no version.
     */
    method SetLabelReportingDuplicate(id: VersionIdentifier, l: Labels.Label) returns (r: Result<(), VersionInfoManagerError>)
      modifies this
      ensures old(ContainsLabel(l)) <==> r == Err(DuplicateLabel(l))
      ensures r == Err(VersionIdentifierNotFound(id)) <==> !old(ContainsLabel(l)) && old(Get(id)).None?
      ensures r.Err? ==> versions == old(versions)
      ensures r.Ok? ==> var k := old(Position(id)).value;
                        versions == old(versions)[k := VersionInfos.SetLabel(old(versions)[k], l)]
    {
      if ContainsLabel(l) {
        return Err(DuplicateLabel(l));
      }
      var k := Position(id);
      if k.None? {
        return Err(VersionIdentifierNotFound(id));
      }
      versions := versions[k.value := VersionInfos.SetLabel(versions[k.value], l)];
      return Ok(());
    }

    /** `add_version_info`: appends an unlabelled version whose index is the previous length. */
    method AddVersionInfo()
      modifies this
      ensures versions == old(versions) + [New(|old(versions)|)]
      ensures Get(ByIndex(|old(versions)|)).Some?
    {
      versions := versions + [New(|versions|)];
      assert versions[|old(versions)|].index == |old(versions)|;
    }

    /** `len`. */
    function Len(): (n: nat)
      reads this
      ensures n == |versions|
    {
      |versions|
    }

    /** `is_empty`. */
    function IsEmpty(): (b: bool)
      reads this
      ensures b <==> Len() == 0
    {
      |versions| == 0
    }
  }

  /**
   * Relabelling version 2 from "foo" to "bar" and back to "foo" succeeds, after which "bar"
   * names no version and labelling by it fails.
   */
  method RelabelBackAndForth() returns (toBar: Result<(), VersionInfoManagerError>,
                                        backToFoo: Result<(), VersionInfoManagerError>,
                                        byBar: Result<(), VersionInfoManagerError>)
    ensures toBar.Ok? && backToFoo.Ok? && byBar.Err?
  {
    var foo, bar, baz := Labels.Label("foo"), Labels.Label("bar"), Labels.Label("baz");
    var m := new VersionInfoManager.FromVersions([New(0), New(1), VersionInfos.SetLabel(New(2), foo)]);
    assert m.versions[2].index == 2;
    assert forall j :: 0 <= j < |m.versions| ==> m.versions[j].tag != Some(bar);
    toBar := m.SetLabel(ByIndex(2), bar);
    assert m.versions[2].index == 2;
    assert forall j :: 0 <= j < |m.versions| ==> m.versions[j].tag != Some(foo);
    backToFoo := m.SetLabel(ByIndex(2), foo);
    byBar := m.SetLabel(ByLabel(bar), baz);
  }

  /**
   * Labelling version 0 with the label it already carries is refused with
   * `VersionIdentifierNotFound(Index(0))`, although version 0 exists.
   */
  method DuplicateReportedAsNotFound(l: Labels.Label) returns (r: Result<(), VersionInfoManagerError>, found: Option<VersionInfo>)
    ensures found.Some? && r == Err(VersionIdentifierNotFound(ByIndex(0)))
  {
    var m := new VersionInfoManager.FromVersions([VersionInfos.SetLabel(New(0), l)]);
    found := m.Get(ByIndex(0));
    r := m.SetLabel(ByIndex(0), l);
  }
}
