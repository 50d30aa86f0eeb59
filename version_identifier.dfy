/**
 * Version identifiers (src/version_info_manager/version_identifier.rs): a version is named
 * either by its index or by its label.
 */
module VersionIdentifiers {
  import opened Wrappers
  import opened Labels

  datatype VersionIdentifier = ByIndex(index: nat) | ByLabel(name: Label)

  /** `from_label` (also `From<Label>`). */
  function FromLabel(l: Label): (id: VersionIdentifier)
    ensures LabelOf(id) == Some(l) && IndexOf(id) == None
  {
    ByLabel(l)
  }

  /** `from_index` (also `From<usize>`). */
  function FromIndex(i: nat): (id: VersionIdentifier)
    ensures IndexOf(id) == Some(i) && LabelOf(id) == None
  {
    ByIndex(i)
  }

  /** `index`: the index, for an identifier by index. */
  function IndexOf(id: VersionIdentifier): Option<nat> {
    match id
    case ByIndex(i) => Some(i)
    case ByLabel(_) => None
  }

  /** `label`: the label, for an identifier by label. */
  function LabelOf(id: VersionIdentifier): Option<Label> {
    match id
    case ByIndex(_) => None
    case ByLabel(l) => Some(l)
  }

  /** Exactly one of `index()` and `label()` is present, and it determines the identifier. */
  lemma ExactlyOneAccessor(id: VersionIdentifier)
    ensures IndexOf(id).Some? != LabelOf(id).Some?
    ensures IndexOf(id).Some? ==> id == FromIndex(IndexOf(id).value)
    ensures LabelOf(id).Some? ==> id == FromLabel(LabelOf(id).value)
  {
  }
}
