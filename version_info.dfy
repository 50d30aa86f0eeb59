/**
 * What is recorded about one version (src/version_info_manager/version_info.rs): its
 * index, an optional label (the field `tag`, since `label` is a reserved word in Dafny) and
 * an optional message. Every `VersionInfo` lives by value in a manager's list, so each
 * setter is a function giving the updated record.
 */
module VersionInfos {
  import opened Wrappers
  import opened Labels

  datatype VersionInfo = VersionInfo(index: nat, tag: Option<Label>, message: Option<string>)

  datatype Ordering = Less | Equal | Greater

  /** `VersionInfo::new`: index `i`, no label, no message. */
  function New(i: nat): (v: VersionInfo)
    ensures v.index == i && v.tag == None && v.message == None
  {
    VersionInfo(i, None, None)
  }

  /** `with_message`: index `i`, message `m`, no label. */
  function WithMessage(i: nat, m: string): (v: VersionInfo)
    ensures v.index == i && v.tag == None && v.message == Some(m)
    ensures v == SetMessage(New(i), m)
  {
    VersionInfo(i, None, Some(m))
  }

  /** `set_label`: only the label changes. */
  function SetLabel(v: VersionInfo, l: Label): (w: VersionInfo)
    ensures w.tag == Some(l) && w.index == v.index && w.message == v.message
  {
    v.(tag := Some(l))
  }

  /** `set_message`: only the message changes. */
  function SetMessage(v: VersionInfo, m: string): (w: VersionInfo)
    ensures w.message == Some(m) && w.index == v.index && w.tag == v.tag
  {
    v.(message := Some(m))
  }

  /** `clear_label`: only the label changes, to none. */
  function ClearLabel(v: VersionInfo): (w: VersionInfo)
    ensures w.tag == None && w.index == v.index && w.message == v.message
  {
    v.(tag := None)
  }

  /** `clear_message`: only the message changes, to none. */
  function ClearMessage(v: VersionInfo): (w: VersionInfo)
    ensures w.message == None && w.index == v.index && w.tag == v.tag
  {
    v.(message := None)
  }

  /** Label and message are independent: setting one and clearing it again leaves the other alone. */
  lemma SettersIndependent(v: VersionInfo, l: Label, m: string)
    ensures ClearLabel(SetLabel(v, l)) == ClearLabel(v)
    ensures ClearMessage(SetMessage(v, m)) == ClearMessage(v)
    ensures SetLabel(SetMessage(v, m), l) == SetMessage(SetLabel(v, l), m)
    ensures v.tag == None ==> ClearLabel(SetLabel(v, l)) == v
  {
  }

  /** `partial_cmp`: versions compare by index alone, and always compare. */
  function PartialCmp(a: VersionInfo, b: VersionInfo): (r: Option<Ordering>)
    ensures r.Some?
    ensures r == Some(Less) <==> a.index < b.index
    ensures r == Some(Equal) <==> a.index == b.index
    ensures r == Some(Greater) <==> a.index > b.index
  {
    Some(if a.index < b.index then Less else if a.index == b.index then Equal else Greater)
  }

  /** The order ignores labels and messages, and swapping the operands reverses it. */
  lemma PartialCmpByIndexOnly(a: VersionInfo, b: VersionInfo, l: Label, m: string)
    ensures PartialCmp(SetLabel(SetMessage(a, m), l), b) == PartialCmp(a, b)
    ensures PartialCmp(a, b) == Some(Less) <==> PartialCmp(b, a) == Some(Greater)
    ensures PartialCmp(a, b) == Some(Equal) <==> PartialCmp(b, a) == Some(Equal)
  {
  }

  /**
   * `iter().find(|v| v.label() == Some(l))` over a manager's list, as a position: the first
   * version labelled `l`.
   */
  function FirstLabelled(vs: seq<VersionInfo>, l: Label): (r: Option<nat>)
    ensures r.None? <==> forall j :: 0 <= j < |vs| ==> vs[j].tag != Some(l)
    ensures r.Some? ==> r.value < |vs| && vs[r.value].tag == Some(l)
    ensures r.Some? ==> forall j :: 0 <= j < r.value ==> vs[j].tag != Some(l)
  {
    if vs == [] then None
    else if vs[0].tag == Some(l) then Some(0)
    else match FirstLabelled(vs[1..], l)
      case None => None
      case Some(k) => Some(k + 1)
  }
}
