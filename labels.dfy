/**
 * Version labels (src/version_info_manager/label.rs): a label is a name with no whitespace
 * character in it, as Rust's `char::is_whitespace` (the Unicode `White_Space` property)
 * decides.
 */
module Labels {
  import opened Wrappers

  /** `char::is_whitespace`: the characters with the Unicode `White_Space` property. */
  predicate IsWhitespace(c: char) {
    var n := c as int;
    || 0x09 <= n <= 0x0D || n == 0x20 || n == 0x85 || n == 0xA0 || n == 0x1680
    || 0x2000 <= n <= 0x200A || n == 0x2028 || n == 0x2029 || n == 0x202F || n == 0x205F
    || n == 0x3000
  }

  datatype LabelError = ContainsWhitespace

  datatype Label = Label(name: string)

  /** `Label::is_valid_name`: no character of `name` is whitespace, checked front to back. */
  function IsValidName(name: string): (b: bool)
    ensures b <==> forall i :: 0 <= i < |name| ==> !IsWhitespace(name[i])
  {
    if name == [] then true
    else !IsWhitespace(name[0]) && IsValidName(name[1..])
  }

  /** `Label::new`: accepts exactly the names without whitespace, keeping the name as given. */
  function New(name: string): (r: Result<Label, LabelError>)
    ensures r.Ok? <==> IsValidName(name)
    ensures r.Ok? ==> r.value.name == name
    ensures r.Err? ==> r.error == ContainsWhitespace
  {
    if IsValidName(name) then Ok(Label(name)) else Err(ContainsWhitespace)
  }

  /** `Display for Label`: the label prints as its name. */
  function ToString(l: Label): (s: string)
    ensures New(s) == Ok(l) <==> IsValidName(l.name)
  {
    l.name
  }

  /** A label made from a valid name gives that name back, and prints as it. */
  lemma NewThenName(name: string)
    requires IsValidName(name)
    ensures New(name).Ok? && New(name).value.name == name && ToString(New(name).value) == name
  {
  }

  /** "label" is accepted. */
  lemma NewAcceptsPlainName()
    ensures New("label") == Ok(Label("label"))
  {
    var name := "label";
    assert forall i :: 0 <= i < |name| ==> name[i] in {'l', 'a', 'b', 'e'};
  }

  /** "label 2 electric boogaloo" is refused. */
  lemma NewRefusesSpacedName()
    ensures New("label 2 electric boogaloo") == Err(ContainsWhitespace)
  {
    var name := "label 2 electric boogaloo";
    assert IsWhitespace(name[5]);
  }
}
