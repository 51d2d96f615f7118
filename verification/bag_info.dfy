/** One field of a bag's bag-info metadata form: its name, label and value,
    the list of choices shown for a list field, its widget kind and its flags.
    Elements travel as a single ';'-separated string (buildElements and
    concatElements). */
module BagInfo {
  import Tokens

  const TextFieldComponent: int := 1
  const TextAreaComponent: int := 2
  const ListComponent: int := 3
  const TextFieldCode: string := "TF"
  const TextAreaCode: string := "TA"
  const ListCode: string := "LF"
  const MaxValue: int := 32

  datatype Field = Field(
    name: string,
    labelText: string,
    value: string,
    elements: seq<string>,
    componentType: int,
    isEnabled: bool,
    isRequired: bool,
    isRequiredValue: bool,
    isEditable: bool,
    isProfile: bool)

  /** The one separator of the element string. */
  predicate IsSemicolon(c: char) {
    c == ';'
  }

  /** The field a freshly constructed BagInfoField holds. */
  function NewField(): (f: Field)
    ensures f.name == "" && f.labelText == "" && f.value == ""
    ensures f.elements == [] && ConcatElements(f) == ""
    ensures f.componentType == TextFieldComponent
    ensures f.isEditable
    ensures !f.isEnabled && !f.isRequired && !f.isRequiredValue && !f.isProfile
  {
    Field("", "", "", [], TextFieldComponent, false, false, false, true, false)
  }

  // ---------------------------------------------------------------------------
  // Setters and getters
  // ---------------------------------------------------------------------------

  /** The ten properties a caller can set and read back. */
  datatype Attribute =
    | NameAttr | LabelAttr | ValueAttr | ElementsAttr | ComponentTypeAttr
    | EditableAttr | EnabledAttr | RequiredAttr | RequiredValueAttr | ProfileAttr

  /** A value for one property, as handed to a setter or returned by a getter. */
  datatype Setting =
    | Name(s: string) | Label(s: string) | Value(s: string)
    | Elements(es: seq<string>) | ComponentType(t: int)
    | Editable(b: bool) | Enabled(b: bool) | Required(b: bool)
    | RequiredValue(b: bool) | Profile(b: bool)
  {
    function Attr(): Attribute {
      match this
      case Name(_) => NameAttr
      case Label(_) => LabelAttr
      case Value(_) => ValueAttr
      case Elements(_) => ElementsAttr
      case ComponentType(_) => ComponentTypeAttr
      case Editable(_) => EditableAttr
      case Enabled(_) => EnabledAttr
      case Required(_) => RequiredAttr
      case RequiredValue(_) => RequiredValueAttr
      case Profile(_) => ProfileAttr
    }
  }

  /** The getters (getName, isEditable(), ...). */
  function Get(f: Field, a: Attribute): (s: Setting)
    ensures s.Attr() == a
  {
    match a
    case NameAttr => Name(f.name)
    case LabelAttr => Label(f.labelText)
    case ValueAttr => Value(f.value)
    case ElementsAttr => Elements(f.elements)
    case ComponentTypeAttr => ComponentType(f.componentType)
    case EditableAttr => Editable(f.isEditable)
    case EnabledAttr => Enabled(f.isEnabled)
    case RequiredAttr => Required(f.isRequired)
    case RequiredValueAttr => RequiredValue(f.isRequiredValue)
    case ProfileAttr => Profile(f.isProfile)
  }

  /** The setters (setName, isEditable(boolean), ...): each overwrites one property. */
  function Set(f: Field, s: Setting): Field
  {
    match s
    case Name(v) => f.(name := v)
    case Label(v) => f.(labelText := v)
    case Value(v) => f.(value := v)
    case Elements(es) => f.(elements := es)
    case ComponentType(t) => f.(componentType := t)
    case Editable(b) => f.(isEditable := b)
    case Enabled(b) => f.(isEnabled := b)
    case Required(b) => f.(isRequired := b)
    case RequiredValue(b) => f.(isRequiredValue := b)
    case Profile(b) => f.(isProfile := b)
  }

  /** A getter returns what its setter stored, and a setter touches no other property. */
  lemma SetThenGet(f: Field, s: Setting, a: Attribute)
    ensures Get(Set(f, s), s.Attr()) == s
    ensures a != s.Attr() ==> Get(Set(f, s), a) == Get(f, a)
  {
  }

  /** Two fields that agree on every getter are the same field. */
  lemma GettersDetermineField(f: Field, g: Field)
    requires forall a: Attribute :: Get(f, a) == Get(g, a)
    ensures f == g
  {
    assert Get(f, NameAttr) == Get(g, NameAttr);
    assert Get(f, LabelAttr) == Get(g, LabelAttr);
    assert Get(f, ValueAttr) == Get(g, ValueAttr);
    assert Get(f, ElementsAttr) == Get(g, ElementsAttr);
    assert Get(f, ComponentTypeAttr) == Get(g, ComponentTypeAttr);
    assert Get(f, EditableAttr) == Get(g, EditableAttr);
    assert Get(f, EnabledAttr) == Get(g, EnabledAttr);
    assert Get(f, RequiredAttr) == Get(g, RequiredAttr);
    assert Get(f, RequiredValueAttr) == Get(g, RequiredValueAttr);
    assert Get(f, ProfileAttr) == Get(g, ProfileAttr);
  }

  // ---------------------------------------------------------------------------
  // buildElements / concatElements
  // ---------------------------------------------------------------------------

  /** buildElements: the elements become the ';'-delimited tokens of e. */
  function BuildElements(f: Field, e: string): (r: Field)
    ensures Tokens.WellFormed(r.elements, IsSemicolon)
    ensures forall a :: a != ElementsAttr ==> Get(r, a) == Get(f, a)
  {
    f.(elements := Tokens.Runs(e, IsSemicolon))
  }

  /** concatElements: every element followed by ';'. */
  function ConcatElements(f: Field): (s: string)
    ensures f.elements == [] <==> s == ""
    ensures f.elements != [] ==> s[|s| - 1] == ';'
  {
    Tokens.Terminated(f.elements, ';')
  }

  /** The elements are exactly the maximal non-empty ';'-free runs of the input:
      empty tokens from leading, trailing or doubled ';' are dropped. */
  lemma BuildElementsDropsEmptyTokens(f: Field, e: string)
    ensures BuildElements(f, e).elements == Tokens.DropEmpty(Tokens.Pieces(e, IsSemicolon))
  {
    Tokens.RunsAreNonEmptyPieces(e, IsSemicolon);
  }

  /** Concatenating then rebuilding gives the field back when its elements are
      non-empty and ';'-free. */
  lemma ConcatThenBuild(f: Field)
    requires Tokens.WellFormed(f.elements, IsSemicolon)
    ensures BuildElements(f, ConcatElements(f)) == f
  {
    Tokens.RunsOfTerminated(f.elements, ';', IsSemicolon);
  }

  /** Rebuilding from the concatenated string. */
  function Normalize(f: Field): Field {
    BuildElements(f, ConcatElements(f))
  }

  /** Normalising twice is normalising once. */
  lemma NormalizeIdempotent(f: Field)
    ensures Normalize(Normalize(f)) == Normalize(f)
  {
    ConcatThenBuild(Normalize(f));
  }

  /** A string that is already normal is reproduced exactly by build then concat. */
  lemma BuildThenConcat(f: Field, e: string)
    ensures ConcatElements(BuildElements(f, ConcatElements(BuildElements(f, e))))
         == ConcatElements(BuildElements(f, e))
  {
    Tokens.NormalisationIdempotent(e, ';', IsSemicolon);
  }
}
