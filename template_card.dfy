/**
 * The template card: the visibility chip, the description line, the category
 * chip, the tag row (at most three tags and a "+N" chip for the rest), and the
 * navigation both card actions end with.
 */
module TemplateCard {
  import opened JsValues
  import opened Text
  import opened TemplateTypes

  /** The MUI chip colours a visibility can take. */
  datatype ChipColor = DefaultColor | Primary | Secondary

  /** `getVisibilityColor`. */
  function VisibilityColor(v: Visibility): (color: ChipColor)
    ensures color == Primary <==> v == Public
    ensures color == Secondary <==> v == Tenant
    ensures color == DefaultColor <==> v == Private
  {
    match v
    case Public => Primary
    case Tenant => Secondary
    case Private => DefaultColor
  }

  /** `getVisibilityLabel`. */
  function VisibilityLabel(v: Visibility): string
  {
    match v
    case Public => "Public"
    case Tenant => "Tenant"
    case Private => "Private"
  }

  /**
   * The label is the wire spelling with every letter after the first in
   * lower case, so distinct visibilities have distinct labels.
   */
  lemma LabelFollowsWireName(v: Visibility)
    ensures var text := VisibilityLabel(v); var name := VisibilityName(v);
      |text| == |name| && text[0] == name[0] && text[1..] == ToLower(name[1..])
  {
  }

  lemma LabelsDistinct(a: Visibility, b: Visibility)
    ensures VisibilityLabel(a) == VisibilityLabel(b) <==> a == b
  {
    LabelFollowsWireName(a);
    LabelFollowsWireName(b);
    VisibilityNameInjective(a, b);
    var la, lb := VisibilityLabel(a), VisibilityLabel(b);
    if la == lb {
      assert VisibilityName(a)[0] == la[0];
      assert VisibilityName(b)[0] == lb[0];
      match a
      case Private => assert la[1] == 'r';
      case Tenant => assert la[0] == 'T';
      case Public => assert la[1] == 'u';
    }
  }

  const NoDescription: string := "--"

  /** `template.description || '--'`. */
  function DescriptionText(description: Option<string>): (text: string)
    ensures text != ""
    ensures description.Some? && description.value != "" ==> text == description.value
    ensures description.None? || description.value == "" ==> text == NoDescription
  {
    if description.Some? && description.value != "" then description.value else NoDescription
  }

  /** The category chip, shown when the category is truthy. */
  function CategoryChip(category: Option<string>): (chip: Option<string>)
    ensures chip.Some? <==> category.Some? && category.value != ""
    ensures chip.Some? ==> chip.value == "Category: " + category.value
  {
    if category.Some? && category.value != "" then Some("Category: " + category.value) else None
  }

  /** The tag row: the tags shown, and how many the "+N" chip stands for when there is one. */
  datatype TagRow = TagRow(shown: seq<string>, more: Option<nat>)

  const MaxShownTags: nat := 3

  /** The tag row: absent for missing or empty tags, else `tags.slice(0, 3)` and a count chip beyond three. */
  function TagRowOf(tags: Option<seq<string>>): (row: Option<TagRow>)
    ensures row.None? <==> tags.None? || |tags.value| == 0
    ensures row.Some? ==> |row.value.shown| <= MaxShownTags && row.value.shown <= tags.value
    ensures row.Some? ==> |row.value.shown| == if |tags.value| < MaxShownTags then |tags.value| else MaxShownTags
    ensures row.Some? ==> (row.value.more.Some? <==> |tags.value| > MaxShownTags)
  {
    if tags.None? || |tags.value| == 0 then None
    else
      var list := tags.value;
      var shown := if |list| <= MaxShownTags then list else list[..MaxShownTags];
      Some(TagRow(shown, if |list| > MaxShownTags then Some(|list| - MaxShownTags) else None))
  }

  /** `+${tags.length - 3}`. */
  function MoreLabel(n: nat): string
  {
    "+" + NatToString(n)
  }

  /** The shown tags and the count on the "+N" chip account for every tag, and the count is positive. */
  lemma TagRowAccountsForEveryTag(tags: seq<string>)
    requires |tags| > 0
    ensures var row := TagRowOf(Some(tags)).value;
      && |row.shown| + (if row.more.Some? then row.more.value else 0) == |tags|
      && row.shown + tags[|row.shown|..] == tags
      && (row.more.Some? ==> row.more.value > 0)
  {
  }

  /** Which card action was taken; both call their callback when one is given. */
  datatype CardAction = UseTemplate | ViewTemplate

  /** What an action does, in order: the caller's callback, then navigation. */
  datatype CardEffect = CallBack(action: CardAction) | Navigate(path: string)

  /** `/templates/${template.id}`. */
  function DetailPath(id: int): string
  {
    "/templates/" + IntToString(id)
  }

  /** Distinct templates open distinct detail pages. */
  lemma DetailPathInjective(a: int, b: int)
    requires DetailPath(a) == DetailPath(b)
    ensures a == b
  {
    var prefix := "/templates/";
    assert DetailPath(a)[|prefix|..] == IntToString(a);
    assert DetailPath(b)[|prefix|..] == IntToString(b);
    IntToStringInjective(a, b);
  }

  /** `handleUseTemplate` and `handleViewTemplate`: the callback when present, then the detail page. */
  function Activate(action: CardAction, hasCallback: bool, id: int): (effects: seq<CardEffect>)
    ensures |effects| >= 1 && effects[|effects| - 1] == Navigate(DetailPath(id))
    ensures hasCallback <==> CallBack(action) in effects
    ensures hasCallback ==> effects == [CallBack(action), Navigate(DetailPath(id))]
    ensures !hasCallback ==> effects == [Navigate(DetailPath(id))]
  {
    (if hasCallback then [CallBack(action)] else []) + [Navigate(DetailPath(id))]
  }

  /** Both actions lead to the same page. */
  lemma ActionsAgree(hasUse: bool, hasView: bool, id: int)
    ensures var u := Activate(UseTemplate, hasUse, id); var v := Activate(ViewTemplate, hasView, id);
      u[|u| - 1] == v[|v| - 1]
  {
  }
}
