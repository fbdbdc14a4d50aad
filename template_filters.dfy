/**
 * The template filter bar. Each control hands the listing a copy of the
 * filters in which one field is replaced: by the chosen value, or by an
 * explicit `undefined` when the choice is `''`. The debounced search does the
 * same with the latest filters and the search text; deleting a chip clears its
 * field. The search box's own state, the refs and the debounce timer are not
 * modelled; the debounced call is modelled by the update it emits.
 */
module TemplateFilterBar {
  import opened JsValues
  import opened TemplateTypes

  /** `value || undefined` for a text choice: `''` becomes an explicit `undefined`. */
  function FromChoice(value: string): (s: Slot<string>)
    ensures s != NoKey
    ensures Read(s) == if value == "" then None else Some(value)
  {
    Assign(if value == "" then None else Some(value))
  }

  /** `filters.x || ''`: what a select shows for a text filter. */
  function Shown(s: Slot<string>): string
  {
    if s.Has? then s.value else ""
  }

  /** `handleCategoryChange`. */
  function CategoryChange(f: TemplateFilters, category: string): (g: TemplateFilters)
    ensures Read(g.category) == (if category == "" then None else Some(category)) && g.category != NoKey
    ensures g.(category := f.category) == f
  {
    f.(category := FromChoice(category))
  }

  /** `handleVisibilityChange`; `None` is the "All" entry, `''`. */
  function VisibilityChange(f: TemplateFilters, visibility: Option<Visibility>): (g: TemplateFilters)
    ensures Read(g.visibility) == visibility && g.visibility != NoKey
    ensures g.(visibility := f.visibility) == f
  {
    f.(visibility := Assign(visibility))
  }

  /** `handleTagChange`. */
  function TagChange(f: TemplateFilters, tag: string): (g: TemplateFilters)
    ensures Read(g.tag) == (if tag == "" then None else Some(tag)) && g.tag != NoKey
    ensures g.(tag := f.tag) == f
  {
    f.(tag := FromChoice(tag))
  }

  /** `handleOwnerChange`. */
  function OwnerChange(f: TemplateFilters, owner: string): (g: TemplateFilters)
    ensures Read(g.owner) == (if owner == "" then None else Some(owner)) && g.owner != NoKey
    ensures g.(owner := f.owner) == f
  {
    f.(owner := FromChoice(owner))
  }

  /** The debounced search: the latest filters with `search` set to the text, or `undefined` for `''`. */
  function DebouncedSearch(latest: TemplateFilters, text: string): (g: TemplateFilters)
    ensures Read(g.search) == (if text == "" then None else Some(text)) && g.search != NoKey
    ensures g.(search := latest.search) == latest
  {
    latest.(search := FromChoice(text))
  }

  /** The chips shown for the active search, category, visibility and tag. */
  datatype Chip = SearchChip | CategoryChip | VisibilityChip | TagChip

  /** Whether a chip is shown: its field is truthy (a visibility always is). */
  predicate ChipShown(f: TemplateFilters, chip: Chip)
  {
    match chip
    case SearchChip => f.search.Has? && f.search.value != ""
    case CategoryChip => f.category.Has? && f.category.value != ""
    case VisibilityChip => f.visibility.Has?
    case TagChip => f.tag.Has? && f.tag.value != ""
  }

  /** The caption of a chip. */
  function ChipCaption(f: TemplateFilters, chip: Chip): string
  {
    match chip
    case SearchChip => "Search: " + Shown(f.search)
    case CategoryChip => "Category: " + Shown(f.category)
    case VisibilityChip => "Visibility: " + (if f.visibility.Has? then VisibilityName(f.visibility.value) else "")
    case TagChip => "Tag: " + Shown(f.tag)
  }

  /**
   * A chip's `onDelete`: the search chip sets `search: undefined` itself;
   * the others call their field's handler with `''`.
   */
  function DeleteChip(f: TemplateFilters, chip: Chip): (g: TemplateFilters)
    ensures !ChipShown(g, chip)
    ensures forall other: Chip :: other != chip ==> (ChipShown(g, other) <==> ChipShown(f, other))
  {
    match chip
    case SearchChip => f.(search := UndefinedKey)
    case CategoryChip => CategoryChange(f, "")
    case VisibilityChip => VisibilityChange(f, None)
    case TagChip => TagChange(f, "")
  }

  /** Deleting any chip clears that one field and leaves the key in place, as the handler given `''` does. */
  lemma DeleteChipClears(f: TemplateFilters)
    ensures DeleteChip(f, SearchChip) == f.(search := UndefinedKey) == DebouncedSearch(f, "")
    ensures DeleteChip(f, CategoryChip) == f.(category := UndefinedKey)
    ensures DeleteChip(f, VisibilityChip) == f.(visibility := UndefinedKey)
    ensures DeleteChip(f, TagChip) == f.(tag := UndefinedKey)
  {
  }

  /** Emptying the search box after deleting its chip makes the debounced search emit the same filters again. */
  lemma DeletedSearchStaysDeleted(f: TemplateFilters)
    ensures DebouncedSearch(DeleteChip(f, SearchChip), "") == DeleteChip(f, SearchChip)
  {
  }

  /** A select shows the value just chosen in it. */
  lemma SelectShowsChoice(f: TemplateFilters, value: string)
    ensures Shown(CategoryChange(f, value).category) == value
    ensures Shown(TagChange(f, value).tag) == value
    ensures Shown(OwnerChange(f, value).owner) == value
    ensures Shown(DebouncedSearch(f, value).search) == value
  {
  }

  /** For a field, the last choice wins, and choosing twice is choosing once. */
  lemma LastChoiceWins(f: TemplateFilters, first: string, second: string)
    ensures CategoryChange(CategoryChange(f, first), second) == CategoryChange(f, second)
    ensures TagChange(TagChange(f, first), second) == TagChange(f, second)
    ensures OwnerChange(OwnerChange(f, first), second) == OwnerChange(f, second)
    ensures DebouncedSearch(DebouncedSearch(f, first), second) == DebouncedSearch(f, second)
  {
  }

  /** Changes to different fields do not interfere: their order does not matter. */
  lemma ChangesCommute(f: TemplateFilters, category: string, tag: string, v: Option<Visibility>, owner: string)
    ensures CategoryChange(TagChange(f, tag), category) == TagChange(CategoryChange(f, category), tag)
    ensures CategoryChange(VisibilityChange(f, v), category) == VisibilityChange(CategoryChange(f, category), v)
    ensures TagChange(OwnerChange(f, owner), tag) == OwnerChange(TagChange(f, tag), owner)
  {
  }

  /** A change adds the field's key when it was missing, and never removes one, even when it clears the field. */
  lemma ChangeKeyCount(f: TemplateFilters, value: string)
    ensures KeyCount(CategoryChange(f, value)) == KeyCount(f) + (if f.category == NoKey then 1 else 0)
    ensures KeyCount(TagChange(f, value)) == KeyCount(f) + (if f.tag == NoKey then 1 else 0)
    ensures KeyCount(OwnerChange(f, value)) == KeyCount(f) + (if f.owner == NoKey then 1 else 0)
    ensures KeyCount(DebouncedSearch(f, value)) == KeyCount(f) + (if f.search == NoKey then 1 else 0)
  {
  }
}
