/**
 * The dropdown autocomplete's view-model: items, group entries and the
 * positioning style the windowing library hands to a row.
 */
module AutoCompleteItems {
  import opened Wrappers

  /** An item's `label`: a literal, or a function of the current search text.
      `source` is the text JavaScript produces when the function is turned
      into a string inside a template literal. */
  datatype Label = Literal(text: string) | Formatter(render: string -> string, source: string)

  /**
   * One entry of the dropdown. An entry is a group exactly when it carries
   * `items` (even an empty list); a synthetic group-label marker is a group
   * whose `groupLabel` is set.
   *   value          `item.value`, as its template-literal text
   *   display        `item.label` (`label` is a Dafny keyword)
   *   searchKey      `item.searchKey`; "" stands for absent (every falsy
   *                  search key behaves the same)
   *   index          `item.index`, absent until the filter numbers the item
   */
  datatype Item = Item(
    value: string,
    display: Label,
    searchKey: string,
    groupLabel: bool,
    hideGroupLabel: bool,
    index: Option<int>,
    items: Option<seq<Item>>)

  /** `${label}` inside a template literal. */
  function LabelText(l: Label): string {
    match l
    case Literal(t) => t
    case Formatter(_, src) => src
  }

  /** JavaScript truthiness of a label: only the empty literal is falsy. */
  predicate LabelTruthy(l: Label) {
    !(l.Literal? && l.text == "")
  }

  predicate IsGroup(e: Item) {
    e.items.Some?
  }

  /** `group.items`, for an entry known to be a group. */
  function Children(g: Item): seq<Item> {
    if g.items.Some? then g.items.value else []
  }

  /** Absolute positioning the windowing library supplies for a visible row. */
  datatype Style = Style(top: int, height: int)
}
