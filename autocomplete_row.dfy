/**
 * The row renderer: one entry of the filtered sequence becomes either a
 * group-label block or a selectable row.
 */
module AutoCompleteRow {
  import opened Wrappers
  import opened AutoCompleteItems

  /** A CSS padding: the multipliers handed to the theme's `space` function,
      or a literal value. */
  datatype Padding = Spaces(multipliers: seq<real>) | Css(text: string)

  /** `getItemPaddingForSize`. */
  function ItemPadding(itemSize: Option<string>): (p: Padding)
    ensures p == Spaces([0.5, 1.0]) <==> itemSize == Some("small")
    ensures p == Css("0") <==> itemSize == Some("zero")
    ensures p == Spaces([1.0]) <==> itemSize != Some("small") && itemSize != Some("zero")
  {
    if itemSize == Some("small") then Spaces([0.5, 1.0])
    else if itemSize == Some("zero") then Css("0")
    else Spaces([1.0])
  }

  /** The props a row receives. `index` is its position in the list; the
      highlight test does not use it. */
  datatype RowProps = RowProps(
    item: Item,
    index: int,
    highlightedIndex: int,
    inputValue: string,
    itemSize: Option<string>,
    style: Option<Style>)

  /** The argument of the caller's `getItemProps`. */
  datatype ItemArgs = ItemArgs(item: Item, index: Option<int>, style: Option<Style>)

  /** What a row shows. A label block shows the group's label as its heading
      when that label is truthy; a selectable row records its padding,
      whether it is highlighted, the `getItemProps` argument that wires it
      up, and its content. */
  datatype RowView =
    | LabelBlock(style: Option<Style>, heading: Option<Label>)
    | Selectable(padding: Padding, highlighted: bool, itemArgs: ItemArgs, content: string)

  /** The text a row shows for a label: the label itself, or a function
      label called with the current search text. */
  function Content(l: Label, inputValue: string): string {
    match l
    case Literal(t) => t
    case Formatter(render, _) => render(inputValue)
  }

  /** `Row`. */
  function RenderRow(p: RowProps): (v: RowView)
    ensures v.LabelBlock? <==> p.item.groupLabel
    ensures v.LabelBlock? ==>
              v.style == p.style
              && (v.heading.Some? <==> LabelTruthy(p.item.display))
              && (v.heading.Some? ==> v.heading.value == p.item.display)
    ensures v.Selectable? ==>
              (v.highlighted <==> p.item.index == Some(p.highlightedIndex))
              && v.itemArgs == ItemArgs(p.item, p.item.index, p.style)
              && v.padding == ItemPadding(p.itemSize)
    ensures v.Selectable? && p.item.display.Literal? ==> v.content == p.item.display.text
    ensures v.Selectable? && p.item.display.Formatter? ==> v.content == p.item.display.render(p.inputValue)
  {
    var item := p.item;
    if item.groupLabel then
      LabelBlock(p.style, if LabelTruthy(item.display) then Some(item.display) else None)
    else
      Selectable(ItemPadding(p.itemSize), item.index == Some(p.highlightedIndex),
                 ItemArgs(item, item.index, p.style), Content(item.display, p.inputValue))
  }

  /** The `index` prop makes no difference to what a row shows. */
  lemma {:induction false} RowIgnoresIndexProp(p: RowProps, other: int)
    ensures RenderRow(p.(index := other)) == RenderRow(p)
  {
  }
}
