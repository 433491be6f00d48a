/**
 * The list renderer: all rows rendered in order, or, when a fixed row height
 * is given, the numbers handed to the windowing library (container height,
 * row count, per-row heights) and the props of each row it asks for.
 * Pixel values are integers; 0 stands for an absent height, which behaves
 * exactly as the falsy value it is.
 */
module AutoCompleteList {
  import opened Wrappers
  import opened AutoCompleteItems
  import opened AutoCompleteRow
  import opened AutoCompleteUtils

  /** The `rowHeight` callback: a label row has the label height when one
      is given, every other row the fixed row height. */
  function RowHeight(items: seq<Item>, virtualizedHeight: int, virtualizedLabelHeight: int, i: nat): int
    requires i < |items|
  {
    if items[i].groupLabel && virtualizedLabelHeight != 0 then virtualizedLabelHeight else virtualizedHeight
  }

  /** `items.reduce((a, r) => a + (r.groupLabel ? labelHeight : rowHeight), acc)`. */
  function ReduceHeights(items: seq<Item>, acc: int, virtualizedHeight: int, virtualizedLabelHeight: int): int
  {
    if items == [] then acc
    else ReduceHeights(items[1..], acc + (if items[0].groupLabel then virtualizedLabelHeight else virtualizedHeight),
                       virtualizedHeight, virtualizedLabelHeight)
  }

  /** The uncapped height `getHeight` computes before `Math.min`. */
  function MinHeight(items: seq<Item>, virtualizedHeight: int, virtualizedLabelHeight: int): int {
    if virtualizedLabelHeight != 0 then ReduceHeights(items, 0, virtualizedHeight, virtualizedLabelHeight)
    else |items| * virtualizedHeight
  }

  /** `getHeight`: the uncapped height, capped at `maxHeight`. */
  function GetHeight(items: seq<Item>, maxHeight: int, virtualizedHeight: int, virtualizedLabelHeight: int): (h: int)
    ensures h <= maxHeight && h <= MinHeight(items, virtualizedHeight, virtualizedLabelHeight)
    ensures h == maxHeight || h == MinHeight(items, virtualizedHeight, virtualizedLabelHeight)
  {
    var uncapped := MinHeight(items, virtualizedHeight, virtualizedLabelHeight);
    if uncapped < maxHeight then uncapped else maxHeight
  }

  /** `RowHeight(0) + ... + RowHeight(n - 1)`. */
  function SumRowHeights(items: seq<Item>, virtualizedHeight: int, virtualizedLabelHeight: int, n: nat): int
    requires n <= |items|
  {
    if n == 0 then 0
    else SumRowHeights(items, virtualizedHeight, virtualizedLabelHeight, n - 1)
         + RowHeight(items, virtualizedHeight, virtualizedLabelHeight, n - 1)
  }

  function Sum(s: seq<int>): int {
    if s == [] then 0 else s[0] + Sum(s[1..])
  }

  /** Number of group-label entries. */
  function CountLabels(items: seq<Item>): nat {
    if items == [] then 0 else (if items[0].groupLabel then 1 else 0) + CountLabels(items[1..])
  }

  lemma {:induction false} ReduceShift(items: seq<Item>, acc: int, vh: int, vlh: int)
    ensures ReduceHeights(items, acc, vh, vlh) == acc + ReduceHeights(items, 0, vh, vlh)
  {
    if items != [] {
      var step := if items[0].groupLabel then vlh else vh;
      ReduceShift(items[1..], acc + step, vh, vlh);
      ReduceShift(items[1..], step, vh, vlh);
    }
  }

  /** With a label height, the fold adds the label height once per label
      entry and the row height once per other entry. */
  lemma {:induction false} ReduceCounts(items: seq<Item>, vh: int, vlh: int)
    ensures ReduceHeights(items, 0, vh, vlh) == CountLabels(items) * vlh + (|items| - CountLabels(items)) * vh
  {
    if items != [] {
      var step := if items[0].groupLabel then vlh else vh;
      ReduceShift(items[1..], step, vh, vlh);
      ReduceCounts(items[1..], vh, vlh);
      var c := CountLabels(items[1..]);
      var m := |items| - 1;
      if items[0].groupLabel {
        assert (c + 1) * vlh == c * vlh + vlh;
      } else {
        assert (m + 1 - c) * vh == (m - c) * vh + vh;
      }
    }
  }

  /** Summing the `rowHeight` callback over every row gives exactly the
      uncapped height: the container is as tall as its rows, up to the cap. */
  lemma {:induction false} RowHeightsSumToMinHeight(items: seq<Item>, vh: int, vlh: int)
    ensures SumRowHeights(items, vh, vlh, |items|) == MinHeight(items, vh, vlh)
  {
    if vlh != 0 {
      PrefixSum(items, vh, vlh, |items|);
      assert items[..|items|] == items;
    } else {
      AllRowsFixed(items, vh, vlh, |items|);
    }
  }

  /** Folding over the first `n` entries adds up their row heights. */
  lemma {:induction false} PrefixSum(items: seq<Item>, vh: int, vlh: int, n: nat)
    requires vlh != 0 && n <= |items|
    ensures ReduceHeights(items[..n], 0, vh, vlh) == SumRowHeights(items, vh, vlh, n)
  {
    if n > 0 {
      PrefixSum(items, vh, vlh, n - 1);
      ReduceSnoc(items[..n - 1], items[n - 1], 0, vh, vlh);
      assert items[..n] == items[..n - 1] + [items[n - 1]];
    }
  }

  lemma {:induction false} ReduceSnoc(items: seq<Item>, last: Item, acc: int, vh: int, vlh: int)
    ensures ReduceHeights(items + [last], acc, vh, vlh)
            == ReduceHeights(items, acc, vh, vlh) + (if last.groupLabel then vlh else vh)
  {
    if items == [] {
      assert [] + [last] == [last];
      assert [last][1..] == [];
    } else {
      assert (items + [last])[1..] == items[1..] + [last];
      ReduceSnoc(items[1..], last, acc + (if items[0].groupLabel then vlh else vh), vh, vlh);
    }
  }

  /** Without a label height every row has the fixed height. */
  lemma {:induction false} AllRowsFixed(items: seq<Item>, vh: int, vlh: int, n: nat)
    requires vlh == 0 && n <= |items|
    ensures SumRowHeights(items, vh, vlh, n) == n * vh
  {
    if n > 0 {
      AllRowsFixed(items, vh, vlh, n - 1);
      assert n * vh == (n - 1) * vh + vh;
    }
  }

  /** What `List` hands on: in windowed mode the container height, the row
      count and the `rowHeight` callback's value for every row; otherwise
      the props of every row, in order. */
  datatype ListView =
    | Windowed(height: int, rowCount: nat, rowHeights: seq<int>)
    | Full(rows: seq<RowProps>)

  /** `List`. */
  function RenderList(items: seq<Item>, maxHeight: int, highlightedIndex: int, inputValue: string,
                      itemSize: Option<string>, virtualizedHeight: int, virtualizedLabelHeight: int): (v: ListView)
    ensures v.Windowed? <==> virtualizedHeight != 0
    ensures v.Windowed? ==>
              v.rowCount == |items| && |v.rowHeights| == |items|
              && v.height == GetHeight(items, maxHeight, virtualizedHeight, virtualizedLabelHeight)
              && forall i :: 0 <= i < |items| ==>
                   v.rowHeights[i] == RowHeight(items, virtualizedHeight, virtualizedLabelHeight, i)
    ensures v.Full? ==>
              |v.rows| == |items|
              && forall k :: 0 <= k < |items| ==>
                   v.rows[k] == RowProps(items[k], k, highlightedIndex, inputValue, itemSize, None)
  {
    if virtualizedHeight != 0 then
      Windowed(GetHeight(items, maxHeight, virtualizedHeight, virtualizedLabelHeight), |items|,
               seq(|items|, i requires 0 <= i < |items| => RowHeight(items, virtualizedHeight, virtualizedLabelHeight, i)))
    else
      Full(seq(|items|, k requires 0 <= k < |items| =>
                 RowProps(items[k], k, highlightedIndex, inputValue, itemSize, None)))
  }

  /** The `rowRenderer` callback: the props of the row the windowing library
      asks for at `index`, with the style it supplies. */
  function VisibleRow(items: seq<Item>, index: nat, style: Style, highlightedIndex: int, inputValue: string,
                      itemSize: Option<string>): (p: RowProps)
    requires index < |items|
    ensures p.item == items[index] && p.index == index && p.style == Some(style)
    ensures p.highlightedIndex == highlightedIndex && p.inputValue == inputValue && p.itemSize == itemSize
  {
    RowProps(items[index], index, highlightedIndex, inputValue, itemSize, Some(style))
  }

  lemma {:induction false} SumPrefix(s: seq<int>, items: seq<Item>, vh: int, vlh: int, n: nat)
    requires n <= |s| == |items|
    requires forall i :: 0 <= i < |items| ==> s[i] == RowHeight(items, vh, vlh, i)
    ensures Sum(s[..n]) == SumRowHeights(items, vh, vlh, n)
  {
    if n > 0 {
      SumPrefix(s, items, vh, vlh, n - 1);
      SumSnoc(s[..n - 1], s[n - 1]);
      assert s[..n] == s[..n - 1] + [s[n - 1]];
    }
  }

  lemma {:induction false} SumSnoc(s: seq<int>, x: int)
    ensures Sum(s + [x]) == Sum(s) + x
  {
    if s == [] {
      assert [] + [x] == [x];
    } else {
      assert (s + [x])[1..] == s[1..] + [x];
      SumSnoc(s[1..], x);
    }
  }

  /** In windowed mode the container is as tall as the rows the library will
      lay out, capped at `maxHeight`. */
  lemma {:induction false} WindowedHeightIsCappedRowSum(items: seq<Item>, maxHeight: int, highlightedIndex: int, inputValue: string,
                                     itemSize: Option<string>, vh: int, vlh: int)
    requires vh != 0
    ensures var v := RenderList(items, maxHeight, highlightedIndex, inputValue, itemSize, vh, vlh);
            v.height == (if Sum(v.rowHeights) < maxHeight then Sum(v.rowHeights) else maxHeight)
  {
    var v := RenderList(items, maxHeight, highlightedIndex, inputValue, itemSize, vh, vlh);
    SumPrefix(v.rowHeights, items, vh, vlh, |items|);
    assert v.rowHeights[..|items|] == v.rowHeights;
    RowHeightsSumToMinHeight(items, vh, vlh);
  }

  /** A row that is shown highlighted. */
  predicate Highlighted(v: RowView) {
    v.Selectable? && v.highlighted
  }

  /** How many non-marker entries come before entry `k`. */
  function Rank(r: seq<Item>, k: nat): nat
    requires k <= |r|
  {
    |Unlabelled(r[..k])|
  }

  lemma {:induction false} UnlabelledCons(r: seq<Item>)
    requires r != [] && !r[0].groupLabel
    ensures Unlabelled(r) == [r[0]] + Unlabelled(r[1..])
  {
  }

  /** A non-marker entry sits in the non-marker subsequence at its rank. */
  lemma {:induction false} UnlabelledAt(r: seq<Item>, k: nat)
    requires k < |r| && !r[k].groupLabel
    ensures Rank(r, k) < |Unlabelled(r)| && Unlabelled(r)[Rank(r, k)] == r[k]
  {
    assert r == r[..k] + r[k..];
    UnlabelledAppend(r[..k], r[k..]);
    UnlabelledCons(r[k..]);
  }

  /** Later non-marker entries have larger ranks. */
  lemma {:induction false} RankIncreasing(r: seq<Item>, k1: nat, k2: nat)
    requires k1 < k2 <= |r| && !r[k1].groupLabel
    ensures Rank(r, k1) < Rank(r, k2)
  {
    assert r[..k2] == r[..k1] + r[k1..k2];
    UnlabelledAppend(r[..k1], r[k1..k2]);
    UnlabelledCons(r[k1..k2]);
  }

  /** Every non-marker entry comes from some position of the sequence. */
  lemma {:induction false} UnlabelledFrom(r: seq<Item>, p: nat)
    requires p < |Unlabelled(r)|
    ensures exists k :: 0 <= k < |r| && !r[k].groupLabel && r[k] == Unlabelled(r)[p]
  {
    if r[0].groupLabel {
      UnlabelledFrom(r[1..], p);
      var k :| 0 <= k < |r[1..]| && !r[1..][k].groupLabel && r[1..][k] == Unlabelled(r[1..])[p];
      assert r[k + 1] == r[1..][k];
    } else if p > 0 {
      UnlabelledCons(r);
      UnlabelledFrom(r[1..], p - 1);
      var k :| 0 <= k < |r[1..]| && !r[1..][k].groupLabel && r[1..][k] == Unlabelled(r[1..])[p - 1];
      assert r[k + 1] == r[1..][k];
    } else {
      UnlabelledCons(r);
    }
  }

  /** When the non-marker entries are numbered 0, ..., n - 1 in order, index
      `h` belongs to at most one of them, and to one iff `0 <= h < n`. */
  lemma {:induction false} IndexOwner(r: seq<Item>, n: nat, h: int)
    requires Indices(Unlabelled(r)) == Range(0, n)
    ensures forall k1, k2 ::
              (0 <= k1 < |r| && 0 <= k2 < |r| && !r[k1].groupLabel && !r[k2].groupLabel
               && r[k1].index == Some(h) && r[k2].index == Some(h)) ==> k1 == k2
    ensures (0 <= h < n) <==> exists k :: 0 <= k < |r| && !r[k].groupLabel && r[k].index == Some(h)
  {
    var u := Unlabelled(r);
    assert |u| == n;
    forall k | 0 <= k < |r| && !r[k].groupLabel
      ensures r[k].index == Some(Rank(r, k))
    {
      UnlabelledAt(r, k);
      assert Indices(u)[Rank(r, k)] == u[Rank(r, k)].index;
    }
    forall k1, k2 | 0 <= k1 < |r| && 0 <= k2 < |r| && !r[k1].groupLabel && !r[k2].groupLabel
                    && r[k1].index == Some(h) && r[k2].index == Some(h)
      ensures k1 == k2
    {
      if k1 < k2 {
        RankIncreasing(r, k1, k2);
      } else if k2 < k1 {
        RankIncreasing(r, k2, k1);
      }
    }
    if 0 <= h < n {
      UnlabelledFrom(r, h);
      var k :| 0 <= k < |r| && !r[k].groupLabel && r[k] == u[h];
      assert Indices(u)[h] == u[h].index;
    }
    forall k | 0 <= k < |r| && !r[k].groupLabel && r[k].index == Some(h)
      ensures 0 <= h < n
    {
      UnlabelledAt(r, k);
    }
  }

  /** Rendering every row of such a sequence highlights at most one row, and
      one exactly when the highlighted index is below the item count. */
  lemma {:induction false} FullListHighlight(items: seq<Item>, n: nat, maxHeight: int, h: int, inputValue: string,
                          itemSize: Option<string>, vlh: int)
    requires Indices(Unlabelled(items)) == Range(0, n)
    ensures var v := RenderList(items, maxHeight, h, inputValue, itemSize, 0, vlh);
            (forall k1, k2 ::
               (0 <= k1 < |v.rows| && 0 <= k2 < |v.rows|
                && Highlighted(RenderRow(v.rows[k1])) && Highlighted(RenderRow(v.rows[k2]))) ==> k1 == k2)
            && ((0 <= h < n) <==> exists k :: 0 <= k < |v.rows| && Highlighted(RenderRow(v.rows[k])))
  {
    var v := RenderList(items, maxHeight, h, inputValue, itemSize, 0, vlh);
    IndexOwner(items, n, h);
    forall k | 0 <= k < |v.rows|
      ensures Highlighted(RenderRow(v.rows[k])) <==> !items[k].groupLabel && items[k].index == Some(h)
    {
      assert v.rows[k].item == items[k];
    }
  }

  /** The row the windowing library asks for at `index` is the row full
      mode renders at that position, with the style the library supplies. */
  lemma {:induction false} VisibleRowIsListRow(items: seq<Item>, index: nat, style: Style, maxHeight: int,
                                               highlightedIndex: int, inputValue: string,
                                               itemSize: Option<string>, vlh: int)
    requires index < |items|
    ensures var full := RenderList(items, maxHeight, highlightedIndex, inputValue, itemSize, 0, vlh);
            VisibleRow(items, index, style, highlightedIndex, inputValue, itemSize)
            == full.rows[index].(style := Some(style))
  {
  }

  /** In windowed mode, over whatever styles the library supplies, at most
      one visible row is highlighted, and one exactly when the highlighted
      index is below the item count. */
  lemma {:induction false} WindowedListHighlight(items: seq<Item>, n: nat, styles: seq<Style>, h: int,
                                                 inputValue: string, itemSize: Option<string>)
    requires Indices(Unlabelled(items)) == Range(0, n)
    requires |styles| == |items|
    ensures forall k1, k2 ::
              (0 <= k1 < |items| && 0 <= k2 < |items|
               && Highlighted(RenderRow(VisibleRow(items, k1, styles[k1], h, inputValue, itemSize)))
               && Highlighted(RenderRow(VisibleRow(items, k2, styles[k2], h, inputValue, itemSize)))) ==> k1 == k2
    ensures (0 <= h < n)
            <==> exists k :: 0 <= k < |items|
                             && Highlighted(RenderRow(VisibleRow(items, k, styles[k], h, inputValue, itemSize)))
  {
    IndexOwner(items, n, h);
    forall k | 0 <= k < |items|
      ensures Highlighted(RenderRow(VisibleRow(items, k, styles[k], h, inputValue, itemSize)))
              <==> !items[k].groupLabel && items[k].index == Some(h)
    {
      assert VisibleRow(items, k, styles[k], h, inputValue, itemSize).item == items[k];
    }
  }

  /** The filter's output, rendered in full, highlights at most one row, and
      one exactly when the highlighted index is below the number of
      surviving items: the numbering `autoCompleteFilter` produces is what
      the rows' highlight test relies on. */
  lemma {:induction false} FilteredListHighlight(entries: seq<Item>, query: string, maxHeight: int, h: int, inputValue: string,
                              itemSize: Option<string>, vlh: int)
    requires WellShaped(Some(entries))
    requires Grouped(entries) ==> NoNestedLabels(entries)
    requires !Grouped(entries) ==> forall k :: 0 <= k < |entries| ==> !entries[k].groupLabel
    ensures var items := AutoCompleteResult(Some(entries), query);
            var n := if Grouped(entries) then TotalItems(FilterGroupedItems(entries, query))
                     else |FilterItems(entries, query)|;
            var v := RenderList(items, maxHeight, h, inputValue, itemSize, 0, vlh);
            (forall k1, k2 ::
               (0 <= k1 < |v.rows| && 0 <= k2 < |v.rows|
                && Highlighted(RenderRow(v.rows[k1])) && Highlighted(RenderRow(v.rows[k2]))) ==> k1 == k2)
            && ((0 <= h < n) <==> exists k :: 0 <= k < |v.rows| && Highlighted(RenderRow(v.rows[k])))
  {
    var items := AutoCompleteResult(Some(entries), query);
    if Grouped(entries) {
      GroupedResultIndices(entries, query);
      FullListHighlight(items, TotalItems(FilterGroupedItems(entries, query)), maxHeight, h, inputValue, itemSize, vlh);
    } else {
      var kept := FilterItems(entries, query);
      assert items == Numbered(kept, 0);
      FilterItemsMembers(entries, query);
      forall t | 0 <= t < |items|
        ensures !items[t].groupLabel
      {
        assert kept[t] in entries;
      }
      UnlabelledPlain(items);
      assert Indices(items) == Range(0, |kept|);
      FullListHighlight(items, |kept|, maxHeight, h, inputValue, itemSize, vlh);
    }
  }
}
