/**
 * The autocomplete filter: a case-insensitive substring filter over flat
 * item lists, the same filter applied per group, and the dispatcher that
 * flattens filtered groups into one numbered sequence.
 */
module AutoCompleteUtils {
  import opened Wrappers
  import opened Text
  import opened AutoCompleteItems
  import opened Seqs

  /** The text an item is searched by: its search key, or else
      value, a space and label. */
  function SearchText(item: Item): string {
    if item.searchKey != "" then item.searchKey else item.value + " " + LabelText(item.display)
  }

  /** The filter's test: the lower-cased query occurs in the lower-cased
      search text (an `indexOf` above -1). */
  predicate Matches(item: Item, query: string) {
    IndexOf(Lower(SearchText(item)), Lower(query), 0) > -1
  }

  /** `a` is `b` with some elements left out, the rest in their order. */
  ghost predicate Subsequence<T>(a: seq<T>, b: seq<T>) {
    if a == [] then true
    else if b == [] then false
    else if a[0] == b[0] then Subsequence(a[1..], b[1..])
    else Subsequence(a, b[1..])
  }

  /** `filterItems`: the items that match the query, in their order. */
  function FilterItems(items: seq<Item>, query: string): (r: seq<Item>)
    ensures |r| <= |items|
    ensures forall k :: 0 <= k < |r| ==> Matches(r[k], query)
  {
    if items == [] then []
    else if Matches(items[0], query) then [items[0]] + FilterItems(items[1..], query)
    else FilterItems(items[1..], query)
  }

  /** An item survives the filter iff it is one of the items and matches. */
  lemma {:induction false} FilterItemsMembers(items: seq<Item>, query: string)
    ensures forall x :: x in FilterItems(items, query) <==> x in items && Matches(x, query)
  {
    if items != [] {
      FilterItemsMembers(items[1..], query);
      assert items == [items[0]] + items[1..];
    }
  }

  /** The filter keeps the survivors in their original relative order. */
  lemma {:induction false} FilterItemsKeepsOrder(items: seq<Item>, query: string)
    ensures Subsequence(FilterItems(items, query), items)
  {
    if items != [] {
      FilterItemsKeepsOrder(items[1..], query);
      var rest := FilterItems(items[1..], query);
      if !Matches(items[0], query) {
        SubsequenceOfTail(rest, items);
      }
    }
  }

  lemma {:induction false} SubsequenceOfTail<T>(a: seq<T>, b: seq<T>)
    requires b != [] && Subsequence(a, b[1..])
    ensures Subsequence(a, b)
  {
    if a != [] && a[0] == b[0] {
      assert b[1..] != [];
      if a[0] == b[1] {
        SubsequenceOfTail(a[1..], b[1..]);
      } else {
        assert Subsequence(a, b[1..][1..]);
        SubsequenceDropHead(a, b[1..][1..]);
        assert Subsequence(a[1..], b[1..][1..]);
        SubsequenceOfTail(a[1..], b[1..]);
      }
    }
  }

  lemma {:induction false} SubsequenceDropHead<T>(a: seq<T>, b: seq<T>)
    requires a != [] && Subsequence(a, b)
    ensures Subsequence(a[1..], b)
  {
    if b != [] {
      if a[0] == b[0] {
        SubsequenceOfTail(a[1..], b);
      } else {
        SubsequenceDropHead(a, b[1..]);
        SubsequenceOfTail(a[1..], b);
      }
    }
  }

  /** The empty query keeps every item, as does any query that lower-cases
      to the empty string. */
  lemma {:induction false} EmptyQueryKeepsAll(items: seq<Item>)
    ensures FilterItems(items, "") == items
  {
    if items != [] {
      IndexOfFindsSubstring(Lower(SearchText(items[0])), "");
      EmptyQueryKeepsAll(items[1..]);
    }
  }

  /** An item passes the filter iff the lower-cased query is a substring of
      its lower-cased search text; with no search key that text is value,
      space, label. */
  lemma {:induction false} MatchesIsSubstring(item: Item, query: string)
    ensures Matches(item, query) <==> exists i :: OccursAt(Lower(SearchText(item)), Lower(query), i)
    ensures item.searchKey == "" ==> SearchText(item) == item.value + " " + LabelText(item.display)
  {
    IndexOfFindsSubstring(Lower(SearchText(item)), Lower(query));
  }

  /** Every entry is a group: what grouped input must look like, since
      `filterGroupedItems` reads `items` of every entry. */
  predicate AllGroups(entries: seq<Item>) {
    forall k :: 0 <= k < |entries| ==> IsGroup(entries[k])
  }

  /** A group with its items replaced by the filtered ones, every other field kept. */
  function Refiltered(g: Item, query: string): Item {
    g.(items := Some(FilterItems(Children(g), query)))
  }

  ghost function RefilteredAll(groups: seq<Item>, query: string): seq<Item> {
    seq(|groups|, k requires 0 <= k < |groups| => Refiltered(groups[k], query))
  }

  /** `filterGroupedItems`: each group refiltered, the groups left empty dropped. */
  function FilterGroupedItems(groups: seq<Item>, query: string): (r: seq<Item>)
    requires AllGroups(groups)
    ensures |r| <= |groups|
    ensures forall k :: 0 <= k < |r| ==> IsGroup(r[k]) && |Children(r[k])| > 0
  {
    if groups == [] then []
    else
      var g := Refiltered(groups[0], query);
      var rest := FilterGroupedItems(groups[1..], query);
      if |Children(g)| > 0 then [g] + rest else rest
  }

  /** Every input group with a match survives. */
  lemma {:induction false} FilterGroupedItemsKeepsMatches(groups: seq<Item>, query: string, j: nat)
    requires AllGroups(groups)
    requires j < |groups| && |FilterItems(Children(groups[j]), query)| > 0
    ensures Refiltered(groups[j], query) in FilterGroupedItems(groups, query)
  {
    if j > 0 {
      FilterGroupedItemsKeepsMatches(groups[1..], query, j - 1);
      assert groups[1..][j - 1] == groups[j];
    }
  }

  /** The surviving groups keep their original order. */
  lemma {:induction false} FilterGroupedItemsKeepsOrder(groups: seq<Item>, query: string)
    requires AllGroups(groups)
    ensures Subsequence(FilterGroupedItems(groups, query), RefilteredAll(groups, query))
  {
    if groups != [] {
      FilterGroupedItemsKeepsOrder(groups[1..], query);
      var all := RefilteredAll(groups, query);
      assert all[1..] == RefilteredAll(groups[1..], query);
      var g := Refiltered(groups[0], query);
      if |Children(g)| == 0 {
        SubsequenceOfTail(FilterGroupedItems(groups[1..], query), all);
      }
    }
  }

  /** Filtering keeps every matching item as often as it occurs, and no
      other item. */
  lemma {:induction false} FilterItemsCounts(items: seq<Item>, query: string)
    ensures forall x :: multiset(FilterItems(items, query))[x]
                        == if Matches(x, query) then multiset(items)[x] else 0
  {
    if items != [] {
      FilterItemsCounts(items[1..], query);
      assert items == [items[0]] + items[1..];
    }
  }

  /** The surviving groups are the refiltered groups with items, each as
      often as it occurs among them, and nothing else. */
  lemma {:induction false} FilterGroupedItemsCounts(groups: seq<Item>, query: string)
    requires AllGroups(groups)
    ensures forall g :: multiset(FilterGroupedItems(groups, query))[g]
                        == if |Children(g)| > 0 then multiset(RefilteredAll(groups, query))[g] else 0
  {
    if groups != [] {
      FilterGroupedItemsCounts(groups[1..], query);
      RefilteredAllCons(groups, query);
    }
  }

  lemma {:induction false} RefilteredAllCons(groups: seq<Item>, query: string)
    requires groups != []
    ensures multiset(RefilteredAll(groups, query))
            == multiset{Refiltered(groups[0], query)} + multiset(RefilteredAll(groups[1..], query))
  {
    var all := RefilteredAll(groups, query);
    var rest := RefilteredAll(groups[1..], query);
    assert all[1..] == rest;
    assert all == [all[0]] + all[1..];
  }

  /** The items with `index` set to `start`, `start + 1`, ... */
  function Numbered(items: seq<Item>, start: int): seq<Item> {
    seq(|items|, k requires 0 <= k < |items| => items[k].(index := Some(start + k)))
  }

  /** What one filtered group contributes: its label marker unless the label
      is hidden, then its items numbered from `start`. */
  function Block(g: Item, start: int): seq<Item> {
    (if g.hideGroupLabel then [] else [g.(groupLabel := true)]) + Numbered(Children(g), start)
  }

  /** How far a group advances the item counter: its number of items. */
  function GroupSize(g: Item): nat {
    |Children(g)|
  }

  /** The blocks of the groups, the item counter running on across groups. */
  function FlattenGroups(groups: seq<Item>, start: int): seq<Item> {
    FlatMapCounted(Block, GroupSize, groups, start)
  }

  /** Number of items over all groups. */
  function TotalItems(groups: seq<Item>): nat {
    Total(GroupSize, groups)
  }

  /** Number of groups whose label is shown. */
  function ShownLabels(groups: seq<Item>): nat {
    if groups == [] then 0 else (if groups[0].hideGroupLabel then 0 else 1) + ShownLabels(groups[1..])
  }

  /** The entries that are not group-label markers, in order. */
  function Unlabelled(entries: seq<Item>): seq<Item> {
    if entries == [] then []
    else (if entries[0].groupLabel then [] else [entries[0]]) + Unlabelled(entries[1..])
  }

  /** The `index` fields of the entries, in order. */
  function Indices(entries: seq<Item>): seq<Option<int>> {
    seq(|entries|, k requires 0 <= k < |entries| => entries[k].index)
  }

  /** `start`, `start + 1`, ..., `start + n - 1`, as present indices. */
  function Range(start: int, n: nat): seq<Option<int>> {
    seq(n, k requires 0 <= k < n => Some(start + k))
  }

  /** No member of any group is itself marked as a group label. */
  predicate NoNestedLabels(groups: seq<Item>) {
    forall k, t :: 0 <= k < |groups| && 0 <= t < |Children(groups[k])| ==> !Children(groups[k])[t].groupLabel
  }

  /** One label marker per shown group plus every item. */
  lemma {:induction false} FlattenLength(groups: seq<Item>, start: int)
    ensures |FlattenGroups(groups, start)| == TotalItems(groups) + ShownLabels(groups)
  {
    if groups != [] {
      FlattenLength(groups[1..], start + |Children(groups[0])|);
    }
  }

  lemma {:induction false} UnlabelledAppend(a: seq<Item>, b: seq<Item>)
    ensures Unlabelled(a + b) == Unlabelled(a) + Unlabelled(b)
  {
    if a == [] {
      assert a + b == b;
    } else {
      assert (a + b)[0] == a[0] && (a + b)[1..] == a[1..] + b;
      UnlabelledAppend(a[1..], b);
    }
  }

  lemma {:induction false} UnlabelledPlain(items: seq<Item>)
    requires forall t :: 0 <= t < |items| ==> !items[t].groupLabel
    ensures Unlabelled(items) == items
  {
    if items != [] {
      UnlabelledPlain(items[1..]);
    }
  }

  /** A block without its marker is just the numbered items. */
  lemma {:induction false} BlockUnlabelled(g: Item, start: int)
    requires forall t :: 0 <= t < |Children(g)| ==> !Children(g)[t].groupLabel
    ensures Unlabelled(Block(g, start)) == Numbered(Children(g), start)
  {
    var marker: seq<Item> := if g.hideGroupLabel then [] else [g.(groupLabel := true)];
    var numbered := Numbered(Children(g), start);
    assert Block(g, start) == marker + numbered;
    UnlabelledAppend(marker, numbered);
    forall t | 0 <= t < |numbered|
      ensures !numbered[t].groupLabel
    {
      assert numbered[t].groupLabel == Children(g)[t].groupLabel;
    }
    UnlabelledPlain(numbered);
    if !g.hideGroupLabel {
      assert Unlabelled(marker) == [] + Unlabelled(marker[1..]);
    }
  }

  lemma {:induction false} IndicesAppend(a: seq<Item>, b: seq<Item>)
    ensures Indices(a + b) == Indices(a) + Indices(b)
  {
  }

  lemma {:induction false} RangeAppend(start: int, m: nat, n: nat)
    ensures Range(start, m) + Range(start + m, n) == Range(start, m + n)
  {
  }

  lemma {:induction false} NoNestedLabelsTail(groups: seq<Item>)
    requires groups != [] && NoNestedLabels(groups)
    ensures NoNestedLabels(groups[1..])
    ensures forall t :: 0 <= t < |Children(groups[0])| ==> !Children(groups[0])[t].groupLabel
  {
    var tail := groups[1..];
    forall k, t | 0 <= k < |tail| && 0 <= t < |Children(tail[k])|
      ensures !Children(tail[k])[t].groupLabel
    {
      assert tail[k] == groups[k + 1];
    }
  }

  /** Read in order, the indices of the non-marker entries are exactly
      `start`, ..., `start + TotalItems(groups) - 1`: the counter is shared by
      all groups and the markers take no index. */
  lemma {:induction false} FlattenIndices(groups: seq<Item>, start: int)
    requires NoNestedLabels(groups)
    ensures Indices(Unlabelled(FlattenGroups(groups, start))) == Range(start, TotalItems(groups))
  {
    if groups != [] {
      var g := groups[0];
      var n := |Children(g)|;
      var tail := groups[1..];
      NoNestedLabelsTail(groups);
      FlattenIndices(tail, start + n);
      BlockUnlabelled(g, start);
      UnlabelledAppend(Block(g, start), FlattenGroups(tail, start + n));
      var numbered := Numbered(Children(g), start);
      var rest := Unlabelled(FlattenGroups(tail, start + n));
      assert Unlabelled(FlattenGroups(groups, start)) == numbered + rest;
      IndicesAppend(numbered, rest);
      assert Indices(numbered) == Range(start, n);
      RangeAppend(start, n, TotalItems(tail));
    }
  }

  /** The groups' blocks appear in the groups' order, back to back: the
      flattened groups are those before group `j`, then group `j`'s block
      (its label marker unless hidden, then its items numbered on from the
      items of the groups before it), then the groups after it. */
  lemma {:induction false} GroupBlockAt(groups: seq<Item>, start: int, j: nat, from: int)
    requires j < |groups| && from == start + TotalItems(groups[..j])
    ensures |FlattenGroups(groups[..j], start)| == TotalItems(groups[..j]) + ShownLabels(groups[..j])
    ensures FlattenGroups(groups, start)
            == FlattenGroups(groups[..j], start) + Block(groups[j], from)
               + FlattenGroups(groups[j + 1..], from + |Children(groups[j])|)
  {
    FlattenLength(groups[..j], start);
    var before := FlattenGroups(groups[..j], start);
    var block := Block(groups[j], from);
    var after := FlattenGroups(groups[j + 1..], from + |Children(groups[j])|);
    assert FlattenGroups(groups, start) == before + FlattenGroups(groups[j..], from) by {
      FlattenSplit(groups, start, j);
    }
    assert FlattenGroups(groups[j..], from) == block + after by {
      FlattenCons(groups[j..], from);
      assert groups[j..][0] == groups[j] && groups[j..][1..] == groups[j + 1..];
    }
    Assoc(before, block, after);
  }

  lemma {:induction false} FlattenCons(groups: seq<Item>, start: int)
    requires groups != []
    ensures FlattenGroups(groups, start)
            == Block(groups[0], start) + FlattenGroups(groups[1..], start + |Children(groups[0])|)
  {
  }

  /** Flattening splits at any group boundary, the counter of the second
      part starting after the items of the first. */
  lemma {:induction false} FlattenSplit(groups: seq<Item>, start: int, j: nat)
    requires j <= |groups|
    ensures FlattenGroups(groups, start)
            == FlattenGroups(groups[..j], start) + FlattenGroups(groups[j..], start + TotalItems(groups[..j]))
  {
    TakeDrop(groups, j);
    FlatMapAppend(Block, GroupSize, groups[..j], groups[j..], start);
  }

  /** The shape `autoCompleteFilter` accepts: grouped input (first entry a
      group) has only groups. */
  predicate WellShaped(items: Option<seq<Item>>) {
    items.Some? && |items.value| > 0 && IsGroup(items.value[0]) ==> AllGroups(items.value)
  }

  predicate Grouped(entries: seq<Item>) {
    |entries| > 0 && IsGroup(entries[0])
  }

  /** The result of `autoCompleteFilter`. */
  function AutoCompleteResult(items: Option<seq<Item>>, query: string): seq<Item>
    requires WellShaped(items)
  {
    match items
    case None => []
    case Some(entries) =>
      if Grouped(entries) then FlattenGroups(FilterGroupedItems(entries, query), 0)
      else Numbered(FilterItems(entries, query), 0)
  }

  /** Filtering does not create group-label markers inside groups. */
  lemma {:induction false} FilterGroupedNoNested(groups: seq<Item>, query: string)
    requires AllGroups(groups) && NoNestedLabels(groups)
    ensures NoNestedLabels(FilterGroupedItems(groups, query))
  {
    if groups != [] {
      NoNestedLabelsTail(groups);
      FilterGroupedNoNested(groups[1..], query);
      var g := Refiltered(groups[0], query);
      var rest := FilterGroupedItems(groups[1..], query);
      forall t | 0 <= t < |Children(g)|
        ensures !Children(g)[t].groupLabel
      {
        var kept := Children(g)[t];
        FilterItemsMembers(Children(groups[0]), query);
        assert kept in Children(groups[0]);
      }
      if |Children(g)| > 0 {
        var r := [g] + rest;
        forall k, t | 0 <= k < |r| && 0 <= t < |Children(r[k])|
          ensures !Children(r[k])[t].groupLabel
        {
          if k > 0 {
            assert r[k] == rest[k - 1];
          }
        }
      }
    }
  }

  /** Grouped input: the non-marker entries carry the indices 0, 1, ...,
      n - 1 in order, n being the number of surviving items over all groups. */
  lemma {:induction false} GroupedResultIndices(entries: seq<Item>, query: string)
    requires Grouped(entries) && AllGroups(entries) && NoNestedLabels(entries)
    ensures Indices(Unlabelled(AutoCompleteResult(Some(entries), query)))
            == Range(0, TotalItems(FilterGroupedItems(entries, query)))
  {
    FilterGroupedNoNested(entries, query);
    FlattenIndices(FilterGroupedItems(entries, query), 0);
  }

  /** Grouped input: the result is the surviving groups flattened, the item
      counter starting at 0 (their blocks in order: `GroupBlockAt`). */
  lemma {:induction false} GroupedResultFlattens(entries: seq<Item>, query: string, groups: seq<Item>)
    requires Grouped(entries) && AllGroups(entries)
    requires groups == FilterGroupedItems(entries, query)
    ensures AutoCompleteResult(Some(entries), query) == FlattenGroups(groups, 0)
    ensures |AutoCompleteResult(Some(entries), query)| == TotalItems(groups) + ShownLabels(groups)
  {
    FlattenLength(groups, 0);
  }

  /** Flat input: the filtered items, each with its position as `index`. */
  lemma {:induction false} FlatResultIndexed(entries: seq<Item>, query: string)
    requires !Grouped(entries)
    ensures var kept := FilterItems(entries, query);
            var r := AutoCompleteResult(Some(entries), query);
            |r| == |kept| && forall k :: 0 <= k < |r| ==> r[k] == kept[k].(index := Some(k))
  {
  }

  /** The inner `map` of `autoCompleteFilter`: each item copied with the
      counter as its `index`, the counter advancing once per item. */
  method NumberFrom(children: seq<Item>, itemCount: int) returns (numbered: seq<Item>, next: int)
    ensures numbered == Numbered(children, itemCount)
    ensures next == itemCount + |children|
  {
    numbered := [];
    next := itemCount;
    var j := 0;
    while j < |children|
      invariant 0 <= j <= |children|
      invariant next == itemCount + j
      invariant numbered == Numbered(children[..j], itemCount)
    {
      numbered := numbered + [children[j].(index := Some(next))];
      next := next + 1;
      j := j + 1;
    }
    assert children[..j] == children;
  }

  /** The `flatMap` of `autoCompleteFilter` over the filtered groups, sharing
      one item counter across them. */
  method FlattenFrom(groups: seq<Item>) returns (r: seq<Item>)
    ensures r == FlattenGroups(groups, 0)
  {
    var itemCount := 0;
    r := [];
    var i := 0;
    while i < |groups|
      invariant 0 <= i <= |groups|
      invariant r + FlattenGroups(groups[i..], itemCount) == FlattenGroups(groups, 0)
    {
      var group := groups[i];
      var groupItems;
      ghost var start := itemCount;
      groupItems, itemCount := NumberFrom(Children(group), itemCount);
      var marker := if group.hideGroupLabel then [] else [group.(groupLabel := true)];
      var block := marker + groupItems;
      FlattenStep(groups, i, start, r, FlattenGroups(groups, 0), block);
      r := r + block;
      i := i + 1;
    }
    assert groups[i..] == [];
  }

  /** Flattening from group `i` is group `i`'s block, then the groups after it. */
  lemma {:induction false} FlattenStep(groups: seq<Item>, i: nat, start: int, done: seq<Item>, whole: seq<Item>,
                                       block: seq<Item>)
    requires i < |groups| && done + FlattenGroups(groups[i..], start) == whole
    requires block == Block(groups[i], start)
    ensures (done + block) + FlattenGroups(groups[i + 1..], start + |Children(groups[i])|) == whole
  {
    assert groups[i..][0] == groups[i] && groups[i..][1..] == groups[i + 1..];
    var rest := FlattenGroups(groups[i + 1..], start + |Children(groups[i])|);
    assert FlattenGroups(groups[i..], start) == block + rest;
    assert (done + block) + rest == done + (block + rest);
  }

  /** `autoCompleteFilter`. */
  method AutoCompleteFilter(items: Option<seq<Item>>, query: string) returns (r: seq<Item>)
    requires WellShaped(items)
    ensures r == AutoCompleteResult(items, query)
    ensures items.None? ==> r == []
  {
    if items.None? {
      return [];
    }
    var entries := items.value;
    if Grouped(entries) {
      r := FlattenFrom(FilterGroupedItems(entries, query));
    } else {
      r := Numbered(FilterItems(entries, query), 0);
    }
  }
}
