# Dropdown autocomplete and Slack notification rule, in Dafny

This project models two small parts of Sentry and proves properties of the models.

**The dropdown autocomplete** (`dropdownAutoComplete/`):

- `utils.jsx` holds three functions.
  - `filterItems` is a case-insensitive substring filter. It matches on the search key, or on value and label.
  - `filterGroupedItems` filters each group's items and drops the groups left empty.
  - `autoCompleteFilter` flattens the surviving groups into one list. It adds a group-label marker per group unless the label is hidden, and numbers the real items with one counter shared by all groups.
- `list.tsx` picks the mode. With a fixed row height, it hands the container height, the row count and the per-row heights to the windowing library. Otherwise it renders every row in order.
- `row.tsx` turns one entry into either a group-label block or a selectable row. A selectable row has a highlight flag, a padding and its content.

**The Slack "send a notification" rule action** (`integrations/slack/notify_action.py`):

- `get_channel_id` resolves a channel or member name to a Slack id, under the app's permissions.
- The settings form has an `__init__` and a `clean`.
- `get_tags_list` parses the tag list.
- `render_label` builds the label text.
- `after` builds the key that notifications are batched under.

Each Slack Web API answer and each database answer is an input value. An `Integration` record carries what `apps.permissions.info`, `channels.list` and `users.list` answer for its token. The organization's integrations are a sequence of such records.

Files:

- `wrappers.dfy`: `Option` and `Result`.
- `text.dfy`: ASCII lower-casing, `indexOf`, Python's `lstrip`/`strip`, `split(',')` and `join`.
- `py_dict.dfy`: dictionaries built from pairs, where the last pair wins.
- `seqs.dfy`: `flatMap` with a counter that runs on across elements, plus facts about sequences.
- `autocomplete_items.dfy`: items, labels and row styles.
- `autocomplete_utils.dfy`: the filter and `autoCompleteFilter`.
- `autocomplete_row.dfy`: `Row` and `getItemPaddingForSize`.
- `autocomplete_list.dfy`: `getHeight`, `rowHeight` and `List`.
- `slack_notify_action.dfy`: the Slack action and `SlackNotifyServiceForm`, a class whose `Clean` method updates its `cleanedData` field.

`autoCompleteFilter` changes a counter step by step, so it is a method (`AutoCompleteFilter`, with the loops `NumberFrom` and `FlattenFrom`). Each loop is proved equal to a specification function, and the properties are lemmas about those functions.

Notes on the source:

- `filterGroupedItems` is defined twice, with identical bodies, in `utils.jsx` (lines 12-19 and 21-28). One definition is modelled.
- The functions call each other as `this.filterItems` and `this.filterGroupedItems`. These are modelled as plain calls.
- In `clean`, when the name does not resolve and no workspace is set, line 58 unpacks `None`. That path is the error outcome `UnpackNone`, not a validation error.

## Model

| member | source | states |
|---|---|---|
| Text.IndexOfFirst | src/sentry/static/sentry/app/components/dropdownAutoComplete/utils.jsx:8 | `indexOf` gives the first position at or after `from` where the text occurs, and -1 exactly when it occurs nowhere there |
| Text.IndexOfFindsSubstring | src/sentry/static/sentry/app/components/dropdownAutoComplete/utils.jsx:8 | `indexOf(q) > -1` holds iff `q` occurs somewhere; the empty string occurs at 0 |
| Text.Lower | src/sentry/static/sentry/app/components/dropdownAutoComplete/utils.jsx:7-8 | `toLowerCase` restricted to ASCII: each character through `LowerChar`, which maps `A`..`Z` to `a`..`z` and leaves every other character |
| Text.LowerCases | src/sentry/static/sentry/app/components/dropdownAutoComplete/utils.jsx:7-8 | lower-casing keeps the length, leaves no upper-case ASCII letter, keeps every other character, and is idempotent |
| Text.LStrip | src/sentry/integrations/slack/notify_action.py:42 | Python's `lstrip(chars)`: the result is a suffix of the input, everything dropped is in `chars`, and it does not start with one of them |
| Text.Strip | src/sentry/integrations/slack/notify_action.py:145 | Python's `strip()`: the result neither starts nor ends with whitespace |
| Text.StripKeepsMiddle | src/sentry/integrations/slack/notify_action.py:145 | `strip()` keeps one contiguous middle part and removes only whitespace on either side of it |
| Text.Split | src/sentry/integrations/slack/notify_action.py:145 | Python's `split(',')`: at least one piece, and no piece contains the separator |
| Text.Join | src/sentry/integrations/slack/notify_action.py:141 | Python's `sep.join(parts)`, whose round trip with `split` is proved both ways in Text.SplitJoin and Text.JoinSplit |
| Text.SplitJoin | src/sentry/integrations/slack/notify_action.py:141-145 | splitting `sep.join(parts)` at `sep` gives back `parts` when there is at least one part and no part contains `sep` |
| Text.JoinSplit | src/sentry/integrations/slack/notify_action.py:145 | joining the pieces of `s.split(sep)` with `sep` gives back `s` |
| AutoCompleteUtils.MatchesIsSubstring | src/sentry/static/sentry/app/components/dropdownAutoComplete/utils.jsx:4-9 | an item matches iff the lower-cased query is a substring of its lower-cased search text; with an empty search key that text is value, a space, then the label |
| AutoCompleteUtils.FilterItems | src/sentry/static/sentry/app/components/dropdownAutoComplete/utils.jsx:3-10 | `filterItems`: no longer than the input, and every item it keeps matches the query |
| AutoCompleteUtils.FilterItemsMembers | src/sentry/static/sentry/app/components/dropdownAutoComplete/utils.jsx:3-10 | an item is in the filter's result iff it is one of the items and it matches the query |
| AutoCompleteUtils.FilterItemsKeepsOrder | src/sentry/static/sentry/app/components/dropdownAutoComplete/utils.jsx:4-9 | the result is a subsequence of the input, in the original order |
| AutoCompleteUtils.FilterItemsCounts | src/sentry/static/sentry/app/components/dropdownAutoComplete/utils.jsx:4-9 | every matching item is kept exactly as often as it occurs in the input, and no other item is kept |
| AutoCompleteUtils.EmptyQueryKeepsAll | src/sentry/static/sentry/app/components/dropdownAutoComplete/utils.jsx:4-9 | the empty query keeps every item |
| AutoCompleteUtils.FilterGroupedItems | src/sentry/static/sentry/app/components/dropdownAutoComplete/utils.jsx:12-19 | no more groups than the input has; every surviving group is a group with at least one item |
| AutoCompleteUtils.FilterGroupedItemsKeepsMatches | src/sentry/static/sentry/app/components/dropdownAutoComplete/utils.jsx:12-19 | every group with a matching item survives, as that group with its items replaced by the ones that match |
| AutoCompleteUtils.FilterGroupedItemsKeepsOrder | src/sentry/static/sentry/app/components/dropdownAutoComplete/utils.jsx:13-18 | the surviving groups are a subsequence of the refiltered groups, in their order |
| AutoCompleteUtils.FilterGroupedItemsCounts | src/sentry/static/sentry/app/components/dropdownAutoComplete/utils.jsx:13-18 | the surviving groups are the refiltered groups that still have items, each kept as often as it occurs among them, and nothing else |
| AutoCompleteUtils.FilterGroupedNoNested | src/sentry/static/sentry/app/components/dropdownAutoComplete/utils.jsx:14-17 | filtering never turns a group member into a group-label marker |
| AutoCompleteUtils.FlattenGroups | src/sentry/static/sentry/app/components/dropdownAutoComplete/utils.jsx:39-53 | the `flatMap` over the surviving groups with the counter starting at `start`: per group, its marker unless the label is hidden, then its items numbered on; its properties are FlattenLength, GroupBlockAt, FlattenSplit and FlattenIndices |
| AutoCompleteUtils.FlattenLength | src/sentry/static/sentry/app/components/dropdownAutoComplete/utils.jsx:39-53 | flattening yields one marker per group with a shown label, plus every item |
| AutoCompleteUtils.GroupBlockAt | src/sentry/static/sentry/app/components/dropdownAutoComplete/utils.jsx:39-53 | in the flattened list, the groups before `j` come first, then group `j`'s marker (unless its label is hidden) immediately followed by its items numbered on from the earlier groups' items, then the groups after it |
| AutoCompleteUtils.FlattenSplit | src/sentry/static/sentry/app/components/dropdownAutoComplete/utils.jsx:39-43 | flattening splits at any group boundary; the counter of the second part starts after the first part's items |
| AutoCompleteUtils.FlattenIndices | src/sentry/static/sentry/app/components/dropdownAutoComplete/utils.jsx:31-43 | read in order, the non-marker entries carry the indices `start`, `start + 1`, ..., one per item over all groups |
| AutoCompleteUtils.GroupedResultFlattens | src/sentry/static/sentry/app/components/dropdownAutoComplete/utils.jsx:37-53 | grouped input gives the surviving groups flattened from counter 0; its length is the surviving items plus the shown labels |
| AutoCompleteUtils.GroupedResultIndices | src/sentry/static/sentry/app/components/dropdownAutoComplete/utils.jsx:31-53 | grouped input: the non-marker entries carry exactly 0, ..., n - 1 in order, where n is the number of surviving items over all groups |
| AutoCompleteUtils.FlatResultIndexed | src/sentry/static/sentry/app/components/dropdownAutoComplete/utils.jsx:56 | flat input: the result is the filtered items, each with its position as `index` |
| AutoCompleteUtils.AutoCompleteResult | src/sentry/static/sentry/app/components/dropdownAutoComplete/utils.jsx:30-57 | what `autoCompleteFilter` returns; the method AutoCompleteFilter is proved equal to it, and GroupedResultFlattens, GroupedResultIndices and FlatResultIndexed state its properties |
| AutoCompleteUtils.NumberFrom | src/sentry/static/sentry/app/components/dropdownAutoComplete/utils.jsx:40-43 | the inner `map` numbers the items from the counter and advances the counter once per item |
| AutoCompleteUtils.FlattenFrom | src/sentry/static/sentry/app/components/dropdownAutoComplete/utils.jsx:39-53 | the `flatMap` loop with its shared counter builds exactly the flattened groups |
| AutoCompleteUtils.AutoCompleteFilter | src/sentry/static/sentry/app/components/dropdownAutoComplete/utils.jsx:30-57 | absent input gives `[]`; input whose first entry has `items` is flattened by groups, any other input is filtered and numbered |
| AutoCompleteRow.ItemPadding | src/sentry/static/sentry/app/components/dropdownAutoComplete/row.tsx:79-89 | `small` gives `space(0.5) space(1)`, `zero` gives `0`, anything else (absent included) gives `space(1)`, and each only then |
| AutoCompleteRow.RenderRow | src/sentry/static/sentry/app/components/dropdownAutoComplete/row.tsx:27-56 | a label block iff the item is a group-label marker, showing the label only when it is truthy; a selectable row is highlighted iff the item's own `index` equals the highlighted index, is wired up with item, item index and style, and shows a literal label as is and a function label applied to the input |
| AutoCompleteRow.RowIgnoresIndexProp | src/sentry/static/sentry/app/components/dropdownAutoComplete/row.tsx:36-50 | the `index` prop makes no difference to what a row shows |
| AutoCompleteList.GetHeight | src/sentry/static/sentry/app/components/dropdownAutoComplete/list.tsx:50-63 | the height is at most `maxHeight` and at most the uncapped height, and equals one of them |
| AutoCompleteList.ReduceHeights | src/sentry/static/sentry/app/components/dropdownAutoComplete/list.tsx:57-60 | the `reduce` that adds, per entry, the label height for a group-label marker and the row height otherwise, onto the accumulator; ReduceCounts gives its closed form |
| AutoCompleteList.MinHeight | src/sentry/static/sentry/app/components/dropdownAutoComplete/list.tsx:56-61 | the uncapped height: the `reduce` when a label height is given, else the item count times the row height; RowHeightsSumToMinHeight ties it to the `rowHeight` callback |
| AutoCompleteList.ReduceCounts | src/sentry/static/sentry/app/components/dropdownAutoComplete/list.tsx:57-60 | from 0, the `reduce` is the label height times the number of markers plus the row height times the number of other entries |
| AutoCompleteList.RowHeight | src/sentry/static/sentry/app/components/dropdownAutoComplete/list.tsx:91-95 | the `rowHeight` callback: the label height for a marker when one is given, the row height otherwise; RowHeightsSumToMinHeight sums it |
| AutoCompleteList.RowHeightsSumToMinHeight | src/sentry/static/sentry/app/components/dropdownAutoComplete/list.tsx:56-61 | the `rowHeight` values of all rows add up exactly to the uncapped height `getHeight` computes |
| AutoCompleteList.PrefixSum | src/sentry/static/sentry/app/components/dropdownAutoComplete/list.tsx:57-60 | with a label height, the `reduce` over the first `n` entries adds up their `rowHeight` values |
| AutoCompleteList.AllRowsFixed | src/sentry/static/sentry/app/components/dropdownAutoComplete/list.tsx:61 | with no label height every row has the fixed height, so `n` rows are `n * virtualizedHeight` tall |
| AutoCompleteList.RenderList | src/sentry/static/sentry/app/components/dropdownAutoComplete/list.tsx:77-130 | windowed mode iff a row height is given; it passes the capped height, `rowCount` equal to the item count, and `rowHeight` of every row; otherwise every item is rendered once, in order, with its position as `index` |
| AutoCompleteList.VisibleRow | src/sentry/static/sentry/app/components/dropdownAutoComplete/list.tsx:96-108 | the `rowRenderer` callback: the props of the row the library asks for at `index`, with the style it supplies |
| AutoCompleteList.VisibleRowIsListRow | src/sentry/static/sentry/app/components/dropdownAutoComplete/list.tsx:96-128 | the row handed out at `index` in windowed mode is the row full mode renders at that position, with the library's style in place of none |
| AutoCompleteList.WindowedListHighlight | src/sentry/static/sentry/app/components/dropdownAutoComplete/list.tsx:96-108 | in windowed mode, whatever styles the library supplies, at most one visible row is highlighted, and one iff the highlighted index is below the item count |
| AutoCompleteList.WindowedHeightIsCappedRowSum | src/sentry/static/sentry/app/components/dropdownAutoComplete/list.tsx:83-95 | the windowed container is as tall as the rows it lays out, capped at `maxHeight` |
| AutoCompleteList.IndexOwner | src/sentry/static/sentry/app/components/dropdownAutoComplete/utils.jsx:40-43 | when the non-marker entries are numbered 0, ..., n - 1, each index belongs to at most one entry, and to one iff it is below n |
| AutoCompleteList.FullListHighlight | src/sentry/static/sentry/app/components/dropdownAutoComplete/list.tsx:117-128 | rendering such a list highlights at most one row, and one iff the highlighted index is below the item count |
| AutoCompleteList.FilteredListHighlight | src/sentry/static/sentry/app/components/dropdownAutoComplete/list.tsx:117-128 | the filter's output, rendered in full, highlights at most one row, and one iff the highlighted index is below the number of surviving items |
| PyDict.LastWins | src/sentry/integrations/slack/notify_action.py:199 | a name→id dictionary comprehension maps a name to the id of the LAST entry with that name, and has no entry when no entry has that name |
| PyDict.GetFinds | src/sentry/integrations/slack/notify_action.py:49 | `dict(pairs).get(key)` finds something iff some pair carries the key |
| SlackNotifyAction.FindIntegration | src/sentry/integrations/slack/notify_action.py:161-168 | `Integration.objects.get` gives an installed integration with that id, or nothing when none has it or no id is given |
| SlackNotifyAction.GetChannelId | src/sentry/integrations/slack/notify_action.py:160-222 | a result has a non-empty id and prefix `#` or `@`, and needs the integration plus ok permission and channel answers; `#` is a channel the app may post to; `@` needs no channel of that name, an ok member list, and DM permission for the member |
| SlackNotifyAction.ChannelLookupFirst | src/sentry/integrations/slack/notify_action.py:199-208 | a channel with that name decides: the name resolves to `#` and its id iff the id is not excluded and the grant is a wildcard or lists it; the member list is never consulted |
| SlackNotifyAction.MemberLookup | src/sentry/integrations/slack/notify_action.py:210-222 | with no channel of that name, the name resolves to `@` and the member id iff the member list is ok, names the member with a non-empty id, and DMs to that id are granted |
| SlackNotifyAction.FailedLookups | src/sentry/integrations/slack/notify_action.py:161-197 | an unknown integration, or a permissions or channel answer that is not ok, gives `None` whatever the name |
| SlackNotifyAction.ResolvedIdIsLastEntry | src/sentry/integrations/slack/notify_action.py:199-220 | with duplicate names, the resolved id is that of the last matching entry of the list it came from |
| SlackNotifyAction.WorkspaceList | src/sentry/integrations/slack/notify_action.py:27 | one `(id, name)` choice per integration, in order |
| SlackNotifyAction.CleanOutcome | src/sentry/integrations/slack/notify_action.py:38-62 | what `clean` returns for the validated values, the choices and the transformer; CleanOutcomes, CleanStripsPrefixes, CleanErrorNamesWorkspace and CleanResolvesAllowedResource state its properties, and `Clean` is proved to return it |
| SlackNotifyAction.SlackNotifyServiceForm.constructor | src/sentry/integrations/slack/notify_action.py:25-36 | the choices are the integrations' `(id, name)`; the initial choice is the first id, unset when there are no integrations |
| SlackNotifyAction.StripCharsAreMarks | src/sentry/integrations/slack/notify_action.py:13-15 | the characters stripped from a channel name are exactly `@` and `#` |
| SlackNotifyAction.StripMarks | src/sentry/integrations/slack/notify_action.py:42 | `lstrip` drops the leading run of `@`/`#` in any mix and nothing else; what is left starts with neither |
| SlackNotifyAction.CleanStripsPrefixes | src/sentry/integrations/slack/notify_action.py:42-59 | `clean` looks the stripped name up, stores the prefix followed by that name, and names it in the validation error |
| SlackNotifyAction.CleanOutcomes | src/sentry/integrations/slack/notify_action.py:44-62 | validation error iff the name does not resolve and a workspace is set; unpacking error iff it does not resolve and none is set; success iff it resolves, storing the id and keeping the workspace and tags |
| SlackNotifyAction.CleanErrorNamesWorkspace | src/sentry/integrations/slack/notify_action.py:46-49 | the validation error names the workspace through the choices: its name when some choice has that id, the last such choice winning, and `None` otherwise |
| SlackNotifyAction.SlackNotifyServiceForm.Clean | src/sentry/integrations/slack/notify_action.py:38-62 | returns the clean outcome; on success the cleaned values become the returned ones, on failure they stay as they were |
| SlackNotifyAction.CleanResolvesAllowedResource | src/sentry/integrations/slack/notify_action.py:153-158 | with `get_channel_id` as the transformer, a cleaned form holds `#` and a channel the app may post to, or `@` and a member it may message, with that id |
| SlackNotifyAction.GetTagsList | src/sentry/integrations/slack/notify_action.py:144-145 | `get_tags_list`: the `tags` option (empty when absent) split at commas, each piece stripped; TagsListShape and TagsListRoundTrip state its properties |
| SlackNotifyAction.TagsListShape | src/sentry/integrations/slack/notify_action.py:144-145 | one tag per comma plus one, each without commas and without surrounding whitespace; no tags give `['']` |
| SlackNotifyAction.TagsListRoundTrip | src/sentry/integrations/slack/notify_action.py:144-145 | clean tags joined with commas parse back to the same tags |
| SlackNotifyAction.FormatTags | src/sentry/integrations/slack/notify_action.py:141 | the formatted tags start with `[` and end with `]` |
| SlackNotifyAction.RenderedTagsReadBack | src/sentry/integrations/slack/notify_action.py:141-145 | the tags inside the brackets of a label parse back to the tags they were made from |
| SlackNotifyAction.RenderLabel | src/sentry/integrations/slack/notify_action.py:126-142 | `render_label`: the label template filled in; LabelShowsTags and LabelTagsReadBack state what it shows |
| SlackNotifyAction.LabelTagsReadBack | src/sentry/integrations/slack/notify_action.py:136-145 | the tags a rule's label shows parse back to the rule's tag list |
| SlackNotifyAction.LabelShowsTags | src/sentry/integrations/slack/notify_action.py:126-142 | the label names the integration (`[removed]` once it is gone) and the stored channel in the template text, and ends with the bracketed tags |
| SlackNotifyAction.DecimalRoundTrip | src/sentry/integrations/slack/notify_action.py:121 | the printed workspace id reads back as the id |
| SlackNotifyAction.NotificationKey | src/sentry/integrations/slack/notify_action.py:121 | the key starts with `slack:` |
| SlackNotifyAction.NotificationKeyInjective | src/sentry/integrations/slack/notify_action.py:121 | two keys are equal iff they have the same workspace and the same printed channel id |
| SlackNotifyAction.After | src/sentry/integrations/slack/notify_action.py:89-124 | nothing is queued iff the integration is gone; otherwise one notification with the key for that workspace and channel id, that integration, that channel, and the set of tags |

## Left out

- React and emotion rendering, `AutoSizer`, the internals of `react-virtualized`, React keys, CSS and theme values, and `group/suggestedOwners/styles.tsx`. The model keeps only the values handed to them.
- `onScroll` is passed to the windowed list unchanged and is not modelled.
- The props `List` spreads into every `Row` (`{...props}`, list.tsx lines 106 and 126) are not modelled. They are the props `List` does not take apart itself at lines 65-75, so they never include `itemSize`, `highlightedIndex`, `inputValue` or `getItemProps`. The model assumes they include no `item`, `index` or `style` either.
- `space(k)` stays opaque: a padding records the multipliers given to it.
- `toLowerCase` is lower-casing of ASCII letters only. Whitespace for `strip` is the ASCII set Python uses. There is no Unicode case folding.
- Pixel sizes are integers, not JavaScript floating-point numbers. An absent height and 0 are the same falsy value.
- A function label is an opaque function from the search text to a string, paired with the text the template literal would print for it.
- Literal labels are strings. A React-node label (printed `[object Object]`) and an undefined label (printed `undefined`, yet falsy at row.tsx:41) cannot be expressed, and every non-empty literal label counts as truthy.
- AutoCompleteUtils.AutoCompleteFilter: requires grouped input (first entry has `items`) to consist of groups only. On mixed input the JavaScript reads `items` of a plain entry and throws a TypeError, which the model does not reproduce.
- AutoCompleteUtils.GroupedResultIndices: assumes no group member is itself a group-label marker. The source never builds such input, and the markers could not be told apart from the items.
- AutoCompleteList.FilteredListHighlight: assumes the same of grouped input, and that flat input holds no group-label markers.
- The `this` binding of `this.filterItems` is not modelled. The calls are plain calls.
- Notify action, not modelled:
  - the HTTP session;
  - the Slack Web API, with `raise_for_status` and `chat.postMessage`;
  - the Django ORM, with `filter`, `.exists()` and `is_enabled`;
  - access tokens, logging, metrics, the deferred `future` and `send_notification`;
  - `build_attachment`, `json.dumps`, translation and the validation message text;
  - `form_fields` and Django's own field validation and coercion.
- `clean` receives the values that survive Django field validation. `int(workspace)` is taken as already done: a workspace is a natural-number id.
- `Integration.objects.get` returns the first installed integration with the id. Ids are unique in the database, so nothing depends on which one.
- `get_form_instance` is not modelled as a member. Its wiring appears in `CleanResolvesAllowedResource`, which passes `get_channel_id` as the transformer.
