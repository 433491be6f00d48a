/**
 * The Slack "send a notification" rule action: resolving a channel or member
 * name to a Slack id under the app's permissions, the settings form that
 * stores the resolved id, the tag list, the label shown for a rule and the
 * key under which notifications are batched.
 *
 * The Slack Web API and the database are replaced by data: an installed
 * integration carries the answers the API gives for its access token
 * (`apps.permissions.info`, `channels.list`, `users.list`), and the
 * organization's Slack integrations are a sequence of such records.
 * Integration ids are natural numbers; a stored `workspace` option is the
 * id it names.
 */
module SlackNotifyAction {
  import opened Wrappers
  import opened Text
  import PyDict

  const MemberPrefix: string := "@"
  const ChannelPrefix: string := "#"

  /** The characters of both prefixes: what `clean` strips from the front of
      a channel name. */
  const StripChannelChars: set<char> := set c | c in MemberPrefix + ChannelPrefix

  /** A resolved destination: its prefix and its Slack id. */
  datatype ChannelRef = ChannelRef(prefix: string, id: string)

  /** `info.channel.resources` of `apps.permissions.info`. */
  datatype ChannelPermissions = ChannelPermissions(excludedIds: seq<string>, wildcard: bool, ids: seq<string>)

  /** `apps.permissions.info`: its `ok` flag, the channel permissions and the
      ids of `info.im.resources`. */
  datatype PermissionsResponse = PermissionsResponse(ok: bool, channel: ChannelPermissions, imIds: seq<string>)

  /** `channels.list` or `users.list`: its `ok` flag and the `(name, id)` of
      each channel or member, in the order listed. */
  datatype ListResponse = ListResponse(ok: bool, entries: seq<(string, string)>)

  /** An installed Slack integration and what the API answers for its token. */
  datatype Integration = Integration(id: nat, name: string, permissions: PermissionsResponse,
                                     channels: ListResponse, users: ListResponse)

  /** `Integration.objects.get(id=...)` among the organization's Slack
      integrations; a missing id (or none given) is `DoesNotExist`. */
  function FindIntegration(installed: seq<Integration>, id: Option<nat>): (r: Option<Integration>)
    ensures r.Some? ==> id.Some? && r.value in installed && r.value.id == id.value
    ensures r.None? ==> id.None? || forall k :: 0 <= k < |installed| ==> installed[k].id != id.value
  {
    if id.None? || installed == [] then None
    else if installed[0].id == id.value then Some(installed[0])
    else FindIntegration(installed[1..], id)
  }

  /** The app may post to channel `id`: not excluded, and either every
      channel is granted or this one is. */
  predicate ChannelAllowed(p: ChannelPermissions, id: string) {
    id !in p.excludedIds && (p.wildcard || id in p.ids)
  }

  /** The id a name→id dictionary comprehension gives for `name`, when it is
      a non-empty (truthy) string. */
  function TruthyId(entries: seq<(string, string)>, name: string): Option<string> {
    var id := PyDict.Get(entries, name);
    if id.Some? && id.value != "" then id else None
  }

  /** `get_channel_id`: the channel named `name` if the app may use it, else
      (when no channel has that name) the member named `name` if the app may
      message them; `None` whenever a response it reaches is not `ok`. */
  function GetChannelId(installed: seq<Integration>, integrationId: Option<nat>, name: string): (r: Option<ChannelRef>)
    ensures r.Some? ==> r.value.id != "" && (r.value.prefix == ChannelPrefix || r.value.prefix == MemberPrefix)
    ensures r.Some? ==>
              var i := FindIntegration(installed, integrationId);
              i.Some? && i.value.permissions.ok && i.value.channels.ok
              && (r.value.prefix == ChannelPrefix ==>
                    TruthyId(i.value.channels.entries, name) == Some(r.value.id)
                    && ChannelAllowed(i.value.permissions.channel, r.value.id))
              && (r.value.prefix == MemberPrefix ==>
                    TruthyId(i.value.channels.entries, name).None? && i.value.users.ok
                    && TruthyId(i.value.users.entries, name) == Some(r.value.id)
                    && r.value.id in i.value.permissions.imIds)
  {
    match FindIntegration(installed, integrationId)
    case None => None
    case Some(integration) =>
      var perms := integration.permissions;
      if !perms.ok then None
      else if !integration.channels.ok then None
      else
        var channelId := TruthyId(integration.channels.entries, name);
        if channelId.Some? then
          if channelId.value in perms.channel.excludedIds then None
          else if !perms.channel.wildcard && channelId.value !in perms.channel.ids then None
          else Some(ChannelRef(ChannelPrefix, channelId.value))
        else if !integration.users.ok then None
        else
          var memberId := TruthyId(integration.users.entries, name);
          if memberId.Some? && memberId.value in perms.imIds then Some(ChannelRef(MemberPrefix, memberId.value))
          else None
  }

  /** A channel with that name is decisive: `name` resolves to it exactly
      when the app may post there, and what `users.list` says does not
      matter. */
  lemma {:induction false} ChannelLookupFirst(installed: seq<Integration>, integrationId: Option<nat>, name: string,
                                              users: ListResponse)
    requires var i := FindIntegration(installed, integrationId);
             i.Some? && i.value.permissions.ok && i.value.channels.ok
             && TruthyId(i.value.channels.entries, name).Some?
    ensures var i := FindIntegration(installed, integrationId).value;
            var id := TruthyId(i.channels.entries, name).value;
            var r := GetChannelId(installed, integrationId, name);
            (r.Some? <==> ChannelAllowed(i.permissions.channel, id))
            && (r.Some? ==> r.value == ChannelRef(ChannelPrefix, id))
            && r == GetChannelId(ReplaceUsers(installed, i.id, users), integrationId, name)
  {
    ReplaceUsersFind(installed, integrationId, users);
  }

  /** The integrations with the `users.list` answer of integration `id` replaced. */
  function ReplaceUsers(installed: seq<Integration>, id: nat, users: ListResponse): (r: seq<Integration>)
    ensures |r| == |installed|
    ensures forall k :: 0 <= k < |r| ==>
              r[k] == (if installed[k].id == id then installed[k].(users := users) else installed[k])
  {
    if installed == [] then []
    else [if installed[0].id == id then installed[0].(users := users) else installed[0]]
         + ReplaceUsers(installed[1..], id, users)
  }

  lemma {:induction false} ReplaceUsersFind(installed: seq<Integration>, integrationId: Option<nat>, users: ListResponse)
    requires FindIntegration(installed, integrationId).Some?
    ensures var i := FindIntegration(installed, integrationId).value;
            FindIntegration(ReplaceUsers(installed, i.id, users), integrationId) == Some(i.(users := users))
  {
    if installed[0].id != integrationId.value {
      ReplaceUsersFind(installed[1..], integrationId, users);
      assert ReplaceUsers(installed, integrationId.value, users)[1..]
          == ReplaceUsers(installed[1..], integrationId.value, users);
    }
  }

  /** With no channel of that name, `name` resolves to a member exactly when
      `users.list` is `ok`, lists the name with a non-empty id, and the app
      may message that id. */
  lemma {:induction false} MemberLookup(installed: seq<Integration>, integrationId: Option<nat>, name: string)
    requires var i := FindIntegration(installed, integrationId);
             i.Some? && i.value.permissions.ok && i.value.channels.ok
             && TruthyId(i.value.channels.entries, name).None?
    ensures var i := FindIntegration(installed, integrationId).value;
            var m := TruthyId(i.users.entries, name);
            var r := GetChannelId(installed, integrationId, name);
            (r.Some? <==> i.users.ok && m.Some? && m.value in i.permissions.imIds)
            && (r.Some? ==> r.value == ChannelRef(MemberPrefix, m.value))
  {
  }

  /** Each response `get_channel_id` reaches must be `ok`: an unknown
      integration, or a failed permissions or channel list call, gives `None`
      whatever the name. */
  lemma {:induction false} FailedLookups(installed: seq<Integration>, integrationId: Option<nat>, name: string)
    ensures var i := FindIntegration(installed, integrationId);
            (i.None? || !i.value.permissions.ok || !i.value.channels.ok)
            ==> GetChannelId(installed, integrationId, name).None?
  {
  }

  /** With duplicate names the resolved id is that of the LAST entry of the
      list with that name. */
  lemma {:induction false} ResolvedIdIsLastEntry(installed: seq<Integration>, integrationId: Option<nat>, name: string)
    requires GetChannelId(installed, integrationId, name).Some?
    ensures var i := FindIntegration(installed, integrationId).value;
            var r := GetChannelId(installed, integrationId, name).value;
            var entries := if r.prefix == ChannelPrefix then i.channels.entries else i.users.entries;
            var k := PyDict.LastIndex(entries, name);
            0 <= k && entries[k] == (name, r.id)
  {
    var i := FindIntegration(installed, integrationId).value;
    var r := GetChannelId(installed, integrationId, name).value;
    var entries := if r.prefix == ChannelPrefix then i.channels.entries else i.users.entries;
    PyDict.LastWins(entries, name);
  }

  /** The values the form hands over: those of its fields after field
      validation, a missing one being `None`. */
  datatype FormData = FormData(workspace: Option<nat>, channel: Option<string>, channelId: Option<string>,
                               tags: Option<string>)

  /** Why `clean` fails: the validation error with its `channel` and
      `workspace` parameters, or the `TypeError` of unpacking `None` when no
      workspace was chosen. */
  datatype FormError = ResourceNotFound(channel: string, workspace: Option<string>) | UnpackNone

  /** `[(i.id, i.name) for i in integrations]`. */
  function WorkspaceList(integrations: seq<Integration>): (r: seq<(nat, string)>)
    ensures |r| == |integrations|
    ensures forall k :: 0 <= k < |r| ==> r[k] == (integrations[k].id, integrations[k].name)
  {
    if integrations == [] then [] else [(integrations[0].id, integrations[0].name)] + WorkspaceList(integrations[1..])
  }

  /** What `clean` returns for the validated values, the workspace choices
      and the channel transformer. */
  function CleanOutcome(data: FormData, choices: seq<(nat, string)>,
                        transformer: (Option<nat>, string) -> Option<ChannelRef>): Result<FormData, FormError>
  {
    var channel := LStrip(data.channel.GetOr(""), StripChannelChars);
    var resolved := transformer(data.workspace, channel);
    if resolved.None? && data.workspace.Some? then
      Failure(ResourceNotFound(channel, PyDict.Get(choices, data.workspace.value)))
    else if resolved.None? then Failure(UnpackNone)
    else Success(data.(channel := Some(resolved.value.prefix + channel), channelId := Some(resolved.value.id)))
  }

  /** The strip characters are exactly `@` and `#`. */
  lemma {:induction false} StripCharsAreMarks()
    ensures forall c :: c in StripChannelChars <==> c == '@' || c == '#'
  {
    assert MemberPrefix + ChannelPrefix == ['@', '#'];
  }

  /** `lstrip` of the marks removes the leading run of `@` and `#` (in any
      mix) and nothing else; what is left starts with neither. */
  lemma {:induction false} StripMarks(s: string)
    ensures var stripped := LStrip(s, StripChannelChars);
            (exists k :: 0 <= k <= |s| && stripped == s[k..] && forall i :: 0 <= i < k ==> s[i] == '@' || s[i] == '#')
            && (stripped != [] ==> stripped[0] != '@' && stripped[0] != '#')
  {
    StripCharsAreMarks();
    var stripped := LStrip(s, StripChannelChars);
    var k := |s| - |stripped|;
    assert stripped == s[k..];
  }

  /** `clean` looks the channel up by its stripped name, stores the prefix
      followed by that name, and names it in the validation error. */
  lemma {:induction false} CleanStripsPrefixes(data: FormData, choices: seq<(nat, string)>,
                                               transformer: (Option<nat>, string) -> Option<ChannelRef>)
    ensures var s := data.channel.GetOr("");
            var stripped := LStrip(s, StripChannelChars);
            var r := CleanOutcome(data, choices, transformer);
            (exists k :: 0 <= k <= |s| && stripped == s[k..] && forall i :: 0 <= i < k ==> s[i] == '@' || s[i] == '#')
            && (stripped != [] ==> stripped[0] != '@' && stripped[0] != '#')
            && (r.Success? ==> r.value.channel == Some(transformer(data.workspace, stripped).value.prefix + stripped))
            && (r.Failure? && r.error.ResourceNotFound? ==> r.error.channel == stripped)
  {
    StripMarks(data.channel.GetOr(""));
  }

  /** `clean` fails with the validation error exactly when the name does not
      resolve and a workspace was chosen, fails unpacking `None` when the
      name does not resolve and no workspace was chosen, and otherwise
      stores the prefixed channel and its id, leaving the other values. */
  lemma {:induction false} CleanOutcomes(data: FormData, choices: seq<(nat, string)>,
                                         transformer: (Option<nat>, string) -> Option<ChannelRef>)
    ensures var channel := LStrip(data.channel.GetOr(""), StripChannelChars);
            var resolved := transformer(data.workspace, channel);
            var r := CleanOutcome(data, choices, transformer);
            (r.Failure? && r.error.ResourceNotFound? <==> resolved.None? && data.workspace.Some?)
            && (r.Failure? && r.error.UnpackNone? <==> resolved.None? && data.workspace.None?)
            && (r.Success? <==> resolved.Some?)
            && (r.Success? ==> r.value.channelId == Some(resolved.value.id)
                               && r.value.workspace == data.workspace && r.value.tags == data.tags)
  {
  }

  /** The validation error names the chosen workspace as the choices do: by
      name when some choice has that id, as `None` otherwise. */
  lemma {:induction false} CleanErrorNamesWorkspace(data: FormData, choices: seq<(nat, string)>,
                                                    transformer: (Option<nat>, string) -> Option<ChannelRef>)
    requires CleanOutcome(data, choices, transformer).Failure?
    requires CleanOutcome(data, choices, transformer).error.ResourceNotFound?
    ensures data.workspace.Some?
    ensures var w := CleanOutcome(data, choices, transformer).error.workspace;
            (w.Some? <==> exists k :: 0 <= k < |choices| && choices[k].0 == data.workspace.value)
            && (w.Some? ==> w.value == choices[PyDict.LastIndex(choices, data.workspace.value)].1)
  {
    PyDict.GetFinds(choices, data.workspace.value);
    PyDict.LastWins(choices, data.workspace.value);
  }

  /** With the transformer the action supplies, a cleaned form holds either
      `#` and the stripped name of a channel the app may post to, with the id
      `channels.list` gives for that name, or `@` and the stripped name of a
      member the app may message, no channel having that name, with the id
      `users.list` gives for it. */
  lemma {:induction false} CleanResolvesAllowedResource(data: FormData, installed: seq<Integration>)
    requires CleanOutcome(data, WorkspaceList(installed), (w, n) => GetChannelId(installed, w, n)).Success?
    ensures var stripped := LStrip(data.channel.GetOr(""), StripChannelChars);
            var cleaned := CleanOutcome(data, WorkspaceList(installed), (w, n) => GetChannelId(installed, w, n)).value;
            var i := FindIntegration(installed, data.workspace);
            i.Some? && cleaned.channelId.Some?
            && (cleaned.channel == Some(ChannelPrefix + stripped) ==>
                  TruthyId(i.value.channels.entries, stripped) == cleaned.channelId
                  && ChannelAllowed(i.value.permissions.channel, cleaned.channelId.value))
            && (cleaned.channel == Some(MemberPrefix + stripped) ==>
                  TruthyId(i.value.channels.entries, stripped).None?
                  && TruthyId(i.value.users.entries, stripped) == cleaned.channelId
                  && cleaned.channelId.value in i.value.permissions.imIds)
            && (cleaned.channel == Some(ChannelPrefix + stripped) || cleaned.channel == Some(MemberPrefix + stripped))
  {
    var stripped := LStrip(data.channel.GetOr(""), StripChannelChars);
    var r := GetChannelId(installed, data.workspace, stripped);
    assert r.Some?;
    assert (MemberPrefix + stripped)[0] != (ChannelPrefix + stripped)[0];
  }

  /** The rule's settings form. */
  class SlackNotifyServiceForm {
    /** The `workspace` field's choices: `(id, name)` per integration. */
    var workspaceChoices: seq<(nat, string)>
    /** The `workspace` field's initial value. */
    var workspaceInitial: Option<nat>
    /** Resolves a workspace and a stripped name to a prefix and an id. */
    const channelTransformer: (Option<nat>, string) -> Option<ChannelRef>
    /** The validated values, which `clean` completes. */
    var cleanedData: FormData

    /** The form over the validated values `data`: the integrations become the
        workspace choices, the first of them the initial choice. */
    constructor(data: FormData, integrations: seq<Integration>,
                channelTransformer: (Option<nat>, string) -> Option<ChannelRef>)
      ensures workspaceChoices == WorkspaceList(integrations)
      ensures workspaceInitial == (if integrations == [] then None else Some(integrations[0].id))
      ensures this.channelTransformer == channelTransformer && cleanedData == data
    {
      var workspaceList := WorkspaceList(integrations);
      this.channelTransformer := channelTransformer;
      cleanedData := data;
      workspaceInitial := None;
      if workspaceList != [] {
        workspaceInitial := Some(workspaceList[0].0);
      }
      workspaceChoices := workspaceList;
    }

    /** `clean`: on success the cleaned values gain the prefixed channel and
        the resolved id and are returned; on failure they are left as they
        were. */
    method Clean() returns (r: Result<FormData, FormError>)
      modifies this`cleanedData
      ensures r == CleanOutcome(old(cleanedData), workspaceChoices, channelTransformer)
      ensures cleanedData == (if r.Success? then r.value else old(cleanedData))
    {
      var workspace := cleanedData.workspace;
      var channel := LStrip(cleanedData.channel.GetOr(""), StripChannelChars);
      var channelId := channelTransformer(workspace, channel);
      if channelId.None? && workspace.Some? {
        return Failure(ResourceNotFound(channel, PyDict.Get(workspaceChoices, workspace.value)));
      }
      if channelId.None? {
        return Failure(UnpackNone);
      }
      var ChannelRef(prefix, id) := channelId.value;
      cleanedData := cleanedData.(channel := Some(prefix + channel));
      cleanedData := cleanedData.(channelId := Some(id));
      return Success(cleanedData);
    }
  }

  /** Each piece stripped. */
  function StripAll(pieces: seq<string>): (r: seq<string>)
    ensures |r| == |pieces| && forall k :: 0 <= k < |r| ==> r[k] == Strip(pieces[k])
  {
    if pieces == [] then [] else [Strip(pieces[0])] + StripAll(pieces[1..])
  }

  /** `get_tags_list`: the stored `tags` option (`""` when absent) split at
      commas, each piece stripped. */
  function GetTagsList(tags: Option<string>): seq<string> {
    StripAll(Split(tags.GetOr(""), ','))
  }

  /** A tag as the list holds it: no comma, no surrounding whitespace. */
  predicate CleanTag(t: string) {
    ',' !in t && (t != [] ==> t[0] !in Whitespace && t[|t| - 1] !in Whitespace)
  }

  /** One tag per comma plus one, each a clean tag; no tags at all read as
      the single empty tag. */
  lemma {:induction false} TagsListShape(tags: Option<string>)
    ensures var r := GetTagsList(tags);
            |r| == Count(tags.GetOr(""), ',') + 1
            && (forall k :: 0 <= k < |r| ==> CleanTag(r[k]))
            && (tags.GetOr("") == "" ==> r == [""])
  {
    var pieces := Split(tags.GetOr(""), ',');
    SplitCount(tags.GetOr(""), ',');
    forall k | 0 <= k < |pieces|
      ensures CleanTag(Strip(pieces[k]))
    {
      StripKeepsMiddle(pieces[k]);
      var t := Strip(pieces[k]);
      assert forall c :: c in t ==> c in pieces[k];
    }
  }

  /** Clean tags joined with commas read back as the same tags. */
  lemma {:induction false} TagsListRoundTrip(tags: seq<string>)
    requires |tags| >= 1 && forall k :: 0 <= k < |tags| ==> CleanTag(tags[k])
    ensures GetTagsList(Some(Join([','], tags))) == tags
  {
    SplitJoin(tags, ',');
    forall k | 0 <= k < |tags|
      ensures Strip(tags[k]) == tags[k]
    {
      StripStripped(tags[k]);
    }
  }

  /** How `render_label` shows the tags: `'[' + ', '.join(tags) + ']'`. */
  function FormatTags(tags: seq<string>): (r: string)
    ensures |r| >= 2 && r[0] == '[' && r[|r| - 1] == ']'
  {
    "[" + Join(", ", tags) + "]"
  }

  /** Every tag after the first with a space in front. */
  function Spaced(tags: seq<string>): (r: seq<string>)
    requires |tags| >= 1
    ensures |r| == |tags| && r[0] == tags[0] && forall k :: 1 <= k < |r| ==> r[k] == " " + tags[k]
  {
    [tags[0]] + seq(|tags| - 1, k requires 0 <= k < |tags| - 1 => " " + tags[k + 1])
  }

  lemma {:induction false} JoinSpaced(tags: seq<string>)
    requires |tags| >= 1
    ensures Join(", ", tags) == Join([','], Spaced(tags))
  {
    if |tags| > 1 {
      JoinSpaced(tags[1..]);
      var tail := Spaced(tags[1..]);
      var sp := Spaced(tags);
      assert sp[1..] == [" " + tail[0]] + tail[1..];
      JoinHead(" ", tail, ',');
    }
  }

  /** Putting `x` in front of the first piece puts it in front of the join. */
  lemma {:induction false} JoinHead(x: string, parts: seq<string>, sep: char)
    requires |parts| >= 1
    ensures Join([sep], [x + parts[0]] + parts[1..]) == x + Join([sep], parts)
  {
    var q := [x + parts[0]] + parts[1..];
    if |parts| > 1 {
      assert q[1..] == parts[1..];
    }
  }

  /** A clean tag with a space in front strips back to itself. */
  lemma {:induction false} StripSpacedTag(t: string)
    requires CleanTag(t)
    ensures Strip(" " + t) == t
  {
    StripStripped(t);
    assert (" " + t)[1..] == t;
  }

  lemma {:induction false} SpacedCommaFree(tags: seq<string>)
    requires |tags| >= 1 && forall k :: 0 <= k < |tags| ==> CleanTag(tags[k])
    ensures forall k :: 0 <= k < |Spaced(tags)| ==> ',' !in Spaced(tags)[k]
  {
    var sp := Spaced(tags);
    forall k | 1 <= k < |sp|
      ensures ',' !in sp[k]
    {
      assert sp[k] == " " + tags[k];
    }
  }

  /** The tags the label shows, read back by `get_tags_list`, are the tags it
      was made from: the label loses nothing. */
  lemma {:induction false} RenderedTagsReadBack(tags: seq<string>)
    requires |tags| >= 1 && forall k :: 0 <= k < |tags| ==> CleanTag(tags[k])
    ensures var shown := FormatTags(tags);
            GetTagsList(Some(shown[1..|shown| - 1])) == tags
  {
    var shown := FormatTags(tags);
    assert shown[1..|shown| - 1] == Join(", ", tags);
    JoinSpaced(tags);
    var sp := Spaced(tags);
    SpacedCommaFree(tags);
    SplitJoin(sp, ',');
    var r := StripAll(sp);
    forall k | 0 <= k < |tags|
      ensures r[k] == tags[k]
    {
      if k > 0 {
        StripSpacedTag(tags[k]);
      } else {
        StripStripped(tags[k]);
      }
    }
  }

  /** Python's `'{}'.format(v)` of an optional string: the string, or `None`. */
  function PyStr(s: Option<string>): string {
    match s
    case None => "None"
    case Some(v) => v
  }

  /** The label template with its three fields filled in. */
  function FormatLabel(workspace: string, channel: string, tags: string): string {
    "Send a notification to the " + workspace + " Slack workspace to " + channel + " and include tags " + tags
  }

  /** `render_label`: the integration's name (or `[removed]` when it is gone),
      the stored channel and the formatted tags. */
  function RenderLabel(installed: seq<Integration>, workspace: Option<nat>, channel: Option<string>,
                       tags: Option<string>): string
  {
    var name := match FindIntegration(installed, workspace)
                case None => "[removed]"
                case Some(i) => i.name;
    FormatLabel(name, PyStr(channel), FormatTags(GetTagsList(tags)))
  }

  /** The label names the integration (`[removed]` once it is gone) and the
      stored channel, and ends with the tags in brackets. */
  lemma {:induction false} LabelShowsTags(installed: seq<Integration>, workspace: Option<nat>, channel: Option<string>,
                                          tags: Option<string>)
    ensures var r := RenderLabel(installed, workspace, channel, tags);
            var i := FindIntegration(installed, workspace);
            var head := "Send a notification to the " + (if i.Some? then i.value.name else "[removed]")
                        + " Slack workspace to " + PyStr(channel) + " and include tags ";
            var shown := FormatTags(GetTagsList(tags));
            |r| == |head| + |shown| && r[..|head|] == head && r[|head|..] == shown
  {
    var i := FindIntegration(installed, workspace);
    LabelParts(if i.Some? then i.value.name else "[removed]", PyStr(channel), FormatTags(GetTagsList(tags)));
  }

  /** The tags a label shows read back as the rule's tag list. */
  lemma {:induction false} LabelTagsReadBack(tags: Option<string>)
    ensures var shown := FormatTags(GetTagsList(tags));
            GetTagsList(Some(shown[1..|shown| - 1])) == GetTagsList(tags)
  {
    TagsListShape(tags);
    RenderedTagsReadBack(GetTagsList(tags));
  }

  /** The filled-in template is its fixed text and fields in order, the tags
      field last. */
  lemma {:induction false} LabelParts(workspace: string, channel: string, tags: string)
    ensures var r := FormatLabel(workspace, channel, tags);
            var head := "Send a notification to the " + workspace + " Slack workspace to " + channel
                        + " and include tags ";
            |r| == |head| + |tags| && r[..|head|] == head && r[|head|..] == tags
  {
    var head := "Send a notification to the " + workspace + " Slack workspace to " + channel + " and include tags ";
    assert FormatLabel(workspace, channel, tags) == head + tags;
  }

  /** A decimal digit. */
  function DigitChar(d: nat): char
    requires d < 10
  {
    ('0' as int + d) as char
  }

  predicate IsDigit(c: char) {
    '0' <= c <= '9'
  }

  /** Python's `str(n)` for a natural number. */
  function Decimal(n: nat): (r: string)
    ensures |r| >= 1 && forall k :: 0 <= k < |r| ==> IsDigit(r[k])
  {
    if n < 10 then [DigitChar(n)] else Decimal(n / 10) + [DigitChar(n % 10)]
  }

  /** The number a string of digits denotes. */
  function ParseDecimal(s: string): nat
    requires forall k :: 0 <= k < |s| ==> IsDigit(s[k])
  {
    if s == [] then 0
    else
      assert IsDigit(s[|s| - 1]);
      ParseDecimal(s[..|s| - 1]) * 10 + (s[|s| - 1] as int - '0' as int)
  }

  lemma {:induction false} DecimalRoundTrip(n: nat)
    ensures ParseDecimal(Decimal(n)) == n
  {
    if n >= 10 {
      DecimalRoundTrip(n / 10);
      var s := Decimal(n);
      assert s[..|s| - 1] == Decimal(n / 10);
    }
  }

  /** How `'{}'.format` shows the stored workspace id. */
  function WorkspaceText(workspace: Option<nat>): string {
    match workspace
    case None => "None"
    case Some(id) => Decimal(id)
  }

  /** The key of `after`: `slack:<workspace>:<channel id>`. */
  function NotificationKey(workspace: Option<nat>, channelId: Option<string>): (r: string)
    ensures |r| >= 6 && r[..6] == "slack:"
  {
    "slack:" + WorkspaceText(workspace) + ":" + PyStr(channelId)
  }

  /** Notifications share a key exactly when they go to the same workspace
      and the same (printed) channel id: the key never merges two
      destinations. */
  lemma {:induction false} NotificationKeyInjective(w1: Option<nat>, c1: Option<string>, w2: Option<nat>, c2: Option<string>)
    ensures NotificationKey(w1, c1) == NotificationKey(w2, c2) <==> w1 == w2 && PyStr(c1) == PyStr(c2)
  {
    var a1, a2 := WorkspaceText(w1), WorkspaceText(w2);
    if NotificationKey(w1, c1) == NotificationKey(w2, c2) {
      KeyAfterScheme(w1, c1);
      KeyAfterScheme(w2, c2);
      WorkspaceTextNoColon(w1);
      WorkspaceTextNoColon(w2);
      ColonSplit(a1, PyStr(c1), a2, PyStr(c2));
      WorkspaceTextInjective(w1, w2);
    }
  }

  /** What follows `slack:` in a key. */
  lemma {:induction false} KeyAfterScheme(w: Option<nat>, c: Option<string>)
    ensures NotificationKey(w, c)[6..] == WorkspaceText(w) + ":" + PyStr(c)
  {
    var rest := WorkspaceText(w) + ":" + PyStr(c);
    assert NotificationKey(w, c) == "slack:" + rest;
  }

  lemma {:induction false} WorkspaceTextNoColon(w: Option<nat>)
    ensures ':' !in WorkspaceText(w)
  {
    var t := WorkspaceText(w);
    if w.Some? {
      assert forall k :: 0 <= k < |t| ==> t[k] != ':';
    }
  }

  /** Different workspace values print differently. */
  lemma {:induction false} WorkspaceTextInjective(w1: Option<nat>, w2: Option<nat>)
    requires WorkspaceText(w1) == WorkspaceText(w2)
    ensures w1 == w2
  {
    if w1.Some? {
      DecimalNotNone(w1.value);
      DecimalRoundTrip(w1.value);
    }
    if w2.Some? {
      DecimalNotNone(w2.value);
      DecimalRoundTrip(w2.value);
    }
  }

  lemma {:induction false} DecimalNotNone(n: nat)
    ensures Decimal(n) != "None"
  {
    assert IsDigit(Decimal(n)[0]) && !IsDigit("None"[0]);
  }

  /** A colon-free head is recovered from `head + ":" + tail`. */
  lemma {:induction false} ColonSplit(a1: string, b1: string, a2: string, b2: string)
    requires ':' !in a1 && ':' !in a2 && a1 + ":" + b1 == a2 + ":" + b2
    ensures a1 == a2 && b1 == b2
  {
    var s1, s2 := a1 + ":" + b1, a2 + ":" + b2;
    FirstColon(a1, b1);
    FirstColon(a2, b2);
    assert a1 == s1[..|a1|] && a2 == s2[..|a2|];
    assert b1 == s1[|a1| + 1..] && b2 == s2[|a2| + 1..];
  }

  /** The first colon of `a + ":" + b` is the one after `a`. */
  lemma {:induction false} FirstColon(a: string, b: string)
    requires ':' !in a
    ensures IndexOf(a + ":" + b, ":", 0) == |a|
  {
    var s := a + ":" + b;
    IndexOfFirst(s, ":", 0);
    assert OccursAt(s, ":", |a|);
    forall i | 0 <= i < |a|
      ensures !OccursAt(s, ":", i)
    {
      assert s[i..i + 1] == [a[i]];
    }
  }

  /** What `after` queues: the notification's batching key, the integration
      whose token posts it, the channel id and the set of tags. */
  datatype Notification = Notification(key: string, integration: Integration, channel: Option<string>,
                                       tags: set<string>)

  /** `after`: nothing when the integration is gone, else one notification
      for the stored workspace and channel id. */
  function After(installed: seq<Integration>, workspace: Option<nat>, channelId: Option<string>,
                 tags: Option<string>): (r: Option<Notification>)
    ensures r.None? <==> FindIntegration(installed, workspace).None?
    ensures r.Some? ==> r.value.key == NotificationKey(workspace, channelId) && r.value.channel == channelId
                        && r.value.integration == FindIntegration(installed, workspace).value
                        && forall t :: t in r.value.tags <==> t in GetTagsList(tags)
  {
    match FindIntegration(installed, workspace)
    case None => None
    case Some(integration) =>
      var list := GetTagsList(tags);
      Some(Notification(NotificationKey(workspace, channelId), integration, channelId,
                        set k | 0 <= k < |list| :: list[k]))
  }
}
