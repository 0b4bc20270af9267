/**
  Room keys (internal/domain/realtime/model/room.go): a room is named by the text
  org:<uuid>:app:<uuid>:channel:<name>.
 */
module RoomKeys {
  import opened Outcomes
  import opened Strings
  import opened Uuids

  const DEFAULT_CHANNEL := "events"
  const MAX_CHANNEL_LEN := 64

  const ORG_TAG := "org:"
  const APP_TAG := ":app:"
  const CHANNEL_TAG := ":channel:"

  type RoomKey = string

  datatype KeyError = InvalidChannelName | InvalidFormat | InvalidOrganizationId | InvalidAppId

  datatype RoomParts = RoomParts(org: Uuid, app: Uuid, channel: string)

  // ----- Channel names and room keys -----

  predicate IsChannelChar(c: char) {
    'a' <= c <= 'z' || 'A' <= c <= 'Z' || '0' <= c <= '9' || c == '_' || c == '-'
  }

  /** The channel-name pattern: 1 to 64 letters, digits, underscores or hyphens. */
  predicate IsChannelName(s: string) {
    1 <= |s| <= MAX_CHANNEL_LEN && forall i :: 0 <= i < |s| ==> IsChannelChar(s[i])
  }

  function Normalize(channel: string): string {
    var trimmed := TrimSpace(channel);
    if trimmed == "" then DEFAULT_CHANNEL else trimmed
  }

  function RoomText(org: Uuid, app: Uuid, channel: string): RoomKey {
    ORG_TAG + UuidText(org) + APP_TAG + UuidText(app) + CHANNEL_TAG + channel
  }

  function BuildRoomKey(org: Uuid, app: Uuid, channel: string): Result<RoomKey, KeyError> {
    var name := Normalize(channel);
    if !IsChannelName(name) then Err(InvalidChannelName)
    else Ok(RoomText(org, app, name))
  }

  function ParseRoomKey(key: RoomKey): Result<RoomParts, KeyError> {
    if !HasPrefix(key, ORG_TAG) || Cut(key, APP_TAG).None? || Cut(key, CHANNEL_TAG).None? then Err(InvalidFormat)
    else
      var appSplit := Cut(key[|ORG_TAG|..], APP_TAG);
      if appSplit.None? then Err(InvalidFormat)
      else
        var channelSplit := Cut(appSplit.value.1, CHANNEL_TAG);
        if channelSplit.None? then Err(InvalidFormat)
        else
          var org, app := ParseUuid(appSplit.value.0), ParseUuid(channelSplit.value.0);
          if org.None? then Err(InvalidOrganizationId)
          else if app.None? then Err(InvalidAppId)
          else Ok(RoomParts(org.value, app.value, channelSplit.value.1))
  }

  function ValidateChannelName(name: string): Result<(), KeyError> {
    if IsChannelName(TrimSpace(name)) then Ok(()) else Err(InvalidChannelName)
  }

  // ----- What the two directions promise -----

  /** A separator that starts with a colon is found right after a colon-free field. */
  lemma {:induction false} CutAfterField(field: string, sep: string, tail: string, from: nat)
    requires ':' !in field && sep != "" && sep[0] == ':' && from <= |field|
    ensures Cut(field + sep + tail, sep, from) == Some((field, tail))
    decreases |field| - from
  {
    var s := field + sep + tail;
    if from == |field| {
      assert s[from..][..|sep|] == sep;
      assert s[..from] == field && s[from + |sep|..] == tail;
    } else {
      assert s[from..][0] == field[from] && field[from] in field;
      assert |s[from..]| >= |sep| ==> s[from..][..|sep|][0] == field[from];
      CutAfterField(field, sep, tail, from + 1);
    }
  }

  /** A separator occurring anywhere is found by the scan. */
  lemma SeparatorFound(s: string, head: string, sep: string, tail: string)
    requires s == head + sep + tail
    ensures Cut(s, sep).Some?
  {
    assert s[|head|..][..|sep|] == sep;
    assert HasPrefix(s[|head|..], sep);
  }

  /** The three tags of a key with colon-free fields are found where they were put. */
  lemma TagsFound(o: string, a: string, channel: string)
    requires ':' !in o && ':' !in a
    ensures var key := ORG_TAG + o + APP_TAG + a + CHANNEL_TAG + channel;
      && HasPrefix(key, ORG_TAG) && Cut(key, APP_TAG).Some? && Cut(key, CHANNEL_TAG).Some?
      && Cut(key[|ORG_TAG|..], APP_TAG) == Some((o, a + CHANNEL_TAG + channel))
      && Cut(a + CHANNEL_TAG + channel, CHANNEL_TAG) == Some((a, channel))
  {
    var key := ORG_TAG + o + APP_TAG + a + CHANNEL_TAG + channel;
    var rest := a + CHANNEL_TAG + channel;
    assert key == ORG_TAG + o + APP_TAG + rest;
    assert key[|ORG_TAG|..] == o + APP_TAG + rest;
    assert key[..|ORG_TAG|] == ORG_TAG;
    SeparatorFound(key, ORG_TAG + o, APP_TAG, rest);
    SeparatorFound(key, ORG_TAG + o + APP_TAG + a, CHANNEL_TAG, channel);
    CutAfterField(o, APP_TAG, rest, 0);
    CutAfterField(a, CHANNEL_TAG, channel, 0);
  }

  /** Whatever text follows the last tag, a printed key parses back into its parts. */
  lemma ParseRoomText(org: Uuid, app: Uuid, channel: string)
    ensures ParseRoomKey(RoomText(org, app, channel)) == Ok(RoomParts(org, app, channel))
  {
    UuidTextNoColon(org);
    UuidTextNoColon(app);
    UuidRoundTrip(org);
    UuidRoundTrip(app);
    TagsFound(UuidText(org), UuidText(app), channel);
  }

  /**
    Which error a key gets: of the form with the three tags, but with an organization or application that does not
    read, in this order.
   */
  lemma ParseErrors(o: string, a: string, channel: string)
    requires ':' !in o && ':' !in a
    ensures ParseRoomKey("org:" + o + ":app:" + a + ":channel:" + channel) ==
      if ParseUuid(o).None? then Err(InvalidOrganizationId)
      else if ParseUuid(a).None? then Err(InvalidAppId)
      else Ok(RoomParts(ParseUuid(o).value, ParseUuid(a).value, channel))
  {
    hide ParseUuid;
    TagsFound(o, a, channel);
  }

  /** A cut takes the first occurrence, so all that is behind any occurrence is behind the cut. */
  lemma CutKeepsTail(o: string, sep: string, last: string) returns (head: string)
    requires sep != ""
    ensures Cut(o + sep + last, sep).Some? && Cut(o + sep + last, sep).value.1 == head + last
  {
    var s := o + sep + last;
    SeparatorFound(s, o, sep, last);
    var (front, back) := Cut(s, sep).value;
    assert s[|o|..][..|sep|] == sep && HasPrefix(s[|o|..], sep) && |front| <= |o|;
    head := back[..|back| - |last|];
    assert back == s[|front| + |sep|..];
    assert back[|back| - |last|..] == s[|s| - |last|..] == last;
  }

  lemma FormIsRead(o: string, a: string, c: string)
    ensures ParseRoomKey("org:" + o + ":app:" + a + ":channel:" + c) != Err(InvalidFormat)
  {
    hide ParseUuid, Cut;
    var last := a + CHANNEL_TAG + c;
    var key := "org:" + o + ":app:" + a + ":channel:" + c;
    assert key == (ORG_TAG + o) + APP_TAG + last && key[|ORG_TAG|..] == o + APP_TAG + last;
    SeparatorFound(key, ORG_TAG + o, APP_TAG, last);
    SeparatorFound(key, ORG_TAG + o + APP_TAG + a, CHANNEL_TAG, c);
    var head := CutKeepsTail(o, APP_TAG, last);
    assert head + last == (head + a) + CHANNEL_TAG + c;
    SeparatorFound(head + last, head + a, CHANNEL_TAG, c);
  }

  lemma FormIsThere(key: RoomKey)
    requires ParseRoomKey(key) != Err(InvalidFormat)
    ensures exists o, a, c :: key == "org:" + o + ":app:" + a + ":channel:" + c
  {
    hide ParseUuid, Cut;
    var app := Cut(key[|ORG_TAG|..], APP_TAG).value;
    var channel := Cut(app.1, CHANNEL_TAG).value;
    assert key == ORG_TAG + key[|ORG_TAG|..];
    assert key == "org:" + app.0 + ":app:" + channel.0 + ":channel:" + channel.1;
  }

  /** The format is at fault exactly when the key does not have the three tags, in this order. */
  lemma BadFormatExactly(key: RoomKey)
    ensures ParseRoomKey(key) == Err(InvalidFormat) <==>
      !exists o, a, c :: key == "org:" + o + ":app:" + a + ":channel:" + c
  {
    hide ParseRoomKey;
    if ParseRoomKey(key) != Err(InvalidFormat) {
      FormIsThere(key);
    }
    if o, a, c :| key == "org:" + o + ":app:" + a + ":channel:" + c {
      FormIsRead(o, a, c);
    }
  }

  /** The round trip: every accepted channel comes back trimmed, or as the default when blank. */
  lemma RoomKeyRoundTrip(org: Uuid, app: Uuid, channel: string)
    requires BuildRoomKey(org, app, channel).Ok?
    ensures ParseRoomKey(BuildRoomKey(org, app, channel).value) == Ok(RoomParts(org, app, Normalize(channel)))
  {
    ParseRoomText(org, app, Normalize(channel));
  }

  /** Two requests name the same room exactly when they agree up to normalisation of the channel. */
  lemma RoomKeyInjective(o1: Uuid, a1: Uuid, c1: string, o2: Uuid, a2: Uuid, c2: string)
    requires BuildRoomKey(o1, a1, c1).Ok? && BuildRoomKey(o2, a2, c2).Ok?
    ensures BuildRoomKey(o1, a1, c1) == BuildRoomKey(o2, a2, c2)
       <==> o1 == o2 && a1 == a2 && Normalize(c1) == Normalize(c2)
  {
    RoomKeyRoundTrip(o1, a1, c1);
    RoomKeyRoundTrip(o2, a2, c2);
  }

  /** The validator and the builder disagree exactly on blank names, which the builder replaces by the default. */
  lemma ValidateAgreesWithBuild(org: Uuid, app: Uuid, name: string)
    ensures BuildRoomKey(org, app, name).Ok? <==> ValidateChannelName(name).Ok? || TrimSpace(name) == ""
  {
  }

  /** What a channel name is, in code points: 1 to 64 digits, Latin letters, hyphens and underscores. */
  lemma ChannelNamesAre(name: string)
    ensures IsChannelName(name) <==> 1 <= |name| <= 64 && forall i :: 0 <= i < |name| ==>
      var n := name[i] as int; 48 <= n <= 57 || 65 <= n <= 90 || 97 <= n <= 122 || n == 45 || n == 95
  {
  }

  /** A channel name carries no white space, so normalising leaves it alone. */
  lemma ChannelNameIsNormal(name: string)
    requires IsChannelName(name)
    ensures Normalize(name) == name
  {
  }

  /** The default channel is accepted, so every client can join its own default room. */
  lemma DefaultRoom(org: Uuid, app: Uuid)
    ensures IsChannelName(DEFAULT_CHANNEL)
    ensures BuildRoomKey(org, app, DEFAULT_CHANNEL) == Ok(RoomText(org, app, DEFAULT_CHANNEL))
  {
  }
}
