/**
 NIP-29 group state as values (src/nip29.rs): channel metadata and member lists, their tag encodings,
 and the pure command semantics that the signed 39000/39001/39002 events are supposed to carry.
 */
module Groups {
  import opened Options
  import opened Ids
  import opened Events

  const KIND_METADATA := 39000
  const KIND_ADMINS := 39001
  const KIND_MEMBERS := 39002

  const KIND_ADD_USER := 9000
  const KIND_REMOVE_USER := 9001
  const KIND_EDIT_METADATA := 9002
  const KIND_CREATE := 9007
  const KIND_DELETE_GROUP := 9008
  const KIND_JOIN_REQUEST := 9021
  const KIND_LEAVE_REQUEST := 9022

  predicate IsGroupState(kind: nat) {
    kind == KIND_METADATA || kind == KIND_ADMINS || kind == KIND_MEMBERS
  }

  // ---- channel metadata ----------------------------------------------------

  datatype ChannelMeta = ChannelMeta(
    id: string,
    name: string,
    about: Option<string>,
    channelType: string,
    isPrivate: bool,
    topic: Option<string>,
    purpose: Option<string>,
    ttl: Option<string>,
    archived: bool,
    deleted: bool)

  function NonEmpty(v: Option<string>): Option<string> {
    if v == Some("") then None else v
  }

  /** `from_event`, on the tags. */
  function MetaOf(tags: seq<Tag>): ChannelMeta {
    ChannelMeta(
      FirstTag(tags, "d").GetOr(""),
      FirstTag(tags, "name").GetOr(""),
      NonEmpty(FirstTag(tags, "about")),
      NonEmpty(FirstTag(tags, "t")).GetOr("stream"),
      HasTag(tags, "private"),
      NonEmpty(FirstTag(tags, "topic")),
      NonEmpty(FirstTag(tags, "purpose")),
      NonEmpty(FirstTag(tags, "ttl")),
      FirstTag(tags, "archived") == Some("true"),
      FirstTag(tags, "deleted") == Some("true"))
  }

  /** One possible tag: a name and, when the tag is present, its value. */
  datatype Field = Field(name: string, value: Option<string>)

  function Flag(on: bool): Option<string> {
    if on then Some("true") else None
  }

  function Fields(m: ChannelMeta): seq<Field> {
    [Field("d", Some(m.id)),
     Field("h", Some(m.id)),
     Field("name", Some(m.name)),
     Field("t", Some(m.channelType)),
     Field("visibility", Some(if m.isPrivate then "private" else "open")),
     Field("about", Some(m.about.GetOr(""))),
     Field("private", Flag(m.isPrivate)),
     Field("topic", m.topic),
     Field("purpose", m.purpose),
     Field("ttl", m.ttl),
     Field("archived", Flag(m.archived)),
     Field("deleted", Flag(m.deleted))]
  }

  function Written(fields: seq<Field>): seq<Tag> {
    if fields == [] then []
    else (if fields[0].value.Some? then [[fields[0].name, fields[0].value.value]] else []) + Written(fields[1..])
  }

  /** `to_tags`: absent optional fields are left out, except `about`, which is then empty. */
  function ToTags(m: ChannelMeta): seq<Tag> {
    Written(Fields(m))
  }

  /** Optional texts are absent rather than empty, and a channel has a type. */
  predicate WellFormed(m: ChannelMeta) {
    && m.about != Some("") && m.topic != Some("") && m.purpose != Some("") && m.ttl != Some("")
    && m.channelType != ""
  }

  predicate DistinctNames(fields: seq<Field>) {
    forall i, j :: 0 <= i < j < |fields| ==> fields[i].name != fields[j].name
  }

  lemma {:induction false} NoSuchField(fields: seq<Field>, name: string)
    requires forall i :: 0 <= i < |fields| ==> fields[i].name != name
    ensures !HasTag(Written(fields), name) && FirstTag(Written(fields), name) == None
  {
    if fields != [] {
      NoSuchField(fields[1..], name);
      var t := Written(fields);
      if fields[0].value.Some? { assert t[1..] == Written(fields[1..]); } else { assert t == Written(fields[1..]); }
    }
  }

  /** Reading a tag list back, field by field. */
  lemma {:induction false} FieldReadsBack(fields: seq<Field>, i: nat)
    requires DistinctNames(fields) && i < |fields|
    ensures FirstTag(Written(fields), fields[i].name) == fields[i].value
    ensures HasTag(Written(fields), fields[i].name) <==> fields[i].value.Some?
  {
    var t := Written(fields);
    if fields[0].value.Some? { assert t[1..] == Written(fields[1..]); } else { assert t == Written(fields[1..]); }
    if i == 0 {
      forall k | 0 <= k < |fields| - 1 ensures fields[1..][k].name != fields[0].name {
        assert fields[1..][k] == fields[k + 1];
      }
      NoSuchField(fields[1..], fields[0].name);
    } else {
      assert fields[1..][i - 1] == fields[i];
      FieldReadsBack(fields[1..], i - 1);
    }
  }

  lemma FieldNamesAreDistinct(m: ChannelMeta)
    ensures DistinctNames(Fields(m))
  {
    var fs := Fields(m);
    var names := ["d", "h", "name", "t", "visibility", "about", "private", "topic", "purpose", "ttl", "archived",
      "deleted"];
    assert forall i :: 0 <= i < |fs| ==> fs[i].name == names[i];
    forall i, j | 0 <= i < j < |names| ensures names[i] != names[j] {
      assert |names[i]| != |names[j]| || names[i][0] != names[j][0] || (|names[i]| > 1 && names[i][1] != names[j][1]);
    }
  }

  lemma AllFieldsReadBack(m: ChannelMeta)
    ensures forall i :: 0 <= i < 12 ==>
      && FirstTag(ToTags(m), Fields(m)[i].name) == Fields(m)[i].value
      && (HasTag(ToTags(m), Fields(m)[i].name) <==> Fields(m)[i].value.Some?)
  {
    FieldNamesAreDistinct(m);
    forall i | 0 <= i < 12
      ensures FirstTag(ToTags(m), Fields(m)[i].name) == Fields(m)[i].value
      ensures HasTag(ToTags(m), Fields(m)[i].name) <==> Fields(m)[i].value.Some?
    {
      FieldReadsBack(Fields(m), i);
    }
  }

  /** Metadata survives the round trip through its tags exactly when it is well formed. */
  lemma MetaRoundTrip(m: ChannelMeta)
    ensures MetaOf(ToTags(m)) == m <==> WellFormed(m)
  {
    hide ToTags, FirstTag, HasTag;
    AllFieldsReadBack(m);
    FieldNames(m);
  }

  lemma FieldNames(m: ChannelMeta)
    ensures var fs := Fields(m);
            && |fs| == 12
            && fs[0].name == "d" && fs[2].name == "name" && fs[3].name == "t" && fs[5].name == "about"
            && fs[6].name == "private" && fs[7].name == "topic" && fs[8].name == "purpose" && fs[9].name == "ttl"
            && fs[10].name == "archived" && fs[11].name == "deleted"
  {
  }

  lemma ReadMetaIsWellFormed(tags: seq<Tag>)
    ensures WellFormed(MetaOf(tags))
  {
  }

  /**
   How a reader takes metadata: the first tag of each name counts, an empty text is no text, a channel
   without a type is a stream, and a channel is private when there is a `private` tag, whatever it says.
   */
  lemma MetaIsRead(tags: seq<Tag>, v: string)
    ensures var m := MetaOf(tags);
            && (m.isPrivate <==> exists k :: 0 <= k < |tags| && |tags[k]| >= 1 && tags[k][0] == "private")
            && (m.channelType == "stream" <==> FirstTag(tags, "t") in [None, Some(""), Some("stream")])
            && (v != "" && v != "stream" ==> (m.channelType == v <==> FirstTag(tags, "t") == Some(v)))
            && (m.name == v <==> FirstTag(tags, "name") == Some(v) || (v == "" && FirstTag(tags, "name") == None))
            && (v != "" ==> (m.about == Some(v) <==> FirstTag(tags, "about") == Some(v)))
            && (v != "" ==> (m.topic == Some(v) <==> FirstTag(tags, "topic") == Some(v)))
            && (v != "" ==> (m.purpose == Some(v) <==> FirstTag(tags, "purpose") == Some(v)))
            && (v != "" ==> (m.ttl == Some(v) <==> FirstTag(tags, "ttl") == Some(v)))
            && (m.archived <==> FirstTag(tags, "archived") == Some("true"))
            && (m.deleted <==> FirstTag(tags, "deleted") == Some("true"))
  {
    FirstTagReads(tags, "private", v);
    hide FirstTag, HasTag;
  }

  // ---- member lists --------------------------------------------------------

  type Entry = (string, string)

  /** One `p` tag as a list entry; a missing or empty role reads as "member". */
  function EntryOf(t: Tag): Option<Entry> {
    if !Named(t, "p") || |t| < 2 then None
    else Some((t[1], if |t| >= 3 && t[2] != "" then t[2] else "member"))
  }

  function PEntries(tags: seq<Tag>): seq<Entry> {
    if tags == [] then []
    else (match EntryOf(tags[0]) case None => [] case Some(e) => [e]) + PEntries(tags[1..])
  }

  /** The tag is `["p", key, role, ..]`; without a role, or with an empty one, it says "member". */
  predicate Entitles(t: Tag, e: Entry) {
    |t| >= 2 && t[0] == "p" && t[1] == e.0 && e.1 == if |t| == 2 || t[2] == "" then "member" else t[2]
  }

  /** The entries read from an event are exactly those its `p` tags give. */
  lemma {:induction false} EntriesAreRead(tags: seq<Tag>, e: Entry)
    ensures e in PEntries(tags) <==>
            exists i :: 0 <= i < |tags| && Entitles(tags[i], e)
  {
    if tags != [] {
      var rest := tags[1..];
      EntriesAreRead(rest, e);
      assert EntryOf(tags[0]) == Some(e) <==> Entitles(tags[0], e);
      hide Entitles, EntryOf;
      assert forall i :: 0 < i < |tags| ==> tags[i] == rest[i - 1];
      var head := match EntryOf(tags[0]) case None => [] case Some(x) => [x];
      assert PEntries(tags) == head + PEntries(rest);
      if i :| 0 <= i < |rest| && Entitles(rest[i], e) { assert tags[i + 1] == rest[i]; }
    }
  }

  function PTags(entries: seq<Entry>): seq<Tag> {
    seq(|entries|, i requires 0 <= i < |entries| => ["p", entries[i].0, entries[i].1])
  }

  function ListTags(channel: string, entries: seq<Entry>): seq<Tag> {
    [["d", channel], ["h", channel]] + PTags(entries)
  }

  predicate RolesNamed(entries: seq<Entry>) {
    forall i :: 0 <= i < |entries| ==> entries[i].1 != ""
  }

  lemma {:induction false} PTagsRoundTrip(entries: seq<Entry>)
    ensures |PEntries(PTags(entries))| == |entries|
    ensures PEntries(PTags(entries)) == entries <==> RolesNamed(entries)
  {
    var t := PTags(entries);
    if entries != [] {
      assert t[1..] == PTags(entries[1..]);
      PTagsRoundTrip(entries[1..]);
      var e := EntryOf(t[0]).value;
      assert PEntries(t) == [e] + PEntries(PTags(entries[1..]));
      assert entries == [entries[0]] + entries[1..];
      assert RolesNamed(entries) <==> entries[0].1 != "" && RolesNamed(entries[1..]) by {
        if RolesNamed(entries[1..]) && entries[0].1 != "" {
          forall i | 0 <= i < |entries| ensures entries[i].1 != "" {
            if i > 0 { assert entries[1..][i - 1] == entries[i]; }
          }
        }
      }
      assert PEntries(t) == entries <==> e == entries[0] && PEntries(PTags(entries[1..])) == entries[1..] by {
        if PEntries(t) == entries { assert PEntries(t)[0] == e && PEntries(t)[1..] == PEntries(PTags(entries[1..])); }
      }
    }
  }

  /** A list survives the round trip through its tags exactly when every entry names its role. */
  lemma ListRoundTrip(channel: string, entries: seq<Entry>)
    ensures PEntries(ListTags(channel, entries)) == entries <==> RolesNamed(entries)
    ensures FirstTag(ListTags(channel, entries), "d") == Some(channel)
  {
    var t := ListTags(channel, entries);
    PTagsRoundTrip(entries);
    assert t[0] == ["d", channel] && t[1] == ["h", channel];
    assert t[1..][0] == ["h", channel];
    assert t[1..][1..] == PTags(entries);
    assert EntryOf(t[0]) == None && EntryOf(t[1]) == None;
    assert PEntries(t[1..]) == PEntries(PTags(entries));
    assert PEntries(t) == PEntries(t[1..]);
  }

  lemma {:induction false} ReadRolesAreNamed(tags: seq<Tag>)
    ensures RolesNamed(PEntries(tags))
  {
    if tags != [] { ReadRolesAreNamed(tags[1..]); }
  }

  function Position(entries: seq<Entry>, key: string): (i: nat)
    ensures i <= |entries|
    ensures i < |entries| ==> entries[i].0 == key
    ensures forall j :: 0 <= j < i ==> entries[j].0 != key
  {
    if entries == [] then 0 else if entries[0].0 == key then 0 else 1 + Position(entries[1..], key)
  }

  predicate Listed(entries: seq<Entry>, key: string) {
    exists i :: 0 <= i < |entries| && entries[i].0 == key
  }

  function Upserted(entries: seq<Entry>, key: string, role: string): seq<Entry> {
    var i := Position(entries, key);
    if i < |entries| then entries[i := (key, role)] else entries + [(key, role)]
  }

  function Removed(entries: seq<Entry>, key: string): seq<Entry> {
    if entries == [] then []
    else (if entries[0].0 != key then [entries[0]] else []) + Removed(entries[1..], key)
  }

  predicate UniqueKeys(entries: seq<Entry>) {
    forall i, j :: 0 <= i < j < |entries| ==> entries[i].0 != entries[j].0
  }

  function RoleIn(entries: seq<Entry>, key: string): Option<string> {
    var i := Position(entries, key);
    if i < |entries| then Some(entries[i].1) else None
  }

  /** An upsert sets one member's role, keeps everybody else's, and never lists a key twice. */
  lemma UpsertSetsOneRole(entries: seq<Entry>, key: string, role: string, other: string)
    ensures RoleIn(Upserted(entries, key, role), other) == if other == key then Some(role) else RoleIn(entries, other)
    ensures UniqueKeys(entries) ==> UniqueKeys(Upserted(entries, key, role))
    ensures RolesNamed(entries) && role != "" ==> RolesNamed(Upserted(entries, key, role))
    ensures forall k :: 0 <= k < |entries| ==> Upserted(entries, key, role)[k].0 == entries[k].0
  {
    var was, now := entries, Upserted(entries, key, role);
    var i, j := Position(was, other), Position(now, other);
    assert forall k :: 0 <= k < |was| ==> now[k].0 == was[k].0;
    if i < |was| {
      assert j == i;
    } else if other == key {
      assert now[|was|].0 == other;
    }
  }

  lemma {:induction false} RemovedEntries(entries: seq<Entry>, key: string, e: Entry)
    ensures e in Removed(entries, key) <==> e in entries && e.0 != key
  {
    if entries != [] {
      RemovedEntries(entries[1..], key, e);
      assert e in entries <==> e == entries[0] || e in entries[1..];
    }
  }

  lemma {:induction false} RemovedRole(entries: seq<Entry>, key: string, other: string)
    ensures RoleIn(Removed(entries, key), other) == if other == key then None else RoleIn(entries, other)
  {
    if entries != [] {
      RemovedRole(entries[1..], key, other);
      var rest := Removed(entries[1..], key);
      if entries[0].0 != key {
        assert Removed(entries, key) == [entries[0]] + rest;
        assert ([entries[0]] + rest)[1..] == rest;
      } else {
        assert Removed(entries, key) == rest;
      }
    }
  }

  lemma ConsKeepsUnique(e: Entry, rest: seq<Entry>)
    requires UniqueKeys(rest) && forall k :: 0 <= k < |rest| ==> rest[k].0 != e.0
    ensures UniqueKeys([e] + rest)
  {
    var all := [e] + rest;
    forall i, j | 0 <= i < j < |all| ensures all[i].0 != all[j].0 {
      assert all[j] == rest[j - 1] && (i > 0 ==> all[i] == rest[i - 1]);
    }
  }

  lemma {:induction false} RemovedKeepsUnique(entries: seq<Entry>, key: string)
    requires UniqueKeys(entries)
    ensures UniqueKeys(Removed(entries, key))
  {
    if entries != [] {
      var rest := Removed(entries[1..], key);
      RemovedKeepsUnique(entries[1..], key);
      forall k | 0 <= k < |rest| ensures rest[k].0 != entries[0].0 {
        RemovedEntries(entries[1..], key, rest[k]);
        var i :| 0 <= i < |entries| - 1 && entries[1..][i] == rest[k];
        assert entries[i + 1] == rest[k];
      }
      ConsKeepsUnique(entries[0], rest);
    }
  }

  /** A removal drops every entry of one key and leaves the other members and their roles. */
  lemma RemoveDropsOne(entries: seq<Entry>, key: string, other: string)
    ensures RoleIn(Removed(entries, key), other) == if other == key then None else RoleIn(entries, other)
    ensures UniqueKeys(entries) ==> UniqueKeys(Removed(entries, key))
    ensures RolesNamed(entries) ==> RolesNamed(Removed(entries, key))
    ensures forall e :: e in Removed(entries, key) <==> e in entries && e.0 != key
  {
    RemovedRole(entries, key, other);
    if UniqueKeys(entries) { RemovedKeepsUnique(entries, key); }
    forall e ensures e in Removed(entries, key) <==> e in entries && e.0 != key { RemovedEntries(entries, key, e); }
    forall i | 0 <= i < |Removed(entries, key)| && RolesNamed(entries) ensures Removed(entries, key)[i].1 != "" {
      assert Removed(entries, key)[i] in entries;
    }
  }

  /** The mutable list a command edits before it is signed again. */
  class MemberSet {
    var entries: seq<Entry>

    constructor (initial: seq<Entry>)
      ensures entries == initial
    {
      entries := initial;
    }

    method Upsert(key: string, role: string)
      modifies this
      ensures entries == Upserted(old(entries), key, role)
    {
      var i := 0;
      while i < |entries|
        invariant 0 <= i <= |entries| && entries == old(entries)
        invariant forall j :: 0 <= j < i ==> entries[j].0 != key
      {
        if entries[i].0 == key {
          assert Position(entries, key) == i;
          entries := entries[i := (key, role)];
          return;
        }
        i := i + 1;
      }
      entries := entries + [(key, role)];
    }

    method Remove(key: string)
      modifies this
      ensures entries == Removed(old(entries), key)
    {
      var kept: seq<Entry> := [];
      var i := 0;
      while i < |entries|
        invariant 0 <= i <= |entries| && entries == old(entries)
        invariant kept + Removed(entries[i..], key) == Removed(entries, key)
      {
        if entries[i].0 != key { kept := kept + [entries[i]]; }
        assert entries[i..][1..] == entries[i + 1..];
        i := i + 1;
      }
      entries := kept;
    }
  }

  // ---- the pure machine ----------------------------------------------------

  /** What one channel's three lists say. */
  datatype ChannelState = ChannelState(meta: Option<ChannelMeta>, admins: Option<seq<Entry>>, members: seq<Entry>)

  const NO_CHANNEL_YET := ChannelState(None, None, [])

  datatype Refusal =
    | NoChannelTag
    | EmptyChannelTag
    | NotAdmin
    | NoName
    | NameCleared
    | UnknownGroup
    | NoTarget
    | NotOpen
    | UnsupportedKind
    | BadKey

  datatype Verdict = Refuse(why: Refusal) | Change(next: ChannelState)

  /**
   With an admin list only its keys may moderate; without one the membership mirror answers, which
   is outside this model and therefore an input.
   */
  predicate Authorized(admins: Option<seq<Entry>>, author: string, mirrored: bool) {
    match admins
    case Some(es) => Listed(es, author)
    case None => mirrored
  }

  function Created(c: ChannelState, channel: string, author: string, tags: seq<Tag>): ChannelState {
    ChannelState(
      Some(ChannelMeta(
        channel,
        FirstTag(tags, "name").GetOr(""),
        NonEmpty(FirstTag(tags, "about")),
        NonEmpty(FirstTag(tags, "channel_type")).GetOr("stream"),
        FirstTag(tags, "visibility") == Some("private"),
        None, None,
        NonEmpty(FirstTag(tags, "ttl")),
        false, false)),
      Some([(author, "admin")]),
      Upserted(c.members, author, "owner"))
  }

  /** Only tags that are present change anything; an empty value clears an optional text. */
  function Edited(m: ChannelMeta, tags: seq<Tag>): ChannelMeta {
    m.(name := FirstTag(tags, "name").GetOr(m.name),
       about := if HasTag(tags, "about") then NonEmpty(FirstTag(tags, "about")) else m.about,
       isPrivate := if HasTag(tags, "visibility") then FirstTag(tags, "visibility") == Some("private") else m.isPrivate,
       ttl := if HasTag(tags, "ttl") then NonEmpty(FirstTag(tags, "ttl")) else m.ttl,
       topic := if HasTag(tags, "topic") then NonEmpty(FirstTag(tags, "topic")) else m.topic,
       purpose := if HasTag(tags, "purpose") then NonEmpty(FirstTag(tags, "purpose")) else m.purpose,
       archived := if HasTag(tags, "archived") then FirstTag(tags, "archived") == Some("true") else m.archived)
  }

  /** One group command on one channel. */
  function Next(c: ChannelState, channel: string, kind: nat, author: string, tags: seq<Tag>, mirrored: bool): Verdict {
    var mayModerate := Authorized(c.admins, author, mirrored);
    if kind == KIND_CREATE then
      if c.meta.Some? && !mayModerate then Refuse(NotAdmin)
      else if FirstTag(tags, "name").GetOr("") == "" then Refuse(NoName)
      else Change(Created(c, channel, author, tags))
    else if kind == KIND_EDIT_METADATA then
      if c.meta.None? then Refuse(UnknownGroup)
      else if !mayModerate then Refuse(NotAdmin)
      else if FirstTag(tags, "name") == Some("") then Refuse(NameCleared)
      else Change(c.(meta := Some(Edited(c.meta.value, tags))))
    else if kind == KIND_ADD_USER then
      if c.meta.None? then Refuse(UnknownGroup)
      else if !mayModerate then Refuse(NotAdmin)
      else (match FirstTag(tags, "p")
            case None => Refuse(NoTarget)
            case Some(p) => Change(c.(members := Upserted(c.members, p,
              NonEmpty(FirstTag(tags, "role")).GetOr("member")))))
    else if kind == KIND_REMOVE_USER then
      if c.meta.None? then Refuse(UnknownGroup)
      else if !mayModerate then Refuse(NotAdmin)
      else (match FirstTag(tags, "p")
            case None => Refuse(NoTarget)
            case Some(p) => Change(c.(members := Removed(c.members, p))))
    else if kind == KIND_JOIN_REQUEST then
      if c.meta.None? then Refuse(UnknownGroup)
      else if c.meta.value.isPrivate then Refuse(NotOpen)
      else Change(c.(members := Upserted(c.members, author, "member")))
    else if kind == KIND_LEAVE_REQUEST then
      if c.meta.None? then Refuse(UnknownGroup)
      else Change(c.(members := Removed(c.members, author)))
    else if kind == KIND_DELETE_GROUP then
      if c.meta.None? then Refuse(UnknownGroup)
      else if !mayModerate then Refuse(NotAdmin)
      else Change(c.(meta := Some(c.meta.value.(archived := true, deleted := true)), members := []))
    else Refuse(UnsupportedKind)
  }

  /** An accepted invite: a key not yet listed joins as a plain member, and nobody else changes. */
  function Admitted(c: ChannelState, key: string): ChannelState {
    if Listed(c.members, key) then c else c.(members := Upserted(c.members, key, "member"))
  }

  /** What every channel state carries: metadata that round-trips and lists whose roles are named. */
  predicate StateOk(c: ChannelState) {
    && (c.meta.Some? ==> WellFormed(c.meta.value))
    && (c.admins.Some? ==> RolesNamed(c.admins.value))
    && RolesNamed(c.members) && UniqueKeys(c.members)
  }

  lemma ListEditsKeepOk(entries: seq<Entry>, key: string, role: string)
    requires RolesNamed(entries) && UniqueKeys(entries)
    ensures role != "" ==> RolesNamed(Upserted(entries, key, role)) && UniqueKeys(Upserted(entries, key, role))
    ensures RolesNamed(Removed(entries, key)) && UniqueKeys(Removed(entries, key))
  {
    if role != "" { UpsertSetsOneRole(entries, key, role, key); }
    RemoveDropsOne(entries, key, key);
  }

  lemma MetaEditsKeepOk(c: ChannelState, m: ChannelMeta, channel: string, author: string, tags: seq<Tag>)
    ensures FirstTag(tags, "name").GetOr("") != "" ==> WellFormed(Created(c, channel, author, tags).meta.value)
    ensures WellFormed(m) && FirstTag(tags, "name") != Some("") ==> WellFormed(Edited(m, tags))
    ensures WellFormed(m) ==> WellFormed(m.(archived := true, deleted := true))
    ensures RolesNamed([(author, "admin")])
  {
    hide FirstTag, HasTag;
  }

  lemma NextKeepsStateOk(c: ChannelState, channel: string, kind: nat, author: string, tags: seq<Tag>, mirrored: bool)
    requires StateOk(c) && Next(c, channel, kind, author, tags, mirrored).Change?
    ensures StateOk(Next(c, channel, kind, author, tags, mirrored).next)
  {
    hide Upserted, Removed, RoleIn, RolesNamed, UniqueKeys, WellFormed, FirstTag, HasTag, Edited;
    ListEditsKeepOk(c.members, author, "owner");
    ListEditsKeepOk(c.members, author, "member");
    var was := if c.meta.Some? then c.meta else Created(c, channel, author, tags).meta;
    MetaEditsKeepOk(c, was.value, channel, author, tags);
    if FirstTag(tags, "p").Some? {
      ListEditsKeepOk(c.members, FirstTag(tags, "p").value, NonEmpty(FirstTag(tags, "role")).GetOr("member"));
    }
    NobodyIsOk();
  }

  lemma NobodyIsOk()
    ensures RolesNamed([]) && UniqueKeys([])
  {
  }

  lemma AdmittedKeepsStateOk(c: ChannelState, key: string)
    requires StateOk(c)
    ensures StateOk(Admitted(c, key))
  {
    UpsertSetsOneRole(c.members, key, "member", key);
  }

  // ---- who may change what -------------------------------------------------

  lemma RemovalListsNobody(entries: seq<Entry>, key: string, other: string)
    requires Listed(Removed(entries, key), other)
    ensures Listed(entries, other) && other != key
  {
    var i :| 0 <= i < |Removed(entries, key)| && Removed(entries, key)[i].0 == other;
    RemovedEntries(entries, key, Removed(entries, key)[i]);
  }

  /** All that an outsider's command can be is a join of an open channel or a leave. */
  lemma OutsidersJoinOrLeave(c: ChannelState, channel: string, kind: nat, author: string, tags: seq<Tag>,
        mirrored: bool)
    requires c.meta.Some? && c.admins.Some? && !Listed(c.admins.value, author)
    requires Next(c, channel, kind, author, tags, mirrored).Change?
    ensures var next := Next(c, channel, kind, author, tags, mirrored).next;
            || (!c.meta.value.isPrivate && next == c.(members := Upserted(c.members, author, "member")))
            || next == c.(members := Removed(c.members, author))
  {
    hide FirstTag, HasTag, NonEmpty, Upserted, Removed, Listed, Created, Edited;
  }

  /**
   In a channel with an admin list, a command by anybody else leaves the metadata and the admin list
   alone and everybody else's role too; and in a private channel it lists nobody new.
   */
  lemma OutsidersOnlyMoveThemselves(c: ChannelState, channel: string, kind: nat, author: string, tags: seq<Tag>,
        mirrored: bool, other: string)
    requires c.meta.Some? && c.admins.Some? && !Listed(c.admins.value, author)
    requires Next(c, channel, kind, author, tags, mirrored).Change?
    ensures var next := Next(c, channel, kind, author, tags, mirrored).next;
            && next.meta == c.meta && next.admins == c.admins
            && (other != author ==> RoleIn(next.members, other) == RoleIn(c.members, other))
            && (c.meta.value.isPrivate && Listed(next.members, other) ==> Listed(c.members, other))
  {
    OutsidersJoinOrLeave(c, channel, kind, author, tags, mirrored);
    UpsertSetsOneRole(c.members, author, "member", other);
    RemoveDropsOne(c.members, author, other);
    if Listed(Removed(c.members, author), other) { RemovalListsNobody(c.members, author, other); }
    hide Next, Upserted, Removed, RoleIn, Listed;
  }
}
