/**
 What each group command leaves behind (src/nip29.rs `execute`), read back from the store and told in
 terms of the command's own tags: one lemma for each command, when a command is refused and why, and
 what the events it emits say.
 */
module GroupCommands {
  import opened Options
  import opened Events
  import opened Tables
  import opened Attach
  import opened Groups
  import opened GroupState
  import opened GroupRuns

  // ---- vocabulary ----------------------------------------------------------

  /** A command on a channel, run to its end: it was not refused, and every list it rewrites was stored. */
  ghost predicate Ran(u: Universe, r: Relay, db: Db, ev: Event, clock: nat -> nat, mirrored: bool, channel: string,
                      d: Db)
  {
    && GroupOk(u, r, db) && WithinCaps(db) && WithinCaps(d)
    && FirstTag(ev.tags, "h") == Some(channel) && channel != ""
    && var (after, answer) := Execute(db, r, ev, clock, mirrored);
       after == d && answer.Done?
  }

  /** An optional text is what the tag says; a tag without a value, or none at all, says nothing. */
  predicate Says(v: Option<string>, tags: seq<Tag>, name: string) {
    && (v.None? <==> FirstTag(tags, name) == None || FirstTag(tags, name) == Some(""))
    && (v.Some? ==> FirstTag(tags, name) == v)
  }

  /** A tag that is present sets an optional text; an absent one leaves it as it was. */
  predicate Sets(tags: seq<Tag>, name: string, was: Option<string>, now: Option<string>) {
    if FirstTag(tags, name).None? then now == was else Says(now, tags, name)
  }

  /** A tag that is present sets a flag by its value; an absent one leaves it as it was. */
  predicate SetsFlag(tags: seq<Tag>, name: string, value: string, was: bool, now: bool) {
    if FirstTag(tags, name).None? then now == was else now == (FirstTag(tags, name) == Some(value))
  }

  /** One key has this role now, and every other entry is as it was. */
  ghost predicate GivesRole(was: seq<Entry>, now: seq<Entry>, key: string, role: string) {
    (forall e :: e in now <==> e == (key, role) || (e in was && e.0 != key)) && UniqueKeys(now)
  }

  /** One key is gone, and every other entry is as it was. */
  ghost predicate Drops(was: seq<Entry>, now: seq<Entry>, key: string) {
    (forall e :: e in now <==> e in was && e.0 != key) && UniqueKeys(now)
  }

  lemma UpsertGivesRole(was: seq<Entry>, key: string, role: string)
    requires UniqueKeys(was)
    ensures GivesRole(was, Upserted(was, key, role), key, role)
  {
    var i, now := Position(was, key), Upserted(was, key, role);
    UpsertSetsOneRole(was, key, role, key);
    forall e ensures e in now <==> e == (key, role) || (e in was && e.0 != key) {
      if e in was && e.0 != key {
        var j :| 0 <= j < |was| && was[j] == e;
        assert now[j] == e;
      }
      if e == (key, role) { assert now[i] == e; }
      if e in now {
        var j :| 0 <= j < |now| && now[j] == e;
        assert j != i ==> was[j] == e;
      }
    }
  }

  lemma RemovalDrops(was: seq<Entry>, key: string)
    requires UniqueKeys(was)
    ensures Drops(was, Removed(was, key), key)
  {
    RemoveDropsOne(was, key, key);
  }

  // ---- from the pure machine to the store ----------------------------------

  lemma RunIsNext(u: Universe, r: Relay, db: Db, ev: Event, clock: nat -> nat, mirrored: bool, channel: string, d: Db)
    requires Ran(u, r, db, ev, clock, mirrored, channel, d)
    ensures Next(ReadBack(db, channel), channel, ev.kind, ev.pubkey, ev.tags, mirrored)
            == Change(ReadBack(d, channel))
    ensures UniqueKeys(ReadBack(db, channel).members)
    ensures forall ch :: ch != channel ==> ReadBack(d, ch) == ReadBack(db, ch)
  {
    hide GroupOk, WithinCaps, Next, View, ReadBack, AllFit, Stamped, OnlyMoves, Execute, FirstTag, Rewrites;
    CommandRefines(u, r, db, ev, clock, mirrored, channel);
    ReadBackIsView(u, r, db, channel);
    ViewIsOk(u, r, db, channel);
    forall ch ensures ReadBack(d, ch) == View(d, r, ch) && ReadBack(db, ch) == View(db, r, ch) {
      ReadBackIsView(u, r, db, ch);
      ReadBackIsView(u, r, d, ch);
    }
  }

  // ---- the commands --------------------------------------------------------

  /**
   Create: the channel is what the tags say, of type "stream" unless they name one, private exactly
   when `visibility` is "private", neither archived nor deleted; its author is the only admin and an
   owner, and everybody else keeps their role.
   */
  lemma CreateLeaves(u: Universe, r: Relay, db: Db, ev: Event, clock: nat -> nat, mirrored: bool, channel: string,
        d: Db)
    requires Ran(u, r, db, ev, clock, mirrored, channel, d) && ev.kind == 9007
    ensures var was, now := ReadBack(db, channel), ReadBack(d, channel);
            && now.meta.Some? && now.admins == Some([(ev.pubkey, "admin")])
            && GivesRole(was.members, now.members, ev.pubkey, "owner")
            && var m := now.meta.value;
               && m.id == channel && m.name != "" && FirstTag(ev.tags, "name") == Some(m.name)
               && Says(m.about, ev.tags, "about") && Says(m.ttl, ev.tags, "ttl")
               && m.channelType == (if FirstTag(ev.tags, "channel_type") in [None, Some("")] then "stream"
                   else FirstTag(ev.tags, "channel_type").value)
               && (m.isPrivate <==> FirstTag(ev.tags, "visibility") == Some("private"))
               && m.topic.None? && m.purpose.None? && !m.archived && !m.deleted
  {
    hide Ran, ReadBack, FirstTag, Upserted, GivesRole, UniqueKeys;
    RunIsNext(u, r, db, ev, clock, mirrored, channel, d);
    UpsertGivesRole(ReadBack(db, channel).members, ev.pubkey, "owner");
  }

  /** Edit: a tag that is present sets its field, and nothing else moves. */
  lemma EditLeaves(u: Universe, r: Relay, db: Db, ev: Event, clock: nat -> nat, mirrored: bool, channel: string,
        d: Db)
    requires Ran(u, r, db, ev, clock, mirrored, channel, d) && ev.kind == 9002
    ensures var was, now := ReadBack(db, channel), ReadBack(d, channel);
            && was.meta.Some? && now.meta.Some? && now.admins == was.admins && now.members == was.members
            && var m, n := was.meta.value, now.meta.value;
               && n.id == m.id && n.channelType == m.channelType && n.deleted == m.deleted
               && n.name == (if FirstTag(ev.tags, "name").Some? then FirstTag(ev.tags, "name").value else m.name)
               && FirstTag(ev.tags, "name") != Some("")
               && Sets(ev.tags, "about", m.about, n.about) && Sets(ev.tags, "ttl", m.ttl, n.ttl)
               && Sets(ev.tags, "topic", m.topic, n.topic) && Sets(ev.tags, "purpose", m.purpose, n.purpose)
               && SetsFlag(ev.tags, "visibility", "private", m.isPrivate, n.isPrivate)
               && SetsFlag(ev.tags, "archived", "true", m.archived, n.archived)
  {
    hide Ran, ReadBack, FirstTag, HasTag;
    RunIsNext(u, r, db, ev, clock, mirrored, channel, d);
    forall name ensures HasTag(ev.tags, name) <==> FirstTag(ev.tags, name).Some? { FirstTagReads(ev.tags, name, ""); }
  }

  /** Add user: the key named by `p` has the role the tags name, "member" without one. */
  lemma AddLeaves(u: Universe, r: Relay, db: Db, ev: Event, clock: nat -> nat, mirrored: bool, channel: string,
        d: Db)
    requires Ran(u, r, db, ev, clock, mirrored, channel, d) && ev.kind == 9000
    ensures var was, now := ReadBack(db, channel), ReadBack(d, channel);
            && now.meta == was.meta && now.admins == was.admins && FirstTag(ev.tags, "p").Some?
            && var role := FirstTag(ev.tags, "role");
               GivesRole(was.members, now.members, FirstTag(ev.tags, "p").value,
                 if role == None || role == Some("") then "member" else role.value)
  {
    hide Ran, ReadBack, FirstTag, Upserted, GivesRole, UniqueKeys;
    RunIsNext(u, r, db, ev, clock, mirrored, channel, d);
    var role := FirstTag(ev.tags, "role");
    UpsertGivesRole(ReadBack(db, channel).members, FirstTag(ev.tags, "p").value,
      if role == None || role == Some("") then "member" else role.value);
  }

  /** Remove user: the key named by `p` is gone. */
  lemma RemoveLeaves(u: Universe, r: Relay, db: Db, ev: Event, clock: nat -> nat, mirrored: bool, channel: string,
        d: Db)
    requires Ran(u, r, db, ev, clock, mirrored, channel, d) && ev.kind == 9001
    ensures var was, now := ReadBack(db, channel), ReadBack(d, channel);
            && now.meta == was.meta && now.admins == was.admins && FirstTag(ev.tags, "p").Some?
            && Drops(was.members, now.members, FirstTag(ev.tags, "p").value)
  {
    hide Ran, ReadBack, FirstTag, Removed, Drops, UniqueKeys;
    RunIsNext(u, r, db, ev, clock, mirrored, channel, d);
    RemovalDrops(ReadBack(db, channel).members, FirstTag(ev.tags, "p").value);
  }

  /** Join and leave: only the author's own entry moves, and a join makes a plain member. */
  lemma JoinOrLeaveLeaves(u: Universe, r: Relay, db: Db, ev: Event, clock: nat -> nat, mirrored: bool,
        channel: string, d: Db)
    requires Ran(u, r, db, ev, clock, mirrored, channel, d) && (ev.kind == 9021 || ev.kind == 9022)
    ensures var was, now := ReadBack(db, channel), ReadBack(d, channel);
            && was.meta.Some? && now.meta == was.meta && now.admins == was.admins
            && (ev.kind == 9021 ==>
                !was.meta.value.isPrivate && GivesRole(was.members, now.members, ev.pubkey, "member"))
            && (ev.kind == 9022 ==> Drops(was.members, now.members, ev.pubkey))
  {
    hide Ran, ReadBack, FirstTag, Upserted, Removed, GivesRole, Drops, UniqueKeys;
    RunIsNext(u, r, db, ev, clock, mirrored, channel, d);
    UpsertGivesRole(ReadBack(db, channel).members, ev.pubkey, "member");
    RemovalDrops(ReadBack(db, channel).members, ev.pubkey);
  }

  /** Delete: archived, marked deleted and without members; the rest of the metadata and the admins stay. */
  lemma DeleteLeaves(u: Universe, r: Relay, db: Db, ev: Event, clock: nat -> nat, mirrored: bool, channel: string,
        d: Db)
    requires Ran(u, r, db, ev, clock, mirrored, channel, d) && ev.kind == 9008
    ensures var was, now := ReadBack(db, channel), ReadBack(d, channel);
            && was.meta.Some? && now.meta.Some? && now.admins == was.admins && now.members == []
            && now.meta.value.archived && now.meta.value.deleted
            && now.meta.value.(archived := was.meta.value.archived, deleted := was.meta.value.deleted)
               == was.meta.value
  {
    hide Ran, ReadBack, FirstTag;
    RunIsNext(u, r, db, ev, clock, mirrored, channel, d);
  }

  /** No command touches another channel. */
  lemma OtherChannelsStay(u: Universe, r: Relay, db: Db, ev: Event, clock: nat -> nat, mirrored: bool,
        channel: string, d: Db, other: string)
    requires Ran(u, r, db, ev, clock, mirrored, channel, d) && other != channel
    ensures ReadBack(d, other) == ReadBack(db, other)
  {
    hide Ran, ReadBack, Next;
    RunIsNext(u, r, db, ev, clock, mirrored, channel, d);
  }

  // ---- refusals ------------------------------------------------------------

  /** On the admin list, or without one a member according to the mirror. */
  ghost predicate Moderates(c: ChannelState, author: string, mirrored: bool) {
    if c.admins.Some? then exists role :: (author, role) in c.admins.value else mirrored
  }

  lemma AuthorizedModerates(c: ChannelState, author: string, mirrored: bool)
    ensures Authorized(c.admins, author, mirrored) <==> Moderates(c, author, mirrored)
  {
    if c.admins.Some? {
      var es := c.admins.value;
      if i :| 0 <= i < |es| && es[i].0 == author { assert (author, es[i].1) in es; }
      if role :| (author, role) in es {
        var i :| 0 <= i < |es| && es[i] == (author, role);
        assert es[i].0 == author;
      }
    }
  }

  /**
   Whether a command is refused and why, from its tags and the channel as read back before it: five
   commands are for moderators, six need a channel, a name may be neither missing nor cleared, a
   target must be named, and only an open channel can be joined. A refused command writes nothing.
   */
  lemma RefusedExactly(u: Universe, r: Relay, db: Db, ev: Event, clock: nat -> nat, mirrored: bool)
    requires GroupOk(u, r, db) && WithinCaps(db)
    ensures var (d, out) := Execute(db, r, ev, clock, mirrored);
            var h, name := FirstTag(ev.tags, "h"), FirstTag(ev.tags, "name");
            var was := ReadBack(db, h.GetOr(""));
            var known, moderator := was.meta.Some?, Moderates(was, ev.pubkey, mirrored);
            && (out == Refused(NoChannelTag) <==> h == None)
            && (out == Refused(EmptyChannelTag) <==> h == Some(""))
            && (h.Some? && h.value != "" ==>
                && (out == Refused(UnknownGroup) <==> !known && ev.kind in {9000, 9001, 9002, 9008, 9021, 9022})
                && (out == Refused(NotAdmin) <==>
                    known && !moderator && ev.kind in {9000, 9001, 9002, 9007, 9008})
                && (out == Refused(NoName) <==>
                    ev.kind == 9007 && (known ==> moderator) && (name == None || name == Some("")))
                && (out == Refused(NameCleared) <==> ev.kind == 9002 && known && moderator && name == Some(""))
                && (out == Refused(NoTarget) <==>
                    ev.kind in {9000, 9001} && known && moderator && FirstTag(ev.tags, "p") == None)
                && (out == Refused(NotOpen) <==> ev.kind == 9021 && known && was.meta.value.isPrivate)
                && (out == Refused(UnsupportedKind) <==>
                    ev.kind !in {9000, 9001, 9002, 9007, 9008, 9021, 9022}))
            && (out.Refused? ==> d == db && out.why != BadKey)
  {
    hide GroupOk, WithinCaps, ReadBack, FirstTag, Upserted, Removed, Created, Edited, WriteLists, Authorized, Moderates,
      HasTag;
    AuthorizedModerates(ReadBack(db, FirstTag(ev.tags, "h").GetOr("")), ev.pubkey, mirrored);
  }

  /**
   A channel created private cannot be joined: the next join request, whoever sends it, is refused
   and changes nothing.
   */
  lemma PrivateIsNotJoined(u: Universe, r: Relay, db: Db, create: Event, clock: nat -> nat, mirrored: bool,
        channel: string, d: Db, join: Event, clock2: nat -> nat, mirrored2: bool)
    requires Ran(u, r, db, create, clock, mirrored, channel, d) && create.kind == 9007
    requires FirstTag(create.tags, "visibility") == Some("private")
    requires join.kind == 9021 && FirstTag(join.tags, "h") == Some(channel)
    ensures Execute(d, r, join, clock2, mirrored2) == (d, Refused(NotOpen))
  {
    CreateLeaves(u, r, db, create, clock, mirrored, channel, d);
    RanKeepsGroups(u, r, db, create, clock, mirrored, channel, d);
    hide GroupOk, WithinCaps, Execute, ReadBack, FirstTag, Moderates;
    RefusedExactly(u, r, d, join, clock2, mirrored2);
  }

  lemma RanKeepsGroups(u: Universe, r: Relay, db: Db, ev: Event, clock: nat -> nat, mirrored: bool, channel: string,
        d: Db)
    requires Ran(u, r, db, ev, clock, mirrored, channel, d)
    ensures GroupOk(u, r, d) && WithinCaps(d) && channel != ""
  {
    hide GroupOk, WithinCaps, Next, View, AllFit, Stamped, OnlyMoves, Execute, FirstTag, Rewrites;
    CommandRefines(u, r, db, ev, clock, mirrored, channel);
  }

  // ---- what is emitted -----------------------------------------------------

  /** The kinds a command emits, in order. */
  function EmittedKinds(kind: nat): seq<nat> {
    if kind == 9007 then [39000, 39001, 39002]
    else if kind == 9002 then [39000]
    else if kind == 9008 then [39000, 39002]
    else [39002]
  }

  /**
   One emitted event: the relay's own, addressed to the channel by `d` and `h`, stamped by the clock or
   one past the event it replaces, with the tags of the metadata or one `p` tag for each entry in order.
   */
  ghost predicate EmitSays(r: Relay, e: Event, channel: string, c: ChannelState, prev: Option<Event>, now: nat) {
    && e.pubkey == r.pubkey
    && FirstTag(e.tags, "d") == Some(channel) && FirstTag(e.tags, "h") == Some(channel)
    && e.createdAt == (if prev.Some? && now <= prev.value.createdAt then prev.value.createdAt + 1 else now)
    && (e.kind == 39000 ==>
          c.meta.Some? && MetaTagsSay(e.tags, c.meta.value) && e.content == r.nameJson(c.meta.value.name))
    && (e.kind == 39001 ==> c.admins.Some? && ListTagsSay(e.tags, c.admins.value) && e.content == "")
    && (e.kind == 39002 ==> ListTagsSay(e.tags, c.members) && e.content == "")
  }

  /** The metadata tags clients read: `about` is always there, visibility is told twice. */
  ghost predicate MetaTagsSay(tags: seq<Tag>, m: ChannelMeta) {
    && FirstTag(tags, "name") == Some(m.name) && FirstTag(tags, "t") == Some(m.channelType)
    && FirstTag(tags, "about") == Some(if m.about.Some? then m.about.value else "")
    && FirstTag(tags, "visibility") == Some(if m.isPrivate then "private" else "open")
    && FirstTag(tags, "private") == (if m.isPrivate then Some("true") else None)
    && FirstTag(tags, "topic") == m.topic && FirstTag(tags, "purpose") == m.purpose && FirstTag(tags, "ttl") == m.ttl
    && FirstTag(tags, "archived") == (if m.archived then Some("true") else None)
    && FirstTag(tags, "deleted") == (if m.deleted then Some("true") else None)
  }

  predicate ListTagsSay(tags: seq<Tag>, entries: seq<Entry>) {
    |tags| == 2 + |entries| && forall i :: 0 <= i < |entries| ==> tags[2 + i] == ["p", entries[i].0, entries[i].1]
  }

  lemma MetaIsSaid(m: ChannelMeta)
    ensures MetaTagsSay(ToTags(m), m)
    ensures FirstTag(ToTags(m), "d") == Some(m.id) && FirstTag(ToTags(m), "h") == Some(m.id)
  {
    hide ToTags, FirstTag, HasTag;
    AllFieldsReadBack(m);
    var fs := Fields(m);
    assert fs[0].name == "d" && fs[1].name == "h" && fs[2].name == "name" && fs[3].name == "t";
    assert fs[4].name == "visibility" && fs[5].name == "about" && fs[6].name == "private" && fs[7].name == "topic";
    assert fs[8].name == "purpose" && fs[9].name == "ttl" && fs[10].name == "archived" && fs[11].name == "deleted";
  }

  lemma ListIsSaid(channel: string, entries: seq<Entry>)
    ensures ListTagsSay(ListTags(channel, entries), entries)
    ensures var tags := ListTags(channel, entries);
            FirstTag(tags, "d") == Some(channel) && FirstTag(tags, "h") == Some(channel)
  {
    var tags := ListTags(channel, entries);
    assert tags[0] == ["d", channel] && tags[1] == ["h", channel];
    assert IsFirst(tags, "d", 0) && IsFirst(tags, "h", 1);
    FirstTagReads(tags, "d", channel);
    FirstTagReads(tags, "h", channel);
  }

  lemma CarrierSays(r: Relay, kind: nat, channel: string, c: ChannelState, prev: Option<Event>, now: nat)
    requires IsGroupState(kind) && Carries(c, channel, kind)
    ensures EmitSays(r, Carrier(r, kind, channel, c, prev, now), channel, c, prev, now)
    ensures Carrier(r, kind, channel, c, prev, now).kind == kind
  {
    hide ToTags, ListTags, FirstTag, MetaTagsSay, ListTagsSay, StateOk;
    if kind == KIND_METADATA {
      MetaIsSaid(c.meta.value);
    } else {
      ListIsSaid(channel, if kind == KIND_ADMINS then c.admins.value else c.members);
    }
  }

  predicate HeldAt(r: Relay, db: Db, channel: string, c: ChannelState, kind: nat, now: nat, d: Db, e: Event) {
    && e == Carrier(r, kind, channel, c, Holder(db, r, kind, channel), now)
    && Holder(d, r, kind, channel) == Some(e)
  }

  /** The events written are the carriers of their lists, and the slots of the lists hold them. */
  ghost predicate Held(r: Relay, db: Db, channel: string, c: ChannelState, kinds: seq<nat>, clock: nat -> nat, d: Db,
                       es: seq<Event>)
  {
    |es| == |kinds| && forall i :: 0 <= i < |kinds| ==> HeldAt(r, db, channel, c, kinds[i], clock(i), d, es[i])
  }

  lemma {:induction false} WritesAreHeld(u: Universe, r: Relay, db: Db, channel: string, c: ChannelState,
        kinds: seq<nat>, clock: nat -> nat)
    requires GroupOk(u, r, db) && WithinCaps(db) && ListsDistinct(kinds)
    requires forall k :: k in kinds ==> Carries(c, channel, k)
    ensures var (d, es) := WriteLists(db, db, r, channel, c, kinds, clock);
            es.Some? ==> Held(r, db, channel, c, kinds, clock, d, es.value)
  {
    if kinds != [] {
      hide GroupOk, Stamped, Latest, Holder, StateOk, AllFit, Emit, Carrier, WithinCap, TakesSlot, Moved, Held, Carries;
      var n := |kinds| - 1;
      var (mid, es) := WriteLists(db, db, r, channel, c, kinds[..n], clock);
      WritesAreHeld(u, r, db, channel, c, kinds[..n], clock);
      ListsMove(u, r, db, channel, c, kinds[..n], clock);
      assert kinds[n] in kinds;
      LatestIsHolder(u, r, db, kinds[n], channel);
      if es.Some? {
        LastWriteIsHeld(u, r, db, mid, channel, c, kinds, clock);
        OneMoreHeld(r, db, mid, channel, c, kinds, clock, es.value);
      }
    } else {
      hide WithinCaps, GroupOk;
    }
  }

  lemma OneMoreHeld(r: Relay, db: Db, mid: Db, channel: string, c: ChannelState, kinds: seq<nat>, clock: nat -> nat,
        es: seq<Event>)
    requires kinds != [] && Held(r, db, channel, c, kinds[..|kinds| - 1], clock, mid, es)
    requires var n := |kinds| - 1;
             var ev := Carrier(r, kinds[n], channel, c, Holder(db, r, kinds[n], channel), clock(n));
             Emit(mid, ev).Ok? ==>
               && Holder(Emit(mid, ev).value, r, kinds[n], channel) == Some(ev)
               && forall i :: 0 <= i < n ==>
                  Holder(Emit(mid, ev).value, r, kinds[i], channel) == Holder(mid, r, kinds[i], channel)
    ensures var n := |kinds| - 1;
            var ev := Carrier(r, kinds[n], channel, c, Holder(db, r, kinds[n], channel), clock(n));
            Emit(mid, ev).Ok? ==> Held(r, db, channel, c, kinds, clock, Emit(mid, ev).value, es + [ev])
  {
    hide Emit, Carrier, Holder;
    var n := |kinds| - 1;
    var ev := Carrier(r, kinds[n], channel, c, Holder(db, r, kinds[n], channel), clock(n));
    if Emit(mid, ev).Ok? {
      var d, all := Emit(mid, ev).value, es + [ev];
      forall i | 0 <= i < |kinds| ensures HeldAt(r, db, channel, c, kinds[i], clock(i), d, all[i]) {
        if i < n { assert HeldAt(r, db, channel, c, kinds[..n][i], clock(i), mid, es[i]); }
      }
    }
  }

  lemma LastWriteIsHeld(u: Universe, r: Relay, db: Db, mid: Db, channel: string, c: ChannelState, kinds: seq<nat>,
        clock: nat -> nat)
    requires GroupOk(u, r, db) && GroupOk(u, r, mid) && kinds != [] && ListsDistinct(kinds)
    requires Carries(c, channel, kinds[|kinds| - 1]) && Moved(r, db, channel, c, kinds[..|kinds| - 1], mid)
    ensures var n := |kinds| - 1;
            var ev := Carrier(r, kinds[n], channel, c, Holder(db, r, kinds[n], channel), clock(n));
            Emit(mid, ev).Ok? ==>
              && Holder(Emit(mid, ev).value, r, kinds[n], channel) == Some(ev)
              && forall i :: 0 <= i < n ==>
                 Holder(Emit(mid, ev).value, r, kinds[i], channel) == Holder(mid, r, kinds[i], channel)
  {
    var n := |kinds| - 1;
    var kind := kinds[n];
    assert kind !in kinds[..n];
    var prev := Holder(db, r, kind, channel);
    var ev := Carrier(r, kind, channel, c, prev, clock(n));
    assert Holder(mid, r, kind, channel) == prev;
    CarrierDecodes(r, kind, channel, c, prev, clock(n));
    assert u(ev.id) == ev;
    EmitWinsSlot(u, r, mid, ev, channel);
    hide GroupOk, Holder, StateOk, Emit, Carrier;
    if Emit(mid, ev).Ok? {
      forall i | 0 <= i < n
        ensures Holder(Emit(mid, ev).value, r, kinds[i], channel) == Holder(mid, r, kinds[i], channel)
      {
        assert Other(kind, channel, kinds[i], channel);
      }
    }
  }

  /**
   A command that succeeds emits one event for each list it rewrites. Each carries the list as read
   back afterwards, is stamped past the event it replaces, and is what reading back finds.
   */
  lemma EmitsAreReadBack(u: Universe, r: Relay, db: Db, ev: Event, clock: nat -> nat, mirrored: bool, channel: string,
        d: Db, i: nat)
    requires Ran(u, r, db, ev, clock, mirrored, channel, d)
    ensures var es := Execute(db, r, ev, clock, mirrored).1.emitted;
            var kinds := EmittedKinds(ev.kind);
            && |es| == |kinds|
            && (i < |es| ==>
                  && es[i].kind == kinds[i] && Latest(d.events, kinds[i], channel) == Some(es[i])
                  && EmitSays(r, es[i], channel, ReadBack(d, channel), Latest(db.events, kinds[i], channel), clock(i)))
  {
    hide GroupOk, WithinCaps, Next, View, ReadBack, WriteLists, Latest, Carrier, EmitSays, Holder, StateOk, FirstTag;
    RunIsNext(u, r, db, ev, clock, mirrored, channel, d);
    RanKeepsGroups(u, r, db, ev, clock, mirrored, channel, d);
    ReadBackIsView(u, r, db, channel);
    ViewIsOk(u, r, db, channel);
    ViewNamesItsChannel(u, r, db, channel);
    RewritesCover(View(db, r, channel), channel, ev, mirrored);
    var c := ReadBack(d, channel);
    WritesAreHeld(u, r, db, channel, c, Rewrites(ev.kind), clock);
    if i < |Rewrites(ev.kind)| {
      var kind := Rewrites(ev.kind)[i];
      assert kind in Rewrites(ev.kind);
      LatestWithinCaps(u, r, db, kind, channel);
      LatestWithinCaps(u, r, d, kind, channel);
      CarrierSays(r, kind, channel, c, Holder(db, r, kind, channel), clock(i));
    }
  }

  lemma LatestWithinCaps(u: Universe, r: Relay, db: Db, kind: nat, channel: string)
    requires GroupOk(u, r, db) && WithinCaps(db) && IsGroupState(kind)
    ensures Latest(db.events, kind, channel) == Holder(db, r, kind, channel)
  {
    LatestIsHolder(u, r, db, kind, channel);
  }
}
