/**
 The group-command executor as the program runs it (src/nip29.rs): commands read the latest lists
 from the store, edit a member list in place, and emit replacements one store call at a time.
 */
module GroupRelays {
  import opened Options
  import opened Ids
  import opened Events
  import opened Tables
  import opened Engine
  import opened Attach
  import opened Reachable
  import opened Keyset
  import opened Groups
  import opened GroupState
  import opened HistoryStores

  /** What a command read before it writes anything. */
  datatype Lists = Lists(meta: Option<Event>, admins: Option<Event>, members: Option<Event>)

  ghost predicate ReadFrom(db: Db, channel: string, l: Lists) {
    && l.meta == Latest(db.events, KIND_METADATA, channel)
    && l.admins == Latest(db.events, KIND_ADMINS, channel)
    && l.members == Latest(db.events, KIND_MEMBERS, channel)
  }

  /** The write half of a command: what was read, where it goes and the clock. */
  datatype Writing = Writing(db: Db, r: Relay, channel: string, c: ChannelState, clock: nat -> nat) {
    ghost function Lists(kinds: seq<nat>): (Db, Option<seq<Event>>) {
      WriteLists(db, db, r, channel, c, kinds, clock)
    }

    ghost function Next(kind: nat, n: nat): Event {
      Carrier(r, kind, channel, c, Latest(db.events, kind, channel), clock(n))
    }
  }

  class GroupRelay {
    const identity: Relay
    const engine: HistoryStore

    ghost predicate Ready()
      reads engine
    {
      engine.Valid() && Signs(engine.u, identity)
    }

    constructor (r: Relay, store: HistoryStore)
      requires store.Valid() && Signs(store.u, r)
      ensures Ready() && identity == r && engine == store
    {
      identity, engine := r, store;
    }

    /** `latest_addressable`: query by kind, then match the `d` tag here. */
    method LatestAddressable(kind: nat, channel: string) returns (found: Option<Event>)
      ensures found == Latest(engine.events, kind, channel)
    {
      var ks := SelectOrdered(LiveOfKind(engine.events, kind), QUERY_LIMIT);
      found := None;
      for n := 0 to |ks|
        invariant found == Preferred(engine.events, ks[..n], channel)
      {
        assert ks[..n + 1][..n] == ks[..n];
        var id := ks[n].id;
        if id in engine.events && Addresses(engine.events[id].ev, channel) {
          var e := engine.events[id].ev;
          if found.None? || found.value.createdAt <= e.createdAt { found := Some(e); }
        }
      }
      assert ks[..|ks|] == ks;
    }

    method ReadLists(channel: string) returns (l: Lists)
      ensures ReadFrom(engine.State(), channel, l)
    {
      var meta := LatestAddressable(KIND_METADATA, channel);
      var admins := LatestAddressable(KIND_ADMINS, channel);
      var members := LatestAddressable(KIND_MEMBERS, channel);
      l := Lists(meta, admins, members);
    }

    /** `emit`: stamped past the event it supersedes, signed, stored; None is an error. */
    method EmitSigned(kind: nat, content: string, tags: seq<Tag>, prev: Option<Event>, now: nat)
      returns (out: Option<Event>)
      requires Ready() && IsRelayAuthored(kind)
      modifies engine
      ensures Ready()
      ensures var ev := Signed(identity, kind, content, tags, Stamp(prev, now));
              && (out.Some? <==> Emit(old(engine.State()), ev).Ok?)
              && (out.Some? ==> out.value == ev && engine.State() == Emit(old(engine.State()), ev).value)
              && (out.None? ==> engine.State() == old(engine.State()))
    {
      var floor := if prev.Some? then prev.value.createdAt + 1 else 0;
      var stamp := if now >= floor then now else floor;
      var ev := Signed(identity, kind, content, tags, stamp);
      assert engine.u(ev.id) == ev;
      hide Base, Signs;
      var r := engine.StoreRelayAuthoredEvent(ev);
      out := if r.Some? then Some(ev) else None;
    }

    /** One emit: the event and the tables it left, or nothing at all. */
    static ghost predicate Wrote(before: Db, ev: Event, out: Option<Event>, after: Db) {
      && (out.Some? <==> Emit(before, ev).Ok?)
      && (out.Some? ==> out.value == ev && after == Emit(before, ev).value)
      && (out.None? ==> after == before)
    }

    /** `emit_meta`: the metadata of the state the channel is moving to. */
    method EmitMeta(channel: string, meta: ChannelMeta, prev: Option<Event>, now: nat, ghost c: ChannelState)
      returns (out: Option<Event>)
      requires Ready() && c.meta == Some(meta)
      modifies engine
      ensures Ready()
      ensures Wrote(old(engine.State()), Carrier(identity, KIND_METADATA, channel, c, prev, now), out, engine.State())
    {
      out := EmitSigned(KIND_METADATA, identity.nameJson(meta.name), ToTags(meta), prev, now);
    }

    /** `emit_p_list`: one of the two lists of the state the channel is moving to. */
    method EmitPList(kind: nat, channel: string, entries: seq<Entry>, prev: Option<Event>, now: nat,
          ghost c: ChannelState) returns (out: Option<Event>)
      requires Ready() && (kind == KIND_ADMINS || kind == KIND_MEMBERS)
      requires kind == KIND_ADMINS ==> c.admins == Some(entries)
      requires kind == KIND_MEMBERS ==> c.members == entries
      modifies engine
      ensures Ready()
      ensures Wrote(old(engine.State()), Carrier(identity, kind, channel, c, prev, now), out, engine.State())
    {
      var tags: seq<Tag> := [["d", channel], ["h", channel]];
      for n := 0 to |entries|
        invariant tags == ListTags(channel, entries[..n])
      {
        tags := tags + [["p", entries[n].0, entries[n].1]];
        assert PTags(entries[..n + 1]) == PTags(entries[..n]) + [["p", entries[n].0, entries[n].1]];
      }
      assert entries[..|entries|] == entries;
      out := EmitSigned(kind, "", tags, prev, now);
    }

    method IsAuthorized(author: string, admins: Option<Event>, mirrored: bool) returns (ok: bool)
      ensures ok == Authorized(if admins.Some? then Some(PEntries(admins.value.tags)) else None, author, mirrored)
    {
      match admins
      case None => ok := mirrored;
      case Some(a) =>
        var entries := PEntries(a.tags);
        ok := exists i :: 0 <= i < |entries| && entries[i].0 == author;
    }

    // ---- what one, two or three emits come to ------------------------------

    static lemma OneMoreWrite(w: Writing, kinds: seq<nat>, kind: nat, mid: Db, es: seq<Event>, out: Option<Event>,
          after: Db)
      requires w.Lists(kinds) == (mid, Some(es))
      requires Wrote(mid, w.Next(kind, |kinds|), out, after)
      ensures w.Lists(kinds + [kind]) == (after, if out.Some? then Some(es + [out.value]) else None)
    {
      assert (kinds + [kind])[..|kinds|] == kinds;
    }

    static lemma FirstWrite(w: Writing, k0: nat, out: Option<Event>, after: Db)
      requires Wrote(w.db, w.Next(k0, 0), out, after)
      ensures w.Lists([k0]) == (after, if out.Some? then Some([out.value]) else None)
    {
      assert w.Lists([]) == (w.db, Some([]));
      OneMoreWrite(w, [], k0, w.db, [], out, after);
      assert [] + [k0] == [k0] && (out.Some? ==> [] + [out.value] == [out.value]);
    }

    static lemma SecondWrite(w: Writing, k0: nat, k1: nat, e0: Event, mid: Db, out: Option<Event>, after: Db)
      requires w.Lists([k0]) == (mid, Some([e0])) && Wrote(mid, w.Next(k1, 1), out, after)
      ensures w.Lists([k0, k1]) == (after, if out.Some? then Some([e0, out.value]) else None)
    {
      OneMoreWrite(w, [k0], k1, mid, [e0], out, after);
      assert [k0] + [k1] == [k0, k1] && (out.Some? ==> [e0] + [out.value] == [e0, out.value]);
    }

    static lemma ThirdWrite(w: Writing, k0: nat, k1: nat, k2: nat, e0: Event, e1: Event, mid: Db, out: Option<Event>,
          after: Db)
      requires w.Lists([k0, k1]) == (mid, Some([e0, e1])) && Wrote(mid, w.Next(k2, 2), out, after)
      ensures w.Lists([k0, k1, k2]) == (after, if out.Some? then Some([e0, e1, out.value]) else None)
    {
      OneMoreWrite(w, [k0, k1], k2, mid, [e0, e1], out, after);
      assert [k0, k1] + [k2] == [k0, k1, k2] && (out.Some? ==> [e0, e1] + [out.value] == [e0, e1, out.value]);
    }

    /** The write stops at the first list that fails. */
    static lemma StopsAtFailure(w: Writing, kinds: seq<nat>, kind: nat, mid: Db)
      requires w.Lists(kinds) == (mid, None)
      ensures w.Lists(kinds + [kind]) == (mid, None)
    {
      assert (kinds + [kind])[..|kinds|] == kinds;
    }

    static lemma Decided(w: Writing, ev: Event, mirrored: bool, kinds: seq<nat>, d: Db, es: Option<seq<Event>>)
      requires Next(ReadBack(w.db, w.channel), w.channel, ev.kind, ev.pubkey, ev.tags, mirrored) == Change(w.c)
      requires Rewrites(ev.kind) == kinds && w.Lists(kinds) == (d, es)
      ensures Decide(w.db, w.r, ev, w.channel, w.clock, mirrored) == (d, if es.Some? then Done(es.value) else Errored)
    {
    }

    // ---- the arms ----------------------------------------------------------

    method CreateGroup(ev: Event, channel: string, l: Lists, members: MemberSet, clock: nat -> nat, mirrored: bool)
      returns (out: Answer)
      requires Ready() && ReadFrom(engine.State(), channel, l) && ev.kind == KIND_CREATE
      requires members.entries == ReadBack(engine.State(), channel).members
      modifies engine, members
      ensures Ready() && (engine.State(), out) == Decide(old(engine.State()), identity, ev, channel, clock, mirrored)
    {
      hide Ready, Base, Signs, Emit, WriteLists, Latest, Upserted, PEntries;
      ghost var db := engine.State();
      var ok := IsAuthorized(ev.pubkey, l.admins, mirrored);
      if l.meta.Some? && !ok { return Refused(NotAdmin); }
      var name := FirstTag(ev.tags, "name").GetOr("");
      if name == "" { return Refused(NoName); }
      var meta := ChannelMeta(
        channel, name, NonEmpty(FirstTag(ev.tags, "about")),
        NonEmpty(FirstTag(ev.tags, "channel_type")).GetOr("stream"),
        FirstTag(ev.tags, "visibility") == Some("private"),
        None, None, NonEmpty(FirstTag(ev.tags, "ttl")), false, false);
      members.Upsert(ev.pubkey, "owner");
      ghost var c := Created(ReadBack(db, channel), channel, ev.pubkey, ev.tags);
      assert Next(ReadBack(db, channel), channel, ev.kind, ev.pubkey, ev.tags, mirrored) == Change(c);
      hide Next, ReadBack, Decide;
      out := EmitCreated(ev, channel, l, meta, members.entries, clock, c, mirrored);
    }

    method EmitCreated(ev: Event, channel: string, l: Lists, meta: ChannelMeta, entries: seq<Entry>, clock: nat -> nat,
                       ghost c: ChannelState, ghost mirrored: bool) returns (out: Answer)
      requires Ready() && ReadFrom(engine.State(), channel, l) && ev.kind == KIND_CREATE
      requires c == ChannelState(Some(meta), Some([(ev.pubkey, "admin")]), entries)
      requires Next(ReadBack(engine.State(), channel), channel, ev.kind, ev.pubkey, ev.tags, mirrored) == Change(c)
      modifies engine
      ensures Ready() && (engine.State(), out) == Decide(old(engine.State()), identity, ev, channel, clock, mirrored)
    {
      ghost var w := Writing(engine.State(), identity, channel, c, clock);
      hide Next, ReadBack, WriteLists, Emit, Latest, Ready, Base, Signs, Decide, Wrote, Carrier, Rewrites;
      var e0 := EmitMeta(channel, meta, l.meta, clock(0), c);
      FirstWrite(w, KIND_METADATA, e0, engine.State());
      if e0.None? {
        CreateStopsAtFirst(w, ev, mirrored, engine.State());
        return Errored;
      }
      ghost var d1 := engine.State();
      var e1 := EmitPList(KIND_ADMINS, channel, [(ev.pubkey, "admin")], l.admins, clock(1), c);
      SecondWrite(w, KIND_METADATA, KIND_ADMINS, e0.value, d1, e1, engine.State());
      if e1.None? {
        CreateStopsAtSecond(w, ev, mirrored, engine.State());
        return Errored;
      }
      ghost var d2 := engine.State();
      var e2 := EmitPList(KIND_MEMBERS, channel, entries, l.members, clock(2), c);
      ThirdWrite(w, KIND_METADATA, KIND_ADMINS, KIND_MEMBERS, e0.value, e1.value, d2, e2, engine.State());
      out := if e2.Some? then Done([e0.value, e1.value, e2.value]) else Errored;
      CreateRewrites(ev.kind);
      Decided(w, ev, mirrored, Rewrites(ev.kind), engine.State(),
        if e2.Some? then Some([e0.value, e1.value, e2.value]) else None);
    }

    static lemma CreateRewrites(kind: nat)
      requires kind == KIND_CREATE
      ensures Rewrites(kind) == [KIND_METADATA, KIND_ADMINS, KIND_MEMBERS]
    {
    }

    static lemma CreateStopsAtFirst(w: Writing, ev: Event, mirrored: bool, d: Db)
      requires Next(ReadBack(w.db, w.channel), w.channel, ev.kind, ev.pubkey, ev.tags, mirrored) == Change(w.c)
      requires ev.kind == KIND_CREATE && w.Lists([KIND_METADATA]) == (d, None)
      ensures Decide(w.db, w.r, ev, w.channel, w.clock, mirrored) == (d, Errored)
    {
      hide Next, ReadBack, WriteLists, Decide;
      StopsAtFailure(w, [KIND_METADATA], KIND_ADMINS, d);
      assert [KIND_METADATA] + [KIND_ADMINS] == [KIND_METADATA, KIND_ADMINS];
      CreateStopsAtSecond(w, ev, mirrored, d);
    }

    static lemma CreateStopsAtSecond(w: Writing, ev: Event, mirrored: bool, d: Db)
      requires Next(ReadBack(w.db, w.channel), w.channel, ev.kind, ev.pubkey, ev.tags, mirrored) == Change(w.c)
      requires ev.kind == KIND_CREATE && w.Lists([KIND_METADATA, KIND_ADMINS]) == (d, None)
      ensures Decide(w.db, w.r, ev, w.channel, w.clock, mirrored) == (d, Errored)
    {
      hide Next, ReadBack, WriteLists, Decide;
      StopsAtFailure(w, [KIND_METADATA, KIND_ADMINS], KIND_MEMBERS, d);
      assert [KIND_METADATA, KIND_ADMINS] + [KIND_MEMBERS] == Rewrites(ev.kind);
      Decided(w, ev, mirrored, Rewrites(ev.kind), d, None);
    }

    static lemma PresentTags(tags: seq<Tag>, name: string)
      ensures HasTag(tags, name) <==> FirstTag(tags, name).Some?
    {
    }

    static method EditProfile(before: ChannelMeta, tags: seq<Tag>) returns (meta: ChannelMeta)
      ensures var e := Edited(before, tags); meta == before.(about := e.about, isPrivate := e.isPrivate, ttl := e.ttl)
    {
      meta := before;
      var v := FirstTag(tags, "about");
      PresentTags(tags, "about");
      if v.Some? { meta := meta.(about := NonEmpty(v)); }
      v := FirstTag(tags, "visibility");
      PresentTags(tags, "visibility");
      if v.Some? { meta := meta.(isPrivate := v.value == "private"); }
      v := FirstTag(tags, "ttl");
      PresentTags(tags, "ttl");
      if v.Some? { meta := meta.(ttl := NonEmpty(v)); }
    }

    static method EditNotes(before: ChannelMeta, tags: seq<Tag>) returns (meta: ChannelMeta)
      ensures var e := Edited(before, tags);
              meta == before.(topic := e.topic, purpose := e.purpose, archived := e.archived)
    {
      meta := before;
      var v := FirstTag(tags, "topic");
      PresentTags(tags, "topic");
      if v.Some? { meta := meta.(topic := NonEmpty(v)); }
      v := FirstTag(tags, "purpose");
      PresentTags(tags, "purpose");
      if v.Some? { meta := meta.(purpose := NonEmpty(v)); }
      v := FirstTag(tags, "archived");
      PresentTags(tags, "archived");
      if v.Some? { meta := meta.(archived := v.value == "true"); }
    }

    /** Only tags actually present mutate; the name may not be cleared. */
    static method EditFields(before: ChannelMeta, tags: seq<Tag>) returns (cleared: bool, meta: ChannelMeta)
      ensures cleared <==> FirstTag(tags, "name") == Some("")
      ensures !cleared ==> meta == Edited(before, tags)
    {
      cleared, meta := false, before;
      var v := FirstTag(tags, "name");
      if v.Some? {
        if v.value == "" { return true, before; }
        meta := meta.(name := v.value);
      }
      hide FirstTag, HasTag;
      meta := EditProfile(meta, tags);
      meta := EditNotes(meta, tags);
    }

    method EditMetadata(ev: Event, channel: string, l: Lists, clock: nat -> nat, mirrored: bool) returns (out: Answer)
      requires Ready() && ReadFrom(engine.State(), channel, l) && ev.kind == KIND_EDIT_METADATA
      modifies engine
      ensures Ready() && (engine.State(), out) == Decide(old(engine.State()), identity, ev, channel, clock, mirrored)
    {
      ghost var db := engine.State();
      if l.meta.None? { return Refused(UnknownGroup); }
      var ok := IsAuthorized(ev.pubkey, l.admins, mirrored);
      if !ok { return Refused(NotAdmin); }
      var cleared, meta := EditFields(MetaOf(l.meta.value.tags), ev.tags);
      if cleared { return Refused(NameCleared); }
      ghost var c := ReadBack(db, channel).(meta := Some(meta));
      assert Next(ReadBack(db, channel), channel, ev.kind, ev.pubkey, ev.tags, mirrored) == Change(c);
      out := EmitEdited(ev, channel, l, meta, clock, c, mirrored);
    }

    method EmitEdited(ev: Event, channel: string, l: Lists, meta: ChannelMeta, clock: nat -> nat,
          ghost c: ChannelState, ghost mirrored: bool)
      returns (out: Answer)
      requires Ready() && ReadFrom(engine.State(), channel, l) && ev.kind == KIND_EDIT_METADATA && c.meta == Some(meta)
      requires Next(ReadBack(engine.State(), channel), channel, ev.kind, ev.pubkey, ev.tags, mirrored) == Change(c)
      modifies engine
      ensures Ready() && (engine.State(), out) == Decide(old(engine.State()), identity, ev, channel, clock, mirrored)
    {
      ghost var w := Writing(engine.State(), identity, channel, c, clock);
      hide Next, ReadBack, WriteLists, Emit, Latest, Ready, Base, Signs, Decide, Wrote, Carrier;
      var e := EmitMeta(channel, meta, l.meta, clock(0), c);
      FirstWrite(w, KIND_METADATA, e, engine.State());
      out := if e.Some? then Done([e.value]) else Errored;
      Decided(w, ev, mirrored, Rewrites(ev.kind), engine.State(), if e.Some? then Some([e.value]) else None);
    }

    /** Emit an edited member list, the only list most commands rewrite. */
    method EmitMembers(ev: Event, channel: string, l: Lists, entries: seq<Entry>, clock: nat -> nat,
          ghost mirrored: bool) returns (out: Answer)
      requires Ready() && ReadFrom(engine.State(), channel, l) && Rewrites(ev.kind) == [KIND_MEMBERS]
      requires Next(ReadBack(engine.State(), channel), channel, ev.kind, ev.pubkey, ev.tags, mirrored)
               == Change(ReadBack(engine.State(), channel).(members := entries))
      modifies engine
      ensures Ready() && (engine.State(), out) == Decide(old(engine.State()), identity, ev, channel, clock, mirrored)
    {
      ghost var c := ReadBack(engine.State(), channel).(members := entries);
      ghost var w := Writing(engine.State(), identity, channel, c, clock);
      hide Next, ReadBack, WriteLists, Emit, Latest, Ready, Base, Signs, Decide, Wrote, Carrier;
      var e := EmitPList(KIND_MEMBERS, channel, entries, l.members, clock(0), c);
      FirstWrite(w, KIND_MEMBERS, e, engine.State());
      out := if e.Some? then Done([e.value]) else Errored;
      Decided(w, ev, mirrored, Rewrites(ev.kind), engine.State(), if e.Some? then Some([e.value]) else None);
    }

    /** Add-user and remove-user: an admin edits somebody else's entry. */
    method EditMember(ev: Event, channel: string, l: Lists, members: MemberSet, clock: nat -> nat, mirrored: bool)
      returns (out: Answer)
      requires Ready() && ReadFrom(engine.State(), channel, l)
               && (ev.kind == KIND_ADD_USER || ev.kind == KIND_REMOVE_USER)
      requires members.entries == ReadBack(engine.State(), channel).members
      modifies engine, members
      ensures Ready() && (engine.State(), out) == Decide(old(engine.State()), identity, ev, channel, clock, mirrored)
    {
      hide Latest, Base, Signs, WriteLists, FirstTag, HasTag;
      if l.meta.None? { return Refused(UnknownGroup); }
      var ok := IsAuthorized(ev.pubkey, l.admins, mirrored);
      if !ok { return Refused(NotAdmin); }
      var target := FirstTag(ev.tags, "p");
      if target.None? { return Refused(NoTarget); }
      if ev.kind == KIND_ADD_USER {
        var role := NonEmpty(FirstTag(ev.tags, "role")).GetOr("member");
        members.Upsert(target.value, role);
      } else {
        members.Remove(target.value);
      }
      out := EmitMembers(ev, channel, l, members.entries, clock, mirrored);
    }

    /** Join and leave requests: the author edits their own entry. */
    method EditOwnMembership(ev: Event, channel: string, l: Lists, members: MemberSet, clock: nat -> nat,
          mirrored: bool) returns (out: Answer)
      requires Ready() && ReadFrom(engine.State(), channel, l)
               && (ev.kind == KIND_JOIN_REQUEST || ev.kind == KIND_LEAVE_REQUEST)
      requires members.entries == ReadBack(engine.State(), channel).members
      modifies engine, members
      ensures Ready() && (engine.State(), out) == Decide(old(engine.State()), identity, ev, channel, clock, mirrored)
    {
      hide Latest, Base, Signs, WriteLists, FirstTag, HasTag;
      if l.meta.None? { return Refused(UnknownGroup); }
      if ev.kind == KIND_JOIN_REQUEST {
        if MetaOf(l.meta.value.tags).isPrivate { return Refused(NotOpen); }
        members.Upsert(ev.pubkey, "member");
      } else {
        members.Remove(ev.pubkey);
      }
      out := EmitMembers(ev, channel, l, members.entries, clock, mirrored);
    }

    method DeleteGroup(ev: Event, channel: string, l: Lists, clock: nat -> nat, mirrored: bool) returns (out: Answer)
      requires Ready() && ReadFrom(engine.State(), channel, l) && ev.kind == KIND_DELETE_GROUP
      modifies engine
      ensures Ready() && (engine.State(), out) == Decide(old(engine.State()), identity, ev, channel, clock, mirrored)
    {
      ghost var db := engine.State();
      if l.meta.None? { return Refused(UnknownGroup); }
      var ok := IsAuthorized(ev.pubkey, l.admins, mirrored);
      if !ok { return Refused(NotAdmin); }
      var meta := MetaOf(l.meta.value.tags).(archived := true, deleted := true);
      ghost var c := ReadBack(db, channel).(meta := Some(meta), members := []);
      assert Next(ReadBack(db, channel), channel, ev.kind, ev.pubkey, ev.tags, mirrored) == Change(c);
      out := EmitDeleted(ev, channel, l, meta, clock, c, mirrored);
    }

    method EmitDeleted(ev: Event, channel: string, l: Lists, meta: ChannelMeta, clock: nat -> nat,
          ghost c: ChannelState, ghost mirrored: bool)
      returns (out: Answer)
      requires Ready() && ReadFrom(engine.State(), channel, l) && ev.kind == KIND_DELETE_GROUP
      requires c.meta == Some(meta) && c.members == []
      requires Next(ReadBack(engine.State(), channel), channel, ev.kind, ev.pubkey, ev.tags, mirrored) == Change(c)
      modifies engine
      ensures Ready() && (engine.State(), out) == Decide(old(engine.State()), identity, ev, channel, clock, mirrored)
    {
      ghost var w := Writing(engine.State(), identity, channel, c, clock);
      hide Next, ReadBack, WriteLists, Emit, Latest, Ready, Base, Signs, Decide, Wrote, Carrier;
      var e0 := EmitMeta(channel, meta, l.meta, clock(0), c);
      FirstWrite(w, KIND_METADATA, e0, engine.State());
      if e0.None? {
        StopsAtFailure(w, [KIND_METADATA], KIND_MEMBERS, engine.State());
        assert [KIND_METADATA] + [KIND_MEMBERS] == Rewrites(ev.kind);
        Decided(w, ev, mirrored, Rewrites(ev.kind), engine.State(), None);
        return Errored;
      }
      ghost var d1 := engine.State();
      var e1 := EmitPList(KIND_MEMBERS, channel, [], l.members, clock(1), c);
      SecondWrite(w, KIND_METADATA, KIND_MEMBERS, e0.value, d1, e1, engine.State());
      out := if e1.Some? then Done([e0.value, e1.value]) else Errored;
      Decided(w, ev, mirrored, Rewrites(ev.kind), engine.State(), if e1.Some? then Some([e0.value, e1.value])
        else None);
    }

    // ---- the two entry points ----------------------------------------------

    /** `execute`. `clock(n)` is the n-th reading, `mirrored` the membership mirror's answer. */
    method Execute(ev: Event, clock: nat -> nat, mirrored: bool) returns (out: Answer)
      requires Ready()
      modifies engine
      ensures Ready()
      ensures (engine.State(), out) == GroupState.Execute(old(engine.State()), identity, ev, clock, mirrored)
    {
      var h := FirstTag(ev.tags, "h");
      if h.None? { return Refused(NoChannelTag); }
      var channel := h.value;
      if channel == "" { return Refused(EmptyChannelTag); }
      var l := ReadLists(channel);
      var members := new MemberSet(if l.members.Some? then PEntries(l.members.value.tags) else []);
      hide Latest, Base, Signs, WriteLists;
      if ev.kind == KIND_CREATE {
        out := CreateGroup(ev, channel, l, members, clock, mirrored);
      } else if ev.kind == KIND_EDIT_METADATA {
        out := EditMetadata(ev, channel, l, clock, mirrored);
      } else if ev.kind == KIND_ADD_USER || ev.kind == KIND_REMOVE_USER {
        out := EditMember(ev, channel, l, members, clock, mirrored);
      } else if ev.kind == KIND_JOIN_REQUEST || ev.kind == KIND_LEAVE_REQUEST {
        out := EditOwnMembership(ev, channel, l, members, clock, mirrored);
      } else if ev.kind == KIND_DELETE_GROUP {
        out := DeleteGroup(ev, channel, l, clock, mirrored);
      } else {
        out := Refused(UnsupportedKind);
      }
    }

    /** `add_member_from_invite`: the critical section and its checks. */
    method AddMemberFromInvite(channel: string, claimant: string, now: nat) returns (out: Admission)
      requires Ready()
      modifies engine
      ensures Ready()
      ensures (engine.State(), out) == AddMember(old(engine.State()), identity, channel, claimant, now)
    {
      hide Ready, Base, Signs, Emit, Carrier;
      if channel == "" { return Denied(EmptyChannelTag); }
      if !Is64Hex(claimant) { return Denied(BadKey); }
      var key := Lower(claimant);
      var metaEv := LatestAddressable(KIND_METADATA, channel);
      if metaEv.None? { return Denied(UnknownGroup); }
      var prev := LatestAddressable(KIND_MEMBERS, channel);
      var members := new MemberSet(if prev.Some? then PEntries(prev.value.tags) else []);
      ghost var c := ReadBack(engine.State(), channel);
      assert members.entries == c.members;
      if prev.Some? && exists i :: 0 <= i < |members.entries| && members.entries[i].0 == key {
        return Existing(prev.value.id);
      }
      assert !Listed(c.members, key);
      members.Upsert(key, "member");
      hide Latest, ReadBack;
      var e := EmitPList(KIND_MEMBERS, channel, members.entries, prev, now, Admitted(c, key));
      out := if e.Some? then Added(e.value) else AdmitErrored;
    }
  }
}
