/**
 Relay-authored group state over the event store (src/nip29.rs). There is no channel table: a command
 reads the latest 39000/39001/39002 back, edits them and signs replacements, and the store keeps one
 event per slot. `Execute` is that read-decide-write cycle on the tables.
 */
module GroupState {
  import opened Options
  import opened Ids
  import opened Events
  import opened Tables
  import opened Engine
  import opened Attach
  import opened Reachable
  import opened Keyset
  import opened Groups

  /** The relay's key, an id for everything it may sign, and the JSON content naming a channel. */
  datatype Relay = Relay(
    pubkey: string,
    idOf: (nat, string, seq<Tag>, nat) -> EventId,
    nameJson: string -> string)

  function Signed(r: Relay, kind: nat, content: string, tags: seq<Tag>, createdAt: nat): Event {
    Event(r.idOf(kind, content, tags, createdAt), r.pubkey, createdAt, kind, tags, content)
  }

  /** Ids name what the relay signs. */
  ghost predicate Signs(u: Universe, r: Relay) {
    forall kind, content, tags, t :: u(r.idOf(kind, content, tags, t)) == Signed(r, kind, content, tags, t)
  }

  // ---- reading back --------------------------------------------------------

  const QUERY_LIMIT := 500

  predicate IsLiveOfKind(events: map<EventId, EventRow>, kind: nat, id: EventId) {
    id in events && !events[id].deleted && events[id].ev.kind == kind
  }

  function NewestFirst(events: map<EventId, EventRow>, id: EventId): Key
    requires id in events
  {
    var age: int := 0 - (events[id].ev.createdAt as int);
    Key(age, id)
  }

  function LiveOfKind(events: map<EventId, EventRow>, kind: nat): set<Key> {
    set id | id in events && IsLiveOfKind(events, kind, id) :: NewestFirst(events, id)
  }

  /** `ORDER BY created_at DESC, id ASC LIMIT 500`. */
  ghost function Listing(events: map<EventId, EventRow>, kind: nat): seq<Key> {
    Prefix(InOrder(LiveOfKind(events, kind)), QUERY_LIMIT)
  }

  predicate Addresses(e: Event, channel: string) {
    FirstTag(e.tags, "d") == Some(channel)
  }

  /** `max_by_key(created_at)` over the rows whose `d` is the channel: the last of the newest. */
  function Preferred(events: map<EventId, EventRow>, ks: seq<Key>, channel: string): Option<Event> {
    if ks == [] then None else
      var best := Preferred(events, ks[..|ks| - 1], channel);
      var id := ks[|ks| - 1].id;
      if id !in events || !Addresses(events[id].ev, channel) then best
      else if best.Some? && best.value.createdAt > events[id].ev.createdAt then best
      else Some(events[id].ev)
  }

  ghost function Latest(events: map<EventId, EventRow>, kind: nat, channel: string): Option<Event> {
    Preferred(events, Listing(events, kind), channel)
  }

  /** What a command sees of one channel. */
  function ChannelOf(meta: Option<Event>, admins: Option<Event>, members: Option<Event>): ChannelState {
    ChannelState(
      if meta.Some? then Some(MetaOf(meta.value.tags)) else None,
      if admins.Some? then Some(PEntries(admins.value.tags)) else None,
      if members.Some? then PEntries(members.value.tags) else [])
  }

  ghost function ReadBack(db: Db, channel: string): ChannelState {
    ChannelOf(Latest(db.events, KIND_METADATA, channel),
              Latest(db.events, KIND_ADMINS, channel),
              Latest(db.events, KIND_MEMBERS, channel))
  }

  // ---- signing and storing -------------------------------------------------

  /** Strictly after the event it supersedes. */
  function Floor(prev: Option<Event>): nat {
    match prev
    case None => 0
    case Some(e) => e.createdAt + 1
  }

  function Stamp(prev: Option<Event>, now: nat): nat {
    if now >= Floor(prev) then now else Floor(prev)
  }

  function ListContent(r: Relay, kind: nat, c: ChannelState): string {
    if kind == KIND_METADATA && c.meta.Some? then r.nameJson(c.meta.value.name) else ""
  }

  function ListTagsOf(kind: nat, channel: string, c: ChannelState): seq<Tag> {
    if kind == KIND_METADATA then (if c.meta.Some? then ToTags(c.meta.value) else [])
    else if kind == KIND_ADMINS then ListTags(channel, c.admins.GetOr([]))
    else ListTags(channel, c.members)
  }

  /** The event that carries one of a channel's lists. */
  function Carrier(r: Relay, kind: nat, channel: string, c: ChannelState, prev: Option<Event>, now: nat): Event {
    Signed(r, kind, ListContent(r, kind, c), ListTagsOf(kind, channel, c), Stamp(prev, now))
  }

  /** `emit`: sign, store, and report the signed event whatever the store said about the slot. */
  function Emit(db: Db, ev: Event): Result<Db> {
    match StoreRelayAuthored(db, ev)
    case Failed => Result.Failed
    case Ok((d, _)) => Ok(d)
  }

  // ---- commands ------------------------------------------------------------

  /** The lists a command kind rewrites, in the order it emits them. */
  function Rewrites(kind: nat): seq<nat> {
    if kind == KIND_CREATE then [KIND_METADATA, KIND_ADMINS, KIND_MEMBERS]
    else if kind == KIND_EDIT_METADATA then [KIND_METADATA]
    else if kind == KIND_DELETE_GROUP then [KIND_METADATA, KIND_MEMBERS]
    else [KIND_MEMBERS]
  }

  /** What a group operation reports; an error after a first emit leaves that emit stored. */
  datatype Answer = Refused(why: Refusal) | Errored | Done(emitted: seq<Event>)

  /** Emit the lists one after another, each past the event read before the command began. */
  ghost function WriteLists(db: Db, read: Db, r: Relay, channel: string, c: ChannelState, kinds: seq<nat>,
        clock: nat -> nat)
    : (Db, Option<seq<Event>>)
  {
    if kinds == [] then (db, Some([])) else
      var n := |kinds| - 1;
      match WriteLists(db, read, r, channel, c, kinds[..n], clock)
      case (d, None) => (d, None)
      case (d, Some(es)) =>
        var ev := Carrier(r, kinds[n], channel, c, Latest(read.events, kinds[n], channel), clock(n));
        match Emit(d, ev)
        case Failed => (d, None)
        case Ok(d') => (d', Some(es + [ev]))
  }

  /** Read the channel back, ask the command semantics, write what it changes. */
  ghost function Decide(db: Db, r: Relay, ev: Event, channel: string, clock: nat -> nat, mirrored: bool): (Db, Answer) {
    match Next(ReadBack(db, channel), channel, ev.kind, ev.pubkey, ev.tags, mirrored)
    case Refuse(why) => (db, Refused(why))
    case Change(c) =>
      match WriteLists(db, db, r, channel, c, Rewrites(ev.kind), clock)
      case (d, None) => (d, Errored)
      case (d, Some(es)) => (d, Done(es))
  }

  ghost function Execute(db: Db, r: Relay, ev: Event, clock: nat -> nat, mirrored: bool): (Db, Answer) {
    match FirstTag(ev.tags, "h")
    case None => (db, Refused(NoChannelTag))
    case Some(channel) =>
      if channel == "" then (db, Refused(EmptyChannelTag)) else Decide(db, r, ev, channel, clock, mirrored)
  }

  // ---- admissions ----------------------------------------------------------

  datatype Admission = Denied(why: Refusal) | AdmitErrored | Existing(id: EventId) | Added(ev: Event)

  /**
   `add_member_from_invite`: a listed key changes nothing, a new one joins as a plain member. The
   lists are read from `read`; the replacement is written to `db`, which differs when another writer
   came in between.
   */
  ghost function AddMemberAfter(read: Db, db: Db, r: Relay, channel: string, claimant: string, now: nat)
    : (Db, Admission)
  {
    if channel == "" then (db, Denied(EmptyChannelTag))
    else if !Is64Hex(claimant) then (db, Denied(BadKey))
    else if Latest(read.events, KIND_METADATA, channel).None? then (db, Denied(UnknownGroup))
    else
      var key := Lower(claimant);
      var prev := Latest(read.events, KIND_MEMBERS, channel);
      var c := ReadBack(read, channel);
      if prev.Some? && Listed(c.members, key) then (db, Existing(prev.value.id))
      else
        var ev := Carrier(r, KIND_MEMBERS, channel, Admitted(c, key), prev, now);
        match Emit(db, ev)
        case Failed => (db, AdmitErrored)
        case Ok(d) => (d, Added(ev))
  }

  /** An admission that nobody interrupts. */
  ghost function AddMember(db: Db, r: Relay, channel: string, claimant: string, now: nat): (Db, Admission) {
    AddMemberAfter(db, db, r, channel, claimant, now)
  }

  // ---- what the store holds ------------------------------------------------

  /** A stored group-state event is live, the relay's own, and addressed by its `d` tag. */
  ghost predicate GroupEventOk(r: Relay, db: Db, id: EventId) {
    id in db.events && IsGroupState(db.events[id].ev.kind) ==>
      var e := db.events[id].ev;
      && !db.events[id].deleted && e.pubkey == r.pubkey
      && DTag(e.tags).Some? && DTag(e.tags) == FirstTag(e.tags, "d")
      && (e.kind == KIND_MEMBERS ==> UniqueKeys(PEntries(e.tags)))
  }

  ghost predicate GroupOk(u: Universe, r: Relay, db: Db) {
    && Base(u, db) && Signs(u, r)
    && forall id :: GroupEventOk(r, db, id)
  }

  /** The event in the slot of a channel's list. */
  function Holder(db: Db, r: Relay, kind: nat, channel: string): Option<Event> {
    var s := Slot(r.pubkey, kind, channel);
    if s in db.slots && db.slots[s].eventId in db.events then Some(db.events[db.slots[s].eventId].ev) else None
  }

  ghost predicate WithinCap(db: Db, kind: nat) {
    |LiveOfKind(db.events, kind)| <= 500
  }

  /** The lists of all channels fit the query limit. */
  ghost predicate WithinCaps(db: Db) {
    WithinCap(db, KIND_METADATA) && WithinCap(db, KIND_ADMINS) && WithinCap(db, KIND_MEMBERS)
  }

  /** A live event of a group kind addressed to a channel holds that channel's slot. */
  lemma AddressedHoldsSlot(u: Universe, r: Relay, db: Db, kind: nat, channel: string, id: EventId)
    requires GroupOk(u, r, db) && IsGroupState(kind)
    requires id in db.events && db.events[id].ev.kind == kind
    ensures Addresses(db.events[id].ev, channel) <==> Holder(db, r, kind, channel) == Some(db.events[id].ev)
    ensures IsLiveOfKind(db.events, kind, id)
  {
    assert GroupEventOk(r, db, id) && EventOk(u, db, id) && HolderOk(u, db, id);
    assert SlotOk(u, db, Slot(r.pubkey, kind, channel));
    if Holder(db, r, kind, channel) == Some(db.events[id].ev) {
      var w := db.slots[Slot(r.pubkey, kind, channel)].eventId;
      assert EventOk(u, db, w);
    }
  }

  lemma HolderIsStored(u: Universe, r: Relay, db: Db, kind: nat, channel: string)
    requires GroupOk(u, r, db) && IsGroupState(kind) && Holder(db, r, kind, channel).Some?
    ensures var e := Holder(db, r, kind, channel).value;
            && e.id in db.events && db.events[e.id].ev == e && e == u(e.id)
            && e.kind == kind && Addresses(e, channel) && e.createdAt <= I64_MAX
            && db.slots[Slot(r.pubkey, kind, channel)] == SlotRow(e.id, e.createdAt)
            && (kind == KIND_MEMBERS ==> UniqueKeys(PEntries(e.tags)))
  {
    var s := Slot(r.pubkey, kind, channel);
    var w := db.slots[s].eventId;
    assert SlotOk(u, db, s) && EventOk(u, db, w) && GroupEventOk(r, db, w);
    AddressedHoldsSlot(u, r, db, kind, channel, w);
  }

  /** Among rows in which at most the slot's holder is addressed to the channel, the holder is preferred. */
  lemma {:induction false} PreferredIsHolder(u: Universe, r: Relay, db: Db, ks: seq<Key>, kind: nat, channel: string)
    requires GroupOk(u, r, db) && IsGroupState(kind)
    requires forall k :: k in ks ==> IsLiveOfKind(db.events, kind, k.id)
    ensures Preferred(db.events, ks, channel) ==
            if Holder(db, r, kind, channel).Some?
              && (exists k :: k in ks && k.id == Holder(db, r, kind, channel).value.id)
            then Holder(db, r, kind, channel) else None
  {
    if ks != [] {
      var n := |ks| - 1;
      var k := ks[n];
      PreferredIsHolder(u, r, db, ks[..n], kind, channel);
      assert k in ks && IsLiveOfKind(db.events, kind, k.id);
      AddressedHoldsSlot(u, r, db, kind, channel, k.id);
      assert EventOk(u, db, k.id);
      if Holder(db, r, kind, channel).Some? { HolderIsStored(u, r, db, kind, channel); }
      assert forall q :: q in ks <==> q in ks[..n] || q == k;
    }
  }

  /** The live events of the kind that the query lists before `id`. */
  ghost function Newer(events: map<EventId, EventRow>, kind: nat, id: EventId): set<Key>
    requires id in events
  {
    Ahead(LiveOfKind(events, kind), NewestFirst(events, id))
  }

  /** The query sees this stored event: fewer than 500 live events of the kind come before it. */
  ghost predicate Seen(db: Db, kind: nat, id: EventId) {
    id in db.events && |Newer(db.events, kind, id)| < 500
  }

  lemma ListedIsSeen(events: map<EventId, EventRow>, kind: nat, id: EventId)
    requires id in events && IsLiveOfKind(events, kind, id)
    ensures (exists k :: k in Listing(events, kind) && k.id == id) <==> |Newer(events, kind, id)| < QUERY_LIMIT
  {
    var s := LiveOfKind(events, kind);
    InOrderLists(s);
    assert forall k :: k in Listing(events, kind) ==> k in InOrder(s) && k in s;
    LimitKeepsTheFirst(s, NewestFirst(events, id), QUERY_LIMIT);
  }

  lemma SetOfSmaller(s: set<Key>, k: Key)
    requires k in s
    ensures |Ahead(s, k)| < |s|
  {
    SmallerSubset(Ahead(s, k), s - {k});
  }

  lemma {:induction false} SmallerSubset(a: set<Key>, b: set<Key>)
    requires a <= b
    ensures |a| <= |b|
    decreases a
  {
    if a != {} {
      var x :| x in a;
      SmallerSubset(a - {x}, b - {x});
    }
  }

  /**
   Reading back through the capped query finds the slot's holder exactly when the slot is empty or
   fewer than 500 live events of the kind are newer than its holder (or as old with a lower id).
   Otherwise it finds nothing.
   */
  lemma LatestIsHolder(u: Universe, r: Relay, db: Db, kind: nat, channel: string)
    requires GroupOk(u, r, db) && IsGroupState(kind)
    ensures var h := Holder(db, r, kind, channel);
            && (Latest(db.events, kind, channel) == h <==> (h.Some? ==> Seen(db, kind, h.value.id)))
            && (Latest(db.events, kind, channel) != h ==> Latest(db.events, kind, channel).None?)
            && (WithinCap(db, kind) ==> Latest(db.events, kind, channel) == h)
  {
    var s := LiveOfKind(db.events, kind);
    var ks := Listing(db.events, kind);
    InOrderLists(s);
    forall k | k in ks ensures k in s && IsLiveOfKind(db.events, kind, k.id) {
      assert k in InOrder(s);
    }
    PreferredIsHolder(u, r, db, ks, kind, channel);
    if Holder(db, r, kind, channel).Some? {
      HolderIsStored(u, r, db, kind, channel);
      var id := Holder(db, r, kind, channel).value.id;
      AddressedHoldsSlot(u, r, db, kind, channel, id);
      ListedIsSeen(db.events, kind, id);
      SetOfSmaller(s, NewestFirst(db.events, id));
    }
  }

  /**
   What the cap costs: a channel whose metadata 500 newer live metadata events precede looks unknown,
   so a create command for it succeeds whoever sends it.
   */
  lemma UnseenChannelIsRecreated(u: Universe, r: Relay, db: Db, channel: string, author: string, tags: seq<Tag>,
        mirrored: bool)
    requires GroupOk(u, r, db) && Holder(db, r, KIND_METADATA, channel).Some?
    requires FirstTag(tags, "name").GetOr("") != ""
    ensures !Seen(db, KIND_METADATA, Holder(db, r, KIND_METADATA, channel).value.id)
            <==> ReadBack(db, channel).meta.None?
    ensures ReadBack(db, channel).meta.None? ==>
            Next(ReadBack(db, channel), channel, KIND_CREATE, author, tags, mirrored) ==
            Change(Created(ReadBack(db, channel), channel, author, tags))
  {
    LatestIsHolder(u, r, db, KIND_METADATA, channel);
  }

  // ---- one emit ------------------------------------------------------------

  /** After an emit its slot holds the new event and every other group slot what it held. */
  ghost predicate TakesSlot(r: Relay, db: Db, ev: Event, channel: string, d: Db) {
    && Holder(d, r, ev.kind, channel) == Some(ev)
    && forall kind, ch :: Other(ev.kind, channel, kind, ch) ==> Holder(d, r, kind, ch) == Holder(db, r, kind, ch)
  }

  predicate Other(kind: nat, channel: string, kind': nat, channel': string) {
    IsGroupState(kind') && (kind' != kind || channel' != channel)
  }

  /**
   `emit` always wins its slot: the timestamp floor beats the holder whatever the clock says, so the
   only way to fail is a timestamp past the 64-bit range.
   */
  lemma EmitWinsSlot(u: Universe, r: Relay, db: Db, ev: Event, channel: string)
    requires GroupOk(u, r, db) && IsGroupState(ev.kind) && ev == u(ev.id) && ev.pubkey == r.pubkey
    requires DTag(ev.tags) == Some(channel) == FirstTag(ev.tags, "d")
    requires ev.kind == KIND_MEMBERS ==> UniqueKeys(PEntries(ev.tags))
    requires ev.createdAt >= Floor(Holder(db, r, ev.kind, channel))
    ensures Emit(db, ev).Ok? <==> InRange(ev)
    ensures Emit(db, ev).Ok? ==> GroupOk(u, r, Emit(db, ev).value) && TakesSlot(r, db, ev, channel, Emit(db, ev).value)
  {
    EmittedIsNew(u, r, db, ev, channel);
    if Holder(db, r, ev.kind, channel).Some? { HolderIsStored(u, r, db, ev.kind, channel); }
    hide GroupOk, Holder, TakesSlot;
    EmitTakesSlot(u, r, db, ev, channel);
  }

  /** A new event that beats the holder of its slot, if there is one, takes the slot. */
  lemma EmitTakesSlot(u: Universe, r: Relay, db: Db, ev: Event, channel: string)
    requires GroupOk(u, r, db) && IsGroupState(ev.kind) && ev == u(ev.id) && ev.pubkey == r.pubkey
    requires DTag(ev.tags) == Some(channel) == FirstTag(ev.tags, "d") && ev.id !in db.events
    requires ev.kind == KIND_MEMBERS ==> UniqueKeys(PEntries(ev.tags))
    requires var h := Holder(db, r, ev.kind, channel); h.Some? ==> Beats(ev, h.value)
    ensures Emit(db, ev).Ok? <==> InRange(ev)
    ensures Emit(db, ev).Ok? ==> GroupOk(u, r, Emit(db, ev).value) && TakesSlot(r, db, ev, channel, Emit(db, ev).value)
  {
    DedupedEffect(u, db, ev);
    if InRange(ev) {
      RelayStoreKeepsBase(u, db, ev);
      EmitMovesNoOther(u, r, db, ev, channel);
      EmitTakesOwn(u, r, db, ev, channel);
      EmitKeepsGroupEvents(u, r, db, ev, channel);
      hide Base, Emit;
    }
  }

  lemma EmitTakesOwn(u: Universe, r: Relay, db: Db, ev: Event, channel: string)
    requires GroupOk(u, r, db) && IsGroupState(ev.kind) && ev == u(ev.id) && ev.pubkey == r.pubkey
    requires DTag(ev.tags) == Some(channel) && ev.id !in db.events && InRange(ev) && Emit(db, ev).Ok?
    requires var h := Holder(db, r, ev.kind, channel); h.Some? ==> Beats(ev, h.value)
    ensures Holder(Emit(db, ev).value, r, ev.kind, channel) == Some(ev)
  {
    var s := Slot(r.pubkey, ev.kind, channel);
    assert SlotOf(ev) == s && SlotOk(u, db, s);
    if Holder(db, r, ev.kind, channel).Some? { HolderIsStored(u, r, db, ev.kind, channel); }
  }

  lemma EmitKeepsGroupEvents(u: Universe, r: Relay, db: Db, ev: Event, channel: string)
    requires GroupOk(u, r, db) && IsGroupState(ev.kind) && ev == u(ev.id) && ev.pubkey == r.pubkey
    requires DTag(ev.tags) == Some(channel) == FirstTag(ev.tags, "d") && ev.id !in db.events && Emit(db, ev).Ok?
    requires ev.kind == KIND_MEMBERS ==> UniqueKeys(PEntries(ev.tags))
    ensures forall id :: GroupEventOk(r, Emit(db, ev).value, id)
  {
    DedupedEffect(u, db, ev);
    forall id ensures GroupEventOk(r, Emit(db, ev).value, id) { assert GroupEventOk(r, db, id); }
  }

  /** A new event that the holder of its slot beats is dropped, and the store still says it is fine. */
  lemma EmitIsDropped(u: Universe, r: Relay, db: Db, ev: Event, channel: string)
    requires GroupOk(u, r, db) && IsGroupState(ev.kind) && ev == u(ev.id) && ev.pubkey == r.pubkey && InRange(ev)
    requires DTag(ev.tags) == Some(channel) && ev.id !in db.events
    requires var h := Holder(db, r, ev.kind, channel); h.Some? && Beats(h.value, ev)
    ensures Emit(db, ev) == Ok(db)
  {
    HolderIsStored(u, r, db, ev.kind, channel);
    assert SlotOf(ev) == Slot(r.pubkey, ev.kind, channel);
  }

  lemma EmittedIsNew(u: Universe, r: Relay, db: Db, ev: Event, channel: string)
    requires GroupOk(u, r, db) && IsGroupState(ev.kind) && ev == u(ev.id) && ev.pubkey == r.pubkey
    requires DTag(ev.tags) == Some(channel) && ev.createdAt >= Floor(Holder(db, r, ev.kind, channel))
    ensures ev.id !in db.events
  {
    assert EventOk(u, db, ev.id) && HolderOk(u, db, ev.id);
  }

  lemma EmitMovesNoOther(u: Universe, r: Relay, db: Db, ev: Event, channel: string)
    requires Base(u, db) && ev == u(ev.id) && IsGroupState(ev.kind) && ev.pubkey == r.pubkey
    requires DTag(ev.tags) == Some(channel) && ev.id !in db.events && Emit(db, ev).Ok?
    ensures forall kind, ch :: Other(ev.kind, channel, kind, ch) ==>
            Holder(Emit(db, ev).value, r, kind, ch) == Holder(db, r, kind, ch)
  {
    var s := Slot(r.pubkey, ev.kind, channel);
    assert SlotOf(ev) == s && SlotOk(u, db, s);
    DedupedEffect(u, db, ev);
    forall kind, ch | Other(ev.kind, channel, kind, ch)
      ensures Holder(Emit(db, ev).value, r, kind, ch) == Holder(db, r, kind, ch)
    {
      assert SlotOk(u, db, Slot(r.pubkey, kind, ch)) && Slot(r.pubkey, kind, ch) != s;
    }
  }

  // ---- the lists of one channel --------------------------------------------

  /** What the slots of one channel hold, decoded. */
  function View(db: Db, r: Relay, channel: string): ChannelState {
    ChannelOf(Holder(db, r, KIND_METADATA, channel), Holder(db, r, KIND_ADMINS, channel),
      Holder(db, r, KIND_MEMBERS, channel))
  }

  lemma ReadBackIsView(u: Universe, r: Relay, db: Db, channel: string)
    requires GroupOk(u, r, db) && WithinCaps(db)
    ensures ReadBack(db, channel) == View(db, r, channel)
  {
    LatestIsHolder(u, r, db, KIND_METADATA, channel);
    LatestIsHolder(u, r, db, KIND_ADMINS, channel);
    LatestIsHolder(u, r, db, KIND_MEMBERS, channel);
  }

  lemma ViewIsOk(u: Universe, r: Relay, db: Db, channel: string)
    requires GroupOk(u, r, db)
    ensures StateOk(View(db, r, channel))
  {
    var a, m := Holder(db, r, KIND_ADMINS, channel), Holder(db, r, KIND_MEMBERS, channel);
    if a.Some? { ReadRolesAreNamed(a.value.tags); }
    if m.Some? { ReadRolesAreNamed(m.value.tags); HolderIsStored(u, r, db, KIND_MEMBERS, channel); }
  }

  /** One list of a channel state, as it can be compared. */
  predicate SameList(kind: nat, a: ChannelState, b: ChannelState) {
    if kind == KIND_METADATA then a.meta == b.meta
    else if kind == KIND_ADMINS then a.admins == b.admins
    else a.members == b.members
  }

  /** A state whose lists a channel's events can carry. */
  predicate Carries(c: ChannelState, channel: string, kind: nat) {
    && StateOk(c)
    && (kind == KIND_METADATA ==> c.meta.Some? && c.meta.value.id == channel)
    && (kind == KIND_ADMINS ==> c.admins.Some?)
  }

  /** The carrier of a list is addressed to the channel and decodes to the list. */
  lemma CarrierDecodes(r: Relay, kind: nat, channel: string, c: ChannelState, prev: Option<Event>, now: nat)
    requires IsGroupState(kind) && Carries(c, channel, kind)
    ensures var ev := Carrier(r, kind, channel, c, prev, now);
            && ev.kind == kind && ev.pubkey == r.pubkey && ev.createdAt >= Floor(prev)
            && DTag(ev.tags) == Some(channel) == FirstTag(ev.tags, "d")
            && (kind == KIND_METADATA ==> MetaOf(ev.tags) == c.meta.value)
            && (kind == KIND_ADMINS ==> PEntries(ev.tags) == c.admins.value)
            && (kind == KIND_MEMBERS ==> PEntries(ev.tags) == c.members)
  {
    var tags := ListTagsOf(kind, channel, c);
    if kind == KIND_METADATA {
      MetaRoundTrip(c.meta.value);
      AllFieldsReadBack(c.meta.value);
      var fs := Fields(c.meta.value);
      assert fs[0] == Field("d", Some(channel));
      assert tags[0] == ["d", channel];
    } else if kind == KIND_ADMINS {
      ListRoundTrip(channel, c.admins.value);
      assert tags[0] == ["d", channel];
    } else {
      ListRoundTrip(channel, c.members);
      assert tags[0] == ["d", channel];
    }
  }

  /** The slots of `channel` moved from `db` to `d` exactly by the listed kinds, towards `c`. */
  ghost predicate Moved(r: Relay, db: Db, channel: string, c: ChannelState, kinds: seq<nat>, d: Db) {
    && (forall kind, ch :: IsGroupState(kind) && (ch != channel || kind !in kinds) ==>
          Holder(d, r, kind, ch) == Holder(db, r, kind, ch))
    && (forall kind :: kind in kinds ==> SameList(kind, View(d, r, channel), c))
  }

  /** Each rewritten slot holds an event stamped past the one it replaced. */
  ghost predicate Stamped(r: Relay, db: Db, channel: string, kinds: seq<nat>, clock: nat -> nat, d: Db) {
    forall i :: 0 <= i < |kinds| ==> StampedAt(r, db, channel, kinds[i], clock(i), d)
  }

  predicate StampedAt(r: Relay, db: Db, channel: string, kind: nat, now: nat, d: Db) {
    var e := Holder(d, r, kind, channel);
    e.Some? && e.value.createdAt == Stamp(Holder(db, r, kind, channel), now)
  }

  predicate ListsDistinct(kinds: seq<nat>) {
    && (forall i :: 0 <= i < |kinds| ==> IsGroupState(kinds[i]))
    && (forall i, j :: 0 <= i < j < |kinds| ==> kinds[i] != kinds[j])
  }

  /** One more list written. */
  lemma OneListMoves(u: Universe, r: Relay, db: Db, mid: Db, channel: string, c: ChannelState, kinds: seq<nat>,
        clock: nat -> nat)
    requires GroupOk(u, r, db) && GroupOk(u, r, mid) && kinds != [] && ListsDistinct(kinds)
    requires Carries(c, channel, kinds[|kinds| - 1])
    requires Moved(r, db, channel, c, kinds[..|kinds| - 1], mid)
    requires Stamped(r, db, channel, kinds[..|kinds| - 1], clock, mid)
    ensures var n := |kinds| - 1;
            var ev := Carrier(r, kinds[n], channel, c, Holder(db, r, kinds[n], channel), clock(n));
            && (Emit(mid, ev).Ok? <==> InRange(ev))
            && (Emit(mid, ev).Ok? ==>
                  && GroupOk(u, r, Emit(mid, ev).value)
                  && Moved(r, db, channel, c, kinds, Emit(mid, ev).value)
                  && Stamped(r, db, channel, kinds, clock, Emit(mid, ev).value))
  {
    var n := |kinds| - 1;
    var kind := kinds[n];
    assert kind !in kinds[..n];
    var prev := Holder(db, r, kind, channel);
    var ev := Carrier(r, kind, channel, c, prev, clock(n));
    assert Holder(mid, r, kind, channel) == prev;
    CarrierDecodes(r, kind, channel, c, prev, clock(n));
    assert u(ev.id) == ev;
    EmitWinsSlot(u, r, mid, ev, channel);
    if Emit(mid, ev).Ok? {
      var d := Emit(mid, ev).value;
      MovedOnce(r, db, mid, channel, c, kinds, ev, d);
      StampedOnce(r, db, mid, channel, kinds, clock, ev, d);
    }
  }

  lemma StampedOnce(r: Relay, db: Db, mid: Db, channel: string, kinds: seq<nat>, clock: nat -> nat, ev: Event, d: Db)
    requires kinds != [] && ListsDistinct(kinds) && ev.kind == kinds[|kinds| - 1]
    requires Stamped(r, db, channel, kinds[..|kinds| - 1], clock, mid) && TakesSlot(r, mid, ev, channel, d)
    requires ev.createdAt == Stamp(Holder(db, r, ev.kind, channel), clock(|kinds| - 1))
    ensures Stamped(r, db, channel, kinds, clock, d)
  {
    var n := |kinds| - 1;
    hide Holder, Stamp;
    forall i | 0 <= i < |kinds| ensures StampedAt(r, db, channel, kinds[i], clock(i), d) {
      if i < n {
        assert kinds[..n][i] == kinds[i] && Other(ev.kind, channel, kinds[i], channel);
        assert StampedAt(r, db, channel, kinds[i], clock(i), mid);
      }
    }
  }

  lemma MovedOnce(r: Relay, db: Db, mid: Db, channel: string, c: ChannelState, kinds: seq<nat>, ev: Event, d: Db)
    requires kinds != [] && ListsDistinct(kinds) && ev.kind == kinds[|kinds| - 1]
    requires Carries(c, channel, ev.kind)
    requires Moved(r, db, channel, c, kinds[..|kinds| - 1], mid) && TakesSlot(r, mid, ev, channel, d)
    requires ev.kind == KIND_METADATA ==> MetaOf(ev.tags) == c.meta.value
    requires ev.kind == KIND_ADMINS ==> PEntries(ev.tags) == c.admins.value
    requires ev.kind == KIND_MEMBERS ==> PEntries(ev.tags) == c.members
    ensures Moved(r, db, channel, c, kinds, d)
  {
    var n := |kinds| - 1;
    assert forall k :: k in kinds <==> k in kinds[..n] || k == kinds[n];
    hide Holder, StateOk, IsGroupState;
    forall kind, ch | IsGroupState(kind) && (ch != channel || kind !in kinds)
      ensures Holder(d, r, kind, ch) == Holder(db, r, kind, ch)
    {
      assert Other(ev.kind, channel, kind, ch);
    }
    forall kind | kind in kinds ensures SameList(kind, View(d, r, channel), c) {
      if kind != ev.kind {
        assert kind in kinds[..n] && IsGroupState(kind) && Other(ev.kind, channel, kind, channel);
        assert SameList(kind, View(mid, r, channel), c);
      }
    }
  }

  predicate StampFits(r: Relay, db: Db, channel: string, kind: nat, now: nat) {
    Stamp(Holder(db, r, kind, channel), now) <= I64_MAX
  }

  ghost predicate AllFit(r: Relay, db: Db, channel: string, kinds: seq<nat>, clock: nat -> nat) {
    forall i :: 0 <= i < |kinds| ==> StampFits(r, db, channel, kinds[i], clock(i))
  }

  lemma OneMoreFits(r: Relay, db: Db, channel: string, kinds: seq<nat>, clock: nat -> nat)
    requires kinds != []
    ensures var n := |kinds| - 1;
            AllFit(r, db, channel, kinds, clock) <==>
              AllFit(r, db, channel, kinds[..n], clock) && StampFits(r, db, channel, kinds[n], clock(n))
  {
    var n := |kinds| - 1;
    hide StampFits;
    assert forall i :: 0 <= i < n ==> kinds[..n][i] == kinds[i];
  }

  /** Writing the lists of a command: every slot named moves, or the write failed on a timestamp. */
  lemma {:induction false} ListsMove(u: Universe, r: Relay, db: Db, channel: string, c: ChannelState, kinds: seq<nat>,
        clock: nat -> nat)
    requires GroupOk(u, r, db) && WithinCaps(db) && ListsDistinct(kinds)
    requires forall k :: k in kinds ==> Carries(c, channel, k)
    ensures var (d, es) := WriteLists(db, db, r, channel, c, kinds, clock);
            && GroupOk(u, r, d)
            && (es.Some? ==> Moved(r, db, channel, c, kinds, d) && Stamped(r, db, channel, kinds, clock, d))
            && (es.Some? <==> AllFit(r, db, channel, kinds, clock))
  {
    if kinds != [] {
      hide GroupOk, Moved, Stamped, Latest, Holder, StateOk, AllFit;
      var n := |kinds| - 1;
      OneMoreFits(r, db, channel, kinds, clock);
      ListsMove(u, r, db, channel, c, kinds[..n], clock);
      var (mid, es) := WriteLists(db, db, r, channel, c, kinds[..n], clock);
      assert kinds[n] in kinds;
      LatestIsHolder(u, r, db, kinds[n], channel);
      if es.Some? { OneListMoves(u, r, db, mid, channel, c, kinds, clock); }
    }
  }
}
