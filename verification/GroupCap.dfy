/**
 A run past the cap on reading group state back: 501 channels are created, and the oldest of them,
 live and holding its slot, is no longer seen.
 */
module GroupCap {
  import opened Options
  import opened Ids
  import opened Events
  import opened Tables
  import opened Engine
  import opened Keyset
  import opened Groups
  import opened GroupState

  /** The name of the channel that event `id` describes. */
  function Name(id: nat): string {
    seq(id + 1, i => 'x')
  }

  function Metadata(id: EventId): (ev: Event)
    ensures ev.id == id
  {
    Event(id, "relay", id, KIND_METADATA, [["d", Name(id)]], "")
  }

  lemma MetadataFacts(id: EventId)
    ensures SlotOf(Metadata(id)) == Slot("relay", KIND_METADATA, Name(id))
    ensures FirstTag(Metadata(id).tags, "d") == Some(Name(id)) && Channel(Metadata(id)) == None
  {
    var tags := Metadata(id).tags;
    assert Named(tags[0], "d") && FirstNamed(tags, "d") == 0;
    assert tags[1..] == [] && !Named(tags[0], "h") && ChannelValues(tags[1..]) == [];
  }

  function Row(id: EventId): EventRow {
    EventRow(Metadata(id), None, false)
  }

  function MetadataUniverse(): (u: Universe)
    ensures forall id :: u(id) == Metadata(id)
  {
    (id: EventId) => Metadata(id)
  }

  /** The tables after the first `n` channels. */
  ghost predicate HoldsFirst(db: Db, n: nat) {
    && db.events == (map id: EventId | 0 <= id < n :: Row(id))
    && (forall s :: s in db.slots ==> |s.d| <= n)
    && (n > 0 ==> Slot("relay", KIND_METADATA, Name(0)) in db.slots
                  && db.slots[Slot("relay", KIND_METADATA, Name(0))] == SlotRow(0, 0))
  }

  lemma StoresNext(db: Db, n: nat) returns (d: Db)
    requires HoldsFirst(db, n) && n <= I64_MAX
    ensures StoreRelayAuthored(db, Metadata(n)) == Ok((d, Inserted)) && HoldsFirst(d, n + 1)
  {
    MetadataFacts(n);
    var slot := SlotOf(Metadata(n));
    assert slot !in db.slots by { assert |slot.d| == n + 1; }
    d := db.(events := db.events[n := Row(n)], slots := db.slots[slot := SlotRow(n, n)]);
    var next := n + 1;
    assert d.events == (map id: EventId | 0 <= id < next :: Row(id));
    if n > 0 { assert |Name(0)| == 1; }
  }

  lemma {:induction false} ManyChannels(n: nat) returns (run: seq<Step>, db: Db)
    requires n <= I64_MAX
    ensures Reaches(MetadataUniverse(), run, db) && HoldsFirst(db, n)
    decreases n
  {
    var u := MetadataUniverse();
    if n == 0 {
      run, db := [], EMPTY_DB;
    } else {
      var last := n - 1;
      var before, prev := ManyChannels(last);
      db := StoresNext(prev, last);
      var s := Step(RelayStore(u(last)), Stored(Some(Inserted)));
      run := before + [s];
      assert run[..|before|] == before;
      assert OpStep(u, prev, s.op, db, s.report);
    }
  }

  function KeyOf(id: nat): Key {
    var age: int := 0 - (id as int);
    Key(age, id)
  }

  /** The keys of events 1 to `n`. */
  function KeysTo(n: nat): set<Key> {
    if n == 0 then {} else KeysTo(n - 1) + {KeyOf(n)}
  }

  lemma {:induction false} KeysToCount(n: nat)
    ensures |KeysTo(n)| == n
    ensures forall k :: k in KeysTo(n) ==> 1 <= k.id <= n && k == KeyOf(k.id)
  {
    if n > 0 { KeysToCount(n - 1); }
  }

  lemma {:induction false} NobodyAddressed(events: map<EventId, EventRow>, ks: seq<Key>, channel: string)
    requires forall k :: k in ks ==> k.id in events && !Addresses(events[k.id].ev, channel)
    ensures Preferred(events, ks, channel) == None
  {
    if ks != [] {
      var n := |ks| - 1;
      assert ks[n] in ks;
      assert forall k :: k in ks[..n] ==> k in ks;
      NobodyAddressed(events, ks[..n], channel);
    }
  }

  lemma NewerThanTheFirst(db: Db, n: nat)
    requires HoldsFirst(db, n) && n > QUERY_LIMIT
    ensures |Newer(db.events, KIND_METADATA, 0)| >= QUERY_LIMIT
  {
    var newer := Newer(db.events, KIND_METADATA, 0);
    KeysToCount(QUERY_LIMIT);
    forall k | k in KeysTo(QUERY_LIMIT) ensures k in newer {
      assert k.id in db.events && IsLiveOfKind(db.events, KIND_METADATA, k.id);
      assert k == NewestFirst(db.events, k.id);
    }
    SmallerSubset(KeysTo(QUERY_LIMIT), newer);
  }

  lemma OthersAddressElsewhere(db: Db, n: nat, id: EventId)
    requires HoldsFirst(db, n) && id in db.events && id != 0
    ensures !Addresses(db.events[id].ev, Name(0))
  {
    MetadataFacts(id);
    assert |Name(id)| == id + 1 && |Name(0)| == 1;
  }

  lemma OldestIsUnseen(db: Db, n: nat)
    requires HoldsFirst(db, n) && n > QUERY_LIMIT
    ensures Latest(db.events, KIND_METADATA, Name(0)) == None
  {
    var events, s := db.events, LiveOfKind(db.events, KIND_METADATA);
    NewerThanTheFirst(db, n);
    assert IsLiveOfKind(events, KIND_METADATA, 0);
    ListedIsSeen(events, KIND_METADATA, 0);
    InOrderLists(s);
    var ks := Listing(events, KIND_METADATA);
    hide HoldsFirst, Addresses, Newer;
    forall k | k in ks ensures k.id in events && !Addresses(events[k.id].ev, Name(0)) {
      assert k in InOrder(s) && k in s;
      OthersAddressElsewhere(db, n, k.id);
    }
    NobodyAddressed(events, ks, Name(0));
  }

  /**
   501 channels stored one after another: the first is live, holds its slot and is addressed to its
   channel, and yet reading that channel back finds no metadata.
   */
  lemma CapHidesAChannel() returns (u: Universe, run: seq<Step>, db: Db)
    ensures Authentic(u) && Reaches(u, run, db)
    ensures 0 in db.events && !db.events[0].deleted && Addresses(db.events[0].ev, Name(0))
    ensures SlotOf(u(0)) in db.slots && db.slots[SlotOf(u(0))].eventId == 0
    ensures ReadBack(db, Name(0)).meta.None?
  {
    u := MetadataUniverse();
    forall id ensures u(id).id == id { assert u(id) == Metadata(id); }
    run, db := ManyChannels(QUERY_LIMIT + 1);
    MetadataFacts(0);
    OldestIsUnseen(db, QUERY_LIMIT + 1);
  }
}
