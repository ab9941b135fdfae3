/**
 Nostr events and the pure helpers that read them: kind classes, the marked e-tags that carry
 thread ancestry (NIP-10), the channel an event belongs to (NIP-29 `h` tags) and the replaceable
 slot it occupies (NIP-01).
 */
module Events {
  import opened Options
  import opened Ids

  type Tag = seq<string>

  datatype Event = Event(
    id: EventId,
    pubkey: string,
    createdAt: nat,
    kind: nat,
    tags: seq<Tag>,
    content: string)

  /**
   What every id stands for. An id is a hash of its event, so one id never names two events; the
   function is total only for convenience, since a run mentions finitely many ids.
   */
  type Universe = EventId -> Event

  ghost predicate Authentic(u: Universe) {
    forall id :: u(id).id == id
  }

  const KIND_REACTION := 7
  const KIND_DELETION := 5
  const KIND_NIP29_DELETE := 9005
  const DEPTH_CAP := 100
  const I64_MAX: int := 0x7fff_ffff_ffff_ffff

  // ---- kind classes --------------------------------------------------------

  predicate IsRelayAuthored(kind: nat) {
    39000 <= kind <= 39003 || kind == 39005 || kind == 39006 || kind == 13534
  }

  predicate IsThreadScoped(kind: nat) {
    kind == 9 || 40002 <= kind <= 40008
  }

  predicate IsDeletionKind(kind: nat) {
    kind == KIND_DELETION || kind == KIND_NIP29_DELETE
  }

  predicate IsPlainReplaceable(kind: nat) {
    kind == 0 || kind == 3 || 10000 <= kind < 20000
  }

  predicate IsParameterizedReplaceable(kind: nat) {
    30000 <= kind < 40000
  }

  predicate IsReplaceable(kind: nat) {
    IsPlainReplaceable(kind) || IsParameterizedReplaceable(kind)
  }

  // ---- tags ----------------------------------------------------------------

  predicate Named(t: Tag, name: string) {
    |t| > 0 && t[0] == name
  }

  /** Index of the first tag with this name, or the number of tags when there is none. */
  function FirstNamed(tags: seq<Tag>, name: string): (i: nat)
    ensures i <= |tags|
    ensures i < |tags| ==> Named(tags[i], name)
    ensures forall j :: 0 <= j < i ==> !Named(tags[j], name)
  {
    if tags == [] then 0
    else if Named(tags[0], name) then 0
    else 1 + FirstNamed(tags[1..], name)
  }

  /** `first_tag`: the value of the first tag of that name, "" for a tag without a value. */
  function FirstTag(tags: seq<Tag>, name: string): Option<string> {
    var i := FirstNamed(tags, name);
    if i == |tags| then None
    else Some(if |tags[i]| >= 2 then tags[i][1] else "")
  }

  predicate HasTag(tags: seq<Tag>, name: string) {
    FirstNamed(tags, name) < |tags|
  }

  /** Tag `i` is the first one with this name. */
  predicate IsFirst(tags: seq<Tag>, name: string, i: int) {
    && 0 <= i < |tags| && |tags[i]| >= 1 && tags[i][0] == name
    && forall j :: 0 <= j < i ==> |tags[j]| == 0 || tags[j][0] != name
  }

  /** The first tag of a name gives the value, "" when it has none; other tags of that name are ignored. */
  lemma FirstTagReads(tags: seq<Tag>, name: string, v: string)
    ensures FirstTag(tags, name) == Some(v) <==>
            exists i :: IsFirst(tags, name, i) && v == if |tags[i]| >= 2 then tags[i][1] else ""
    ensures FirstTag(tags, name).Some? <==> exists i :: 0 <= i < |tags| && |tags[i]| >= 1 && tags[i][0] == name
    ensures FirstTag(tags, name).Some? <==> HasTag(tags, name)
  {
    var i := FirstNamed(tags, name);
    if i < |tags| { assert IsFirst(tags, name, i); }
    forall j | IsFirst(tags, name, j) ensures j == i { assert Named(tags[j], name); }
    forall j | 0 <= j < |tags| && |tags[j]| >= 1 && tags[j][0] == name ensures i < |tags| {
      assert Named(tags[j], name);
    }
  }

  predicate HasBroadcast(tags: seq<Tag>) {
    exists i :: 0 <= i < |tags| && |tags[i]| >= 2 && tags[i][0] == "broadcast" && tags[i][1] == "1"
  }

  /** A marked e-tag: `["e", <64-hex>, _, marker, ..]`. Positional and non-hex e-tags do not count. */
  predicate IsMarker(t: Tag, marker: string) {
    |t| >= 4 && t[0] == "e" && Is64Hex(t[1]) && t[3] == marker
  }

  /** The id named by the first marked e-tag with this marker. */
  function Marked(tags: seq<Tag>, marker: string): (r: Option<EventId>)
    ensures r.None? <==> forall i :: 0 <= i < |tags| ==> !IsMarker(tags[i], marker)
  {
    if tags == [] then None
    else if IsMarker(tags[0], marker) then Some(HexValue(tags[0][1]))
    else Marked(tags[1..], marker)
  }

  lemma {:induction false} MarkedSnoc(tags: seq<Tag>, t: Tag, marker: string)
    ensures Marked(tags + [t], marker) ==
            if Marked(tags, marker).Some? then Marked(tags, marker)
            else if IsMarker(t, marker) then Some(HexValue(t[1])) else None
  {
    if tags == [] {
      assert tags + [t] == [t];
    } else {
      assert (tags + [t])[1..] == tags[1..] + [t];
      MarkedSnoc(tags[1..], t, marker);
    }
  }

  /** One pass over the tags keeps the first `root` and the first `reply` marker. */
  method ScanMarkers(tags: seq<Tag>) returns (root: Option<EventId>, reply: Option<EventId>)
    ensures root == Marked(tags, "root")
    ensures reply == Marked(tags, "reply")
  {
    root, reply := None, None;
    for k := 0 to |tags|
      invariant root == Marked(tags[..k], "root")
      invariant reply == Marked(tags[..k], "reply")
    {
      var t := tags[k];
      assert tags[..k + 1] == tags[..k] + [t];
      MarkedSnoc(tags[..k], t, "root");
      MarkedSnoc(tags[..k], t, "reply");
      if |t| >= 4 && t[0] == "e" && Is64Hex(t[1]) {
        if t[3] == "root" {
          if root.None? { root := Some(HexValue(t[1])); }
        } else if t[3] == "reply" {
          if reply.None? { reply := Some(HexValue(t[1])); }
        }
      }
    }
    assert tags[..|tags|] == tags;
  }

  datatype Markers = TopLevel | Reply(parent: EventId, rootHint: EventId)

  /** The four-row marker table; a lone `root` marker is a top-level event. */
  function ResolveMarkers(tags: seq<Tag>): Markers {
    match (Marked(tags, "root"), Marked(tags, "reply"))
    case (_, None) => TopLevel
    case (None, Some(p)) => Reply(p, p)
    case (Some(r), Some(p)) => Reply(p, r)
  }

  /** An event's own root, read from its markers: root, else reply, else itself. */
  function DeriveOwnRoot(tags: seq<Tag>, own: EventId): EventId {
    match (Marked(tags, "root"), Marked(tags, "reply"))
    case (Some(r), _) => r
    case (None, Some(p)) => p
    case (None, None) => own
  }

  /** Handled as a thread-scoped reply by the engine. */
  predicate IsReply(ev: Event) {
    IsThreadScoped(ev.kind) && ResolveMarkers(ev.tags).Reply?
  }

  function ParentOf(ev: Event): EventId
    requires IsReply(ev)
  {
    ResolveMarkers(ev.tags).parent
  }

  function RootHintOf(ev: Event): EventId
    requires IsReply(ev)
  {
    ResolveMarkers(ev.tags).rootHint
  }

  /**
   A reply is a message of kind 9 or 40002 to 40008 with a `reply` marker: the first of these names
   its parent, the first `root` marker the root it claims, which without one is the parent.
   */
  lemma ReplyReads(ev: Event, p: EventId)
    ensures IsReply(ev) <==> (ev.kind == 9 || 40002 <= ev.kind <= 40008) && !NoMark(ev.tags, "reply")
    ensures IsReply(ev) ==> (ParentOf(ev) == p <==> FirstMark(ev.tags, "reply", p))
    ensures IsReply(ev) ==>
            (RootHintOf(ev) == p <==>
             FirstMark(ev.tags, "root", p) || (NoMark(ev.tags, "root") && FirstMark(ev.tags, "reply", p)))
  {
    hide Marked, FirstMark, NoMark;
    MarkedIsFirst(ev.tags, "reply", p);
    MarkedIsFirst(ev.tags, "root", p);
  }

  /**
   An event the engine does not handle as a reply carries no hex-valued root or reply marker. The
   engine re-reads the markers of a parent that has no thread row, so for other events the answer
   depends on which reply arrives first.
   */
  predicate Plain(ev: Event) {
    IsReply(ev) || (Marked(ev.tags, "root").None? && Marked(ev.tags, "reply").None?)
  }

  lemma PlainRootsItself(ev: Event)
    requires Plain(ev) && !IsReply(ev)
    ensures DeriveOwnRoot(ev.tags, ev.id) == ev.id
  {
  }

  /** The tag is `["e", <the id, as 64 hex digits>, _, marker, ..]`. */
  predicate Marks(t: Tag, marker: string, id: EventId) {
    |t| >= 4 && t[0] == "e" && t[3] == marker && ParseId(t[1]) == Some(id)
  }

  /** The first tag that carries this marker and an id carries the id `id`. */
  ghost predicate FirstMark(tags: seq<Tag>, marker: string, id: EventId) {
    exists i :: 0 <= i < |tags| && Marks(tags[i], marker, id) &&
      forall j, other :: 0 <= j < i ==> !Marks(tags[j], marker, other)
  }

  ghost predicate NoMark(tags: seq<Tag>, marker: string) {
    forall i, id :: 0 <= i < |tags| ==> !Marks(tags[i], marker, id)
  }

  lemma MarkerNames(t: Tag, marker: string, id: EventId)
    ensures Marks(t, marker, id) <==> IsMarker(t, marker) && id == HexValue(t[1])
  {
  }

  /** The scan for a marker finds the first tag that carries it, and nothing exactly when no tag does. */
  lemma {:induction false} MarkedIsFirst(tags: seq<Tag>, marker: string, id: EventId)
    ensures Marked(tags, marker) == Some(id) <==> FirstMark(tags, marker, id)
    ensures Marked(tags, marker).None? <==> NoMark(tags, marker)
  {
    if tags != [] {
      var rest := tags[1..];
      MarkedIsFirst(rest, marker, id);
      forall i, other | 0 <= i < |tags| ensures Marks(tags[i], marker, other) <==>
          IsMarker(tags[i], marker) && other == HexValue(tags[i][1])
      {
        MarkerNames(tags[i], marker, other);
      }
      if IsMarker(tags[0], marker) { assert Marks(tags[0], marker, HexValue(tags[0][1])); }
      hide Marks, IsMarker;
      if i :| 0 <= i < |rest| && Marks(rest[i], marker, id) { assert tags[i + 1] == rest[i]; }
    }
  }

  // ---- channels ------------------------------------------------------------

  /** Lower-cased values of the `h` tags, in tag order. */
  function ChannelValues(tags: seq<Tag>): seq<string> {
    if tags == [] then []
    else if Named(tags[0], "h") && |tags[0]| >= 2 then [Lower(tags[0][1])] + ChannelValues(tags[1..])
    else ChannelValues(tags[1..])
  }

  function LexMin(a: string, b: string): string {
    if LexLess(b, a) then b else a
  }

  function Least(ss: seq<string>): string
    requires |ss| > 0
  {
    if |ss| == 1 then ss[0] else LexMin(ss[0], Least(ss[1..]))
  }

  /** `resolve_channel`: the first of the sorted `h` values, None for a global event. */
  function Channel(ev: Event): Option<string> {
    var hs := ChannelValues(ev.tags);
    if hs == [] then None else Some(Least(hs))
  }

  lemma {:induction false} LeastIsLeast(ss: seq<string>, v: string)
    requires |ss| > 0
    ensures Least(ss) in ss
    ensures v in ss ==> !LexLess(v, Least(ss))
  {
    if |ss| == 1 {
      LexIsTotal(ss[0], ss[0]);
    } else {
      var least := Least(ss[1..]);
      LeastIsLeast(ss[1..], v);
      LexIsTotal(ss[0], ss[0]);
      LexIsTotal(ss[0], least);
      LexIsTotal(v, least);
      LexIsTotal(least, least);
      if LexLess(least, ss[0]) && LexLess(ss[0], least) { LexIsTransitive(least, ss[0], least); }
      if v in ss[1..] && LexLess(v, ss[0]) && !LexLess(least, ss[0]) {
        if v != least { LexIsTransitive(least, v, ss[0]); }
      }
    }
  }

  /** An `h` tag with this value, up to case. */
  ghost predicate Hashed(tags: seq<Tag>, v: string) {
    exists i :: 0 <= i < |tags| && |tags[i]| >= 2 && tags[i][0] == "h" && Lower(tags[i][1]) == v
  }

  lemma {:induction false} ChannelValuesAreHashed(tags: seq<Tag>, v: string)
    ensures v in ChannelValues(tags) <==> Hashed(tags, v)
  {
    if tags != [] {
      var rest := tags[1..];
      ChannelValuesAreHashed(rest, v);
      if i :| 0 <= i < |rest| && |rest[i]| >= 2 && rest[i][0] == "h" && Lower(rest[i][1]) == v {
        assert tags[i + 1] == rest[i];
      }
      if i :| 0 <= i < |tags| && |tags[i]| >= 2 && tags[i][0] == "h" && Lower(tags[i][1]) == v {
        assert i > 0 ==> rest[i - 1] == tags[i];
      }
    }
  }

  /** The channel of an event is the lexicographically least of its lower-cased `h` values. */
  lemma ChannelIsLeast(ev: Event, v: string)
    ensures Channel(ev).None? <==> forall w :: !Hashed(ev.tags, w)
    ensures Channel(ev) == Some(v) <==> Hashed(ev.tags, v) && forall w :: Hashed(ev.tags, w) ==> !LexLess(w, v)
  {
    var hs := ChannelValues(ev.tags);
    hide Hashed, LexLess, Least;
    forall w ensures w in hs <==> Hashed(ev.tags, w) { ChannelValuesAreHashed(ev.tags, w); }
    if hs == [] {
      assert v !in hs;
    } else {
      forall w | w in hs ensures !LexLess(w, Least(hs)) { LeastIsLeast(hs, w); }
      LeastIsLeast(hs, v);
      LexIsTotal(v, Least(hs));
    }
  }

  // ---- replaceable slots ---------------------------------------------------

  datatype Slot = Slot(pubkey: string, kind: nat, d: string)

  function DTag(tags: seq<Tag>): Option<string> {
    var i := FirstNamed(tags, "d");
    if i < |tags| && |tags[i]| >= 2 then Some(tags[i][1]) else None
  }

  function SlotOf(ev: Event): Slot {
    Slot(ev.pubkey, ev.kind,
         if IsParameterizedReplaceable(ev.kind) then DTag(ev.tags).GetOr("") else "")
  }

  /** The first `d` tag has this value; a tag without a value, and no such tag, read as "". */
  ghost predicate ReadsD(tags: seq<Tag>, v: string) {
    || (v == "" && forall i :: 0 <= i < |tags| ==> |tags[i]| == 0 || tags[i][0] != "d")
    || exists i :: IsFirst(tags, "d", i) && v == if |tags[i]| >= 2 then tags[i][1] else ""
  }

  /**
   Two different events of which a store keeps one: replaceable, of the same author and kind, and for
   the kinds from 30000 to 39999 with the same `d` value.
   */
  ghost predicate Rivals(a: Event, b: Event) {
    && a.id != b.id && a.pubkey == b.pubkey && a.kind == b.kind
    && (b.kind == 0 || b.kind == 3 || 10000 <= b.kind <= 19999 || 30000 <= b.kind <= 39999)
    && (30000 <= b.kind <= 39999 ==> exists v :: ReadsD(a.tags, v) && ReadsD(b.tags, v))
  }

  lemma DIsRead(tags: seq<Tag>, v: string)
    ensures ReadsD(tags, v) <==> v == DTag(tags).GetOr("")
  {
    var i := FirstNamed(tags, "d");
    if i < |tags| { assert IsFirst(tags, "d", i); }
    forall j | IsFirst(tags, "d", j) ensures j == i {
      assert Named(tags[j], "d");
    }
  }

  /** Rivals are exactly the different replaceable events that share a slot. */
  lemma RivalsShareASlot(a: Event, b: Event)
    ensures Rivals(a, b) <==> a.id != b.id && IsReplaceable(a.kind) && IsReplaceable(b.kind) && SlotOf(a) == SlotOf(b)
  {
    DIsRead(a.tags, DTag(a.tags).GetOr(""));
    forall v ensures ReadsD(a.tags, v) <==> v == DTag(a.tags).GetOr("") { DIsRead(a.tags, v); }
    forall v ensures ReadsD(b.tags, v) <==> v == DTag(b.tags).GetOr("") { DIsRead(b.tags, v); }
    hide ReadsD, DTag;
  }

  /** Newer wins; on a tie the lower id wins. */
  predicate Beats(a: Event, b: Event) {
    a.createdAt > b.createdAt || (a.createdAt == b.createdAt && a.id < b.id)
  }

  predicate InRange(ev: Event) {
    ev.createdAt <= I64_MAX
  }
}
