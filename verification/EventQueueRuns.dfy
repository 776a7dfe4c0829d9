/**
 Runs of calls on one event queue: keys stay unique, an AMPR entry is a queue that loses nothing, and a
 one-shot timer is delivered at most once and never early.
 */
module EventQueueRuns {
  import opened Common
  import opened EventQueue

  datatype Record =
    | WasAdded(entry: Entry)
    | WasTriggered(key: Key, data: Word)
    | WasDeleted(key: Key)
    | WasDelivered(event: Event, at: nat)

  datatype State = State(entries: seq<Entry>, now: nat, log: seq<Record>)

  /** A call; the clock may have moved on by any amount since the last one. */
  datatype Action =
    | Tick(step: nat)
    | Add(entry: Entry)
    | Post(key: Key, data: Word)
    | Delete(key: Key)
    | Get(num: nat)

  /** Entries are added with nothing pending; a wait for no events is refused before it starts. */
  predicate Enabled(s: State, a: Action) {
    match a
    case Add(entry) => entry.pending == []
    case Get(num) => num >= 1
    case _ => true
  }

  function Deliveries(out: seq<Event>, at: nat): (r: seq<Record>)
    ensures |r| == |out|
    ensures forall i | 0 <= i < |r| :: r[i] == WasDelivered(out[i], at)
  {
    if out == [] then [] else Deliveries(out[..|out| - 1], at) + [WasDelivered(out[|out| - 1], at)]
  }

  function Next(s: State, a: Action): State
    requires Enabled(s, a)
  {
    match a
    case Tick(step) => s.(now := s.now + step)
    case Add(entry) => s.(entries := Added(s.entries, entry), log := s.log + [WasAdded(entry)])
    case Post(key, data) =>
      if Index(s.entries, key) == |s.entries| then s
      else s.(entries := Triggered(s.entries, key, data), log := s.log + [WasTriggered(key, data)])
    case Delete(key) =>
      if Index(s.entries, key) == |s.entries| then s
      else s.(entries := Deleted(s.entries, key), log := s.log + [WasDeleted(key)])
    case Get(num) =>
      var r := Deliver(Expired(s.entries, s.now), num);
      s.(entries := r.1, log := s.log + Deliveries(r.0, s.now))
  }

  predicate CanRun(s: State, acts: seq<Action>)
    decreases |acts|
  {
    acts == [] || (Enabled(s, acts[0]) && CanRun(Next(s, acts[0]), acts[1..]))
  }

  function Run(s: State, acts: seq<Action>): State
    requires CanRun(s, acts)
    decreases |acts|
  {
    if acts == [] then s else Run(Next(s, acts[0]), acts[1..])
  }

  function Start(now: nat): State {
    State([], now, [])
  }

  // ---------------------------------------------------------------------------------------------
  // What a log says about one key

  /**
   A key's life since it was last added: its triggers, its deliveries, and for each delivery its time and
   the number of triggers before it.
   */
  datatype Life = Life(base: Entry, posts: seq<Word>, taken: seq<Event>, times: seq<nat>, counts: seq<nat>)

  function LifeBy(e: Record, before: Option<Life>, k: Key): Option<Life> {
    match e
    case WasAdded(entry) => if KeyOf(entry.event) == k then Some(Life(entry, [], [], [], [])) else before
    case WasDeleted(key) => if key == k then None else before
    case WasTriggered(key, data) =>
      if key == k && before.Some? then Some(before.value.(posts := before.value.posts + [data])) else before
    case WasDelivered(event, at) =>
      if KeyOf(event) == k && before.Some? then
        var l := before.value;
        Some(l.(taken := l.taken + [event], times := l.times + [at], counts := l.counts + [|l.posts|]))
      else before
  }

  function LifeOf(log: seq<Record>, k: Key): Option<Life> {
    if log == [] then None else LifeBy(Last(log), LifeOf(Butlast(log), k), k)
  }

  // ---------------------------------------------------------------------------------------------
  // The list, key by key

  ghost predicate Unique(entries: seq<Entry>) {
    forall i, j | 0 <= i < j < |entries| :: KeyOf(entries[i].event) != KeyOf(entries[j].event)
  }

  /** Pending events are of the entry's key, and only wait behind a triggered one. */
  predicate Keyed(e: Entry) {
    && (e.pending != [] ==> e.triggered)
    && forall i | 0 <= i < |e.pending| :: KeyOf(e.pending[i]) == KeyOf(e.event)
  }

  ghost predicate AllKeyed(entries: seq<Entry>) {
    forall i | 0 <= i < |entries| :: Keyed(entries[i])
  }

  function At(entries: seq<Entry>, k: Key): Option<Entry> {
    var i := Index(entries, k);
    if i < |entries| then Some(entries[i]) else None
  }

  lemma IndexIs(entries: seq<Entry>, k: Key, i: nat)
    requires Unique(entries) && i < |entries| && KeyOf(entries[i].event) == k
    ensures Index(entries, k) == i
  {
    var j := Index(entries, k);
    assert j <= i;
  }

  lemma IndexMissing(entries: seq<Entry>, k: Key)
    requires forall j | 0 <= j < |entries| :: KeyOf(entries[j].event) != k
    ensures Index(entries, k) == |entries|
  {
  }

  /** An entry replaced by one of its key. */
  lemma AtReplaced(entries: seq<Entry>, i: nat, e: Entry, k: Key)
    requires Unique(entries) && AllKeyed(entries) && i < |entries|
    requires Keyed(e) && KeyOf(e.event) == KeyOf(entries[i].event)
    ensures var r := entries[i := e];
            && Unique(r) && AllKeyed(r)
            && At(r, k) == if k == KeyOf(e.event) then Some(e) else At(entries, k)
  {
    hide Index, KeyOf, Keyed;
    var r, j := entries[i := e], Index(entries, k);
    if j < |entries| {
      IndexIs(r, k, j);
      IndexIs(entries, k, j);
    } else {
      IndexMissing(r, k);
    }
  }

  lemma AtAdded(entries: seq<Entry>, e: Entry, k: Key)
    requires Unique(entries) && AllKeyed(entries) && Keyed(e)
    ensures var r := Added(entries, e);
            && Unique(r) && AllKeyed(r)
            && At(r, k) == if k == KeyOf(e.event) then Some(e) else At(entries, k)
  {
    hide Index, Keyed;
    var i, r := Index(entries, KeyOf(e.event)), Added(entries, e);
    if i < |entries| {
      AtReplaced(entries, i, e, k);
    } else {
      var j := Index(entries, k);
      if k == KeyOf(e.event) {
        IndexIs(r, k, |entries|);
      } else if j < |entries| {
        IndexIs(r, k, j);
      } else {
        IndexMissing(r, k);
      }
    }
  }

  lemma AtDeleted(entries: seq<Entry>, key: Key, k: Key)
    requires Unique(entries) && AllKeyed(entries)
    ensures var r := Deleted(entries, key);
            && Unique(r) && AllKeyed(r)
            && At(r, k) == if k == key then None else At(entries, k)
  {
    hide Index, Keyed, KeyOf;
    var i, r := Index(entries, key), Deleted(entries, key);
    if i < |entries| {
      var j := Index(entries, k);
      if k == key || j == |entries| {
        IndexMissing(r, k);
      } else {
        IndexIs(r, k, if j > i then j - 1 else j);
      }
    }
  }

  lemma AtExpired(entries: seq<Entry>, now: nat, k: Key)
    requires Unique(entries) && AllKeyed(entries)
    ensures var r := Expired(entries, now);
            && Unique(r) && AllKeyed(r)
            && At(r, k) == match At(entries, k) { case None => None case Some(e) => Some(Expire(e, now)) }
  {
    hide Index, Expired, Due;
    var r, j := Expired(entries, now), Index(entries, k);
    if j < |entries| {
      IndexIs(r, k, j);
    } else {
      IndexMissing(r, k);
    }
  }

  function If(keep: bool, ev: Event): seq<Event> {
    if keep then [ev] else []
  }

  /** The events of one key among those delivered. */
  function Of(out: seq<Event>, k: Key): seq<Event> {
    if out == [] then []
    else If(KeyOf(out[0]) == k, out[0]) + Of(out[1..], k)
  }

  lemma OfCons(ev: Event, rest: seq<Event>, k: Key)
    ensures Of([ev] + rest, k) == If(KeyOf(ev) == k, ev) + Of(rest, k)
  {
    hide KeyOf, If;
    assert ([ev] + rest)[1..] == rest;
  }

  lemma {:induction false} OfAppend(a: seq<Event>, b: seq<Event>, k: Key)
    ensures Of(a + b, k) == Of(a, k) + Of(b, k)
  {
    hide KeyOf, If, Of;
    if a == [] {
      assert a + b == b;
      OfNothing(b, k);
    } else {
      var ev, rest := a[0], a[1..];
      assert a == [ev] + rest && a + b == [ev] + (rest + b);
      OfAppend(rest, b, k);
      OfCons(ev, rest, k);
      OfCons(ev, rest + b, k);
      var head := If(KeyOf(ev) == k, ev);
      assert head + (Of(rest, k) + Of(b, k)) == (head + Of(rest, k)) + Of(b, k);
    }
  }

  lemma OfNothing(b: seq<Event>, k: Key)
    ensures Of([], k) + Of(b, k) == Of(b, k)
  {
  }

  lemma OfOne(ev: Event, k: Key)
    ensures Of([ev], k) == If(KeyOf(ev) == k, ev)
  {
    assert [ev][1..] == [];
  }

  lemma {:induction false} OfAll(out: seq<Event>, k: Key)
    ensures (forall i | 0 <= i < |out| :: KeyOf(out[i]) == k) ==> Of(out, k) == out
    ensures (forall i | 0 <= i < |out| :: KeyOf(out[i]) != k) ==> Of(out, k) == []
  {
    if out != [] {
      OfAll(out[1..], k);
      assert out == [out[0]] + out[1..];
    }
  }

  lemma RearmKeyed(e: Entry)
    requires Keyed(e) && e.triggered
    ensures Keyed(Rearm(e)) && KeyOf(Rearm(e).event) == KeyOf(e.event)
  {
    hide Clears;
  }

  lemma {:induction false} EntryKeyed(e: Entry, room: nat)
    requires Keyed(e)
    ensures var r := DeliverEntry(e, room);
            && (forall i | 0 <= i < |r.0| :: KeyOf(r.0[i]) == KeyOf(e.event))
            && (r.1 != [] ==> Keyed(r.1[0]) && KeyOf(r.1[0].event) == KeyOf(e.event))
    decreases room
  {
    hide Keyed, Rearm, OneShot;
    if room != 0 && e.triggered && !OneShot(e) {
      RearmKeyed(e);
      EntryKeyed(Rearm(e), room - 1);
    }
  }

  /** The room left for a key's entry when the delivery reaches it; none if it does not. */
  function RoomFor(entries: seq<Entry>, room: nat, k: Key): nat {
    if entries == [] || room == 0 then 0
    else if KeyOf(entries[0].event) == k then room
    else RoomFor(entries[1..], room - |DeliverEntry(entries[0], room).0|, k)
  }

  ghost predicate HasKey(entries: seq<Entry>, k: Key) {
    exists j :: 0 <= j < |entries| && KeyOf(entries[j].event) == k
  }

  ghost predicate Within(a: seq<Entry>, b: seq<Entry>) {
    forall i | 0 <= i < |a| :: HasKey(b, KeyOf(a[i].event))
  }

  lemma HasKeyAt(entries: seq<Entry>, j: nat)
    requires j < |entries|
    ensures HasKey(entries, KeyOf(entries[j].event))
  {
  }

  lemma HasKeyBehind(e: Entry, left: seq<Entry>, k: Key)
    requires HasKey(left, k)
    ensures HasKey([e] + left, k)
  {
    var j :| 0 <= j < |left| && KeyOf(left[j].event) == k;
    assert ([e] + left)[j + 1] == left[j];
  }

  /** No key is in the list twice, and what is left of it is keyed and has only its keys. */
  lemma {:induction false} DeliverKeeps(entries: seq<Entry>, room: nat)
    requires Unique(entries) && AllKeyed(entries)
    ensures var r := Deliver(entries, room).1;
            Unique(r) && AllKeyed(r) && Within(r, entries)
    decreases |entries|
  {
    hide Keyed, KeyOf, DeliverEntry, HasKey;
    if entries != [] && room > 0 {
      var e, left := entries[0], entries[1..];
      var d := DeliverEntry(e, room);
      var rest := Deliver(left, room - |d.0|).1;
      assert entries == [e] + left;
      SplitUnique(e, left);
      EntryKeyed(e, room);
      DeliverKeeps(left, room - |d.0|);
      JoinUnique(d.1, rest, e, left);
    } else {
      forall i | 0 <= i < |entries| ensures HasKey(entries, KeyOf(entries[i].event)) {
        HasKeyAt(entries, i);
      }
    }
  }

  lemma JoinUnique(d: seq<Entry>, rest: seq<Entry>, e: Entry, left: seq<Entry>)
    requires |d| <= 1 && (d != [] ==> KeyOf(d[0].event) == KeyOf(e.event))
    requires Unique(rest) && Within(rest, left) && forall i | 0 <= i < |left| :: KeyOf(left[i].event) != KeyOf(e.event)
    ensures Unique(d + rest) && Within(d + rest, [e] + left)
  {
    hide KeyOf, HasKey;
    var r := d + rest;
    forall i | 0 <= i < |r| ensures HasKey([e] + left, KeyOf(r[i].event)) {
      if i < |d| {
        HasKeyAt([e] + left, 0);
      } else {
        assert r[i] == rest[i - |d|];
        HasKeyBehind(e, left, KeyOf(r[i].event));
      }
    }
    forall i | 0 <= i < |rest| ensures KeyOf(rest[i].event) != KeyOf(e.event) {
      NotKeyOf(e, left, KeyOf(rest[i].event));
    }
  }

  lemma NotKeyOf(e: Entry, left: seq<Entry>, k: Key)
    requires HasKey(left, k) && forall i | 0 <= i < |left| :: KeyOf(left[i].event) != KeyOf(e.event)
    ensures k != KeyOf(e.event)
  {
    hide KeyOf;
  }

  lemma AtCons(e: Entry, rest: seq<Entry>, k: Key)
    ensures At([e] + rest, k) == if KeyOf(e.event) == k then Some(e) else At(rest, k)
  {
    assert ([e] + rest)[1..] == rest;
  }

  lemma HasKeyFound(entries: seq<Entry>, k: Key)
    requires HasKey(entries, k)
    ensures At(entries, k) != None
  {
    hide KeyOf;
  }

  lemma AtWithin(a: seq<Entry>, b: seq<Entry>, k: Key)
    requires Within(a, b) && At(b, k) == None
    ensures At(a, k) == None
  {
    hide KeyOf, Index;
    forall i | 0 <= i < |a| ensures KeyOf(a[i].event) != k {
      HasKeyFound(b, KeyOf(a[i].event));
    }
    IndexMissing(a, k);
  }

  /** What a key got, and what it kept, is what its entry delivers into its room. */
  ghost predicate KeyDelivered(before: Option<Entry>, out: seq<Event>, after: Option<Entry>, room: nat) {
    match before
    case None => out == [] && after == None
    case Some(e) =>
      var d := DeliverEntry(e, room);
      out == d.0 && after == if d.1 == [] then None else Some(d.1[0])
  }

  /** Delivering from the list is, for each key, delivering from its entry. */
  lemma {:induction false} AtDelivered(entries: seq<Entry>, room: nat, k: Key)
    requires Unique(entries) && AllKeyed(entries)
    ensures var r := Deliver(entries, room);
            KeyDelivered(At(entries, k), Of(r.0, k), At(r.1, k), RoomFor(entries, room, k))
    decreases |entries|
  {
    hide Keyed, KeyOf, DeliverEntry, Index, Unique, At, KeyDelivered;
    if entries == [] || room == 0 {
      NoRoom(entries, k);
    } else {
      var e, left := entries[0], entries[1..];
      var d := DeliverEntry(e, room);
      assert entries == [e] + left;
      SplitUnique(e, left);
      EntryKeyed(e, room);
      DeliverKeeps(left, room - |d.0|);
      AtDelivered(left, room - |d.0|, k);
      HeadDelivered(e, left, room, k);
    }
  }

  lemma DeliverCons(e: Entry, left: seq<Entry>, room: nat, k: Key)
    requires room > 0
    ensures var d := DeliverEntry(e, room);
            var rest := Deliver(left, room - |d.0|);
            && Deliver([e] + left, room) == (d.0 + rest.0, d.1 + rest.1)
            && RoomFor([e] + left, room, k) == if KeyOf(e.event) == k then room else RoomFor(left, room - |d.0|, k)
  {
    hide DeliverEntry, KeyOf;
    assert ([e] + left)[1..] == left;
  }

  lemma HeadDelivered(e: Entry, left: seq<Entry>, room: nat, k: Key)
    requires Keyed(e) && room > 0 && forall i | 0 <= i < |left| :: KeyOf(left[i].event) != KeyOf(e.event)
    requires var d := DeliverEntry(e, room);
             var rest := Deliver(left, room - |d.0|);
             && Within(rest.1, left)
             && KeyDelivered(At(left, k), Of(rest.0, k), At(rest.1, k), RoomFor(left, room - |d.0|, k))
    ensures var r := Deliver([e] + left, room);
            KeyDelivered(At([e] + left, k), Of(r.0, k), At(r.1, k), RoomFor([e] + left, room, k))
  {
    hide Keyed, KeyOf, DeliverEntry, Index, At, Within, Deliver, RoomFor, Of;
    var d := DeliverEntry(e, room);
    var rest := Deliver(left, room - |d.0|);
    DeliverCons(e, left, room, k);
    AtCons(e, left, k);
    EntryKeyed(e, room);
    OfAll(d.0, k);
    OfAppend(d.0, rest.0, k);
    if d.1 != [] {
      AtCons(d.1[0], rest.1, k);
      assert d.1 == [d.1[0]];
    } else {
      assert d.1 + rest.1 == rest.1;
    }
    if KeyOf(e.event) == k {
      MissingBehind(e, left);
      AtWithin(rest.1, left, k);
    }
  }

  lemma NoRoom(entries: seq<Entry>, k: Key)
    ensures KeyDelivered(At(entries, k), [], At(entries, k), 0)
    ensures entries == [] ==> At(entries, k) == None
  {
    hide Index;
    if entries == [] {
      IndexMissing(entries, k);
    }
  }

  lemma SplitUnique(e: Entry, left: seq<Entry>)
    requires Unique([e] + left)
    ensures Unique(left)
    ensures forall i | 0 <= i < |left| :: KeyOf(left[i].event) != KeyOf(e.event)
  {
    hide KeyOf;
    var all := [e] + left;
    assert KeyOf(all[0].event) == KeyOf(e.event);
    forall i | 0 <= i < |left| ensures all[i + 1] == left[i] {
    }
    forall i, j | 0 <= i < j < |left| ensures KeyOf(left[i].event) != KeyOf(left[j].event) {
      assert all[i + 1] == left[i] && all[j + 1] == left[j];
    }
    forall i | 0 <= i < |left| ensures KeyOf(left[i].event) != KeyOf(e.event) {
      assert all[i + 1] == left[i];
    }
  }

  lemma MissingBehind(e: Entry, left: seq<Entry>)
    requires forall i | 0 <= i < |left| :: KeyOf(left[i].event) != KeyOf(e.event)
    ensures At(left, KeyOf(e.event)) == None
  {
    IndexMissing(left, KeyOf(e.event));
  }

  /** A delivery that stops short of its room has left nothing triggered or due behind. */
  lemma {:induction false} NothingLeftBehind(entries: seq<Entry>, room: nat)
    requires |Deliver(entries, room).0| < room
    ensures forall i | 0 <= i < |Deliver(entries, room).1| :: !Deliver(entries, room).1[i].triggered
    decreases |entries|
  {
    hide DeliverEntry;
    if entries != [] {
      EntryFinished(entries[0], room);
      NothingLeftBehind(entries[1..], room - |DeliverEntry(entries[0], room).0|);
    }
  }

  lemma {:induction false} EntryFinished(e: Entry, room: nat)
    requires |DeliverEntry(e, room).0| < room
    ensures forall i | 0 <= i < |DeliverEntry(e, room).1| :: !DeliverEntry(e, room).1[i].triggered
    decreases room
  {
    hide OneShot, Rearm;
    if e.triggered && !OneShot(e) {
      EntryFinished(Rearm(e), room - 1);
    }
  }

  // ---------------------------------------------------------------------------------------------
  // AMPR entries

  predicate IsAmpr(base: Entry) {
    base == AmprEntry(base.event.ident, base.event.udata)
  }

  /** What an entry still has to deliver. */
  function Backlog(e: Entry): seq<Event> {
    (if e.triggered then [e.event] else []) + e.pending
  }

  /** The events the triggers stand for, in order. */
  function Stamped(base: Entry, posts: seq<Word>): seq<Event> {
    seq(|posts|, i requires 0 <= i < |posts| => base.event.(data := posts[i]))
  }

  /** The entry differs from the one added in its data alone, and so do its pending events. */
  predicate AmprShape(base: Entry, e: Entry) {
    && IsAmpr(base) && e.hook == Ampr && e.deadline == 0
    && e.event == base.event.(data := e.event.data)
    && (forall i | 0 <= i < |e.pending| :: e.pending[i] == base.event.(data := e.pending[i].data))
    && (e.pending != [] ==> e.triggered)
  }

  lemma AmprFlags(base: Entry, e: Entry)
    requires AmprShape(base, e)
    ensures !OneShot(e) && Clears(e)
  {
  }

  lemma AmprRearm(base: Entry, e: Entry)
    requires AmprShape(base, e) && e.triggered
    ensures AmprShape(base, Rearm(e)) && Backlog(e) == [e.event] + Backlog(Rearm(e))
  {
    AmprFlags(base, e);
    hide OneShot, Clears;
  }

  /** An AMPR entry delivers the front of its backlog and keeps the rest. */
  lemma {:induction false} AmprDelivers(base: Entry, e: Entry, room: nat)
    requires AmprShape(base, e)
    ensures var r := DeliverEntry(e, room);
            r.1 != [] && AmprShape(base, r.1[0]) && r.0 + Backlog(r.1[0]) == Backlog(e)
    decreases room
  {
    hide AmprShape, Backlog, Rearm, OneShot;
    AmprFlags(base, e);
    if room > 0 && e.triggered {
      AmprRearm(base, e);
      AmprDelivers(base, Rearm(e), room - 1);
      var r := DeliverEntry(Rearm(e), room - 1);
      assert ([e.event] + r.0) + Backlog(r.1[0]) == [e.event] + (r.0 + Backlog(r.1[0]));
    } else {
      assert [] + Backlog(e) == Backlog(e);
    }
  }

  lemma AmprTriggers(base: Entry, e: Entry, data: Word)
    requires AmprShape(base, e)
    ensures AmprShape(base, Trigger(e, data))
    ensures Backlog(Trigger(e, data)) == Backlog(e) + [base.event.(data := data)]
  {
  }

  // ---------------------------------------------------------------------------------------------
  // User events

  /** A user event, edge- or level-triggered, in any state it can be in. */
  predicate UserShape(e: Entry, edge: bool) {
    && e.hook == User && e.pending == []
    && e.event.flags == UserEntry(e.event.ident, edge).event.flags
  }

  lemma UserFlags(e: Entry, edge: bool)
    requires UserShape(e, edge)
    ensures !OneShot(e) && (Clears(e) <==> edge)
  {
  }

  /** An edge event that was delivered. */
  function Rested(e: Entry): Entry {
    e.(triggered := false, event := e.event.(fflags := 0, data := 0))
  }

  /** A triggered edge event goes out once and is cleared; a triggered level event fills the room and stays. */
  lemma {:induction false} UserDelivers(e: Entry, edge: bool, room: nat)
    requires UserShape(e, edge)
    ensures var r := DeliverEntry(e, room);
            && |r.0| == (if !e.triggered || room == 0 then 0 else if edge then 1 else room)
            && (forall i | 0 <= i < |r.0| :: r.0[i] == e.event)
            && r.1 == [if edge && e.triggered && room > 0 then Rested(e) else e]
    decreases room
  {
    UserFlags(e, edge);
    hide OneShot, Clears;
    if room > 0 && e.triggered {
      if edge {
        assert !Rearm(e).triggered;
      } else {
        assert Rearm(e) == e;
        UserDelivers(e, edge, room - 1);
      }
    }
  }

  /** Triggers of a user event do not queue up: however often it was triggered, the last one counts. */
  lemma UserEventDelivers(e: Entry, edge: bool, data: Word, room: nat)
    requires UserShape(e, edge)
    ensures var t, r := Trigger(e, data), DeliverEntry(Trigger(e, data), room);
            && UserShape(t, edge) && t.triggered
            && t.event == e.event.(data := data, udata := data)
            && |r.0| == (if edge && room > 1 then 1 else room)
            && (forall i | 0 <= i < |r.0| :: r.0[i] == t.event)
            && r.1 == [if edge && room > 0 then Rested(t) else t]
  {
    hide DeliverEntry;
    UserDelivers(Trigger(e, data), edge, room);
  }

  predicate IsUser(base: Entry, edge: bool) {
    base == UserEntry(base.event.ident, edge)
  }

  /** The event that one trigger stands for. */
  function UserEvent(base: Entry, data: Word): Event {
    base.event.(data := data, udata := data)
  }

  /**
   Each delivery carries the last trigger before it.  An edge event is triggered exactly while a trigger
   has come after the last delivery, so no trigger goes out twice; a level event from its first trigger on.
   */
  predicate UserOk(l: Life, e: Entry, edge: bool) {
    && UserShape(e, edge) && e.deadline == 0
    && e.event == l.base.event.(data := e.event.data, udata := e.event.udata)
    && |l.counts| == |l.taken|
    && (forall i | 0 <= i < |l.taken| ::
          1 <= l.counts[i] <= |l.posts| && l.taken[i] == UserEvent(l.base, l.posts[l.counts[i] - 1]))
    && (forall i, j | 0 <= i < j < |l.counts| :: if edge then l.counts[i] < l.counts[j] else l.counts[i] <= l.counts[j])
    && (e.triggered <==> l.posts != [] && (edge && l.counts != [] ==> Last(l.counts) < |l.posts|))
    && (e.triggered ==> e.event == UserEvent(l.base, Last(l.posts)))
  }

  lemma UserDelivered(l: Life, e: Entry, edge: bool, room: nat, now: nat)
    requires IsUser(l.base, edge) && UserOk(l, e, edge)
    ensures var r := DeliverEntry(e, room);
            r.1 != [] && UserOk(LifeAfter(Some(l), r.0, now).value, r.1[0], edge)
  {
    hide DeliverEntry;
    UserDelivers(e, edge, room);
    var out := DeliverEntry(e, room).0;
    if out == [] {
      LifeAfterNone(Some(l), now);
    }
  }

  lemma UserTriggered(l: Life, e: Entry, edge: bool, data: Word)
    requires IsUser(l.base, edge) && UserOk(l, e, edge)
    ensures UserOk(l.(posts := l.posts + [data]), Trigger(e, data), edge)
  {
    var posts := l.posts + [data];
    assert Last(posts) == data;
    assert forall i | 0 <= i < |l.posts| :: posts[i] == l.posts[i];
  }

  // ---------------------------------------------------------------------------------------------
  // One-shot timers

  predicate IsTimer(base: Entry) {
    base == TimerEntry(base.event.ident, base.deadline, base.event.udata)
  }

  /** Still there and not delivered, or delivered once and gone; untouched, it is never early. */
  predicate TimerOk(life: Life, e: Option<Entry>, now: nat) {
    && (match e
        case Some(e) =>
          && life.taken == [] && life.times == [] && e == life.base.(triggered := e.triggered)
          && (e.triggered && life.posts == [] ==> Due(life.base, now))
        case None =>
          && life.taken == [life.base.event] && |life.times| == 1 && life.times[0] <= now
          && (life.posts == [] ==> Due(life.base, life.times[0])))
  }

  lemma TimerFlags(e: Entry)
    requires IsTimer(e.(triggered := false))
    ensures OneShot(e)
  {
  }

  // ---------------------------------------------------------------------------------------------
  // The invariant

  predicate LifeOk(life: Option<Life>, e: Option<Entry>, now: nat, k: Key) {
    match life
    case None => e == None
    case Some(l) =>
      && KeyOf(l.base.event) == k
      && (IsAmpr(l.base) ==>
            e.Some? && AmprShape(l.base, e.value) && l.taken + Backlog(e.value) == Stamped(l.base, l.posts))
      && (IsTimer(l.base) ==> TimerOk(l, e, now))
      && (forall edge | IsUser(l.base, edge) :: e.Some? && UserOk(l, e.value, edge))
  }

  ghost predicate Inv(s: State) {
    && Unique(s.entries) && AllKeyed(s.entries)
    && forall k :: LifeOk(LifeOf(s.log, k), At(s.entries, k), s.now, k)
  }

  lemma LifeStep(log: seq<Record>, e: Record, k: Key)
    ensures LifeOf(log + [e], k) == LifeBy(e, LifeOf(log, k), k)
  {
    hide LifeBy;
    assert Butlast(log + [e]) == log;
  }

  function Repeat(n: nat, at: nat): (r: seq<nat>)
    ensures |r| == n && forall i | 0 <= i < n :: r[i] == at
  {
    if n == 0 then [] else Repeat(n - 1, at) + [at]
  }

  /** The life of a key after so many deliveries at one moment. */
  function LifeAfter(life: Option<Life>, out: seq<Event>, at: nat): Option<Life> {
    match life
    case None => None
    case Some(l) => 
      Some(l.(taken := l.taken + out, times := l.times + Repeat(|out|, at),
              counts := l.counts + Repeat(|out|, |l.posts|)))
  }

  lemma {:induction false} LifeDelivered(log: seq<Record>, out: seq<Event>, at: nat, k: Key)
    ensures LifeOf(log + Deliveries(out, at), k) == LifeAfter(LifeOf(log, k), Of(out, k), at)
  {
    if out == [] {
      assert log + Deliveries(out, at) == log;
      LifeAfterNone(LifeOf(log, k), at);
    } else {
      var most, last := out[..|out| - 1], out[|out| - 1];
      LifeDelivered(log, most, at, k);
      assert log + Deliveries(out, at) == (log + Deliveries(most, at)) + [WasDelivered(last, at)];
      LifeStep(log + Deliveries(most, at), WasDelivered(last, at), k);
      assert out == most + [last];
      OfAppend(most, [last], k);
      OfOne(last, k);
      assert Of(most, k) + [] == Of(most, k);
      hide LifeOf, Deliveries, Of, KeyOf;
      LifeAfterOne(LifeOf(log, k), Of(most, k), last, at);
    }
  }

  lemma LifeAfterNone(life: Option<Life>, at: nat)
    ensures LifeAfter(life, [], at) == life
  {
    match life
    case None =>
    case Some(l) =>
      assert l.taken + [] == l.taken && l.times + Repeat(0, at) == l.times;
      assert l.counts + Repeat(0, |l.posts|) == l.counts;
      assert l.(taken := l.taken, times := l.times, counts := l.counts) == l;
  }

  lemma LifeAfterOne(life: Option<Life>, out: seq<Event>, last: Event, at: nat)
    ensures life.Some? ==>
              var l := LifeAfter(life, out, at).value;
              LifeAfter(life, out + [last], at)
              == Some(l.(taken := l.taken + [last], times := l.times + [at], counts := l.counts + [|l.posts|]))
  {
    match life
    case None =>
    case Some(l) =>
      assert l.taken + (out + [last]) == l.taken + out + [last];
      assert l.times + Repeat(|out| + 1, at) == l.times + Repeat(|out|, at) + [at];
      var n := |l.posts|;
      assert l.counts + Repeat(|out| + 1, n) == l.counts + Repeat(|out|, n) + [n];
  }

  /** What a delivery to a key's entry, its timers expired, does to its life. */
  lemma DeliveryKeepsLife(life: Option<Life>, e: Option<Entry>, now: nat, k: Key, room: nat, out: seq<Event>,
                          after: Option<Entry>)
    requires LifeOk(life, e, now, k)
    requires KeyDelivered(match e { case None => None case Some(e) => Some(Expire(e, now)) }, out, after, room)
    ensures LifeOk(LifeAfter(life, out, now), after, now, k)
  {
    match e
    case None =>
      LifeAfterNone(life, now);
    case Some(e) =>
      if life.Some? {
        DeliveryToLife(life.value, e, now, k, room, out, after);
      }
  }

  lemma DeliveryToLife(l: Life, e: Entry, now: nat, k: Key, room: nat, out: seq<Event>, after: Option<Entry>)
    requires LifeOk(Some(l), Some(e), now, k) && KeyDelivered(Some(Expire(e, now)), out, after, room)
    ensures LifeOk(LifeAfter(Some(l), out, now), after, now, k)
  {
    hide OneShot, AmprShape, Backlog, UserOk, Repeat;
    if IsAmpr(l.base) {
      AmprStays(l.base, e, now);
      AmprDelivers(l.base, e, room);
      assert (l.taken + out) + Backlog(after.value) == l.taken + (out + Backlog(after.value));
    }
    if IsTimer(l.base) {
      TimerFlags(Expire(e, now));
    }
    forall edge | IsUser(l.base, edge)
      ensures after.Some? && UserOk(LifeAfter(Some(l), out, now).value, after.value, edge)
    {
      UserStays(l, e, edge, now);
      UserDelivered(l, e, edge, room, now);
    }
  }

  lemma AmprStays(base: Entry, e: Entry, now: nat)
    requires AmprShape(base, e)
    ensures Expire(e, now) == e
  {
  }

  lemma UserStays(l: Life, e: Entry, edge: bool, now: nat)
    requires UserOk(l, e, edge)
    ensures Expire(e, now) == e
  {
  }

  lemma StepKeepsInv(s: State, a: Action)
    requires Inv(s) && Enabled(s, a)
    ensures Inv(Next(s, a))
  {
    hide LifeOk, LifeOf, LifeBy, Index, Keyed;
    var s' := Next(s, a);
    forall k
      ensures Unique(s'.entries) && AllKeyed(s'.entries)
              && LifeOk(LifeOf(s'.log, k), At(s'.entries, k), s'.now, k)
    {
      assert LifeOk(LifeOf(s.log, k), At(s.entries, k), s.now, k);
      KeyStep(s, a, k);
    }
    assert LifeOk(LifeOf(s'.log, Key(0, 0)), At(s'.entries, Key(0, 0)), s'.now, Key(0, 0));
  }

  lemma KeyStep(s: State, a: Action, k: Key)
    requires Unique(s.entries) && AllKeyed(s.entries) && Enabled(s, a)
    requires LifeOk(LifeOf(s.log, k), At(s.entries, k), s.now, k)
    ensures var s' := Next(s, a);
            && Unique(s'.entries) && AllKeyed(s'.entries)
            && LifeOk(LifeOf(s'.log, k), At(s'.entries, k), s'.now, k)
  {
    hide LifeOf, Index, OneShot;
    match a
    case Tick(_) =>
    case Add(entry) =>
      AtAdded(s.entries, entry, k);
      LifeStep(s.log, WasAdded(entry), k);
    case Post(key, data) => PostKeepsLife(s, key, data, k);
    case Delete(key) =>
      AtDeleted(s.entries, key, k);
      LifeStep(s.log, WasDeleted(key), k);
    case Get(num) =>
      hide LifeOk, LifeAfter, KeyDelivered, Deliver, Expired, Keyed, KeyOf;
      var due := Expired(s.entries, s.now);
      AtExpired(s.entries, s.now, k);
      var r := Deliver(due, num);
      DeliverKeeps(due, num);
      AtDelivered(due, num, k);
      LifeDelivered(s.log, r.0, s.now, k);
      DeliveryKeepsLife(LifeOf(s.log, k), At(s.entries, k), s.now, k, RoomFor(due, num, k), Of(r.0, k), At(r.1, k));
  }

  lemma TriggerKeyed(e: Entry, data: Word)
    requires Keyed(e)
    ensures Keyed(Trigger(e, data)) && KeyOf(Trigger(e, data).event) == KeyOf(e.event)
  {
  }

  lemma PostKeepsLife(s: State, key: Key, data: Word, k: Key)
    requires Unique(s.entries) && AllKeyed(s.entries)
    requires LifeOk(LifeOf(s.log, k), At(s.entries, k), s.now, k)
    ensures var s' := Next(s, Post(key, data));
            && Unique(s'.entries) && AllKeyed(s'.entries)
            && LifeOk(LifeOf(s'.log, k), At(s'.entries, k), s'.now, k)
  {
    hide LifeOf, Index, Keyed, AmprShape, Backlog, Trigger;
    var i := Index(s.entries, key);
    if i < |s.entries| {
      var e := s.entries[i];
      TriggerKeyed(e, data);
      AtReplaced(s.entries, i, Trigger(e, data), k);
      LifeStep(s.log, WasTriggered(key, data), k);
      var life := LifeOf(s.log, k);
      if k == key && life.Some? {
        PostToLife(life.value, e, data, s.now, k);
      }
    }
  }

  lemma PostToLife(l: Life, e: Entry, data: Word, now: nat, k: Key)
    requires LifeOk(Some(l), Some(e), now, k)
    ensures LifeOk(Some(l.(posts := l.posts + [data])), Some(Trigger(e, data)), now, k)
  {
    hide AmprShape, Backlog, UserOk;
    var l' := l.(posts := l.posts + [data]);
    if IsAmpr(l.base) {
      AmprTriggers(l.base, e, data);
      assert Stamped(l.base, l'.posts) == Stamped(l.base, l.posts) + [l.base.event.(data := data)];
    }
    forall edge | IsUser(l.base, edge) ensures UserOk(l', Trigger(e, data), edge) {
      UserTriggered(l, e, edge, data);
    }
  }

  lemma {:induction false} RunKeepsInv(s: State, acts: seq<Action>)
    requires Inv(s) && CanRun(s, acts)
    ensures Inv(Run(s, acts))
    decreases |acts|
  {
    hide Inv, Next, Enabled;
    if acts != [] {
      StepKeepsInv(s, acts[0]);
      RunKeepsInv(Next(s, acts[0]), acts[1..]);
    }
  }

  lemma RunInv(now: nat, acts: seq<Action>)
    requires CanRun(Start(now), acts)
    ensures Inv(Run(Start(now), acts))
  {
    RunKeepsInv(Start(now), acts);
  }

  // ---------------------------------------------------------------------------------------------
  // Theorems

  /** No key is in the queue twice, after any run. */
  lemma KeysStayUnique(now: nat, acts: seq<Action>)
    requires CanRun(Start(now), acts)
    ensures var s := Run(Start(now), acts);
            && Unique(s.entries)
            && forall i | 0 <= i < |s.entries| && s.entries[i].pending != [] :: s.entries[i].triggered
  {
    RunInv(now, acts);
  }

  /**
   An AMPR entry is a queue without a bound: since it was added, what was delivered and then what it
   still holds are exactly the triggers, in order, however the deliveries were cut up.
   */
  lemma AmprLosesNothing(now: nat, acts: seq<Action>, k: Key)
    requires CanRun(Start(now), acts)
    ensures var s := Run(Start(now), acts);
            var life := LifeOf(s.log, k);
            life.Some? && IsAmpr(life.value.base) ==>
              && At(s.entries, k).Some?
              && (!At(s.entries, k).value.triggered ==> At(s.entries, k).value.pending == [])
              && life.value.taken + Backlog(At(s.entries, k).value) == Stamped(life.value.base, life.value.posts)
  {
    RunInv(now, acts);
    hide Run, CanRun, LifeOf, At, Backlog, Stamped;
    var s := Run(Start(now), acts);
    assert LifeOk(LifeOf(s.log, k), At(s.entries, k), s.now, k);
  }

  /**
   User events over whole runs: every delivery carries the last trigger before it; an edge event is
   delivered at most once for each trigger, and waits to be exactly while one has come since; a level
   event waits to be from its first trigger on.
   */
  lemma UserEventsAreLast(now: nat, acts: seq<Action>, k: Key, edge: bool)
    requires CanRun(Start(now), acts)
    ensures var s := Run(Start(now), acts);
            var life := LifeOf(s.log, k);
            life.Some? && IsUser(life.value.base, edge) ==>
              && At(s.entries, k).Some? && UserOk(life.value, At(s.entries, k).value, edge)
              && (edge ==> |life.value.taken| <= |life.value.posts|)
  {
    RunInv(now, acts);
    hide Run, CanRun, LifeOf, At, UserOk;
    var s := Run(Start(now), acts);
    assert LifeOk(LifeOf(s.log, k), At(s.entries, k), s.now, k);
    var life := LifeOf(s.log, k);
    if life.Some? && IsUser(life.value.base, true) {
      AtMostEachTrigger(life.value, At(s.entries, k).value);
    }
  }

  lemma AtMostEachTrigger(l: Life, e: Entry)
    requires UserOk(l, e, true)
    ensures |l.taken| <= |l.posts|
  {
    RisingBound(l.counts, |l.posts|);
  }

  lemma {:induction false} RisingBound(counts: seq<nat>, n: nat)
    requires forall i | 0 <= i < |counts| :: 1 <= counts[i] <= n
    requires forall i, j | 0 <= i < j < |counts| :: counts[i] < counts[j]
    ensures |counts| <= n
  {
    if counts != [] {
      RisingBound(counts[..|counts| - 1], Last(counts) - 1);
    }
  }

  /** A timer is delivered at most once for each time it is added, and not before its deadline. */
  lemma TimerFiresOnce(now: nat, acts: seq<Action>, k: Key)
    requires CanRun(Start(now), acts)
    ensures var s := Run(Start(now), acts);
            var life := LifeOf(s.log, k);
            life.Some? && IsTimer(life.value.base) ==>
              && |life.value.taken| == |life.value.times| == (if At(s.entries, k).Some? then 0 else 1)
              && (life.value.taken != [] ==>
                    && life.value.taken[0] == life.value.base.event
                    && (life.value.posts == [] ==> 0 < life.value.base.deadline <= life.value.times[0] <= s.now))
  {
    RunInv(now, acts);
    hide Run, CanRun, LifeOf, At;
    var s := Run(Start(now), acts);
    assert LifeOk(LifeOf(s.log, k), At(s.entries, k), s.now, k);
  }

  /** A due timer is delivered by the first call that does not fill its array before reaching it. */
  lemma DueTimerIsDelivered(s: State, num: nat, k: Key, e: Entry)
    requires Inv(s) && num >= 1 && At(s.entries, k) == Some(e) && IsTimer(e.(triggered := false))
    requires 0 < e.deadline <= s.now
    ensures var r := Deliver(Expired(s.entries, s.now), num);
            |r.0| < num ==> At(r.1, k) == None && Of(r.0, k) == [e.event]
  {
    hide LifeOk, LifeOf, Index, Keyed, OneShot, Deliver, Expired, RoomFor, Of;
    var due := Expired(s.entries, s.now);
    AtExpired(s.entries, s.now, k);
    AtDelivered(due, num, k);
    TimerFlags(Expire(e, s.now));
    var r := Deliver(due, num);
    if |r.0| < num {
      NothingLeftBehind(due, num);
    }
  }

  /** A deadline of zero, which never fires, is given only to a timer of no delay at time zero. */
  lemma DeadlineZeroExactly(now: nat, ts: Timespec)
    requires now <= UINT64_MAX && ValidDelay(ts)
    ensures Saturated(now, Delay(ts)) == 0 <==> now == 0 && Delay(ts) == 0
    ensures Saturated(now, Delay(ts)) == (if now + Delay(ts) < UINT64_MAX then now + Delay(ts) else UINT64_MAX)
    ensures forall later: nat ::
              Expire(TimerEntry(0, Saturated(now, Delay(ts)), 0), later).triggered
              <==> 0 < Saturated(now, Delay(ts)) <= later
  {
  }

  /** The event that a trigger makes of an entry that had none to deliver. */
  function Posted(e: Entry, data: Word): Event {
    match e.hook
    case Plain => e.event
    case User => e.event.(data := data, udata := data)
    case Ampr => e.event.(data := data)
  }

  /** A trigger reaches the reader: the next call that does not fill its array delivers it first of its key. */
  lemma PostReachesReader(s: State, k: Key, e: Entry, data: Word, num: nat)
    requires Inv(s) && num >= 1 && At(s.entries, k) == Some(e) && !e.triggered
    ensures var s1 := Next(s, Post(k, data));
            var out := Deliver(Expired(s1.entries, s1.now), num).0;
            |out| < num ==> Of(out, k) != [] && Of(out, k)[0] == Posted(e, data)
  {
    hide LifeOk, LifeOf, Index, Keyed, Deliver, Expired, RoomFor, Of, Rearm;
    var i := Index(s.entries, k);
    var t := Trigger(e, data);
    TriggerKeyed(e, data);
    AtReplaced(s.entries, i, t, k);
    var posted := Triggered(s.entries, k, data);
    AtExpired(posted, s.now, k);
    var due := Expired(posted, s.now);
    AtDelivered(due, num, k);
    var r := Deliver(due, num);
    if |r.0| < num {
      NothingLeftBehind(due, num);
      FirstDelivered(t, RoomFor(due, num, k));
    }
  }

  /** A triggered entry delivers its own event first, if it delivers at all, and otherwise stays triggered. */
  lemma FirstDelivered(e: Entry, room: nat)
    requires e.triggered
    ensures var d := DeliverEntry(e, room);
            if room == 0 then d == ([], [e]) else d.0 != [] && d.0[0] == e.event
  {
    hide OneShot, Rearm;
  }
}
