/**
 The guest event queue (src/kernel/eventQueue.cpp): a list of entries with triggered and pending events,
 one-shot timers, and the loop that delivers what is triggered into a caller's array.
 */
module EventQueue {
  import opened Common

  const UINT32_MAX: nat := 0xffff_ffff
  const UINT64_MAX: nat := 0xffff_ffff_ffff_ffff

  const EVFILT_USER: int := -11
  const EVFILT_HRTIMER: int := -15

  /** A 64-bit word handed through the queue; the queue only copies it. */
  type Word = nat

  datatype Event = Event(ident: Word, filter: int, flags: bv16, fflags: nat, data: Word, udata: Word)

  /** What a trigger does to an entry: the default, a user event's, or an AMPR event's. */
  datatype Hook = Plain | User | Ampr

  datatype Entry = Entry(triggered: bool, deadline: nat, event: Event, hook: Hook, pending: seq<Event>)

  datatype Key = Key(ident: Word, filter: int)

  function KeyOf(ev: Event): Key {
    Key(ev.ident, ev.filter)
  }

  /** EV_ONESHOT and EV_CLEAR. */
  predicate OneShot(e: Entry) {
    e.event.flags & 0x10 != 0
  }

  predicate Clears(e: Entry) {
    e.event.flags & 0x20 != 0
  }

  // ---------------------------------------------------------------------------------------------
  // One entry

  function Trigger(e: Entry, data: Word): Entry {
    match e.hook
    case Plain => e.(triggered := true)
    case User => e.(triggered := true, event := e.event.(data := data, udata := data))
    case Ampr =>
      var ev := e.event.(data := data);
      if e.triggered then e.(pending := e.pending + [ev]) else e.(event := ev, triggered := true)
  }

  predicate Due(e: Entry, now: nat) {
    e.deadline != 0 && e.deadline <= now
  }

  function Expire(e: Entry, now: nat): Entry {
    if !e.triggered && Due(e, now) then e.(triggered := true) else e
  }

  /** After a delivery: cleared if it asks for it, and armed again by the next pending event. */
  function Rearm(e: Entry): Entry {
    var c := if Clears(e) then e.(triggered := false, event := e.event.(fflags := 0, data := 0)) else e;
    if c.pending == [] then c
    else c.(event := c.pending[0], pending := c.pending[1..], triggered := true)
  }

  /** What an entry delivers into so much room, and what is left of it: nothing or one entry. */
  function DeliverEntry(e: Entry, room: nat): (r: (seq<Event>, seq<Entry>))
    ensures |r.0| <= room && |r.1| <= 1
    ensures room > 0 && e.triggered ==> r.0 != []
    decreases room
  {
    if room == 0 || !e.triggered then ([], [e])
    else if OneShot(e) then ([e.event], [])
    else
      var r := DeliverEntry(Rearm(e), room - 1);
      ([e.event] + r.0, r.1)
  }

  function Deliver(entries: seq<Entry>, room: nat): (r: (seq<Event>, seq<Entry>))
    ensures |r.0| <= room
  {
    if entries == [] || room == 0 then ([], entries)
    else
      var first := DeliverEntry(entries[0], room);
      var rest := Deliver(entries[1..], room - |first.0|);
      (first.0 + rest.0, first.1 + rest.1)
  }

  /** So much of what one entry has to deliver is out, and e is left with this room. */
  ghost predicate DeliveringOne(all: (seq<Event>, seq<Entry>), out: seq<Event>, e: Entry, room: nat, erased: bool) {
    if erased then all == (out, [])
    else all == (out + DeliverEntry(e, room).0, DeliverEntry(e, room).1)
  }

  lemma DeliveringOneNext(all: (seq<Event>, seq<Entry>), out: seq<Event>, e: Entry, room: nat)
    requires DeliveringOne(all, out, e, room, false) && room > 0 && e.triggered
    ensures DeliveringOne(all, out + [e.event], if OneShot(e) then e else Rearm(e), room - 1, OneShot(e))
  {
    hide OneShot, Rearm;
    if !OneShot(e) {
      var rest := DeliverEntry(Rearm(e), room - 1);
      assert out + ([e.event] + rest.0) == (out + [e.event]) + rest.0;
    }
  }

  lemma DeliveringOneEnds(all: (seq<Event>, seq<Entry>), out: seq<Event>, e: Entry, room: nat, erased: bool)
    requires DeliveringOne(all, out, e, room, erased) && (erased || room == 0 || !e.triggered)
    ensures all == (out, if erased then [] else [e])
  {
    assert out + [] == out;
  }

  /** So much is out, these entries are done with, and those are left with this room. */
  ghost predicate Delivering(all: (seq<Event>, seq<Entry>), out: seq<Event>, done: seq<Entry>, left: seq<Entry>,
                             room: nat) {
    all == (out + Deliver(left, room).0, done + Deliver(left, room).1)
  }

  lemma DeliveringNext(all: (seq<Event>, seq<Entry>), out: seq<Event>, done: seq<Entry>, left: seq<Entry>, room: nat)
    requires Delivering(all, out, done, left, room) && room > 0 && left != []
    ensures var d := DeliverEntry(left[0], room);
            Delivering(all, out + d.0, done + d.1, left[1..], room - |d.0|)
  {
    hide DeliverEntry;
    var d := DeliverEntry(left[0], room);
    var rest := Deliver(left[1..], room - |d.0|);
    assert out + (d.0 + rest.0) == (out + d.0) + rest.0;
    assert done + (d.1 + rest.1) == (done + d.1) + rest.1;
  }

  lemma DeliveringEnds(all: (seq<Event>, seq<Entry>), out: seq<Event>, done: seq<Entry>, left: seq<Entry>, room: nat)
    requires Delivering(all, out, done, left, room) && (room == 0 || left == [])
    ensures all == (out, done + left)
  {
    assert out + [] == out;
  }

  // ---------------------------------------------------------------------------------------------
  // The list

  function Index(entries: seq<Entry>, k: Key): (i: nat)
    ensures i <= |entries|
    ensures i < |entries| ==> KeyOf(entries[i].event) == k
    ensures forall j | 0 <= j < i :: KeyOf(entries[j].event) != k
  {
    Position(entries, (e: Entry) => KeyOf(e.event), k)
  }

  function Added(entries: seq<Entry>, e: Entry): seq<Entry> {
    var i := Index(entries, KeyOf(e.event));
    if i < |entries| then entries[i := e] else entries + [e]
  }

  function Triggered(entries: seq<Entry>, k: Key, data: Word): seq<Entry> {
    var i := Index(entries, k);
    if i < |entries| then entries[i := Trigger(entries[i], data)] else entries
  }

  function Deleted(entries: seq<Entry>, k: Key): seq<Entry> {
    var i := Index(entries, k);
    if i < |entries| then entries[..i] + entries[i + 1..] else entries
  }

  function Expired(entries: seq<Entry>, now: nat): (r: seq<Entry>)
    ensures |r| == |entries|
    ensures forall i | 0 <= i < |r| :: r[i] == Expire(entries[i], now)
  {
    if entries == [] then [] else [Expire(entries[0], now)] + Expired(entries[1..], now)
  }

  // ---------------------------------------------------------------------------------------------
  // Timers

  predicate Armed(e: Entry) {
    !e.triggered && e.deadline != 0
  }

  /** An entry with time to run, that the search for the nearest deadline can tell from no timer at all. */
  predicate Seen(e: Entry) {
    !e.triggered && 0 < e.deadline < UINT64_MAX
  }

  ghost predicate SomeSeen(entries: seq<Entry>) {
    exists i :: 0 <= i < |entries| && Seen(entries[i])
  }

  /** The earliest armed deadline, or UINT64_MAX. */
  function Nearest(entries: seq<Entry>): nat {
    if entries == [] then UINT64_MAX
    else
      var e, before := entries[|entries| - 1], Nearest(entries[..|entries| - 1]);
      if Armed(e) && e.deadline < before then e.deadline else before
  }

  /** The wait in microseconds, with the 64-bit wrap-around of the rounding. */
  function WaitMicros(nearest: nat, now: nat): nat {
    var remaining := if nearest > now then nearest - now else 0;
    var rounded := (remaining + 999) % 0x1_0000_0000_0000_0000 / 1000;
    var atLeastOne := if rounded < 1 then 1 else rounded;
    if atLeastOne > UINT32_MAX then UINT32_MAX else atLeastOne
  }

  /** A time of day as the guest passes it: both fields are signed 64-bit. */
  datatype Timespec = Timespec(sec: int, nsec: int)

  datatype Code = OK | EINVAL

  const BILLION: nat := 1_000_000_000

  function Delay(ts: Timespec): int {
    ts.sec * BILLION + ts.nsec
  }

  predicate ValidDelay(ts: Timespec) {
    0 <= ts.sec && 0 <= ts.nsec < BILLION && Delay(ts) <= UINT64_MAX
  }

  /** The deadline, kept at UINT64_MAX when it would pass it. */
  function Saturated(now: nat, delay: nat): nat {
    if now + delay <= UINT64_MAX then now + delay else UINT64_MAX
  }

  function TimerEntry(id: Word, deadline: nat, udata: Word): Entry {
    Entry(false, deadline, Event(id, EVFILT_HRTIMER, 0x11, 0, 0, udata), Plain, [])
  }

  function UserEntry(id: Word, edge: bool): Entry {
    Entry(false, 0, Event(id, EVFILT_USER, if edge then 0x21 else 0x01, 0, 0, 0), User, [])
  }

  function AmprEntry(id: Word, udata: Word): Entry {
    Entry(false, 0, Event(id, EVFILT_USER, 0x21, 0, 0, udata), Ampr, [])
  }

  class Equeue {
    var events: seq<Entry>

    constructor ()
      ensures events == []
    {
      events := [];
    }

    method FindEvent(k: Key) returns (i: nat)
      ensures i == Index(events, k)
    {
      i := 0;
      while i < |events| && KeyOf(events[i].event) != k
        invariant i <= |events|
        invariant forall j | 0 <= j < i :: KeyOf(events[j].event) != k
      {
        i := i + 1;
      }
    }

    method AddEvent(e: Entry)
      modifies this
      ensures events == Added(old(events), e)
    {
      var i := FindEvent(KeyOf(e.event));
      if i < |events| {
        events := events[i := e];
      } else {
        events := events + [e];
      }
    }

    method TriggerEvent(k: Key, data: Word) returns (found: bool)
      modifies this
      ensures found <==> Index(old(events), k) < |old(events)|
      ensures events == Triggered(old(events), k, data)
    {
      var i := FindEvent(k);
      found := i < |events|;
      if found {
        events := events[i := Trigger(events[i], data)];
      }
    }

    method DeleteEvent(k: Key) returns (found: bool)
      modifies this
      ensures found <==> Index(old(events), k) < |old(events)|
      ensures events == Deleted(old(events), k)
    {
      var i := FindEvent(k);
      found := i < |events|;
      if found {
        events := events[..i] + events[i + 1..];
      }
    }

    method TriggerExpiredTimers(now: nat)
      modifies this
      ensures events == Expired(old(events), now)
    {
      var i := 0;
      while i < |events|
        invariant i <= |events| == |old(events)|
        invariant forall j | 0 <= j < i :: events[j] == Expire(old(events)[j], now)
        invariant forall j | i <= j < |events| :: events[j] == old(events)[j]
      {
        var e := events[i];
        if !e.triggered && e.deadline != 0 && e.deadline <= now {
          events := events[i := e.(triggered := true)];
        }
        i := i + 1;
      }
    }

    /** Delivers the triggered events, in order, into ev; never more than num of them. */
    method GetTriggeredEvents(ev: array<Event>, num: nat, now: nat) returns (ret: nat)
      requires 1 <= num <= ev.Length
      modifies this, ev
      ensures var r := Deliver(Expired(old(events), now), num);
              && ret == |r.0| <= num
              && ev[..ret] == r.0
              && ev[ret..] == old(ev[ret..])
              && events == r.1
    {
      hide Deliver, DeliverEntry;
      TriggerExpiredTimers(now);
      ghost var all := Deliver(events, num);
      ret := 0;
      var i: nat := 0;
      assert events[..0] == [] && events[0..] == events && ev[..0] == [];
      assert [] + all.0 == all.0 && [] + all.1 == all.1;
      while i < |events| && ret < num
        invariant i <= |events| && ret <= num
        invariant Delivering(all, ev[..ret], events[..i], events[i..], num - ret)
        invariant ev[ret..] == old(ev[..])[ret..]
        decreases |events| - i
      {
        DeliveringNext(all, ev[..ret], events[..i], events[i..], num - ret);
        ghost var d, kept, after := DeliverEntry(events[i], num - ret), events[..i], events[i + 1..];
        assert events[i..][1..] == after;
        ret, i := DeliverOne(ev, num, ret, i);
        assert events[..i] == kept + d.1 && events[i..] == after;
      }
      DeliveringEnds(all, ev[..ret], events[..i], events[i..], num - ret);
      assert events[..i] + events[i..] == events;
    }

    /** The inner loop: one entry, which is erased when it is a one-shot. */
    method DeliverOne(ev: array<Event>, num: nat, start: nat, i: nat) returns (ret: nat, next: nat)
      requires start < num <= ev.Length && i < |events|
      modifies this, ev
      ensures var r := DeliverEntry(old(events)[i], num - start);
              && ret == start + |r.0| <= num
              && ev[..ret] == old(ev[..start]) + r.0
              && ev[ret..] == old(ev[..])[ret..]
              && events == old(events)[..i] + r.1 + old(events)[i + 1..]
              && next == i + |r.1|
    {
      hide OneShot, Clears, Rearm, DeliverEntry;
      ghost var all := DeliverEntry(events[i], num - start);
      ghost var kept, out := ev[..start], [];
      var e, erase := events[i], false;
      ret := start;
      assert [] + all.0 == all.0;
      while ret < num && e.triggered && !erase
        invariant start <= ret <= num && ret == start + |out|
        invariant ev[..ret] == kept + out
        invariant DeliveringOne(all, out, e, num - ret, erase)
        invariant events == old(events)
        invariant ev[ret..] == old(ev[..])[ret..]
        decreases num - ret, !erase
      {
        DeliveringOneNext(all, out, e, num - ret);
        ev[ret] := e.event;
        ret, out := ret + 1, out + [e.event];
        if OneShot(e) {
          erase := true;
        } else {
          e := Rearmed(e);
        }
      }
      DeliveringOneEnds(all, out, e, num - ret, erase);
      if erase {
        events := events[..i] + events[i + 1..];
        next := i;
      } else {
        events := events[..i] + [e] + events[i + 1..];
        next := i + 1;
      }
    }

    /** The reset of a delivered entry; the user reset hook clears on the same flag as the default. */
    method Rearmed(e: Entry) returns (r: Entry)
      ensures r == Rearm(e)
    {
      r := e;
      if Clears(r) {
        r := r.(triggered := false, event := r.event.(fflags := 0, data := 0));
      }
      if r.pending != [] {
        r := r.(event := r.pending[0], pending := r.pending[1..], triggered := true);
      }
    }

    /**
     How long to wait for the nearest timer.  An armed timer at UINT64_MAX, where saturated deadlines are,
     counts as none.
     */
    method GetNextTimerWaitMicros(now: nat) returns (found: bool, micros: nat)
      ensures found <==> SomeSeen(events)
      ensures found ==> micros == WaitMicros(Nearest(events), now)
    {
      var nearest := UINT64_MAX;
      var i := 0;
      while i < |events|
        invariant i <= |events|
        invariant nearest == Nearest(events[..i])
      {
        assert events[..i + 1][..i] == events[..i];
        if !events[i].triggered && events[i].deadline != 0 && events[i].deadline < nearest {
          nearest := events[i].deadline;
        }
        i := i + 1;
      }
      assert events[..i] == events;
      SeenIsNearest(events);
      NearestIsMinimum(events);
      if nearest == UINT64_MAX {
        return false, 0;
      }
      var remaining := if nearest > now then nearest - now else 0;
      var rounded := (remaining + 999) % 0x1_0000_0000_0000_0000 / 1000;
      if rounded < 1 {
        rounded := 1;
      }
      found, micros := true, if rounded > UINT32_MAX then UINT32_MAX else rounded;
    }

    /** The guard divides, so that nothing in it or after it can pass 64 bits. */
    method AddHRTimer(id: Word, ts: Timespec, udata: Word, now: nat) returns (code: Code)
      requires now <= UINT64_MAX
      modifies this
      ensures code == OK <==> ValidDelay(ts)
      ensures events == if code == OK then Added(old(events), TimerEntry(id, Saturated(now, Delay(ts)), udata))
                        else old(events)
      ensures var nanos := ts.sec * 1_000_000_000 + ts.nsec;
              && (code == OK <==> 0 <= ts.sec && 0 <= ts.nsec < 1_000_000_000 && nanos <= 0xffff_ffff_ffff_ffff)
              && (code == OK ==>
                    exists e :: events == Added(old(events), e) && e.event == Event(id, -15, 0x11, 0, 0, udata)
                                && !e.triggered && e.pending == []
                                && e.deadline == if now + nanos < UINT64_MAX then now + nanos else UINT64_MAX)
    {
      if ts.sec < 0 || ts.nsec < 0 || ts.nsec >= BILLION || ts.sec > (UINT64_MAX - ts.nsec) / BILLION {
        return EINVAL;
      }
      var delay := ts.sec * BILLION + ts.nsec;
      var deadline := if delay <= UINT64_MAX - now then now + delay else UINT64_MAX;
      AddEvent(TimerEntry(id, deadline, udata));
      code := OK;
    }
  }

  // ---------------------------------------------------------------------------------------------
  // Timer arithmetic

  /** The nearest deadline is that of an armed entry and no armed entry has an earlier one. */
  lemma {:induction false} NearestIsMinimum(entries: seq<Entry>)
    ensures forall i | 0 <= i < |entries| && !entries[i].triggered && entries[i].deadline != 0 ::
              Nearest(entries) <= entries[i].deadline || entries[i].deadline > UINT64_MAX
    ensures Nearest(entries) <= UINT64_MAX
    ensures Nearest(entries) < UINT64_MAX
            ==> exists i :: 0 <= i < |entries| && Seen(entries[i]) && entries[i].deadline == Nearest(entries)
  {
    if entries != [] {
      var n := |entries| - 1;
      var before := entries[..n];
      NearestIsMinimum(before);
      forall i | 0 <= i < |entries| && !entries[i].triggered && entries[i].deadline != 0
        ensures Nearest(entries) <= entries[i].deadline || entries[i].deadline > UINT64_MAX
      {
        if i < n {
          assert before[i] == entries[i];
        }
      }
      if Nearest(before) < UINT64_MAX {
        var i :| 0 <= i < n && Seen(before[i]) && before[i].deadline == Nearest(before);
        assert entries[i] == before[i];
      }
      if Nearest(entries) < Nearest(before) {
        assert Seen(entries[n]);
      }
    }
  }

  /** The least positive number of microseconds that covers the remaining nanoseconds, if it fits. */
  predicate RightWait(micros: nat, remaining: nat) {
    && 1 <= micros <= UINT32_MAX
    && (1000 * (micros - 1) < remaining || micros == 1)
    && (remaining <= 1000 * micros || micros == UINT32_MAX)
  }

  /** The rounding is right exactly when adding 999 stays within 64 bits. */
  lemma WaitIsRightExactly(nearest: nat, now: nat)
    requires nearest < UINT64_MAX
    ensures RightWait(WaitMicros(nearest, now), if nearest > now then nearest - now else 0)
            <==> nearest - now + 999 <= UINT64_MAX
  {
  }

  /** The nearest deadline is below UINT64_MAX exactly when some armed entry has one that is. */
  lemma SeenIsNearest(entries: seq<Entry>)
    ensures Nearest(entries) < UINT64_MAX <==> SomeSeen(entries)
  {
    NearestIsMinimum(entries);
  }

  /** From 998 nanoseconds on, the wait for any queue with a timer to be seen is right. */
  lemma WaitIsRightFrom998(entries: seq<Entry>, now: nat)
    requires SomeSeen(entries) && 998 <= now
    ensures var nearest := Nearest(entries);
            && RightWait(WaitMicros(nearest, now), if nearest > now then nearest - now else 0)
            && (forall i | 0 <= i < |entries| && !entries[i].triggered && entries[i].deadline != 0 ::
                  nearest <= entries[i].deadline)
            && (exists i :: 0 <= i < |entries| && Seen(entries[i]) && entries[i].deadline == nearest)
  {
    SeenIsNearest(entries);
    NearestIsMinimum(entries);
    WaitIsRightExactly(Nearest(entries), now);
  }

  /**
   A timer added to a queue with no other in sight is seen exactly when its deadline lies strictly
   between the two ends of the 64-bit clock; at UINT64_MAX it is armed and not seen.
   */
  lemma FreshTimerIsSeenExactly(entries: seq<Entry>, id: Word, ts: Timespec, udata: Word, now: nat)
    requires now <= UINT64_MAX && ValidDelay(ts) && !SomeSeen(entries)
    ensures var e := TimerEntry(id, Saturated(now, Delay(ts)), udata);
            var q, i := Added(entries, e), Index(entries, KeyOf(e.event));
            && i < |q| && q[i] == e
            && (SomeSeen(q) <==> 0 < now + Delay(ts) < UINT64_MAX)
            && (Seen(q[i]) <==> 0 < now + Delay(ts) < UINT64_MAX)
            && (now + Delay(ts) >= UINT64_MAX ==> Armed(q[i]) && !Seen(q[i]))
  {
    var e := TimerEntry(id, Saturated(now, Delay(ts)), udata);
    var i, q := Index(entries, KeyOf(e.event)), Added(entries, e);
    assert q[i] == e;
    forall j | 0 <= j < |q| && j != i ensures !Seen(q[j]) {
      assert q[j] == entries[j];
    }
    assert Seen(e) <==> 0 < now + Delay(ts) < UINT64_MAX;
  }

  /** One second after the clock's start, a timer of 18446744073 seconds is accepted and never waited for. */
  lemma UnseenTimer()
    ensures var ts, now := Timespec(18446744073, 0), BILLION;
            var q := Added([], TimerEntry(1, Saturated(now, Delay(ts)), 0));
            && ValidDelay(ts) && |q| == 1 && Armed(q[0]) && !SomeSeen(q)
            && Nearest(q) == UINT64_MAX
  {
    var ts := Timespec(18446744073, 0);
    FreshTimerIsSeenExactly([], 1, ts, 0, BILLION);
    var q := Added([], TimerEntry(1, Saturated(BILLION, Delay(ts)), 0));
    SeenIsNearest(q);
    NearestIsMinimum(q);
  }

  /** Before that, a timer near the end of time makes the queue wait one microsecond at a time. */
  lemma WaitIsWrongBefore998(now: nat) returns (entries: seq<Entry>)
    requires now < 998
    ensures Nearest(entries) < UINT64_MAX && Nearest(entries) > now
    ensures !RightWait(WaitMicros(Nearest(entries), now), Nearest(entries) - now)
  {
    var e := TimerEntry(0, UINT64_MAX - 1, 0);
    entries := [e];
    assert entries[..0] == [];
    assert Nearest(entries) == UINT64_MAX - 1;
    WaitIsRightExactly(UINT64_MAX - 1, now);
  }
}
