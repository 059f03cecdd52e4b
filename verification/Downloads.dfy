/** Daily download rollups (src/metrics.js) and what a transfer does to them (src/transfer.js). */
module Downloads {
  import opened Options
  import opened Sorting
  import opened Registry

  const DAY_MS := 24 * 60 * 60 * 1000

  datatype Event = Event(at: Address, time: int, ipHash: Option<string>, userAgent: Option<string>)
  datatype Key = Key(at: Address, day: int)
  datatype Counts = Counts(total: nat, distinct: nat)

  /** download_events and extension_daily_downloads. */
  datatype Tables = Tables(events: seq<Event>, rollups: map<Key, Counts>)

  /** Midnight UTC at or before an instant: the start of the one day that holds it. */
  function UtcMidnight(time: int): (start: int)
    ensures start % DAY_MS == 0 && start <= time < start + DAY_MS
  {
    time / DAY_MS * DAY_MS
  }

  lemma MidnightIsUnique(time: int, start: int)
    ensures start == UtcMidnight(time) <==> start % 86_400_000 == 0 && start <= time < start + 86_400_000
  {
    if start % DAY_MS == 0 && start <= time < start + DAY_MS {
      var ours := UtcMidnight(time);
      assert (start / DAY_MS - ours / DAY_MS) * DAY_MS == start - ours;
    }
  }

  /** Who an event counts as: the hashed address, the user agent without one, or nobody in particular. */
  function Client(event: Event): string {
    if event.ipHash.Some? then event.ipHash.value
    else if event.userAgent.Some? then event.userAgent.value
    else ""
  }

  predicate OnDay(event: Event, day: int) {
    day <= event.time < day + DAY_MS
  }

  function Group(key: Key): Event -> bool {
    (event: Event) => event.at == key.at && OnDay(event, key.day)
  }

  function Clients(events: seq<Event>): set<string> {
    set i | 0 <= i < |events| :: Client(events[i])
  }

  function Counted(events: seq<Event>): Counts {
    Counts(|events|, |Clients(events)|)
  }

  /** The addresses that were downloaded on a day. */
  function Downloaded(events: seq<Event>, day: int): set<Address> {
    set i | 0 <= i < |events| && OnDay(events[i], day) :: events[i].at
  }

  /** The upsert of these addresses' groups; a key the SELECT yields no group for keeps its row. */
  function Upserted(d: Tables, day: int, groups: set<Address>): (after: Tables)
    ensures after.events == d.events
    ensures groups == {} ==> after.rollups == d.rollups
  {
    d.(rollups := map key | key in d.rollups.Keys + (set at | at in groups :: Key(at, day)) ::
         if key.day == day && key.at in groups then Counted(Filter(d.events, Group(key))) else d.rollups[key])
  }

  /** aggregateDay for the day starting at `day`. */
  function Aggregated(d: Tables, day: int): Tables {
    Upserted(d, day, Downloaded(d.events, day))
  }

  function MovedEvent(event: Event, source: Address, dest: Address): Event {
    if event.at == source then event.(at := dest) else event
  }

  function MovedEvents(events: seq<Event>, source: Address, dest: Address): (out: seq<Event>)
    ensures |out| == |events|
    ensures forall i :: 0 <= i < |events| ==> out[i] == MovedEvent(events[i], source, dest)
  {
    if events == [] then [] else [MovedEvent(events[0], source, dest)] + MovedEvents(events[1..], source, dest)
  }

  function NotAt(at: Address): Event -> bool {
    (event: Event) => event.at != at
  }

  /** The address a row came from, for a row that is now at `at`. */
  function Origin(at: Address, source: Address, dest: Address): Address {
    if at == dest then source else at
  }

  function MovedRollups(rollups: map<Key, Counts>, source: Address, dest: Address): map<Key, Counts> {
    var stay := set key | key in rollups && key.at != source && key.at != dest;
    var go := set key | key in rollups && key.at == source :: Key(dest, key.day);
    map key | key in stay + go :: rollups[if key.at == dest then Key(source, key.day) else key]
  }

  /** A transfer: what the destination had left over goes, and the source's rows take its place. */
  function Transferred(d: Tables, source: Address, dest: Address): Tables {
    Tables(MovedEvents(Filter(d.events, NotAt(dest)), source, dest), MovedRollups(d.rollups, source, dest))
  }

  // ------------------------------------------------------------ the classes

  class DownloadTables {
    var events: seq<Event>
    var rollups: map<Key, Counts>

    constructor ()
      ensures Contents() == Tables([], map[])
    {
      events, rollups := [], map[];
    }

    function Contents(): Tables
      reads this
    {
      Tables(events, rollups)
    }

    /** The total and the distinct count of one group. */
    method Count(key: Key) returns (counts: Counts)
      ensures counts == Counted(Filter(events, Group(key)))
    {
      hide Filter;
      var group := Filter(events, Group(key));
      var total, clients := 0, {};
      for i := 0 to |group|
        invariant total == i && clients == Clients(group[..i])
      {
        assert Clients(group[..i + 1]) == Clients(group[..i]) + {Client(group[i])} by {
          ClientsOfOneMore(group, i);
        }
        total, clients := total + 1, clients + {Client(group[i])};
      }
      assert group[..|group|] == group;
      counts := Counts(total, |clients|);
    }

    /** The day's INSERT ... ON CONFLICT DO UPDATE, one group after another. */
    method AggregateDay(now: int)
      modifies this`rollups
      ensures Contents() == Aggregated(old(Contents()), UtcMidnight(now))
    {
      hide Filter, Upserted, Counted, Downloaded;
      var day := UtcMidnight(now);
      ghost var start := Contents();
      var groups := Downloaded(events, day);
      var done: set<Address> := {};
      while groups != {}
        invariant done + groups == Downloaded(events, day)
        invariant rollups == Upserted(start, day, done).rollups
        decreases |groups|
      {
        var at :| at in groups;
        var counts := Count(Key(at, day));
        UpsertedOneMore(start, day, done, at);
        rollups := rollups[Key(at, day) := counts];
        groups, done := groups - {at}, done + {at};
      }
    }

    /** The transfer's statements on the two tables: clear the destination, then move. */
    method Transfer(source: Address, dest: Address)
      requires source != dest
      modifies this
      ensures Contents() == Transferred(old(Contents()), source, dest)
    {
      hide Filter, MovedEvents;
      events := Filter(events, NotAt(dest));
      rollups := map key | key in rollups && key.at != dest :: rollups[key];
      events := MovedEvents(events, source, dest);
      ClearedFirst(rollups, old(rollups), source, dest);
      rollups := MovedRollups(rollups, source, dest);
    }
  }

  lemma UpsertedOneMore(d: Tables, day: int, groups: set<Address>, at: Address)
    ensures Upserted(d, day, groups).rollups[Key(at, day) := Counted(Filter(d.events, Group(Key(at, day))))]
         == Upserted(d, day, groups + {at}).rollups
  {
    hide Filter, Counted;
  }

  /** Clearing the destination first is what makes the move an overwrite. */
  lemma ClearedFirst(cleared: map<Key, Counts>, rollups: map<Key, Counts>, source: Address, dest: Address)
    requires source != dest && cleared == map key | key in rollups && key.at != dest :: rollups[key]
    ensures MovedRollups(cleared, source, dest) == MovedRollups(rollups, source, dest)
  {
  }

  lemma ClientsOfOneMore(group: seq<Event>, i: nat)
    requires i < |group|
    ensures Clients(group[..i + 1]) == Clients(group[..i]) + {Client(group[i])}
  {
    var more := group[..i + 1];
    assert forall k :: 0 <= k < i ==> more[k] == group[..i][k];
    forall client | client in Clients(group[..i]) + {Client(group[i])} ensures client in Clients(more) {
      if client == Client(group[i]) {
        assert more[i] == group[i];
      } else {
        var k :| 0 <= k < i && Client(group[..i][k]) == client;
        assert more[k] == group[k];
      }
    }
  }

  // ------------------------------------------------------------- aggregation

  lemma GroupIsDownloaded(events: seq<Event>, key: Key)
    ensures key.at in Downloaded(events, key.day) <==> Filter(events, Group(key)) != []
  {
    FilterMembers(events, Group(key));
    if key.at in Downloaded(events, key.day) {
      var i :| 0 <= i < |events| && OnDay(events[i], key.day) && events[i].at == key.at;
      assert events[i] in Filter(events, Group(key));
    }
    if Filter(events, Group(key)) != [] {
      var event := Filter(events, Group(key))[0];
      assert event in Filter(events, Group(key));
      assert event in events && Group(key)(event);
    }
  }

  /** Two downloads are one client's when their hashes agree; without hashes, when their user agents
      do; and downloads with neither are all one client's. */
  lemma ClientsByFields(a: Event, b: Event)
    ensures a.ipHash.Some? && b.ipHash.Some? ==> (Client(a) == Client(b) <==> a.ipHash.value == b.ipHash.value)
    ensures a.ipHash.None? && b.ipHash.None? && a.userAgent.Some? && b.userAgent.Some? ==>
              (Client(a) == Client(b) <==> a.userAgent.value == b.userAgent.value)
    ensures a.ipHash.None? && a.userAgent.None? && b.ipHash.None? && b.userAgent.None? ==> Client(a) == Client(b) == ""
    ensures a.ipHash.Some? && b.ipHash.None? && b.userAgent.Some? ==> (Client(a) == Client(b) <==> a.ipHash.value == b.userAgent.value)
  {
  }

  /** How many downloads of an address fall on a day. */
  function TotalOf(events: seq<Event>, at: Address, day: int): nat {
    if events == [] then 0
    else (if events[0].at == at && day <= events[0].time < day + 86_400_000 then 1 else 0) + TotalOf(events[1..], at, day)
  }

  /** And whose they are. */
  function ClientsOf(events: seq<Event>, at: Address, day: int): set<string> {
    set event | event in events && event.at == at && day <= event.time < day + 86_400_000 :: Client(event)
  }

  lemma {:induction false} GroupTotal(events: seq<Event>, key: Key)
    ensures |Filter(events, Group(key))| == TotalOf(events, key.at, key.day)
  {
    if events != [] {
      GroupTotal(events[1..], key);
    }
  }

  lemma GroupClients(events: seq<Event>, key: Key)
    ensures Clients(Filter(events, Group(key))) == ClientsOf(events, key.at, key.day)
  {
    FilterMembers(events, Group(key));
    hide Filter;
    var group := Filter(events, Group(key));
    forall client | client in ClientsOf(events, key.at, key.day) ensures client in Clients(group) {
      var event :| event in events && event.at == key.at && key.day <= event.time < key.day + 86_400_000 && Client(event) == client;
      assert event in group;
      var i :| 0 <= i < |group| && group[i] == event;
    }
    forall client | client in Clients(group) ensures client in ClientsOf(events, key.at, key.day) {
      var i :| 0 <= i < |group| && Client(group[i]) == client;
      assert group[i] in group;
    }
  }

  /** The rollup a day's aggregation leaves, by the events themselves: an address with a download that
      day has as its total their number and as its distinct count the number of their clients; any
      other rollup is untouched. */
  lemma RollupsCount(d: Tables, day: int, key: Key)
    ensures var after := Aggregated(d, day);
            && after.events == d.events
            && (key.day == day && TotalOf(d.events, key.at, day) > 0 ==>
                  && key in after.rollups && after.rollups[key].total == TotalOf(d.events, key.at, day)
                  && after.rollups[key].distinct == |ClientsOf(d.events, key.at, day)|)
            && (key.day != day || TotalOf(d.events, key.at, day) == 0 ==>
                  (key in after.rollups <==> key in d.rollups) && (key in d.rollups ==> after.rollups[key] == d.rollups[key]))
  {
    AggregationCounts(d, day, key);
    GroupTotal(d.events, key);
    GroupClients(d.events, key);
    hide Filter, TotalOf, ClientsOf, Clients;
  }

  /** After aggregating a day, every address downloaded that day has exactly its counts, and every
      other rollup, of any day, is what it was. */
  lemma AggregationCounts(d: Tables, day: int, key: Key)
    ensures var after := Aggregated(d, day); var group := Filter(d.events, Group(key));
            if key.day == day && group != [] then key in after.rollups && after.rollups[key] == Counted(group)
            else (key in after.rollups <==> key in d.rollups) && (key in d.rollups ==> after.rollups[key] == d.rollups[key])
  {
    GroupIsDownloaded(d.events, key);
  }

  /** Aggregating a day again changes nothing. */
  lemma AggregationIsIdempotent(d: Tables, day: int)
    ensures Aggregated(Aggregated(d, day), day) == Aggregated(d, day)
  {
    hide Filter;
  }

  /** Days do not disturb each other, so the order the job takes them in does not matter. */
  lemma DaysCommute(d: Tables, a: int, b: int)
    ensures Aggregated(Aggregated(d, a), b) == Aggregated(Aggregated(d, b), a)
  {
    var left, right := Aggregated(Aggregated(d, a), b), Aggregated(Aggregated(d, b), a);
    hide Filter, Downloaded, Counted;
    assert left.events == right.events == Aggregated(d, a).events == Aggregated(d, b).events;
    hide Aggregated;
    forall key: Key
      ensures key in left.rollups <==> key in right.rollups
      ensures key in left.rollups ==> left.rollups[key] == right.rollups[key]
    {
      AggregationCounts(d, a, key);
      AggregationCounts(d, b, key);
      AggregationCounts(Aggregated(d, a), b, key);
      AggregationCounts(Aggregated(d, b), a, key);
    }
    assert left.rollups == right.rollups;
  }

  // --------------------------------------------------------------- transfers

  lemma {:induction false} GroupAfterClearing(events: seq<Event>, dest: Address, key: Key)
    ensures Filter(Filter(events, NotAt(dest)), Group(key)) == if key.at == dest then [] else Filter(events, Group(key))
    ensures forall i :: 0 <= i < |Filter(events, NotAt(dest))| ==> Filter(events, NotAt(dest))[i].at != dest
  {
    if events != [] {
      var rest := Filter(events[1..], NotAt(dest));
      GroupAfterClearing(events[1..], dest, key);
      if events[0].at != dest {
        assert Filter(events, NotAt(dest)) == [events[0]] + rest;
        assert ([events[0]] + rest)[1..] == rest;
      } else {
        assert Filter(events, NotAt(dest)) == rest;
      }
    }
  }

  lemma {:induction false} GroupAfterMoving(events: seq<Event>, source: Address, dest: Address, key: Key)
    requires source != dest && forall i :: 0 <= i < |events| ==> events[i].at != dest
    ensures Filter(MovedEvents(events, source, dest), Group(key))
         == if key.at == source then []
            else MovedEvents(Filter(events, Group(Key(Origin(key.at, source, dest), key.day))), source, dest)
  {
    var from := Key(Origin(key.at, source, dest), key.day);
    if events != [] {
      var moved := MovedEvents(events, source, dest);
      assert moved[1..] == MovedEvents(events[1..], source, dest);
      GroupAfterMoving(events[1..], source, dest, key);
      var rest := Filter(events[1..], Group(from));
      if Group(from)(events[0]) {
        assert Filter(events, Group(from)) == [events[0]] + rest;
        assert ([events[0]] + rest)[1..] == rest;
      } else {
        assert Filter(events, Group(from)) == rest;
      }
    }
  }

  lemma GroupMoves(events: seq<Event>, source: Address, dest: Address, key: Key)
    requires source != dest
    ensures Filter(MovedEvents(Filter(events, NotAt(dest)), source, dest), Group(key))
         == if key.at == source then []
            else MovedEvents(Filter(events, Group(Key(Origin(key.at, source, dest), key.day))), source, dest)
  {
    hide Filter, MovedEvents;
    var from := Key(Origin(key.at, source, dest), key.day);
    GroupAfterClearing(events, dest, from);
    GroupAfterMoving(Filter(events, NotAt(dest)), source, dest, key);
  }

  lemma MovingKeepsCounts(events: seq<Event>, source: Address, dest: Address)
    ensures Counted(MovedEvents(events, source, dest)) == Counted(events)
  {
    SameClients(events, source, dest);
  }

  /** Aggregating and moving an extension commute, total and distinct, whatever the destination had
      left over: its old events and its old rollups both go. */
  lemma AggregationCommutesWithTransfer(d: Tables, day: int, source: Address, dest: Address)
    requires source != dest
    ensures Aggregated(Transferred(d, source, dest), day) == Transferred(Aggregated(d, day), source, dest)
  {
    var left, right := Aggregated(Transferred(d, source, dest), day), Transferred(Aggregated(d, day), source, dest);
    hide Filter, MovedEvents, MovedRollups, Downloaded, Counted;
    assert left.events == right.events;
    hide Aggregated, Transferred;
    forall key: Key
      ensures key in left.rollups <==> key in right.rollups
      ensures key in left.rollups ==> left.rollups[key] == right.rollups[key]
    {
      OneRollupCommutes(d, day, source, dest, key);
    }
    assert left.rollups == right.rollups;
  }

  lemma TransferredAt(d: Tables, source: Address, dest: Address, key: Key)
    requires source != dest
    ensures var from := Key(Origin(key.at, source, dest), key.day); var after := Transferred(d, source, dest);
            && (key in after.rollups <==> key.at != source && from in d.rollups)
            && (key in after.rollups ==> after.rollups[key] == d.rollups[from])
  {
    hide Filter, MovedEvents;
    var from := Key(Origin(key.at, source, dest), key.day);
    assert key.at == dest && from in d.rollups ==> key in Transferred(d, source, dest).rollups;
  }

  lemma OneRollupCommutes(d: Tables, day: int, source: Address, dest: Address, key: Key)
    requires source != dest
    ensures var left, right := Aggregated(Transferred(d, source, dest), day).rollups, Transferred(Aggregated(d, day), source, dest).rollups;
            (key in left <==> key in right) && (key in left ==> left[key] == right[key])
  {
    hide Aggregated, Filter, MovedEvents, Counted, MovedRollups;
    var from := Key(Origin(key.at, source, dest), key.day);
    var moved := Transferred(d, source, dest);
    assert moved.events == MovedEvents(Filter(d.events, NotAt(dest)), source, dest);
    hide Transferred;
    GroupMoves(d.events, source, dest, key);
    MovingKeepsCounts(Filter(d.events, Group(from)), source, dest);
    AggregationCounts(moved, day, key);
    AggregationCounts(d, day, from);
    TransferredAt(d, source, dest, key);
    TransferredAt(Aggregated(d, day), source, dest, key);
  }

  /** What a transfer does to the downloads: the destination has what the source had, on each day, the
      source has nothing, and every other address what it had. */
  lemma TransferMovesDownloads(d: Tables, source: Address, dest: Address, at: Address, day: int)
    requires source != dest
    ensures var after, from := Transferred(d, source, dest), if at == dest then source else at;
            && TotalOf(after.events, at, day) == (if at == source then 0 else TotalOf(d.events, from, day))
            && ClientsOf(after.events, at, day) == (if at == source then {} else ClientsOf(d.events, from, day))
            && (Key(at, day) in after.rollups <==> at != source && Key(from, day) in d.rollups)
            && (Key(at, day) in after.rollups ==> after.rollups[Key(at, day)] == d.rollups[Key(from, day)])
  {
    var after, key := Transferred(d, source, dest), Key(at, day);
    var from := Key(if at == dest then source else at, day);
    GroupMoves(d.events, source, dest, key);
    GroupTotal(after.events, key);
    GroupTotal(d.events, from);
    GroupClients(after.events, key);
    GroupClients(d.events, from);
    TransferredAt(d, source, dest, key);
    SameClients(Filter(d.events, Group(from)), source, dest);
    assert Clients([]) == {};
    hide Filter, TotalOf, ClientsOf, Clients, MovedRollups;
  }

  lemma SameClients(events: seq<Event>, source: Address, dest: Address)
    ensures Clients(MovedEvents(events, source, dest)) == Clients(events)
  {
    var moved := MovedEvents(events, source, dest);
    assert forall i :: 0 <= i < |events| ==> Client(moved[i]) == Client(events[i]);
  }
}
