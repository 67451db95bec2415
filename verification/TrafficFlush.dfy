/**
 * Counting and flushing as they interleave. Packet threads add to counters at any moment;
 * the flusher swaps each counter to zero, tries one transaction, and adds back what a
 * failed one could not store. Each atomic access is a step of its own.
 */
module TrafficFlush {
  import opened Bytes
  import opened Traffic

  datatype Phase =
    | Idle
    | Taking(todo: set<Key>)
    | TakingDown(rest: set<Key>, key: Key, up: nat)
    | Restoring
    | RestoringDown

  /** `initial` are the rows found on opening, `added` every increment since, `pruned` the rows dropped for their age. */
  datatype Store = Store(initial: seq<Bucket>, rows: seq<Bucket>, live: map<Key, Totals>, flight: seq<Item>, phase: Phase,
                         added: seq<Item>, pruned: seq<Bucket>)

  datatype Event =
    | Register(key: Key)
    | Count(key: Key, direction: Direction, bytes: nat)
    | Begin
    | SwapUp(key: Key)
    | SwapDown(name: string)
    | Persist(hour: nat, commits: bool)
    | RestoreUp
    | RestoreDown

  function Open(rows: seq<Bucket>): Store { Store(rows, rows, map[], [], Idle, [], []) }

  /** Everything of one device, whatever the hour. */
  function All(key: Key): Filter { Filter(Some(key), 0, U64_MAX) }

  ghost function Sum(items: seq<Item>, key: Key, d: Direction): nat {
    Pending(items, 0, All(key), d)
  }

  function Drop(bs: seq<Bucket>, oldest: nat): seq<Bucket> {
    if bs == [] then []
    else Drop(bs[..|bs| - 1], oldest) + if bs[|bs| - 1].hour < oldest then [bs[|bs| - 1]] else []
  }

  function Plus(t: Totals, up: nat, down: nat): Totals { Totals(t.up + up, t.down + down) }

  function Step(s: Store, e: Event): Store {
    match e
    case Register(key) => if key in s.live then s else s.(live := s.live[key := Totals(0, 0)])
    case Count(key, direction, bytes) =>
      if key !in s.live then s
      else
        var up, down := if direction == Up then bytes else 0, if direction == Down then bytes else 0;
        s.(live := s.live[key := Plus(s.live[key], up, down)], added := s.added + [Item(key, "", up, down)])
    case Begin => if s.phase.Idle? then s.(phase := Taking(s.live.Keys)) else s
    case SwapUp(key) =>
      if !s.phase.Taking? || key !in s.phase.todo || key !in s.live then s
      else s.(live := s.live[key := s.live[key].(up := 0)], phase := TakingDown(s.phase.todo - {key}, key, s.live[key].up))
    case SwapDown(name) =>
      if !s.phase.TakingDown? || s.phase.key !in s.live then s
      else
        var key, up, down := s.phase.key, s.phase.up, s.live[s.phase.key].down;
        s.(live := s.live[key := s.live[key].(down := 0)], phase := Taking(s.phase.rest),
           flight := if up == 0 && down == 0 then s.flight else s.flight + [Item(key, name, up, down)])
    case Persist(hour, commits) =>
      if s.phase != Taking({}) || hour > U64_MAX then s
      else if s.flight == [] then s.(phase := Idle)
      else if !commits then s.(phase := Restoring)
      else
        var booked := Upserted(s.rows, hour, s.flight);
        s.(rows := Flushed(s.rows, hour, s.flight), pruned := s.pruned + Drop(booked, Back(hour, RETENTION_HOURS)),
           flight := [], phase := Idle)
    case RestoreUp =>
      if !s.phase.Restoring? then s
      else if s.flight == [] then s.(phase := Idle)
      else if s.flight[0].key !in s.live then s
      else s.(live := s.live[s.flight[0].key := Plus(s.live[s.flight[0].key], s.flight[0].up, 0)], phase := RestoringDown)
    case RestoreDown =>
      if !s.phase.RestoringDown? || s.flight == [] || s.flight[0].key !in s.live then s
      else s.(live := s.live[s.flight[0].key := Plus(s.live[s.flight[0].key], 0, s.flight[0].down)],
              flight := s.flight[1..], phase := Restoring)
  }

  function Run(rows: seq<Bucket>, events: seq<Event>): Store {
    if events == [] then Open(rows) else Step(Run(rows, events[..|events| - 1]), events[|events| - 1])
  }

  // ----------------------------------------------------------------- conservation

  function Live(s: Store, key: Key, d: Direction): nat {
    if key in s.live then Of(d, s.live[key].up, s.live[key].down) else 0
  }

  /** Bytes the flusher holds: taken items, less a first half restored, plus a first half taken. */
  ghost function Held(s: Store, key: Key, d: Direction): int {
    Sum(s.flight, key, d)
    + (if s.phase.TakingDown? && s.phase.key == key && d == Up then s.phase.up else 0)
    - (if s.phase.RestoringDown? && s.flight != [] && s.flight[0].key == key && d == Up then s.flight[0].up else 0)
  }

  ghost predicate ConservedAt(s: Store, key: Key, d: Direction) {
    Total(s.initial, All(key), d) + Sum(s.added, key, d) ==
    Total(s.rows, All(key), d) + Live(s, key, d) + Held(s, key, d) + Total(s.pruned, All(key), d)
  }

  ghost predicate Conserved(s: Store) {
    && (forall key: Key, d: Direction :: ConservedAt(s, key, d))
    && (s.phase.TakingDown? ==> s.phase.key in s.live)
    && (s.phase.RestoringDown? ==> s.flight != [])
  }

  /** No device has moved more bytes than an SQL integer holds. */
  ghost predicate InRange(s: Store) {
    forall key: Key, d: Direction :: Total(s.initial, All(key), d) + Sum(s.added, key, d) <= I64_MAX
  }

  function Own(i: Item, key: Key, d: Direction): nat {
    if i.key == key then Of(d, i.up, i.down) else 0
  }

  lemma SumLast(items: seq<Item>, i: Item, key: Key, d: Direction)
    ensures Sum(items + [i], key, d) == Sum(items, key, d) + Own(i, key, d)
  {
    assert (items + [i])[..|items|] == items;
  }

  lemma {:induction false} SumFirst(items: seq<Item>, key: Key, d: Direction)
    requires items != []
    ensures Sum(items, key, d) == Own(items[0], key, d) + Sum(items[1..], key, d)
  {
    if |items| == 1 {
      assert items[..0] == [] && items[1..] == [];
    } else {
      var before, last := items[..|items| - 1], items[|items| - 1];
      SumFirst(before, key, d);
      assert before[1..] + [last] == items[1..];
      SumLast(before[1..], last, key, d);
    }
  }

  lemma {:induction false} AnyHour(items: seq<Item>, hour: nat, key: Key, d: Direction)
    requires hour <= U64_MAX
    ensures Pending(items, hour, All(key), d) == Sum(items, key, d)
    ensures Pending(items, hour, Filter(Some(key), hour, hour), d) == Sum(items, key, d)
  {
    if items != [] { AnyHour(items[..|items| - 1], hour, key, d); }
  }

  lemma {:induction false} DropTotal(bs: seq<Bucket>, oldest: nat, f: Filter, d: Direction)
    ensures Total(bs, f, d) == Total(Keep(bs, oldest, None), f, d) + Total(Drop(bs, oldest), f, d)
  {
    if bs != [] {
      var before, b := bs[..|bs| - 1], bs[|bs| - 1];
      DropTotal(before, oldest, f, d);
      if b.hour < oldest {
        TotalNext(Drop(before, oldest), b, f, d);
        assert Keep(bs, oldest, None) == Keep(before, oldest, None) && Drop(bs, oldest) == Drop(before, oldest) + [b];
      } else {
        TotalNext(Keep(before, oldest, None), b, f, d);
        assert Keep(bs, oldest, None) == Keep(before, oldest, None) + [b] && Drop(bs, oldest) == Drop(before, oldest);
      }
    }
  }

  lemma {:induction false} HourWithinAll(bs: seq<Bucket>, hour: nat, key: Key, d: Direction)
    requires hour <= U64_MAX
    ensures Total(bs, Filter(Some(key), hour, hour), d) <= Total(bs, All(key), d)
  {
    if bs != [] { HourWithinAll(bs[..|bs| - 1], hour, key, d); }
  }

  lemma InRangeFits(s: Store, hour: nat)
    requires Conserved(s) && InRange(s) && s.phase.Taking? && hour <= U64_MAX
    ensures Fits(s.rows, hour, s.flight)
  {
    forall key: Key, d: Direction
      ensures FitsAt(s.rows, hour, s.flight, key, d)
    {
      assert ConservedAt(s, key, d);
      assert Total(s.initial, All(key), d) + Sum(s.added, key, d) <= I64_MAX;
      HourWithinAll(s.rows, hour, key, d);
      AnyHour(s.flight, hour, key, d);
    }
  }

  /** A committed flush moves the held bytes into rows, and aged rows out. */
  lemma CommitMoves(s: Store, hour: nat, key: Key, d: Direction)
    requires Fits(s.rows, hour, s.flight) && hour <= U64_MAX && s.flight != []
    ensures var booked := Upserted(s.rows, hour, s.flight);
            Total(Flushed(s.rows, hour, s.flight), All(key), d) + Total(s.pruned + Drop(booked, Back(hour, RETENTION_HOURS)), All(key), d)
            == Total(s.rows, All(key), d) + Sum(s.flight, key, d) + Total(s.pruned, All(key), d)
  {
    var booked := Upserted(s.rows, hour, s.flight);
    var oldest := Back(hour, RETENTION_HOURS);
    UpsertedExactly(s.rows, hour, s.flight, All(key), d);
    AnyHour(s.flight, hour, key, d);
    DropTotal(booked, oldest, All(key), d);
    TotalConcat(s.pruned, Drop(booked, oldest), All(key), d);
  }

  /** A flush ends in one of three ways: nothing to store, all of it stored, or none of it and a restore begun. */
  lemma PersistExactly(s: Store, hour: nat, commits: bool)
    requires s.phase == Taking({}) && hour <= U64_MAX
    ensures var t := Step(s, Persist(hour, commits));
            && t.live == s.live && t.added == s.added
            && (s.flight == [] ==> t.rows == s.rows && t.phase == Idle)
            && (s.flight != [] && commits ==> t.phase == Idle && t.flight == [])
            && (s.flight != [] && !commits ==> t.phase == Restoring && t.flight == s.flight && t.rows == s.rows)
  {
  }

  lemma CommittedState(s: Store, hour: nat)
    requires s.phase == Taking({}) && hour <= U64_MAX && s.flight != []
    ensures var t := Step(s, Persist(hour, true));
            && t.rows == Flushed(s.rows, hour, s.flight)
            && t.pruned == s.pruned + Drop(Upserted(s.rows, hour, s.flight), Back(hour, RETENTION_HOURS))
  {
  }

  /** A committed flush stores what was taken, and nothing else. */
  lemma CommitStores(s: Store, hour: nat, key: Key, d: Direction)
    requires s.phase == Taking({}) && hour <= U64_MAX && s.flight != [] && Fits(s.rows, hour, s.flight)
    ensures var t := Step(s, Persist(hour, true));
            Total(t.rows, All(key), d) + Total(t.pruned, All(key), d) ==
            Total(s.rows, All(key), d) + Total(s.pruned, All(key), d) + Sum(s.flight, key, d)
  {
    CommittedState(s, hour);
    CommitMoves(s, hour, key, d);
  }

  /** Restoring ends only when everything taken is back in the counters. */
  lemma RestoreGivesBack(s: Store, key: Key, d: Direction)
    requires s.phase.Restoring? && s.flight != [] && s.flight[0].key in s.live
    ensures var t := Step(Step(s, RestoreUp), RestoreDown);
            && t.phase == Restoring && t.flight == s.flight[1..] && t.rows == s.rows
            && Live(t, key, d) == Live(s, key, d) + Own(s.flight[0], key, d)
    ensures Step(s.(flight := []), RestoreUp).phase == Idle
  {
  }

  lemma CommitConserves(s: Store, hour: nat, key: Key, d: Direction)
    requires Conserved(s) && InRange(s) && s.phase == Taking({}) && hour <= U64_MAX && s.flight != []
    ensures ConservedAt(Step(s, Persist(hour, true)), key, d)
  {
    assert ConservedAt(s, key, d);
    InRangeFits(s, hour);
    CommitStores(s, hour, key, d);
    PersistExactly(s, hour, true);
    assert Sum([], key, d) == 0;
  }

  lemma CountGrows(s: Store, k: Key, direction: Direction, bytes: nat, key: Key, d: Direction)
    requires k in s.live
    ensures var t := Step(s, Count(k, direction, bytes));
            var own := if k == key && direction == d then bytes else 0;
            && Live(t, key, d) == Live(s, key, d) + own && Sum(t.added, key, d) == Sum(s.added, key, d) + own
  {
    var up, down := if direction == Up then bytes else 0, if direction == Down then bytes else 0;
    SumLast(s.added, Item(k, "", up, down), key, d);
  }

  lemma CountConserves(s: Store, k: Key, direction: Direction, bytes: nat, key: Key, d: Direction)
    requires ConservedAt(s, key, d)
    ensures ConservedAt(Step(s, Count(k, direction, bytes)), key, d)
  {
    if k in s.live { CountGrows(s, k, direction, bytes, key, d); }
  }

  lemma IdleConserves(s: Store, e: Event, key: Key, d: Direction)
    requires ConservedAt(s, key, d) && (e.Register? || e.Begin?)
    ensures ConservedAt(Step(s, e), key, d)
  {
  }

  lemma TakeConserves(s: Store, e: Event, key: Key, d: Direction)
    requires Conserved(s) && (e.SwapUp? || e.SwapDown?)
    ensures ConservedAt(Step(s, e), key, d)
  {
    assert ConservedAt(s, key, d);
    if e.SwapDown? && s.phase.TakingDown? {
      SumLast(s.flight, Item(s.phase.key, e.name, s.phase.up, s.live[s.phase.key].down), key, d);
    }
  }

  lemma RestoreUpConserves(s: Store, key: Key, d: Direction)
    requires ConservedAt(s, key, d)
    ensures ConservedAt(Step(s, RestoreUp), key, d)
  {
    var t := Step(s, RestoreUp);
    assert Live(t, key, d) + Held(t, key, d) == Live(s, key, d) + Held(s, key, d);
  }

  lemma RestoreDownConserves(s: Store, key: Key, d: Direction)
    requires ConservedAt(s, key, d)
    ensures ConservedAt(Step(s, RestoreDown), key, d)
  {
    if s.flight != [] {
      SumFirst(s.flight, key, d);
      var t := Step(s, RestoreDown);
      assert Live(t, key, d) + Held(t, key, d) == Live(s, key, d) + Held(s, key, d);
    }
  }

  lemma PersistConserves(s: Store, e: Event, key: Key, d: Direction)
    requires Conserved(s) && InRange(s) && e.Persist?
    ensures ConservedAt(Step(s, e), key, d)
  {
    assert ConservedAt(s, key, d);
    if e.commits && s.phase == Taking({}) && e.hour <= U64_MAX && s.flight != [] { CommitConserves(s, e.hour, key, d); }
  }

  lemma StepConserves(s: Store, e: Event)
    requires Conserved(s) && InRange(s)
    ensures Conserved(Step(s, e))
  {
    var t := Step(s, e);
    forall key: Key, d: Direction ensures ConservedAt(t, key, d) {
      assert ConservedAt(s, key, d);
      if e.Persist? { PersistConserves(s, e, key, d); }
      else if e.SwapUp? || e.SwapDown? { TakeConserves(s, e, key, d); }
      else if e.RestoreUp? { RestoreUpConserves(s, key, d); }
      else if e.RestoreDown? { RestoreDownConserves(s, key, d); }
      else if e.Count? { CountConserves(s, e.key, e.direction, e.bytes, key, d); }
      else { IdleConserves(s, e, key, d); }
    }
  }

  lemma AddedGrows(s: Store, e: Event)
    requires InRange(Step(s, e))
    ensures InRange(s)
  {
    forall key: Key, d: Direction ensures Total(s.initial, All(key), d) + Sum(s.added, key, d) <= I64_MAX {
      var t := Step(s, e);
      assert Total(t.initial, All(key), d) + Sum(t.added, key, d) <= I64_MAX;
      if t.added != s.added { SumLast(s.added, t.added[|s.added|], key, d); }
    }
  }

  /**
   * In every run, increments and flushes interleaved anyhow and any flush failing, the bytes
   * of each device and direction are stored, live, held by the flusher or pruned.
   */
  lemma {:induction false} BytesAreConserved(rows: seq<Bucket>, events: seq<Event>)
    requires InRange(Run(rows, events))
    ensures Conserved(Run(rows, events))
  {
    if events == [] {
      forall key: Key, d: Direction ensures ConservedAt(Open(rows), key, d) {}
    } else {
      var before := events[..|events| - 1];
      AddedGrows(Run(rows, before), events[|events| - 1]);
      BytesAreConserved(rows, before);
      StepConserves(Run(rows, before), events[|events| - 1]);
    }
  }

  // ----------------------------------------------------------- reports in between

  /** All bytes of a device in one direction, up to this state. */
  ghost function Moved(s: Store, key: Key, d: Direction): nat {
    Total(s.initial, All(key), d) + Sum(s.added, key, d)
  }

  /** What transactions have stored, pruned since or not. */
  ghost function Stored(s: Store, key: Key, d: Direction): nat {
    Total(s.rows, All(key), d) + Total(s.pruned, All(key), d)
  }

  lemma StoredGrows(s: Store, e: Event, key: Key, d: Direction)
    requires Conserved(s) && InRange(s)
    ensures Stored(s, key, d) <= Stored(Step(s, e), key, d)
  {
    if e.Persist? && e.commits && s.phase == Taking({}) && e.hour <= U64_MAX && s.flight != [] {
      InRangeFits(s, e.hour);
      CommitMoves(s, e.hour, key, d);
    }
  }

  lemma {:induction false} StoredOnlyGrows(rows: seq<Bucket>, events: seq<Event>, m: nat, key: Key, d: Direction)
    requires m <= |events| && InRange(Run(rows, events))
    ensures Stored(Run(rows, events[..m]), key, d) <= Stored(Run(rows, events), key, d)
  {
    if m < |events| {
      var before := events[..|events| - 1];
      AddedGrows(Run(rows, before), events[|events| - 1]);
      StoredOnlyGrows(rows, before, m, key, d);
      assert before[..m] == events[..m];
      BytesAreConserved(rows, before);
      StoredGrows(Run(rows, before), events[|events| - 1], key, d);
    } else {
      assert events[..m] == events;
    }
  }

  lemma HeldIsNotNegative(s: Store, key: Key, d: Direction)
    requires s.phase.RestoringDown? ==> s.flight != []
    ensures Held(s, key, d) >= 0
  {
    if s.flight != [] { SumFirst(s.flight, key, d); }
  }

  /**
   * A report that loads the rows after `m` steps and reads the counters at the end never counts a
   * byte twice. It misses what the flusher holds, what was stored in between and what was pruned.
   */
  lemma ReportsFallShortExactly(rows: seq<Bucket>, events: seq<Event>, m: nat, key: Key, d: Direction)
    requires m <= |events| && InRange(Run(rows, events))
    ensures var s, t := Run(rows, events[..m]), Run(rows, events);
            var stored := Stored(t, key, d) - Stored(s, key, d);
            && Total(s.rows, All(key), d) + Live(t, key, d) + Held(t, key, d) + stored + Total(s.pruned, All(key), d) == Moved(t, key, d)
            && Held(t, key, d) >= 0 && stored >= 0
  {
    BytesAreConserved(rows, events);
    assert ConservedAt(Run(rows, events), key, d);
    StoredOnlyGrows(rows, events, m, key, d);
    HeldIsNotNegative(Run(rows, events), key, d);
  }
}
