/** Hourly traffic history: buckets, pending counters and reports. */
module Traffic {
  import opened Bytes

  type Key = string

  const U64_MAX: nat := U64_LIMIT - 1
  const I64_MAX: nat := 0x7fff_ffff_ffff_ffff
  /** Stands for any stored amount that is no longer an integer. */
  const REAL: nat := I64_MAX + 1
  const RETENTION_HOURS: nat := 24 * 400
  const MAX_QUERY_HOURS: nat := 24 * 31

  datatype Direction = Up | Down

  datatype Bucket = Bucket(hour: nat, key: Key, name: string, up: nat, down: nat)
  datatype Item = Item(key: Key, name: string, up: nat, down: nat)

  function Of(d: Direction, up: nat, down: nat): nat { if d == Up then up else down }

  function Cap(n: nat, cap: nat): nat { if n > cap then cap else n }

  /** The value of a saturating `u64` counter whose exact value is `n`. */
  function Clamp(n: nat): nat { Cap(n, U64_MAX) }

  /** Hours before `hour`, stopping at zero. */
  function Back(hour: nat, n: nat): nat { if n > hour then 0 else hour - n }

  // ------------------------------------------------------------------- totals

  /** A selection of buckets: an inclusive range of hours, of one device or of all. */
  datatype Filter = Filter(key: Option<Key>, lo: nat, hi: nat)

  predicate Selects(f: Filter, hour: nat, key: Key) {
    f.lo <= hour <= f.hi && (f.key.Some? ==> f.key.value == key)
  }

  ghost function Total(bs: seq<Bucket>, f: Filter, d: Direction): nat {
    if bs == [] then 0
    else
      var b := bs[|bs| - 1];
      Total(bs[..|bs| - 1], f, d) + if Selects(f, b.hour, b.key) then Of(d, b.up, b.down) else 0
  }

  /** Name on the last selected bucket. */
  ghost function LastName(bs: seq<Bucket>, f: Filter): Option<string> {
    if bs == [] then None
    else if Selects(f, bs[|bs| - 1].hour, bs[|bs| - 1].key) then Some(bs[|bs| - 1].name)
    else LastName(bs[..|bs| - 1], f)
  }

  /** What pending counters add to a selection when booked to `hour`. */
  ghost function Pending(items: seq<Item>, hour: nat, f: Filter, d: Direction): nat {
    if items == [] then 0
    else
      var i := items[|items| - 1];
      Pending(items[..|items| - 1], hour, f, d) + if Selects(f, hour, i.key) then Of(d, i.up, i.down) else 0
  }

  lemma {:induction false} TotalConcat(a: seq<Bucket>, b: seq<Bucket>, f: Filter, d: Direction)
    ensures Total(a + b, f, d) == Total(a, f, d) + Total(b, f, d)
  {
    if b == [] {
      assert a + b == a;
    } else {
      assert (a + b)[..|a + b| - 1] == a + b[..|b| - 1];
      TotalConcat(a, b[..|b| - 1], f, d);
    }
  }

  lemma {:induction false} LastNameConcat(a: seq<Bucket>, b: seq<Bucket>, f: Filter)
    ensures LastName(a + b, f) == if LastName(b, f).Some? then LastName(b, f) else LastName(a, f)
  {
    if b == [] {
      assert a + b == a;
    } else {
      assert (a + b)[..|a + b| - 1] == a + b[..|b| - 1];
      LastNameConcat(a, b[..|b| - 1], f);
    }
  }

  // ----------------------------------------------------------- booking one item

  /** Position of the bucket of `key` in `hour`, or the end. */
  function Find(bs: seq<Bucket>, hour: nat, key: Key): (n: nat)
    ensures n <= |bs|
    ensures n < |bs| ==> bs[n].hour == hour && bs[n].key == key
    ensures forall i :: 0 <= i < n ==> !(bs[i].hour == hour && bs[i].key == key)
  {
    if bs == [] then 0
    else if bs[0].hour == hour && bs[0].key == key then 0
    else 1 + Find(bs[1..], hour, key)
  }

  function Merged(b: Bucket, item: Item, cap: nat): Bucket {
    b.(name := item.name, up := Cap(b.up + item.up, cap), down := Cap(b.down + item.down, cap))
  }

  /** Adds an item to its bucket, each sum passed through `cap`; a new bucket goes to `place`. */
  function Book(bs: seq<Bucket>, hour: nat, item: Item, place: nat, cap: nat): seq<Bucket>
    requires place <= |bs|
  {
    var n := Find(bs, hour, item.key);
    if n < |bs| then bs[n := Merged(bs[n], item, cap)]
    else bs[..place] + [Merged(Bucket(hour, item.key, item.name, 0, 0), item, cap)] + bs[place..]
  }

  lemma SplitAt(bs: seq<Bucket>, n: nat, b: Bucket, f: Filter, d: Direction)
    requires n < |bs|
    ensures Total(bs[n := b], f, d) ==
            Total(bs[..n], f, d) + Total([b], f, d) + Total(bs[n + 1..], f, d)
    ensures Total(bs, f, d) == Total(bs[..n], f, d) + Total([bs[n]], f, d) + Total(bs[n + 1..], f, d)
  {
    assert bs[n := b] == bs[..n] + [b] + bs[n + 1..];
    assert bs == bs[..n] + [bs[n]] + bs[n + 1..];
    TotalConcat(bs[..n] + [b], bs[n + 1..], f, d);
    TotalConcat(bs[..n], [b], f, d);
    TotalConcat(bs[..n] + [bs[n]], bs[n + 1..], f, d);
    TotalConcat(bs[..n], [bs[n]], f, d);
  }

  lemma One(b: Bucket, f: Filter, d: Direction)
    ensures Total([b], f, d) == if Selects(f, b.hour, b.key) then Of(d, b.up, b.down) else 0
  {
    assert [b][..0] == [];
  }

  /** Saturating early or late makes no difference. */
  ghost predicate SameUpTo(cap: nat, x: nat, y: nat) {
    Cap(x, cap) == Cap(y, cap) && (y <= cap ==> x == y)
  }

  lemma CapSum(rest: nat, n: nat, cap: nat)
    ensures SameUpTo(cap, rest + Cap(n, cap), rest + n)
  {
  }

  ghost function Share(f: Filter, hour: nat, item: Item, d: Direction): nat {
    if Selects(f, hour, item.key) then Of(d, item.up, item.down) else 0
  }

  lemma MergedTotal(rest: nat, b: Bucket, item: Item, cap: nat, f: Filter, d: Direction)
    requires b.key == item.key
    ensures SameUpTo(cap, rest + Total([Merged(b, item, cap)], f, d), rest + Total([b], f, d) + Share(f, b.hour, item, d))
  {
    One(Merged(b, item, cap), f, d);
    One(b, f, d);
    CapSum(rest, Of(d, b.up + item.up, b.down + item.down), cap);
  }

  lemma InsertAt(bs: seq<Bucket>, place: nat, b: Bucket, f: Filter, d: Direction)
    requires place <= |bs|
    ensures Total(bs[..place] + [b] + bs[place..], f, d) == Total(bs, f, d) + Total([b], f, d)
  {
    TotalConcat(bs[..place] + [b], bs[place..], f, d);
    TotalConcat(bs[..place], [b], f, d);
    TotalConcat(bs[..place], bs[place..], f, d);
    assert bs == bs[..place] + bs[place..];
  }

  /** Booking adds the item to every selection that covers it, up to the cap. */
  lemma BookTotal(bs: seq<Bucket>, hour: nat, item: Item, place: nat, cap: nat, f: Filter, d: Direction)
    requires place <= |bs|
    ensures SameUpTo(cap, Total(Book(bs, hour, item, place, cap), f, d), Total(bs, f, d) + Share(f, hour, item, d))
  {
    var n := Find(bs, hour, item.key);
    if n < |bs| {
      SplitAt(bs, n, Merged(bs[n], item, cap), f, d);
      MergedTotal(Total(bs[..n], f, d) + Total(bs[n + 1..], f, d), bs[n], item, cap, f, d);
    } else {
      var empty := Bucket(hour, item.key, item.name, 0, 0);
      InsertAt(bs, place, Merged(empty, item, cap), f, d);
      MergedTotal(Total(bs, f, d), empty, item, cap, f, d);
      One(empty, f, d);
    }
  }

  // ------------------------------------------------------------ ordered histories

  /** Sorted by hour, one bucket for each hour and device. */
  ghost predicate Ordered(bs: seq<Bucket>) {
    forall i, j :: 0 <= i < j < |bs| ==>
      bs[i].hour <= bs[j].hour && !(bs[i].hour == bs[j].hour && bs[i].key == bs[j].key)
  }

  /** Where a new bucket of `hour` belongs: before the first later one. */
  function Place(bs: seq<Bucket>, hour: nat): (n: nat)
    ensures n <= |bs|
    ensures n < |bs| ==> bs[n].hour > hour
    ensures forall i :: 0 <= i < n ==> bs[i].hour <= hour
  {
    if bs == [] || bs[0].hour > hour then 0 else 1 + Place(bs[1..], hour)
  }

  function Booked(bs: seq<Bucket>, hour: nat, item: Item, cap: nat): seq<Bucket> {
    Book(bs, hour, item, Place(bs, hour), cap)
  }

  /** All pending items booked to `hour`, in order. */
  function BookAll(bs: seq<Bucket>, hour: nat, items: seq<Item>, cap: nat): seq<Bucket> {
    if items == [] then bs
    else Booked(BookAll(bs, hour, items[..|items| - 1], cap), hour, items[|items| - 1], cap)
  }

  lemma InsertIsOrdered(bs: seq<Bucket>, place: nat, b: Bucket)
    requires Ordered(bs) && place <= |bs|
    requires forall i :: 0 <= i < place ==> bs[i].hour <= b.hour
    requires forall i :: place <= i < |bs| ==> b.hour < bs[i].hour
    requires forall i :: 0 <= i < |bs| ==> !(bs[i].hour == b.hour && bs[i].key == b.key)
    ensures Ordered(bs[..place] + [b] + bs[place..])
  {
  }

  lemma BookedIsOrdered(bs: seq<Bucket>, hour: nat, item: Item, cap: nat)
    requires Ordered(bs)
    ensures Ordered(Booked(bs, hour, item, cap))
  {
    if Find(bs, hour, item.key) == |bs| {
      InsertIsOrdered(bs, Place(bs, hour), Merged(Bucket(hour, item.key, item.name, 0, 0), item, cap));
    }
  }

  ghost predicate UpTo(bs: seq<Bucket>, hour: nat) {
    forall i :: 0 <= i < |bs| ==> bs[i].hour <= hour
  }

  lemma BookedUpTo(bs: seq<Bucket>, hour: nat, item: Item, cap: nat)
    requires UpTo(bs, hour)
    ensures UpTo(Booked(bs, hour, item, cap), hour)
  {
  }

  lemma {:induction false} NoneSelected(bs: seq<Bucket>, f: Filter)
    requires forall i :: 0 <= i < |bs| ==> !Selects(f, bs[i].hour, bs[i].key)
    ensures LastName(bs, f) == None
  {
    if bs != [] { NoneSelected(bs[..|bs| - 1], f); }
  }

  lemma OneName(b: Bucket, f: Filter)
    ensures LastName([b], f) == if Selects(f, b.hour, b.key) then Some(b.name) else None
  {
    assert [b][..0] == [];
  }

  lemma NamesAround(a: seq<Bucket>, b: Bucket, c: seq<Bucket>, f: Filter)
    requires forall i :: 0 <= i < |c| ==> !Selects(f, c[i].hour, c[i].key)
    ensures LastName(a + [b] + c, f) == if Selects(f, b.hour, b.key) then Some(b.name) else LastName(a, f)
  {
    LastNameConcat(a + [b], c, f);
    LastNameConcat(a, [b], f);
    NoneSelected(c, f);
    OneName(b, f);
  }

  lemma SelectedUpdate(bs: seq<Bucket>, n: nat, b: Bucket, f: Filter)
    requires Ordered(bs) && n < |bs| && bs[n].hour == b.hour == f.hi && bs[n].key == b.key && f.key == Some(b.key) && f.lo <= f.hi
    ensures LastName(bs[n := b], f) == Some(b.name)
  {
    assert bs[n := b] == bs[..n] + [b] + bs[n + 1..];
    NamesAround(bs[..n], b, bs[n + 1..], f);
  }

  lemma SkipOne(a: seq<Bucket>, b: Bucket, c: seq<Bucket>, f: Filter)
    requires !Selects(f, b.hour, b.key)
    ensures LastName(a + [b] + c, f) == LastName(a + c, f)
  {
    LastNameConcat(a + [b], c, f);
    LastNameConcat(a, [b], f);
    LastNameConcat(a, c, f);
    OneName(b, f);
  }

  lemma UnselectedInsert(bs: seq<Bucket>, place: nat, b: Bucket, f: Filter)
    requires place <= |bs| && !Selects(f, b.hour, b.key)
    ensures LastName(bs[..place] + [b] + bs[place..], f) == LastName(bs, f)
  {
    assert bs == bs[..place] + bs[place..];
    SkipOne(bs[..place], b, bs[place..], f);
  }

  lemma PlaceEnds(bs: seq<Bucket>, hour: nat, f: Filter)
    requires Ordered(bs) && f.hi == hour
    ensures forall i :: Place(bs, hour) <= i < |bs| ==> !Selects(f, bs[i].hour, bs[i].key)
  {
  }

  lemma UnselectedUpdate(bs: seq<Bucket>, n: nat, b: Bucket, f: Filter)
    requires n < |bs| && !Selects(f, b.hour, b.key) && !Selects(f, bs[n].hour, bs[n].key)
    ensures LastName(bs[n := b], f) == LastName(bs, f)
  {
    assert bs[n := b] == bs[..n] + [b] + bs[n + 1..];
    assert bs == bs[..n] + [bs[n]] + bs[n + 1..];
    LastNameConcat(bs[..n] + [b], bs[n + 1..], f);
    LastNameConcat(bs[..n], [b], f);
    LastNameConcat(bs[..n] + [bs[n]], bs[n + 1..], f);
    LastNameConcat(bs[..n], [bs[n]], f);
    OneName(b, f);
    OneName(bs[n], f);
  }

  /** Up to its hour, the booked item gives its device's name and leaves the others. */
  lemma BookedName(bs: seq<Bucket>, hour: nat, item: Item, cap: nat, f: Filter)
    requires Ordered(bs) && f.key.Some? && f.lo <= hour && f.hi == hour
    ensures LastName(Booked(bs, hour, item, cap), f) ==
            if f.key.value == item.key then Some(item.name) else LastName(bs, f)
  {
    var n, place := Find(bs, hour, item.key), Place(bs, hour);
    if n < |bs| {
      var b := Merged(bs[n], item, cap);
      if f.key.value == item.key { SelectedUpdate(bs, n, b, f); } else { UnselectedUpdate(bs, n, b, f); }
    } else {
      var b := Merged(Bucket(hour, item.key, item.name, 0, 0), item, cap);
      if f.key.value == item.key {
        PlaceEnds(bs, hour, f);
        NamesAround(bs[..place], b, bs[place..], f);
      } else {
        UnselectedInsert(bs, place, b, f);
      }
    }
  }

  // ---------------------------------------------------------- booking all items

  /** The name that pending items give to a device. */
  ghost function PendingName(items: seq<Item>, key: Key): Option<string> {
    if items == [] then None
    else if items[|items| - 1].key == key then Some(items[|items| - 1].name)
    else PendingName(items[..|items| - 1], key)
  }

  lemma CapCongruence(x: nat, y: nat, z: nat, cap: nat)
    requires Cap(x, cap) == Cap(y, cap)
    ensures Cap(x + z, cap) == Cap(y + z, cap)
  {
  }

  lemma BookedTotal(bs: seq<Bucket>, hour: nat, item: Item, cap: nat, f: Filter, d: Direction, exact: nat)
    requires Cap(Total(bs, f, d), cap) == Cap(exact, cap)
    ensures Cap(Total(Booked(bs, hour, item, cap), f, d), cap) == Cap(exact + Share(f, hour, item, d), cap)
  {
    BookTotal(bs, hour, item, Place(bs, hour), cap, f, d);
    CapCongruence(Total(bs, f, d), exact, Share(f, hour, item, d), cap);
  }

  lemma PendingNext(items: seq<Item>, hour: nat, f: Filter, d: Direction)
    requires items != []
    ensures Pending(items, hour, f, d) ==
            Pending(items[..|items| - 1], hour, f, d) + Share(f, hour, items[|items| - 1], d)
  {
  }

  lemma {:induction false} BookAllTotal(bs: seq<Bucket>, hour: nat, items: seq<Item>, cap: nat, f: Filter, d: Direction, exact: nat)
    requires exact == Total(bs, f, d) + Pending(items, hour, f, d)
    ensures Cap(Total(BookAll(bs, hour, items, cap), f, d), cap) == Cap(exact, cap)
  {
    if items != [] {
      var before, item := items[..|items| - 1], items[|items| - 1];
      PendingNext(items, hour, f, d);
      var less := exact - Share(f, hour, item, d);
      BookAllTotal(bs, hour, before, cap, f, d, less);
      BookedTotal(BookAll(bs, hour, before, cap), hour, item, cap, f, d, less);
    }
  }

  lemma {:induction false} BookAllName(bs: seq<Bucket>, hour: nat, items: seq<Item>, cap: nat, f: Filter)
    requires Ordered(bs) && f.key.Some? && f.lo <= hour && f.hi == hour
    ensures Ordered(BookAll(bs, hour, items, cap))
    ensures LastName(BookAll(bs, hour, items, cap), f) ==
            if PendingName(items, f.key.value).Some? then PendingName(items, f.key.value) else LastName(bs, f)
  {
    if items != [] {
      BookAllName(bs, hour, items[..|items| - 1], cap, f);
      var now := BookAll(bs, hour, items[..|items| - 1], cap);
      BookedIsOrdered(now, hour, items[|items| - 1], cap);
      BookedName(now, hour, items[|items| - 1], cap, f);
    }
  }

  ghost predicate FitsAt(bs: seq<Bucket>, hour: nat, items: seq<Item>, key: Key, d: Direction) {
    Total(bs, Filter(Some(key), hour, hour), d) + Pending(items, hour, Filter(Some(key), hour, hour), d) <= I64_MAX
  }

  /** The rows of this hour can take the pending bytes without leaving the SQL integer range. */
  ghost predicate Fits(bs: seq<Bucket>, hour: nat, items: seq<Item>) {
    forall key: Key, d: Direction :: FitsAt(bs, hour, items, key, d)
  }

  lemma {:induction false} BucketInTotal(bs: seq<Bucket>, n: nat, f: Filter, d: Direction)
    requires n < |bs| && Selects(f, bs[n].hour, bs[n].key)
    ensures Of(d, bs[n].up, bs[n].down) <= Total(bs, f, d)
  {
    if n < |bs| - 1 { BucketInTotal(bs[..|bs| - 1], n, f, d); }
  }

  /** Within range, booking is exact for every selection. */
  lemma BookedExactly(bs: seq<Bucket>, hour: nat, item: Item, f: Filter, d: Direction)
    requires forall e: Direction ::
               Total(bs, Filter(Some(item.key), hour, hour), e) + Of(e, item.up, item.down) <= I64_MAX
    ensures Total(Booked(bs, hour, item, REAL), f, d) == Total(bs, f, d) + Share(f, hour, item, d)
  {
    var n := Find(bs, hour, item.key);
    var own := Filter(Some(item.key), hour, hour);
    assert forall e: Direction :: Total(bs, own, e) + Of(e, item.up, item.down) <= I64_MAX;
    if n < |bs| {
      BucketInTotal(bs, n, own, Up);
      BucketInTotal(bs, n, own, Down);
      var b := Merged(bs[n], item, REAL);
      assert b.up == bs[n].up + item.up && b.down == bs[n].down + item.down;
      SplitAt(bs, n, b, f, d);
      One(b, f, d);
      One(bs[n], f, d);
    } else {
      assert Total(bs, own, Up) >= 0 && Total(bs, own, Down) >= 0;
      var b := Merged(Bucket(hour, item.key, item.name, 0, 0), item, REAL);
      assert b.up == item.up && b.down == item.down;
      InsertAt(bs, Place(bs, hour), b, f, d);
      One(b, f, d);
    }
  }

  lemma {:induction false} BookAllExactly(bs: seq<Bucket>, hour: nat, items: seq<Item>, f: Filter, d: Direction)
    requires Fits(bs, hour, items)
    ensures Total(BookAll(bs, hour, items, REAL), f, d) == Total(bs, f, d) + Pending(items, hour, f, d)
  {
    if items != [] {
      var before, item := items[..|items| - 1], items[|items| - 1];
      assert Fits(bs, hour, before) by {
        forall key: Key, e: Direction ensures FitsAt(bs, hour, before, key, e) {
          assert FitsAt(bs, hour, items, key, e);
        }
      }
      BookAllExactly(bs, hour, before, f, d);
      var now := BookAll(bs, hour, before, REAL);
      forall e: Direction
        ensures Total(now, Filter(Some(item.key), hour, hour), e) + Of(e, item.up, item.down) <= I64_MAX
      {
        var own := Filter(Some(item.key), hour, hour);
        BookAllExactly(bs, hour, before, own, e);
        assert FitsAt(bs, hour, items, item.key, e);
      }
      BookedExactly(now, hour, item, f, d);
    }
  }

  // ------------------------------------------------------------------ SQL storage

  /** A column holds a signed 64-bit integer, unless a sum left that range and turned to floating point. */
  predicate Readable(bs: seq<Bucket>) {
    forall i :: 0 <= i < |bs| ==> bs[i].up <= I64_MAX && bs[i].down <= I64_MAX
  }

  /** What is bound to a statement saturates. */
  function Clip(item: Item): Item {
    item.(up := Cap(item.up, I64_MAX), down := Cap(item.down, I64_MAX))
  }

  function Clipped(items: seq<Item>): (clipped: seq<Item>)
    ensures |clipped| == |items| && forall i :: 0 <= i < |items| ==> clipped[i] == Clip(items[i])
  {
    seq(|items|, i requires 0 <= i < |items| => Clip(items[i]))
  }

  /** The rows after one upsert for each item; a sum beyond the integer range stays unreadable. */
  function Upserted(rows: seq<Bucket>, hour: nat, items: seq<Item>): seq<Bucket> {
    BookAll(rows, hour, Clipped(items), REAL)
  }

  lemma {:induction false} ItemInPending(items: seq<Item>, n: nat, hour: nat, d: Direction)
    requires n < |items|
    ensures Of(d, items[n].up, items[n].down) <= Pending(items, hour, Filter(Some(items[n].key), hour, hour), d)
  {
    if n < |items| - 1 { ItemInPending(items[..|items| - 1], n, hour, d); }
  }

  lemma FittingIsUnclipped(bs: seq<Bucket>, hour: nat, items: seq<Item>)
    requires Fits(bs, hour, items)
    ensures Clipped(items) == items
  {
    forall i | 0 <= i < |items| ensures Clip(items[i]) == items[i] {
      assert FitsAt(bs, hour, items, items[i].key, Up) && FitsAt(bs, hour, items, items[i].key, Down);
      ItemInPending(items, i, hour, Up);
      ItemInPending(items, i, hour, Down);
    }
  }

  /** Within range, storing pending items adds exactly their bytes to every selection. */
  lemma UpsertedExactly(bs: seq<Bucket>, hour: nat, items: seq<Item>, f: Filter, d: Direction)
    requires Fits(bs, hour, items)
    ensures Total(Upserted(bs, hour, items), f, d) == Total(bs, f, d) + Pending(items, hour, f, d)
  {
    FittingIsUnclipped(bs, hour, items);
    BookAllExactly(bs, hour, items, f, d);
  }

  lemma {:induction false} NoneSelectedTotal(bs: seq<Bucket>, f: Filter)
    ensures LastName(bs, f).None? ==> Total(bs, f, Up) == 0 && Total(bs, f, Down) == 0
  {
    if bs != [] { NoneSelectedTotal(bs[..|bs| - 1], f); }
  }

  /** One device has at most one bucket an hour. */
  lemma {:induction false} SoleBucket(bs: seq<Bucket>, hour: nat, key: Key, d: Direction)
    requires Ordered(bs) && Readable(bs)
    ensures Total(bs, Filter(Some(key), hour, hour), d) <= I64_MAX
  {
    if bs != [] {
      var before, b, f := bs[..|bs| - 1], bs[|bs| - 1], Filter(Some(key), hour, hour);
      SoleBucket(before, hour, key, d);
      if Selects(f, b.hour, b.key) {
        NoneSelected(before, f);
        NoneSelectedTotal(before, f);
      }
    }
  }

  lemma {:induction false} OtherHourPending(items: seq<Item>, hour: nat, f: Filter, d: Direction)
    requires !(f.lo <= hour <= f.hi)
    ensures Pending(items, hour, f, d) == 0
  {
    if items != [] { OtherHourPending(items[..|items| - 1], hour, f, d); }
  }

  /** Within range, every row stays readable. */
  lemma FittingStaysReadable(rows: seq<Bucket>, hour: nat, items: seq<Item>)
    requires Ordered(rows) && Readable(rows) && Fits(rows, hour, items)
    ensures Readable(Upserted(rows, hour, items))
  {
    var bs := Upserted(rows, hour, items);
    forall i, d: Direction | 0 <= i < |bs| ensures Of(d, bs[i].up, bs[i].down) <= I64_MAX {
      var f := Filter(Some(bs[i].key), bs[i].hour, bs[i].hour);
      BucketInTotal(bs, i, f, d);
      UpsertedExactly(rows, hour, items, f, d);
      SoleBucket(rows, bs[i].hour, bs[i].key, d);
      assert FitsAt(rows, hour, items, bs[i].key, d);
      if bs[i].hour != hour { OtherHourPending(items, hour, f, d); }
    }
    forall i | 0 <= i < |bs| ensures bs[i].up <= I64_MAX && bs[i].down <= I64_MAX {
      assert Of(Up, bs[i].up, bs[i].down) <= I64_MAX && Of(Down, bs[i].up, bs[i].down) <= I64_MAX;
    }
  }

  // --------------------------------------------------------- loading and pruning

  /** The buckets of an inclusive range of hours, in order. */
  function Keep(bs: seq<Bucket>, lo: nat, hi: Option<nat>): seq<Bucket> {
    if bs == [] then []
    else
      var b := bs[|bs| - 1];
      Keep(bs[..|bs| - 1], lo, hi) + if lo <= b.hour && (hi.Some? ==> b.hour <= hi.value) then [b] else []
  }

  lemma TotalNext(bs: seq<Bucket>, b: Bucket, f: Filter, d: Direction)
    ensures Total(bs + [b], f, d) == Total(bs, f, d) + if Selects(f, b.hour, b.key) then Of(d, b.up, b.down) else 0
    ensures LastName(bs + [b], f) == if Selects(f, b.hour, b.key) then Some(b.name) else LastName(bs, f)
  {
    assert (bs + [b])[..|bs|] == bs;
  }

  /** Selections inside the range see no difference. */
  lemma KeepLast(bs: seq<Bucket>, lo: nat, hi: Option<nat>)
    requires bs != []
    ensures var before, b := bs[..|bs| - 1], bs[|bs| - 1];
            Keep(bs, lo, hi) == if lo <= b.hour && (hi.Some? ==> b.hour <= hi.value) then Keep(before, lo, hi) + [b] else Keep(before, lo, hi)
  {
    var before := bs[..|bs| - 1];
    assert Keep(before, lo, hi) + [] == Keep(before, lo, hi);
  }

  lemma {:induction false} KeepTotal(bs: seq<Bucket>, lo: nat, hi: Option<nat>, f: Filter, d: Direction)
    requires lo <= f.lo && (hi.Some? ==> f.hi <= hi.value)
    ensures Total(Keep(bs, lo, hi), f, d) == Total(bs, f, d)
  {
    if bs != [] {
      var before, b := bs[..|bs| - 1], bs[|bs| - 1];
      KeepTotal(before, lo, hi, f, d);
      KeepLast(bs, lo, hi);
      TotalNext(Keep(before, lo, hi), b, f, d);
    }
  }

  lemma {:induction false} KeepName(bs: seq<Bucket>, lo: nat, hi: Option<nat>, f: Filter)
    requires lo <= f.lo && (hi.Some? ==> f.hi <= hi.value)
    ensures LastName(Keep(bs, lo, hi), f) == LastName(bs, f)
  {
    if bs != [] {
      var before, b := bs[..|bs| - 1], bs[|bs| - 1];
      KeepName(before, lo, hi, f);
      KeepLast(bs, lo, hi);
      TotalNext(Keep(before, lo, hi), b, f, Up);
    }
  }

  lemma {:induction false} KeepIsOrdered(bs: seq<Bucket>, lo: nat, hi: Option<nat>)
    requires Ordered(bs)
    ensures Ordered(Keep(bs, lo, hi)) && (hi.Some? ==> UpTo(Keep(bs, lo, hi), hi.value))
    ensures forall b :: b in Keep(bs, lo, hi) ==> b in bs
  {
    if bs != [] {
      KeepIsOrdered(bs[..|bs| - 1], lo, hi);
      var kept := Keep(bs[..|bs| - 1], lo, hi);
      forall i | 0 <= i < |kept|
        ensures kept[i].hour <= bs[|bs| - 1].hour && !(kept[i].hour == bs[|bs| - 1].hour && kept[i].key == bs[|bs| - 1].key)
      {
        assert kept[i] in bs[..|bs| - 1];
      }
    }
  }

  // -------------------------------------------------------------------- reports

  const SECONDS_PER_HOUR: nat := 3600

  datatype Totals = Totals(up: nat, down: nat)
  datatype Point = Point(hour: nat, up: nat, down: nat)
  datatype Summary = Summary(name: string, up: nat, down: nat)
  datatype Report = Report(hour: Totals, day: Totals, week: Totals, hourly: seq<Point>, devices: map<Key, Summary>)

  function Add(t: Totals, b: Bucket): Totals {
    Totals(Clamp(t.up + b.up), Clamp(t.down + b.down))
  }

  ghost function Sums(bs: seq<Bucket>, f: Filter): Totals {
    Totals(Clamp(Total(bs, f, Up)), Clamp(Total(bs, f, Down)))
  }

  ghost predicate PointAt(points: seq<Point>, bs: seq<Bucket>, start: nat, j: nat)
    requires j < |points|
  {
    var t := Sums(bs, Filter(None, start + j, start + j));
    points[j] == Point((start + j) * SECONDS_PER_HOUR, t.up, t.down)
  }

  ghost predicate Hourly(points: seq<Point>, bs: seq<Bucket>, start: nat, current: nat) {
    && |points| == current - start + 1
    && forall j :: 0 <= j < |points| ==> PointAt(points, bs, start, j)
  }

  ghost predicate DeviceAt(devices: map<Key, Summary>, bs: seq<Bucket>, start: nat, current: nat, k: Key) {
    var f := Filter(Some(k), start, current);
    && (k in devices <==> LastName(bs, f).Some?)
    && (k in devices ==> devices[k] == Summary(LastName(bs, f).value, Sums(bs, f).up, Sums(bs, f).down))
  }

  ghost predicate PerDevice(devices: map<Key, Summary>, bs: seq<Bucket>, start: nat, current: nat) {
    forall k :: DeviceAt(devices, bs, start, current, k)
  }

  /** What a report over `bs` says, bucket order and loop aside. */
  ghost predicate Reports(r: Report, bs: seq<Bucket>, start: nat, current: nat)
    requires start <= current
  {
    && r.hour == Sums(bs, Filter(None, current, current))
    && r.day == Sums(bs, Filter(None, Back(current, 23), current))
    && r.week == Sums(bs, Filter(None, Back(current, 167), current))
    && Hourly(r.hourly, bs, start, current)
    && PerDevice(r.devices, bs, start, current)
  }

  /** One more bucket adds to a saturating total as it does to the exact one. */
  lemma SumsNext(bs: seq<Bucket>, n: nat, f: Filter)
    requires n < |bs|
    ensures Sums(bs[..n + 1], f) == if Selects(f, bs[n].hour, bs[n].key) then Add(Sums(bs[..n], f), bs[n]) else Sums(bs[..n], f)
  {
    assert bs[..n + 1][..n] == bs[..n];
  }

  lemma NameNext(bs: seq<Bucket>, n: nat, f: Filter)
    requires n < |bs|
    ensures LastName(bs[..n + 1], f) == if Selects(f, bs[n].hour, bs[n].key) then Some(bs[n].name) else LastName(bs[..n], f)
  {
    assert bs[..n + 1][..n] == bs[..n];
  }

  method AddToHour(points: seq<Point>, bs: seq<Bucket>, n: nat, start: nat, current: nat) returns (next: seq<Point>)
    requires start <= current && n < |bs| && Hourly(points, bs[..n], start, current) && bs[n].hour <= current
    ensures Hourly(next, bs[..n + 1], start, current)
  {
    next := points;
    if bs[n].hour >= start {
      var j := bs[n].hour - start;
      next := points[j := Point(points[j].hour, Clamp(points[j].up + bs[n].up), Clamp(points[j].down + bs[n].down))];
    }
    ghost var seen := bs[..n + 1];
    forall j | 0 <= j < |next| ensures PointAt(next, seen, start, j) {
      assert PointAt(points, bs[..n], start, j);
      SumsNext(bs, n, Filter(None, start + j, start + j));
    }
  }

  method AddToDevice(devices: map<Key, Summary>, bs: seq<Bucket>, n: nat, start: nat, current: nat)
    returns (next: map<Key, Summary>)
    requires n < |bs| && PerDevice(devices, bs[..n], start, current) && bs[n].hour <= current
    ensures PerDevice(next, bs[..n + 1], start, current)
  {
    next := devices;
    var b := bs[n];
    if b.hour >= start {
      NoneSelectedTotal(bs[..n], Filter(Some(b.key), start, current));
      var device := if b.key in devices then devices[b.key] else Summary(b.name, 0, 0);
      next := devices[b.key := Summary(b.name, Clamp(device.up + b.up), Clamp(device.down + b.down))];
    }
    ghost var seen := bs[..n + 1];
    forall k: Key ensures DeviceAt(next, seen, start, current, k) {
      assert DeviceAt(devices, bs[..n], start, current, k);
      SumsNext(bs, n, Filter(Some(k), start, current));
      NameNext(bs, n, Filter(Some(k), start, current));
    }
  }

  /** Buckets after the current hour appear nowhere. */
  lemma Later(points: seq<Point>, devices: map<Key, Summary>, bs: seq<Bucket>, n: nat, start: nat, current: nat)
    requires start <= current && n < |bs| && bs[n].hour > current
    requires Hourly(points, bs[..n], start, current) && PerDevice(devices, bs[..n], start, current)
    ensures Hourly(points, bs[..n + 1], start, current) && PerDevice(devices, bs[..n + 1], start, current)
  {
    var seen := bs[..n + 1];
    forall j | 0 <= j < |points| ensures PointAt(points, seen, start, j) {
      assert PointAt(points, bs[..n], start, j);
      SumsNext(bs, n, Filter(None, start + j, start + j));
    }
    forall k: Key ensures DeviceAt(devices, seen, start, current, k) {
      assert DeviceAt(devices, bs[..n], start, current, k);
      SumsNext(bs, n, Filter(Some(k), start, current));
      NameNext(bs, n, Filter(Some(k), start, current));
    }
  }

  method BuildReport(current: nat, start: nat, buckets: seq<Bucket>) returns (r: Report)
    requires start <= current
    ensures Reports(r, buckets, start, current)
  {
    var hourly := seq(current - start + 1, j requires 0 <= j => Point((start + j) * SECONDS_PER_HOUR, 0, 0));
    var devices: map<Key, Summary> := map[];
    var hour, day, week := Totals(0, 0), Totals(0, 0), Totals(0, 0);
    for n := 0 to |buckets|
      invariant hour == Sums(buckets[..n], Filter(None, current, current))
      invariant day == Sums(buckets[..n], Filter(None, Back(current, 23), current))
      invariant week == Sums(buckets[..n], Filter(None, Back(current, 167), current))
      invariant Hourly(hourly, buckets[..n], start, current)
      invariant PerDevice(devices, buckets[..n], start, current)
    {
      SumsNext(buckets, n, Filter(None, current, current));
      SumsNext(buckets, n, Filter(None, Back(current, 23), current));
      SumsNext(buckets, n, Filter(None, Back(current, 167), current));
      var b := buckets[n];
      var age := Back(current, b.hour);
      if b.hour > current {
        Later(hourly, devices, buckets, n, start, current);
        continue;
      }
      if age < 168 { week := Add(week, b); }
      if age < 24 { day := Add(day, b); }
      if age == 0 { hour := Add(hour, b); }
      hourly := AddToHour(hourly, buckets, n, start, current);
      devices := AddToDevice(devices, buckets, n, start, current);
    }
    assert buckets[..|buckets|] == buckets;
    r := Report(hour, day, week, hourly, devices);
  }

  // ------------------------------------------------------- flushing is invisible

  method MergeOne(buckets: seq<Bucket>, hour: nat, item: Item) returns (next: seq<Bucket>)
    requires UpTo(buckets, hour)
    ensures next == Booked(buckets, hour, item, U64_MAX)
  {
    var found := 0;
    while found < |buckets| && !(buckets[found].hour == hour && buckets[found].key == item.key)
      invariant 0 <= found <= |buckets|
      invariant forall i :: 0 <= i < found ==> !(buckets[i].hour == hour && buckets[i].key == item.key)
    {
      found := found + 1;
    }
    assert found == Find(buckets, hour, item.key) && Place(buckets, hour) == |buckets|;
    if found < |buckets| {
      var b := buckets[found];
      next := buckets[found := Bucket(b.hour, b.key, item.name, Clamp(b.up + item.up), Clamp(b.down + item.down))];
    } else {
      next := buckets + [Bucket(hour, item.key, item.name, Clamp(item.up), Clamp(item.down))];
    }
  }

  /** Adds live counters to loaded buckets, so that a report includes them. */
  method MergePending(loaded: seq<Bucket>, hour: nat, pending: seq<Item>) returns (buckets: seq<Bucket>)
    requires UpTo(loaded, hour)
    ensures buckets == BookAll(loaded, hour, pending, U64_MAX)
  {
    buckets := loaded;
    for n := 0 to |pending|
      invariant UpTo(buckets, hour) && buckets == BookAll(loaded, hour, pending[..n], U64_MAX)
    {
      assert pending[..n + 1][..n] == pending[..n];
      BookedUpTo(buckets, hour, pending[n], U64_MAX);
      buckets := MergeOne(buckets, hour, pending[n]);
    }
    assert pending[..|pending|] == pending;
  }

  /** The stored rows after a flush at `hour`: nothing pending means nothing done. */
  function Flushed(rows: seq<Bucket>, hour: nat, items: seq<Item>): seq<Bucket> {
    if items == [] then rows
    else Keep(Upserted(rows, hour, items), Back(hour, RETENTION_HOURS), None)
  }

  /** A transaction that commits: one upsert for each item, then the pruning of aged rows. */
  method PersistPending(rows: seq<Bucket>, hour: nat, pending: seq<Item>) returns (stored: seq<Bucket>)
    ensures stored == Flushed(rows, hour, pending)
  {
    stored := rows;
    if pending == [] { return; }
    for n := 0 to |pending|
      invariant stored == Upserted(rows, hour, pending[..n])
    {
      assert Clipped(pending[..n + 1])[..n] == Clipped(pending[..n]);
      stored := Booked(stored, hour, Clip(pending[n]), REAL);
    }
    assert pending[..|pending|] == pending;
    stored := Keep(stored, Back(hour, RETENTION_HOURS), None);
  }

  function QueryHours(hours: nat): (h: nat)
    ensures 1 <= h <= MAX_QUERY_HOURS
  {
    if hours < 1 then 1 else if hours > MAX_QUERY_HOURS then MAX_QUERY_HOURS else hours
  }

  function SeriesStart(hours: nat, current: nat): nat { Back(current, QueryHours(hours) - 1) }

  function QueryStart(hours: nat, current: nat): nat {
    if SeriesStart(hours, current) < Back(current, 167) then SeriesStart(hours, current) else Back(current, 167)
  }

  lemma FlushKeepsSums(rows: seq<Bucket>, current: nat, items: seq<Item>, query: nat, f: Filter)
    requires Fits(rows, current, items) && Back(current, RETENTION_HOURS) <= query <= f.lo && f.hi <= current
    ensures Sums(BookAll(Keep(rows, query, Some(current)), current, items, U64_MAX), f) ==
            Sums(Keep(Flushed(rows, current, items), query, Some(current)), f)
  {
    var loaded := Keep(rows, query, Some(current));
    forall d: Direction
      ensures Clamp(Total(BookAll(loaded, current, items, U64_MAX), f, d)) ==
              Clamp(Total(Keep(Flushed(rows, current, items), query, Some(current)), f, d))
    {
      KeepTotal(rows, query, Some(current), f, d);
      BookAllTotal(loaded, current, items, U64_MAX, f, d, Total(loaded, f, d) + Pending(items, current, f, d));
      KeepTotal(Flushed(rows, current, items), query, Some(current), f, d);
      if items != [] {
        UpsertedExactly(rows, current, items, f, d);
        KeepTotal(Upserted(rows, current, items), Back(current, RETENTION_HOURS), None, f, d);
      }
    }
  }

  lemma {:induction false} ClippedName(items: seq<Item>, key: Key)
    ensures PendingName(Clipped(items), key) == PendingName(items, key)
  {
    if items != [] {
      assert Clipped(items)[..|items| - 1] == Clipped(items[..|items| - 1]);
      ClippedName(items[..|items| - 1], key);
    }
  }

  lemma FlushKeepsNames(rows: seq<Bucket>, current: nat, items: seq<Item>, query: nat, f: Filter)
    requires Ordered(rows) && Back(current, RETENTION_HOURS) <= query <= f.lo <= f.hi == current && f.key.Some?
    ensures LastName(BookAll(Keep(rows, query, Some(current)), current, items, U64_MAX), f) ==
            LastName(Keep(Flushed(rows, current, items), query, Some(current)), f)
  {
    KeepIsOrdered(rows, query, Some(current));
    KeepName(rows, query, Some(current), f);
    BookAllName(Keep(rows, query, Some(current)), current, items, U64_MAX, f);
    KeepName(Flushed(rows, current, items), query, Some(current), f);
    if items != [] {
      BookAllName(rows, current, Clipped(items), REAL, f);
      ClippedName(items, f.key.value);
      KeepName(Upserted(rows, current, items), Back(current, RETENTION_HOURS), None, f);
    }
  }

  /** Two histories that agree on every selection a report makes have the same report. */
  lemma ReportsAgree(r: Report, q: Report, bs: seq<Bucket>, cs: seq<Bucket>, start: nat, current: nat)
    requires start <= current && Reports(r, bs, start, current) && Reports(q, cs, start, current)
    requires Sums(bs, Filter(None, Back(current, 23), current)) == Sums(cs, Filter(None, Back(current, 23), current))
    requires Sums(bs, Filter(None, Back(current, 167), current)) == Sums(cs, Filter(None, Back(current, 167), current))
    requires forall h: nat :: start <= h <= current ==> Sums(bs, Filter(None, h, h)) == Sums(cs, Filter(None, h, h))
    requires forall k: Key :: Sums(bs, Filter(Some(k), start, current)) == Sums(cs, Filter(Some(k), start, current))
    requires forall k: Key :: LastName(bs, Filter(Some(k), start, current)) == LastName(cs, Filter(Some(k), start, current))
    ensures r == q
  {
    forall j | 0 <= j < |r.hourly| ensures r.hourly[j] == q.hourly[j] {
      assert PointAt(r.hourly, bs, start, j) && PointAt(q.hourly, cs, start, j);
    }
    assert r.hourly == q.hourly;
    forall k: Key
      ensures k in r.devices <==> k in q.devices
      ensures k in r.devices ==> r.devices[k] == q.devices[k]
    {
      assert DeviceAt(r.devices, bs, start, current, k) && DeviceAt(q.devices, cs, start, current, k);
    }
    assert r.devices == q.devices;
  }

  /** What a report loads before a flush and merges with the pending counters, and what it loads after it. */
  function LoadedBefore(rows: seq<Bucket>, current: nat, items: seq<Item>, hours: nat): seq<Bucket> {
    BookAll(Keep(rows, QueryStart(hours, current), Some(current)), current, items, U64_MAX)
  }

  function LoadedAfter(rows: seq<Bucket>, current: nat, items: seq<Item>, hours: nat): seq<Bucket> {
    Keep(Flushed(rows, current, items), QueryStart(hours, current), Some(current))
  }

  lemma FlushedIsOrdered(rows: seq<Bucket>, current: nat, items: seq<Item>)
    requires Ordered(rows)
    ensures Ordered(Flushed(rows, current, items))
  {
    if items != [] {
      BookAllName(rows, current, Clipped(items), REAL, Filter(Some(""), current, current));
      KeepIsOrdered(Upserted(rows, current, items), Back(current, RETENTION_HOURS), None);
    }
  }

  lemma {:induction false} KeepIsReadable(bs: seq<Bucket>, lo: nat, hi: Option<nat>)
    requires Readable(bs)
    ensures Readable(Keep(bs, lo, hi))
  {
    if bs != [] { KeepIsReadable(bs[..|bs| - 1], lo, hi); }
  }

  lemma SameReport(rows: seq<Bucket>, current: nat, items: seq<Item>, hours: nat, before: Report, after: Report)
    requires Ordered(rows) && Fits(rows, current, items)
    requires Reports(before, LoadedBefore(rows, current, items, hours), SeriesStart(hours, current), current)
    requires Reports(after, LoadedAfter(rows, current, items, hours), SeriesStart(hours, current), current)
    ensures before == after
  {
    var query, start := QueryStart(hours, current), SeriesStart(hours, current);
    var bs, cs := LoadedBefore(rows, current, items, hours), LoadedAfter(rows, current, items, hours);
    FlushKeepsSums(rows, current, items, query, Filter(None, Back(current, 23), current));
    FlushKeepsSums(rows, current, items, query, Filter(None, Back(current, 167), current));
    forall h: nat | start <= h <= current ensures Sums(bs, Filter(None, h, h)) == Sums(cs, Filter(None, h, h)) {
      FlushKeepsSums(rows, current, items, query, Filter(None, h, h));
    }
    forall k: Key
      ensures Sums(bs, Filter(Some(k), start, current)) == Sums(cs, Filter(Some(k), start, current))
      ensures LastName(bs, Filter(Some(k), start, current)) == LastName(cs, Filter(Some(k), start, current))
    {
      FlushKeepsSums(rows, current, items, query, Filter(Some(k), start, current));
      FlushKeepsNames(rows, current, items, query, Filter(Some(k), start, current));
    }
    ReportsAgree(before, after, bs, cs, start, current);
  }

  /**
   * While row sums stay within SQL integers, the rows can be read after a flush, and the report
   * is the one of before, whose counters were pending: totals, hourly series and every device.
   */
  lemma FlushIsInvisible(rows: seq<Bucket>, current: nat, items: seq<Item>, hours: nat, before: Report, after: Report)
    requires Ordered(rows) && Readable(rows) && Fits(rows, current, items)
    requires Reports(before, LoadedBefore(rows, current, items, hours), SeriesStart(hours, current), current)
    requires Reports(after, LoadedAfter(rows, current, items, hours), SeriesStart(hours, current), current)
    ensures Readable(LoadedAfter(rows, current, items, hours)) && before == after
  {
    FittingStaysReadable(rows, current, items);
    KeepIsReadable(Upserted(rows, current, items), Back(current, RETENTION_HOURS), None);
    KeepIsReadable(Flushed(rows, current, items), QueryStart(hours, current), Some(current));
    SameReport(rows, current, items, hours, before, after);
  }

  lemma LoadingLosesNothing(rows: seq<Bucket>, loaded: seq<Bucket>, current: nat, items: seq<Item>, query: nat, f: Filter, d: Direction)
    requires query <= f.lo && f.hi <= current && loaded == Keep(rows, query, Some(current))
    ensures Clamp(Total(BookAll(loaded, current, items, U64_MAX), f, d)) == Clamp(Total(rows, f, d) + Pending(items, current, f, d))
  {
    KeepTotal(rows, query, Some(current), f, d);
    BookAllTotal(loaded, current, items, U64_MAX, f, d, Total(rows, f, d) + Pending(items, current, f, d));
  }

  /** Before a flush, a report shows more of a selection than an SQL integer holds, if there is more. */
  lemma ShownBefore(rows: seq<Bucket>, loaded: seq<Bucket>, current: nat, items: seq<Item>, query: nat, f: Filter, d: Direction)
    requires query <= f.lo && f.hi <= current && loaded == Keep(rows, query, Some(current))
    requires Total(rows, f, d) + Pending(items, current, f, d) > I64_MAX
    ensures Clamp(Total(BookAll(loaded, current, items, U64_MAX), f, d)) > I64_MAX
  {
    LoadingLosesNothing(rows, loaded, current, items, query, f, d);
  }

  /** After it, no more than an SQL integer. */
  lemma ShownAfter(rows: seq<Bucket>, current: nat, items: seq<Item>, query: nat, key: Key, d: Direction)
    requires Ordered(rows) && Readable(Keep(Flushed(rows, current, items), query, Some(current)))
    ensures Total(Keep(Flushed(rows, current, items), query, Some(current)), Filter(Some(key), current, current), d) <= I64_MAX
  {
    FlushedIsOrdered(rows, current, items);
    KeepIsOrdered(Flushed(rows, current, items), query, Some(current));
    SoleBucket(Keep(Flushed(rows, current, items), query, Some(current)), current, key, d);
  }

  lemma DevicesDiffer(r: Report, q: Report, bs: seq<Bucket>, cs: seq<Bucket>, hour: nat, key: Key, d: Direction)
    requires PerDevice(r.devices, bs, hour, hour) && PerDevice(q.devices, cs, hour, hour)
    requires var f := Filter(Some(key), hour, hour); Clamp(Total(bs, f, d)) > I64_MAX >= Total(cs, f, d)
    ensures r != q
  {
    assert DeviceAt(r.devices, bs, hour, hour, key) && DeviceAt(q.devices, cs, hour, hour, key);
    NoneSelectedTotal(bs, Filter(Some(key), hour, hour));
  }

  lemma BookOne(bs: seq<Bucket>, hour: nat, item: Item, cap: nat)
    ensures BookAll(bs, hour, [item], cap) == Booked(bs, hour, item, cap)
  {
    assert [item][..0] == [];
  }

  lemma KeepOne(b: Bucket, lo: nat, hi: Option<nat>)
    requires lo <= b.hour && (hi.Some? ==> b.hour <= hi.value)
    ensures Keep([b], lo, hi) == [b]
  {
    assert [b][..0] == [];
  }

  function Least(a: nat, b: nat): nat { if a < b then a else b }

  /** A device's first item of an hour makes a row of its bytes, each amount cut at 2^63 - 1. */
  lemma FirstRow(hour: nat, item: Item)
    ensures Upserted([], hour, [item]) ==
            [Bucket(hour, item.key, item.name, Least(item.up, 0x7fff_ffff_ffff_ffff), Least(item.down, 0x7fff_ffff_ffff_ffff))]
  {
    assert Clipped([item]) == [Clip(item)];
    BookOne([], hour, Clip(item), REAL);
  }

  /** One more byte than a row can hold makes it unreadable, and with it every report of that hour. */
  lemma OverflowIsUnreadable(hour: nat, key: Key, name: string, hours: nat)
    ensures !Readable(LoadedAfter([Bucket(hour, key, name, I64_MAX, 0)], hour, [Item(key, name, 1, 0)], hours))
  {
    var row, item := Bucket(hour, key, name, I64_MAX, 0), Item(key, name, 1, 0);
    var full := Merged(row, item, REAL);
    assert Clipped([item]) == [item];
    BookOne([row], hour, item, REAL);
    assert Find([row], hour, key) == 0 && Booked([row], hour, item, REAL) == [full];
    KeepOne(full, Back(hour, RETENTION_HOURS), None);
    KeepOne(full, QueryStart(hours, hour), Some(hour));
  }

  /** Asked for the current hour alone, a report shows the flush exactly when some sum leaves the SQL integer range. */
  lemma FlushIsInvisibleIffItFits(rows: seq<Bucket>, current: nat, items: seq<Item>, hours: nat, before: Report, after: Report)
    requires Ordered(rows) && Readable(rows) && QueryHours(hours) == 1
    requires Reports(before, LoadedBefore(rows, current, items, hours), current, current)
    requires Reports(after, LoadedAfter(rows, current, items, hours), current, current)
    ensures Readable(LoadedAfter(rows, current, items, hours)) && before == after <==> Fits(rows, current, items)
  {
    if Fits(rows, current, items) {
      FlushIsInvisible(rows, current, items, hours, before, after);
    } else if Readable(LoadedAfter(rows, current, items, hours)) {
      var key: Key, d: Direction :| !FitsAt(rows, current, items, key, d);
      ShownBefore(rows, Keep(rows, QueryStart(hours, current), Some(current)), current, items, QueryStart(hours, current),
                  Filter(Some(key), current, current), d);
      ShownAfter(rows, current, items, QueryStart(hours, current), key, d);
      DevicesDiffer(before, after, LoadedBefore(rows, current, items, hours), LoadedAfter(rows, current, items, hours), current, key, d);
    }
  }

  // ---------------------------------------------------- what a report is about

  lemma {:induction false} KeepMembers(bs: seq<Bucket>, lo: nat, hi: Option<nat>, b: Bucket)
    ensures b in Keep(bs, lo, hi) <==> b in bs && lo <= b.hour && (hi.Some? ==> b.hour <= hi.value)
  {
    if bs != [] {
      var before, last := bs[..|bs| - 1], bs[|bs| - 1];
      KeepMembers(before, lo, hi, b);
      KeepLast(bs, lo, hi);
      assert b in bs <==> b in before || b == last;
    }
  }

  lemma OtherHourStays(bs: seq<Bucket>, hour: nat, item: Item, cap: nat, b: Bucket)
    requires b.hour != hour
    ensures b in Booked(bs, hour, item, cap) <==> b in bs
  {
    var n, place := Find(bs, hour, item.key), Place(bs, hour);
    if n < |bs| {
      assert bs == bs[..n] + [bs[n]] + bs[n + 1..] && Booked(bs, hour, item, cap) == bs[..n] + [Merged(bs[n], item, cap)] + bs[n + 1..];
    } else {
      assert bs == bs[..place] + bs[place..];
    }
  }

  lemma {:induction false} OtherHoursStay(bs: seq<Bucket>, hour: nat, items: seq<Item>, cap: nat, b: Bucket)
    requires b.hour != hour
    ensures b in BookAll(bs, hour, items, cap) <==> b in bs
  {
    if items != [] {
      OtherHoursStay(bs, hour, items[..|items| - 1], cap, b);
      OtherHourStays(BookAll(bs, hour, items[..|items| - 1], cap), hour, items[|items| - 1], cap, b);
    }
  }

  /** A flush drops exactly the rows of other hours that are more than 400 days old. */
  lemma PrunesExactly(rows: seq<Bucket>, hour: nat, items: seq<Item>, b: Bucket)
    requires items != [] && b.hour != hour
    ensures b in Flushed(rows, hour, items) <==> b in rows && b.hour + 9600 >= hour
  {
    KeepMembers(Upserted(rows, hour, items), Back(hour, RETENTION_HOURS), None, b);
    OtherHoursStay(rows, hour, Clipped(items), REAL, b);
  }

  /** A report covers the hours asked for, at least one and at most 31 days of them, back to the first. */
  lemma SeriesExactly(r: Report, bs: seq<Bucket>, hours: nat, current: nat)
    requires Reports(r, bs, SeriesStart(hours, current), current)
    ensures |r.hourly| == Least(current + 1, if hours == 0 then 1 else Least(hours, 744))
    ensures forall j :: 0 <= j < |r.hourly| ==> r.hourly[j].hour == (current + 1 - |r.hourly| + j) * 3600
  {
    var start := SeriesStart(hours, current);
    forall j | 0 <= j < |r.hourly| ensures r.hourly[j].hour == (start + j) * 3600 {
      assert PointAt(r.hourly, bs, start, j);
    }
  }

  /** The bytes of one direction that a report gives for a selection it makes. */
  ghost predicate Gives(r: Report, start: nat, current: nat, f: Filter, d: Direction, bytes: nat) {
    && (f == Filter(None, current, current) ==> bytes == Of(d, r.hour.up, r.hour.down))
    && (f == Filter(None, Back(current, 23), current) ==> bytes == Of(d, r.day.up, r.day.down))
    && (f == Filter(None, Back(current, 167), current) ==> bytes == Of(d, r.week.up, r.week.down))
    && (f.key.Some? && f.lo == start && f.hi == current ==>
          bytes == if f.key.value in r.devices then Of(d, r.devices[f.key.value].up, r.devices[f.key.value].down) else 0)
  }

  lemma ReportGives(r: Report, bs: seq<Bucket>, start: nat, current: nat, f: Filter, d: Direction)
    requires start <= current && Reports(r, bs, start, current)
    ensures Gives(r, start, current, f, d, Clamp(Total(bs, f, d)))
  {
    if f.key.Some? && f.lo == start && f.hi == current {
      assert DeviceAt(r.devices, bs, start, current, f.key.value);
      NoneSelectedTotal(bs, f);
    }
  }

  /**
   * Although only a range is loaded, a report says what the whole store and the pending
   * counters hold: this hour, the last 24 and the last 168 hours, and each device of the series.
   */
  lemma ReportIsOfTheStore(rows: seq<Bucket>, current: nat, items: seq<Item>, hours: nat, r: Report, f: Filter, d: Direction)
    requires Reports(r, LoadedBefore(rows, current, items, hours), SeriesStart(hours, current), current)
    requires QueryStart(hours, current) <= f.lo && f.hi == current
    ensures var bytes := Clamp(Total(rows, f, d) + Pending(items, current, f, d));
            && (f == Filter(None, current, current) ==> bytes == Of(d, r.hour.up, r.hour.down))
            && (f == Filter(None, Back(current, 23), current) ==> bytes == Of(d, r.day.up, r.day.down))
            && (f == Filter(None, Back(current, 167), current) ==> bytes == Of(d, r.week.up, r.week.down))
            && (f.key.Some? && f.lo == SeriesStart(hours, current) ==>
                  bytes == if f.key.value in r.devices then Of(d, r.devices[f.key.value].up, r.devices[f.key.value].down) else 0)
    ensures QueryStart(hours, current) <= Back(current, 167) && QueryStart(hours, current) <= SeriesStart(hours, current)
  {
    var query := QueryStart(hours, current);
    ReportGives(r, LoadedBefore(rows, current, items, hours), SeriesStart(hours, current), current, f, d);
    LoadingLosesNothing(rows, Keep(rows, query, Some(current)), current, items, query, f, d);
  }

  // ----------------------------------------------------------- reports add up

  ghost function SumOver(keys: set<Key>, g: Key -> nat): nat {
    if keys == {} then 0 else var k :| k in keys; g(k) + SumOver(keys - {k}, g)
  }

  /** Changing one summand by `n` changes the sum by `n`. */
  lemma {:induction false} SumOverChange(keys: set<Key>, g: Key -> nat, h: Key -> nat, at: Key, n: nat)
    requires forall k :: k in keys ==> h(k) == g(k) + if k == at then n else 0
    ensures SumOver(keys, h) == SumOver(keys, g) + if at in keys then n else 0
  {
    if keys != {} {
      var k :| k in keys && SumOver(keys, h) == h(k) + SumOver(keys - {k}, h) && SumOver(keys, g) == g(k) + SumOver(keys - {k}, g);
      SumOverChange(keys - {k}, g, h, at, n);
    }
  }

  lemma {:induction false} AllZero(keys: set<Key>)
    ensures SumOver(keys, _ => 0) == 0
  {
    if keys != {} {
      var k :| k in keys && SumOver(keys, _ => 0) == SumOver(keys - {k}, _ => 0);
      AllZero(keys - {k});
    }
  }

  lemma {:induction false} DevicesPartition(bs: seq<Bucket>, keys: set<Key>, start: nat, current: nat, d: Direction)
    requires forall i :: 0 <= i < |bs| && start <= bs[i].hour <= current ==> bs[i].key in keys
    ensures SumOver(keys, k => Total(bs, Filter(Some(k), start, current), d)) == Total(bs, Filter(None, start, current), d)
  {
    if bs == [] {
      SumOverChange(keys, _ => 0, k => Total(bs, Filter(Some(k), start, current), d), "", 0);
      AllZero(keys);
    } else {
      var before, b := bs[..|bs| - 1], bs[|bs| - 1];
      DevicesPartition(before, keys, start, current, d);
      var n := if start <= b.hour <= current then Of(d, b.up, b.down) else 0;
      SumOverChange(keys, k => Total(before, Filter(Some(k), start, current), d),
                    k => Total(bs, Filter(Some(k), start, current), d), b.key, n);
    }
  }

  ghost function SumPoints(points: seq<Point>, d: Direction): nat {
    if points == [] then 0
    else SumPoints(points[..|points| - 1], d) + Of(d, points[|points| - 1].up, points[|points| - 1].down)
  }

  lemma {:induction false} RangeSplits(bs: seq<Bucket>, start: nat, last: nat, d: Direction)
    requires start < last
    ensures Total(bs, Filter(None, start, last), d) ==
            Total(bs, Filter(None, start, last - 1), d) + Total(bs, Filter(None, last, last), d)
  {
    if bs != [] { RangeSplits(bs[..|bs| - 1], start, last, d); }
  }

  lemma {:induction false} HoursPartition(points: seq<Point>, bs: seq<Bucket>, start: nat, last: nat, d: Direction)
    requires start <= last && Hourly(points, bs, start, last) && Total(bs, Filter(None, start, last), d) <= U64_MAX
    ensures SumPoints(points, d) == Total(bs, Filter(None, start, last), d)
  {
    assert PointAt(points, bs, start, last - start);
    if start == last {
      assert points[..0] == [];
    } else {
      RangeSplits(bs, start, last, d);
      var fewer := points[..|points| - 1];
      forall j | 0 <= j < |fewer| ensures PointAt(fewer, bs, start, j) {
        assert PointAt(points, bs, start, j);
      }
      HoursPartition(fewer, bs, start, last - 1, d);
    }
  }

  ghost function DeviceAmount(devices: map<Key, Summary>, d: Direction): Key -> nat {
    k => if k in devices then Of(d, devices[k].up, devices[k].down) else 0
  }

  /** No single device's share can exceed the whole. */
  lemma {:induction false} ShareOfWhole(bs: seq<Bucket>, k: Key, start: nat, current: nat, d: Direction)
    ensures Total(bs, Filter(Some(k), start, current), d) <= Total(bs, Filter(None, start, current), d)
  {
    if bs != [] { ShareOfWhole(bs[..|bs| - 1], k, start, current, d); }
  }

  lemma {:induction false} SelectedHasName(bs: seq<Bucket>, n: nat, f: Filter)
    requires n < |bs| && Selects(f, bs[n].hour, bs[n].key)
    ensures LastName(bs, f).Some?
  {
    if n < |bs| - 1 { SelectedHasName(bs[..|bs| - 1], n, f); }
  }

  /**
   * Below saturation the hourly series and the device list add up to the same sum, which is
   * the day total for 24 hours and the week total for 168.
   */
  lemma ReportAddsUp(r: Report, bs: seq<Bucket>, hours: nat, current: nat, d: Direction)
    requires Reports(r, bs, SeriesStart(hours, current), current)
    requires Total(bs, Filter(None, SeriesStart(hours, current), current), d) <= U64_MAX
    ensures SumPoints(r.hourly, d) == SumOver(r.devices.Keys, DeviceAmount(r.devices, d))
    ensures hours == 24 ==> SumPoints(r.hourly, d) == Of(d, r.day.up, r.day.down)
    ensures hours == 168 ==> SumPoints(r.hourly, d) == Of(d, r.week.up, r.week.down)
  {
    var start := SeriesStart(hours, current);
    HoursPartition(r.hourly, bs, start, current, d);
    forall i | 0 <= i < |bs| && start <= bs[i].hour <= current ensures bs[i].key in r.devices.Keys {
      SelectedHasName(bs, i, Filter(Some(bs[i].key), start, current));
      assert DeviceAt(r.devices, bs, start, current, bs[i].key);
    }
    DevicesPartition(bs, r.devices.Keys, start, current, d);
    forall k | k in r.devices.Keys
      ensures DeviceAmount(r.devices, d)(k) == Total(bs, Filter(Some(k), start, current), d)
    {
      assert DeviceAt(r.devices, bs, start, current, k);
      ShareOfWhole(bs, k, start, current, d);
    }
    SumOverChange(r.devices.Keys, k => Total(bs, Filter(Some(k), start, current), d), DeviceAmount(r.devices, d), "", 0);
  }
}
