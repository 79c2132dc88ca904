/**
 The whole startup snapshot: four registries in one ordered stream, areas first so referenced
 rows land before referencing ones, and every sweep after every item.
 */
module Startup {
  import opened LiveWrites
  import opened LiveRuns
  import opened Snapshot

  datatype Registry = Area | Label | Entity | Device

  /** A queue item with its registry. */
  datatype Tagged = Tagged(registry: Registry, item: Item)

  /** The four dimension tables, each with its share of the loss counters. */
  datatype Dimensions = Dimensions(areas: Tally, labels: Tally, entities: Tally, devices: Tally) {
    function Of(r: Registry): Tally {
      match r case Area => areas case Label => labels case Entity => entities case Device => devices
    }

    function With(r: Registry, c: Tally): Dimensions {
      match r
      case Area => this.(areas := c)
      case Label => this.(labels := c)
      case Entity => this.(entities := c)
      case Device => this.(devices := c)
    }
  }

  /** The worker's dispatch: an item goes to its own registry's table. */
  function Dispatch(d: Dimensions, x: Tagged): Dimensions {
    d.With(x.registry, Count(d.Of(x.registry), Process(d.Of(x.registry).t, x.item, x.registry.Entity?)))
  }

  function DispatchAll(d: Dimensions, xs: seq<Tagged>): Dimensions
    decreases xs
  {
    if xs == [] then d else DispatchAll(Dispatch(d, xs[0]), xs[1..])
  }

  lemma {:induction false} DispatchNext(d: Dimensions, xs: seq<Tagged>, x: Tagged)
    ensures DispatchAll(d, xs + [x]) == Dispatch(DispatchAll(d, xs), x)
    decreases xs
  {
    hide Dispatch;
    if xs == [] {
      assert xs + [x] == [x] && [x][1..] == [];
      assert DispatchAll(Dispatch(d, x), []) == Dispatch(d, x);
    } else {
      assert (xs + [x])[0] == xs[0] && (xs + [x])[1..] == xs[1..] + [x];
      DispatchNext(Dispatch(d, xs[0]), xs[1..], x);
    }
  }

  /** The items of one registry, in queue order. */
  function Share(xs: seq<Tagged>, r: Registry): seq<Item>
    decreases xs
  {
    if xs == [] then [] else (if xs[0].registry == r then [xs[0].item] else []) + Share(xs[1..], r)
  }

  /** Each table sees its own items in queue order, and nothing else. */
  lemma {:induction false} RegistriesAreIndependent(d: Dimensions, xs: seq<Tagged>, r: Registry)
    ensures DispatchAll(d, xs).Of(r) == Run(d.Of(r), Share(xs, r), r.Entity?)
    decreases xs
  {
    hide Process;
    if xs != [] {
      RegistriesAreIndependent(Dispatch(d, xs[0]), xs[1..], r);
      if xs[0].registry == r {
        assert Share(xs, r) == [xs[0].item] + Share(xs[1..], r);
        RunAppends(d.Of(r), [xs[0].item], Share(xs[1..], r), r.Entity?);
        RunOne(d.Of(r), xs[0].item, r.Entity?);
      } else {
        assert Share(xs, r) == Share(xs[1..], r);
      }
    }
  }

  function Tag(r: Registry, items: seq<Item>): seq<Tagged> {
    seq(|items|, k requires 0 <= k < |items| => Tagged(r, items[k]))
  }

  lemma {:induction false} ShareAppends(xs: seq<Tagged>, ys: seq<Tagged>, r: Registry)
    ensures Share(xs + ys, r) == Share(xs, r) + Share(ys, r)
    decreases xs
  {
    if xs == [] {
      assert xs + ys == ys;
    } else {
      assert (xs + ys)[0] == xs[0] && (xs + ys)[1..] == xs[1..] + ys;
      ShareAppends(xs[1..], ys, r);
    }
  }

  lemma {:induction false} ShareOfTagged(r: Registry, q: Registry, items: seq<Item>)
    ensures Share(Tag(r, items), q) == if r == q then items else []
    decreases items
  {
    if items != [] {
      assert Tag(r, items)[1..] == Tag(r, items[1..]);
      ShareOfTagged(r, q, items[1..]);
    }
  }

  /** What the four registries list when the snapshot is taken. */
  datatype Listings = Listings(areas: seq<Entry>, labels: seq<Entry>, entities: seq<Entry>, devices: seq<Entry>) {
    function Of(r: Registry): seq<Entry> {
      match r case Area => areas case Label => labels case Entity => entities case Device => devices
    }
  }

  function ItemsFirst(ls: Listings, now: int): seq<Tagged> {
    Tag(Area, ItemsOf(ls.areas, now)) + Tag(Label, ItemsOf(ls.labels, now))
    + Tag(Entity, ItemsOf(ls.entities, now)) + Tag(Device, ItemsOf(ls.devices, now))
  }

  function SweepOf(ls: Listings, r: Registry, now: int): Tagged { Tagged(r, Sweep(Ids(ls.Of(r)), now)) }

  function SweepsLast(ls: Listings, now: int): seq<Tagged> {
    [SweepOf(ls, Area, now)] + [SweepOf(ls, Label, now)] + [SweepOf(ls, Entity, now)] + [SweepOf(ls, Device, now)]
  }

  /** enqueue_snapshot's buffer append: all items, then all sweeps. */
  function Buffered(ls: Listings, now: int): seq<Tagged> { ItemsFirst(ls, now) + SweepsLast(ls, now) }

  lemma ItemsShare(ls: Listings, now: int, r: Registry)
    ensures Share(ItemsFirst(ls, now), r) == ItemsOf(ls.Of(r), now)
  {
    hide Share, Tag, ItemsOf;
    var a, l := Tag(Area, ItemsOf(ls.areas, now)), Tag(Label, ItemsOf(ls.labels, now));
    var e, d := Tag(Entity, ItemsOf(ls.entities, now)), Tag(Device, ItemsOf(ls.devices, now));
    ShareAppends(a + l + e, d, r);
    ShareAppends(a + l, e, r);
    ShareAppends(a, l, r);
    ShareOfTagged(Area, r, ItemsOf(ls.areas, now));
    ShareOfTagged(Label, r, ItemsOf(ls.labels, now));
    ShareOfTagged(Entity, r, ItemsOf(ls.entities, now));
    ShareOfTagged(Device, r, ItemsOf(ls.devices, now));
  }

  lemma SweepsShare(ls: Listings, now: int, r: Registry)
    ensures Share(SweepsLast(ls, now), r) == [Sweep(Ids(ls.Of(r)), now)]
  {
    hide Share, Ids;
    var a, l := SweepOf(ls, Area, now), SweepOf(ls, Label, now);
    var e, d := SweepOf(ls, Entity, now), SweepOf(ls, Device, now);
    ShareAppends([a] + [l] + [e], [d], r);
    ShareAppends([a] + [l], [e], r);
    ShareAppends([a], [l], r);
    ShareOfOne(a, r);
    ShareOfOne(l, r);
    ShareOfOne(e, r);
    ShareOfOne(d, r);
  }

  /** Seen from one registry, the interleaved stream is that registry's own snapshot. */
  lemma SnapshotsInterleave(ls: Listings, now: int, r: Registry)
    ensures Share(Buffered(ls, now), r) == SnapshotOf(ls.Of(r), now)
  {
    ShareAppends(ItemsFirst(ls, now), SweepsLast(ls, now), r);
    ItemsShare(ls, now, r);
    SweepsShare(ls, now, r);
  }

  lemma ShareOfOne(x: Tagged, r: Registry)
    ensures Share([x], r) == if x.registry == r then [x.item] else []
  {
    ShareOfTagged(x.registry, r, [x.item]);
    assert Tag(x.registry, [x.item]) == [x];
  }

  /**
   Startup reconciles all four dimensions at once: in every registry that listed something and
   whose sweep is plausible, exactly the listed ids are open, each with the listed version;
   closed history stays, both counters stay, and no table is disturbed by another's items.
   */
  lemma StartupReconciles(d: Dimensions, ls: Listings, now: int, r: Registry)
    requires Valid(d.Of(r).t) && Listing(ls.Of(r)) && Past(d.Of(r).t, now)
    ensures var swept := Sweeps(Run(d.Of(r), ItemsOf(ls.Of(r), now), r.Entity?).t, ls.Of(r), now);
            var c, c' := d.Of(r), DispatchAll(d, Buffered(ls, now)).Of(r);
            && Valid(c'.t) && c'.skips == c.skips && c'.drops == c.drops && HistoryKept(c.t, c'.t)
            && (forall e :: e in ls.Of(r) ==> Current(c'.t, e))
            && (swept ==> forall id :: OpenRows(c'.t, id) != {} <==> id in Ids(ls.Of(r)))
            && (!swept ==> forall id :: id !in Ids(ls.Of(r)) ==> OpenRows(c'.t, id) == OpenRows(c.t, id))
  {
    hide Valid, Listing, Past, Sweeps, Current, HistoryKept;
    RegistriesAreIndependent(d, Buffered(ls, now), r);
    SnapshotsInterleave(ls, now, r);
    SnapshotReconciles(d.Of(r), ls.Of(r), now, r.Entity?);
  }
}
