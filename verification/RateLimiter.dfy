/** The fixed-window rate limiter: a counter per key, dropped by a sweep once its window is over. */
module RateLimiter {
  import opened Options

  // == One window ==

  class Limit {
    var Created: int
    const Key: string
    var Hits: int

    constructor (key: string, now: int)
      ensures Created == now && Key == key && Hits == 0
    {
      Created, Key, Hits := now, key, 0;
    }

    method Hit()
      modifies this`Hits
      ensures Hits == old(Hits) + 1
    {
      Hits := Hits + 1;
    }
  }

  datatype Window = Window(created: int, hits: nat)

  type Windows = map<string, Window>

  /** The windows after a hit at `now`, and whether the hit is accepted. */
  function AfterHit(ws: Windows, limit: int, key: string, now: int): (Windows, bool) {
    var w := if key in ws then ws[key] else Window(now, 0);
    (ws[key := w.(hits := w.hits + 1)], w.hits + 1 <= limit)
  }

  /** The windows after a sweep that read the clock at `read`. */
  function AfterSweep(ws: Windows, duration: int, read: int): Windows {
    map key | key in ws && !(ws[key].created < read - duration) :: ws[key]
  }

  class Limiter {
    const Max: int
    const Duration: int
    var limits: map<string, Limit>

    constructor (max: int, duration: int)
      ensures Max == max && Duration == duration && limits == map[]
    {
      Max, Duration, limits := max, duration, map[];
    }

    ghost function Objects(): set<Limit>
      reads this
    {
      set key | key in limits :: limits[key]
    }

    ghost predicate Valid()
      reads this, Objects()
    {
      && (forall key | key in limits :: limits[key].Key == key && limits[key].Hits >= 0)
      && forall key, key' | key in limits && key' in limits && key != key' :: limits[key] != limits[key']
    }

    ghost function View(): Windows
      requires Valid()
      reads this, Objects()
    {
      map key | key in limits :: Window(limits[key].Created, limits[key].Hits)
    }

    /** The window of the key, opened if there is none. */
    method Open(key: string, now: int)
      requires Valid()
      modifies this
      ensures Valid() && fresh(Objects() - old(Objects())) && key in limits
      ensures View() == if key in old(View()) then old(View()) else old(View())[key := Window(now, 0)]
    {
      if key !in limits {
        var fresh' := new Limit(key, now);
        limits := limits[key := fresh'];
      }
    }

    method Hit(key: string, now: int) returns (accepted: bool)
      requires Valid()
      modifies this, Objects()
      ensures Valid() && fresh(Objects() - old(Objects()))
      ensures (View(), accepted) == AfterHit(old(View()), Max, key, now)
    {
      ghost var was := View();
      Open(key, now);
      ghost var withKey := View();
      var limit := limits[key];
      assert limit in Objects();
      limit.Hit();
      assert View() == withKey[key := withKey[key].(hits := withKey[key].hits + 1)];
      assert View() == AfterHit(was, Max, key, now).0;
      if limit.Hits > Max {
        return false;
      }
      return true;
    }

    /** The locked part of the cleaner; the clock was read before the lock was taken. */
    method Sweep(read: int)
      requires Valid()
      modifies this
      ensures Valid() && Objects() <= old(Objects())
      ensures View() == AfterSweep(old(View()), Duration, read)
    {
      var base := read - Duration;
      var keys := limits.Keys;
      ghost var was := limits;
      while keys != {}
        invariant keys <= was.Keys
        invariant limits.Keys <= was.Keys && forall key | key in limits :: limits[key] == was[key]
        invariant forall key | key in keys :: key in limits
        invariant forall key | key in was && key !in keys :: key in limits <==> !(was[key].Created < base)
        decreases keys
      {
        var key :| key in keys;
        keys := keys - {key};
        if limits[key].Created < base {
          limits := limits - {key};
        }
      }
    }
  }

  // == Runs ==

  /** A hit, or a sweep whose clock was read no later than the lock was taken at `now`. */
  datatype Event = Hit(key: string, now: int) | Sweep(read: int, now: int)

  /** Events in the order the lock was taken. */
  predicate Ordered(events: seq<Event>) {
    && (forall i, j | 0 <= i < j < |events| :: events[i].now <= events[j].now)
    && (forall i | 0 <= i < |events| && events[i].Sweep? :: events[i].read <= events[i].now)
  }

  function AfterEvent(ws: Windows, limit: int, duration: int, e: Event): Windows {
    match e
    case Hit(key, now) => AfterHit(ws, limit, key, now).0
    case Sweep(read, _) => AfterSweep(ws, duration, read)
  }

  function After(events: seq<Event>, limit: int, duration: int): Windows {
    if events == [] then map[]
    else
      var ws := After(events[..|events| - 1], limit, duration);
      AfterEvent(ws, limit, duration, events[|events| - 1])
  }

  predicate InWindow(now: int, start: int, width: int) {
    start <= now <= start + width
  }

  predicate Accepts(ws: Windows, limit: int, e: Event, key: string) {
    e.Hit? && e.key == key && AfterHit(ws, limit, key, e.now).1
  }

  predicate Opens(ws: Windows, e: Event, key: string) {
    e.Hit? && e.key == key && key !in ws
  }

  /** How many hits of the key are accepted from `start` on, for `width`. */
  function Accepted(events: seq<Event>, limit: int, duration: int, key: string, start: int, width: int): nat {
    if events == [] then 0
    else
      var ws, e := After(events[..|events| - 1], limit, duration), events[|events| - 1];
      Accepted(events[..|events| - 1], limit, duration, key, start, width)
      + if Accepts(ws, limit, e, key) && InWindow(e.now, start, width) then 1 else 0
  }

  /** How many windows of the key are opened in that time, and when the last window of all was opened. */
  function Opened(events: seq<Event>, limit: int, duration: int, key: string, start: int, width: int): nat {
    if events == [] then 0
    else
      var ws, e := After(events[..|events| - 1], limit, duration), events[|events| - 1];
      Opened(events[..|events| - 1], limit, duration, key, start, width)
      + if Opens(ws, e, key) && InWindow(e.now, start, width) then 1 else 0
  }

  function LastOpened(events: seq<Event>, limit: int, duration: int, key: string): Option<int> {
    if events == [] then None
    else
      var ws, e := After(events[..|events| - 1], limit, duration), events[|events| - 1];
      if Opens(ws, e, key) then Some(e.now)
      else LastOpened(events[..|events| - 1], limit, duration, key)
  }

  lemma OrderedPrefix(events: seq<Event>)
    requires Ordered(events) && events != []
    ensures Ordered(events[..|events| - 1])
    ensures forall i | 0 <= i < |events| - 1 :: events[i].now <= events[|events| - 1].now
  {
  }

  predicate Before(events: seq<Event>, now: int) {
    forall i | 0 <= i < |events| :: events[i].now <= now
  }

  /** The window in place is the last one opened; once it is gone, more than `duration` has passed since. */
  lemma {:induction false} LastWindow(events: seq<Event>, limit: int, duration: int, key: string, now: int)
    requires Ordered(events) && Before(events, now)
    ensures var ws, last := After(events, limit, duration), LastOpened(events, limit, duration, key);
      && (key in ws ==> last == Some(ws[key].created))
      && (key !in ws && last.Some? ==> last.value + duration < now)
      && (last.Some? ==> last.value <= now)
  {
    if events != [] {
      OrderedPrefix(events);
      LastWindow(events[..|events| - 1], limit, duration, key, events[|events| - 1].now);
    }
  }

  /** Successive windows of a key are opened more than `duration` apart. */
  lemma WindowsOpenApart(events: seq<Event>, limit: int, duration: int, key: string, now: int)
    requires Ordered(events + [Hit(key, now)])
    requires Opens(After(events, limit, duration), Hit(key, now), key) && LastOpened(events, limit, duration, key).Some?
    ensures LastOpened(events, limit, duration, key).value + duration < now
  {
    var all := events + [Hit(key, now)];
    OrderedPrefix(all);
    assert all[..|all| - 1] == events;
    assert forall i | 0 <= i < |events| :: events[i] == all[i] && all[i].now <= all[|events|].now;
    LastWindow(events, limit, duration, key, now);
  }

  /** Windows are opened more than `duration` apart, so the last one opened in time is that far from `start`. */
  lemma {:induction false} OpenedSpread(
      events: seq<Event>, limit: int, duration: int, key: string, start: int, width: int)
    requires Ordered(events) && duration >= 0
    ensures var m, last := Opened(events, limit, duration, key, start, width), LastOpened(events, limit, duration, key);
      && (m > 0 ==> last.Some? && last.value >= start + (m - 1) * (duration + 1))
      && (m > 0 ==> (m - 1) * (duration + 1) <= width)
  {
    hide After;
    if events != [] {
      var rest, e := events[..|events| - 1], events[|events| - 1];
      OrderedPrefix(events);
      OpenedSpread(rest, limit, duration, key, start, width);
      var m := Opened(rest, limit, duration, key, start, width);
      if Opens(After(rest, limit, duration), e, key) && m > 0 {
        assert rest + [e] == events;
        WindowsOpenApart(rest, limit, duration, key, e.now);
        assert m * (duration + 1) == (m - 1) * (duration + 1) + duration + 1;
      }
    }
  }

  function Min(a: int, b: int): int {
    if a < b then a else b
  }

  /** A negative limit accepts nothing. */
  function Cap(limit: int): nat {
    if limit < 0 then 0 else limit
  }

  predicate AllBefore(events: seq<Event>, start: int) {
    forall i | 0 <= i < |events| :: events[i].now < start
  }

  lemma {:induction false} NothingBeforeStart(
      events: seq<Event>, limit: int, duration: int, key: string, start: int, width: int)
    requires AllBefore(events, start)
    ensures Accepted(events, limit, duration, key, start, width) == 0
  {
    if events != [] {
      NothingBeforeStart(events[..|events| - 1], limit, duration, key, start, width);
    }
  }

  /** Each window accepts at most the limit: those opened in time, and one that was there before. */
  lemma {:induction false} AcceptedPerWindow(
      events: seq<Event>, limit: int, duration: int, key: string, start: int, width: int)
    requires Ordered(events) && width >= 0
    ensures var ws, n, m := After(events, limit, duration), Accepted(events, limit, duration, key, start, width),
                            Opened(events, limit, duration, key, start, width);
      && n <= Cap(limit) * (m + 1)
      && (key in ws && ws[key].created <= start + width ==> n <= Cap(limit) * m + Min(ws[key].hits, Cap(limit)))
  {
    if events != [] {
      var rest, e := events[..|events| - 1], events[|events| - 1];
      OrderedPrefix(events);
      AcceptedPerWindow(rest, limit, duration, key, start, width);
      var m := Opened(rest, limit, duration, key, start, width);
      var c := Cap(limit);
      assert c * (m + 1) == c * m + c && c * (m + 2) == c * (m + 1) + c;
      LastWindow(rest, limit, duration, key, e.now);
      if e.now < start {
        NothingBeforeStart(rest, limit, duration, key, start, width);
      }
    }
  }

  /** A key has at most limit * (width / (duration + 1) + 2) accepted hits in any interval of that width. */
  lemma FixedWindowBound(events: seq<Event>, limit: int, duration: nat, key: string, start: int, width: nat)
    requires Ordered(events)
    ensures Accepted(events, limit, duration, key, start, width) <= Cap(limit) * (width / (duration + 1) + 2)
  {
    hide Accepted, Opened, LastOpened, After;
    var m := Opened(events, limit, duration, key, start, width);
    AcceptedPerWindow(events, limit, duration, key, start, width);
    OpenedSpread(events, limit, duration, key, start, width);
    if m > 0 {
      DivideSpread(m - 1, duration + 1, width);
    }
    Monotone(Cap(limit), m + 1, width / (duration + 1) + 2);
  }

  lemma DivideSpread(m: nat, d: int, w: nat)
    requires d > 0 && m * d <= w
    ensures m <= w / d
  {
    if m > w / d {
      Monotone(d, w / d + 1, m);
    }
  }

  lemma Monotone(c: int, a: int, b: int)
    requires c >= 0 && a <= b
    ensures c * a <= c * b
  {
  }

  // == The limit per interval ==

  /** What the options promise: no interval of the configured duration has more accepted hits than the limit. */
  ghost predicate KeepsLimitPerInterval(limit: int, duration: int) {
    forall events, key, start | Ordered(events) ::
      Accepted(events, limit, duration, key, start, duration) <= Cap(limit)
  }

  /** With a limit of one, only the hit that opens a window is accepted. */
  lemma {:induction false} SingleHitsOpen(events: seq<Event>, duration: nat, key: string, start: int, width: int)
    ensures forall k | k in After(events, 1, duration) :: After(events, 1, duration)[k].hits >= 1
    ensures Accepted(events, 1, duration, key, start, width) <= Opened(events, 1, duration, key, start, width)
  {
    if events != [] {
      SingleHitsOpen(events[..|events| - 1], duration, key, start, width);
    }
  }

  lemma {:induction false} NoLimitAcceptsNothing(
      events: seq<Event>, limit: int, duration: nat, key: string, start: int, width: int)
    requires limit <= 0
    ensures Accepted(events, limit, duration, key, start, width) == 0
  {
    if events != [] {
      NoLimitAcceptsNothing(events[..|events| - 1], limit, duration, key, start, width);
    }
  }

  /** `n` hits of one key at one instant. */
  function Burst(key: string, now: int, n: nat): seq<Event> {
    if n == 0 then [] else Burst(key, now, n - 1) + [Hit(key, now)]
  }

  lemma OneMore(events: seq<Event>, e: Event, limit: int, duration: int, key: string, start: int, width: int)
    ensures var ws := After(events, limit, duration);
      && After(events + [e], limit, duration) == AfterEvent(ws, limit, duration, e)
      && Accepted(events + [e], limit, duration, key, start, width)
           == Accepted(events, limit, duration, key, start, width)
           + if Accepts(ws, limit, e, key) && InWindow(e.now, start, width) then 1 else 0
  {
    assert (events + [e])[..|events|] == events;
  }

  /** While the window has room, every hit of a burst is accepted. */
  lemma {:induction false} BurstIsAccepted(
      events: seq<Event>, limit: int, duration: int, key: string, now: int, n: nat, start: int, width: int)
    requires InWindow(now, start, width)
    requires key in After(events, limit, duration) && After(events, limit, duration)[key].hits + n <= limit
    ensures var all, w := events + Burst(key, now, n), After(events, limit, duration)[key];
      && Accepted(all, limit, duration, key, start, width) == Accepted(events, limit, duration, key, start, width) + n
      && key in After(all, limit, duration) && After(all, limit, duration)[key] == w.(hits := w.hits + n)
  {
    hide After, Accepted;
    var all := events + Burst(key, now, n);
    if n == 0 {
      assert all == events;
    } else {
      var most := events + Burst(key, now, n - 1);
      BurstIsAccepted(events, limit, duration, key, now, n - 1, start, width);
      OneMore(most, Hit(key, now), limit, duration, key, start, width);
      assert all == most + [Hit(key, now)];
    }
  }

  lemma {:induction false} BurstIsAtOnce(key: string, now: int, n: nat)
    ensures |Burst(key, now, n)| == n && forall i | 0 <= i < n :: Burst(key, now, n)[i] == Hit(key, now)
  {
    if n > 0 {
      BurstIsAtOnce(key, now, n - 1);
    }
  }

  /** A first hit, and the rest of its window just after the duration. */
  function FirstBurst(key: string, limit: nat, duration: nat): seq<Event>
    requires limit >= 1
  {
    [] + [Hit(key, 0)] + Burst(key, duration + 1, limit - 1)
  }

  lemma FirstBurstFillsWindow(key: string, limit: nat, duration: nat)
    requires limit >= 1
    ensures var events := FirstBurst(key, limit, duration);
      && key in After(events, limit, duration) && After(events, limit, duration)[key] == Window(0, limit)
      && Accepted(events, limit, duration, key, duration + 1, duration) == limit - 1
  {
    assert After([], limit, duration) == map[] && Accepted([], limit, duration, key, duration + 1, duration) == 0;
    hide After, Accepted, Burst;
    OneMore([], Hit(key, 0), limit, duration, key, duration + 1, duration);
    BurstIsAccepted([] + [Hit(key, 0)], limit, duration, key, duration + 1, limit - 1, duration + 1, duration);
  }

  /** A sweep more than the duration later drops the window. */
  lemma SweepDropsWindow(events: seq<Event>, key: string, limit: nat, duration: nat)
    requires key in After(events, limit, duration) && After(events, limit, duration)[key].created == 0
    ensures var t := duration + 1;
      && key !in After(events + [Sweep(t, t)], limit, duration)
      && Accepted(events + [Sweep(t, t)], limit, duration, key, t, duration)
           == Accepted(events, limit, duration, key, t, duration)
  {
    OneMore(events, Sweep(duration + 1, duration + 1), limit, duration, key, duration + 1, duration);
  }

  /** A new window can be filled at once. */
  lemma NewWindowFills(events: seq<Event>, key: string, limit: nat, duration: nat, t: int)
    requires limit >= 1 && key !in After(events, limit, duration)
    ensures Accepted(events + [Hit(key, t)] + Burst(key, t, limit - 1), limit, duration, key, t, duration)
         == Accepted(events, limit, duration, key, t, duration) + limit
  {
    hide After, Accepted, Burst;
    OneMore(events, Hit(key, t), limit, duration, key, t, duration);
    BurstIsAccepted(events + [Hit(key, t)], limit, duration, key, t, limit - 1, t, duration);
  }

  /** At the seam of two windows, almost twice the limit is accepted in one instant. */
  lemma TwoBursts(limit: nat, duration: nat, key: string) returns (events: seq<Event>)
    requires limit >= 1
    ensures Ordered(events)
    ensures Accepted(events, limit, duration, key, duration + 1, duration) == 2 * limit - 1
  {
    var t := duration + 1;
    var first := FirstBurst(key, limit, duration);
    FirstBurstFillsWindow(key, limit, duration);
    SweepDropsWindow(first, key, limit, duration);
    NewWindowFills(first + [Sweep(t, t)], key, limit, duration, t);
    events := first + [Sweep(t, t)] + [Hit(key, t)] + Burst(key, t, limit - 1);
    BurstIsAtOnce(key, t, limit - 1);
    assert events[0] == Hit(key, 0);
    assert forall i | 0 < i < |events| :: events[i] == Hit(key, t) || events[i] == Sweep(t, t);
  }

  lemma AtMostOne(m: nat, d: nat)
    requires m > 0 ==> (m - 1) * (d + 1) <= d
    ensures m <= 1
  {
    Monotone(d + 1, 1, if m > 1 then m - 1 else 1);
  }

  /** The promise holds exactly for limits of at most one: at the seam of two windows, both can be full at once. */
  lemma LimitPerIntervalHoldsUpToOne(limit: int, duration: nat)
    ensures KeepsLimitPerInterval(limit, duration) <==> limit <= 1
  {
    if limit >= 2 {
      var events := TwoBursts(limit, duration, "k");
      assert Accepted(events, limit, duration, "k", duration + 1, duration) > Cap(limit);
    } else {
      forall events, key, start | Ordered(events)
        ensures Accepted(events, limit, duration, key, start, duration) <= Cap(limit)
      {
        if limit == 1 {
          SingleHitsOpen(events, duration, key, start, duration);
          OpenedSpread(events, limit, duration, key, start, duration);
          AtMostOne(Opened(events, limit, duration, key, start, duration), duration);
        } else {
          NoLimitAcceptsNothing(events, limit, duration, key, start, duration);
        }
      }
    }
  }

  // == What is not limited ==

  /** The events that concern the key: its hits, and all sweeps. */
  function Own(events: seq<Event>, key: string): seq<Event> {
    if events == [] then []
    else
      var e := events[|events| - 1];
      Own(events[..|events| - 1], key) + if e.Sweep? || e.key == key then [e] else []
  }

  function WindowOf(ws: Windows, key: string): Option<Window> {
    if key in ws then Some(ws[key]) else None
  }

  /** An event of the key, or a sweep, treats equal windows alike; any other event leaves the window alone. */
  lemma SameWindowAfter(ws: Windows, ws': Windows, limit: int, duration: int, e: Event, key: string)
    requires WindowOf(ws, key) == WindowOf(ws', key)
    ensures Accepts(ws, limit, e, key) == Accepts(ws', limit, e, key)
    ensures WindowOf(AfterEvent(ws, limit, duration, e), key)
         == WindowOf(if e.Sweep? || e.key == key then AfterEvent(ws', limit, duration, e) else ws', key)
    ensures e.Hit? && e.key != key ==> !Accepts(ws, limit, e, key)
  {
  }

  /** Hits of one key never count for another. */
  lemma {:induction false} KeysAreIndependent(
      events: seq<Event>, limit: int, duration: int, key: string, start: int, width: int)
    ensures WindowOf(After(events, limit, duration), key) == WindowOf(After(Own(events, key), limit, duration), key)
    ensures Accepted(events, limit, duration, key, start, width)
         == Accepted(Own(events, key), limit, duration, key, start, width)
  {
    if events != [] {
      var rest, e := events[..|events| - 1], events[|events| - 1];
      KeysAreIndependent(rest, limit, duration, key, start, width);
      var own := Own(rest, key);
      assert rest + [e] == events && own + [] == own;
      assert Own(events, key) == own + if e.Sweep? || e.key == key then [e] else [];
      SameWindowAfter(After(rest, limit, duration), After(own, limit, duration), limit, duration, e, key);
      OneMore(rest, e, limit, duration, key, start, width);
      OneMore(own, e, limit, duration, key, start, width);
      hide After, Accepted, Own, AfterHit, AfterSweep, WindowOf, Accepts;
    }
  }

  /** How many hits of the key there are, and how many of them in the interval. */
  function HitsOf(events: seq<Event>, key: string): nat {
    if events == [] then 0
    else
      var e := events[|events| - 1];
      HitsOf(events[..|events| - 1], key) + if e.Hit? && e.key == key then 1 else 0
  }

  function HitsIn(events: seq<Event>, key: string, start: int, width: int): nat {
    if events == [] then 0
    else
      var e := events[|events| - 1];
      HitsIn(events[..|events| - 1], key, start, width)
      + if e.Hit? && e.key == key && InWindow(e.now, start, width) then 1 else 0
  }

  /** Up to the limit, every hit is accepted. */
  lemma {:induction false} FewHitsAreAccepted(
      events: seq<Event>, limit: int, duration: int, key: string, start: int, width: int)
    requires HitsOf(events, key) <= limit
    ensures key in After(events, limit, duration) ==> After(events, limit, duration)[key].hits <= HitsOf(events, key)
    ensures Accepted(events, limit, duration, key, start, width) == HitsIn(events, key, start, width)
  {
    if events != [] {
      FewHitsAreAccepted(events[..|events| - 1], limit, duration, key, start, width);
    }
  }
}
