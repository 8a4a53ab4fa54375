/**
 The books of `Traffic` fed by the remote counters of `Counters`: every row of a user and a node
 reads the counter that Xray keeps for the user's name on that node, over every interleaving of
 growth, restarts and bookings.
 */
module Metering {
  import opened Entities
  import opened Sums
  import opened Counters
  import opened Traffic
  import opened Collection

  /** What Xray shows for a user name on a node, and all it ever counted there. */
  datatype Counter = Counter(raw: Pair, moved: Pair)

  type CounterTable = (UserId, NodeId) -> Counter

  datatype World = World(books: Books, counters: CounterTable)

  datatype WorldEvent =
    | Moves(user: UserId, node: NodeId, bytes: Pair)
    | Restarts(at: NodeId)
    | Booked(event: TrafficEvent)

  predicate NonNegative(p: Pair) {
    p.up >= 0 && p.down >= 0
  }

  /** The statistics of a collection show, under a user name, what the counter shows. */
  ghost predicate ReadsCounters(w: World, e: TrafficEvent) {
    e.CollectStats? ==>
      && ByteCounts(e.stats)
      && forall a :: a in w.books.accounts && a.username in e.stats ==>
           e.stats[a.username] == w.counters(a.id, e.node).raw
  }

  predicate CounterTo(c: Counter, e: WorldEvent, u: UserId, n: NodeId, next: Counter) {
    match e
    case Moves(user, node, bytes) =>
      if u == user && n == node then IsSum(next.raw, c.raw, bytes) && IsSum(next.moved, c.moved, bytes) else next == c
    case Restarts(node) => next.moved == c.moved && (if n == node then IsZero(next.raw) else next.raw == c.raw)
    case Booked(_) => next == c
  }

  ghost predicate WorldTo(w: World, e: WorldEvent, next: World) {
    && (forall u, n :: CounterTo(w.counters(u, n), e, u, n, next.counters(u, n)))
    && match e {
         case Moves(_, _, bytes) => NonNegative(bytes) && next.books == w.books
         case Restarts(_) => next.books == w.books
         case Booked(event) => ReadsCounters(w, event) && next.books == After(w.books, event)
       }
  }

  // ---------- no row is charged for more than its counter counted ----------

  /** Charged so far and still to be charged, in one direction. */
  function Claimed(r: NodeRow, raw: Pair, d: Direction): int {
    (if d == Upward then r.up else r.down) + Positive(In(raw, d) - In(r.last, d))
  }

  predicate FairRow(r: NodeRow, c: Counter) {
    && NonNegative(r.last) && r.total == r.up + r.down
    && Claimed(r, c.raw, Upward) <= c.moved.up && Claimed(r, c.raw, Downward) <= c.moved.down
  }

  predicate SoundCounter(c: Counter) {
    NonNegative(c.raw) && AtMost(c.raw, c.moved)
  }

  ghost predicate SoundCounters(counters: CounterTable) {
    forall u, n :: SoundCounter(counters(u, n))
  }

  /** One row for each user and node. */
  predicate DistinctRows(rows: seq<NodeRow>) {
    forall i, j :: 0 <= i < j < |rows| ==> rows[i].user != rows[j].user || rows[i].node != rows[j].node
  }

  ghost predicate FairRows(rows: seq<NodeRow>, counters: CounterTable) {
    && DistinctRows(rows)
    && forall k :: 0 <= k < |rows| ==> FairRow(rows[k], counters(rows[k].user, rows[k].node))
  }

  predicate SoundReadings(b: Books) {
    && (forall i :: 0 <= i < |b.accounts| ==> NonNegative(b.accounts[i].lastRaw))
    && forall k :: 0 <= k < |b.devices| ==> NonNegative(b.devices[k].last)
  }

  ghost predicate FairBooks(b: Books, counters: CounterTable) {
    FairRows(b.rows, counters) && SoundReadings(b) && SoundCounters(counters)
  }

  lemma ChargedRowIsFair(r: NodeRow, c: Counter)
    requires FairRow(r, c) && SoundCounter(c)
    ensures FairRow(ChargedRow(r, c.raw), c)
  {
  }

  lemma {:induction false} SumNonNegative<T>(s: seq<T>, part: T -> int)
    requires forall k :: 0 <= k < |s| ==> part(s[k]) >= 0
    ensures Sum(s, part) >= 0
  {
    if s != [] {
      SumNonNegative(s[..|s| - 1], part);
    }
  }

  lemma FairRowsUpdate(rows: seq<NodeRow>, counters: CounterTable, k: nat)
    requires FairRows(rows, counters) && SoundCounters(counters) && k < |rows|
    ensures FairRows(rows[k := ChargedRow(rows[k], counters(rows[k].user, rows[k].node).raw)], counters)
  {
    ChargedRowIsFair(rows[k], counters(rows[k].user, rows[k].node));
  }

  lemma BillRowKeepsFair(b: Books, counters: CounterTable, i: nat, k: nat)
    requires FairBooks(b, counters) && i < |b.accounts| && k < |b.rows|
    ensures FairBooks(BillRow(b, i, k, counters(b.rows[k].user, b.rows[k].node).raw), counters)
  {
    var b' := BillRow(b, i, k, counters(b.rows[k].user, b.rows[k].node).raw);
    FairRowsUpdate(b.rows, counters, k);
    SumNonNegative(b'.rows, RawUp(b.accounts[i].id));
    SumNonNegative(b'.rows, RawDown(b.accounts[i].id));
  }

  lemma BillDeviceKeepsFair(b: Books, counters: CounterTable, i: nat, k: nat, node: NodeId, raw: Pair)
    requires FairBooks(b, counters) && i < |b.accounts| && k < |b.devices| && NonNegative(raw)
    ensures FairBooks(BillDevice(b, i, k, node, raw), counters)
  {
    var b' := BillDevice(b, i, k, node, raw);
    SumNonNegative(b'.devices, DeviceRawUp(b.accounts[i].id));
    SumNonNegative(b'.devices, DeviceRawDown(b.accounts[i].id));
  }

  /** A new row takes a baseline that is not negative, and its counter shows at most what it counted. */
  lemma WithRowKeepsFair(b: Books, counters: CounterTable, i: nat, node: NodeId)
    requires FairBooks(b, counters) && i < |b.accounts|
    ensures FairBooks(WithRow(b, i, node), counters)
  {
    if FindRow(b.rows, b.accounts[i].id, node).None? {
      var row := NewRow(b, i, node);
      assert SoundCounter(counters(row.user, row.node));
      assert FairRow(row, counters(row.user, row.node));
      assert forall k :: 0 <= k < |b.rows| ==> b.rows[k] in b.rows;
    }
  }

  predicate SameAccounts(a: Books, b: Books) {
    |a.accounts| == |b.accounts| && forall j :: 0 <= j < |a.accounts| ==> a.accounts[j].id == b.accounts[j].id
  }

  /** What a collection that began with the accounts of `start` keeps at every turn of its loops. */
  ghost predicate FairSince(start: Books, counters: CounterTable, b: Books) {
    FairBooks(b, counters) && SameAccounts(start, b)
  }

  lemma DeviceTurnKeepsFair(start: Books, b: Books, counters: CounterTable, node: NodeId, stats: Stats, k: nat)
    requires FairSince(start, counters, b) && ByteCounts(stats) && k < |b.devices|
    ensures FairSince(start, counters, DeviceTurn(b, node, stats, k))
  {
    var d := b.devices[k];
    var i := FindAccount(b.accounts, d.user);
    if Email(d) in stats && i.Some? {
      BillDeviceKeepsFair(b, counters, i.value, k, node, stats[Email(d)]);
    }
  }

  lemma UserTurnKeepsFair(start: Books, b: Books, counters: CounterTable, node: NodeId, stats: Stats, k: nat)
    requires FairSince(start, counters, b) && k < |start.accounts|
    requires start.accounts[k].username in stats ==>
               stats[start.accounts[k].username] == counters(start.accounts[k].id, node).raw
    ensures FairSince(start, counters, UserTurn(b, start, node, stats, k))
  {
    var ready := WithRow(b, k, node);
    WithRowKeepsFair(b, counters, k, node);
    BillRowKeepsFair(ready, counters, k, FindRow(ready.rows, b.accounts[k].id, node).value);
  }

  lemma CollectionKeepsFair(w: World, node: NodeId, stats: Stats)
    requires FairBooks(w.books, w.counters) && ReadsCounters(w, CollectStats(node, stats))
    ensures FairBooks(AfterStats(w.books, node, stats), w.counters)
  {
    var start, counters := w.books, w.counters;
    var fair := (b: Books) => FairSince(start, counters, b);
    forall b: Books, k: nat | k < |b.devices| && fair(b)
      ensures fair(DeviceTurn(b, node, stats, k))
    {
      DeviceTurnKeepsFair(start, b, counters, node, stats, k);
    }
    forall b: Books, k: nat | k < |start.accounts| == |b.accounts| && fair(b)
      ensures fair(UserTurn(b, start, node, stats, k))
    {
      assert start.accounts[k] in start.accounts;
      UserTurnKeepsFair(start, b, counters, node, stats, k);
    }
    CollectionKeeps(start, node, stats, fair);
  }

  lemma BookingKeepsFair(w: World, e: TrafficEvent)
    requires FairBooks(w.books, w.counters) && ReadsCounters(w, e)
    ensures FairBooks(After(w.books, e), w.counters)
  {
    match e
    case CollectStats(node, stats) => CollectionKeepsFair(w, node, stats);
    case CollectInbound(_, _) =>
    case DropDevice(_) =>
  }

  lemma CounterStepKeepsSound(c: Counter, e: WorldEvent, u: UserId, n: NodeId, next: Counter)
    requires SoundCounter(c) && CounterTo(c, e, u, n, next) && (e.Moves? ==> NonNegative(e.bytes))
    ensures SoundCounter(next)
  {
  }

  lemma CounterStepKeepsFair(r: NodeRow, c: Counter, e: WorldEvent, next: Counter)
    requires FairRow(r, c) && CounterTo(c, e, r.user, r.node, next) && (e.Moves? ==> NonNegative(e.bytes))
    ensures FairRow(r, next)
  {
  }

  lemma CountersKeepFair(b: Books, counters: CounterTable, e: WorldEvent, next: CounterTable)
    requires FairBooks(b, counters) && (e.Moves? ==> NonNegative(e.bytes))
    requires forall u, n :: CounterTo(counters(u, n), e, u, n, next(u, n))
    ensures FairBooks(b, next)
  {
    forall u, n
      ensures SoundCounter(next(u, n))
    {
      CounterStepKeepsSound(counters(u, n), e, u, n, next(u, n));
    }
    forall k | 0 <= k < |b.rows|
      ensures FairRow(b.rows[k], next(b.rows[k].user, b.rows[k].node))
    {
      var r := b.rows[k];
      CounterStepKeepsFair(r, counters(r.user, r.node), e, next(r.user, r.node));
    }
  }

  lemma WorldStepKeepsFair(w: World, e: WorldEvent, next: World)
    requires FairBooks(w.books, w.counters) && WorldTo(w, e, next)
    ensures FairBooks(next.books, next.counters)
  {
    if e.Booked? {
      BookingKeepsFair(w, e.event);
    }
    CountersKeepFair(next.books, w.counters, e, next.counters);
  }

  // ---------- over runs ----------

  /** Nothing counted in the books, no row yet, and counters that show at most what they counted. */
  ghost predicate Begins(w: World) {
    ZeroStart(w.books) && w.books.rows == [] && SoundReadings(w.books) && SoundCounters(w.counters)
  }

  ghost predicate IsHistory(worlds: seq<World>, events: seq<WorldEvent>) {
    && |worlds| == |events| + 1 && Begins(worlds[0])
    && forall i :: 0 <= i < |events| ==> WorldTo(worlds[i], events[i], worlds[i + 1])
  }

  lemma {:induction false} HistoryIsFair(worlds: seq<World>, events: seq<WorldEvent>, k: nat)
    requires IsHistory(worlds, events) && k < |worlds|
    ensures FairBooks(worlds[k].books, worlds[k].counters) && Balanced(worlds[k].books)
  {
    if k == 0 {
      ZeroStartBalances(worlds[0].books);
    } else {
      HistoryIsFair(worlds, events, k - 1);
      assert WorldTo(worlds[k - 1], events[k - 1], worlds[k]);
      WorldStepKeepsFair(worlds[k - 1], events[k - 1], worlds[k]);
      if events[k - 1].Booked? {
        EventBalances(worlds[k - 1].books, events[k - 1].event);
      }
    }
  }

  function MovedPart(u: UserId, counters: CounterTable, c: Column): NodeRow -> int {
    (r: NodeRow) => if r.user == u then Bytes(counters(r.user, r.node).moved, c) else 0
  }

  lemma {:induction false} SumAtMost<T>(s: seq<T>, a: T -> int, b: T -> int)
    requires forall k :: 0 <= k < |s| ==> a(s[k]) <= b(s[k])
    ensures Sum(s, a) <= Sum(s, b)
  {
    if s != [] {
      SumAtMost(s[..|s| - 1], a, b);
    }
  }

  /**
   At every point of every history, what a user was charged through rows is at most what the user
   moved on the nodes of those rows, each node counted once, in either direction and in total.
   */
  lemma RowsChargeAtMostMoved(worlds: seq<World>, events: seq<WorldEvent>, k: nat, u: UserId, c: Column)
    requires IsHistory(worlds, events) && k < |worlds|
    ensures var b := worlds[k].books;
            DistinctRows(b.rows) && Sum(b.rows, RowPart(u, c)) <= Sum(b.rows, MovedPart(u, worlds[k].counters, c))
  {
    HistoryIsFair(worlds, events, k);
    SumAtMost(worlds[k].books.rows, RowPart(u, c), MovedPart(u, worlds[k].counters, c));
  }

  /** So a user's total exceeds what the user moved by no more than what came through devices. */
  lemma UserChargedAtMostMoved(worlds: seq<World>, events: seq<WorldEvent>, k: nat, a: Account, c: Column)
    requires IsHistory(worlds, events) && k < |worlds| && a in worlds[k].books.accounts
    ensures var b := worlds[k].books;
            Used(a, c) <= Sum(b.rows, MovedPart(a.id, worlds[k].counters, c))
                + Sum(b.devices, DevicePart(a.id, c)) + Sum(b.removed, DevicePart(a.id, c))
  {
    HistoryIsFair(worlds, events, k);
    RowsChargeAtMostMoved(worlds, events, k, a.id, c);
    assert UserConserved(worlds[k].books, a, c);
  }

  // ---------- nothing is left uncharged between restarts ----------

  /** A row in one collection: as it was, or at the reading of its user's name. */
  lemma RowInCollection(b: Books, node: NodeId, stats: Stats, r: NodeRow) returns (r': NodeRow)
    requires DistinctAccounts(b.accounts) && OwnersKnown(b) && r in b.rows
    ensures r' in AfterStats(b, node, stats).rows
    ensures r' != r ==> r.node == node && exists a :: && a in b.accounts && a.id == r.user && a.username in stats
                                                      && r' == RowRead(r, stats[a.username])
  {
    var end := AfterStats(b, node, stats);
    if exists i :: 0 <= i < |b.accounts| && b.accounts[i].id == r.user {
      var j :| 0 <= j < |b.accounts| && b.accounts[j].id == r.user;
      var own := RowsOf(b.rows, r.user);
      assert r in own;
      if Due(b.accounts[j], b.devices, stats) {
        DueUserIsBilled(b, node, stats, j);
        r' := RowOfBilled(own, RowsOf(end.rows, r.user), b.accounts[j], node, stats[b.accounts[j].username], r);
      } else {
        NobodyElseIsBilled(b, node, stats, j);
        r' := r;
      }
    } else {
      StrangersKeepRows(b, node, stats, r.user);
      assert r in RowsOf(b.rows, r.user);
      r' := r;
    }
  }

  lemma RowOfBilled(own: seq<NodeRow>, own': seq<NodeRow>, a: Account, node: NodeId, raw: Pair, r: NodeRow)
      returns (r': NodeRow)
    requires r in own && exists delta :: RowCharged(own, own', a, node, raw, delta)
    ensures r' in own' && (r' != r ==> r.node == node && r' == RowRead(r, raw))
  {
    var delta :| RowCharged(own, own', a, node, raw, delta);
    var k :| 0 <= k < |own| && own[k] == r;
    r' := own'[k];
  }

  /** What was charged and what is shown but not read yet. */
  function Accounted(r: NodeRow, c: Counter, d: Direction): int {
    (if d == Upward then r.up else r.down) + In(c.raw, d) - In(r.last, d)
  }

  /** The counter shows at least the last reading. */
  predicate Unbroken(r: NodeRow, c: Counter) {
    AtMost(r.last, c.raw)
  }

  /** Charges and unread bytes of a row grew by exactly what its counter counted. */
  ghost predicate Follows(r: NodeRow, c: Counter, r': NodeRow, c': Counter) {
    && r'.user == r.user && r'.node == r.node && Unbroken(r', c')
    && forall d :: Accounted(r', c', d) - Accounted(r, c, d) == In(c'.moved, d) - In(c.moved, d)
  }

  lemma BookingFollows(w: World, e: TrafficEvent, r: NodeRow) returns (r': NodeRow)
    requires ReadsCounters(w, e) && DistinctAccounts(w.books.accounts) && OwnersKnown(w.books)
    requires r in w.books.rows && Unbroken(r, w.counters(r.user, r.node))
    ensures r' in After(w.books, e).rows
    ensures Follows(r, w.counters(r.user, r.node), r', w.counters(r.user, r.node))
  {
    if e.CollectStats? {
      r' := RowInCollection(w.books, e.node, e.stats, r);
    } else {
      r' := r;
    }
  }

  lemma WorldStepFollows(w: World, e: WorldEvent, next: World, r: NodeRow) returns (r': NodeRow)
    requires WorldTo(w, e, next) && e != Restarts(r.node)
    requires DistinctAccounts(w.books.accounts) && OwnersKnown(w.books)
    requires r in w.books.rows && Unbroken(r, w.counters(r.user, r.node))
    ensures r' in next.books.rows
    ensures Follows(r, w.counters(r.user, r.node), r', next.counters(r.user, r.node))
  {
    assert CounterTo(w.counters(r.user, r.node), e, r.user, r.node, next.counters(r.user, r.node));
    if e.Booked? {
      r' := BookingFollows(w, e.event, r);
    } else {
      r' := r;
    }
  }

  lemma CollectionKeepsOwners(b: Books, node: NodeId, stats: Stats)
    requires OwnersKnown(b) && DistinctAccounts(b.accounts)
    ensures OwnersKnown(AfterStats(b, node, stats)) && SameIds(b, AfterStats(b, node, stats))
  {
    var kept := (x: Books) => SameKeys(b, x);
    forall x: Books, k: nat | k < |x.devices| && kept(x)
      ensures kept(DeviceTurn(x, node, stats, k))
    {
      DeviceTurnKeepsKeys(b, x, node, stats, k);
    }
    forall x: Books, k: nat | k < |b.accounts| == |x.accounts| && kept(x)
      ensures kept(UserTurn(x, b, node, stats, k))
    {
      TurnKeepsTables(x, b, node, stats, k);
    }
    CollectionKeeps(b, node, stats, kept);
    var end := AfterStats(b, node, stats);
    forall d | d in end.devices
      ensures FindAccount(end.accounts, d.user).Some?
    {
      var j :| 0 <= j < |end.devices| && end.devices[j] == d;
      assert b.devices[j] in b.devices;
      SameIdsFind(b.accounts, end.accounts, d.user);
    }
  }

  lemma StepKeepsOwners(w: World, e: WorldEvent, next: World)
    requires WorldTo(w, e, next) && OwnersKnown(w.books) && DistinctAccounts(w.books.accounts)
    ensures OwnersKnown(next.books)
  {
    if e.Booked? && e.event.CollectStats? {
      CollectionKeepsOwners(w.books, e.event.node, e.event.stats);
    }
  }

  lemma {:induction false} OwnersOverHistory(worlds: seq<World>, events: seq<WorldEvent>, k: nat)
    requires IsHistory(worlds, events) && OwnersKnown(worlds[0].books) && k < |worlds|
    ensures OwnersKnown(worlds[k].books) && DistinctAccounts(worlds[k].books.accounts)
  {
    HistoryIsFair(worlds, events, k);
    if k > 0 {
      OwnersOverHistory(worlds, events, k - 1);
      assert WorldTo(worlds[k - 1], events[k - 1], worlds[k]);
      StepKeepsOwners(worlds[k - 1], events[k - 1], worlds[k]);
    }
  }

  lemma FollowsOn(r: NodeRow, c: Counter, s: NodeRow, d: Counter, t: NodeRow, e: Counter)
    requires Follows(r, c, s, d) && Follows(s, d, t, e)
    ensures Follows(r, c, t, e)
  {
    forall x
      ensures Accounted(t, e, x) - Accounted(r, c, x) == In(e.moved, x) - In(c.moved, x)
    {
      assert Accounted(s, d, x) - Accounted(r, c, x) == In(d.moved, x) - In(c.moved, x);
    }
  }

  /**
   Nothing is lost while a node does not restart: from any moment at which its counter shows at least the
   last reading, what a row is charged and what is still unread grow by exactly what the counter counts.
   */
  lemma {:induction false} WithoutRestartNothingIsLost(worlds: seq<World>, events: seq<WorldEvent>, m: nat, k: nat,
                                                       r: NodeRow)
      returns (r': NodeRow)
    requires IsHistory(worlds, events) && OwnersKnown(worlds[0].books) && m <= k < |worlds|
    requires r in worlds[m].books.rows && Unbroken(r, worlds[m].counters(r.user, r.node))
    requires Restarts(r.node) !in events[m..k]
    ensures r' in worlds[k].books.rows
    ensures Follows(r, worlds[m].counters(r.user, r.node), r', worlds[k].counters(r.user, r.node))
  {
    if m == k {
      r' := r;
    } else {
      assert events[m..k] == events[m..k - 1] + [events[k - 1]];
      var s := WithoutRestartNothingIsLost(worlds, events, m, k - 1, r);
      OwnersOverHistory(worlds, events, k - 1);
      assert WorldTo(worlds[k - 1], events[k - 1], worlds[k]);
      r' := WorldStepFollows(worlds[k - 1], events[k - 1], worlds[k], s);
      FollowsOn(r, worlds[m].counters(r.user, r.node), s, worlds[k - 1].counters(r.user, r.node),
                r', worlds[k].counters(r.user, r.node));
    }
  }

  /** Between two readings of a row without a restart of its node, it is charged exactly what the counter counted. */
  lemma ChargedIsMovedBetweenReadings(worlds: seq<World>, events: seq<WorldEvent>, m: nat, k: nat, r: NodeRow,
                                      r': NodeRow)
    requires IsHistory(worlds, events) && OwnersKnown(worlds[0].books) && m <= k < |worlds|
    requires r in worlds[m].books.rows && r.last == worlds[m].counters(r.user, r.node).raw
    requires r' in worlds[k].books.rows && r'.user == r.user && r'.node == r.node
    requires r'.last == worlds[k].counters(r.user, r.node).raw
    requires Restarts(r.node) !in events[m..k]
    ensures var before, after := worlds[m].counters(r.user, r.node).moved, worlds[k].counters(r.user, r.node).moved;
            r'.up - r.up == after.up - before.up && r'.down - r.down == after.down - before.down
  {
    var c, c' := worlds[m].counters(r.user, r.node), worlds[k].counters(r.user, r.node);
    var s := WithoutRestartNothingIsLost(worlds, events, m, k, r);
    HistoryIsFair(worlds, events, k);
    var i :| 0 <= i < |worlds[k].books.rows| && worlds[k].books.rows[i] == s;
    var j :| 0 <= j < |worlds[k].books.rows| && worlds[k].books.rows[j] == r';
    assert i == j;
    assert Accounted(r', c', Upward) - Accounted(r, c, Upward) == In(c'.moved, Upward) - In(c.moved, Upward);
    assert Accounted(r', c', Downward) - Accounted(r, c, Downward) == In(c'.moved, Downward) - In(c.moved, Downward);
  }

  /** Right after a collection in which a user is due, the user's row for the node is at what the counter shows. */
  lemma DueRowIsAtTheCounter(worlds: seq<World>, events: seq<WorldEvent>, k: nat, j: nat) returns (r: NodeRow)
    requires IsHistory(worlds, events) && OwnersKnown(worlds[0].books) && 0 < k < |worlds|
    requires events[k - 1].Booked? && events[k - 1].event.CollectStats? && j < |worlds[k - 1].books.accounts|
    requires var b := worlds[k - 1].books; Due(b.accounts[j], b.devices, events[k - 1].event.stats)
    ensures var a, node := worlds[k - 1].books.accounts[j], events[k - 1].event.node;
            && r in worlds[k].books.rows && r.user == a.id && r.node == node
            && r.last == worlds[k].counters(a.id, node).raw
  {
    var b, node, stats := worlds[k - 1].books, events[k - 1].event.node, events[k - 1].event.stats;
    var a := b.accounts[j];
    OwnersOverHistory(worlds, events, k - 1);
    assert WorldTo(worlds[k - 1], events[k - 1], worlds[k]);
    assert CounterTo(worlds[k - 1].counters(a.id, node), events[k - 1], a.id, node, worlds[k].counters(a.id, node));
    assert a in b.accounts;
    DueUserIsBilled(b, node, stats, j);
    r := RowAtReading(RowsOf(b.rows, a.id), RowsOf(worlds[k].books.rows, a.id), a, node, stats[a.username]);
  }

  lemma RowAtReading(own: seq<NodeRow>, own': seq<NodeRow>, a: Account, node: NodeId, raw: Pair) returns (r: NodeRow)
    requires exists delta :: RowCharged(own, own', a, node, raw, delta)
    ensures r in own' && r.node == node && r.last == raw
  {
    var delta :| RowCharged(own, own', a, node, raw, delta);
    if i :| 0 <= i < |own| && own[i].node == node && own' == own[i := RowRead(own[i], raw)] {
      r := own'[i];
    } else {
      r := own'[|own|];
    }
  }
}
