/**
 Deltas from a remote counter that grows and may restart at zero
 (`apply_user_node_raw_counters`, `apply_device_raw_counters`, `apply_node_raw_counters`).
 The true counter is an environment process; what the panel bills is related to it
 over every interleaving of growth, restarts and collections.
 */
module Counters {
  import opened Sums

  datatype Pair = Pair(up: int, down: int)

  predicate IsZero(p: Pair) {
    p.up == 0 && p.down == 0
  }

  predicate AtMost(a: Pair, b: Pair) {
    a.up <= b.up && a.down <= b.down
  }

  predicate IsSum(sum: Pair, a: Pair, b: Pair) {
    sum.up == a.up + b.up && sum.down == a.down + b.down
  }

  /** What a reading adds to the bill: nothing after a decrease in either direction, the growth otherwise. */
  function Delta(previous: Pair, raw: Pair): Pair {
    if AtMost(previous, raw) then Pair(raw.up - previous.up, raw.down - previous.down) else Pair(0, 0)
  }

  /** The branches of the source, with their separate treatment of the first collection. */
  method CounterDelta(previous: Pair, raw: Pair) returns (delta: Pair)
    requires raw.up >= 0 && raw.down >= 0
    ensures delta == Delta(previous, raw)
  {
    var first := previous.up == 0 && previous.down == 0;
    var up, down := raw.up, raw.down;
    if !first {
      up := if raw.up > previous.up then raw.up - previous.up else 0;
      down := if raw.down > previous.down then raw.down - previous.down else 0;
    }
    var decreased := raw.up < previous.up || raw.down < previous.down;
    if decreased && !first {
      up, down := 0, 0;
    }
    delta := Pair(up, down);
  }

  // ---------- one counter and its baseline ----------

  /** What Xray shows, and whether it restarted since the last reading. */
  datatype Xray = Xray(raw: Pair, restarted: bool)

  /** What the panel stores: the last reading and the bill so far. */
  datatype Row = Row(base: Pair, billed: Pair)

  /** What really happened: everything transferred, and the part of it since the last reading. */
  datatype Truth = Truth(moved: Pair, pending: Pair)

  datatype Link = Link(xray: Xray, row: Row, truth: Truth)

  datatype Event = Grow(bytes: Pair) | Restart | Collect

  predicate Fresh(l: Link) {
    && IsZero(l.xray.raw) && !l.xray.restarted
    && IsZero(l.row.base) && IsZero(l.row.billed)
    && IsZero(l.truth.moved) && IsZero(l.truth.pending)
  }

  /** A collection stores the reading and adds its delta to the bill. */
  predicate BillTo(row: Row, raw: Pair, next: Row) {
    next.base == raw && IsSum(next.billed, row.billed, Delta(row.base, raw))
  }

  /** `next` is the state after the event; each event has exactly one. */
  predicate StepTo(l: Link, e: Event, next: Link) {
    match e
    case Grow(bytes) =>
      && bytes.up >= 0 && bytes.down >= 0
      && IsSum(next.xray.raw, l.xray.raw, bytes) && next.xray.restarted == l.xray.restarted
      && next.row == l.row
      && IsSum(next.truth.moved, l.truth.moved, bytes) && IsSum(next.truth.pending, l.truth.pending, bytes)
    case Restart => IsZero(next.xray.raw) && next.xray.restarted && next.row == l.row && next.truth == l.truth
    case Collect =>
      && next.xray.raw == l.xray.raw && !next.xray.restarted
      && BillTo(l.row, l.xray.raw, next.row)
      && next.truth.moved == l.truth.moved && IsZero(next.truth.pending)
  }

  /** A run: the states passed through, and the event between each two. */
  ghost predicate IsRun(states: seq<Link>, events: seq<Event>) {
    && |states| == |events| + 1
    && Fresh(states[0])
    && forall i :: 0 <= i < |events| ==> StepTo(states[i], events[i], states[i + 1])
  }

  // ---------- never too much ----------

  /** Without a restart the counter shows the baseline plus what is pending; after one, at most what is pending. */
  predicate Consistent(l: Link) {
    && (if l.xray.restarted then AtMost(l.xray.raw, l.truth.pending)
        else IsSum(l.xray.raw, l.row.base, l.truth.pending))
    && l.row.base.up >= 0 && l.row.base.down >= 0
    && l.xray.raw.up >= 0 && l.xray.raw.down >= 0
    && l.truth.pending.up >= 0 && l.truth.pending.down >= 0
    && l.row.billed.up + l.truth.pending.up <= l.truth.moved.up
    && l.row.billed.down + l.truth.pending.down <= l.truth.moved.down
  }

  lemma StepConsistent(l: Link, e: Event, next: Link)
    requires Consistent(l) && StepTo(l, e, next)
    ensures Consistent(next) && AtMost(l.row.billed, next.row.billed)
  {
  }

  lemma {:induction false} RunConsistent(states: seq<Link>, events: seq<Event>, k: nat)
    requires IsRun(states, events) && k < |states|
    ensures Consistent(states[k])
  {
    if k > 0 {
      RunConsistent(states, events, k - 1);
      assert StepTo(states[k - 1], events[k - 1], states[k]);
      StepConsistent(states[k - 1], events[k - 1], states[k]);
    }
  }

  /** At every point of every run, what is billed does not exceed what was transferred, in either direction. */
  lemma NeverOverbilled(states: seq<Link>, events: seq<Event>, k: nat)
    requires IsRun(states, events) && k < |states|
    ensures AtMost(states[k].row.billed, states[k].truth.moved)
  {
    RunConsistent(states, events, k);
  }

  /** The bill never goes down. */
  lemma {:induction false} BillNeverDecreases(states: seq<Link>, events: seq<Event>, j: nat, k: nat)
    requires IsRun(states, events) && j <= k < |states|
    ensures AtMost(states[j].row.billed, states[k].row.billed)
  {
    if j < k {
      BillNeverDecreases(states, events, j, k - 1);
      RunConsistent(states, events, k - 1);
      assert StepTo(states[k - 1], events[k - 1], states[k]);
      StepConsistent(states[k - 1], events[k - 1], states[k]);
    }
  }

  // ---------- equal to the last reading ----------

  predicate AllBilled(l: Link) {
    !l.xray.restarted && l.row.billed == l.row.base && IsSum(l.truth.moved, l.row.billed, l.truth.pending)
  }

  lemma StepAllBilled(l: Link, e: Event, next: Link)
    requires Consistent(l) && AllBilled(l) && StepTo(l, e, next) && e != Restart
    ensures AllBilled(next)
  {
  }

  /** Without restarts the bill is the last reading, and everything read has been billed. */
  lemma {:induction false} WithoutRestartBilledIsLastReading(states: seq<Link>, events: seq<Event>, k: nat)
    requires IsRun(states, events) && k < |states| && Restart !in events[..k]
    ensures AllBilled(states[k])
  {
    if k > 0 {
      assert events[..k - 1] == events[..k][..k - 1] && events[k - 1] == events[..k][k - 1];
      WithoutRestartBilledIsLastReading(states, events, k - 1);
      RunConsistent(states, events, k - 1);
      assert StepTo(states[k - 1], events[k - 1], states[k]);
      StepAllBilled(states[k - 1], events[k - 1], states[k]);
    }
  }

  datatype Direction = Upward | Downward

  function In(p: Pair, d: Direction): int {
    if d == Upward then p.up else p.down
  }

  /** What a decreased reading hides: how far the counter fell below the baseline in this direction. */
  function Drop(l: Link, d: Direction): int {
    if AtMost(l.row.base, l.xray.raw) then 0 else In(l.row.base, d) - In(l.xray.raw, d)
  }

  /** The drops of the collections before `k`, added up. */
  function Drops(states: seq<Link>, events: seq<Event>, k: nat, d: Direction): int
    requires k < |states| == |events| + 1
  {
    if k == 0 then 0
    else Drops(states, events, k - 1, d) + (if events[k - 1] == Collect then Drop(states[k - 1], d) else 0)
  }

  lemma {:induction false} BilledIsReadingPlusDrops(states: seq<Link>, events: seq<Event>, k: nat, d: Direction)
    requires IsRun(states, events) && k < |states|
    ensures In(states[k].row.billed, d) == In(states[k].row.base, d) + Drops(states, events, k, d)
  {
    if k > 0 {
      BilledIsReadingPlusDrops(states, events, k - 1, d);
      assert StepTo(states[k - 1], events[k - 1], states[k]);
    }
  }

  /** Over every run the bill is the last reading exactly when the drops the panel saw add up to nothing. */
  lemma BilledIsLastReadingExactlyWhen(states: seq<Link>, events: seq<Event>, k: nat)
    requires IsRun(states, events) && k < |states|
    ensures states[k].row.billed == states[k].row.base <==>
            Drops(states, events, k, Upward) == 0 && Drops(states, events, k, Downward) == 0
  {
    BilledIsReadingPlusDrops(states, events, k, Upward);
    BilledIsReadingPlusDrops(states, events, k, Downward);
  }

  // ---------- exactly which readings are exact ----------

  /** This reading bills all that was transferred since the previous one. */
  predicate ExactReading(l: Link) {
    Delta(l.row.base, l.xray.raw) == l.truth.pending
  }

  /**
   A reading is exact exactly when Xray has not restarted since the previous one, or
   nothing was transferred, or the baseline was zero and the counter holds it all.
   */
  lemma ReadingExactlyWhen(states: seq<Link>, events: seq<Event>, k: nat)
    requires IsRun(states, events) && k < |states|
    ensures var l := states[k];
            ExactReading(l) <==>
                !l.xray.restarted || IsZero(l.truth.pending) || (IsZero(l.row.base) && l.xray.raw == l.truth.pending)
  {
    RunConsistent(states, events, k);
  }

  predicate Settled(l: Link) {
    IsSum(l.truth.moved, l.row.billed, l.truth.pending)
  }

  lemma StepSettlesExactly(l: Link, e: Event, next: Link)
    requires Consistent(l) && StepTo(l, e, next)
    ensures Settled(next) <==> Settled(l) && (e == Collect ==> ExactReading(l))
  {
  }

  /** All settled bytes are billed exactly when every reading so far was exact: losses are never made up. */
  lemma {:induction false} SettledExactlyWhen(states: seq<Link>, events: seq<Event>, k: nat)
    requires IsRun(states, events) && k < |states|
    ensures Settled(states[k]) <==> forall i :: 0 <= i < k && events[i] == Collect ==> ExactReading(states[i])
  {
    if k > 0 {
      SettledExactlyWhen(states, events, k - 1);
      SettledOneMore(states, events, k);
    }
  }

  lemma SettledOneMore(states: seq<Link>, events: seq<Event>, k: nat)
    requires IsRun(states, events) && 0 < k < |states|
    ensures Settled(states[k]) <==> Settled(states[k - 1]) && (events[k - 1] == Collect ==> ExactReading(states[k - 1]))
  {
    RunConsistent(states, events, k - 1);
    assert StepTo(states[k - 1], events[k - 1], states[k]);
    StepSettlesExactly(states[k - 1], events[k - 1], states[k]);
  }

  // ---------- runs that lose bytes without a trace ----------

  function LinkOf(raw: Pair, restarted: bool, base: Pair, billed: Pair, moved: Pair, pending: Pair): Link {
    Link(Xray(raw, restarted), Row(base, billed), Truth(moved, pending))
  }

  /**
   A restart of a counter that had not moved leaves no trace, so `WithoutRestartBilledIsLastReading`
   has no converse.
   */
  lemma RestartCanHide(zero: Pair, one: Pair) returns (states: seq<Link>, events: seq<Event>)
    requires IsZero(zero) && one.up > 0 && one.down == 0
    ensures IsRun(states, events) && Restart in events && events[|events| - 1] == Collect
    ensures AllBilled(states[|events|])
  {
    states := [LinkOf(zero, false, zero, zero, zero, zero), LinkOf(zero, true, zero, zero, zero, zero),
               LinkOf(one, true, zero, zero, one, one), LinkOf(one, false, one, one, one, zero)];
    events := [Restart, Grow(one), Collect];
    assert events[0] == Restart;
    assert StepTo(states[0], events[0], states[1]);
    assert StepTo(states[1], events[1], states[2]);
    assert StepTo(states[2], events[2], states[3]);
  }

  /** A bill equal to the last reading does not mean that nothing was lost: two decreases can cancel out. */
  lemma DecreasesCanCancel(zero: Pair, u: Pair, d: Pair, both: Pair, all: Pair)
      returns (states: seq<Link>, events: seq<Event>)
    requires IsZero(zero) && u.up > 0 && u.down == 0 && d.up == 0 && d.down > 0 && IsSum(both, u, d)
             && IsSum(all, both, u)
    ensures IsRun(states, events) && |events| > 0 && events[|events| - 1] == Collect
    ensures var l := states[|events|]; l.row.billed == l.row.base == u && l.truth.moved == all
  {
    states, events := [LinkOf(zero, false, zero, zero, zero, zero)], [];
    states, events := Extended(states, events, Grow(u), LinkOf(u, false, zero, zero, u, u));
    states, events := Extended(states, events, Collect, LinkOf(u, false, u, u, u, zero));
    states, events := Extended(states, events, Restart, LinkOf(zero, true, u, u, u, zero));
    states, events := Extended(states, events, Grow(d), LinkOf(d, true, u, u, both, d));
    states, events := Extended(states, events, Collect, LinkOf(d, false, d, u, both, zero));
    states, events := Extended(states, events, Restart, LinkOf(zero, true, d, u, both, zero));
    states, events := Extended(states, events, Grow(u), LinkOf(u, true, d, u, all, u));
    states, events := Extended(states, events, Collect, LinkOf(u, false, u, u, all, zero));
  }

  lemma Extended(before: seq<Link>, earlier: seq<Event>, e: Event, next: Link)
      returns (states: seq<Link>, events: seq<Event>)
    requires IsRun(before, earlier) && StepTo(before[|earlier|], e, next)
    ensures IsRun(states, events) && |events| > 0 && events[|events| - 1] == e && states[|events|] == next
  {
    states, events := before + [next], earlier + [e];
  }

  // ---------- a device seen on several nodes ----------

  /**
   The counter of the device on one node: what it shows, what it showed at the previous
   reading of that node, what moved there since, and whether it restarted since.
   */
  datatype Meter = Meter(raw: Pair, own: Pair, pending: Pair, restarted: bool)

  /** The device path keeps one baseline although every node counts on its own. */
  datatype Roaming = Roaming(meters: seq<Meter>, row: Row, moved: Pair)

  datatype RoamEvent = GrowAt(node: nat, bytes: Pair) | RestartAt(node: nat) | CollectFrom(node: nat)

  predicate MeterTo(m: Meter, e: RoamEvent, next: Meter) {
    match e
    case GrowAt(_, bytes) =>
      && bytes.up >= 0 && bytes.down >= 0
      && IsSum(next.raw, m.raw, bytes) && IsSum(next.pending, m.pending, bytes)
      && next.own == m.own && next.restarted == m.restarted
    case RestartAt(_) => IsZero(next.raw) && next.own == m.own && next.pending == m.pending && next.restarted
    case CollectFrom(_) => next.raw == next.own == m.raw && IsZero(next.pending) && !next.restarted
  }

  predicate RoamTo(r: Roaming, e: RoamEvent, next: Roaming) {
    && e.node < |r.meters| == |next.meters|
    && next.meters == r.meters[e.node := next.meters[e.node]]
    && MeterTo(r.meters[e.node], e, next.meters[e.node])
    && (if e.GrowAt? then IsSum(next.moved, r.moved, e.bytes) else next.moved == r.moved)
    && (if e.CollectFrom? then BillTo(r.row, r.meters[e.node].raw, next.row) else next.row == r.row)
  }

  predicate FreshMeter(m: Meter) {
    IsZero(m.raw) && IsZero(m.own) && IsZero(m.pending) && !m.restarted
  }

  ghost predicate IsJourney(states: seq<Roaming>, events: seq<RoamEvent>) {
    && |states| == |events| + 1
    && (forall n :: 0 <= n < |states[0].meters| ==> FreshMeter(states[0].meters[n]))
    && IsZero(states[0].row.base) && IsZero(states[0].row.billed) && IsZero(states[0].moved)
    && forall i :: 0 <= i < |events| ==> RoamTo(states[i], events[i], states[i + 1])
  }

  predicate MeterConsistent(m: Meter) {
    && (if m.restarted then AtMost(m.raw, m.pending) else IsSum(m.raw, m.own, m.pending))
    && m.raw.up >= 0 && m.raw.down >= 0 && m.own.up >= 0 && m.own.down >= 0
    && m.pending.up >= 0 && m.pending.down >= 0
  }

  ghost predicate JourneyConsistent(r: Roaming) {
    && (forall n :: 0 <= n < |r.meters| ==> MeterConsistent(r.meters[n]))
    && r.row.base.up >= 0 && r.row.base.down >= 0
  }

  lemma MeterKeepsConsistent(m: Meter, e: RoamEvent, next: Meter)
    requires MeterConsistent(m) && MeterTo(m, e, next)
    ensures MeterConsistent(next)
  {
  }

  lemma {:induction false} JourneyIsConsistent(states: seq<Roaming>, events: seq<RoamEvent>, k: nat)
    requires IsJourney(states, events) && k < |states|
    ensures JourneyConsistent(states[k]) && |states[k].meters| == |states[0].meters|
  {
    if k > 0 {
      JourneyIsConsistent(states, events, k - 1);
      var r, e, next := states[k - 1], events[k - 1], states[k];
      assert RoamTo(r, e, next);
      MeterKeepsConsistent(r.meters[e.node], e, next.meters[e.node]);
    }
  }

  /** A reading of node `n` would bill at most what moved there since its previous reading. */
  predicate FairReading(r: Roaming, n: nat)
    requires n < |r.meters|
  {
    AtMost(Delta(r.row.base, r.meters[n].raw), r.meters[n].pending)
  }

  /**
   The shared baseline hides nothing of the node: its counter restarted or fell, or the baseline is
   no lower than its own.
   */
  predicate BaselineServes(r: Roaming, n: nat)
    requires n < |r.meters|
  {
    var m := r.meters[n];
    m.restarted || !AtMost(r.row.base, m.raw) || AtMost(m.own, r.row.base)
  }

  lemma MeterFairExactlyWhen(base: Pair, m: Meter)
    requires MeterConsistent(m) && base.up >= 0 && base.down >= 0
    ensures AtMost(Delta(base, m.raw), m.pending) <==> m.restarted || !AtMost(base, m.raw) || AtMost(m.own, base)
  {
  }

  /** At every point of every journey, whether a reading overbills is decided by readings and restarts alone. */
  lemma FairReadingExactlyWhen(states: seq<Roaming>, events: seq<RoamEvent>, k: nat, n: nat)
    requires IsJourney(states, events) && k < |states| && n < |states[k].meters|
    ensures FairReading(states[k], n) <==> BaselineServes(states[k], n)
  {
    JourneyIsConsistent(states, events, k);
    MeterFairExactlyWhen(states[k].row.base, states[k].meters[n]);
  }

  // ---------- what a journey overbills ----------

  function Positive(x: int): int {
    if x > 0 then x else 0
  }

  /** How far the node's own previous reading lies above the shared baseline, if that is what gets billed. */
  function Excess(r: Roaming, n: nat, d: Direction): int
    requires n < |r.meters|
  {
    if r.meters[n].restarted || !AtMost(r.row.base, r.meters[n].raw) then 0
    else Positive(In(r.meters[n].own, d) - In(r.row.base, d))
  }

  /** The readings before `k`, their excess added up. */
  ghost function TotalExcess(states: seq<Roaming>, events: seq<RoamEvent>, k: nat, d: Direction): int
    requires IsJourney(states, events) && k < |states|
  {
    if k == 0 then 0
    else
      var before := TotalExcess(states, events, k - 1, d);
      assert RoamTo(states[k - 1], events[k - 1], states[k]);
      if events[k - 1].CollectFrom? then before + Excess(states[k - 1], events[k - 1].node, d) else before
  }

  lemma TotalExcessStep(states: seq<Roaming>, events: seq<RoamEvent>, k: nat, d: Direction)
    requires IsJourney(states, events) && 0 < k < |states|
    ensures RoamTo(states[k - 1], events[k - 1], states[k])
    ensures TotalExcess(states, events, k, d) == TotalExcess(states, events, k - 1, d)
            + (if events[k - 1].CollectFrom? then Excess(states[k - 1], events[k - 1].node, d) else 0)
  {
    assert RoamTo(states[k - 1], events[k - 1], states[k]);
  }

  function Pending(d: Direction): Meter -> int {
    (m: Meter) => In(m.pending, d)
  }

  lemma {:induction false} NothingPending(meters: seq<Meter>, d: Direction)
    requires forall n :: 0 <= n < |meters| ==> FreshMeter(meters[n])
    ensures Sum(meters, Pending(d)) == 0
  {
    if meters != [] {
      NothingPending(meters[..|meters| - 1], d);
    }
  }

  lemma {:induction false} PendingNonNegative(meters: seq<Meter>, d: Direction)
    requires forall n :: 0 <= n < |meters| ==> MeterConsistent(meters[n])
    ensures Sum(meters, Pending(d)) >= 0
  {
    if meters != [] {
      PendingNonNegative(meters[..|meters| - 1], d);
    }
  }

  /** What one reading adds to the bill, against what was pending. */
  lemma ReadingBound(r: Roaming, n: nat, d: Direction)
    requires n < |r.meters| && MeterConsistent(r.meters[n]) && r.row.base.up >= 0 && r.row.base.down >= 0
    ensures In(Delta(r.row.base, r.meters[n].raw), d) <= In(r.meters[n].pending, d) + Excess(r, n, d)
  {
  }

  /** Billed and pending, less what was moved. */
  function Surplus(r: Roaming, d: Direction): int {
    In(r.row.billed, d) + Sum(r.meters, Pending(d)) - In(r.moved, d)
  }

  lemma RoamBound(r: Roaming, e: RoamEvent, next: Roaming, d: Direction)
    requires e.node < |r.meters| == |next.meters| && MeterConsistent(r.meters[e.node])
    requires r.row.base.up >= 0 && r.row.base.down >= 0 && RoamTo(r, e, next)
    ensures Surplus(next, d) <= Surplus(r, d) + (if e.CollectFrom? then Excess(r, e.node, d) else 0)
  {
    SumUpdate(r.meters, Pending(d), e.node, next.meters[e.node]);
    ReadingBound(r, e.node, d);
  }

  lemma RoamsConsistently(states: seq<Roaming>, events: seq<RoamEvent>, k: nat)
    requires IsJourney(states, events) && 0 < k < |states|
    ensures var r, e := states[k - 1], events[k - 1];
            && RoamTo(r, e, states[k]) && MeterConsistent(r.meters[e.node])
            && r.row.base.up >= 0 && r.row.base.down >= 0
  {
    assert RoamTo(states[k - 1], events[k - 1], states[k]);
    JourneyIsConsistent(states, events, k - 1);
  }

  lemma SurplusStep(states: seq<Roaming>, events: seq<RoamEvent>, k: nat, d: Direction)
    requires IsJourney(states, events) && 0 < k < |states|
    ensures Surplus(states[k], d) - Surplus(states[k - 1], d) <=
            TotalExcess(states, events, k, d) - TotalExcess(states, events, k - 1, d)
  {
    TotalExcessStep(states, events, k, d);
    RoamsConsistently(states, events, k);
    RoamBound(states[k - 1], events[k - 1], states[k], d);
  }

  lemma {:induction false} BilledAndPendingBound(states: seq<Roaming>, events: seq<RoamEvent>, k: nat, d: Direction)
    requires IsJourney(states, events) && k < |states|
    ensures Surplus(states[k], d) <= TotalExcess(states, events, k, d)
  {
    if k == 0 {
      NothingPending(states[0].meters, d);
    } else {
      BilledAndPendingBound(states, events, k - 1, d);
      SurplusStep(states, events, k, d);
    }
  }

  /** Over every journey the device is billed at most for what it moved and the excess of the readings so far. */
  lemma BilledAtMostMovedPlusExcess(states: seq<Roaming>, events: seq<RoamEvent>, k: nat, d: Direction)
    requires IsJourney(states, events) && k < |states|
    ensures In(states[k].row.billed, d) <= In(states[k].moved, d) + TotalExcess(states, events, k, d)
  {
    BilledAndPendingBound(states, events, k, d);
    JourneyIsConsistent(states, events, k);
    PendingNonNegative(states[k].meters, d);
  }

  /** The readings of a journey. */
  ghost predicate AllFair(states: seq<Roaming>, events: seq<RoamEvent>, k: nat)
    requires IsJourney(states, events) && k < |states|
  {
    forall i :: 0 <= i < k && events[i].CollectFrom? && events[i].node < |states[i].meters| ==>
      FairReading(states[i], events[i].node)
  }

  lemma FairMeansNoExcess(r: Roaming, n: nat)
    requires JourneyConsistent(r) && n < |r.meters|
    ensures FairReading(r, n) <==> Excess(r, n, Upward) == 0 && Excess(r, n, Downward) == 0
  {
    MeterFairExactlyWhen(r.row.base, r.meters[n]);
  }

  /** No reading of a journey overbills exactly when the excess stays zero in both directions. */
  lemma {:induction false} AllFairExactlyWhen(states: seq<Roaming>, events: seq<RoamEvent>, k: nat)
    requires IsJourney(states, events) && k < |states|
    ensures TotalExcess(states, events, k, Upward) >= 0 && TotalExcess(states, events, k, Downward) >= 0
    ensures AllFair(states, events, k) <==>
            TotalExcess(states, events, k, Upward) == 0 && TotalExcess(states, events, k, Downward) == 0
  {
    if k > 0 {
      AllFairExactlyWhen(states, events, k - 1);
      JourneyIsConsistent(states, events, k - 1);
      TotalExcessStep(states, events, k, Upward);
      TotalExcessStep(states, events, k, Downward);
      if events[k - 1].CollectFrom? {
        FairMeansNoExcess(states[k - 1], events[k - 1].node);
      }
    }
  }

  /** Until `k` the device was only collected from node `n`: the shared baseline is the node's own. */
  lemma {:induction false} OneNodeKeepsItsBaseline(states: seq<Roaming>, events: seq<RoamEvent>, n: nat, k: nat)
    requires IsJourney(states, events) && k < |states| && n < |states[0].meters|
    requires forall i :: 0 <= i < k && events[i].CollectFrom? ==> events[i].node == n
    ensures n < |states[k].meters| && states[k].meters[n].own == states[k].row.base
    ensures AllFair(states, events, k)
  {
    if k > 0 {
      OneNodeKeepsItsBaseline(states, events, n, k - 1);
      assert RoamTo(states[k - 1], events[k - 1], states[k]);
      FairReadingExactlyWhen(states, events, k - 1, n);
    }
  }

  /** So its bill stays below what was transferred. */
  lemma OneNodeNeverOverbilled(states: seq<Roaming>, events: seq<RoamEvent>, n: nat, k: nat)
    requires IsJourney(states, events) && k < |states| && n < |states[0].meters|
    requires forall i :: 0 <= i < k && events[i].CollectFrom? ==> events[i].node == n
    ensures AtMost(states[k].row.billed, states[k].moved)
  {
    OneNodeKeepsItsBaseline(states, events, n, k);
    AllFairExactlyWhen(states, events, k);
    BilledAtMostMovedPlusExcess(states, events, k, Upward);
    BilledAtMostMovedPlusExcess(states, events, k, Downward);
  }

  /** Collected from two nodes in turn, the single baseline bills bytes that were never transferred. */
  lemma TwoNodesOverbill(zero: Pair, a: Pair, b: Pair, all: Pair, bill: Pair)
      returns (states: seq<Roaming>, events: seq<RoamEvent>)
    requires IsZero(zero) && a.up > 2 * b.up > 0 && a.down == b.down == 0
    requires IsSum(all, a, b) && bill.up == a.up + a.up - b.up && bill.down == 0
    ensures IsJourney(states, events) && states[|events|].row.billed == bill && states[|events|].moved == all
    ensures bill.up > all.up
  {
    var start := Row(zero, zero);
    var none := Meter(zero, zero, zero, false);
    var a1, b1 := Meter(a, zero, a, false), Meter(b, zero, b, false);
    var a2, b2 := Meter(a, a, zero, false), Meter(b, b, zero, false);
    states := [Roaming([none, none], start, zero), Roaming([a1, none], start, a), Roaming([a1, b1], start, all),
               Roaming([a2, b1], Row(a, a), all), Roaming([a2, b2], Row(b, a), all),
                   Roaming([a2, b2], Row(a, bill), all)];
    events := [GrowAt(0, a), GrowAt(1, b), CollectFrom(0), CollectFrom(1), CollectFrom(0)];
    assert RoamTo(states[0], events[0], states[1]) && RoamTo(states[1], events[1], states[2]);
    assert RoamTo(states[2], events[2], states[3]) && RoamTo(states[3], events[3], states[4]);
    assert RoamTo(states[4], events[4], states[5]);
  }
}
