/**
 Traffic accounting (`backend/app/services/traffic.py`, `apply_node_raw_counters` of
 `backend/app/services/server_metrics.py`): one collection walks the device rows, then
 the users, billing deltas to rows, devices, users and snapshots.
 */
module Traffic {
  import opened Wrappers
  import opened Decimal
  import opened Entities
  import opened Sums
  import opened Counters

  datatype Account = Account(id: UserId, username: string, status: UserStatus, limit: Option<int>,
                             usedUp: int, usedDown: int, usedTotal: int, lastRaw: Pair)
  datatype NodeRow = NodeRow(user: UserId, node: NodeId, up: int, down: int, total: int, last: Pair)
  datatype DeviceRow = DeviceRow(id: DeviceId, user: UserId, up: int, down: int, total: int, last: Pair)
  datatype Server = Server(node: NodeId, up: int, down: int, total: int, last: Pair)
  datatype Snapshot = Snapshot(user: Option<UserId>, node: NodeId, up: int, down: int, total: int)

  /** The tables; `removed` remembers the device rows that were deleted. */
  datatype Books = Books(
    accounts: seq<Account>,
    rows: seq<NodeRow>,
    devices: seq<DeviceRow>,
    removed: seq<DeviceRow>,
    servers: seq<Server>,
    snapshots: seq<Snapshot>)

  type Stats = map<string, Pair>

  // ---------- sums over a table ----------

  datatype Column = Up | Down | Total

  function Used(a: Account, c: Column): int {
    match c case Up => a.usedUp case Down => a.usedDown case Total => a.usedTotal
  }

  function RowBytes(r: NodeRow, c: Column): int {
    match c case Up => r.up case Down => r.down case Total => r.total
  }

  function DeviceBytes(d: DeviceRow, c: Column): int {
    match c case Up => d.up case Down => d.down case Total => d.total
  }

  function ServerBytes(s: Server, c: Column): int {
    match c case Up => s.up case Down => s.down case Total => s.total
  }

  function SnapshotBytes(s: Snapshot, c: Column): int {
    match c case Up => s.up case Down => s.down case Total => s.total
  }

  function Bytes(d: Pair, c: Column): int {
    match c case Up => d.up case Down => d.down case Total => d.up + d.down
  }

  function RowPart(u: UserId, c: Column): NodeRow -> int {
    (r: NodeRow) => if r.user == u then RowBytes(r, c) else 0
  }

  function DevicePart(u: UserId, c: Column): DeviceRow -> int {
    (d: DeviceRow) => if d.user == u then DeviceBytes(d, c) else 0
  }

  function SnapshotPart(u: UserId, c: Column): Snapshot -> int {
    (s: Snapshot) => if s.user == Some(u) then SnapshotBytes(s, c) else 0
  }

  function ServerPart(n: NodeId, c: Column): Snapshot -> int {
    (s: Snapshot) => if s.user == None && s.node == n then SnapshotBytes(s, c) else 0
  }

  function UserPartOnNode(n: NodeId, c: Column): Snapshot -> int {
    (s: Snapshot) => if s.user.Some? && s.node == n then SnapshotBytes(s, c) else 0
  }

  function NodePart(n: NodeId, c: Column): Snapshot -> int {
    (s: Snapshot) => if s.node == n then SnapshotBytes(s, c) else 0
  }

  function RawUp(u: UserId): NodeRow -> int {
    (r: NodeRow) => if r.user == u then r.last.up else 0
  }

  function RawDown(u: UserId): NodeRow -> int {
    (r: NodeRow) => if r.user == u then r.last.down else 0
  }

  function DeviceRawUp(u: UserId): DeviceRow -> int {
    (d: DeviceRow) => if d.user == u then d.last.up else 0
  }

  function DeviceRawDown(u: UserId): DeviceRow -> int {
    (d: DeviceRow) => if d.user == u then d.last.down else 0
  }

  // ---------- billing one reading ----------

  function SnapshotOf(user: Option<UserId>, node: NodeId, d: Pair): Snapshot {
    Snapshot(user, node, d.up, d.down, d.up + d.down)
  }

  function FindAccount(accounts: seq<Account>, id: UserId): (r: Option<nat>)
    ensures r.Some? ==> r.value < |accounts| && accounts[r.value].id == id
    ensures r.None? ==> forall a :: a in accounts ==> a.id != id
  {
    if accounts == [] then None
    else if accounts[|accounts| - 1].id == id then Some(|accounts| - 1)
    else FindAccount(accounts[..|accounts| - 1], id)
  }

  function FindRow(rows: seq<NodeRow>, u: UserId, n: NodeId): (r: Option<nat>)
    ensures r.Some? ==> r.value < |rows| && rows[r.value].user == u && rows[r.value].node == n
    ensures r.None? ==> forall x :: x in rows ==> x.user != u || x.node != n
  {
    if rows == [] then None
    else if rows[|rows| - 1].user == u && rows[|rows| - 1].node == n then Some(|rows| - 1)
    else FindRow(rows[..|rows| - 1], u, n)
  }

  predicate OverLimit(a: Account) {
    a.limit.Some? && a.limit.value != 0 && a.usedTotal >= a.limit.value
  }

  /** The user's row after a delta, with the raw readings summed over its rows or devices. */
  function Charged(a: Account, d: Pair, lastRaw: Pair): Account {
    var billed := a.(usedUp := a.usedUp + d.up, usedDown := a.usedDown + d.down,
                     usedTotal := a.usedTotal + d.up + d.down, lastRaw := lastRaw);
    if OverLimit(billed) then billed.(status := UserStatus.TrafficLimited) else billed
  }

  function ChargedRow(r: NodeRow, raw: Pair): NodeRow {
    var d := Delta(r.last, raw);
    r.(up := r.up + d.up, down := r.down + d.down, total := r.total + d.up + d.down, last := raw)
  }

  function ChargedDevice(d: DeviceRow, raw: Pair): DeviceRow {
    var delta := Delta(d.last, raw);
    d.(up := d.up + delta.up, down := d.down + delta.down, total := d.total + delta.up + delta.down, last := raw)
  }

  /** `apply_user_node_raw_counters` on row `k` of account `i`, with its snapshot. */
  function BillRow(b: Books, i: nat, k: nat, raw: Pair): Books
    requires i < |b.accounts| && k < |b.rows|
  {
    var u := b.accounts[i].id;
    var d := Delta(b.rows[k].last, raw);
    var rows := b.rows[k := ChargedRow(b.rows[k], raw)];
    var lastRaw := Pair(Sum(rows, RawUp(u)), Sum(rows, RawDown(u)));
    b.(rows := rows,
       accounts := b.accounts[i := Charged(b.accounts[i], d, lastRaw)],
       snapshots := b.snapshots + [SnapshotOf(Some(u), b.rows[k].node, d)])
  }

  /** `apply_device_raw_counters` on device `k` of account `i`, with its snapshot. */
  function BillDevice(b: Books, i: nat, k: nat, node: NodeId, raw: Pair): Books
    requires i < |b.accounts| && k < |b.devices|
  {
    var u := b.accounts[i].id;
    var d := Delta(b.devices[k].last, raw);
    var devices := b.devices[k := ChargedDevice(b.devices[k], raw)];
    var lastRaw := Pair(Sum(devices, DeviceRawUp(u)), Sum(devices, DeviceRawDown(u)));
    b.(devices := devices,
       accounts := b.accounts[i := Charged(b.accounts[i], d, lastRaw)],
       snapshots := b.snapshots + [SnapshotOf(Some(u), node, d)])
  }

  /** An empty row, with the legacy baseline if the user has no row yet. */
  function NewRow(b: Books, i: nat, node: NodeId): NodeRow
    requires i < |b.accounts|
  {
    var u := b.accounts[i].id;
    var legacy := forall r :: r in b.rows ==> r.user != u;
    NodeRow(u, node, 0, 0, 0, if legacy then b.accounts[i].lastRaw else Pair(0, 0))
  }

  /** `get_user_node_traffic`: the row of the pair, created if there is none. */
  function WithRow(b: Books, i: nat, node: NodeId): (r: Books)
    requires i < |b.accounts|
    ensures FindRow(r.rows, b.accounts[i].id, node).Some?
  {
    if FindRow(b.rows, b.accounts[i].id, node).Some? then b else b.(rows := b.rows + [NewRow(b, i, node)])
  }

  // ---------- one collection ----------

  function Email(d: DeviceRow): string {
    DeviceEmail(d.user, d.id)
  }

  /** One turn of the loop over the device table. */
  function DeviceTurn(b: Books, node: NodeId, stats: Stats, k: nat): (r: Books)
    requires k < |b.devices|
    ensures |r.devices| == |b.devices| && |r.accounts| == |b.accounts|
  {
    var d := b.devices[k];
    var i := FindAccount(b.accounts, d.user);
    if Email(d) in stats && i.Some? then BillDevice(b, i.value, k, node, stats[Email(d)]) else b
  }

  function DevicesPass(b: Books, node: NodeId, stats: Stats, k: nat): (r: Books)
    requires k <= |b.devices|
    ensures |r.devices| == |b.devices| && |r.accounts| == |b.accounts|
  {
    if k == 0 then b else DeviceTurn(DevicesPass(b, node, stats, k - 1), node, stats, k - 1)
  }

  /** Users with a device in the statistics are not billed again under their user name. */
  predicate HandledByDevice(devices: seq<DeviceRow>, stats: Stats, u: UserId) {
    exists d :: d in devices && d.user == u && Email(d) in stats
  }

  predicate Collectable(a: Account) {
    a.status == UserStatus.Active || a.status == UserStatus.TrafficLimited
  }

  /** One turn of the loop over the users that were active or limited when the collection began. */
  function UserTurn(b: Books, start: Books, node: NodeId, stats: Stats, k: nat): (r: Books)
    requires k < |start.accounts| == |b.accounts|
    ensures |r.accounts| == |b.accounts|
  {
    var a := start.accounts[k];
    if !Collectable(a) || HandledByDevice(start.devices, stats, a.id) || a.username !in stats then b
    else
      var ready := WithRow(b, k, node);
      BillRow(ready, k, FindRow(ready.rows, b.accounts[k].id, node).value, stats[a.username])
  }

  function UsersPass(b: Books, start: Books, node: NodeId, stats: Stats, k: nat): (r: Books)
    requires k <= |start.accounts| == |b.accounts|
    ensures |r.accounts| == |b.accounts|
  {
    if k == 0 then b else UserTurn(UsersPass(b, start, node, stats, k - 1), start, node, stats, k - 1)
  }

  function AfterStats(b: Books, node: NodeId, stats: Stats): Books {
    UsersPass(DevicesPass(b, node, stats, |b.devices|), b, node, stats, |b.accounts|)
  }

  /** What every turn of the loop over the devices keeps, the loop keeps. */
  lemma {:induction false} DevicesPassKeeps(b: Books, node: NodeId, stats: Stats, k: nat, inv: Books -> bool)
    requires k <= |b.devices| && inv(b)
    requires forall x: Books, j: nat :: j < |x.devices| && inv(x) ==> inv(DeviceTurn(x, node, stats, j))
    ensures inv(DevicesPass(b, node, stats, k))
  {
    if k > 0 {
      DevicesPassKeeps(b, node, stats, k - 1, inv);
    }
  }

  lemma {:induction false} UsersPassKeeps(b: Books, start: Books, node: NodeId, stats: Stats, k: nat,
                                          inv: Books -> bool)
    requires k <= |start.accounts| == |b.accounts| && inv(b)
    requires forall x: Books, j: nat :: j < |start.accounts| == |x.accounts| && inv(x) ==>
               inv(UserTurn(x, start, node, stats, j))
    ensures inv(UsersPass(b, start, node, stats, k))
  {
    if k > 0 {
      UsersPassKeeps(b, start, node, stats, k - 1, inv);
    }
  }

  /** An invariant of both loops is one of the collection. */
  lemma CollectionKeeps(b: Books, node: NodeId, stats: Stats, inv: Books -> bool)
    requires inv(b)
    requires forall x: Books, j: nat :: j < |x.devices| && inv(x) ==> inv(DeviceTurn(x, node, stats, j))
    requires forall x: Books, j: nat :: j < |b.accounts| == |x.accounts| && inv(x) ==>
               inv(UserTurn(x, b, node, stats, j))
    ensures inv(AfterStats(b, node, stats))
  {
    DevicesPassKeeps(b, node, stats, |b.devices|, inv);
    UsersPassKeeps(DevicesPass(b, node, stats, |b.devices|), b, node, stats, |b.accounts|, inv);
  }

  /** `apply_node_raw_counters` on server `k`, with a snapshot when something was transferred. */
  function AfterInbound(b: Books, k: nat, raw: Pair): Books
    requires k < |b.servers|
  {
    var s := b.servers[k];
    var d := Delta(s.last, raw);
    var server := s.(up := s.up + d.up, down := s.down + d.down, total := s.total + d.up + d.down, last := raw);
    var servers := b.servers[k := server];
    b.(servers := servers,
       snapshots := if d.up + d.down > 0 then b.snapshots + [SnapshotOf(None, s.node, d)] else b.snapshots)
  }

  function AfterRemoval(b: Books, k: nat): Books
    requires k < |b.devices|
  {
    b.(devices := b.devices[..k] + b.devices[k + 1..], removed := b.removed + [b.devices[k]])
  }

  // ---------- conservation ----------

  /** What user `u` has been charged, from the user's rows and devices, removed ones included. */
  function ChargedTo(b: Books, u: UserId, c: Column): int {
    Sum(b.rows, RowPart(u, c)) + Sum(b.devices, DevicePart(u, c)) + Sum(b.removed, DevicePart(u, c))
  }

  predicate TotalsAdd(a: Account) {
    a.usedTotal == a.usedUp + a.usedDown
  }

  ghost predicate UserConserved(b: Books, a: Account, c: Column) {
    Used(a, c) == ChargedTo(b, a.id, c) == Sum(b.snapshots, SnapshotPart(a.id, c))
  }

  ghost predicate Conserved(b: Books) {
    && (forall i, j :: 0 <= i < j < |b.accounts| ==> b.accounts[i].id != b.accounts[j].id)
    && (forall a, c :: a in b.accounts ==> UserConserved(b, a, c))
    && (forall a :: a in b.accounts ==> TotalsAdd(a))
  }

  ghost predicate ServersConserved(b: Books) {
    && (forall i, j :: 0 <= i < j < |b.servers| ==> b.servers[i].node != b.servers[j].node)
    && (forall s, c :: s in b.servers ==> ServerBytes(s, c) == Sum(b.snapshots, ServerPart(s.node, c)))
  }

  /** Charges and snapshots of the `j`-th user grow by the delta if it is the `i`-th, and stay otherwise. */
  ghost predicate GrewFor(b: Books, b': Books, i: nat, d: Pair, j: nat, c: Column)
    requires j < |b.accounts|
  {
    var id := b.accounts[j].id;
    var amount := if j == i then Bytes(d, c) else 0;
    && ChargedTo(b', id, c) == ChargedTo(b, id, c) + amount
    && Sum(b'.snapshots, SnapshotPart(id, c)) == Sum(b.snapshots, SnapshotPart(id, c)) + amount
  }

  /** The account part of a charge: every account but `i` is untouched, and `i` grows by the delta. */
  lemma ChargeAccount(b: Books, i: nat, d: Pair, lastRaw: Pair, b': Books)
    requires Conserved(b) && i < |b.accounts|
    requires b'.accounts == b.accounts[i := Charged(b.accounts[i], d, lastRaw)]
    requires forall j: nat, c :: j < |b.accounts| ==> GrewFor(b, b', i, d, j, c)
    ensures Conserved(b')
  {
    forall j: nat, c | j < |b'.accounts|
      ensures UserConserved(b', b'.accounts[j], c) && TotalsAdd(b'.accounts[j])
    {
      var a := b.accounts[j];
      assert a in b.accounts && UserConserved(b, a, c) && TotalsAdd(a);
      assert GrewFor(b, b', i, d, j, c);
      assert b'.accounts[j].id == a.id;
    }
    forall a | a in b'.accounts
      ensures TotalsAdd(a)
    {
      var j :| 0 <= j < |b'.accounts| && b'.accounts[j] == a;
      assert UserConserved(b', b'.accounts[j], Up)
             && TotalsAdd(b.accounts[j]) by { assert b.accounts[j] in b.accounts; }
    }
  }

  lemma BillRowConserves(b: Books, i: nat, k: nat, raw: Pair)
    requires Conserved(b) && i < |b.accounts| && k < |b.rows| && b.rows[k].user == b.accounts[i].id
    ensures Conserved(BillRow(b, i, k, raw))
  {
    var b' := BillRow(b, i, k, raw);
    var d := Delta(b.rows[k].last, raw);
    forall j: nat, c | j < |b.accounts|
      ensures GrewFor(b, b', i, d, j, c)
    {
      var id := b.accounts[j].id;
      SumUpdate(b.rows, RowPart(id, c), k, ChargedRow(b.rows[k], raw));
      SumAppend(b.snapshots, SnapshotPart(id, c), SnapshotOf(Some(b.accounts[i].id), b.rows[k].node, d));
    }
    ChargeAccount(b, i, d, Pair(Sum(b'.rows, RawUp(b.accounts[i].id)), Sum(b'.rows, RawDown(b.accounts[i].id))), b');
  }

  lemma BillDeviceConserves(b: Books, i: nat, k: nat, node: NodeId, raw: Pair)
    requires Conserved(b) && i < |b.accounts| && k < |b.devices| && b.devices[k].user == b.accounts[i].id
    ensures Conserved(BillDevice(b, i, k, node, raw))
  {
    var b' := BillDevice(b, i, k, node, raw);
    var d := Delta(b.devices[k].last, raw);
    forall j: nat, c | j < |b.accounts|
      ensures GrewFor(b, b', i, d, j, c)
    {
      var id := b.accounts[j].id;
      SumUpdate(b.devices, DevicePart(id, c), k, ChargedDevice(b.devices[k], raw));
      SumAppend(b.snapshots, SnapshotPart(id, c), SnapshotOf(Some(b.accounts[i].id), node, d));
    }
    ChargeAccount(b, i, d,
                  Pair(Sum(b'.devices, DeviceRawUp(b.accounts[i].id)),
                       Sum(b'.devices, DeviceRawDown(b.accounts[i].id))), b');
  }

  /** A row without bytes adds nothing to what anybody was charged. */
  lemma NewRowConserves(b: Books, row: NodeRow, a: Account, c: Column)
    requires UserConserved(b, a, c) && RowBytes(row, c) == 0
    ensures UserConserved(b.(rows := b.rows + [row]), a, c)
  {
    SumAppend(b.rows, RowPart(a.id, c), row);
  }

  lemma WithRowConserves(b: Books, i: nat, node: NodeId)
    requires Conserved(b) && i < |b.accounts|
    ensures Conserved(WithRow(b, i, node)) && WithRow(b, i, node).accounts == b.accounts
  {
    if FindRow(b.rows, b.accounts[i].id, node).None? {
      var row := NewRow(b, i, node);
      forall a, c | a in b.accounts
        ensures UserConserved(WithRow(b, i, node), a, c)
      {
        assert UserConserved(b, a, c);
        NewRowConserves(b, row, a, c);
      }
    }
  }

  lemma DeviceTurnConserves(b: Books, node: NodeId, stats: Stats, k: nat)
    requires Conserved(b) && k < |b.devices|
    ensures Conserved(DeviceTurn(b, node, stats, k))
  {
    var d := b.devices[k];
    var i := FindAccount(b.accounts, d.user);
    if Email(d) in stats && i.Some? {
      BillDeviceConserves(b, i.value, k, node, stats[Email(d)]);
    }
  }

  lemma UserTurnConserves(b: Books, start: Books, node: NodeId, stats: Stats, k: nat)
    requires Conserved(b) && k < |start.accounts| == |b.accounts|
    ensures Conserved(UserTurn(b, start, node, stats, k))
  {
    var a := start.accounts[k];
    if !(!Collectable(a) || HandledByDevice(start.devices, stats, a.id) || a.username !in stats) {
      var ready := WithRow(b, k, node);
      WithRowConserves(b, k, node);
      BillRowConserves(ready, k, FindRow(ready.rows, b.accounts[k].id, node).value, stats[a.username]);
    }
  }

  /** One collection, however long its statistics, keeps the books balanced. */
  lemma CollectionConserves(b: Books, node: NodeId, stats: Stats)
    requires Conserved(b)
    ensures Conserved(AfterStats(b, node, stats))
  {
    var conserved := (x: Books) => Conserved(x);
    forall x: Books, k: nat | k < |x.devices| && conserved(x)
      ensures conserved(DeviceTurn(x, node, stats, k))
    {
      DeviceTurnConserves(x, node, stats, k);
    }
    forall x: Books, k: nat | k < |b.accounts| == |x.accounts| && conserved(x)
      ensures conserved(UserTurn(x, b, node, stats, k))
    {
      UserTurnConserves(x, b, node, stats, k);
    }
    CollectionKeeps(b, node, stats, conserved);
  }

  lemma RemovalConserves(b: Books, k: nat)
    requires Conserved(b) && k < |b.devices|
    ensures Conserved(AfterRemoval(b, k))
  {
    var b' := AfterRemoval(b, k);
    forall a, c | a in b.accounts
      ensures UserConserved(b', a, c)
    {
      assert UserConserved(b, a, c);
      SumRemove(b.devices, DevicePart(a.id, c), k);
      SumAppend(b.removed, DevicePart(a.id, c), b.devices[k]);
    }
  }

  // ---------- servers ----------

  lemma ServerSnapshotKeepsUsers(b: Books, s: Snapshot, servers: seq<Server>)
    requires Conserved(b) && s.user.None?
    ensures Conserved(b.(servers := servers, snapshots := b.snapshots + [s]))
  {
    var b' := b.(servers := servers, snapshots := b.snapshots + [s]);
    forall a, c | a in b.accounts
      ensures UserConserved(b', a, c)
    {
      assert UserConserved(b, a, c);
      SumAppend(b.snapshots, SnapshotPart(a.id, c), s);
    }
  }

  /** Collecting a node's inbound counter keeps both balances. */
  lemma InboundConserves(b: Books, k: nat, raw: Pair)
    requires Conserved(b) && ServersConserved(b) && k < |b.servers|
    ensures Conserved(AfterInbound(b, k, raw)) && ServersConserved(AfterInbound(b, k, raw))
  {
    var b' := AfterInbound(b, k, raw);
    var s := b.servers[k];
    var d := Delta(s.last, raw);
    var snapshot := SnapshotOf(None, s.node, d);
    if d.up + d.down > 0 {
      ServerSnapshotKeepsUsers(b, snapshot, b'.servers);
    } else {
      assert forall a, c :: a in b.accounts && UserConserved(b, a, c) ==> UserConserved(b', a, c);
    }
    forall j: nat, c | j < |b'.servers|
      ensures ServerBytes(b'.servers[j], c) == Sum(b'.snapshots, ServerPart(b'.servers[j].node, c))
    {
      var t := b.servers[j];
      assert t in b.servers && ServerBytes(t, c) == Sum(b.snapshots, ServerPart(t.node, c));
      SumAppend(b.snapshots, ServerPart(t.node, c), snapshot);
    }
  }

  /** Snapshots of users leave the balance of the servers alone. */
  ghost predicate OnlyUserSnapshotsAdded(b: Books, b': Books) {
    && b'.servers == b.servers
    && b.snapshots <= b'.snapshots
    && forall i :: |b.snapshots| <= i < |b'.snapshots| ==> b'.snapshots[i].user.Some?
  }

  lemma AddsOneMore(b: Books, mid: Books, b': Books)
    requires OnlyUserSnapshotsAdded(b, mid) && b'.servers == mid.servers
    requires |b'.snapshots| == |mid.snapshots| + 1 && mid.snapshots <= b'.snapshots
             && b'.snapshots[|mid.snapshots|].user.Some?
    ensures OnlyUserSnapshotsAdded(b, b')
  {
  }

  lemma DeviceTurnAdds(b: Books, before: Books, node: NodeId, stats: Stats, k: nat)
    requires k < |before.devices| && OnlyUserSnapshotsAdded(b, before)
    ensures OnlyUserSnapshotsAdded(b, DeviceTurn(before, node, stats, k))
  {
    var after := DeviceTurn(before, node, stats, k);
    if after != before {
      AddsOneMore(b, before, after);
    }
  }

  lemma UserTurnAdds(b: Books, before: Books, start: Books, node: NodeId, stats: Stats, k: nat)
    requires k < |start.accounts| == |before.accounts| && OnlyUserSnapshotsAdded(b, before)
    ensures OnlyUserSnapshotsAdded(b, UserTurn(before, start, node, stats, k))
  {
    var after := UserTurn(before, start, node, stats, k);
    if after != before {
      AddsOneMore(b, before, after);
    }
  }

  lemma CollectionAddsUsers(b: Books, node: NodeId, stats: Stats)
    ensures OnlyUserSnapshotsAdded(b, AfterStats(b, node, stats))
  {
    var added := (x: Books) => OnlyUserSnapshotsAdded(b, x);
    forall x: Books, k: nat | k < |x.devices| && added(x)
      ensures added(DeviceTurn(x, node, stats, k))
    {
      DeviceTurnAdds(b, x, node, stats, k);
    }
    forall x: Books, k: nat | k < |b.accounts| == |x.accounts| && added(x)
      ensures added(UserTurn(x, b, node, stats, k))
    {
      UserTurnAdds(b, x, b, node, stats, k);
    }
    CollectionKeeps(b, node, stats, added);
  }

  lemma {:induction false} UserSnapshotsDoNotCount(a: seq<Snapshot>, b: seq<Snapshot>, n: NodeId, c: Column)
    requires a <= b && forall i :: |a| <= i < |b| ==> b[i].user.Some?
    ensures Sum(b, ServerPart(n, c)) == Sum(a, ServerPart(n, c))
  {
    if |a| < |b| {
      UserSnapshotsDoNotCount(a, b[..|b| - 1], n, c);
    } else {
      assert a == b;
    }
  }

  lemma CollectionKeepsServers(b: Books, node: NodeId, stats: Stats)
    requires ServersConserved(b)
    ensures ServersConserved(AfterStats(b, node, stats))
  {
    CollectionAddsUsers(b, node, stats);
    UserSnapshotsKeepServers(b, AfterStats(b, node, stats));
  }

  lemma {:induction false} NodeSumSplits(snapshots: seq<Snapshot>, n: NodeId, c: Column)
    ensures Sum(snapshots, NodePart(n, c)) == Sum(snapshots, ServerPart(n, c)) + Sum(snapshots, UserPartOnNode(n, c))
  {
    if snapshots != [] {
      NodeSumSplits(snapshots[..|snapshots| - 1], n, c);
    }
  }

  // ---------- runs ----------

  datatype TrafficEvent = CollectStats(node: NodeId, stats: Stats) | CollectInbound(server: nat,
      raw: Pair) | DropDevice(device: nat)

  function After(b: Books, e: TrafficEvent): Books {
    match e
    case CollectStats(node, stats) => AfterStats(b, node, stats)
    case CollectInbound(k, raw) => if k < |b.servers| then AfterInbound(b, k, raw) else b
    case DropDevice(k) => if k < |b.devices| then AfterRemoval(b, k) else b
  }

  /** The books at every moment of a run. */
  ghost predicate IsBookRun(books: seq<Books>, events: seq<TrafficEvent>) {
    && |books| == |events| + 1
    && forall i :: 0 <= i < |events| ==> books[i + 1] == After(books[i], events[i])
  }

  ghost predicate Balanced(b: Books) {
    Conserved(b) && ServersConserved(b)
  }

  lemma UserSnapshotsKeepServers(b: Books, b': Books)
    requires ServersConserved(b) && OnlyUserSnapshotsAdded(b, b')
    ensures ServersConserved(b')
  {
    forall s, c | s in b'.servers
      ensures ServerBytes(s, c) == Sum(b'.snapshots, ServerPart(s.node, c))
    {
      UserSnapshotsDoNotCount(b.snapshots, b'.snapshots, s.node, c);
    }
  }

  lemma BillRowBalances(b: Books, i: nat, k: nat, raw: Pair)
    requires i < |b.accounts| && k < |b.rows|
    ensures Balanced(b) && b.rows[k].user == b.accounts[i].id ==> Balanced(BillRow(b, i, k, raw))
  {
    if Balanced(b) && b.rows[k].user == b.accounts[i].id {
      BillRowConserves(b, i, k, raw);
      AddsOneMore(b, b, BillRow(b, i, k, raw));
      UserSnapshotsKeepServers(b, BillRow(b, i, k, raw));
    }
  }

  lemma BillDeviceBalances(b: Books, i: nat, k: nat, node: NodeId, raw: Pair)
    requires i < |b.accounts| && k < |b.devices|
    ensures Balanced(b) && b.devices[k].user == b.accounts[i].id ==> Balanced(BillDevice(b, i, k, node, raw))
  {
    if Balanced(b) && b.devices[k].user == b.accounts[i].id {
      BillDeviceConserves(b, i, k, node, raw);
      AddsOneMore(b, b, BillDevice(b, i, k, node, raw));
      UserSnapshotsKeepServers(b, BillDevice(b, i, k, node, raw));
    }
  }

  /** Each event keeps both sets of books balanced. */
  lemma EventBalances(b: Books, e: TrafficEvent)
    requires Balanced(b)
    ensures Balanced(After(b, e))
  {
    match e
    case CollectStats(node, stats) =>
      CollectionConserves(b, node, stats);
      CollectionKeepsServers(b, node, stats);
    case CollectInbound(k, raw) =>
      if k < |b.servers| {
        InboundConserves(b, k, raw);
      }
    case DropDevice(k) =>
      if k < |b.devices| {
        RemovalConserves(b, k);
      }
  }

  /** At every moment of every run of collections and device removals the books of users and servers balance. */
  lemma {:induction false} ConservedOverRuns(books: seq<Books>, events: seq<TrafficEvent>, i: nat)
    requires IsBookRun(books, events) && Balanced(books[0]) && i < |books|
    ensures Balanced(books[i])
  {
    if i > 0 {
      ConservedOverRuns(books, events, i - 1);
      EventBalances(books[i - 1], events[i - 1]);
    }
  }

  // ---------- aggregates over a period ----------

  /** Snapshots are only added, and the servers stay in their places. */
  ghost predicate Continues(b: Books, b': Books) {
    && b.snapshots <= b'.snapshots && |b'.servers| == |b.servers|
    && forall k :: 0 <= k < |b.servers| ==> b'.servers[k].node == b.servers[k].node
  }

  lemma EventContinues(b: Books, e: TrafficEvent)
    ensures Continues(b, After(b, e))
  {
    if e.CollectStats? {
      CollectionAddsUsers(b, e.node, e.stats);
    }
  }

  /** Collection times that never go back, one for each snapshot. */
  predicate InOrder(at: seq<int>) {
    forall i, j :: 0 <= i <= j < |at| ==> at[i] <= at[j]
  }

  /** The snapshots collected at `start` or later. */
  function Since(snapshots: seq<Snapshot>, at: seq<int>, start: int): seq<Snapshot>
    requires |at| == |snapshots|
  {
    if snapshots == [] then []
    else
      var n := |at| - 1;
      Since(snapshots[..n], at[..n], start) + (if at[n] >= start then [snapshots[n]] else [])
  }

  lemma {:induction false} SinceIsSuffix(snapshots: seq<Snapshot>, at: seq<int>, start: int) returns (cut: nat)
    requires |at| == |snapshots| && InOrder(at)
    ensures cut <= |at| && Since(snapshots, at, start) == snapshots[cut..]
    ensures forall i :: 0 <= i < |at| ==> (at[i] < start <==> i < cut)
  {
    if snapshots == [] {
      cut := 0;
    } else {
      var n := |at| - 1;
      cut := SinceIsSuffix(snapshots[..n], at[..n], start);
      assert forall i :: 0 <= i < n ==> at[i] == at[..n][i];
      if at[n] < start {
        assert forall i :: 0 <= i < n ==> at[i] <= at[n];
        assert cut == n;
        cut := n + 1;
      } else {
        SuffixGrows(snapshots, cut);
      }
    }
  }

  lemma SuffixGrows(snapshots: seq<Snapshot>, cut: nat)
    requires cut < |snapshots|
    ensures snapshots[cut..] == snapshots[..|snapshots| - 1][cut..] + [snapshots[|snapshots| - 1]]
  {
  }

  /** A user collection adds snapshots of users, and any other event at most one snapshot. */
  ghost predicate GrowsBy(b: Books, next: Books) {
    && Continues(b, next)
    && (OnlyUserSnapshotsAdded(b, next) || |next.snapshots| <= |b.snapshots| + 1)
  }

  lemma EventGrows(b: Books, e: TrafficEvent)
    ensures GrowsBy(b, After(b, e))
  {
    EventContinues(b, e);
    if e.CollectStats? {
      CollectionAddsUsers(b, e.node, e.stats);
    }
  }

  /** What is used of a run below: every moment is balanced and grows to the next. */
  ghost predicate Grows(books: seq<Books>) {
    && books != [] && (forall i :: 0 <= i < |books| ==> Balanced(books[i]))
    && forall i, j :: 0 <= i && j == i + 1 < |books| ==> GrowsBy(books[i], books[j])
  }

  lemma RunGrows(books: seq<Books>, events: seq<TrafficEvent>)
    requires IsBookRun(books, events) && Balanced(books[0])
    ensures Grows(books)
  {
    forall i | 0 <= i < |books|
      ensures Balanced(books[i])
    {
      ConservedOverRuns(books, events, i);
    }
    forall i, j | 0 <= i && j == i + 1 < |books|
      ensures GrowsBy(books[i], books[j])
    {
      EventGrows(books[i], events[i]);
    }
  }

  lemma {:induction false} BooksContinue(books: seq<Books>, i: nat, j: nat)
    requires Grows(books) && i <= j < |books|
    ensures Continues(books[i], books[j])
  {
    if i < j {
      BooksContinue(books, i, j - 1);
      assert GrowsBy(books[j - 1], books[j]);
    }
  }

  /** How many snapshots there were at each moment. */
  function SnapshotCounts(books: seq<Books>): seq<nat> {
    seq(|books|, i requires 0 <= i < |books| => |books[i].snapshots|)
  }

  lemma CountsGrow(books: seq<Books>)
    requires Grows(books)
    ensures var counts := SnapshotCounts(books);
            forall i :: 0 <= i < |counts| ==> counts[i] <= counts[|counts| - 1]
  {
    forall i: nat | i < |books|
      ensures SnapshotCounts(books)[i] <= SnapshotCounts(books)[|books| - 1]
    {
      BooksContinue(books, i, |books| - 1);
    }
  }

  /** Moment `i` is the last one with no more than `cut` snapshots. */
  predicate LastMoment(counts: seq<nat>, cut: nat, i: nat) {
    i < |counts| && counts[i] <= cut && (i + 1 < |counts| ==> cut < counts[i + 1])
  }

  lemma {:induction false} FindLastMoment(counts: seq<nat>, cut: nat, end: nat) returns (i: nat)
    requires end < |counts| && counts[0] <= cut && (end + 1 < |counts| ==> cut < counts[end + 1])
    ensures LastMoment(counts, cut, i)
  {
    if counts[end] <= cut {
      i := end;
    } else {
      i := FindLastMoment(counts, cut, end - 1);
    }
  }

  /** A period begins after moment `i` and before the next one. */
  ghost predicate BeginsAfter(counts: seq<nat>, at: seq<int>, start: int, i: nat) {
    && i < |counts|
    && (forall j :: 0 <= j < counts[i] && j < |at| ==> at[j] < start)
    && (i + 1 < |counts| ==> exists j :: 0 <= j < counts[i + 1] && j < |at| && at[j] >= start)
  }

  /** Where a period begins among the snapshots, and after which moment. */
  lemma CutOfPeriod(counts: seq<nat>, snapshots: seq<Snapshot>, at: seq<int>, start: int) returns (cut: nat, i: nat)
    requires counts != [] && (forall k :: 0 <= k < |counts| ==> counts[k] <= |at|)
    requires |at| == |snapshots| && InOrder(at) && forall j :: 0 <= j < counts[0] ==> at[j] < start
    ensures cut <= |at| && Since(snapshots, at, start) == snapshots[cut..]
    ensures LastMoment(counts, cut, i) && BeginsAfter(counts, at, start, i)
  {
    cut := SinceIsSuffix(snapshots, at, start);
    if counts[0] > 0 {
      assert at[counts[0] - 1] < start;
    }
    i := FindLastMoment(counts, cut, |counts| - 1);
    if i + 1 < |counts| {
      assert at[cut] >= start;
    }
  }

  /** Between two moments no server snapshot comes before another snapshot. */
  lemma ServerBytesBetween(mid: Books, next: Books, before: seq<Snapshot>, n: NodeId, c: Column)
    requires GrowsBy(mid, next) && mid.snapshots <= before < next.snapshots
    ensures Sum(before, ServerPart(n, c)) == Sum(mid.snapshots, ServerPart(n, c))
  {
    if OnlyUserSnapshotsAdded(mid, next) {
      UserSnapshotsDoNotCount(mid.snapshots, before, n, c);
    } else {
      assert before == mid.snapshots;
    }
  }

  /** The server snapshots before a cut are those of the last moment before it. */
  lemma ServerBytesAtCut(books: seq<Books>, i: nat, cut: nat, n: NodeId, c: Column)
    requires Grows(books) && LastMoment(SnapshotCounts(books), cut, i) && cut <= |books[|books| - 1].snapshots|
    ensures Sum(books[|books| - 1].snapshots[..cut], ServerPart(n, c)) == Sum(books[i].snapshots, ServerPart(n, c))
  {
    var end := books[|books| - 1];
    BooksContinue(books, i, |books| - 1);
    if i + 1 < |books| {
      var next := books[i + 1];
      assert GrowsBy(books[i], next);
      BooksContinue(books, i + 1, |books| - 1);
      ServerBytesBetween(books[i], next, end.snapshots[..cut], n, c);
    } else {
      assert end.snapshots[..cut] == books[i].snapshots;
    }
  }

  lemma PeriodSplits(snapshots: seq<Snapshot>, cut: nat, n: NodeId, c: Column)
    requires cut <= |snapshots|
    ensures Sum(snapshots[cut..], NodePart(n, c)) ==
            Sum(snapshots, ServerPart(n, c)) - Sum(snapshots[..cut], ServerPart(n, c))
            + Sum(snapshots[cut..], UserPartOnNode(n, c))
  {
    SumConcat(snapshots[..cut], snapshots[cut..], ServerPart(n, c));
    assert snapshots[..cut] + snapshots[cut..] == snapshots;
    NodeSumSplits(snapshots[cut..], n, c);
  }

  /** The snapshots from a cut on, against the counters at the last moment before it. */
  lemma AggregateFromCut(books: seq<Books>, i: nat, cut: nat, k: nat, c: Column)
    requires Grows(books) && k < |books[0].servers| && LastMoment(SnapshotCounts(books), cut, i)
    requires cut <= |books[|books| - 1].snapshots|
    ensures var mid, end, n := books[i], books[|books| - 1], books[0].servers[k].node;
            && k < |mid.servers| && k < |end.servers|
            && Sum(end.snapshots[cut..], NodePart(n, c)) ==
               ServerBytes(end.servers[k], c) - ServerBytes(mid.servers[k], c)
               + Sum(end.snapshots[cut..], UserPartOnNode(n, c))
  {
    ServerBytesAtCut(books, i, cut, books[0].servers[k].node, c);
    ServerBytesAt(books, i, k, c);
    ServerBytesAt(books, |books| - 1, k, c);
    PeriodSplits(books[|books| - 1].snapshots, cut, books[0].servers[k].node, c);
  }

  lemma ServerBytesAt(books: seq<Books>, i: nat, k: nat, c: Column)
    requires Grows(books) && k < |books[0].servers| && i < |books|
    ensures k < |books[i].servers|
    ensures Sum(books[i].snapshots, ServerPart(books[0].servers[k].node, c)) == ServerBytes(books[i].servers[k], c)
  {
    BooksContinue(books, 0, i);
    assert Balanced(books[i]) && books[i].servers[k] in books[i].servers;
  }

  /**
   `aggregate_node_traffic` over a period: its snapshots hold what the node's own counters grew
   by since moment `i`, the last one before the period, plus every byte of its users once more.
   */
  lemma AggregateCountsUsersAgain(books: seq<Books>, events: seq<TrafficEvent>, at: seq<int>, start: int, k: nat,
                                  c: Column)
      returns (i: nat)
    requires IsBookRun(books, events) && Balanced(books[0]) && k < |books[0].servers|
    requires |at| == |books[|events|].snapshots| && InOrder(at)
    requires forall j :: 0 <= j < |books[0].snapshots| && j < |at| ==> at[j] < start
    ensures BeginsAfter(SnapshotCounts(books), at, start, i)
    ensures var mid, end, n := books[i], books[|events|], books[0].servers[k].node;
            && k < |mid.servers| && k < |end.servers|
            && var period := Since(end.snapshots, at, start);
               Sum(period, NodePart(n, c)) ==
               ServerBytes(end.servers[k], c) - ServerBytes(mid.servers[k], c) + Sum(period, UserPartOnNode(n, c))
  {
    RunGrows(books, events);
    CountsGrow(books);
    var cut;
    cut, i := CutOfPeriod(SnapshotCounts(books), books[|events|].snapshots, at, start);
    AggregateFromCut(books, i, cut, k, c);
  }

  /** Tables in which nothing has been counted yet; device rows and user rows may exist. */
  ghost predicate ZeroStart(b: Books) {
    && (forall i, j :: 0 <= i < j < |b.accounts| ==> b.accounts[i].id != b.accounts[j].id)
    && (forall i, j :: 0 <= i < j < |b.servers| ==> b.servers[i].node != b.servers[j].node)
    && (forall a, c :: a in b.accounts ==> Used(a, c) == 0)
    && (forall r, c :: r in b.rows ==> RowBytes(r, c) == 0)
    && (forall d, c :: d in b.devices + b.removed ==> DeviceBytes(d, c) == 0)
    && (forall s, c :: s in b.servers ==> ServerBytes(s, c) == 0)
    && b.snapshots == []
  }

  lemma {:induction false} SumOfZeros<T>(s: seq<T>, part: T -> int)
    requires forall x :: x in s ==> part(x) == 0
    ensures Sum(s, part) == 0
  {
    if s != [] {
      SumOfZeros(s[..|s| - 1], part);
    }
  }

  lemma ZeroStartBalances(b: Books)
    requires ZeroStart(b)
    ensures Balanced(b)
  {
    forall a, c | a in b.accounts
      ensures UserConserved(b, a, c)
    {
      SumOfZeros(b.rows, RowPart(a.id, c));
      SumOfZeros(b.devices, DevicePart(a.id, c));
      SumOfZeros(b.removed, DevicePart(a.id, c));
    }
    forall a | a in b.accounts
      ensures TotalsAdd(a)
    {
      assert Used(a, Up) == Used(a, Down) == Used(a, Total) == 0;
    }
  }

  /** From a zero start, every user's and every server's books balance at every moment of any run. */
  lemma BalancedFromZero(books: seq<Books>, events: seq<TrafficEvent>, i: nat)
    requires IsBookRun(books, events) && ZeroStart(books[0]) && i < |books|
    ensures Balanced(books[i])
  {
    ZeroStartBalances(books[0]);
    ConservedOverRuns(books, events, i);
  }

  // ---------- the tables as the source updates them ----------

  class Ledger {
    var accounts: seq<Account>
    var rows: seq<NodeRow>
    var devices: seq<DeviceRow>
    var servers: seq<Server>
    var snapshots: seq<Snapshot>
    ghost var removed: seq<DeviceRow>

    ghost function State(): Books
      reads this
    {
      Books(accounts, rows, devices, removed, servers, snapshots)
    }

    /** `apply_user_node_raw_counters` with the snapshot its caller adds. */
    method ApplyUserNodeRawCounters(i: nat, k: nat, raw: Pair)
      requires i < |accounts| && k < |rows| && raw.up >= 0 && raw.down >= 0
      modifies this
      ensures State() == BillRow(old(State()), i, k, raw)
      ensures old(Balanced(State()) && rows[k].user == accounts[i].id) ==> Balanced(State())
    {
      BillRowBalances(State(), i, k, raw);
      ChargeRow(i, k, raw);
    }

    method ChargeRow(i: nat, k: nat, raw: Pair)
      requires i < |accounts| && k < |rows| && raw.up >= 0 && raw.down >= 0
      modifies this
      ensures State() == BillRow(old(State()), i, k, raw)
    {
      var delta := CounterDelta(rows[k].last, raw);
      var row := rows[k].(last := raw);
      var user := accounts[i];
      if delta.up + delta.down > 0 {
        row := row.(up := row.up + delta.up, down := row.down + delta.down, total := row.total + delta.up + delta.down);
        user := user.(usedUp := user.usedUp + delta.up, usedDown := user.usedDown + delta.down,
                      usedTotal := user.usedTotal + delta.up + delta.down);
      }
      rows := rows[k := row];
      user := user.(lastRaw := Pair(Sum(rows, RawUp(user.id)), Sum(rows, RawDown(user.id))));
      if OverLimit(user) {
        user := user.(status := UserStatus.TrafficLimited);
      }
      accounts := accounts[i := user];
      snapshots := snapshots + [SnapshotOf(Some(user.id), row.node, delta)];
    }

    /** `apply_device_raw_counters` with the snapshot its caller adds. */
    method ApplyDeviceRawCounters(i: nat, k: nat, node: NodeId, raw: Pair)
      requires i < |accounts| && k < |devices| && raw.up >= 0 && raw.down >= 0
      modifies this
      ensures State() == BillDevice(old(State()), i, k, node, raw)
      ensures old(Balanced(State()) && devices[k].user == accounts[i].id) ==> Balanced(State())
    {
      BillDeviceBalances(State(), i, k, node, raw);
      ChargeDevice(i, k, node, raw);
    }

    method ChargeDevice(i: nat, k: nat, node: NodeId, raw: Pair)
      requires i < |accounts| && k < |devices| && raw.up >= 0 && raw.down >= 0
      modifies this
      ensures State() == BillDevice(old(State()), i, k, node, raw)
    {
      var delta := CounterDelta(devices[k].last, raw);
      var device := devices[k].(last := raw);
      var user := accounts[i];
      if delta.up + delta.down > 0 {
        device := device.(up := device.up + delta.up, down := device.down + delta.down,
                          total := device.total + delta.up + delta.down);
        user := user.(usedUp := user.usedUp + delta.up, usedDown := user.usedDown + delta.down,
                      usedTotal := user.usedTotal + delta.up + delta.down);
      }
      devices := devices[k := device];
      user := user.(lastRaw := Pair(Sum(devices, DeviceRawUp(user.id)), Sum(devices, DeviceRawDown(user.id))));
      if OverLimit(user) {
        user := user.(status := UserStatus.TrafficLimited);
      }
      accounts := accounts[i := user];
      snapshots := snapshots + [SnapshotOf(Some(user.id), node, delta)];
    }

    method GetUserNodeTraffic(i: nat, node: NodeId) returns (k: nat)
      requires i < |accounts|
      modifies this
      ensures State() == WithRow(old(State()), i, node)
      ensures FindRow(rows, accounts[i].id, node) == Some(k)
      ensures old(Balanced(State())) ==> Balanced(State())
    {
      ghost var start := State();
      if Balanced(start) {
        WithRowConserves(start, i, node);
      }
      var found := FindRow(rows, accounts[i].id, node);
      if found.Some? {
        return found.value;
      }
      var legacy := forall r :: r in rows ==> r.user != accounts[i].id;
      rows := rows + [NodeRow(accounts[i].id, node, 0, 0, 0, if legacy then accounts[i].lastRaw else Pair(0, 0))];
      return FindRow(rows, accounts[i].id, node).value;
    }

    method ApplyNodeRawCounters(k: nat, raw: Pair)
      requires k < |servers| && raw.up >= 0 && raw.down >= 0
      modifies this
      ensures State() == AfterInbound(old(State()), k, raw)
      ensures old(Balanced(State())) ==> Balanced(State())
    {
      if Balanced(State()) {
        EventBalances(State(), CollectInbound(k, raw));
      }
      var delta := CounterDelta(servers[k].last, raw);
      var server := servers[k].(last := raw);
      server := server.(up := server.up + delta.up, down := server.down + delta.down,
                        total := server.total + delta.up + delta.down);
      servers := servers[k := server];
      if delta.up + delta.down > 0 {
        snapshots := snapshots + [SnapshotOf(None, server.node, delta)];
      }
    }

    method RemoveDeviceRow(k: nat)
      requires k < |devices|
      modifies this
      ensures State() == AfterRemoval(old(State()), k)
      ensures old(Balanced(State())) ==> Balanced(State())
    {
      if Balanced(State()) {
        EventBalances(State(), DropDevice(k));
      }
      removed := removed + [devices[k]];
      devices := devices[..k] + devices[k + 1..];
    }

    method BillDeviceTurn(node: NodeId, stats: Stats, k: nat) returns (matched: bool)
      requires ByteCounts(stats) && k < |devices|
      modifies this
      ensures State() == DeviceTurn(old(State()), node, stats, k)
      ensures matched <==> Email(old(devices)[k]) in stats && FindAccount(old(accounts), old(devices)[k].user).Some?
    {
      var email := Email(devices[k]);
      var i := FindAccount(accounts, devices[k].user);
      matched := email in stats && i.Some?;
      if matched {
        ApplyDeviceRawCounters(i.value, k, node, stats[email]);
      }
    }

    method BillUserTurn(node: NodeId, raw: Pair, k: nat)
      requires raw.up >= 0 && raw.down >= 0 && k < |accounts|
      modifies this
      ensures var ready := WithRow(old(State()), k, node);
              State() == BillRow(ready, k, FindRow(ready.rows, old(accounts)[k].id, node).value, raw)
    {
      var row := GetUserNodeTraffic(k, node);
      ApplyUserNodeRawCounters(k, row, raw);
    }

    /** The loop over the devices; returns the users billed through one of them. */
    method BillDevices(node: NodeId, stats: Stats) returns (handled: set<UserId>)
      requires ByteCounts(stats) && OwnersKnown(State())
      modifies this
      ensures State() == DevicesPass(old(State()), node, stats, |old(devices)|)
      ensures forall u :: u in handled <==> HandledByDevice(old(devices), stats, u)
    {
      ghost var start := State();
      handled := {};
      for k := 0 to |devices|
        invariant |devices| == |start.devices|
        invariant DevicesBilled(start, State(), node, stats, k, handled)
      {
        handled := BillNextDevice(node, stats, k, handled, start);
      }
      assert start.devices[..|start.devices|] == start.devices;
    }

    method BillNextDevice(node: NodeId, stats: Stats, k: nat, before: set<UserId>, ghost start: Books)
        returns (handled: set<UserId>)
      requires ByteCounts(stats) && OwnersKnown(start) && k < |devices| == |start.devices|
      requires DevicesBilled(start, State(), node, stats, k, before)
      modifies this
      ensures |devices| == |start.devices| && DevicesBilled(start, State(), node, stats, k + 1, handled)
    {
      var user := devices[k].user;
      DeviceTurnFacts(start, State(), node, stats, k);
      var matched := BillDeviceTurn(node, stats, k);
      handled := if matched then before + {user} else before;
    }

    /** The loop over the users that were active or limited when the collection began. */
    method BillUsers(node: NodeId, stats: Stats, eligible: seq<Account>, handled: set<UserId>, ghost start: Books)
      requires ByteCounts(stats) && start.accounts == eligible && |accounts| == |eligible|
      requires forall u :: u in handled <==> HandledByDevice(start.devices, stats, u)
      modifies this
      ensures State() == UsersPass(old(State()), start, node, stats, |eligible|)
    {
      ghost var mid := State();
      for k := 0 to |eligible|
        invariant |accounts| == |eligible|
        invariant State() == UsersPass(mid, start, node, stats, k)
      {
        BillUserIfDue(node, stats, eligible, handled, start, k);
      }
    }

    method BillUserIfDue(node: NodeId, stats: Stats, eligible: seq<Account>, handled: set<UserId>, ghost start: Books,
                         k: nat)
      requires ByteCounts(stats) && start.accounts == eligible && k < |accounts| == |eligible|
      requires forall u :: u in handled <==> HandledByDevice(start.devices, stats, u)
      modifies this
      ensures State() == UserTurn(old(State()), start, node, stats, k)
    {
      if Collectable(eligible[k]) && eligible[k].id !in handled && eligible[k].username in stats {
        BillUserTurn(node, stats[eligible[k].username], k);
      }
    }

    /** One collection from a node: first the devices, then the users not seen through a device. */
    method ApplyXrayStats(node: NodeId, stats: Stats)
      requires ByteCounts(stats) && OwnersKnown(State())
      modifies this
      ensures State() == AfterStats(old(State()), node, stats)
      ensures old(Balanced(State())) ==> Balanced(State())
    {
      if Balanced(State()) {
        EventBalances(State(), CollectStats(node, stats));
      }
      ghost var start := State();
      var eligible := accounts;
      var handled := BillDevices(node, stats);
      BillUsers(node, stats, eligible, handled, start);
    }
  }

  /** The foreign key from devices to users. */
  predicate OwnersKnown(b: Books) {
    forall d :: d in b.devices ==> FindAccount(b.accounts, d.user).Some?
  }

  predicate ByteCounts(stats: Stats) {
    forall e :: e in stats ==> stats[e].up >= 0 && stats[e].down >= 0
  }

  /** Same ids and owners, row by row. */
  ghost predicate SameKeys(a: Books, b: Books) {
    && |a.devices| == |b.devices| && |a.accounts| == |b.accounts|
    && (forall j :: 0 <= j < |a.devices| ==>
        a.devices[j].id == b.devices[j].id && a.devices[j].user == b.devices[j].user)
    && (forall j :: 0 <= j < |a.accounts| ==> a.accounts[j].id == b.accounts[j].id)
  }

  /** The state of the loop over the devices before turn `k`. */
  ghost predicate DevicesBilled(start: Books, b: Books, node: NodeId, stats: Stats, k: nat, handled: set<UserId>) {
    && k <= |start.devices| && b == DevicesPass(start, node, stats, k) && SameKeys(start, b)
    && forall u :: u in handled <==> HandledByDevice(start.devices[..k], stats, u)
  }

  /** What a turn of the loop over the devices keeps, and when it finds its device in the statistics. */
  lemma DeviceTurnFacts(start: Books, b: Books, node: NodeId, stats: Stats, k: nat)
    requires k < |b.devices| && SameKeys(start, b) && OwnersKnown(start)
    ensures SameKeys(start, DeviceTurn(b, node, stats, k))
    ensures FindAccount(b.accounts, b.devices[k].user).Some?
    ensures forall u :: HandledByDevice(start.devices[..k + 1], stats, u) <==>
                        HandledByDevice(start.devices[..k], stats, u)
                            || (u == b.devices[k].user && Email(b.devices[k]) in stats)
  {
    forall u
      ensures HandledByDevice(start.devices[..k + 1], stats, u) <==>
              HandledByDevice(start.devices[..k], stats, u)
                  || (u == b.devices[k].user && Email(b.devices[k]) in stats)
    {
      OneMoreHandled(start.devices, stats, u, k);
    }
    assert start.devices[k] in start.devices;
    SameIdsFind(start.accounts, b.accounts, b.devices[k].user);
    DeviceTurnKeepsKeys(start, b, node, stats, k);
  }

  lemma OneMoreHandled(devices: seq<DeviceRow>, stats: Stats, u: UserId, k: nat)
    requires k < |devices|
    ensures HandledByDevice(devices[..k + 1], stats, u) <==>
            HandledByDevice(devices[..k], stats, u) || (u == devices[k].user && Email(devices[k]) in stats)
  {
    assert devices[..k + 1] == devices[..k] + [devices[k]];
  }

  lemma DeviceTurnKeepsKeys(start: Books, b: Books, node: NodeId, stats: Stats, k: nat)
    requires k < |b.devices| && SameKeys(start, b)
    ensures SameKeys(start, DeviceTurn(b, node, stats, k))
  {
  }

  lemma {:induction false} SameIdsFind(a: seq<Account>, b: seq<Account>, id: UserId)
    requires |a| == |b| && forall j :: 0 <= j < |a| ==> a[j].id == b[j].id
    ensures FindAccount(a, id).Some? == FindAccount(b, id).Some?
  {
    if a != [] {
      SameIdsFind(a[..|a| - 1], b[..|b| - 1], id);
    }
  }
}
