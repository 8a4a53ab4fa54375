/**
 What one collection from a node does to each device, row and account (`apply_xray_stats`,
 backend/app/services/traffic.py): every device whose e-mail is in the statistics and every user
 due under its own name is brought to its reading and charged for it, and nobody else is touched.
 */
module Collection {
  import opened Wrappers
  import opened Decimal
  import opened Entities
  import opened Sums
  import opened Counters
  import opened Traffic

  // ---------- the effect, by the tables alone ----------

  predicate DistinctAccounts(accounts: seq<Account>) {
    forall i, j :: 0 <= i < j < |accounts| ==> accounts[i].id != accounts[j].id
  }

  /** The statistics know the device. */
  predicate Reported(d: DeviceRow, stats: Stats) {
    DeviceEmail(d.user, d.id) in stats
  }

  /** Active or limited, with its name in the statistics and none of its devices. */
  ghost predicate Due(a: Account, devices: seq<DeviceRow>, stats: Stats) {
    && (a.status == UserStatus.Active || a.status == UserStatus.TrafficLimited) && a.username in stats
    && forall i :: 0 <= i < |devices| && devices[i].user == a.id ==> !Reported(devices[i], stats)
  }

  ghost predicate HasReported(a: Account, devices: seq<DeviceRow>, stats: Stats) {
    exists i :: 0 <= i < |devices| && devices[i].user == a.id && Reported(devices[i], stats)
  }

  /** A device row at a new reading. */
  function DeviceRead(d: DeviceRow, raw: Pair): DeviceRow {
    var delta := Delta(d.last, raw);
    DeviceRow(d.id, d.user, d.up + delta.up, d.down + delta.down, d.total + delta.up + delta.down, raw)
  }

  function RowRead(r: NodeRow, raw: Pair): NodeRow {
    var delta := Delta(r.last, raw);
    NodeRow(r.user, r.node, r.up + delta.up, r.down + delta.down, r.total + delta.up + delta.down, raw)
  }

  /** The rows of one user, in table order. */
  function RowsOf(rows: seq<NodeRow>, u: UserId): (r: seq<NodeRow>)
    ensures forall x :: x in r <==> x in rows && x.user == u
  {
    if rows == [] then []
    else
      var init, last := rows[..|rows| - 1], rows[|rows| - 1];
      assert rows == init + [last];
      RowsOf(init, u) + if last.user == u then [last] else []
  }

  /** The reading a user's row is measured against: its own, the legacy one for a first row, or zero. */
  function Baseline(own: seq<NodeRow>, a: Account): Pair {
    if own == [] then a.lastRaw else Pair(0, 0)
  }

  /** The row of the node is at the reading; if there was none, one was added. `delta` is what it was charged. */
  ghost predicate RowCharged(own: seq<NodeRow>, own': seq<NodeRow>, a: Account, node: NodeId, raw: Pair, delta: Pair) {
    || (exists i :: && 0 <= i < |own| && own[i].node == node && own' == own[i := RowRead(own[i], raw)]
                    && delta == Delta(own[i].last, raw))
    || (&& (forall i :: 0 <= i < |own| ==> own[i].node != node)
        && own' == own + [RowRead(NodeRow(a.id, node, 0, 0, 0, Baseline(own, a)), raw)]
        && delta == Delta(Baseline(own, a), raw))
  }

  /** Apart from totals, last raw values and status, the account is the same. */
  predicate SameAccount(a: Account, a': Account) {
    a'.id == a.id && a'.username == a.username && a'.limit == a.limit
  }

  predicate AtLimit(a: Account) {
    a.limit.Some? && a.limit.value != 0 && a.usedTotal >= a.limit.value
  }

  // ---------- the rows of one user ----------

  lemma {:induction false} RowsConcat(a: seq<NodeRow>, b: seq<NodeRow>, u: UserId)
    ensures RowsOf(a + b, u) == RowsOf(a, u) + RowsOf(b, u)
  {
    if b == [] {
      assert a + b == a;
    } else {
      assert (a + b)[..|a + b| - 1] == a + b[..|b| - 1];
      RowsConcat(a, b[..|b| - 1], u);
    }
  }

  lemma RowsOfOne(r: NodeRow, u: UserId)
    ensures RowsOf([r], u) == if r.user == u then [r] else []
  {
    assert [r][..0] == [];
  }

  lemma RowsAppend(rows: seq<NodeRow>, r: NodeRow, u: UserId)
    ensures RowsOf(rows + [r], u) == RowsOf(rows, u) + (if r.user == u then [r] else [])
  {
    RowsConcat(rows, [r], u);
    RowsOfOne(r, u);
  }

  lemma RowsAround(front: seq<NodeRow>, x: NodeRow, back: seq<NodeRow>, u: UserId)
    ensures RowsOf(front + ([x] + back), u) ==
            RowsOf(front, u) + ((if x.user == u then [x] else []) + RowsOf(back, u))
  {
    RowsConcat(front, [x] + back, u);
    RowsConcat([x], back, u);
    RowsOfOne(x, u);
  }

  lemma InPlace(front: seq<NodeRow>, x: NodeRow, r: NodeRow, back: seq<NodeRow>)
    ensures (front + ([x] + back))[|front|] == x && front + ([r] + back) == (front + ([x] + back))[|front| := r]
  {
  }

  /** A row of another user changes nothing here, and a row of the user changes in its place. */
  lemma RowsUpdate(rows: seq<NodeRow>, k: nat, r: NodeRow, u: UserId) returns (i: nat)
    requires k < |rows| && r.user == rows[k].user
    ensures r.user != u ==> RowsOf(rows[k := r], u) == RowsOf(rows, u)
    ensures r.user == u ==> && i < |RowsOf(rows, u)| && RowsOf(rows, u)[i] == rows[k]
                            && RowsOf(rows[k := r], u) == RowsOf(rows, u)[i := r]
  {
    assert rows == rows[..k] + ([rows[k]] + rows[k + 1..]);
    assert rows[k := r] == rows[..k] + ([r] + rows[k + 1..]);
    RowsAround(rows[..k], rows[k], rows[k + 1..], u);
    RowsAround(rows[..k], r, rows[k + 1..], u);
    InPlace(RowsOf(rows[..k], u), rows[k], r, RowsOf(rows[k + 1..], u));
    i := |RowsOf(rows[..k], u)|;
  }

  // ---------- the loop over the devices ----------

  /** What reported devices add to the total of user `u`. */
  function GainPart(u: UserId, stats: Stats, c: Column): DeviceRow -> int {
    (d: DeviceRow) =>
      if d.user == u && DeviceEmail(d.user, d.id) in stats
      then Bytes(Delta(d.last, stats[DeviceEmail(d.user, d.id)]), c) else 0
  }

  /** The account after the first `k` devices. */
  ghost predicate AccountVia(a: Account, a': Account, devices: seq<DeviceRow>, stats: Stats) {
    && SameAccount(a, a')
    && (!HasReported(a, devices, stats) ==> a' == a)
    && (HasReported(a, devices, stats) ==>
          a'.status == if AtLimit(a') then UserStatus.TrafficLimited else a.status)
    && forall c :: Used(a', c) == Used(a, c) + Sum(devices, GainPart(a.id, stats, c))
  }

  /** The tables after the first `k` devices, looked at through account `j`. */
  ghost predicate DevicesRead(b: Books, x: Books, stats: Stats, k: nat, j: nat)
    requires k <= |b.devices| && j < |b.accounts|
  {
    && x.rows == b.rows && x.servers == b.servers && x.removed == b.removed
    && |x.devices| == |b.devices| && |x.accounts| == |b.accounts|
    && (forall i :: 0 <= i < |b.accounts| ==> x.accounts[i].id == b.accounts[i].id)
    && (forall i :: k <= i < |b.devices| ==> x.devices[i] == b.devices[i])
    && (forall i :: 0 <= i < k ==>
          var email := DeviceEmail(b.devices[i].user, b.devices[i].id);
          x.devices[i] == if email in stats then DeviceRead(b.devices[i], stats[email]) else b.devices[i])
    && AccountVia(b.accounts[j], x.accounts[j], b.devices[..k], stats)
  }

  lemma FindsAccount(accounts: seq<Account>, id: UserId, j: nat)
    requires DistinctAccounts(accounts) && j < |accounts|
    ensures FindAccount(accounts, id) == Some(j) <==> accounts[j].id == id
  {
    assert accounts[j] in accounts;
  }

  lemma ReportedOneMore(a: Account, devices: seq<DeviceRow>, d: DeviceRow, stats: Stats)
    ensures HasReported(a, devices + [d], stats) <==>
            HasReported(a, devices, stats) || (d.user == a.id && Reported(d, stats))
  {
    var all := devices + [d];
    assert all[|devices|] == d;
    if i :| 0 <= i < |devices| && devices[i].user == a.id && Reported(devices[i], stats) {
      assert all[i].user == a.id && Reported(all[i], stats);
    }
  }

  lemma DeltaNotNegative(previous: Pair, raw: Pair)
    ensures Delta(previous, raw).up >= 0 && Delta(previous, raw).down >= 0
  {
  }

  /** One device charged to its account: the totals grow by the delta, and the limit is looked at. */
  lemma AccountCharged(a: Account, x: Account, devices: seq<DeviceRow>, d: DeviceRow, stats: Stats, lastRaw: Pair)
    requires AccountVia(a, x, devices, stats) && d.user == a.id && Reported(d, stats)
    ensures AccountVia(a, Charged(x, Delta(d.last, stats[DeviceEmail(d.user, d.id)]), lastRaw), devices + [d], stats)
  {
    var delta := Delta(d.last, stats[DeviceEmail(d.user, d.id)]);
    DeltaNotNegative(d.last, stats[DeviceEmail(d.user, d.id)]);
    ReportedOneMore(a, devices, d, stats);
    forall c
      ensures Used(Charged(x, delta, lastRaw), c) == Used(a, c) + Sum(devices + [d], GainPart(a.id, stats, c))
    {
      SumAppend(devices, GainPart(a.id, stats, c), d);
    }
  }

  lemma AccountPassed(a: Account, x: Account, devices: seq<DeviceRow>, d: DeviceRow, stats: Stats)
    requires AccountVia(a, x, devices, stats) && !(d.user == a.id && Reported(d, stats))
    ensures AccountVia(a, x, devices + [d], stats)
  {
    ReportedOneMore(a, devices, d, stats);
    forall c
      ensures Used(x, c) == Used(a, c) + Sum(devices + [d], GainPart(a.id, stats, c))
    {
      SumAppend(devices, GainPart(a.id, stats, c), d);
    }
  }

  lemma TurnReads(b: Books, x: Books, node: NodeId, stats: Stats, k: nat, j: nat)
    requires k < |b.devices| && j < |b.accounts| && DistinctAccounts(b.accounts) && OwnersKnown(b)
    requires DevicesRead(b, x, stats, k, j)
    ensures DevicesRead(b, DeviceTurn(x, node, stats, k), stats, k + 1, j)
  {
    var d := b.devices[k];
    assert b.devices[..k + 1] == b.devices[..k] + [d];
    FindsAccount(x.accounts, d.user, j);
    var i := FindAccount(x.accounts, d.user);
    assert d in b.devices;
    SameIdsFind(b.accounts, x.accounts, d.user);
    if d.user == b.accounts[j].id && Reported(d, stats) {
      var x' := DeviceTurn(x, node, stats, k);
      AccountCharged(b.accounts[j], x.accounts[j], b.devices[..k], d, stats, x'.accounts[j].lastRaw);
    } else {
      AccountPassed(b.accounts[j], x.accounts[j], b.devices[..k], d, stats);
    }
  }

  function OwnUp(u: UserId): DeviceRow -> int {
    (d: DeviceRow) => if d.user == u then d.last.up else 0
  }

  function OwnDown(u: UserId): DeviceRow -> int {
    (d: DeviceRow) => if d.user == u then d.last.down else 0
  }

  lemma {:induction false} SumsOfDevices(devices: seq<DeviceRow>, u: UserId)
    ensures Sum(devices, DeviceRawUp(u)) == Sum(devices, OwnUp(u))
    ensures Sum(devices, DeviceRawDown(u)) == Sum(devices, OwnDown(u))
  {
    if devices != [] {
      SumsOfDevices(devices[..|devices| - 1], u);
    }
  }

  /** Once a device of the account was read, its last raw values are those of its devices added up. */
  ghost predicate LastRawRead(b: Books, x: Books, stats: Stats, k: nat, j: nat)
    requires k <= |b.devices| && j < |b.accounts|
  {
    && DevicesRead(b, x, stats, k, j)
    && var u := b.accounts[j].id;
       HasReported(b.accounts[j], b.devices[..k], stats) ==>
         x.accounts[j].lastRaw == Pair(Sum(x.devices, OwnUp(u)), Sum(x.devices, OwnDown(u)))
  }

  lemma TurnReadsRaw(b: Books, x: Books, node: NodeId, stats: Stats, k: nat, j: nat)
    requires k < |b.devices| && j < |b.accounts| && DistinctAccounts(b.accounts) && OwnersKnown(b)
    requires LastRawRead(b, x, stats, k, j)
    ensures LastRawRead(b, DeviceTurn(x, node, stats, k), stats, k + 1, j)
  {
    var d, u, y := b.devices[k], b.accounts[j].id, DeviceTurn(x, node, stats, k);
    TurnReads(b, x, node, stats, k, j);
    assert b.devices[..k + 1] == b.devices[..k] + [d];
    ReportedOneMore(b.accounts[j], b.devices[..k], d, stats);
    FindsAccount(x.accounts, d.user, j);
    SumsOfDevices(y.devices, u);
    if y != x {
      SumUpdate(x.devices, OwnUp(u), k, y.devices[k]);
      SumUpdate(x.devices, OwnDown(u), k, y.devices[k]);
    }
  }

  /** What turn `k` makes true of `k + 1` when it held of `k`, the loop makes true of every `k`. */
  lemma {:induction false} DevicesPassReaches(b: Books, node: NodeId, stats: Stats, k: nat,
                                              inv: (nat, Books) -> bool)
    requires k <= |b.devices| && inv(0, b)
    requires forall x: Books, i: nat :: i < |b.devices| == |x.devices| && inv(i, x) ==>
               inv(i + 1, DeviceTurn(x, node, stats, i))
    ensures inv(k, DevicesPass(b, node, stats, k))
  {
    if k > 0 {
      DevicesPassReaches(b, node, stats, k - 1, inv);
    }
  }

  lemma PassReads(b: Books, node: NodeId, stats: Stats, j: nat)
    requires j < |b.accounts| && DistinctAccounts(b.accounts) && OwnersKnown(b)
    ensures LastRawRead(b, DevicesPass(b, node, stats, |b.devices|), stats, |b.devices|, j)
  {
    var read := (i: nat, x: Books) => i <= |b.devices| && LastRawRead(b, x, stats, i, j);
    assert b.devices[..0] == [];
    forall x: Books, i: nat | i < |b.devices| == |x.devices| && read(i, x)
      ensures read(i + 1, DeviceTurn(x, node, stats, i))
    {
      TurnReadsRaw(b, x, node, stats, i, j);
    }
    DevicesPassReaches(b, node, stats, |b.devices|, read);
    assert read(|b.devices|, DevicesPass(b, node, stats, |b.devices|));
  }

  // ---------- the loop over the users ----------

  function LastUp(): NodeRow -> int {
    (r: NodeRow) => r.last.up
  }

  function LastDown(): NodeRow -> int {
    (r: NodeRow) => r.last.down
  }

  /** The account after a charge of `delta` that left it the rows `own`. */
  ghost predicate AccountBilled(a: Account, a': Account, delta: Pair, own: seq<NodeRow>) {
    && SameAccount(a, a')
    && (forall c :: Used(a', c) == Used(a, c) + Bytes(delta, c))
    && a'.lastRaw == Pair(Sum(own, LastUp()), Sum(own, LastDown()))
    && a'.status == if AtLimit(a') then UserStatus.TrafficLimited else a.status
  }

  /** One user's rows and account before and after the user's own turn. */
  ghost predicate Billed(own: seq<NodeRow>, own': seq<NodeRow>, a: Account, a': Account, node: NodeId, raw: Pair) {
    exists delta :: RowCharged(own, own', a, node, raw, delta) && AccountBilled(a, a', delta, own')
  }

  /** A sum over the whole table that counts the rows of one user is the sum over those rows. */
  lemma {:induction false} SumOfOwn(rows: seq<NodeRow>, u: UserId, all: NodeRow -> int, own: NodeRow -> int)
    requires forall r :: all(r) == if r.user == u then own(r) else 0
    ensures Sum(rows, all) == Sum(RowsOf(rows, u), own)
  {
    if rows != [] {
      var init, last := rows[..|rows| - 1], rows[|rows| - 1];
      SumOfOwn(init, u, all, own);
      if last.user == u {
        SumAppend(RowsOf(init, u), own, last);
      } else {
        assert RowsOf(rows, u) == RowsOf(init, u);
      }
    }
  }

  lemma SumsOverOwn(rows: seq<NodeRow>, u: UserId)
    ensures Sum(rows, RawUp(u)) == Sum(RowsOf(rows, u), LastUp())
    ensures Sum(rows, RawDown(u)) == Sum(RowsOf(rows, u), LastDown())
  {
    SumOfOwn(rows, u, RawUp(u), LastUp());
    SumOfOwn(rows, u, RawDown(u), LastDown());
  }

  lemma DueExactly(a: Account, devices: seq<DeviceRow>, stats: Stats)
    ensures Due(a, devices, stats) <==>
            Collectable(a) && !HandledByDevice(devices, stats, a.id) && a.username in stats
  {
    if HandledByDevice(devices, stats, a.id) {
      var d :| d in devices && d.user == a.id && Email(d) in stats;
      var i :| 0 <= i < |devices| && devices[i] == d;
      assert Reported(devices[i], stats);
    }
    if i :| 0 <= i < |devices| && devices[i].user == a.id && Reported(devices[i], stats) {
      assert devices[i] in devices && Email(devices[i]) in stats;
    }
  }

  lemma ChargedIsBilled(a: Account, delta: Pair, lastRaw: Pair, own: seq<NodeRow>)
    requires lastRaw.up == Sum(own, LastUp()) && lastRaw.down == Sum(own, LastDown())
    ensures AccountBilled(a, Charged(a, delta, lastRaw), delta, own)
  {
  }

  /** The account in a bill that leaves the table `rows`. */
  lemma BillRowAccount(x: Books, j: nat, k: nat, raw: Pair, rows: seq<NodeRow>)
    requires j < |x.accounts| && k < |x.rows| && rows == x.rows[k := RowRead(x.rows[k], raw)]
    ensures var u, y, delta := x.accounts[j].id, BillRow(x, j, k, raw), Delta(x.rows[k].last, raw);
            && y.rows == rows && |y.accounts| == |x.accounts|
            && AccountBilled(x.accounts[j], y.accounts[j], delta, RowsOf(rows, u))
  {
    var u := x.accounts[j].id;
    SumsOverOwn(rows, u);
    assert ChargedRow(x.rows[k], raw) == RowRead(x.rows[k], raw);
    ChargedIsBilled(x.accounts[j], Delta(x.rows[k].last, raw), Pair(Sum(rows, RawUp(u)), Sum(rows, RawDown(u))),
                    RowsOf(rows, u));
  }

  /** A turn that is due, when the user has a row for the node. */
  lemma OwnTurnOldRow(x: Books, j: nat, k: nat, node: NodeId, raw: Pair)
    requires j < |x.accounts| && FindRow(x.rows, x.accounts[j].id, node) == Some(k)
    ensures var u, y := x.accounts[j].id, BillRow(x, j, k, raw);
            Billed(RowsOf(x.rows, u), RowsOf(y.rows, u), x.accounts[j], y.accounts[j], node, raw)
  {
    var u, rows, delta := x.accounts[j].id, x.rows[k := RowRead(x.rows[k], raw)], Delta(x.rows[k].last, raw);
    var i := RowsUpdate(x.rows, k, RowRead(x.rows[k], raw), u);
    BillRowAccount(x, j, k, raw, rows);
    assert RowCharged(RowsOf(x.rows, u), RowsOf(rows, u), x.accounts[j], node, raw, delta);
  }

  lemma FoundAtEnd(rows: seq<NodeRow>, r: NodeRow)
    ensures FindRow(rows + [r], r.user, r.node) == Some(|rows|)
  {
  }

  lemma NewRowIsOwn(x: Books, j: nat, node: NodeId)
    requires j < |x.accounts|
    ensures var a := x.accounts[j];
            NewRow(x, j, node) == NodeRow(a.id, node, 0, 0, 0, Baseline(RowsOf(x.rows, a.id), a))
  {
    var own := RowsOf(x.rows, x.accounts[j].id);
    if own != [] {
      assert own[0] in own;
    }
  }

  /** A turn that is due, when the user has none. */
  lemma OwnTurnNewRow(x: Books, j: nat, node: NodeId, raw: Pair)
    requires j < |x.accounts| && FindRow(x.rows, x.accounts[j].id, node).None?
    ensures var u, ready := x.accounts[j].id, x.(rows := x.rows + [NewRow(x, j, node)]);
            && FindRow(ready.rows, u, node) == Some(|x.rows|)
            && var y := BillRow(ready, j, |x.rows|, raw);
               Billed(RowsOf(x.rows, u), RowsOf(y.rows, u), x.accounts[j], y.accounts[j], node, raw)
  {
    var a, row := x.accounts[j], NewRow(x, j, node);
    var own := RowsOf(x.rows, a.id);
    FoundAtEnd(x.rows, row);
    NewRowIsOwn(x, j, node);
    var rows := x.rows + [RowRead(row, raw)];
    RowsAppend(x.rows, RowRead(row, raw), a.id);
    assert rows == (x.rows + [row])[|x.rows| := RowRead(row, raw)];
    BillRowAccount(x.(rows := x.rows + [row]), j, |x.rows|, raw, rows);
    assert forall i :: 0 <= i < |own| ==> own[i] in own;
    assert RowCharged(own, own + [RowRead(row, raw)], a, node, raw, Delta(row.last, raw));
  }

  /** What a turn leaves alone. */
  ghost predicate SameTables(x: Books, y: Books) {
    && y.devices == x.devices && y.removed == x.removed && y.servers == x.servers
    && |y.accounts| == |x.accounts| && forall i :: 0 <= i < |x.accounts| ==> y.accounts[i].id == x.accounts[i].id
  }

  lemma TurnKeepsTables(x: Books, b: Books, node: NodeId, stats: Stats, k: nat)
    requires k < |b.accounts| == |x.accounts|
    ensures SameTables(x, UserTurn(x, b, node, stats, k))
    ensures forall j :: 0 <= j < |x.accounts| && j != k ==>
              UserTurn(x, b, node, stats, k).accounts[j] == x.accounts[j]
  {
  }

  /** Nobody else's rows change in the turn of account `k`. */
  lemma TurnKeepsOthers(x: Books, b: Books, node: NodeId, stats: Stats, k: nat, u: UserId)
    requires k < |b.accounts| == |x.accounts| && x.accounts[k].id != u
    ensures RowsOf(UserTurn(x, b, node, stats, k).rows, u) == RowsOf(x.rows, u)
  {
    var ready := WithRow(x, k, node);
    var a := b.accounts[k];
    if UserTurn(x, b, node, stats, k) != x {
      if ready != x {
        RowsAppend(x.rows, NewRow(x, k, node), u);
        assert RowsOf(x.rows, u) + [] == RowsOf(x.rows, u);
      }
      var r := FindRow(ready.rows, x.accounts[k].id, node).value;
      var i := RowsUpdate(ready.rows, r, ChargedRow(ready.rows[r], stats[a.username]), u);
    }
  }

  /** The turn of an account that is not due does nothing, that of one that is due bills it. */
  lemma OwnTurn(x: Books, b: Books, node: NodeId, stats: Stats, j: nat)
    requires j < |b.accounts| == |x.accounts| && x.accounts[j].id == b.accounts[j].id
    ensures var a, y := b.accounts[j], UserTurn(x, b, node, stats, j);
            if Due(a, b.devices, stats)
            then Billed(RowsOf(x.rows, a.id), RowsOf(y.rows, a.id), x.accounts[j], y.accounts[j], node,
                        stats[a.username])
            else y == x
  {
    var a := b.accounts[j];
    DueExactly(a, b.devices, stats);
    if Due(a, b.devices, stats) {
      var found := FindRow(x.rows, a.id, node);
      if found.Some? {
        OwnTurnOldRow(x, j, found.value, node, stats[a.username]);
      } else {
        OwnTurnNewRow(x, j, node, stats[a.username]);
      }
    }
  }

  /** The tables after the turns of the first `k` accounts, looked at through account `j`. */
  ghost predicate UsersRead(b: Books, x: Books, y: Books, node: NodeId, stats: Stats, k: nat, j: nat)
    requires j < |b.accounts| == |x.accounts|
  {
    var a := b.accounts[j];
    && SameTables(x, y)
    && if k <= j || !Due(a, b.devices, stats)
       then RowsOf(y.rows, a.id) == RowsOf(x.rows, a.id) && y.accounts[j] == x.accounts[j]
       else Billed(RowsOf(x.rows, a.id), RowsOf(y.rows, a.id), x.accounts[j], y.accounts[j], node, stats[a.username])
  }

  lemma TurnBills(b: Books, x: Books, y: Books, node: NodeId, stats: Stats, k: nat, j: nat)
    requires k < |b.accounts| == |x.accounts| && j < |b.accounts| && DistinctAccounts(b.accounts)
    requires forall i :: 0 <= i < |b.accounts| ==> x.accounts[i].id == b.accounts[i].id
    requires UsersRead(b, x, y, node, stats, k, j)
    ensures UsersRead(b, x, UserTurn(y, b, node, stats, k), node, stats, k + 1, j)
  {
    TurnKeepsTables(y, b, node, stats, k);
    if k == j {
      OwnTurn(y, b, node, stats, j);
    } else {
      assert y.accounts[k].id == b.accounts[k].id != b.accounts[j].id;
      TurnKeepsOthers(y, b, node, stats, k, b.accounts[j].id);
    }
  }

  lemma {:induction false} UsersPassReaches(x: Books, b: Books, node: NodeId, stats: Stats, k: nat,
                                            inv: (nat, Books) -> bool)
    requires k <= |b.accounts| == |x.accounts| && inv(0, x)
    requires forall y: Books, i: nat :: i < |b.accounts| == |y.accounts| && inv(i, y) ==>
               inv(i + 1, UserTurn(y, b, node, stats, i))
    ensures inv(k, UsersPass(x, b, node, stats, k))
  {
    if k > 0 {
      UsersPassReaches(x, b, node, stats, k - 1, inv);
    }
  }

  lemma PassBills(b: Books, x: Books, node: NodeId, stats: Stats, j: nat)
    requires |b.accounts| == |x.accounts| && j < |b.accounts| && DistinctAccounts(b.accounts)
    requires forall i :: 0 <= i < |b.accounts| ==> x.accounts[i].id == b.accounts[i].id
    ensures UsersRead(b, x, UsersPass(x, b, node, stats, |b.accounts|), node, stats, |b.accounts|, j)
  {
    var read := (i: nat, y: Books) => UsersRead(b, x, y, node, stats, i, j);
    forall y: Books, i: nat | i < |b.accounts| == |y.accounts| && read(i, y)
      ensures read(i + 1, UserTurn(y, b, node, stats, i))
    {
      TurnBills(b, x, y, node, stats, i, j);
    }
    UsersPassReaches(x, b, node, stats, |b.accounts|, read);
    assert read(|b.accounts|, UsersPass(x, b, node, stats, |b.accounts|));
  }

  // ---------- one collection ----------

  /** The two loops, looked at through account `j`: the tables before, between and after. */
  lemma BothPasses(b: Books, node: NodeId, stats: Stats, j: nat) returns (mid: Books)
    requires j < |b.accounts| && DistinctAccounts(b.accounts) && OwnersKnown(b)
    ensures LastRawRead(b, mid, stats, |b.devices|, j)
    ensures UsersRead(b, mid, AfterStats(b, node, stats), node, stats, |b.accounts|, j)
  {
    mid := DevicesPass(b, node, stats, |b.devices|);
    PassReads(b, node, stats, j);
    PassBills(b, mid, node, stats, j);
  }

  /** Every device in the statistics is at its reading and has grown by the delta; no other device changes. */
  lemma ReportedDevicesAreRead(b: Books, node: NodeId, stats: Stats, i: nat)
    requires i < |b.devices| && DistinctAccounts(b.accounts) && OwnersKnown(b)
    ensures var end, email := AfterStats(b, node, stats), DeviceEmail(b.devices[i].user, b.devices[i].id);
            && |end.devices| == |b.devices|
            && end.devices[i] == if email in stats then DeviceRead(b.devices[i], stats[email]) else b.devices[i]
  {
    assert b.devices[i] in b.devices;
    var j := FindAccount(b.accounts, b.devices[i].user).value;
    var mid := BothPasses(b, node, stats, j);
  }

  /**
   A user that is due has its row for the node at the reading, the old one or a new one, and is charged
   what the row is; its other rows stay.
   */
  lemma DueUserIsBilled(b: Books, node: NodeId, stats: Stats, j: nat)
    requires j < |b.accounts| && DistinctAccounts(b.accounts) && OwnersKnown(b)
    requires Due(b.accounts[j], b.devices, stats)
    ensures var a, end := b.accounts[j], AfterStats(b, node, stats);
            && |end.accounts| == |b.accounts|
            && Billed(RowsOf(b.rows, a.id), RowsOf(end.rows, a.id), a, end.accounts[j], node, stats[a.username])
  {
    var mid := BothPasses(b, node, stats, j);
    var a := b.accounts[j];
    assert b.devices[..|b.devices|] == b.devices;
    assert !HasReported(a, b.devices, stats);
  }

  /**
   The rows of everybody else stay; an account with devices in the statistics grows by what they were
   charged, and one without is not touched at all.
   */
  lemma NobodyElseIsBilled(b: Books, node: NodeId, stats: Stats, j: nat)
    requires j < |b.accounts| && DistinctAccounts(b.accounts) && OwnersKnown(b)
    requires !Due(b.accounts[j], b.devices, stats)
    ensures var a, end := b.accounts[j], AfterStats(b, node, stats);
            && |end.accounts| == |b.accounts|
            && RowsOf(end.rows, a.id) == RowsOf(b.rows, a.id) && SameAccount(a, end.accounts[j])
            && (forall c :: Used(end.accounts[j], c) == Used(a, c) + Sum(b.devices, GainPart(a.id, stats, c)))
            && (if HasReported(a, b.devices, stats)
                then && end.accounts[j].status == (if AtLimit(end.accounts[j]) then UserStatus.TrafficLimited
                                                   else a.status)
                     && end.accounts[j].lastRaw ==
                        Pair(Sum(end.devices, OwnUp(a.id)), Sum(end.devices, OwnDown(a.id)))
                else end.accounts[j] == a)
  {
    var mid := BothPasses(b, node, stats, j);
    assert b.devices[..|b.devices|] == b.devices;
  }

  /** The rows of a user without an account stay, whoever is collected. */
  lemma StrangersKeepRows(b: Books, node: NodeId, stats: Stats, u: UserId)
    requires forall i :: 0 <= i < |b.accounts| ==> b.accounts[i].id != u
    ensures RowsOf(AfterStats(b, node, stats).rows, u) == RowsOf(b.rows, u)
  {
    var kept := (x: Books) => SameIds(b, x) && RowsOf(x.rows, u) == RowsOf(b.rows, u);
    forall x: Books, k: nat | k < |x.devices| && kept(x)
      ensures kept(DeviceTurn(x, node, stats, k))
    {
    }
    forall x: Books, k: nat | k < |b.accounts| == |x.accounts| && kept(x)
      ensures kept(UserTurn(x, b, node, stats, k))
    {
      TurnKeepsTables(x, b, node, stats, k);
      TurnKeepsOthers(x, b, node, stats, k, u);
    }
    CollectionKeeps(b, node, stats, kept);
  }

  predicate SameIds(b: Books, x: Books) {
    |x.accounts| == |b.accounts| && forall i :: 0 <= i < |b.accounts| ==> x.accounts[i].id == b.accounts[i].id
  }

  /** Snapshots were only added, all of them of users on the node. */
  ghost predicate AddedOn(before: seq<Snapshot>, after: seq<Snapshot>, node: NodeId) {
    && before <= after
    && forall i :: |before| <= i < |after| ==> after[i].node == node && after[i].user.Some?
  }

  lemma AddedOneMore(before: seq<Snapshot>, after: seq<Snapshot>, s: Snapshot)
    requires AddedOn(before, after, s.node) && s.user.Some?
    ensures AddedOn(before, after + [s], s.node)
  {
  }

  lemma DeviceTurnAddsOn(before: seq<Snapshot>, x: Books, node: NodeId, stats: Stats, k: nat)
    requires k < |x.devices| && AddedOn(before, x.snapshots, node)
    ensures AddedOn(before, DeviceTurn(x, node, stats, k).snapshots, node)
  {
    var y := DeviceTurn(x, node, stats, k);
    if y.snapshots != x.snapshots {
      AddedOneMore(before, x.snapshots, y.snapshots[|x.snapshots|]);
    }
  }

  lemma UserTurnAddsOn(before: seq<Snapshot>, x: Books, b: Books, node: NodeId, stats: Stats, k: nat)
    requires k < |b.accounts| == |x.accounts| && AddedOn(before, x.snapshots, node)
    ensures AddedOn(before, UserTurn(x, b, node, stats, k).snapshots, node)
  {
    var y := UserTurn(x, b, node, stats, k);
    if y.snapshots != x.snapshots {
      AddedOneMore(before, x.snapshots, y.snapshots[|x.snapshots|]);
    }
  }

  /** Every snapshot that a collection adds is one of a user on the node collected from. */
  lemma SnapshotsAreOfTheNode(b: Books, node: NodeId, stats: Stats)
    ensures var end := AfterStats(b, node, stats);
            && b.snapshots <= end.snapshots
            && forall i :: |b.snapshots| <= i < |end.snapshots| ==>
                 end.snapshots[i].node == node && end.snapshots[i].user.Some?
  {
    var added := (x: Books) => AddedOn(b.snapshots, x.snapshots, node);
    forall x: Books, k: nat | k < |x.devices| && added(x)
      ensures added(DeviceTurn(x, node, stats, k))
    {
      DeviceTurnAddsOn(b.snapshots, x, node, stats, k);
    }
    forall x: Books, k: nat | k < |b.accounts| == |x.accounts| && added(x)
      ensures added(UserTurn(x, b, node, stats, k))
    {
      UserTurnAddsOn(b.snapshots, x, b, node, stats, k);
    }
    CollectionKeeps(b, node, stats, added);
  }

  /** A reading of a node's own counter: that server grows by the delta, and a snapshot says so if it is not zero. */
  lemma ServerIsRead(b: Books, k: nat, raw: Pair)
    requires k < |b.servers| && raw.up >= 0 && raw.down >= 0
    ensures var s, end, delta := b.servers[k], AfterInbound(b, k, raw), Delta(b.servers[k].last, raw);
            && end == b.(servers := end.servers, snapshots := end.snapshots)
            && end.servers == b.servers[k := Server(s.node, s.up + delta.up, s.down + delta.down,
                                                    s.total + delta.up + delta.down, raw)]
            && end.snapshots == b.snapshots +
                                (if delta == Pair(0, 0) then []
                                 else [Snapshot(None, s.node, delta.up, delta.down, delta.up + delta.down)])
  {
    DeltaNotNegative(b.servers[k].last, raw);
  }

  /** A removed device is out of the table and remembered as it was; nothing else changes. */
  lemma RemovedDeviceIsRemembered(b: Books, k: nat)
    requires k < |b.devices|
    ensures var end := After(b, DropDevice(k));
            && end == b.(devices := end.devices, removed := b.removed + [b.devices[k]])
            && |end.devices| == |b.devices| - 1
            && forall i :: 0 <= i < |end.devices| ==> end.devices[i] == b.devices[if i < k then i else i + 1]
  {
  }
}
