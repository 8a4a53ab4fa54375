/**
 The servers listed in a subscription (`ordered_available_nodes`), and their agreement
 with what the servers themselves let in.
 */
module Subscription {
  import opened Wrappers
  import opened Decimal
  import opened Entities
  import opened XrayConfig

  // ---------- the sort key ----------

  /** Code-point order of strings. */
  predicate LexLess(a: string, b: string) {
    b != "" && (a == "" || a[0] < b[0] || (a[0] == b[0] && LexLess(a[1..], b[1..])))
  }

  lemma {:induction false} LexTotal(a: string, b: string)
    ensures a == b || LexLess(a, b) || LexLess(b, a)
    ensures !(LexLess(a, b) && LexLess(b, a))
    ensures !LexLess(a, a)
  {
    if a != "" {
      LexTotal(a[1..], a[1..]);
      if b != "" {
        LexTotal(a[1..], b[1..]);
        assert a == [a[0]] + a[1..] && b == [b[0]] + b[1..];
      }
    }
  }

  lemma {:induction false} LexTransitive(a: string, b: string, c: string)
    requires LexLess(a, b) && LexLess(b, c)
    ensures LexLess(a, c)
  {
    if a != "" && a[0] == b[0] && b[0] == c[0] {
      LexTransitive(a[1..], b[1..], c[1..]);
    }
  }

  function Label(n: Node): string {
    if n.location.Some? && n.location.value != "" then n.location.value else n.name
  }

  predicate IsPrimary(u: User, n: Node) {
    u.primaryNodeId == Some(n.id)
  }

  /** Order of the key tuples (primary first, then label, then id). */
  predicate Before(u: User, a: Node, b: Node) {
    if IsPrimary(u, a) != IsPrimary(u, b) then IsPrimary(u, a)
    else if Label(a) != Label(b) then LexLess(Label(a), Label(b))
    else a.id < b.id
  }

  lemma BeforeIsOrder(u: User, a: Node, b: Node, c: Node)
    ensures Before(u, a, b) && Before(u, b, c) ==> Before(u, a, c)
    ensures a.id != b.id ==> Before(u, a, b) || Before(u, b, a)
    ensures !(Before(u, a, b) && Before(u, b, a))
  {
    LexTotal(Label(a), Label(b));
    LexTotal(Label(b), Label(c));
    LexTotal(Label(a), Label(c));
    if LexLess(Label(a), Label(b)) && LexLess(Label(b), Label(c)) {
      LexTransitive(Label(a), Label(b), Label(c));
    }
  }

  // ---------- filtering and sorting ----------

  function Available(u: User, profiles: map<ProfileId, Profile>, nodes: seq<Node>): (r: seq<Node>)
    ensures forall n :: n in r <==> n in nodes && n.id in EffectiveNodeIds(u, profiles) && n.status == NodeStatus.Online
  {
    if nodes == [] then []
    else
      var rest := Available(u, profiles, nodes[1..]);
      if nodes[0].id in EffectiveNodeIds(u, profiles) && nodes[0].status == NodeStatus.Online then [nodes[0]] + rest
          else rest
  }

  function Insert(u: User, n: Node, sorted: seq<Node>): seq<Node> {
    if sorted == [] || !Before(u, sorted[0], n) then [n] + sorted else [sorted[0]] + Insert(u, n, sorted[1..])
  }

  function SortByKey(u: User, nodes: seq<Node>): seq<Node> {
    if nodes == [] then [] else Insert(u, nodes[0], SortByKey(u, nodes[1..]))
  }

  function OrderedAvailableNodes(u: User, profiles: map<ProfileId, Profile>, nodes: seq<Node>): seq<Node> {
    SortByKey(u, Available(u, profiles, nodes))
  }

  ghost predicate StrictlySorted(u: User, s: seq<Node>) {
    forall i, j :: 0 <= i < j < |s| ==> Before(u, s[i], s[j])
  }

  ghost predicate DistinctIds(nodes: seq<Node>) {
    forall i, j :: 0 <= i < j < |nodes| ==> nodes[i].id != nodes[j].id
  }

  lemma {:induction false} InsertSorts(u: User, n: Node, s: seq<Node>)
    requires StrictlySorted(u, s) && forall m :: m in s ==> m.id != n.id
    ensures StrictlySorted(u, Insert(u, n, s)) && multiset(Insert(u, n, s)) == multiset{n} + multiset(s)
  {
    if s != [] {
      assert s == [s[0]] + s[1..];
      BeforeIsOrder(u, s[0], n, n);
      if Before(u, s[0], n) {
        InsertSorts(u, n, s[1..]);
        var rest := Insert(u, n, s[1..]);
        forall m | m in rest
          ensures Before(u, s[0], m)
        {
          assert m in multiset(rest);
          assert m == n || m in s[1..];
        }
      } else {
        forall m | m in s
          ensures Before(u, n, m)
        {
          BeforeIsOrder(u, n, s[0], m);
        }
      }
    }
  }

  lemma {:induction false} SortSorts(u: User, nodes: seq<Node>)
    requires DistinctIds(nodes)
    ensures StrictlySorted(u, SortByKey(u, nodes)) && multiset(SortByKey(u, nodes)) == multiset(nodes)
  {
    if nodes != [] {
      var rest := SortByKey(u, nodes[1..]);
      SortSorts(u, nodes[1..]);
      assert nodes == [nodes[0]] + nodes[1..];
      forall m | m in rest
        ensures m.id != nodes[0].id
      {
        assert m in multiset(nodes[1..]);
      }
      InsertSorts(u, nodes[0], rest);
    }
  }

  lemma {:induction false} AvailableDistinct(u: User, profiles: map<ProfileId, Profile>, nodes: seq<Node>)
    requires DistinctIds(nodes)
    ensures DistinctIds(Available(u, profiles, nodes))
  {
    if nodes != [] {
      AvailableDistinct(u, profiles, nodes[1..]);
      assert forall n :: n in nodes[1..] ==> n.id != nodes[0].id;
    }
  }

  lemma FirstIsBefore(u: User, a: seq<Node>, x: Node)
    requires StrictlySorted(u, a) && x in multiset(a)
    ensures a != [] && (x == a[0] || Before(u, a[0], x))
  {
    var i :| 0 <= i < |a| && a[i] == x;
  }

  lemma SmallestIsFirst(u: User, a: seq<Node>, b: seq<Node>)
    requires StrictlySorted(u, a) && StrictlySorted(u, b) && multiset(a) == multiset(b) && a != [] && b != []
    ensures a[0] == b[0]
  {
    assert a[0] in multiset(a) && b[0] in multiset(b);
    FirstIsBefore(u, a, b[0]);
    FirstIsBefore(u, b, a[0]);
    BeforeIsOrder(u, a[0], b[0], b[0]);
  }

  /** There is only one sorted arrangement, so any correct sort gives this list. */
  lemma {:induction false} SortedIsUnique(u: User, a: seq<Node>, b: seq<Node>)
    requires StrictlySorted(u, a) && StrictlySorted(u, b) && multiset(a) == multiset(b)
    ensures a == b
  {
    if a == [] {
      assert |b| == |multiset(b)| == 0;
    } else {
      assert |a| == |multiset(a)| == |multiset(b)| == |b|;
      SmallestIsFirst(u, a, b);
      assert a == [a[0]] + a[1..] && b == [b[0]] + b[1..];
      assert multiset(a[1..]) == multiset(a) - multiset{a[0]} == multiset(b[1..]);
      SortedIsUnique(u, a[1..], b[1..]);
    }
  }

  /** The list is the sorted permutation of the available nodes, with an available primary node first. */
  lemma OrderedMeaning(u: User, profiles: map<ProfileId, Profile>, nodes: seq<Node>)
    requires DistinctIds(nodes)
    ensures var r := OrderedAvailableNodes(u, profiles, nodes);
            && StrictlySorted(u, r)
            && multiset(r) == multiset(Available(u, profiles, nodes))
            && (forall n :: n in r && IsPrimary(u, n) ==> r[0] == n)
  {
    var r := OrderedAvailableNodes(u, profiles, nodes);
    AvailableDistinct(u, profiles, nodes);
    SortSorts(u, Available(u, profiles, nodes));
    forall n | n in r && IsPrimary(u, n)
      ensures r[0] == n
    {
      var i :| 0 <= i < |r| && r[i] == n;
      if i > 0 {
        assert Before(u, r[0], r[i]);
        assert IsPrimary(u, r[0]) && r[0].id == n.id;
        assert r[0] in multiset(r) && n in multiset(r);
        DistinctOfMultiset(Available(u, profiles, nodes), r[0], n);
      }
    }
  }

  /** In code-point order: the first difference decides, and a proper prefix comes first. */
  ghost predicate ComesFirst(a: string, b: string) {
    exists k :: 0 <= k <= |a| && k < |b| && a[..k] == b[..k] && (k == |a| || a[k] < b[k])
  }

  lemma {:induction false} LexMeaning(a: string, b: string)
    ensures LexLess(a, b) <==> ComesFirst(a, b)
  {
    if a != "" && b != "" && a[0] == b[0] {
      LexMeaning(a[1..], b[1..]);
      if ComesFirst(a[1..], b[1..]) {
        var c, d := a[1..], b[1..];
        var k :| 0 <= k <= |c| && k < |d| && c[..k] == d[..k] && (k == |c| || c[k] < d[k]);
        assert a[..k + 1] == [a[0]] + a[1..][..k] && b[..k + 1] == [b[0]] + b[1..][..k];
      }
      if ComesFirst(a, b) {
        var k :| 0 <= k <= |a| && k < |b| && a[..k] == b[..k] && (k == |a| || a[k] < b[k]);
        assert k > 0 && a[1..][..k - 1] == a[..k][1..] && b[1..][..k - 1] == b[..k][1..];
      }
    } else if b != "" {
      assert a[..0] == b[..0];
      assert a != "" ==> forall k :: 0 < k <= |a| && k < |b| && a[..k] == b[..k] ==> a[..k][0] == a[0] == b[0];
    }
  }

  /** What a server is sorted by: its location, or its name if it has none. */
  function SortText(n: Node): string {
    match n.location
    case None => n.name
    case Some(location) => if |location| > 0 then location else n.name
  }

  /**
   Any two servers of the list: the primary node is not the later one, and if it is not the earlier one
   either, they are in the order of location or name, and of ids where these are the same.
   */
  lemma ListedInOrder(u: User, profiles: map<ProfileId, Profile>, nodes: seq<Node>, i: nat, j: nat)
    requires DistinctIds(nodes) && i < j < |OrderedAvailableNodes(u, profiles, nodes)|
    ensures var r := OrderedAvailableNodes(u, profiles, nodes);
            && u.primaryNodeId != Some(r[j].id)
            && (u.primaryNodeId != Some(r[i].id) ==>
                  || ComesFirst(SortText(r[i]), SortText(r[j]))
                  || (SortText(r[i]) == SortText(r[j]) && r[i].id < r[j].id))
  {
    var r := OrderedAvailableNodes(u, profiles, nodes);
    OrderedMeaning(u, profiles, nodes);
    assert Before(u, r[i], r[j]);
    LexMeaning(SortText(r[i]), SortText(r[j]));
    assert r[j] in r;
    if IsPrimary(u, r[j]) {
      assert r[0] == r[j];
      OtherIsAnother(u, r, i, j);
    }
  }

  lemma OtherIsAnother(u: User, r: seq<Node>, i: nat, j: nat)
    requires StrictlySorted(u, r) && i < j < |r|
    ensures r[0] != r[j]
  {
    assert Before(u, r[0], r[j]);
    BeforeIsOrder(u, r[0], r[j], r[j]);
  }

  lemma DistinctOfMultiset(nodes: seq<Node>, a: Node, b: Node)
    requires DistinctIds(nodes) && a in multiset(nodes) && b in multiset(nodes) && a.id == b.id
    ensures a == b
  {
    var i :| 0 <= i < |nodes| && nodes[i] == a;
    var j :| 0 <= j < |nodes| && nodes[j] == b;
  }

  // ---------- client and server agree ----------

  /** The online rows, as the query of `subscription_nodes` returns them in any order. */
  ghost predicate OnlineRows(db: Db, rows: seq<Node>) {
    && DistinctIds(rows)
    && forall n :: n in rows <==> n.id in db.nodes && db.nodes[n.id] == n && n.status == NodeStatus.Online
  }

  /**
   A server is listed in the subscription of a device exactly when the configuration
   rendered for that server lets the device in.
   */
  lemma ListedExactlyWhenAdmitted(db: Db, rows: seq<Node>, u: User, d: Device, n: NodeId)
    requires ValidDb(db) && OnlineRows(db, rows)
    requires u in db.users && u.status == UserStatus.Active && d in u.devices && Serves(d)
    requires n in db.nodes && Render(db, n).Success?
    ensures db.nodes[n] in OrderedAvailableNodes(u, db.profiles, rows) <==>
            AkfaClient(u, d) in Render(db, n).value.clients
  {
    ListedExactly(db, rows, u, n);
    AdmittedExactly(db, u, d, n);
  }

  lemma ListedExactly(db: Db, rows: seq<Node>, u: User, n: NodeId)
    requires ValidDb(db) && OnlineRows(db, rows) && n in db.nodes
    ensures db.nodes[n] in OrderedAvailableNodes(u, db.profiles, rows) <==>
            n in EffectiveNodeIds(u, db.profiles) && db.nodes[n].status == NodeStatus.Online
  {
    var node := db.nodes[n];
    OrderedMeaning(u, db.profiles, rows);
    var listed := OrderedAvailableNodes(u, db.profiles, rows);
    assert node in listed <==> node in multiset(listed);
    assert node in Available(u, db.profiles, rows) <==> node in multiset(Available(u, db.profiles, rows));
  }

  lemma AdmittedExactly(db: Db, u: User, d: Device, n: NodeId)
    requires ValidDb(db) && u in db.users && u.status == UserStatus.Active && d in u.devices && Serves(d)
    requires n in db.nodes && Render(db, n).Success?
    ensures AkfaClient(u, d) in Render(db, n).value.clients <==>
            n in EffectiveNodeIds(u, db.profiles) && db.nodes[n].status == NodeStatus.Online
  {
    var node := db.nodes[n];
    AkfaClientsMembers(db.users, db.profiles, node, AkfaClient(u, d));
    if AkfaClient(u, d) in Render(db, n).value.clients {
      assert DeviceEmail(u.id, d.id)[..|EMAIL_PREFIX|] == EMAIL_PREFIX;
      assert AkfaClient(u, d) in AkfaClients(db.users, db.profiles, node);
      OnlyOwnRowRenders(db, node, u, d);
    }
  }

  lemma OnlyOwnRowRenders(db: Db, node: Node, u: User, d: Device)
    requires ValidDb(db) && u in db.users && AkfaClient(u, d) in AkfaClients(db.users, db.profiles, node)
    ensures node.status == NodeStatus.Online && node.id in EffectiveNodeIds(u, db.profiles)
  {
    var v, e := OwnerOfClient(db.users, db.profiles, node, AkfaClient(u, d));
    DeviceEmailInjective(u.id, d.id, v.id, e.id);
    assert v == u;
  }
}
