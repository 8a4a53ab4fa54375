/**
 The two ends of a connection: what a subscription tells a device about a server is what the server
 runs, port, SNI, short id and the device's own key included.
 */
module Connection {
  import opened Wrappers
  import opened Entities
  import opened XrayConfig
  import opened Rendering
  import opened ConfigApply
  import opened Agreement
  import opened Runs
  import opened Subscription
  import opened ClashDocument
  import opened ClashReading
  import Decimal
  import Yaml

  /** What the document takes from the node row; name, address and fingerprint are the client's business alone. */
  predicate IsRowOf(s: Server, node: Node) {
    s.port == node.port && s.sni == node.sni && s.credentials == node.credentials
  }

  /** The servers of a user's document: its available nodes in their order. */
  ghost predicate Listing(db: Db, rows: seq<Node>, u: User, servers: seq<Server>) {
    && OnlineRows(db, rows)
    && var listed := OrderedAvailableNodes(u, db.profiles, rows);
       |servers| == |listed| && forall i :: 0 <= i < |servers| ==> IsRowOf(servers[i], listed[i])
  }

  lemma ListedRow(db: Db, rows: seq<Node>, u: User, i: nat)
    requires ValidDb(db) && OnlineRows(db, rows) && i < |OrderedAvailableNodes(u, db.profiles, rows)|
    ensures var node := OrderedAvailableNodes(u, db.profiles, rows)[i];
            node.id in db.nodes && db.nodes[node.id] == node && node.status == NodeStatus.Online
  {
    var listed := OrderedAvailableNodes(u, db.profiles, rows);
    OrderedMeaning(u, db.profiles, rows);
    assert listed[i] in multiset(listed);
    assert listed[i] in Available(u, db.profiles, rows);
  }

  /** The entry of the document and the configuration of the server let the device connect. */
  ghost predicate Agree(entry: Yaml.Value, config: Config, email: string) {
    && ScalarUnder(entry, "port") == Some(Yaml.Int(config.port))
    && ScalarUnder(entry, "servername") == Some(Yaml.Text(config.sni))
    && exists c :: && c in config.clients && c.ClientEntry? && c.email == Some(email)
                   && ScalarUnder(entry, "uuid") == Some(Yaml.Text(c.uuid))
                   && ScalarUnder(entry, "flow") == Some(Yaml.Text(c.flow))
  }

  ghost predicate SameShortId(entry: Yaml.Value, config: Config) {
    Under(entry, "reality-opts").Some?
    && ScalarUnder(Under(entry, "reality-opts").value, "short-id") == Some(Yaml.Text(config.shortId))
  }

  /**
   Every entry that a device reads agrees with the configuration rendered for that server, which has a
   client of the device's name under the same key.  The short ids agree exactly when the row has one: for
   a row without, the document is given a new one.
   */
  lemma DocumentAgreesWithRendering(db: Db, rows: seq<Node>, u: User, d: Device, servers: seq<Server>, title: string,
                                    keys: Keys, doc: Yaml.Value, i: nat)
    requires ValidDb(db) && Listing(db, rows, u, servers) && i < |servers|
    requires u in db.users && u.status == UserStatus.Active && d in u.devices
    requires d.status == DeviceStatus.Active && d.hwidHash.Some? && d.hwidHash.value != ""
    requires DocumentTells(doc, title, d.uuid, servers, keys)
    ensures var n := OrderedAvailableNodes(u, db.profiles, rows)[i].id;
            && n in db.nodes
            && (Render(db, n).Success? ==>
                  var entry, config := ItemsUnder(doc, "proxies")[i], Render(db, n).value;
                  && Agree(entry, config, Decimal.DeviceEmail(u.id, d.id))
                  && (SameShortId(entry, config) <==> db.nodes[n].credentials.shortId != ""))
  {
    var node := OrderedAvailableNodes(u, db.profiles, rows)[i];
    ListedRow(db, rows, u, i);
    if Render(db, node.id).Success? {
      var config := Render(db, node.id).value;
      NodeInRendering(db.users, db.profiles, node);
      ListedExactlyWhenAdmitted(db, rows, u, d, node.id);
      var c := AkfaClient(u, d);
      assert c in config.clients && c.email == Some(Decimal.DeviceEmail(u.id, d.id));
      assert EntryTells(doc, i, servers[i], d.uuid, keys(i));
    }
  }

  /** Over every run, what a device reads about a counted server is what that server runs at the time. */
  lemma DocumentAgreesWithServer(sys: System, events: seq<Event>, rows: seq<Node>, u: User, d: Device,
                                 servers: seq<Server>, title: string, keys: Keys, doc: Yaml.Value, i: nat)
    requires InSync(sys) && ValidDb(sys.db) && ValidLists(sys.db.profiles)
    requires FreshRun(sys, events) && AdmissibleRun(sys, events)
    requires Listing(Run(sys, events).db, rows, u, servers) && i < |servers|
    requires u in Run(sys, events).db.users && u.status == UserStatus.Active && d in u.devices
    requires d.status == DeviceStatus.Active && d.hwidHash.Some? && d.hwidHash.value != ""
    requires DocumentTells(doc, title, d.uuid, servers, keys)
    ensures var now := Run(sys, events);
            var n := OrderedAvailableNodes(u, now.db.profiles, rows)[i].id;
            && n in now.db.nodes
            && (Counts(now, n) ==>
                  && n in now.deployed
                  && Agree(ItemsUnder(doc, "proxies")[i], now.deployed[n], Decimal.DeviceEmail(u.id, d.id))
                  && (SameShortId(ItemsUnder(doc, "proxies")[i], now.deployed[n]) <==>
                      now.db.nodes[n].credentials.shortId != ""))
  {
    var now := Run(sys, events);
    AgreementOverRuns(sys, events);
    ValidOverRuns(sys, events);
    assert events[..|events|] == events;
    DocumentAgreesInSync(now, rows, u, d, servers, title, keys, doc, i);
  }

  lemma DocumentAgreesInSync(now: System, rows: seq<Node>, u: User, d: Device, servers: seq<Server>, title: string,
                             keys: Keys, doc: Yaml.Value, i: nat)
    requires InSync(now) && ValidDb(now.db) && Listing(now.db, rows, u, servers) && i < |servers|
    requires u in now.db.users && u.status == UserStatus.Active && d in u.devices
    requires d.status == DeviceStatus.Active && d.hwidHash.Some? && d.hwidHash.value != ""
    requires DocumentTells(doc, title, d.uuid, servers, keys)
    ensures var n := OrderedAvailableNodes(u, now.db.profiles, rows)[i].id;
            && n in now.db.nodes
            && (Counts(now, n) ==>
                  && n in now.deployed
                  && Agree(ItemsUnder(doc, "proxies")[i], now.deployed[n], Decimal.DeviceEmail(u.id, d.id))
                  && (SameShortId(ItemsUnder(doc, "proxies")[i], now.deployed[n]) <==>
                      now.db.nodes[n].credentials.shortId != ""))
  {
    DocumentAgreesWithRendering(now.db, rows, u, d, servers, title, keys, doc, i);
    assert NodeInSync(now, OrderedAvailableNodes(u, now.db.profiles, rows)[i].id);
  }
}
