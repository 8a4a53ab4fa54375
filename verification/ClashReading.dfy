/**
 What a client finds in a Clash document that it has read: the values under each key, server by
 server, and not only that the document is the tree that was printed.
 */
module ClashReading {
  import opened Wrappers
  import opened Yaml
  import opened ClashDocument
  import Entities
  import ConfigApply

  // ---------- looking up a key ----------

  function FirstUnder(es: seq<Entry>, key: string): Option<Value> {
    if es == [] then None
    else if es[0].key == Text(key) then Some(es[0].value)
    else FirstUnder(es[1..], key)
  }

  /** The value of a mapping under a key. */
  function Under(v: Value, key: string): Option<Value> {
    if v.Dict? then FirstUnder(v.entries, key) else None
  }

  /** The text, number or truth value under a key. */
  function ScalarUnder(v: Value, key: string): Option<Scalar> {
    match Under(v, key)
    case Some(Leaf(scalar)) => Some(scalar)
    case _ => None
  }

  function ItemsUnder(v: Value, key: string): seq<Value> {
    match Under(v, key)
    case Some(List(items)) => items
    case _ => []
  }

  lemma {:induction false} FoundAt(es: seq<Entry>, key: string, k: nat)
    requires k < |es| && es[k].key == Text(key) && forall i :: 0 <= i < k ==> es[i].key != Text(key)
    ensures FirstUnder(es, key) == Some(es[k].value)
  {
    if k > 0 {
      assert es[0].key != Text(key);
      FoundAt(es[1..], key, k - 1);
    }
  }

  // ---------- one server ----------

  /** How a client connects to the server: what the panel tells it under the keys that it reads. */
  ghost predicate Tells(v: Value, s: Server, uuid: string) {
    && ScalarUnder(v, "name") == Some(Text(s.name))
    && ScalarUnder(v, "type") == Some(Text("vless"))
    && ScalarUnder(v, "server") == Some(Text(if s.publicHost != "" then s.publicHost else s.ipAddress))
    && ScalarUnder(v, "port") == Some(Int(s.port))
    && ScalarUnder(v, "uuid") == Some(Text(uuid))
    && ScalarUnder(v, "network") == Some(Text("tcp"))
  }

  ghost predicate TellsTransport(v: Value, s: Server) {
    && ScalarUnder(v, "tls") == Some(Bool(true)) && ScalarUnder(v, "udp") == Some(Bool(true))
    && ScalarUnder(v, "flow") == Some(Text("xtls-rprx-vision"))
    && ScalarUnder(v, "servername") == Some(Text(s.sni))
    && ScalarUnder(v, "client-fingerprint") == Some(Text(if s.fingerprint != "" then s.fingerprint else "chrome"))
  }

  ghost predicate TellsKeys(v: Value, publicKey: string, shortId: string) {
    && Under(v, "reality-opts").Some?
    && ScalarUnder(Under(v, "reality-opts").value, "public-key") == Some(Text(publicKey))
    && ScalarUnder(Under(v, "reality-opts").value, "short-id") == Some(Text(shortId))
  }

  const PROXY_KEYS := ["name", "type", "server", "port", "uuid", "network", "tls", "udp", "flow", "servername",
                       "client-fingerprint", "reality-opts"]

  lemma ProxyKeysDiffer(i: nat, j: nat)
    requires i < j < 12
    ensures PROXY_KEYS[i] != PROXY_KEYS[j]
  {
  }

  lemma ProxyKeysInPlace(s: Server, uuid: string, k: nat)
    requires k < 12
    ensures var es := ProxyTree(s, uuid).entries; |es| == 12 && es[k].key == Text(PROXY_KEYS[k])
  {
  }

  lemma ProxyUnder(s: Server, uuid: string, k: nat)
    requires k < 12
    ensures var es := ProxyTree(s, uuid).entries;
            |es| == 12 && Under(ProxyTree(s, uuid), PROXY_KEYS[k]) == Some(es[k].value)
  {
    var es := ProxyTree(s, uuid).entries;
    ProxyKeysInPlace(s, uuid, k);
    forall i | 0 <= i < k
      ensures es[i].key != Text(PROXY_KEYS[k])
    {
      ProxyKeysInPlace(s, uuid, i);
      ProxyKeysDiffer(i, k);
    }
    FoundAt(es, PROXY_KEYS[k], k);
  }

  lemma AddressIsTold(s: Server, uuid: string)
    ensures Tells(ProxyTree(s, uuid), s, uuid)
  {
    ProxyUnder(s, uuid, 0);
    ProxyUnder(s, uuid, 1);
    ProxyUnder(s, uuid, 2);
    ProxyUnder(s, uuid, 3);
    ProxyUnder(s, uuid, 4);
    ProxyUnder(s, uuid, 5);
  }

  lemma TransportIsTold(s: Server, uuid: string)
    ensures TellsTransport(ProxyTree(s, uuid), s)
  {
    ProxyUnder(s, uuid, 6);
    ProxyUnder(s, uuid, 7);
    ProxyUnder(s, uuid, 8);
    ProxyUnder(s, uuid, 9);
    ProxyUnder(s, uuid, 10);
  }

  lemma KeysAreTold(s: Server, uuid: string)
    ensures TellsKeys(ProxyTree(s, uuid), s.credentials.publicKey, s.credentials.shortId)
  {
    ProxyUnder(s, uuid, 11);
    var es := RealityTree(s).entries;
    FoundAt(es, "public-key", 0);
    FoundAt(es, "short-id", 1);
  }

  // ---------- the whole document ----------

  /** The keys of a listed server: its own where it has them, generated ones otherwise. */
  predicate KeysOf(own: Entities.Credentials, generated: Entities.Credentials, publicKey: string, shortId: string) {
    && publicKey == (if own.privateKey != "" && own.publicKey != "" then own.publicKey else generated.publicKey)
    && shortId == if own.shortId != "" then own.shortId else generated.shortId
  }

  /** Entry `i` of `proxies` tells a client what it needs for the `i`-th available server. */
  ghost predicate EntryTells(doc: Value, i: nat, s: Server, uuid: string, generated: Entities.Credentials) {
    && i < |ItemsUnder(doc, "proxies")|
    && var entry := ItemsUnder(doc, "proxies")[i];
       Tells(entry, s, uuid) && TellsTransport(entry, s)
       && exists publicKey, shortId :: KeysOf(s.credentials, generated, publicKey, shortId)
                                       && TellsKeys(entry, publicKey, shortId)
  }

  /** The group lists the names of all servers in order under the title, and the one rule leads to it. */
  ghost predicate GroupTells(doc: Value, title: string, servers: seq<Server>) {
    && ItemsUnder(doc, "rules") == [Leaf(Text("MATCH," + title))]
    && |ItemsUnder(doc, "proxy-groups")| == 1
    && var group := ItemsUnder(doc, "proxy-groups")[0];
       && ScalarUnder(group, "name") == Some(Text(title)) && ScalarUnder(group, "type") == Some(Text("select"))
       && |ItemsUnder(group, "proxies")| == |servers|
       && forall i :: 0 <= i < |servers| ==> ItemsUnder(group, "proxies")[i] == Leaf(Text(servers[i].name))
  }

  lemma DocumentParts(title: string, uuid: string, servers: seq<Server>)
    ensures var doc := ClashTree(title, uuid, servers);
            && ItemsUnder(doc, "proxies") == ProxyTrees(servers, uuid)
            && ItemsUnder(doc, "proxy-groups") == [GroupTree(title, servers)]
            && ItemsUnder(doc, "rules") == [Leaf(Text("MATCH," + title))]
  {
    var es := ClashTree(title, uuid, servers).entries;
    FoundAt(es, "proxies", 0);
    FoundAt(es, "proxy-groups", 1);
    FoundAt(es, "rules", 2);
  }

  lemma GroupParts(title: string, servers: seq<Server>)
    ensures var group := GroupTree(title, servers);
            && ScalarUnder(group, "name") == Some(Text(title)) && ScalarUnder(group, "type") == Some(Text("select"))
            && ItemsUnder(group, "proxies") == Names(servers)
  {
    var es := GroupTree(title, servers).entries;
    assert |es| == 3;
    FoundAt(es, "name", 0);
    FoundAt(es, "type", 1);
    FoundAt(es, "proxies", 2);
  }

  /** All that a document tells. */
  ghost predicate DocumentTells(doc: Value, title: string, uuid: string, available: seq<Server>, keys: Keys) {
    && |ItemsUnder(doc, "proxies")| == |available|
    && (forall i: nat :: i < |available| ==> EntryTells(doc, i, available[i], uuid, keys(i)))
    && GroupTells(doc, title, available)
  }

  lemma TreeTells(title: string, uuid: string, available: seq<Server>, keys: Keys)
    ensures DocumentTells(ClashTree(title, uuid, AllWithKeys(available, keys)), title, uuid, available, keys)
  {
    var listed := AllWithKeys(available, keys);
    DocumentParts(title, uuid, listed);
    forall i: nat | i < |available|
      ensures EntryTells(ClashTree(title, uuid, listed), i, available[i], uuid, keys(i))
    {
      EntryIsTold(listed[i], available[i], uuid, keys(i));
    }
    GroupParts(title, listed);
  }

  /**
   What is read from a document that is clean, which `DocumentReadsBackExactlyWhen` needs it to be: every
   available server in its place, with nothing left out or mixed up.
   */
  lemma ReaderFindsServers(notice: seq<string>, title: string, uuid: string, available: seq<Server>, keys: Keys,
                           repr: Repr)
      returns (doc: Value)
    requires IsNotice(notice) && EscapesControls(repr) && available != []
    requires CleanNotice(notice) && CleanDocument(title, uuid, AllWithKeys(available, keys))
    ensures Emitted(notice, title, uuid, available, keys, repr).Success?
    ensures Read(Emitted(notice, title, uuid, available, keys, repr).value) == Some(doc)
    ensures DocumentTells(doc, title, uuid, available, keys)
  {
    doc := ClashTree(title, uuid, AllWithKeys(available, keys));
    TreeTells(title, uuid, available, keys);
    DocumentReadsBackExactlyWhen(notice, title, uuid, available, keys, repr);
  }

  lemma EntryIsTold(s: Server, own: Server, uuid: string, generated: ConfigApply.Generated)
    requires s == WithKeys(own, generated)
    ensures Tells(ProxyTree(s, uuid), own, uuid) && TellsTransport(ProxyTree(s, uuid), own)
    ensures KeysOf(own.credentials, generated, s.credentials.publicKey, s.credentials.shortId)
    ensures TellsKeys(ProxyTree(s, uuid), s.credentials.publicKey, s.credentials.shortId)
  {
    AddressIsTold(s, uuid);
    TransportIsTold(s, uuid);
    KeysAreTold(s, uuid);
  }
}
