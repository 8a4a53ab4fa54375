/**
 The Clash document of a subscription (`clash_yaml` and `subscription_nodes`,
 backend/app/services/subscriptions.py): without a server it is refused, every listed
 server is given its Reality keys first, and what is printed reads back as the tree unless
 a title, a name or another text in it holds a control character.
 */
module ClashDocument {
  import opened Wrappers
  import opened Yaml
  import Entities
  import ConfigApply

  /** An available node under its clean name; an empty host or fingerprint stands for none. */
  datatype Server = Server(
    name: string,
    publicHost: string,
    ipAddress: string,
    port: int,
    sni: string,
    fingerprint: string,
    credentials: Entities.Credentials)

  /** What the key generator would return for the i-th server. */
  type Keys = nat -> ConfigApply.Generated

  datatype Refusal = NoServers

  function Or(s: string, default: string): string {
    if s != "" then s else default
  }

  function WithKeys(s: Server, generated: ConfigApply.Generated): Server {
    s.(credentials := ConfigApply.EnsureCredentials(s.credentials, generated))
  }

  function AllWithKeys(servers: seq<Server>, keys: Keys): seq<Server> {
    seq(|servers|, i requires 0 <= i < |servers| => WithKeys(servers[i], keys(i)))
  }

  // ---------- the printed tree ----------

  function ProxyTree(s: Server, uuid: string): Value {
    Dict(ProxyFields(s, uuid) + [Entry(Text("reality-opts"), RealityTree(s))])
  }

  function ProxyFields(s: Server, uuid: string): seq<Entry> {
    AddressFields(s, uuid) + TransportFields(s)
  }

  function AddressFields(s: Server, uuid: string): seq<Entry> {
    [Entry(Text("name"), Leaf(Text(s.name))),
     Entry(Text("type"), Leaf(Text("vless"))),
     Entry(Text("server"), Leaf(Text(Or(s.publicHost, s.ipAddress)))),
     Entry(Text("port"), Leaf(Int(s.port))),
     Entry(Text("uuid"), Leaf(Text(uuid))),
     Entry(Text("network"), Leaf(Text("tcp")))]
  }

  function TransportFields(s: Server): seq<Entry> {
    [Entry(Text("tls"), Leaf(Bool(true))),
     Entry(Text("udp"), Leaf(Bool(true))),
     Entry(Text("flow"), Leaf(Text("xtls-rprx-vision"))),
     Entry(Text("servername"), Leaf(Text(s.sni))),
     Entry(Text("client-fingerprint"), Leaf(Text(Or(s.fingerprint, "chrome"))))]
  }

  function RealityTree(s: Server): Value {
    Dict([
      Entry(Text("public-key"), Leaf(Text(s.credentials.publicKey))),
      Entry(Text("short-id"), Leaf(Text(s.credentials.shortId)))])
  }

  function ProxyTrees(servers: seq<Server>, uuid: string): seq<Value> {
    seq(|servers|, i requires 0 <= i < |servers| => ProxyTree(servers[i], uuid))
  }

  function Names(servers: seq<Server>): seq<Value> {
    seq(|servers|, i requires 0 <= i < |servers| => Leaf(Text(servers[i].name)))
  }

  function GroupTree(title: string, servers: seq<Server>): Value {
    Dict(GroupFields(title) + [Entry(Text("proxies"), List(Names(servers)))])
  }

  function GroupFields(title: string): seq<Entry> {
    [Entry(Text("name"), Leaf(Text(title))), Entry(Text("type"), Leaf(Text("select")))]
  }

  function RuleTree(title: string): Value {
    List([Leaf(Text("MATCH," + title))])
  }

  function ClashTree(title: string, uuid: string, servers: seq<Server>): Value {
    Dict([
      Entry(Text("proxies"), List(ProxyTrees(servers, uuid))),
      Entry(Text("proxy-groups"), List([GroupTree(title, servers)])),
      Entry(Text("rules"), RuleTree(title))])
  }

  /** The printed text of a tree under the notice. */
  function Document(notice: seq<string>, tree: Value, repr: Repr): string {
    Join(notice + Texts(Lines(tree, 0, BLANK, repr)))
  }

  // ---------- the shape of the tree ----------

  /** A tree that is printed without an exception and means itself. */
  predicate Sound(v: Value) {
    Printable(v) && !Raises(v) && Faithful(v)
  }

  predicate SoundItem(v: Value) {
    Printable(v) && !ItemRaises(v) && FaithfulItem(v)
  }

  predicate GoodKey(k: string) {
    PlainKey(k) && ReadPlain(k) == Text(k)
  }

  const ADDRESS_KEYS := {"name", "type", "server", "port", "uuid", "network"}
  const TRANSPORT_KEYS := {"tls", "udp", "flow", "servername", "client-fingerprint"}
  const TREE_KEYS := {"reality-opts", "public-key", "short-id", "proxies", "proxy-groups", "rules"}
  const CLASH_KEYS := ADDRESS_KEYS + TRANSPORT_KEYS + TREE_KEYS

  /** Letters, and hyphens inside. */
  predicate KeyWord(k: string) {
    && k != "" && IsLetter(k[0]) && k[|k| - 1] != '-'
    && forall i :: 0 <= i < |k| ==> IsLetter(k[i]) || k[i] == '-'
  }

  lemma AddressKey(k: string)
    requires k in ADDRESS_KEYS
    ensures KeyWord(k)
  {
  }

  lemma TransportKey(k: string)
    requires k in TRANSPORT_KEYS
    ensures KeyWord(k)
  {
  }

  lemma TreeKey(k: string)
    requires k in TREE_KEYS
    ensures KeyWord(k)
  {
  }

  lemma NotReserved(k: string)
    requires k in CLASH_KEYS
    ensures k !in TRUE_WORDS && k !in FALSE_WORDS && k !in NULL_WORDS
  {
  }

  lemma WordIsGoodKey(k: string)
    requires KeyWord(k) && k !in TRUE_WORDS && k !in FALSE_WORDS && k !in NULL_WORDS
    ensures GoodKey(k)
  {
    WordIsText(k, k);
    assert IsLetter(k[|k| - 1]);
  }

  lemma KnownKey(k: string)
    requires k in CLASH_KEYS
    ensures GoodKey(k)
  {
    if k in ADDRESS_KEYS {
      AddressKey(k);
    } else if k in TRANSPORT_KEYS {
      TransportKey(k);
    } else {
      TreeKey(k);
    }
    NotReserved(k);
    WordIsGoodKey(k);
  }

  /** An entry with a known key over a text, a number or a boolean. */
  predicate GoodField(e: Entry) {
    e.key.Text? && e.key.s in CLASH_KEYS && e.value.Leaf? && !e.value.scalar.Null? && !e.value.scalar.Number?
  }

  predicate GoodFields(es: seq<Entry>) {
    forall e :: e in es ==> GoodField(e)
  }

  lemma GoodFieldIsSound(e: Entry)
    requires GoodField(e)
    ensures SoundEntry(e)
  {
    KnownKey(e.key.s);
  }

  lemma GoodFieldsAreSound(es: seq<Entry>)
    requires GoodFields(es)
    ensures forall e :: e in es ==> SoundEntry(e)
  {
    forall e | e in es
      ensures SoundEntry(e)
    {
      GoodFieldIsSound(e);
    }
  }

  lemma ProxyFieldsAreGood(s: Server, uuid: string)
    ensures GoodFields(ProxyFields(s, uuid))
  {
    assert GoodFields(AddressFields(s, uuid));
    assert GoodFields(TransportFields(s));
  }

  lemma RealityTreeIsSound(s: Server)
    ensures Sound(RealityTree(s))
  {
    GoodFieldsAreSound(RealityTree(s).entries);
  }

  /** A mapping of good fields and one more entry. */
  lemma FieldsAndOne(es: seq<Entry>, key: string, v: Value)
    requires es != [] && GoodFields(es) && key in CLASH_KEYS && Sound(v)
    ensures SoundItem(Dict(es + [Entry(Text(key), v)]))
  {
    var last := Entry(Text(key), v);
    GoodFieldsAreSound(es);
    KnownKey(key);
    assert GoodField(es[0]) && forall e :: e in es + [last] ==> SoundEntry(e);
    SoundEntriesInItem(es + [last]);
  }

  lemma SoundEntriesInItem(es: seq<Entry>)
    requires es != [] && es[0].value.Leaf? && forall e :: e in es ==> SoundEntry(e)
    ensures SoundItem(Dict(es))
  {
    assert forall e :: e in es[1..] ==> e in es;
  }

  lemma ProxyTreeIsSound(s: Server, uuid: string)
    ensures SoundItem(ProxyTree(s, uuid))
  {
    ProxyFieldsAreGood(s, uuid);
    RealityTreeIsSound(s);
    FieldsAndOne(ProxyFields(s, uuid), "reality-opts", RealityTree(s));
  }

  lemma ListIsSound(xs: seq<Value>)
    requires xs != [] && forall x :: x in xs ==> SoundItem(x)
    ensures Sound(List(xs))
  {
  }

  lemma TextIsSound(s: string)
    ensures SoundItem(Leaf(Text(s)))
  {
    assert Faithful(Leaf(Text(s)));
  }

  lemma NamesAreSound(servers: seq<Server>)
    requires servers != []
    ensures Sound(List(Names(servers)))
  {
    forall x | x in Names(servers)
      ensures SoundItem(x)
    {
      TextIsSound(x.scalar.s);
    }
    ListIsSound(Names(servers));
  }

  lemma GroupTreeIsSound(title: string, servers: seq<Server>)
    requires servers != []
    ensures SoundItem(GroupTree(title, servers))
  {
    NamesAreSound(servers);
    assert GoodFields(GroupFields(title));
    FieldsAndOne(GroupFields(title), "proxies", List(Names(servers)));
  }

  lemma ProxyListIsSound(uuid: string, servers: seq<Server>)
    requires servers != []
    ensures Sound(List(ProxyTrees(servers, uuid)))
  {
    forall x | x in ProxyTrees(servers, uuid)
      ensures SoundItem(x)
    {
      var i :| 0 <= i < |servers| && x == ProxyTrees(servers, uuid)[i];
      ProxyTreeIsSound(servers[i], uuid);
    }
    ListIsSound(ProxyTrees(servers, uuid));
  }

  lemma ThreeEntries(a: Value, b: Value, c: Value)
    requires Sound(a) && Sound(b) && Sound(c)
    ensures Sound(Dict([Entry(Text("proxies"), a), Entry(Text("proxy-groups"), b), Entry(Text("rules"), c)]))
  {
    KnownKey("proxies");
    KnownKey("proxy-groups");
    KnownKey("rules");
    SoundDict(Entry(Text("proxies"), a), Entry(Text("proxy-groups"), b), Entry(Text("rules"), c));
  }

  predicate SoundEntry(e: Entry) {
    PlainKey(KeyText(e.key)) && KeyIsText(e) && Sound(e.value)
  }

  lemma SoundDict(first: Entry, second: Entry, third: Entry)
    requires SoundEntry(first) && SoundEntry(second) && SoundEntry(third)
    ensures Sound(Dict([first, second, third]))
  {
    assert forall e :: e in [first, second, third] ==> SoundEntry(e);
  }

  lemma ClashTreeIsSound(title: string, uuid: string, servers: seq<Server>)
    requires servers != []
    ensures Sound(ClashTree(title, uuid, servers))
  {
    ProxyListIsSound(uuid, servers);
    GroupTreeIsSound(title, servers);
    ListIsSound([GroupTree(title, servers)]);
    TextIsSound("MATCH," + title);
    ListIsSound([Leaf(Text("MATCH," + title))]);
    ThreeEntries(List(ProxyTrees(servers, uuid)), List([GroupTree(title, servers)]), RuleTree(title));
  }

  // ---------- when the printed texts are clean ----------

  /** What is printed of a server is free of control characters. */
  predicate CleanServer(s: Server) {
    && Clean(s.name) && Clean(Or(s.publicHost, s.ipAddress)) && Clean(s.sni) && Clean(s.fingerprint)
    && Clean(s.credentials.publicKey) && Clean(s.credentials.shortId)
  }

  predicate CleanDocument(title: string, uuid: string, servers: seq<Server>) {
    Clean(title) && Clean(uuid) && forall s :: s in servers ==> CleanServer(s)
  }

  lemma LeavesPrintClean(es: seq<Entry>)
    requires forall i :: 0 <= i < |es| ==> es[i].value.Leaf?
    ensures EntriesPrintClean(es) <==> forall i :: 0 <= i < |es| ==> CleanLeaf(es[i].value)
  {
    if EntriesPrintClean(es) {
      forall i | 0 <= i < |es|
        ensures CleanLeaf(es[i].value)
      {
        assert es[i] in es && PrintsClean(es[i].value);
      }
    }
  }

  lemma FixedTexts()
    ensures Clean("vless") && Clean("tcp") && Clean("xtls-rprx-vision") && Clean("chrome") && Clean("select")
  {
  }

  lemma AppendPrintsClean(a: seq<Entry>, b: seq<Entry>)
    ensures EntriesPrintClean(a + b) <==> EntriesPrintClean(a) && EntriesPrintClean(b)
  {
    assert forall e :: e in a + b <==> e in a || e in b;
  }

  lemma OnePrintsClean(e: Entry)
    ensures EntriesPrintClean([e]) <==> PrintsClean(e.value)
  {
    assert e in [e];
  }

  lemma FieldsAndOnePrintClean(es: seq<Entry>, last: Entry)
    requires es != [] && es[0].value.Leaf?
    ensures ItemPrintsClean(Dict(es + [last])) <==> EntriesPrintClean(es) && PrintsClean(last.value)
  {
    assert (es + [last])[1..] == es[1..] + [last];
    assert es == [es[0]] + es[1..];
    OnePrintsClean(es[0]);
    OnePrintsClean(last);
    AppendPrintsClean([es[0]], es[1..]);
    AppendPrintsClean(es[1..], [last]);
  }

  lemma AddressPrintsClean(s: Server, uuid: string)
    ensures EntriesPrintClean(AddressFields(s, uuid)) <==>
            Clean(s.name) && Clean(Or(s.publicHost, s.ipAddress)) && Clean(uuid)
  {
    FixedTexts();
    LeavesPrintClean(AddressFields(s, uuid));
  }

  lemma TransportPrintsClean(s: Server)
    ensures EntriesPrintClean(TransportFields(s)) <==> Clean(s.sni) && Clean(s.fingerprint)
  {
    FixedTexts();
    LeavesPrintClean(TransportFields(s));
  }

  lemma RealityPrintsClean(s: Server)
    ensures PrintsClean(RealityTree(s)) <==> Clean(s.credentials.publicKey) && Clean(s.credentials.shortId)
  {
    LeavesPrintClean(RealityTree(s).entries);
  }

  lemma FieldsPrintClean(s: Server, uuid: string)
    ensures EntriesPrintClean(ProxyFields(s, uuid)) <==>
            Clean(s.name) && Clean(Or(s.publicHost, s.ipAddress)) && Clean(uuid) && Clean(s.sni) && Clean(s.fingerprint)
  {
    AddressPrintsClean(s, uuid);
    TransportPrintsClean(s);
    AppendPrintsClean(AddressFields(s, uuid), TransportFields(s));
  }

  lemma ProxyPrintsClean(s: Server, uuid: string)
    ensures ItemPrintsClean(ProxyTree(s, uuid)) <==> CleanServer(s) && Clean(uuid)
  {
    FieldsPrintClean(s, uuid);
    RealityPrintsClean(s);
    FieldsAndOnePrintClean(ProxyFields(s, uuid), Entry(Text("reality-opts"), RealityTree(s)));
  }

  lemma NamesPrintClean(servers: seq<Server>)
    ensures PrintsClean(List(Names(servers))) <==> forall s :: s in servers ==> Clean(s.name)
  {
    if PrintsClean(List(Names(servers))) {
      forall s | s in servers
        ensures Clean(s.name)
      {
        var i :| 0 <= i < |servers| && servers[i] == s;
        assert Names(servers)[i] in Names(servers);
        assert ItemPrintsClean(Names(servers)[i]);
      }
    }
  }

  lemma GroupPrintsClean(title: string, servers: seq<Server>)
    ensures ItemPrintsClean(GroupTree(title, servers)) <==>
            Clean(title) && forall s :: s in servers ==> Clean(s.name)
  {
    var es := GroupFields(title);
    FixedTexts();
    LeavesPrintClean(es);
    NamesPrintClean(servers);
    FieldsAndOnePrintClean(es, Entry(Text("proxies"), List(Names(servers))));
  }

  lemma ProxiesPrintClean(servers: seq<Server>, uuid: string)
    requires servers != []
    ensures PrintsClean(List(ProxyTrees(servers, uuid))) <==>
            Clean(uuid) && forall s :: s in servers ==> CleanServer(s)
  {
    var trees := ProxyTrees(servers, uuid);
    forall i | 0 <= i < |servers|
      ensures ItemPrintsClean(trees[i]) <==> CleanServer(servers[i]) && Clean(uuid)
    {
      ProxyPrintsClean(servers[i], uuid);
    }
    assert trees[0] in trees && servers[0] in servers;
    if PrintsClean(List(trees)) {
      forall s | s in servers
        ensures CleanServer(s)
      {
        var i :| 0 <= i < |servers| && servers[i] == s;
        assert trees[i] in trees;
      }
    }
  }

  lemma RulePrintsClean(title: string)
    ensures PrintsClean(RuleTree(title)) <==> Clean(title)
  {
    var rule := "MATCH," + title;
    assert Leaf(Text(rule)) in [Leaf(Text(rule))];
    assert forall i :: 0 <= i < |title| ==> title[i] == rule[6 + i];
  }

  lemma ThreePrintClean(a: Value, b: Value, c: Value)
    ensures PrintsClean(Dict([Entry(Text("proxies"), a), Entry(Text("proxy-groups"), b), Entry(Text("rules"), c)])) <==>
            PrintsClean(a) && PrintsClean(b) && PrintsClean(c)
  {
    var es := [Entry(Text("proxies"), a), Entry(Text("proxy-groups"), b), Entry(Text("rules"), c)];
    assert es[0] in es && es[1] in es && es[2] in es;
  }

  lemma ClashPrintsClean(title: string, uuid: string, servers: seq<Server>)
    requires servers != []
    ensures PrintsClean(ClashTree(title, uuid, servers)) <==> CleanDocument(title, uuid, servers)
  {
    var groups := [GroupTree(title, servers)];
    ProxiesPrintClean(servers, uuid);
    GroupPrintsClean(title, servers);
    RulePrintsClean(title);
    assert groups[0] in groups;
    ThreePrintClean(List(ProxyTrees(servers, uuid)), List(groups), RuleTree(title));
  }

  // ---------- which documents read back ----------

  /** What the code prints, or refuses to. */
  function Emitted(notice: seq<string>, title: string, uuid: string, servers: seq<Server>, keys: Keys, repr: Repr)
    : Result<string, Refusal>
  {
    if servers == [] then Failure(NoServers)
    else Success(Document(notice, ClashTree(title, uuid, AllWithKeys(servers, keys)), repr))
  }

  /**
   A document that is printed is read back as its tree, with no server, key or id lost, exactly
   when no line of the notice, title, name, host or key holds a control character.
   */
  lemma DocumentReadsBackExactlyWhen(notice: seq<string>, title: string, uuid: string, servers: seq<Server>,
                                     keys: Keys, repr: Repr)
    requires IsNotice(notice) && EscapesControls(repr) && Emitted(notice, title, uuid, servers, keys, repr).Success?
    ensures Read(Emitted(notice, title, uuid, servers, keys, repr).value) ==
            Some(ClashTree(title, uuid, AllWithKeys(servers, keys))) <==>
            CleanNotice(notice) && CleanDocument(title, uuid, AllWithKeys(servers, keys))
  {
    var listed := AllWithKeys(servers, keys);
    ClashTreeIsSound(title, uuid, listed);
    ClashPrintsClean(title, uuid, listed);
    PrintedTreeReads(notice, ClashTree(title, uuid, listed), 0, repr);
    FaithfulExactly(ClashTree(title, uuid, listed), repr);
  }

  /** A title of two lines, which the settings accept, is one that does not survive. */
  lemma TitleOfTwoLinesIsLost(first: string, second: string, uuid: string, s: Server, keys: Keys, repr: Repr)
    requires EscapesControls(repr)
    ensures var title := first + "\n" + second;
            var r := Emitted([], title, uuid, [s], keys, repr);
            r.Success? && Read(r.value) != Some(ClashTree(title, uuid, AllWithKeys([s], keys)))
  {
    var title := first + "\n" + second;
    assert title[|first|] == '\n';
    DocumentReadsBackExactlyWhen([], title, uuid, [s], keys, repr);
  }

  lemma KeysAreFilled(s: Server, generated: ConfigApply.Generated)
    ensures var c := WithKeys(s, generated).credentials; c.privateKey != "" && c.publicKey != "" && c.shortId != ""
  {
  }

  /** Every listed server has a public key and a short id. */
  lemma EveryServerHasKeys(servers: seq<Server>, keys: Keys)
    ensures forall s :: s in AllWithKeys(servers, keys) ==>
              s.credentials.privateKey != "" && s.credentials.publicKey != "" && s.credentials.shortId != ""
  {
    forall s | s in AllWithKeys(servers, keys)
      ensures s.credentials.privateKey != "" && s.credentials.publicKey != "" && s.credentials.shortId != ""
    {
      var i :| 0 <= i < |servers| && s == AllWithKeys(servers, keys)[i];
      KeysAreFilled(servers[i], keys(i));
    }
  }

  // ---------- the code as the source runs it ----------

  lemma FieldsNeverRaise(es: seq<Entry>, last: Entry)
    requires es != [] && (forall e :: e in es ==> e.value.Leaf?) && !Raises(last.value)
    ensures !ItemRaises(Dict(es + [last]))
  {
    var all := es + [last];
    assert forall e :: e in all[1..] ==> e in es || e == last;
  }

  lemma ListNeverRaises(xs: seq<Value>)
    requires forall x :: x in xs ==> !ItemRaises(x)
    ensures !Raises(List(xs))
  {
  }

  lemma ProxyNeverRaises(s: Server, uuid: string)
    ensures !ItemRaises(ProxyTree(s, uuid))
  {
    ProxyFieldsAreLeaves(s, uuid);
    assert forall e :: e in RealityTree(s).entries ==> e.value.Leaf? && !Raises(e.value);
    FieldsNeverRaise(ProxyFields(s, uuid), Entry(Text("reality-opts"), RealityTree(s)));
  }

  lemma ProxyFieldsAreLeaves(s: Server, uuid: string)
    ensures forall e :: e in ProxyFields(s, uuid) ==> e.value.Leaf?
  {
    assert forall e :: e in AddressFields(s, uuid) ==> e.value.Leaf?;
    assert forall e :: e in TransportFields(s) ==> e.value.Leaf?;
  }

  lemma GroupNeverRaises(title: string, servers: seq<Server>)
    ensures !ItemRaises(GroupTree(title, servers))
  {
    ListNeverRaises(Names(servers));
    FieldsNeverRaise(GroupFields(title), Entry(Text("proxies"), List(Names(servers))));
  }

  lemma ClashNeverRaises(title: string, uuid: string, servers: seq<Server>)
    ensures !Raises(ClashTree(title, uuid, servers))
  {
    forall i | 0 <= i < |servers|
      ensures !ItemRaises(ProxyTrees(servers, uuid)[i])
    {
      ProxyNeverRaises(servers[i], uuid);
    }
    GroupNeverRaises(title, servers);
    ListNeverRaises(ProxyTrees(servers, uuid));
    ListNeverRaises([GroupTree(title, servers)]);
    ListNeverRaises([Leaf(Text("MATCH," + title))]);
    assert forall e :: e in ClashTree(title, uuid, servers).entries ==> !Raises(e.value);
  }

  /** `subscription_nodes`: an empty list is a 404, and every node is given its keys. */
  method SubscriptionNodes(available: seq<Server>, keys: Keys) returns (r: Result<seq<Server>, Refusal>)
    ensures r == if available == [] then Failure(NoServers) else Success(AllWithKeys(available, keys))
  {
    if available == [] {
      return Failure(NoServers);
    }
    var nodes := available;
    for i := 0 to |available|
      invariant |nodes| == |available|
      invariant forall j :: 0 <= j < i ==> nodes[j] == WithKeys(available[j], keys(j))
      invariant forall j :: i <= j < |available| ==> nodes[j] == available[j]
    {
      nodes := nodes[i := WithKeys(nodes[i], keys(i))];
    }
    assert nodes == AllWithKeys(available, keys);
    return Success(nodes);
  }

  /** `clash_yaml`: the proxies appended node by node, then printed under the notice. */
  method ClashYaml(notice: seq<string>, title: string, uuid: string, available: seq<Server>, keys: Keys, repr: Repr)
    returns (r: Result<string, Refusal>)
    ensures r == Emitted(notice, title, uuid, available, keys, repr)
  {
    var nodes :- SubscriptionNodes(available, keys);
    var proxies: seq<Value> := [];
    for i := 0 to |nodes|
      invariant |proxies| == i && forall j :: 0 <= j < i ==> proxies[j] == ProxyTrees(nodes, uuid)[j]
    {
      proxies := proxies + [ProxyTree(nodes[i], uuid)];
    }
    assert proxies == ProxyTrees(nodes, uuid);
    var text := PrintUnder(notice, title, uuid, nodes, proxies, repr);
    return Success(text);
  }

  method PrintUnder(notice: seq<string>, title: string, uuid: string, nodes: seq<Server>, proxies: seq<Value>,
                    repr: Repr)
    returns (text: string)
    requires proxies == ProxyTrees(nodes, uuid)
    ensures text == Document(notice, ClashTree(title, uuid, nodes), repr)
  {
    var tree := Dict([
      Entry(Text("proxies"), List(proxies)),
      Entry(Text("proxy-groups"), List([GroupTree(title, nodes)])),
      Entry(Text("rules"), RuleTree(title))]);
    ClashNeverRaises(title, uuid, nodes);
    var body := RenderYaml(tree, 0, repr);
    var printed := Texts(Lines(tree, 0, BLANK, repr));
    TextsNonEmpty(Lines(tree, 0, BLANK, repr));
    if notice != [] {
      JoinAppend(notice, printed);
    }
    assert [] + printed == printed;
    text := if notice != [] then Join(notice) + "\n" + body.value else body.value;
  }
}
