/**
 Safe import of an existing Xray (`merge_imported_safe_clients`): foreign clients of
 the baseline survive in order, stale own clients do not, and importing what was
 rendered and rendering again changes nothing.
 */
module ImportedMerge {
  import opened Wrappers
  import opened Entities
  import opened XrayConfig
  import opened Rendering

  /** `a` is `b` with some elements left out. */
  ghost predicate Subsequence<T>(a: seq<T>, b: seq<T>) {
    || a == []
    || (b != [] && ((a[0] == b[0] && Subsequence(a[1..], b[1..])) || Subsequence(a, b[1..])))
  }

  lemma {:induction false} ForeignInOrder(imported: seq<ClientEntry>, akfa: seq<ClientEntry>)
    ensures Subsequence(ForeignClients(imported, akfa), imported)
  {
    if imported != [] {
      ForeignInOrder(imported[1..], akfa);
      var rest := ForeignClients(imported[1..], akfa);
      assert ([imported[0]] + rest)[1..] == rest;
    }
  }

  function CountOf(s: seq<ClientEntry>, c: ClientEntry): nat {
    if s == [] then 0 else (if s[0] == c then 1 else 0) + CountOf(s[1..], c)
  }

  /** Nothing foreign is lost or duplicated. */
  lemma {:induction false} ForeignKeepsCounts(imported: seq<ClientEntry>, akfa: seq<ClientEntry>, c: ClientEntry)
    ensures CountOf(ForeignClients(imported, akfa), c) == if IsForeign(c, akfa) then CountOf(imported, c) else 0
  {
    if imported != [] {
      ForeignKeepsCounts(imported[1..], akfa, c);
      var rest := ForeignClients(imported[1..], akfa);
      assert ([imported[0]] + rest)[1..] == rest;
    }
  }

  /** Baseline and own clients in the rendered list: the foreign ones first, in order, then exactly the own ones. */
  lemma MergeKeepsForeignDropsStale(node: Node, akfa: seq<ClientEntry>)
    requires node.managedMode == ImportedSafe && node.importedClients.Some?
    requires forall c :: c in akfa ==> c.ClientEntry? && IsAkfaEmail(c.email)
    ensures var imported, merged := node.importedClients.value, MergeImportedSafeClients(node, akfa);
            exists foreign: seq<ClientEntry> ::
              && merged == foreign + akfa
              && Subsequence(foreign, imported)
              && (forall c :: c in foreign ==> c.ClientEntry? && !(c.email.Some? && "akfa_user_" <= c.email.value))
              && (forall c ::
                  CountOf(foreign, c) ==
                  if c.ClientEntry? && !(c.email.Some? && "akfa_user_" <= c.email.value) then CountOf(imported, c)
                  else 0)
  {
    var imported := node.importedClients.value;
    var foreign := ForeignClients(imported, akfa);
    ForeignInOrder(imported, akfa);
    forall c
      ensures CountOf(foreign, c) == if c.ClientEntry? && !IsAkfaEmail(c.email) then CountOf(imported, c) else 0
    {
      ForeignKeepsCounts(imported, akfa, c);
    }
    assert MergeImportedSafeClients(node, akfa) == foreign + akfa;
  }

  /** A server that AKFA owns is rendered without any other client, whatever baseline its row still has. */
  lemma OwnedServerHasNoOthers(db: Db, n: NodeId)
    requires n in db.nodes && Render(db, n).Success? && db.nodes[n].managedMode == AkfaOwned
    ensures Render(db, n).value.clients == AkfaClients(db.users, db.profiles, db.nodes[n])
    ensures forall c :: c in Render(db, n).value.clients ==>
              c.ClientEntry? && c.email.Some? && "akfa_user_" <= c.email.value && c.flow == "xtls-rprx-vision"
  {
    AkfaClientsAreMarked(db.users, db.profiles, db.nodes[n]);
  }

  lemma {:induction false} ForeignAppend(a: seq<ClientEntry>, b: seq<ClientEntry>, akfa: seq<ClientEntry>)
    ensures ForeignClients(a + b, akfa) == ForeignClients(a, akfa) + ForeignClients(b, akfa)
  {
    if a == [] {
      assert a + b == b;
    } else {
      assert (a + b)[1..] == a[1..] + b;
      ForeignAppend(a[1..], b, akfa);
    }
  }

  lemma {:induction false} ForeignOfForeign(s: seq<ClientEntry>, akfa: seq<ClientEntry>)
    requires forall c :: c in s ==> IsForeign(c, akfa)
    ensures ForeignClients(s, akfa) == s
  {
    if s != [] {
      ForeignOfForeign(s[1..], akfa);
    }
  }

  lemma {:induction false} ForeignOfOwn(s: seq<ClientEntry>, akfa: seq<ClientEntry>)
    requires forall c :: c in s ==> c.ClientEntry? && IsAkfaEmail(c.email)
    ensures ForeignClients(s, akfa) == []
  {
    if s != [] {
      ForeignOfOwn(s[1..], akfa);
    }
  }

  /**
   Importing the rendered inbound as the new baseline and rendering again is a fixpoint,
   also for a node that had no baseline.
   */
  lemma RenderImportedIsFixpoint(db: Db, n: NodeId)
    requires n in db.nodes && Render(db, n).Success? && db.nodes[n].managedMode == ImportedSafe
    ensures var reimported := db.nodes[n].(importedClients := Some(Render(db, n).value.clients));
            RenderServerConfig(db.users, db.profiles, reimported) == Render(db, n)
  {
    var node := db.nodes[n];
    var clients := Render(db, n).value.clients;
    var reimported := node.(importedClients := Some(clients));
    var akfa := AkfaClients(db.users, db.profiles, node);
    SameClients(db.users, db.profiles, db.users, db.profiles, node, reimported);
    AkfaClientsAreMarked(db.users, db.profiles, node);
    var foreign := if node.importedClients.Some? then ForeignClients(node.importedClients.value, akfa) else [];
    assert clients == foreign + akfa;
    ForeignAppend(foreign, akfa, akfa);
    ForeignOfForeign(foreign, akfa);
    ForeignOfOwn(akfa, akfa);
    assert foreign + [] == foreign;
  }
}
