/**
 The rows the control plane keeps (`backend/app/models/__init__.py`), reduced to the
 columns that decide what is deployed, and the Xray configuration rendered from them.
 */
module Entities {
  import opened Wrappers
  import opened DomainLists

  type NodeId = nat
  type UserId = nat
  type DeviceId = nat
  type ProfileId = nat

  datatype NodeStatus = Draft | Checking | Online | Offline | Installing | Failed | Disabled | Maintenance | Deleted
  datatype UserStatus = Active | Disabled | Expired | TrafficLimited | Deleted
  datatype DeviceStatus = Active | Revoked
  datatype RoutingMode = FullTunnel | RuDirect | CustomDirectDomains
  datatype ManagedMode = AkfaOwned | ImportedSafe
  datatype ApplyStatus = ApplyPending | ApplySuccess | ApplyFailed

  datatype Device = Device(id: DeviceId, uuid: string, status: DeviceStatus, hwidHash: Option<string>)

  datatype User = User(
    id: UserId,
    username: string,
    status: UserStatus,
    deviceLimit: int,
    departmentId: Option<nat>,
    profileId: Option<ProfileId>,
    nodeLinks: seq<NodeId>,
    primaryNodeId: Option<NodeId>,
    devices: seq<Device>)

  datatype Profile = Profile(
    routingMode: RoutingMode,
    directDomains: seq<string>,
    blockedDomains: seq<string>,
    allowedNodes: seq<NodeId>)

  datatype Credentials = Credentials(privateKey: string, publicKey: string, shortId: string)

  datatype Node = Node(
    id: NodeId,
    name: string,
    location: Option<string>,
    port: int,
    sni: string,
    credentials: Credentials,
    managedMode: ManagedMode,
    inboundTag: Option<string>,
    importedClients: Option<seq<ClientEntry>>,
    status: NodeStatus,
    xrayInstalled: bool,
    logShowsXray: bool,
    lastApply: ApplyStatus)

  /** An entry of an inbound's client list; a baseline read from a server may hold anything. */
  datatype ClientEntry =
    | ClientEntry(uuid: string, email: Option<string>, flow: string)
    | NotAnObject

  datatype BlockRule = BlockRule(emails: seq<string>, domains: seq<Regexp>)

  /** The parts of a server configuration that differ between two renderings. */
  datatype Config = Config(
    inboundTag: string,
    port: int,
    sni: string,
    privateKey: string,
    shortId: string,
    clients: seq<ClientEntry>,
    rules: seq<BlockRule>)

  datatype RenderError = BadDomain(reason: DomainError) | NoPrivateKey | WrongFlow

  /** The database.  `users` lists the rows in table order. */
  datatype Db = Db(users: seq<User>, profiles: map<ProfileId, Profile>, nodes: map<NodeId, Node>)

  ghost predicate ValidDb(db: Db) {
    && (forall i, j :: 0 <= i < j < |db.users| ==> db.users[i].id != db.users[j].id)
    && (forall u, i, j :: u in db.users && 0 <= i < j < |u.devices| ==> u.devices[i].id != u.devices[j].id)
    && (forall n :: n in db.nodes ==> db.nodes[n].id == n)
  }

  function SeqSet<T(!new)>(s: seq<T>): (r: set<T>)
    ensures forall x :: x in r <==> x in s
  {
    set x | x in s
  }
}
