// A network of nodes that exchange arbitrary bytes: its steps, its runs, and what every run
// keeps about keys and origins.
module Network {
  import opened Types
  import opened Keys
  import opened Hlc
  import opened Crypto
  import opened RecordCodec
  import opened IdentityCodec
  import opened IdentityStore
  import opened Reception
  import Tables

  // ---------------------------------------------------------------- state

  // `keys` are the public keys of the nodes and of the root; `setup` the public keys installed on
  // each node; `trusted` every key the root or a setup ever stands for.
  datatype Config = Config(kidOf: KidReader, keys: map<NodeId, seq<byte>>,
                           setup: map<NodeId, KeyRing>, trusted: set<seq<byte>>)

  predicate Distinct(keys: map<NodeId, seq<byte>>) {
    forall a, b :: a in keys && b in keys && keys[a] == keys[b] ==> a == b
  }

  ghost predicate WellFormed(cfg: Config) {
    && ROOT_KID in cfg.keys
    && Distinct(cfg.keys)
    && (forall a :: a in cfg.keys ==> cfg.keys[a] in cfg.trusted)
    && cfg.setup.Keys == cfg.keys.Keys - {ROOT_KID}
    && (forall n :: n in cfg.setup ==>
                      && n in cfg.setup[n]
                      && (forall kid :: kid in cfg.setup[n] ==> cfg.setup[n][kid] in cfg.trusted)
                      && (forall kid :: kid in cfg.setup[n] && kid in cfg.keys ==> cfg.setup[n][kid] == cfg.keys[kid]))
  }

  lemma NodeHasKey(cfg: Config, n: NodeId)
    requires WellFormed(cfg) && n in cfg.setup
    ensures ROOT_KID in cfg.keys && n in cfg.keys && n != ROOT_KID
  {
  }

  // Beside the node's own state: the records it put itself or heard and could verify, and the
  // bodies of all records its further records causally depend on.
  datatype Node = Node(tab: Tables.Tab, raw: u32, ids: Ids, heard: set<Record>, past: set<Body>)

  // Beside the nodes: every signature made so far, and the causal past of each signed record.
  datatype Net = Net(nodes: map<NodeId, Node>, issued: set<Signature>, causes: map<Body, set<Body>>)

  ghost predicate Init(cfg: Config, s: Net) {
    && s.nodes.Keys == cfg.setup.Keys
    && s.issued == {} && s.causes == map[]
    && forall n :: n in s.nodes ==>
                     && s.nodes[n].tab.self == n
                     && s.nodes[n].tab.sequence == 0
                     && s.nodes[n].tab.clock.offset == 0 && s.nodes[n].tab.clock.local.logical == 0
                     && s.nodes[n].tab.clock.local.physical <= s.nodes[n].raw
                     && s.nodes[n].tab.table == map[]
                     && s.nodes[n].ids == Ids(cfg.setup[n], map[], map[])
                     && s.nodes[n].heard == {} && s.nodes[n].past == {}
  }

  // ---------------------------------------------------------------- steps

  datatype Action =
    | Tick
    | Create(node: NodeId, data: RecordData, signature: Option<seq<byte>>, clockReads: bool)
    | Deliver(node: NodeId, message: seq<byte>, clockReads: bool)
    | Downlink(node: NodeId, packet: seq<byte>, clockReads: bool)
    | Identify(node: NodeId, message: seq<byte>, storage: Storage)
    | Certify(payload: seq<byte>, seal: seq<byte>)
    | SignOutside(made: Signature)

  function Reading(node: Node, clockReads: bool): Option<u32> {
    if clockReads then Some(node.raw) else None
  }

  // The signature a node attaches, if signing succeeds.
  function Attached(cfg: Config, n: NodeId, signature: Option<seq<byte>>): Option<seq<byte>> {
    if signature.Some? && signature.value != [] && cfg.kidOf(signature.value) == Some(n) then signature else None
  }

  // A node creates and signs a record. Reports, observations and encounters go into its own
  // table; commands and jobs are handed out without being stored by their writer.
  function CreateAt(cfg: Config, s: Net, n: NodeId, data: RecordData, signature: Option<seq<byte>>,
                    clockReads: bool): Net
    requires n in s.nodes && n in cfg.keys
  {
    var node := s.nodes[n];
    var attached := Attached(cfg, n, signature);
    var put := Tables.Put(node.tab, Reading(node, clockReads), data, attached).tab;
    var tab := if WriterKeyed(TypeOf(data)) then put else put.(table := node.tab.table);
    if attached.None? || !clockReads then
      s.(nodes := s.nodes[n := node.(tab := tab)])
    else
      var body := Tables.NewBody(node.tab, node.raw, data);
      var own := if WriterKeyed(TypeOf(data)) then {Record(body, attached)} else {};
      Net(s.nodes[n := node.(tab := tab, heard := node.heard + own, past := node.past + {body})],
          s.issued + {Signature(cfg.keys[n], RecordPayload(body), attached.value)},
          s.causes[body := node.past])
  }

  // What a message makes a node hear: a record of another writer that verifies.
  function Heard(cfg: Config, issued: set<Signature>, node: Node, message: seq<byte>,
                 clockReads: bool): Option<Record> {
    match DecodeRecord(message, Some(MAX_SIGNATURE_SIZE))
    case None => None
    case Some(decoded) =>
      if decoded.record.body.writer != node.tab.self && clockReads
         && RecordVerifies(cfg.kidOf, issued, node.ids.keys, decoded.record)
      then Some(decoded.record) else None
  }

  function Causes(causes: map<Body, set<Body>>, b: Body): set<Body> {
    {b} + if b in causes then causes[b] else {}
  }

  function DeliverTo(cfg: Config, issued: set<Signature>, causes: map<Body, set<Body>>, node: Node,
                     message: seq<byte>, clockReads: bool): Node
  {
    var tab := Hear(node.tab, Reading(node, clockReads), cfg.kidOf, issued, node.ids.keys, message).tab;
    match Heard(cfg, issued, node, message, clockReads)
    case None => node.(tab := tab)
    case Some(r) =>
      node.(tab := tab, heard := node.heard + {r},
      past := if Tables.Supersedes(node.tab.table, r) then node.past + Causes(causes, r.body) else node.past)
  }

  function DownlinkTo(node: Node, packet: seq<byte>, clockReads: bool): Node {
    match DecodeRecord(packet, None)
    case None => node
    case Some(decoded) =>
      node.(tab := Tables.Merge(node.tab, Reading(node, clockReads), false, decoded.record).tab)
  }

  // The root signs identities only, and for the id of a node or of its own only the right key.
  predicate Certifiable(cfg: Config, payload: seq<byte>) {
    match DecodeIdentity(payload)
    case None => false
    case Some(id) => id.key in cfg.trusted && (id.kid in cfg.keys ==> id.key == cfg.keys[id.kid])
  }

  // Anyone may sign anything with a key of their own. Only who holds a key that the root or a
  // setup stands for is taken to stamp records no later than the furthest clock of the network.
  ghost predicate MaySign(cfg: Config, s: Net, made: Signature) {
    && made.key !in cfg.keys.Values
    && (made.key in cfg.trusted && made.payload.RecordPayload? ==>
          exists n :: n in s.nodes && made.payload.body.timestamp.physical <= s.nodes[n].raw)
  }

  predicate CanTick(s: Net) {
    forall n :: n in s.nodes ==> s.nodes[n].raw + 1 < U32
  }

  function TickAll(nodes: map<NodeId, Node>): map<NodeId, Node>
    requires forall n :: n in nodes ==> nodes[n].raw + 1 < U32
  {
    map n | n in nodes :: nodes[n].(raw := nodes[n].raw + 1)
  }

  function DeliverAt(cfg: Config, s: Net, n: NodeId, message: seq<byte>, clockReads: bool): Net
    requires n in s.nodes
  {
    s.(nodes := s.nodes[n := DeliverTo(cfg, s.issued, s.causes, s.nodes[n], message, clockReads)])
  }

  function DownlinkAt(s: Net, n: NodeId, packet: seq<byte>, clockReads: bool): Net
    requires n in s.nodes
  {
    s.(nodes := s.nodes[n := DownlinkTo(s.nodes[n], packet, clockReads)])
  }

  // A node takes in an identity response.
  function IdentifyAt(cfg: Config, s: Net, n: NodeId, message: seq<byte>, storage: Storage): Net
    requires n in s.nodes
  {
    var node := s.nodes[n];
    s.(nodes := s.nodes[n := node.(ids := LearnOn(cfg.kidOf, s.issued, node.ids, message, storage).ids)])
  }

  function CertifyAt(cfg: Config, s: Net, payload: seq<byte>, seal: seq<byte>): Net
    requires ROOT_KID in cfg.keys
  {
    s.(issued := s.issued + {Signature(cfg.keys[ROOT_KID], IdentityPayload(payload), seal)})
  }

  ghost function Apply(cfg: Config, s: Net, a: Action): Net {
    match a
    case Tick => if CanTick(s) then s.(nodes := TickAll(s.nodes)) else s
    case Create(n, data, signature, clockReads) =>
      if n in s.nodes && n in cfg.keys then CreateAt(cfg, s, n, data, signature, clockReads) else s
    case Deliver(n, message, clockReads) =>
      if n in s.nodes
      then DeliverAt(cfg, s, n, message, clockReads)
      else s
    case Downlink(n, packet, clockReads) =>
      if n in s.nodes then DownlinkAt(s, n, packet, clockReads) else s
    case Identify(n, message, storage) =>
      if n in s.nodes
      then IdentifyAt(cfg, s, n, message, storage)
      else s
    case Certify(payload, seal) =>
      if ROOT_KID in cfg.keys && Certifiable(cfg, payload)
      then CertifyAt(cfg, s, payload, seal)
      else s
    case SignOutside(made) =>
      if MaySign(cfg, s, made) then s.(issued := s.issued + {made}) else s
  }

  lemma ApplyKeepsNodes(cfg: Config, s: Net, a: Action)
    ensures Apply(cfg, s, a).nodes.Keys == s.nodes.Keys
    ensures s.issued <= Apply(cfg, s, a).issued
  {
    hide DeliverTo, DownlinkTo, LearnOn, MaySign, Certifiable, Attached, Tables.Put, Tables.NewBody;
  }

  // ---------------------------------------------------------------- runs

  // A run: the states from the start on, and the steps between them.
  datatype Run = Run(states: seq<Net>, actions: seq<Action>)

  ghost predicate IsRun(cfg: Config, run: Run) {
    && |run.states| == |run.actions| + 1
    && Init(cfg, run.states[0])
    && forall i {:trigger run.actions[i]} ::
         0 <= i < |run.actions| ==> run.states[i + 1] == Apply(cfg, run.states[i], run.actions[i])
  }

  lemma RunStep(cfg: Config, run: Run, i: nat)
    requires IsRun(cfg, run) && i < |run.actions|
    ensures run.states[i + 1] == Apply(cfg, run.states[i], run.actions[i])
  {
    hide Apply, Init;
    assert run.actions[i] == run.actions[i];
  }

  // ---------------------------------------------------------------- trust

  ghost predicate Certified(cfg: Config, issued: set<Signature>, kid: seq<byte>, key: seq<byte>)
    requires ROOT_KID in cfg.keys
  {
    exists c :: c in issued && c.key == cfg.keys[ROOT_KID] && c.payload.IdentityPayload?
                && |kid| == 4 && |key| == 32 && DecodeIdentity(c.payload.bytes) == Some(Identity(kid, key))
  }

  // A key a node has reason to use for a kid.
  ghost predicate Vouched(cfg: Config, issued: set<Signature>, n: NodeId, kid: seq<byte>, key: seq<byte>)
    requires ROOT_KID in cfg.keys && n in cfg.setup
  {
    (kid in cfg.setup[n] && cfg.setup[n][kid] == key) || Certified(cfg, issued, kid, key)
  }

  // A record was signed under a key vouched for exactly its writer, and an encounter only by
  // this very node.
  ghost predicate Genuine(cfg: Config, issued: set<Signature>, n: NodeId, r: Record)
    requires ROOT_KID in cfg.keys && n in cfg.setup
  {
    && r.signature.Some? && r.signature.value != [] && cfg.kidOf(r.signature.value) == Some(r.body.writer)
    && (exists key :: Vouched(cfg, issued, n, r.body.writer, key)
                      && Signature(key, RecordPayload(r.body), r.signature.value) in issued)
    && (IsEncounter(r.Type()) ==> r.body.writer == n)
  }

  ghost predicate NodeSafe(cfg: Config, issued: set<Signature>, n: NodeId, node: Node)
    requires ROOT_KID in cfg.keys && n in cfg.setup
  {
    && node.tab.self == n
    && (forall kid :: kid in node.ids.keys ==> Vouched(cfg, issued, n, kid, node.ids.keys[kid]))
    && (forall r :: r in node.heard ==> Genuine(cfg, issued, n, r))
    && (forall k: Key :: k in node.tab.table ==> node.tab.table[k] in node.heard && KeyOf(node.tab.table[k].body) == k)
  }

  // The root signed only what it may, and with the key of a node only that node's records.
  ghost predicate SignaturesSafe(cfg: Config, issued: set<Signature>)
    requires ROOT_KID in cfg.keys
  {
    forall m :: m in issued ==>
                  && (m.key == cfg.keys[ROOT_KID] ==> m.payload.IdentityPayload? && Certifiable(cfg, m.payload.bytes))
                  && (forall w :: w in cfg.setup && w in cfg.keys && m.key == cfg.keys[w] ==>
                                    m.payload.RecordPayload? && m.payload.body.writer == w)
  }

  ghost predicate Safe(cfg: Config, s: Net)
    requires WellFormed(cfg)
  {
    && s.nodes.Keys == cfg.setup.Keys
    && SignaturesSafe(cfg, s.issued)
    && forall n :: n in s.nodes ==> NodeSafe(cfg, s.issued, n, s.nodes[n])
  }

  lemma NodesAreSetUp(cfg: Config, s: Net)
    requires WellFormed(cfg) && Safe(cfg, s)
    ensures s.nodes.Keys == cfg.setup.Keys && ROOT_KID in cfg.keys
  {
  }

  lemma VouchedGrows(cfg: Config, issued: set<Signature>, issued': set<Signature>, n: NodeId, kid: seq<byte>,
                     key: seq<byte>)
    requires ROOT_KID in cfg.keys && n in cfg.setup && issued <= issued'
    requires Vouched(cfg, issued, n, kid, key)
    ensures Vouched(cfg, issued', n, kid, key)
  {
    if Certified(cfg, issued, kid, key) {
      var c :| c in issued && c.key == cfg.keys[ROOT_KID] && c.payload.IdentityPayload?
               && |kid| == 4 && |key| == 32 && DecodeIdentity(c.payload.bytes) == Some(Identity(kid, key));
      assert c in issued';
    }
  }

  lemma NodeSafeGrows(cfg: Config, issued: set<Signature>, issued': set<Signature>, n: NodeId, node: Node)
    requires ROOT_KID in cfg.keys && n in cfg.setup && issued <= issued'
    requires NodeSafe(cfg, issued, n, node)
    ensures NodeSafe(cfg, issued', n, node)
  {
    hide Vouched;
    forall kid, key | Vouched(cfg, issued, n, kid, key) ensures Vouched(cfg, issued', n, kid, key) {
      VouchedGrows(cfg, issued, issued', n, kid, key);
    }
  }

  // What is vouched for is trusted, and for a node or the root it is the right key.
  lemma VouchedIsRight(cfg: Config, issued: set<Signature>, n: NodeId, kid: seq<byte>, key: seq<byte>)
    requires WellFormed(cfg) && n in cfg.setup && SignaturesSafe(cfg, issued)
    requires Vouched(cfg, issued, n, kid, key)
    ensures key in cfg.trusted
    ensures kid in cfg.keys ==> key == cfg.keys[kid]
  {
    hide DecodeIdentity;
  }

  // ---------------------------------------------------------------- every step keeps trust

  // A record whose key the node holds and that verifies is genuine.
  lemma HeardIsGenuine(cfg: Config, issued: set<Signature>, n: NodeId, node: Node, message: seq<byte>, clockReads: bool)
    requires WellFormed(cfg) && n in cfg.setup && NodeSafe(cfg, issued, n, node)
    ensures
      var heard := Heard(cfg, issued, node, message, clockReads);
      heard.Some? ==> Genuine(cfg, issued, n, heard.value) && heard.value.body.writer != n
  {
    hide DecodeRecord, Vouched;
    HeardRecordsAreBounded(message);
    var heard := Heard(cfg, issued, node, message, clockReads);
    if heard.Some? {
      var key := node.ids.keys[heard.value.body.writer];
      assert Vouched(cfg, issued, n, heard.value.body.writer, key);
    }
  }

  // What a delivery does to the table: nothing, or it files the record that was heard.
  lemma DeliveryIsAMerge(cfg: Config, issued: set<Signature>, causes: map<Body, set<Body>>, node: Node,
                         message: seq<byte>, clockReads: bool)
    ensures
      var node' := DeliverTo(cfg, issued, causes, node, message, clockReads);
      var heard := Heard(cfg, issued, node, message, clockReads);
      if heard.Some? && Tables.Supersedes(node.tab.table, heard.value) then
        node'.tab == node.tab.(clock := Receive(node.tab.clock, node.raw, heard.value.body.timestamp),
        table := node.tab.table[KeyOf(heard.value.body) := heard.value])
      else node'.tab == node.tab
  {
    hide DecodeRecord, RecordVerifies, Receive, KeyOf;
    HeardRecordsAreBounded(message);
  }

  lemma DeliverKeepsSafe(cfg: Config, issued: set<Signature>, causes: map<Body, set<Body>>, n: NodeId, node: Node,
                         message: seq<byte>, clockReads: bool)
    requires WellFormed(cfg) && n in cfg.setup && NodeSafe(cfg, issued, n, node)
    ensures NodeSafe(cfg, issued, n, DeliverTo(cfg, issued, causes, node, message, clockReads))
  {
    hide Heard, Hear, Genuine, Vouched, KeyOf, Receive, Tables.Supersedes;
    HeardIsGenuine(cfg, issued, n, node, message, clockReads);
    DeliveryIsAMerge(cfg, issued, causes, node, message, clockReads);
  }

  // A downlink packet changes nothing, in any state.
  lemma DownlinkChangesNothing(node: Node, packet: seq<byte>, clockReads: bool)
    ensures DownlinkTo(node, packet, clockReads) == node
  {
    DownlinkNeverVerifies(packet);
    hide DecodeRecord;
  }

  lemma DownlinkStepChangesNothing(s: Net, n: NodeId, packet: seq<byte>, clockReads: bool)
    requires n in s.nodes
    ensures DownlinkAt(s, n, packet, clockReads) == s
  {
    DownlinkChangesNothing(s.nodes[n], packet, clockReads);
    hide DownlinkTo;
    assert s.nodes[n := s.nodes[n]] == s.nodes;
  }

  lemma LearntKeyIsCertified(cfg: Config, issued: set<Signature>, n: NodeId, ids: Ids, message: seq<byte>,
                             storage: Storage)
    requires WellFormed(cfg) && n in cfg.setup && SignaturesSafe(cfg, issued)
    requires forall kid :: kid in ids.keys ==> Vouched(cfg, issued, n, kid, ids.keys[kid])
    ensures
      var keys := LearnOn(cfg.kidOf, issued, ids, message, storage).ids.keys;
      forall kid :: kid in keys ==> Vouched(cfg, issued, n, kid, keys[kid])
  {
    hide DecodeIdMessage, DecodeIdentity, FileName, Writing, Vouched;
    var keys := LearnOn(cfg.kidOf, issued, ids, message, storage).ids.keys;
    if keys != ids.keys {
      var signed := DecodeIdMessage(message).value.1;
      var id := DecodeIdentity(signed.payload).value;
      VouchedIsRight(cfg, issued, n, ROOT_KID, ids.keys[ROOT_KID]);
      CertificateVouches(cfg, issued, n, id, signed);
    }
  }

  lemma CertificateVouches(cfg: Config, issued: set<Signature>, n: NodeId, id: IdentityCodec.Identity,
                           signed: SignedIdentity)
    requires WellFormed(cfg) && n in cfg.setup
    requires Signature(cfg.keys[ROOT_KID], IdentityPayload(signed.payload), signed.signature) in issued
    requires DecodeIdentity(signed.payload) == Some(id)
    ensures Vouched(cfg, issued, n, id.kid, id.key)
  {
    var c := Signature(cfg.keys[ROOT_KID], IdentityPayload(signed.payload), signed.signature);
    assert c in issued && DecodeIdentity(c.payload.bytes) == Some(Identity(id.kid, id.key));
  }

  lemma OneMoreSignature(cfg: Config, issued: set<Signature>, made: Signature)
    requires WellFormed(cfg) && SignaturesSafe(cfg, issued) && SignaturesSafe(cfg, {made})
    ensures SignaturesSafe(cfg, issued + {made})
  {
    hide WellFormed, Certifiable;
  }

  lemma NewSignatureIsSafe(cfg: Config, s: Net, made: Signature)
    requires WellFormed(cfg)
    requires
      || MaySign(cfg, s, made)
      || (made.key == cfg.keys[ROOT_KID] && made.payload.IdentityPayload? && Certifiable(cfg, made.payload.bytes))
      || (made.payload.RecordPayload? && made.payload.body.writer in cfg.setup
          && made.key == cfg.keys[made.payload.body.writer])
    ensures SignaturesSafe(cfg, {made})
  {
    hide Certifiable;
    assert forall w :: w in cfg.setup ==> w in cfg.keys && w != ROOT_KID;
  }

  // Replacing one node and adding signatures.
  lemma ReplaceKeepsSafe(cfg: Config, s: Net, s': Net, n: NodeId)
    requires WellFormed(cfg) && Safe(cfg, s) && n in s.nodes && n in s'.nodes
    requires s'.nodes == s.nodes[n := s'.nodes[n]] && s.issued <= s'.issued
    requires NodeSafe(cfg, s'.issued, n, s'.nodes[n]) && SignaturesSafe(cfg, s'.issued)
    ensures Safe(cfg, s')
  {
    hide NodeSafe, SignaturesSafe;
    forall m | m in s'.nodes ensures NodeSafe(cfg, s'.issued, m, s'.nodes[m]) {
      if m != n {
        NodeSafeGrows(cfg, s.issued, s'.issued, m, s.nodes[m]);
      }
    }
  }

  lemma IssueKeepsSafe(cfg: Config, s: Net, made: Signature)
    requires WellFormed(cfg) && Safe(cfg, s) && SignaturesSafe(cfg, {made})
    ensures Safe(cfg, s.(issued := s.issued + {made}))
  {
    hide NodeSafe, SignaturesSafe;
    OneMoreSignature(cfg, s.issued, made);
    forall m | m in s.nodes ensures NodeSafe(cfg, s.issued + {made}, m, s.nodes[m]) {
      NodeSafeGrows(cfg, s.issued, s.issued + {made}, m, s.nodes[m]);
    }
  }

  // What a creation does, by whether it fails: the counters advance, and on success a new signed
  // record is in the table if it is one the node stores.
  lemma CreationOutcome(cfg: Config, s: Net, n: NodeId, data: RecordData, signature: Option<seq<byte>>,
                        clockReads: bool)
    requires n in s.nodes && n in cfg.keys
    ensures
      var node, s' := s.nodes[n], CreateAt(cfg, s, n, data, signature, clockReads);
      var node' := s'.nodes[n];
      var created := Attached(cfg, n, signature).Some? && clockReads;
      var body := Tables.NewBody(node.tab, node.raw, data);
      var r := Record(body, signature);
      && s'.nodes == s.nodes[n := node']
      && node'.ids == node.ids && node'.raw == node.raw && node'.tab.self == node.tab.self
      && node'.tab.sequence == (node.tab.sequence + 1) % U64
      && node'.tab.clock == (if clockReads then Issue(node.tab.clock, node.raw) else node.tab.clock)
      && (created ==>
            && s'.issued == s.issued + {Signature(cfg.keys[n], RecordPayload(body), signature.value)}
            && s'.causes == s.causes[body := node.past]
            && node'.past == node.past + {body})
      && (!created ==> s'.issued == s.issued && s'.causes == s.causes && node'.past == node.past)
      && (if created && WriterKeyed(TypeOf(data)) then
            node'.heard == node.heard + {r} && node'.tab.table == node.tab.table[KeyOf(body) := r]
          else node'.heard == node.heard && node'.tab.table == node.tab.table)
  {
    hide Issue, KeyOf;
  }

  lemma CreatedIsGenuine(cfg: Config, issued: set<Signature>, n: NodeId, body: Body, bytes: seq<byte>)
    requires WellFormed(cfg) && n in cfg.setup && body.writer == n
    requires bytes != [] && cfg.kidOf(bytes) == Some(n)
    requires Signature(cfg.keys[n], RecordPayload(body), bytes) in issued
    ensures Genuine(cfg, issued, n, Record(body, Some(bytes)))
  {
    assert Vouched(cfg, issued, n, n, cfg.keys[n]);
  }

  lemma CreateKeepsNodeSafe(cfg: Config, s: Net, n: NodeId, data: RecordData, signature: Option<seq<byte>>,
                            clockReads: bool)
    requires WellFormed(cfg) && n in s.nodes && n in cfg.setup && NodeSafe(cfg, s.issued, n, s.nodes[n])
    ensures
      var s' := CreateAt(cfg, s, n, data, signature, clockReads);
      NodeSafe(cfg, s'.issued, n, s'.nodes[n])
  {
    var node, s' := s.nodes[n], CreateAt(cfg, s, n, data, signature, clockReads);
    var body := Tables.NewBody(node.tab, node.raw, data);
    assert body.writer == n;
    CreationOutcome(cfg, s, n, data, signature, clockReads);
    hide CreateAt, KeyOf, Attached, WriterKeyed, Tables.NewBody, Issue, Genuine, Vouched;
    NodeSafeGrows(cfg, s.issued, s'.issued, n, node);
    if Attached(cfg, n, signature).Some? && clockReads {
      CreatedIsGenuine(cfg, s'.issued, n, body, signature.value);
    }
    hide WellFormed;
  }

  lemma CreateKeepsSafe(cfg: Config, s: Net, n: NodeId, data: RecordData, signature: Option<seq<byte>>,
                        clockReads: bool)
    requires WellFormed(cfg) && Safe(cfg, s) && n in s.nodes
    ensures Safe(cfg, CreateAt(cfg, s, n, data, signature, clockReads))
  {
    var node, s' := s.nodes[n], CreateAt(cfg, s, n, data, signature, clockReads);
    var body := Tables.NewBody(node.tab, node.raw, data);
    hide NodeSafe, SignaturesSafe, Certifiable, KeyOf, Issue;
    CreateKeepsNodeSafe(cfg, s, n, data, signature, clockReads);
    CreationOutcome(cfg, s, n, data, signature, clockReads);
    hide CreateAt;
    if Attached(cfg, n, signature).Some? && clockReads {
      assert body.writer == n by {
        assert NodeSafe(cfg, s.issued, n, node);
        NodeKnowsItself(cfg, s.issued, n, node);
      }
      var made := Signature(cfg.keys[n], RecordPayload(body), signature.value);
      NewSignatureIsSafe(cfg, s, made);
      OneMoreSignature(cfg, s.issued, made);
    }
    ReplaceKeepsSafe(cfg, s, s', n);
  }

  lemma NodeKnowsItself(cfg: Config, issued: set<Signature>, n: NodeId, node: Node)
    requires ROOT_KID in cfg.keys && n in cfg.setup && NodeSafe(cfg, issued, n, node)
    ensures node.tab.self == n
  {
  }

  lemma DeliverStepKeepsSafe(cfg: Config, s: Net, n: NodeId, message: seq<byte>, clockReads: bool)
    requires WellFormed(cfg) && Safe(cfg, s) && n in s.nodes
    ensures Safe(cfg, DeliverAt(cfg, s, n, message, clockReads))
  {
    hide NodeSafe, SignaturesSafe, DeliverTo;
    DeliverKeepsSafe(cfg, s.issued, s.causes, n, s.nodes[n], message, clockReads);
    ReplaceKeepsSafe(cfg, s, DeliverAt(cfg, s, n, message, clockReads), n);
  }

  lemma CertifyKeepsSafe(cfg: Config, s: Net, payload: seq<byte>, seal: seq<byte>)
    requires WellFormed(cfg) && Safe(cfg, s) && Certifiable(cfg, payload)
    ensures Safe(cfg, CertifyAt(cfg, s, payload, seal))
  {
    hide Safe, SignaturesSafe, Certifiable;
    var made := Signature(cfg.keys[ROOT_KID], IdentityPayload(payload), seal);
    NewSignatureIsSafe(cfg, s, made);
    IssueKeepsSafe(cfg, s, made);
  }

  lemma ApplyKeepsSafe(cfg: Config, s: Net, a: Action)
    requires WellFormed(cfg) && Safe(cfg, s)
    ensures Safe(cfg, Apply(cfg, s, a))
  {
    hide NodeSafe, SignaturesSafe, CreateAt, DeliverTo, DownlinkTo, LearnOn, MaySign, Certifiable, CanTick, TickAll,
      WellFormed;
    match a {
      case Tick =>
        if CanTick(s) {
          TickKeepsSafe(cfg, s);
        }
      case Create(n, data, signature, clockReads) =>
        if n in s.nodes && n in cfg.keys {
          CreateKeepsSafe(cfg, s, n, data, signature, clockReads);
        }
      case Deliver(n, message, clockReads) =>
        if n in s.nodes {
          DeliverStepKeepsSafe(cfg, s, n, message, clockReads);
        }
      case Downlink(n, packet, clockReads) =>
        if n in s.nodes {
          DownlinkStepChangesNothing(s, n, packet, clockReads);
        }
      case Identify(n, message, storage) =>
        if n in s.nodes {
          IdentifyKeepsSafe(cfg, s, n, message, storage);
        }
      case Certify(payload, seal) =>
        if ROOT_KID in cfg.keys && Certifiable(cfg, payload) {
          CertifyKeepsSafe(cfg, s, payload, seal);
        }
      case SignOutside(made) =>
        if MaySign(cfg, s, made) {
          NewSignatureIsSafe(cfg, s, made);
          IssueKeepsSafe(cfg, s, made);
        }
    }
  }

  lemma TrustIgnoresClocks(cfg: Config, issued: set<Signature>, n: NodeId, node: Node, raw: u32)
    requires ROOT_KID in cfg.keys && n in cfg.setup && NodeSafe(cfg, issued, n, node)
    ensures NodeSafe(cfg, issued, n, node.(raw := raw))
  {
    hide Vouched, Genuine, KeyOf;
  }

  lemma TickKeepsSafe(cfg: Config, s: Net)
    requires WellFormed(cfg) && Safe(cfg, s) && CanTick(s)
    ensures Safe(cfg, s.(nodes := TickAll(s.nodes)))
  {
    hide NodeSafe, SignaturesSafe, Distinct;
    forall n | n in s.nodes ensures NodeSafe(cfg, s.issued, n, TickAll(s.nodes)[n]) {
      TrustIgnoresClocks(cfg, s.issued, n, s.nodes[n], s.nodes[n].raw + 1);
    }
  }

  lemma IdentifyKeepsNodeSafe(cfg: Config, issued: set<Signature>, n: NodeId, node: Node, message: seq<byte>,
                              storage: Storage)
    requires WellFormed(cfg) && n in cfg.setup && SignaturesSafe(cfg, issued) && NodeSafe(cfg, issued, n, node)
    ensures NodeSafe(cfg, issued, n, node.(ids := LearnOn(cfg.kidOf, issued, node.ids, message, storage).ids))
  {
    hide Vouched, Genuine, KeyOf, LearnOn;
    LearntKeyIsCertified(cfg, issued, n, node.ids, message, storage);
    hide WellFormed, SignaturesSafe;
  }

  lemma IdentifyKeepsSafe(cfg: Config, s: Net, n: NodeId, message: seq<byte>, storage: Storage)
    requires WellFormed(cfg) && Safe(cfg, s) && n in s.nodes
    ensures Safe(cfg, IdentifyAt(cfg, s, n, message, storage))
  {
    hide NodeSafe, SignaturesSafe, LearnOn;
    IdentifyKeepsNodeSafe(cfg, s.issued, n, s.nodes[n], message, storage);
    ReplaceKeepsSafe(cfg, s, IdentifyAt(cfg, s, n, message, storage), n);
  }

  lemma StartIsSafe(cfg: Config, s: Net)
    requires WellFormed(cfg) && Init(cfg, s)
    ensures Safe(cfg, s)
  {
    hide Distinct;
  }

  lemma {:induction false} RunIsSafe(cfg: Config, run: Run, i: nat)
    requires WellFormed(cfg) && IsRun(cfg, run) && i < |run.states|
    ensures Safe(cfg, run.states[i])
  {
    hide Apply, Safe, Init, WellFormed;
    if i == 0 {
      StartIsSafe(cfg, run.states[0]);
    } else {
      RunIsSafe(cfg, run, i - 1);
      RunStep(cfg, run, i - 1);
      ApplyKeepsSafe(cfg, run.states[i - 1], run.actions[i - 1]);
    }
  }

  // ---------------------------------------------------------------- results for all runs

  // Chain of trust: every record in a table carries a signature made over exactly this record
  // under a key that was installed at setup for its writer or certified by the root for its
  // writer; if its writer is a node, under that node's own key.
  lemma {:induction false} ForeignRecordsAreTrusted(cfg: Config, run: Run, i: nat, n: NodeId,
                                                    k: Key) returns (key: seq<byte>)
    requires WellFormed(cfg) && IsRun(cfg, run) && i < |run.states|
    requires n in run.states[i].nodes && k in run.states[i].nodes[n].tab.table
    ensures n in cfg.setup
    ensures
      var s := run.states[i];
      var r := s.nodes[n].tab.table[k];
      && r.signature.Some?
      && Signature(key, RecordPayload(r.body), r.signature.value) in s.issued
      && Vouched(cfg, s.issued, n, r.body.writer, key)
      && (r.body.writer in cfg.keys ==> key == cfg.keys[r.body.writer])
  {
    hide Vouched, IsRun, WellFormed, SignaturesSafe;
    RunIsSafe(cfg, run, i);
    var s := run.states[i];
    NodesAreSetUp(cfg, s);
    var r := s.nodes[n].tab.table[k];
    assert NodeSafe(cfg, s.issued, n, s.nodes[n]);
    assert Genuine(cfg, s.issued, n, r);
    key :| Vouched(cfg, s.issued, n, r.body.writer, key)
           && Signature(key, RecordPayload(r.body), r.signature.value) in s.issued;
    VouchedIsRight(cfg, s.issued, n, r.body.writer, key);
  }

  // Encounters stay local: every encounter in a node's table was written by that node.
  lemma {:induction false} EncountersStayLocal(cfg: Config, run: Run, i: nat, n: NodeId, k: Key)
    requires WellFormed(cfg) && IsRun(cfg, run) && i < |run.states|
    requires n in run.states[i].nodes && k in run.states[i].nodes[n].tab.table
    ensures
      var r := run.states[i].nodes[n].tab.table[k];
      KeyOf(r.body) == k && (IsEncounter(r.Type()) ==> r.body.writer == n)
  {
    hide IsRun, WellFormed, Vouched, KeyOf, SignaturesSafe;
    RunIsSafe(cfg, run, i);
    var s := run.states[i];
    NodesAreSetUp(cfg, s);
    assert NodeSafe(cfg, s.issued, n, s.nodes[n]);
    assert Genuine(cfg, s.issued, n, s.nodes[n].tab.table[k]);
  }

  // Nobody uses another key for a node, or for the root, than its own, whatever identity
  // responses arrived.
  lemma {:induction false} KeysOfNodesAreRight(cfg: Config, run: Run, i: nat, n: NodeId, kid: NodeId)
    requires WellFormed(cfg) && IsRun(cfg, run) && i < |run.states|
    requires n in run.states[i].nodes && kid in cfg.keys && kid in run.states[i].nodes[n].ids.keys
    ensures run.states[i].nodes[n].ids.keys[kid] == cfg.keys[kid]
  {
    hide IsRun, WellFormed, Vouched, Genuine, KeyOf, SignaturesSafe;
    RunIsSafe(cfg, run, i);
    var s := run.states[i];
    NodesAreSetUp(cfg, s);
    assert NodeSafe(cfg, s.issued, n, s.nodes[n]);
    VouchedIsRight(cfg, s.issued, n, kid, s.nodes[n].ids.keys[kid]);
  }
}
