// What the replicated table promises its users, over every run whose counters do not overflow.
module Guarantees {
  import opened Types
  import opened Keys
  import opened Hlc
  import opened Crypto
  import opened RecordCodec
  import opened Network
  import opened Ordering
  import Gossip
  import IdentityStore
  import opened MergeOrder
  import Reception
  import Tables

  // ---------------------------------------------------------------- one writer's records

  // A writer never uses a sequence number for two records, and its sequence order is its
  // timestamp order.
  lemma {:induction false} SequenceOrderIsTimeOrder(cfg: Config, run: Run, i: nat, w: NodeId, m: Signature,
                                                    m': Signature)
    requires WellFormed(cfg) && IsRun(cfg, run) && Quiet(cfg, run) && i < |run.states| && w in run.states[i].nodes
    requires SignedBy(cfg, run.states[i].issued, w, m) && SignedBy(cfg, run.states[i].issued, w, m')
    ensures m.payload.body.writer == w
    ensures m.payload.body.sequence == m'.payload.body.sequence <==> m == m'
    ensures m.payload.body.sequence < m'.payload.body.sequence <==>
            Less(m.payload.body.timestamp, m'.payload.body.timestamp)
  {
    hide IsRun, WellFormed, Quiet, Safe, Ordered;
    RunIsOrdered(cfg, run, i);
    NodesAreSetUp(cfg, run.states[i]);
    WrittenByItself(cfg, run.states[i], w, m);
    WriterInStep(cfg, run.states[i], w, m, m');
  }

  lemma WrittenByItself(cfg: Config, s: Net, w: NodeId, m: Signature)
    requires WellFormed(cfg) && Safe(cfg, s) && w in cfg.setup && SignedBy(cfg, s.issued, w, m)
    ensures m.payload.body.writer == w
  {
    NodeHasKey(cfg, w);
    hide WellFormed, NodeSafe, Certifiable;
  }

  lemma WriterInStep(cfg: Config, s: Net, w: NodeId, m: Signature, m': Signature)
    requires Ordered(cfg, s) && w in s.nodes && SignedBy(cfg, s.issued, w, m) && SignedBy(cfg, s.issued, w, m')
    ensures InStep(m, m') && InStep(m', m)
  {
    hide SignedBy, InStep, Newest, NotAhead;
    assert NodeOrdered(cfg, s.issued, w, s.nodes[w]);
  }

  // ---------------------------------------------------------------- causality

  // Every record lies strictly above all records it causally depends on: those its writer had
  // created or accepted before, and everything those depend on in turn.
  lemma {:induction false} CausesPrecede(cfg: Config, run: Run, i: nat, b: Body, c: Body)
    requires WellFormed(cfg) && IsRun(cfg, run) && Quiet(cfg, run) && i < |run.states|
    requires b in run.states[i].causes && c in run.states[i].causes[b]
    ensures Less(c.timestamp, b.timestamp)
  {
    hide IsRun, WellFormed, Quiet, Safe, NodeOrdered;
    RunIsOrdered(cfg, run, i);
  }

  // A delivery at which the node takes the record over.
  predicate Accepts(cfg: Config, s: Net, a: Action, n: NodeId, r: Record) {
    && a.Deliver? && a.node == n && n in s.nodes
    && Heard(cfg, s.issued, s.nodes[n], a.message, a.clockReads) == Some(r)
    && Tables.Supersedes(s.nodes[n].tab.table, r)
  }

  lemma AcceptingExtendsPast(cfg: Config, s: Net, a: Action, n: NodeId, r: Record)
    requires Accepts(cfg, s, a, n, r)
    ensures n in Apply(cfg, s, a).nodes && Causes(s.causes, r.body) <= Apply(cfg, s, a).nodes[n].past
  {
    hide Heard, Reception.Hear, Tables.Supersedes, Causes;
  }

  // What a node has heard, the past of its records and the writers it knows only ever grow.
  predicate Grows(node: Node, node': Node) {
    node.heard <= node'.heard && node.past <= node'.past && node.ids.keys.Keys <= node'.ids.keys.Keys
  }

  lemma LearningGrows(kidOf: KidReader, issued: set<Signature>, ids: IdentityStore.Ids, message: seq<byte>,
                      storage: IdentityStore.Storage)
    ensures ids.keys.Keys <= IdentityStore.LearnOn(kidOf, issued, ids, message, storage).ids.keys.Keys
  {
    hide Verifies, IdentityStore.FileName, IdentityStore.Writing, IdentityCodec.DecodeIdMessage,
      IdentityCodec.DecodeIdentity;
  }

  lemma StepGrows(cfg: Config, s: Net, a: Action, n: NodeId)
    requires n in s.nodes
    ensures n in Apply(cfg, s, a).nodes && Grows(s.nodes[n], Apply(cfg, s, a).nodes[n])
  {
    hide CreateAt, Heard, Reception.Hear, DownlinkTo, IdentityStore.LearnOn, Certifiable, MaySign, CanTick,
      Tables.Supersedes, Causes;
    match a {
      case Create(m, data, signature, clockReads) =>
        if m in s.nodes && m in cfg.keys {
          CreationOutcome(cfg, s, m, data, signature, clockReads);
        }
      case Downlink(m, packet, clockReads) =>
        if m in s.nodes {
          DownlinkStepChangesNothing(s, m, packet, clockReads);
        }
      case Identify(m, message, storage) =>
        if m in s.nodes {
          LearningGrows(cfg.kidOf, s.issued, s.nodes[m].ids, message, storage);
        }
      case _ =>
    }
  }

  lemma {:induction false} NodesGrow(cfg: Config, run: Run, i: nat, j: nat, n: NodeId)
    requires IsRun(cfg, run) && i <= j < |run.states| && n in run.states[i].nodes
    ensures n in run.states[j].nodes && Grows(run.states[i].nodes[n], run.states[j].nodes[n])
    decreases j
  {
    hide Apply, Init;
    if i < j {
      NodesGrow(cfg, run, i, j - 1, n);
      RunStep(cfg, run, j - 1);
      StepGrows(cfg, run.states[j - 1], run.actions[j - 1], n);
    }
  }

  // Whatever a node creates any time after it accepted a record is stamped strictly above that
  // record and above everything that record depends on.
  lemma {:induction false} CreatedAfterAccepted(cfg: Config, run: Run, i: nat, j: nat, n: NodeId, r: Record,
                                                data: RecordData, b: Body)
    requires WellFormed(cfg) && IsRun(cfg, run) && Quiet(cfg, run) && i < j < |run.states|
    requires Accepts(cfg, run.states[i], run.actions[i], n, r) && b in Causes(run.states[i].causes, r.body)
    requires n in run.states[j].nodes && HasRoom(run.states[j].nodes[n])
    ensures
      var node := run.states[j].nodes[n];
      Less(b.timestamp, Tables.NewBody(node.tab, node.raw, data).timestamp)
  {
    hide IsRun, WellFormed, Quiet, Safe, Ordered, Accepts, Causes, Tables.NewBody, HasRoom;
    RunIsOrdered(cfg, run, j);
    AcceptedIsPast(cfg, run, i, j, n, r);
    CreatedAbovePast(cfg, run.states[j], n, data, b);
  }

  lemma AcceptedIsPast(cfg: Config, run: Run, i: nat, j: nat, n: NodeId, r: Record)
    requires IsRun(cfg, run) && i < j < |run.states|
    requires Accepts(cfg, run.states[i], run.actions[i], n, r)
    ensures n in run.states[j].nodes && Causes(run.states[i].causes, r.body) <= run.states[j].nodes[n].past
  {
    hide Apply, Init, Accepts, Causes;
    RunStep(cfg, run, i);
    AcceptingExtendsPast(cfg, run.states[i], run.actions[i], n, r);
    NodesGrow(cfg, run, i + 1, j, n);
  }

  lemma CreatedAbovePast(cfg: Config, s: Net, n: NodeId, data: RecordData, b: Body)
    requires Ordered(cfg, s) && n in s.nodes && b in s.nodes[n].past
    requires HasRoom(s.nodes[n])
    ensures Less(b.timestamp, Tables.NewBody(s.nodes[n].tab, s.nodes[n].raw, data).timestamp)
  {
    hide Tables.NewBody, WriterOrdered, Newest, CausesOrdered;
    assert NodeOrdered(cfg, s.issued, n, s.nodes[n]);
    NewTimestamp(s.nodes[n], data);
  }

  // ---------------------------------------------------------------- the newest record of each key

  // Under a key the table holds one of the heard records, and none of those is newer.
  ghost predicate HoldsNewest(node: Node, k: Key) {
    && (k in node.tab.table <==> exists r :: r in node.heard && KeyOf(r.body) == k)
    && (k in node.tab.table ==> IsNewest(node.heard, k, node.tab.table[k]))
  }

  // Incremental merging computes a maximum: in every state a node's table holds, under each key,
  // the newest of the records it put or heard.
  lemma {:induction false} TableIsNewestOfHeard(cfg: Config, run: Run, i: nat, n: NodeId, k: Key)
    requires WellFormed(cfg) && IsRun(cfg, run) && Quiet(cfg, run) && i < |run.states| && n in run.states[i].nodes
    ensures HoldsNewest(run.states[i].nodes[n], k)
  {
    var s := run.states[i];
    hide IsRun, Quiet, Safe, KeyOf, NodeOrdered, WellFormed, CausesOrdered, HoldsNewest;
    RunIsOrdered(cfg, run, i);
    TablesAreKeyed(cfg, s, n);
    OrderedHoldsNewest(cfg, s.issued, n, s.nodes[n], k);
  }

  lemma OrderedHoldsNewest(cfg: Config, issued: set<Signature>, n: NodeId, node: Node, k: Key)
    requires NodeOrdered(cfg, issued, n, node)
    requires forall k: Key :: k in node.tab.table ==>
                                node.tab.table[k] in node.heard && KeyOf(node.tab.table[k].body) == k
    ensures HoldsNewest(node, k)
  {
    hide KeyOf, WriterOrdered, NotAhead, Tables.Newer;
  }

  // ---------------------------------------------------------------- versions

  // The stored version under a key, once there, stays or gets newer.
  predicate NoOlder(table: map<Key, Record>, table': map<Key, Record>, k: Key) {
    k in table ==> k in table' && (table'[k] == table[k] || Tables.Newer(table'[k].body, table[k].body))
  }

  // A new number is above every own record in the table.
  lemma NewNumberIsNewer(cfg: Config, s: Net, n: NodeId, body: Body)
    requires WellFormed(cfg) && Safe(cfg, s) && Ordered(cfg, s) && n in s.nodes
    requires body.writer == n && WriterKeyed(TypeOf(body.data)) && body.sequence > s.nodes[n].tab.sequence
    requires KeyOf(body) in s.nodes[n].tab.table
    ensures Tables.Newer(body, s.nodes[n].tab.table[KeyOf(body)].body)
  {
    var stored := s.nodes[n].tab.table[KeyOf(body)];
    TablesAreKeyed(cfg, s, n);
    WriterOfKey(body, stored.body);
    assert NodeOrdered(cfg, s.issued, n, s.nodes[n]);
    hide WellFormed, Safe, Ordered, KeyOf, WriterKeyed, WriterOrdered;
    OwnHeardIsNumbered(cfg, s, n, stored);
  }

  lemma CreatedTable(cfg: Config, s: Net, n: NodeId, data: RecordData, signature: Option<seq<byte>>, clockReads: bool)
    requires n in s.nodes && n in cfg.keys
    ensures
      var node := s.nodes[n];
      var table' := CreateAt(cfg, s, n, data, signature, clockReads).nodes[n].tab.table;
      var body := Tables.NewBody(node.tab, node.raw, data);
      || table' == node.tab.table
      || (WriterKeyed(TypeOf(data)) && table' == node.tab.table[KeyOf(body) := Record(body, signature)])
  {
    CreationOutcome(cfg, s, n, data, signature, clockReads);
    hide CreateAt, Tables.NewBody, KeyOf, Issue, Attached, WriterKeyed;
  }

  lemma CreateKeepsVersions(cfg: Config, s: Net, n: NodeId, data: RecordData, signature: Option<seq<byte>>,
                            clockReads: bool, k: Key)
    requires WellFormed(cfg) && Safe(cfg, s) && Ordered(cfg, s) && n in s.nodes
    requires QuietStep(cfg, s, Create(n, data, signature, clockReads))
    ensures NoOlder(s.nodes[n].tab.table, CreateAt(cfg, s, n, data, signature, clockReads).nodes[n].tab.table, k)
  {
    hide WellFormed, Safe, Ordered, CreateAt, Tables.NewBody, KeyOf, WriterKeyed, Tables.Newer;
    NodesAreSetUp(cfg, s);
    SelfIsKnown(cfg, s, n);
    NodeHasKey(cfg, n);
    NewCounters(s.nodes[n], data);
    CreatedTable(cfg, s, n, data, signature, clockReads);
    NewBodyIsNewer(cfg, s, n, Tables.NewBody(s.nodes[n].tab, s.nodes[n].raw, data), k);
  }

  lemma NewBodyIsNewer(cfg: Config, s: Net, n: NodeId, body: Body, k: Key)
    requires WellFormed(cfg) && Safe(cfg, s) && Ordered(cfg, s) && n in s.nodes
    requires body.writer == n && body.sequence > s.nodes[n].tab.sequence
    ensures WriterKeyed(TypeOf(body.data)) && k == KeyOf(body) && k in s.nodes[n].tab.table ==>
              Tables.Newer(body, s.nodes[n].tab.table[k].body)
  {
    hide WellFormed, Safe, Ordered, WriterKeyed, Tables.Newer, KeyOf;
    if WriterKeyed(TypeOf(body.data)) && KeyOf(body) in s.nodes[n].tab.table {
      NewNumberIsNewer(cfg, s, n, body);
    }
  }

  lemma SelfIsKnown(cfg: Config, s: Net, n: NodeId)
    requires WellFormed(cfg) && Safe(cfg, s) && n in s.nodes
    ensures s.nodes[n].tab.self == n
  {
    NodeHasKey(cfg, n);
    hide WellFormed, SignaturesSafe, NodeSafe;
    NodeKnowsItself(cfg, s.issued, n, s.nodes[n]);
  }

  lemma DeliverKeepsVersions(cfg: Config, s: Net, n: NodeId, message: seq<byte>, clockReads: bool, k: Key)
    requires n in s.nodes
    ensures NoOlder(s.nodes[n].tab.table,
                    DeliverTo(cfg, s.issued, s.causes, s.nodes[n], message, clockReads).tab.table, k)
  {
    DeliveryIsAMerge(cfg, s.issued, s.causes, s.nodes[n], message, clockReads);
    hide DeliverTo, Heard, KeyOf, Receive, Tables.Newer;
  }

  lemma SameVersions(table: map<Key, Record>, k: Key)
    ensures NoOlder(table, table, k)
  {
  }

  lemma NoOlderIsTransitive(a: map<Key, Record>, b: map<Key, Record>, c: map<Key, Record>, k: Key)
    requires NoOlder(a, b, k) && NoOlder(b, c, k)
    ensures NoOlder(a, c, k)
  {
    if k in a {
      Tables.NewerIsStrictOrder(c[k].body, b[k].body, a[k].body);
    }
  }

  lemma NodeStepKeepsVersions(cfg: Config, s: Net, a: Action, n: NodeId, k: Key)
    requires WellFormed(cfg) && Safe(cfg, s) && Ordered(cfg, s) && QuietStep(cfg, s, a) && n in s.nodes && AtANode(a)
    ensures n in Apply(cfg, s, a).nodes && NoOlder(s.nodes[n].tab.table, Apply(cfg, s, a).nodes[n].tab.table, k)
  {
    hide WellFormed, Safe, Ordered, CreateAt, DeliverTo, DownlinkTo, IdentityStore.LearnOn, QuietStep, NoOlder;
    NodesAreSetUp(cfg, s);
    ApplyKeepsNodes(cfg, s, a);
    SameVersions(s.nodes[n].tab.table, k);
    match a {
      case Create(m, data, signature, clockReads) =>
        if m == n {
          CreateKeepsVersions(cfg, s, n, data, signature, clockReads, k);
        } else if m in s.nodes && m in cfg.keys {
          OthersUntouched(cfg, s, m, data, signature, clockReads, n);
        }
      case Deliver(m, message, clockReads) =>
        if m == n {
          DeliverKeepsVersions(cfg, s, n, message, clockReads, k);
        }
      case Downlink(m, packet, clockReads) =>
        if m in s.nodes {
          DownlinkStepChangesNothing(s, m, packet, clockReads);
        }
      case Identify(m, message, storage) =>
    }
  }

  lemma OthersUntouched(cfg: Config, s: Net, m: NodeId, data: RecordData, signature: Option<seq<byte>>,
                        clockReads: bool, n: NodeId)
    requires m in cfg.keys && m in s.nodes && n in s.nodes && m != n
    ensures
      var s' := CreateAt(cfg, s, m, data, signature, clockReads);
      n in s'.nodes && s'.nodes[n] == s.nodes[n]
  {
    hide Tables.Put, Tables.NewBody, Attached, WriterKeyed;
  }

  lemma OtherStepKeepsTables(cfg: Config, s: Net, a: Action, n: NodeId)
    requires n in s.nodes && !AtANode(a)
    ensures n in Apply(cfg, s, a).nodes && Apply(cfg, s, a).nodes[n].tab == s.nodes[n].tab
  {
    hide Certifiable, MaySign;
  }

  lemma StepKeepsVersions(cfg: Config, s: Net, a: Action, n: NodeId, k: Key)
    requires WellFormed(cfg) && Safe(cfg, s) && Ordered(cfg, s) && QuietStep(cfg, s, a) && n in s.nodes
    ensures n in Apply(cfg, s, a).nodes && NoOlder(s.nodes[n].tab.table, Apply(cfg, s, a).nodes[n].tab.table, k)
  {
    hide Apply, NoOlder, WellFormed, Safe, Ordered, QuietStep;
    NodesAreSetUp(cfg, s);
    if AtANode(a) {
      NodeStepKeepsVersions(cfg, s, a, n, k);
    } else {
      OtherStepKeepsTables(cfg, s, a, n);
      SameVersions(s.nodes[n].tab.table, k);
    }
  }

  // Stored versions never go back, from any state of a run to any later one.
  lemma {:induction false} VersionsNeverGoBack(cfg: Config, run: Run, i: nat, j: nat, n: NodeId, k: Key)
    requires WellFormed(cfg) && IsRun(cfg, run) && Quiet(cfg, run) && i <= j < |run.states| && n in run.states[i].nodes
    ensures n in run.states[j].nodes
    ensures NoOlder(run.states[i].nodes[n].tab.table, run.states[j].nodes[n].tab.table, k)
    decreases j
  {
    hide Apply, Init, WellFormed, Safe, Ordered, QuietStep, NoOlder;
    if i == j {
      SameVersions(run.states[i].nodes[n].tab.table, k);
    } else {
      VersionsNeverGoBack(cfg, run, i, j - 1, n, k);
      RunIsOrdered(cfg, run, j - 1);
      RunStep(cfg, run, j - 1);
      assert QuietStep(cfg, run.states[j - 1], run.actions[j - 1]);
      StepKeepsVersions(cfg, run.states[j - 1], run.actions[j - 1], n, k);
      NoOlderIsTransitive(run.states[i].nodes[n].tab.table, run.states[j - 1].nodes[n].tab.table,
                          run.states[j].nodes[n].tab.table, k);
    }
  }

  // A record a node has heard before changes nothing when it arrives again, in whatever
  // message: not the store, not the clock, not the counter.
  lemma {:induction false} RedeliveryChangesNothing(cfg: Config, run: Run, i: nat, n: NodeId, message: seq<byte>,
                                                    clockReads: bool)
    requires WellFormed(cfg) && IsRun(cfg, run) && Quiet(cfg, run) && i < |run.states| && n in run.states[i].nodes
    requires MessageOfHeard(run.states[i].nodes[n], message)
    ensures
      var s := run.states[i];
      DeliverTo(cfg, s.issued, s.causes, s.nodes[n], message, clockReads) == s.nodes[n]
  {
    var s := run.states[i];
    hide IsRun, Quiet, WellFormed, Safe, WriterOrdered, NotAhead, Newest, CausesOrdered, DeliverTo, MessageOfHeard;
    RunIsOrdered(cfg, run, i);
    assert NodeOrdered(cfg, s.issued, n, s.nodes[n]);
    HeardAgain(cfg, s.issued, s.causes, s.nodes[n], message, clockReads);
  }

  // The message decodes to a record the node has put or heard.
  predicate MessageOfHeard(node: Node, message: seq<byte>) {
    var decoded := DecodeRecord(message, Some(MAX_SIGNATURE_SIZE));
    decoded.Some? && decoded.value.record in node.heard
  }

  lemma HeardAgain(cfg: Config, issued: set<Signature>, causes: map<Body, set<Body>>, node: Node, message: seq<byte>,
                   clockReads: bool)
    requires Newest(node.heard, node.tab.table) && MessageOfHeard(node, message)
    ensures DeliverTo(cfg, issued, causes, node, message, clockReads) == node
  {
    hide DecodeRecord, RecordVerifies, KeyOf, Receive, Tables.Newer;
    DeliveryIsAMerge(cfg, issued, causes, node, message, clockReads);
    hide Reception.Hear;
    var r := DecodeRecord(message, Some(MAX_SIGNATURE_SIZE)).value.record;
    assert !Tables.Supersedes(node.tab.table, r);
    assert node.heard + {r} == node.heard;
  }

  // ---------------------------------------------------------------- convergence

  ghost predicate SameHeard(a: Node, b: Node, k: Key) {
    forall r: Record {:trigger r in a.heard} {:trigger r in b.heard} ::
      KeyOf(r.body) == k ==> (r in a.heard <==> r in b.heard)
  }

  // What a node stores under a key, if anything.
  function StoredAt(node: Node, k: Key): Option<Record> {
    if k in node.tab.table then Some(node.tab.table[k]) else None
  }

  predicate AgreeOn(a: Node, b: Node, k: Key) {
    StoredAt(a, k) == StoredAt(b, k)
  }

  // Strong convergence: when two nodes have heard the same records under a key, in whatever
  // order, how often, and interleaved with whatever else, they store the same record under it,
  // provided no two of these records are newest.
  lemma {:induction false} Convergence(cfg: Config, run: Run, i: nat, a: NodeId, b: NodeId, k: Key)
    requires WellFormed(cfg) && IsRun(cfg, run) && Quiet(cfg, run) && i < |run.states|
    requires a in run.states[i].nodes && b in run.states[i].nodes
    requires SameHeard(run.states[i].nodes[a], run.states[i].nodes[b], k)
    requires UniqueNewest(run.states[i].nodes[a].heard, k)
    ensures AgreeOn(run.states[i].nodes[a], run.states[i].nodes[b], k)
  {
    hide IsRun, Quiet, WellFormed, KeyOf, HoldsNewest, SameHeard, UniqueNewest;
    TableIsNewestOfHeard(cfg, run, i, a, k);
    TableIsNewestOfHeard(cfg, run, i, b, k);
    NewestAgree(run.states[i].nodes[a], run.states[i].nodes[b], k);
  }

  lemma NewestAgree(a: Node, b: Node, k: Key)
    requires HoldsNewest(a, k) && HoldsNewest(b, k) && SameHeard(a, b, k) && UniqueNewest(a.heard, k)
    ensures AgreeOn(a, b, k)
  {
    hide KeyOf, Tables.Newer;
    if k in b.tab.table {
      assert IsNewest(a.heard, k, b.tab.table[k]);
    }
  }

  ghost predicate OneWriter(heard: set<Record>, k: Key, w: NodeId) {
    forall r :: r in heard && KeyOf(r.body) == k ==> r.body.writer == w
  }

  // Two heard records of one node of which neither is newer are the same record.
  lemma NoTies(cfg: Config, s: Net, a: NodeId, b: NodeId, x: Record, y: Record)
    requires WellFormed(cfg) && Safe(cfg, s) && Ordered(cfg, s) && a in s.nodes && b in s.nodes
    requires x in s.nodes[a].heard && y in s.nodes[b].heard
    requires x.body.writer == y.body.writer && x.body.writer in cfg.setup
    requires Tied(x.body, y.body)
    ensures x == y
  {
    var w := x.body.writer;
    hide WellFormed, Safe, Ordered, SignedBy;
    NodesAreSetUp(cfg, s);
    var m := HeardIsSigned(cfg, s, a, x);
    var m' := HeardIsSigned(cfg, s, b, y);
    WriterInStep(cfg, s, w, m, m');
  }

  // So the proviso is met when one node wrote all these records, wherever they were heard.
  lemma OneWriterIsUnique(cfg: Config, s: Net, a: NodeId, b: NodeId, heard: set<Record>, k: Key, w: NodeId)
    requires WellFormed(cfg) && Safe(cfg, s) && Ordered(cfg, s) && a in s.nodes && b in s.nodes && w in cfg.setup
    requires heard <= s.nodes[a].heard + s.nodes[b].heard && OneWriter(heard, k, w)
    ensures UniqueNewest(heard, k)
  {
    hide WellFormed, Safe, Ordered, KeyOf, Tables.Newer;
    forall x, y | IsNewest(heard, k, x) && IsNewest(heard, k, y) ensures x == y {
      NoTies(cfg, s, if x in s.nodes[a].heard then a else b, if y in s.nodes[a].heard then a else b, x, y);
    }
  }

  lemma {:induction false} OneWriterConvergence(cfg: Config, run: Run, i: nat, a: NodeId, b: NodeId, k: Key, w: NodeId)
    requires WellFormed(cfg) && IsRun(cfg, run) && Quiet(cfg, run) && i < |run.states|
    requires a in run.states[i].nodes && b in run.states[i].nodes && w in cfg.setup
    requires SameHeard(run.states[i].nodes[a], run.states[i].nodes[b], k)
    requires OneWriter(run.states[i].nodes[a].heard, k, w)
    ensures AgreeOn(run.states[i].nodes[a], run.states[i].nodes[b], k)
  {
    hide IsRun, Quiet, WellFormed, KeyOf, SameHeard, AgreeOn, Safe, Ordered, UniqueNewest, OneWriter;
    var s := run.states[i];
    RunIsOrdered(cfg, run, i);
    OneWriterIsUnique(cfg, s, a, a, s.nodes[a].heard, k, w);
    Convergence(cfg, run, i, a, b, k);
  }

  // Reports and observations need no proviso: their key names the writer.
  lemma {:induction false} WriterKeyedConvergence(cfg: Config, run: Run, i: nat, a: NodeId, b: NodeId, body: Body)
    requires WellFormed(cfg) && IsRun(cfg, run) && Quiet(cfg, run) && i < |run.states|
    requires a in run.states[i].nodes && b in run.states[i].nodes
    requires WriterKeyed(TypeOf(body.data)) && body.writer in cfg.setup
    requires SameHeard(run.states[i].nodes[a], run.states[i].nodes[b], KeyOf(body))
    ensures AgreeOn(run.states[i].nodes[a], run.states[i].nodes[b], KeyOf(body))
  {
    hide IsRun, Quiet, WellFormed, KeyOf, WriterKeyed, SameHeard, AgreeOn, OneWriter;
    KeyNamesTheWriter(run.states[i].nodes[a].heard, body);
    OneWriterConvergence(cfg, run, i, a, b, KeyOf(body), body.writer);
  }

  lemma KeyNamesTheWriter(heard: set<Record>, body: Body)
    requires WriterKeyed(TypeOf(body.data))
    ensures OneWriter(heard, KeyOf(body), body.writer)
  {
    hide KeyOf, WriterKeyed;
    forall r | r in heard && KeyOf(r.body) == KeyOf(body) ensures r.body.writer == body.writer {
      WriterOfKey(body, r.body);
    }
  }

  // The proviso is needed: whenever two nodes without a record under a key hear two tied records
  // in opposite orders, each keeps the one it heard first.
  lemma TiedRecordsDiverge(cfg: Config, issued: set<Signature>, causes: map<Body, set<Body>>, a: Node, b: Node,
                           x: Record, messageX: seq<byte>, y: Record, messageY: seq<byte>)
    requires Heard(cfg, issued, a, messageX, true) == Heard(cfg, issued, b, messageX, true) == Some(x)
    requires Heard(cfg, issued, a, messageY, true) == Heard(cfg, issued, b, messageY, true) == Some(y)
    requires KeyOf(x.body) == KeyOf(y.body) && Tied(x.body, y.body) && SameHeard(a, b, KeyOf(x.body))
    requires KeyOf(x.body) !in a.tab.table && KeyOf(x.body) !in b.tab.table
    ensures
      var a' := DeliverTo(cfg, issued, causes, DeliverTo(cfg, issued, causes, a, messageX, true), messageY, true);
      var b' := DeliverTo(cfg, issued, causes, DeliverTo(cfg, issued, causes, b, messageY, true), messageX, true);
      && SameHeard(a', b', KeyOf(x.body))
      && StoredAt(a', KeyOf(x.body)) == Some(x) && StoredAt(b', KeyOf(x.body)) == Some(y)
  {
    hide DeliverTo, Heard, KeyOf, Tied, Merged;
    HearingMerges(cfg, issued, causes, a, x, messageX, messageY);
    HearingMerges(cfg, issued, causes, b, y, messageY, messageX);
    var a1 := DeliverTo(cfg, issued, causes, a, messageX, true);
    var b1 := DeliverTo(cfg, issued, causes, b, messageY, true);
    HearingMerges(cfg, issued, causes, a1, y, messageY, messageY);
    HearingMerges(cfg, issued, causes, b1, x, messageX, messageX);
    TiedKeepTheFirst(a.tab.table, x, y);
    TiedKeepTheFirst(b.tab.table, x, y);
  }

  // Hearing a record merges it, and leaves what other messages make the node hear as it was.
  lemma HearingMerges(cfg: Config, issued: set<Signature>, causes: map<Body, set<Body>>, node: Node, r: Record,
                      message: seq<byte>, other: seq<byte>)
    requires Heard(cfg, issued, node, message, true) == Some(r)
    ensures
      var node' := DeliverTo(cfg, issued, causes, node, message, true);
      && node'.tab.table == Merged(node.tab.table, r) && node'.heard == node.heard + {r}
      && Heard(cfg, issued, node', other, true) == Heard(cfg, issued, node, other, true)
  {
    DeliveryIsAMerge(cfg, issued, causes, node, message, true);
    hide DecodeRecord, RecordVerifies, Reception.Hear, KeyOf, Receive, Tables.Supersedes, Causes;
  }

  // ---------------------------------------------------------------- the writer is ahead

  // No replica ever holds a newer version of a report or an observation than its writer itself.
  lemma {:induction false} WriterDominates(cfg: Config, run: Run, i: nat, n: NodeId, k: Key)
    requires WellFormed(cfg) && IsRun(cfg, run) && Quiet(cfg, run) && i < |run.states|
    requires n in run.states[i].nodes && k in run.states[i].nodes[n].tab.table
    requires
      var r := run.states[i].nodes[n].tab.table[k];
      WriterKeyed(r.Type()) && r.body.writer in run.states[i].nodes
    ensures
      var r := run.states[i].nodes[n].tab.table[k];
      var own := run.states[i].nodes[r.body.writer].tab.table;
      k in own && !Tables.Newer(r.body, own[k].body)
  {
    var s := run.states[i];
    var r := s.nodes[n].tab.table[k];
    var w := r.body.writer;
    hide IsRun, Quiet, KeyOf, Safe, WriterKeyed, InStep, NotAhead, WellFormed, CausesOrdered;
    RunIsOrdered(cfg, run, i);
    NodesAreSetUp(cfg, s);
    TableIsNewestOfHeard(cfg, run, i, n, k);
    TableIsNewestOfHeard(cfg, run, i, w, k);
    var m := HeardIsSigned(cfg, s, n, r);
    assert NodeOrdered(cfg, s.issued, w, s.nodes[w]);
    assert r == Record(m.payload.body, Some(m.bytes));
  }

  // ---------------------------------------------------------------- one hop

  // What the sender can put on the air: an open or closed state, a signature that fits the
  // buffer, and a timestamp below the 32-bit limit.
  predicate Sendable(r: Record) {
    Serializable(r, true) && |r.signature.value| <= MAX_SIGNATURE_SIZE && ClockFitsWire(r.body.timestamp)
  }

  // A node stores a record that can be sent.
  predicate Offers(s: Net, from: NodeId, k: Key) {
    from in s.nodes && k in s.nodes[from].tab.table && Sendable(s.nodes[from].tab.table[k])
  }

  // A node holds the key of another writer.
  predicate Knows(cfg: Config, s: Net, to: NodeId, w: NodeId) {
    to in s.nodes && w != to && w in cfg.keys && w in s.nodes[to].ids.keys
  }

  // A stored record of another node that can be sent and whose writer's key the receiver holds.
  predicate Reaches(cfg: Config, s: Net, from: NodeId, to: NodeId, k: Key) {
    Offers(s, from, k) && Knows(cfg, s, to, s.nodes[from].tab.table[k].body.writer)
  }

  // A node has heard a record and stores one that is at least as new under its key.
  predicate HasArrived(run: Run, l: nat, n: NodeId, r: Record) {
    && l < |run.states| && n in run.states[l].nodes
    && var node := run.states[l].nodes[n];
    && r in node.heard && KeyOf(r.body) in node.tab.table
    && !Tables.Newer(r.body, node.tab.table[KeyOf(r.body)].body)
  }

  // The signature survives transport: a stored record that can be sent at all, broadcast by one
  // node and heard any time later by another that holds the writer's key by then, verifies there
  // and is stored from then on unless something newer is.
  lemma {:induction false} HopDelivers(cfg: Config, run: Run, i: nat, j: nat, l: nat, from: NodeId, to: NodeId, k: Key)
    requires WellFormed(cfg) && IsRun(cfg, run) && Quiet(cfg, run) && i <= j < l < |run.states|
    requires Offers(run.states[i], from, k)
    requires Knows(cfg, run.states[j], to, run.states[i].nodes[from].tab.table[k].body.writer)
    requires run.actions[j] == Deliver(to, EncodeRecord(run.states[i].nodes[from].tab.table[k], true), true)
    ensures
      var r := run.states[i].nodes[from].tab.table[k];
      Gossip.Message(Gossip.Stored(r)) == [EncodeRecord(r, true)] && HasArrived(run, l, to, r)
  {
    hide IsRun, Quiet, WellFormed, Safe, Ordered, EncodeRecord, Gossip.Message, Gossip.Stored, Sendable, Apply, Init,
      DeliverTo, Tables.Newer, KeyOf;
    var r := run.states[i].nodes[from].tab.table[k];
    RunLength(cfg, run);
    StoredIsHeard(cfg, run, i, j, from, k);
    SentArrives(cfg, run, j, from, to, r);
    NodesGrow(cfg, run, j + 1, l, to);
    RunIsOrdered(cfg, run, l);
    HeardIsStored(cfg, run.states[l], to, r);
  }

  lemma RunLength(cfg: Config, run: Run)
    requires IsRun(cfg, run)
    ensures |run.states| == |run.actions| + 1
  {
  }

  lemma StoredIsHeard(cfg: Config, run: Run, i: nat, j: nat, n: NodeId, k: Key)
    requires WellFormed(cfg) && IsRun(cfg, run) && i <= j < |run.states|
    requires n in run.states[i].nodes && k in run.states[i].nodes[n].tab.table
    ensures n in run.states[j].nodes && run.states[i].nodes[n].tab.table[k] in run.states[j].nodes[n].heard
    ensures KeyOf(run.states[i].nodes[n].tab.table[k].body) == k
  {
    hide IsRun, WellFormed, Safe, KeyOf;
    RunIsSafe(cfg, run, i);
    TablesAreKeyed(cfg, run.states[i], n);
    NodesGrow(cfg, run, i, j, n);
  }

  lemma SentArrives(cfg: Config, run: Run, j: nat, from: NodeId, to: NodeId, r: Record)
    requires WellFormed(cfg) && IsRun(cfg, run) && j < |run.actions|
    requires from in run.states[j].nodes && r in run.states[j].nodes[from].heard
    requires Sendable(r) && Knows(cfg, run.states[j], to, r.body.writer)
    requires run.actions[j] == Deliver(to, EncodeRecord(r, true), true)
    ensures Gossip.Message(Gossip.Stored(r)) == [EncodeRecord(r, true)]
    ensures to in run.states[j + 1].nodes && r in run.states[j + 1].nodes[to].heard
  {
    hide WellFormed, Safe, EncodeRecord, Gossip.Message, Gossip.Stored, Apply, Init, DeliverTo;
    RunIsSafe(cfg, run, j);
    SentIsHeard(cfg, run.states[j], from, to, r);
    RunStep(cfg, run, j);
    DeliveryAt(cfg, run.states[j], to, EncodeRecord(r, true));
  }

  lemma DeliveryAt(cfg: Config, s: Net, to: NodeId, message: seq<byte>)
    requires to in s.nodes
    ensures
      var s' := Apply(cfg, s, Deliver(to, message, true));
      to in s'.nodes && s'.nodes[to] == DeliverTo(cfg, s.issued, s.causes, s.nodes[to], message, true)
  {
    hide DeliverTo;
  }

  lemma HeardIsStored(cfg: Config, s: Net, n: NodeId, r: Record)
    requires Ordered(cfg, s) && n in s.nodes && r in s.nodes[n].heard
    ensures
      var table := s.nodes[n].tab.table;
      KeyOf(r.body) in table && !Tables.Newer(r.body, table[KeyOf(r.body)].body)
  {
    hide WriterOrdered, NotAhead, CausesOrdered, KeyOf, Tables.Newer;
    assert NodeOrdered(cfg, s.issued, n, s.nodes[n]);
  }

  lemma SentIsHeard(cfg: Config, s: Net, from: NodeId, to: NodeId, r: Record)
    requires WellFormed(cfg) && Safe(cfg, s) && from in s.nodes && to in s.nodes && r in s.nodes[from].heard
    requires Sendable(r) && r.body.writer != to && r.body.writer in cfg.keys && r.body.writer in s.nodes[to].ids.keys
    ensures
      var message := EncodeRecord(r, true);
      && Gossip.Message(Gossip.Stored(r)) == [message]
      && r in DeliverTo(cfg, s.issued, s.causes, s.nodes[to], message, true).heard
  {
    hide WellFormed, Safe, EncodeRecord, DecodeRecord, RecordVerifies, Sendable, Reception.Hear, Gossip.Message,
      Tables.Supersedes;
    NodesAreSetUp(cfg, s);
    SentDecodes(r);
    StoredVerifiesEverywhere(cfg, s, from, to, r);
    SelfIsKnown(cfg, s, to);
    SentIsBroadcast(r);
  }

  lemma SentDecodes(r: Record)
    requires Sendable(r)
    ensures DecodeRecord(EncodeRecord(r, true), Some(MAX_SIGNATURE_SIZE)) == Some(Decoded(r, |r.signature.value|))
  {
    RecordRoundTrip(r, true, Some(MAX_SIGNATURE_SIZE), []);
    hide EncodeRecord, DecodeRecord;
    assert EncodeRecord(r, true) + [] == EncodeRecord(r, true);
  }

  lemma SentIsBroadcast(r: Record)
    requires Sendable(r) && r.signature.value != []
    ensures Gossip.Message(Gossip.Stored(r)) == [EncodeRecord(r, true)]
  {
    EncodedRecordFits(r);
    hide EncodeRecord;
  }

  // A heard record of a node verifies at every node that holds a key for its writer.
  lemma StoredVerifiesEverywhere(cfg: Config, s: Net, from: NodeId, to: NodeId, r: Record)
    requires WellFormed(cfg) && Safe(cfg, s) && from in s.nodes && to in s.nodes && r in s.nodes[from].heard
    requires r.body.writer in cfg.keys && r.body.writer in s.nodes[to].ids.keys
    ensures RecordVerifies(cfg.kidOf, s.issued, s.nodes[to].ids.keys, r)
    ensures r.signature.value != []
  {
    var w := r.body.writer;
    hide Vouched, SignaturesSafe;
    assert Genuine(cfg, s.issued, from, r);
    var key :| Vouched(cfg, s.issued, from, w, key)
               && Signature(key, RecordPayload(r.body), r.signature.value) in s.issued;
    VouchedIsRight(cfg, s.issued, from, w, key);
    assert NodeSafe(cfg, s.issued, to, s.nodes[to]);
    VouchedIsRight(cfg, s.issued, to, w, s.nodes[to].ids.keys[w]);
  }
}
