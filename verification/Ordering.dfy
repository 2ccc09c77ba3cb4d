// What runs without counter overflow keep: sequence numbers, timestamps, causality, and the
// newest record under every key.
module Ordering {
  import opened Types
  import opened Keys
  import opened Hlc
  import opened Crypto
  import opened Network
  import IdentityStore
  import MergeOrder
  import Reception
  import Tables

  // ---------------------------------------------------------------- quiet runs

  // The logical counter that a new timestamp increments is not at its end.
  predicate HasRoom(node: Node) {
    Adjusted(node.raw, node.tab.clock.offset) > node.tab.clock.local.physical
    || node.tab.clock.local.logical + 1 < U32
  }

  // The logical counter that an accepted timestamp increments is not at its end.
  predicate HasRoomFor(node: Node, ts: Timestamp) {
    ReferenceCounter(Adjusted(node.raw, node.tab.clock.offset), node.tab.clock.local, ts) != Some(U32 - 1)
  }

  // No counter overflows: a put draws a 64-bit sequence number and, if the clock can be read, a
  // timestamp; a delivery moves the clock only if it brings a record the node takes over.
  predicate QuietStep(cfg: Config, s: Net, a: Action) {
    match a
    case Create(n, _, _, clockReads) =>
      n in s.nodes ==> s.nodes[n].tab.sequence + 1 < U64 && (clockReads ==> HasRoom(s.nodes[n]))
    case Deliver(n, message, clockReads) =>
      n in s.nodes ==> QuietDelivery(cfg, s.issued, s.nodes[n], message, clockReads)
    case _ => true
  }

  predicate QuietDelivery(cfg: Config, issued: set<Signature>, node: Node, message: seq<byte>, clockReads: bool) {
    var heard := Heard(cfg, issued, node, message, clockReads);
    heard.Some? && Tables.Supersedes(node.tab.table, heard.value) ==> HasRoomFor(node, heard.value.body.timestamp)
  }

  ghost predicate Quiet(cfg: Config, run: Run) {
    |run.states| == |run.actions| + 1 &&
    forall i {:trigger run.actions[i]} :: 0 <= i < |run.actions| ==> QuietStep(cfg, run.states[i], run.actions[i])
  }

  // ---------------------------------------------------------------- the invariant

  // m is a record signed with the key of node w.
  predicate SignedBy(cfg: Config, issued: set<Signature>, w: NodeId, m: Signature) {
    w in cfg.keys && m in issued && m.key == cfg.keys[w] && m.payload.RecordPayload?
  }

  // Everything a node signed lies at or below its counters, a stored type is among what it
  // heard, and two signed records with the same number are the same.
  ghost predicate WriterOrdered(cfg: Config, issued: set<Signature>, w: NodeId, node: Node) {
    && (forall m :: SignedBy(cfg, issued, w, m) ==>
                      && m.payload.body.sequence <= node.tab.sequence
                      && !Less(node.tab.clock.local, m.payload.body.timestamp)
                      && (WriterKeyed(TypeOf(m.payload.body.data)) ==>
                            Record(m.payload.body, Some(m.bytes)) in node.heard))
    && (forall m, m' :: SignedBy(cfg, issued, w, m) && SignedBy(cfg, issued, w, m') ==> InStep(m, m'))
  }

  // Sequence order is timestamp order, and no number is used twice.
  predicate InStep(m: Signature, m': Signature)
    requires m.payload.RecordPayload? && m'.payload.RecordPayload?
  {
    && (m.payload.body.sequence == m'.payload.body.sequence ==> m == m')
    && (m.payload.body.sequence < m'.payload.body.sequence ==>
          Less(m.payload.body.timestamp, m'.payload.body.timestamp))
  }

  // Every heard record is matched by a stored one that is no older.
  ghost predicate Newest(heard: set<Record>, table: map<Key, Record>) {
    forall r :: r in heard ==>
                  KeyOf(r.body) in table && !Tables.Newer(r.body, table[KeyOf(r.body)].body)
  }

  ghost predicate NotAhead(past: set<Body>, t: Timestamp) {
    forall b :: b in past ==> !Less(t, b.timestamp)
  }

  ghost predicate CausesOrdered(causes: map<Body, set<Body>>) {
    forall b, c :: b in causes && c in causes[b] ==> Less(c.timestamp, b.timestamp)
  }

  ghost predicate NodeOrdered(cfg: Config, issued: set<Signature>, n: NodeId, node: Node) {
    && WriterOrdered(cfg, issued, n, node)
    && Newest(node.heard, node.tab.table)
    && NotAhead(node.past, node.tab.clock.local)
  }

  ghost predicate Ordered(cfg: Config, s: Net) {
    && CausesOrdered(s.causes)
    && forall n :: n in s.nodes ==> NodeOrdered(cfg, s.issued, n, s.nodes[n])
  }

  // ---------------------------------------------------------------- deliveries

  lemma NewestAfterMerge(heard: set<Record>, table: map<Key, Record>, r: Record)
    requires Newest(heard, table)
    requires forall k: Key :: k in table ==> KeyOf(table[k].body) == k
    ensures Newest(heard + {r}, MergeOrder.Merged(table, r))
  {
    hide KeyOf;
    var table' := MergeOrder.Merged(table, r);
    forall x | x in heard + {r}
      ensures KeyOf(x.body) in table' && !Tables.Newer(x.body, table'[KeyOf(x.body)].body)
    {
      if x in heard && KeyOf(x.body) == KeyOf(r.body) {
        Tables.NewerIsStrictOrder(x.body, r.body, table[KeyOf(r.body)].body);
      } else {
        Tables.NewerIsStrictOrder(r.body, r.body, r.body);
      }
    }
  }

  // An accepted timestamp is below the clock afterwards, and so is everything before it.
  lemma AcceptedIsBelow(node: Node, ts: Timestamp)
    requires HasRoomFor(node, ts)
    ensures
      var after := Receive(node.tab.clock, node.raw, ts).local;
      Less(node.tab.clock.local, after) && Less(ts, after)
  {
    ReceiveIsStrictlyAboveBoth(node.tab.clock, node.raw, ts);
  }

  lemma PastAfterMerge(past: set<Body>, causes: map<Body, set<Body>>, t: Timestamp, t': Timestamp, b: Body)
    requires NotAhead(past, t) && CausesOrdered(causes) && Less(t, t') && Less(b.timestamp, t')
    ensures NotAhead(past + Causes(causes, b), t')
  {
  }

  lemma WriterStaysOrdered(cfg: Config, issued: set<Signature>, w: NodeId, node: Node, node': Node)
    requires WriterOrdered(cfg, issued, w, node)
    requires node.tab.sequence <= node'.tab.sequence && node.heard <= node'.heard
    requires node.tab.clock.local == node'.tab.clock.local || Less(node.tab.clock.local, node'.tab.clock.local)
    ensures WriterOrdered(cfg, issued, w, node')
  {
    hide SignedBy, InStep;
  }

  lemma DeliverKeepsOrdered(cfg: Config, s: Net, n: NodeId, message: seq<byte>, clockReads: bool)
    requires n in s.nodes && CausesOrdered(s.causes) && NodeOrdered(cfg, s.issued, n, s.nodes[n])
    requires forall k: Key :: k in s.nodes[n].tab.table ==> KeyOf(s.nodes[n].tab.table[k].body) == k
    requires QuietStep(cfg, s, Deliver(n, message, clockReads))
    ensures NodeOrdered(cfg, s.issued, n, DeliverTo(cfg, s.issued, s.causes, s.nodes[n], message, clockReads))
  {
    var node := s.nodes[n];
    var node' := DeliverTo(cfg, s.issued, s.causes, node, message, clockReads);
    var heard := Heard(cfg, s.issued, node, message, clockReads);
    DeliveryIsAMerge(cfg, s.issued, s.causes, node, message, clockReads);
    hide WriterOrdered, Newest, NotAhead, CausesOrdered, Heard, Reception.Hear, Receive, KeyOf, Tables.Supersedes,
      Causes;
    if heard.Some? {
      var r := heard.value;
      NewestAfterMerge(node.heard, node.tab.table, r);
      if Tables.Supersedes(node.tab.table, r) {
        AcceptedIsBelow(node, r.body.timestamp);
        PastAfterMerge(node.past, s.causes, node.tab.clock.local, node'.tab.clock.local, r.body);
      }
      WriterStaysOrdered(cfg, s.issued, n, node, node');
    } else {
      assert node' == node;
    }
  }

  // ---------------------------------------------------------------- creations

  // A record heard from a node was signed with that node's key.
  lemma HeardIsSigned(cfg: Config, s: Net, n: NodeId, r: Record) returns (m: Signature)
    requires WellFormed(cfg) && Safe(cfg, s) && n in s.nodes && r in s.nodes[n].heard && r.body.writer in cfg.setup
    ensures r.signature.Some? && m.payload == RecordPayload(r.body) && m.bytes == r.signature.value
    ensures SignedBy(cfg, s.issued, r.body.writer, m)
  {
    hide Vouched, SignaturesSafe;
    assert Genuine(cfg, s.issued, n, r);
    var key :| Vouched(cfg, s.issued, n, r.body.writer, key)
               && Signature(key, RecordPayload(r.body), r.signature.value) in s.issued;
    VouchedIsRight(cfg, s.issued, n, r.body.writer, key);
    NodeHasKey(cfg, r.body.writer);
    m := Signature(key, RecordPayload(r.body), r.signature.value);
  }

  // A stored type's key names its writer.
  lemma WriterOfKey(a: Body, b: Body)
    requires KeyOf(a) == KeyOf(b) && WriterKeyed(TypeOf(a.data))
    ensures a.writer == b.writer && WriterKeyed(TypeOf(b.data))
  {
    KeysAreInjective(a, b);
    hide KeyOf;
  }

  // The own records a node has heard carry no larger number than its counter.
  lemma OwnHeardIsNumbered(cfg: Config, s: Net, n: NodeId, r: Record)
    requires WellFormed(cfg) && Safe(cfg, s) && n in s.nodes && WriterOrdered(cfg, s.issued, n, s.nodes[n])
    requires r in s.nodes[n].heard && r.body.writer == n
    ensures r.body.sequence <= s.nodes[n].tab.sequence
  {
    var m := HeardIsSigned(cfg, s, n, r);
    hide Safe, WellFormed, SignedBy;
  }

  lemma NewestAfterCreate(cfg: Config, s: Net, n: NodeId, r: Record)
    requires WellFormed(cfg) && Safe(cfg, s) && n in s.nodes && NodeOrdered(cfg, s.issued, n, s.nodes[n])
    requires r.body.writer == n && WriterKeyed(r.Type()) && r.body.sequence > s.nodes[n].tab.sequence
    ensures Newest(s.nodes[n].heard + {r}, s.nodes[n].tab.table[KeyOf(r.body) := r])
  {
    hide WellFormed, Safe, KeyOf, WriterOrdered, WriterKeyed;
    var node := s.nodes[n];
    forall x | x in node.heard && KeyOf(x.body) == KeyOf(r.body) ensures x.body.sequence < r.body.sequence {
      WriterOfKey(r.body, x.body);
      OwnHeardIsNumbered(cfg, s, n, x);
    }
    Tables.NewerIsStrictOrder(r.body, r.body, r.body);
  }

  lemma WriterOrderedAfterCreate(cfg: Config, issued: set<Signature>, w: NodeId, node: Node, node': Node, m: Signature)
    requires WriterOrdered(cfg, issued, w, node) && SignedBy(cfg, {m}, w, m)
    requires node.tab.sequence < node'.tab.sequence && Less(node.tab.clock.local, node'.tab.clock.local)
    requires node.heard <= node'.heard
    requires m.payload.body.sequence == node'.tab.sequence && m.payload.body.timestamp == node'.tab.clock.local
    requires WriterKeyed(TypeOf(m.payload.body.data)) ==> Record(m.payload.body, Some(m.bytes)) in node'.heard
    ensures WriterOrdered(cfg, issued + {m}, w, node')
  {
    hide WriterKeyed;
  }

  lemma CausesAfterCreate(causes: map<Body, set<Body>>, past: set<Body>, t: Timestamp, b: Body)
    requires CausesOrdered(causes) && NotAhead(past, t) && Less(t, b.timestamp)
    ensures CausesOrdered(causes[b := past])
    ensures NotAhead(past + {b}, b.timestamp)
  {
  }

  lemma NotAheadLater(past: set<Body>, t: Timestamp, t': Timestamp)
    requires NotAhead(past, t) && (t == t' || Less(t, t'))
    ensures NotAhead(past, t')
  {
  }

  // The counters of a new record, in a quiet step.
  lemma NewCounters(node: Node, data: RecordData)
    requires node.tab.sequence + 1 < U64
    ensures
      var body := Tables.NewBody(node.tab, node.raw, data);
      && body.writer == node.tab.self && body.data == data
      && body.sequence == node.tab.sequence + 1
      && body.timestamp == Issue(node.tab.clock, node.raw).local
      && (HasRoom(node) ==> Less(node.tab.clock.local, body.timestamp))
  {
    NewTimestamp(node, data);
  }

  lemma NewTimestamp(node: Node, data: RecordData)
    ensures HasRoom(node) ==> Less(node.tab.clock.local, Tables.NewBody(node.tab, node.raw, data).timestamp)
  {
    IssueIsStrictlyAboveLocal(node.tab.clock, node.raw);
  }

  lemma CreateKeepsNodeOrdered(cfg: Config, s: Net, n: NodeId, data: RecordData, signature: Option<seq<byte>>,
                               clockReads: bool)
    requires WellFormed(cfg) && Safe(cfg, s) && n in s.nodes
    requires CausesOrdered(s.causes) && NodeOrdered(cfg, s.issued, n, s.nodes[n])
    requires QuietStep(cfg, s, Create(n, data, signature, clockReads))
    ensures
      var s' := CreateAt(cfg, s, n, data, signature, clockReads);
      CausesOrdered(s'.causes) && NodeOrdered(cfg, s'.issued, n, s'.nodes[n])
  {
    var node := s.nodes[n];
    var s' := CreateAt(cfg, s, n, data, signature, clockReads);
    var body := Tables.NewBody(node.tab, node.raw, data);
    NodeHasKey(cfg, n);
    assert node.tab.self == n by {
      NodeKnowsItself(cfg, s.issued, n, node);
    }
    CreationOutcome(cfg, s, n, data, signature, clockReads);
    NewCounters(node, data);
    hide WellFormed, Safe, CreateAt, Tables.NewBody, Issue, KeyOf, WriterOrdered, Newest, NotAhead, CausesOrdered,
      WriterKeyed, Attached;
    if Attached(cfg, n, signature).Some? && clockReads {
      assert signature.Some? by {
        AttachedIsGiven(cfg, n, signature);
      }
      CausesAfterCreate(s.causes, node.past, node.tab.clock.local, body);
      var m := Signature(cfg.keys[n], RecordPayload(body), signature.value);
      assert WriterKeyed(TypeOf(data)) ==> Record(body, Some(m.bytes)) in s'.nodes[n].heard;
      WriterOrderedAfterCreate(cfg, s.issued, n, node, s'.nodes[n], m);
      if WriterKeyed(TypeOf(data)) {
        NewestAfterCreate(cfg, s, n, Record(body, signature));
      }
    } else {
      WriterStaysOrdered(cfg, s.issued, n, node, s'.nodes[n]);
      NotAheadLater(node.past, node.tab.clock.local, s'.nodes[n].tab.clock.local);
    }
  }

  lemma AttachedIsGiven(cfg: Config, n: NodeId, signature: Option<seq<byte>>)
    requires Attached(cfg, n, signature).Some?
    ensures Attached(cfg, n, signature) == signature
  {
  }

  // ---------------------------------------------------------------- every step

  // Signatures under other keys do not concern a writer.
  lemma ForeignSignature(cfg: Config, issued: set<Signature>, m: Signature, n: NodeId, node: Node)
    requires NodeOrdered(cfg, issued, n, node)
    requires n in cfg.keys && m.key == cfg.keys[n] ==> m.payload.IdentityPayload?
    ensures NodeOrdered(cfg, issued + {m}, n, node)
  {
    hide InStep, Newest, NotAhead;
  }

  lemma ReplaceKeepsOrdered(cfg: Config, s: Net, s': Net, n: NodeId)
    requires Ordered(cfg, s) && n in s.nodes && n in s'.nodes && s'.nodes == s.nodes[n := s'.nodes[n]]
    requires s'.issued == s.issued && s'.causes == s.causes
    requires NodeOrdered(cfg, s.issued, n, s'.nodes[n])
    ensures Ordered(cfg, s')
  {
    hide NodeOrdered, CausesOrdered;
  }

  lemma CreateKeepsOrdered(cfg: Config, s: Net, n: NodeId, data: RecordData, signature: Option<seq<byte>>,
                           clockReads: bool)
    requires WellFormed(cfg) && Safe(cfg, s) && Ordered(cfg, s) && n in s.nodes
    requires QuietStep(cfg, s, Create(n, data, signature, clockReads))
    ensures Ordered(cfg, CreateAt(cfg, s, n, data, signature, clockReads))
  {
    var s' := CreateAt(cfg, s, n, data, signature, clockReads);
    NodeHasKey(cfg, n);
    CreateKeepsNodeOrdered(cfg, s, n, data, signature, clockReads);
    CreationOutcome(cfg, s, n, data, signature, clockReads);
    hide CreateAt, Safe, NodeOrdered, CausesOrdered, Tables.NewBody, Issue, KeyOf, Attached, WriterKeyed;
    NodesAreSetUp(cfg, s);
    forall m | m in s'.nodes ensures NodeOrdered(cfg, s'.issued, m, s'.nodes[m]) {
      if m != n && s'.issued != s.issued {
        var body := Tables.NewBody(s.nodes[n].tab, s.nodes[n].raw, data);
        var made := Signature(cfg.keys[n], RecordPayload(body), signature.value);
        ForeignSignature(cfg, s.issued, made, m, s.nodes[m]);
      }
    }
  }

  lemma IssueKeepsOrdered(cfg: Config, s: Net, m: Signature)
    requires Ordered(cfg, s)
    requires forall n :: n in s.nodes && n in cfg.keys && m.key == cfg.keys[n] ==> m.payload.IdentityPayload?
    ensures Ordered(cfg, s.(issued := s.issued + {m}))
  {
    hide NodeOrdered, CausesOrdered;
    forall n | n in s.nodes ensures NodeOrdered(cfg, s.issued + {m}, n, s.nodes[n]) {
      ForeignSignature(cfg, s.issued, m, n, s.nodes[n]);
    }
  }

  lemma OrderIgnores(cfg: Config, issued: set<Signature>, n: NodeId, node: Node, raw: u32, ids: IdentityStore.Ids)
    requires NodeOrdered(cfg, issued, n, node)
    ensures NodeOrdered(cfg, issued, n, node.(raw := raw, ids := ids))
  {
    hide SignedBy, InStep, Newest, NotAhead;
  }

  lemma TickKeepsOrdered(cfg: Config, s: Net)
    requires Ordered(cfg, s) && CanTick(s)
    ensures Ordered(cfg, s.(nodes := TickAll(s.nodes)))
  {
    hide NodeOrdered, CausesOrdered;
    forall n | n in s.nodes ensures NodeOrdered(cfg, s.issued, n, TickAll(s.nodes)[n]) {
      OrderIgnores(cfg, s.issued, n, s.nodes[n], s.nodes[n].raw + 1, s.nodes[n].ids);
    }
  }

  lemma DeliverStepKeepsOrdered(cfg: Config, s: Net, n: NodeId, message: seq<byte>, clockReads: bool)
    requires WellFormed(cfg) && Safe(cfg, s) && Ordered(cfg, s) && n in s.nodes
    requires QuietStep(cfg, s, Deliver(n, message, clockReads))
    ensures Ordered(cfg, DeliverAt(cfg, s, n, message, clockReads))
  {
    var s' := DeliverAt(cfg, s, n, message, clockReads);
    TablesAreKeyed(cfg, s, n);
    hide WellFormed, Safe, NodeOrdered, CausesOrdered, DeliverTo;
    DeliverKeepsOrdered(cfg, s, n, message, clockReads);
    ReplaceKeepsOrdered(cfg, s, s', n);
  }

  lemma TablesAreKeyed(cfg: Config, s: Net, n: NodeId)
    requires WellFormed(cfg) && Safe(cfg, s) && n in s.nodes
    ensures forall k: Key :: k in s.nodes[n].tab.table ==>
                               s.nodes[n].tab.table[k] in s.nodes[n].heard && KeyOf(s.nodes[n].tab.table[k].body) == k
  {
    NodeHasKey(cfg, n);
    hide WellFormed, SignaturesSafe, Vouched, Genuine, KeyOf;
    assert NodeSafe(cfg, s.issued, n, s.nodes[n]);
  }

  lemma IdentifyKeepsOrdered(cfg: Config, s: Net, n: NodeId, message: seq<byte>, storage: IdentityStore.Storage)
    requires Ordered(cfg, s) && n in s.nodes
    ensures Ordered(cfg, IdentifyAt(cfg, s, n, message, storage))
  {
    hide IdentityStore.LearnOn, NodeOrdered, CausesOrdered;
    var ids := IdentityStore.LearnOn(cfg.kidOf, s.issued, s.nodes[n].ids, message, storage).ids;
    OrderIgnores(cfg, s.issued, n, s.nodes[n], s.nodes[n].raw, ids);
    ReplaceKeepsOrdered(cfg, s, s.(nodes := s.nodes[n := s.nodes[n].(ids := ids)]), n);
  }

  lemma CertifyKeepsOrdered(cfg: Config, s: Net, payload: seq<byte>, seal: seq<byte>)
    requires IdentityStore.ROOT_KID in cfg.keys && Ordered(cfg, s)
    ensures Ordered(cfg, CertifyAt(cfg, s, payload, seal))
  {
    hide Ordered;
    IssueKeepsOrdered(cfg, s, Signature(cfg.keys[IdentityStore.ROOT_KID], IdentityPayload(payload), seal));
  }

  lemma SignOutsideKeepsOrdered(cfg: Config, s: Net, made: Signature)
    requires Ordered(cfg, s) && MaySign(cfg, s, made)
    ensures Ordered(cfg, s.(issued := s.issued + {made}))
  {
    hide Ordered;
    IssueKeepsOrdered(cfg, s, made);
  }

  predicate AtANode(a: Action) {
    a.Create? || a.Deliver? || a.Downlink? || a.Identify?
  }

  lemma NodeStepKeepsOrdered(cfg: Config, s: Net, a: Action)
    requires WellFormed(cfg) && Safe(cfg, s) && Ordered(cfg, s) && QuietStep(cfg, s, a) && AtANode(a)
    ensures Ordered(cfg, Apply(cfg, s, a))
  {
    hide Safe, WellFormed, Ordered, CreateAt, DeliverTo, DownlinkTo, IdentityStore.LearnOn, QuietStep;
    NodesAreSetUp(cfg, s);
    match a {
      case Create(n, data, signature, clockReads) =>
        if n in s.nodes && n in cfg.keys {
          CreateKeepsOrdered(cfg, s, n, data, signature, clockReads);
        }
      case Deliver(n, message, clockReads) =>
        if n in s.nodes {
          DeliverStepKeepsOrdered(cfg, s, n, message, clockReads);
        }
      case Downlink(n, packet, clockReads) =>
        if n in s.nodes {
          DownlinkStepChangesNothing(s, n, packet, clockReads);
        }
      case Identify(n, message, storage) =>
        if n in s.nodes {
          IdentifyKeepsOrdered(cfg, s, n, message, storage);
        }
    }
  }

  lemma ApplyKeepsOrdered(cfg: Config, s: Net, a: Action)
    requires WellFormed(cfg) && Safe(cfg, s) && Ordered(cfg, s) && QuietStep(cfg, s, a)
    ensures Ordered(cfg, Apply(cfg, s, a))
  {
    hide Safe, WellFormed, Ordered, Certifiable, MaySign, TickAll, CanTick, QuietStep;
    NodesAreSetUp(cfg, s);
    if AtANode(a) {
      hide Apply;
      NodeStepKeepsOrdered(cfg, s, a);
    } else if a.Tick? {
      if CanTick(s) {
        TickKeepsOrdered(cfg, s);
      }
    } else if a.Certify? {
      if IdentityStore.ROOT_KID in cfg.keys && Certifiable(cfg, a.payload) {
        CertifyKeepsOrdered(cfg, s, a.payload, a.seal);
      }
    } else if MaySign(cfg, s, a.made) {
      SignOutsideKeepsOrdered(cfg, s, a.made);
    }
  }

  lemma StartIsOrdered(cfg: Config, start: Net)
    requires Init(cfg, start)
    ensures Ordered(cfg, start)
  {
  }

  lemma {:induction false} RunIsOrdered(cfg: Config, run: Run, i: nat)
    requires WellFormed(cfg) && IsRun(cfg, run) && Quiet(cfg, run) && i < |run.states|
    ensures Safe(cfg, run.states[i]) && Ordered(cfg, run.states[i])
  {
    hide Apply, Safe, Ordered, Init, WellFormed, QuietStep;
    RunIsSafe(cfg, run, i);
    if i == 0 {
      StartIsOrdered(cfg, run.states[0]);
    } else {
      RunIsOrdered(cfg, run, i - 1);
      RunStep(cfg, run, i - 1);
      assert QuietStep(cfg, run.states[i - 1], run.actions[i - 1]);
      ApplyKeepsOrdered(cfg, run.states[i - 1], run.actions[i - 1]);
    }
  }
}
