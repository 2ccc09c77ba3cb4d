// Over every run of the network, accepted timestamps never push any clock ahead of the furthest
// raw clock, and the 32-bit arithmetic never wraps.
module Drift {
  import opened Types
  import opened Hlc
  import opened Crypto
  import opened Network
  import IdentityStore
  import Reception
  import Tables

  predicate NodeBounded(node: Node, bound: u32) {
    && Sane(node.tab.clock, node.raw)
    && node.raw <= bound
    && node.tab.clock.local.physical <= bound
    && node.raw + Signed(node.tab.clock.offset) <= bound
  }

  // Records under trusted keys, the only ones that can ever verify, are stamped within a bound.
  predicate StampsBounded(cfg: Config, issued: set<Signature>, bound: u32) {
    forall m :: m in issued && m.key in cfg.trusted && m.payload.RecordPayload? ==>
                  m.payload.body.timestamp.physical <= bound
  }

  predicate Bounded(cfg: Config, s: Net, bound: u32) {
    && (forall n :: n in s.nodes ==> NodeBounded(s.nodes[n], bound))
    && StampsBounded(cfg, s.issued, bound)
  }

  lemma IssueKeepsBounded(node: Node, bound: u32)
    requires NodeBounded(node, bound)
    ensures NodeBounded(node.(tab := node.tab.(clock := Issue(node.tab.clock, node.raw))), bound)
  {
    AdjustedIsExact(node.tab.clock, node.raw);
    IssueRefinesIntegers(node.tab.clock, node.raw);
  }

  lemma ReplaceKeepsBounded(cfg: Config, s: Net, s': Net, n: NodeId, bound: u32)
    requires Bounded(cfg, s, bound) && n in s'.nodes && s'.nodes == s.nodes[n := s'.nodes[n]]
    requires NodeBounded(s'.nodes[n], bound) && StampsBounded(cfg, s'.issued, bound)
    ensures Bounded(cfg, s', bound)
  {
    hide NodeBounded, StampsBounded;
  }

  lemma CreateKeepsBounded(cfg: Config, s: Net, bound: u32, n: NodeId, data: RecordData,
                           signature: Option<seq<byte>>, clockReads: bool)
    requires WellFormed(cfg) && s.nodes.Keys == cfg.setup.Keys && n in s.nodes && Bounded(cfg, s, bound)
    ensures Bounded(cfg, CreateAt(cfg, s, n, data, signature, clockReads), bound)
  {
    var node, s' := s.nodes[n], CreateAt(cfg, s, n, data, signature, clockReads);
    var stamp := Tables.NewBody(node.tab, node.raw, data).timestamp;
    assert stamp == Issue(node.tab.clock, node.raw).local;
    CreationOutcome(cfg, s, n, data, signature, clockReads);
    IssueKeepsBounded(node, bound);
    hide CreateAt, Issue, Sane, Attached, WriterKeyed, Tables.NewBody;
    assert NodeBounded(s'.nodes[n], bound);
    assert StampsBounded(cfg, s'.issued, bound);
    hide NodeBounded;
    ReplaceKeepsBounded(cfg, s, s', n, bound);
  }

  // The record a node hears was signed under a trusted key, so its timestamp is bounded.
  lemma HeardIsBounded(cfg: Config, s: Net, bound: u32, n: NodeId, message: seq<byte>, clockReads: bool)
    requires WellFormed(cfg) && Safe(cfg, s) && n in s.nodes && Bounded(cfg, s, bound)
    ensures
      var heard := Heard(cfg, s.issued, s.nodes[n], message, clockReads);
      heard.Some? ==> heard.value.body.timestamp.physical <= bound
  {
    hide Heard, Vouched, NodeSafe, SignaturesSafe, NodeBounded;
    HeardIsGenuine(cfg, s.issued, n, s.nodes[n], message, clockReads);
    var heard := Heard(cfg, s.issued, s.nodes[n], message, clockReads);
    if heard.Some? {
      var r := heard.value;
      var key :| Vouched(cfg, s.issued, n, r.body.writer, key)
                 && Signature(key, RecordPayload(r.body), r.signature.value) in s.issued;
      VouchedIsRight(cfg, s.issued, n, r.body.writer, key);
      assert Signature(key, RecordPayload(r.body), r.signature.value).key in cfg.trusted;
    }
  }

  lemma DeliverKeepsBounded(cfg: Config, s: Net, bound: u32, n: NodeId, message: seq<byte>, clockReads: bool)
    requires WellFormed(cfg) && Safe(cfg, s) && n in s.nodes && Bounded(cfg, s, bound)
    ensures NodeBounded(DeliverTo(cfg, s.issued, s.causes, s.nodes[n], message, clockReads), bound)
  {
    var node := s.nodes[n];
    HeardIsBounded(cfg, s, bound, n, message, clockReads);
    DeliveryIsAMerge(cfg, s.issued, s.causes, node, message, clockReads);
    var heard := Heard(cfg, s.issued, node, message, clockReads);
    if heard.Some? {
      ReceiveRefinesIntegers(node.tab.clock, node.raw, heard.value.body.timestamp);
      ReceiveKeepsBound(node.tab.clock, node.raw, heard.value.body.timestamp, bound);
    }
    hide Safe, WellFormed, Heard, Reception.Hear, Sane, Receive, Tables.Supersedes;
  }

  lemma TickKeepsBounded(cfg: Config, s: Net, bound: u32)
    requires Bounded(cfg, s, bound) && CanTick(s) && bound + 1 < U32
    ensures Bounded(cfg, s.(nodes := TickAll(s.nodes)), bound + 1)
  {
  }

  lemma DeliverStepKeepsBounded(cfg: Config, s: Net, bound: u32, n: NodeId, message: seq<byte>, clockReads: bool)
    requires WellFormed(cfg) && Safe(cfg, s) && n in s.nodes && Bounded(cfg, s, bound)
    ensures Bounded(cfg, DeliverAt(cfg, s, n, message, clockReads), bound)
  {
    hide WellFormed, Safe, DeliverTo, NodeBounded, StampsBounded;
    DeliverKeepsBounded(cfg, s, bound, n, message, clockReads);
    ReplaceKeepsBounded(cfg, s, DeliverAt(cfg, s, n, message, clockReads), n, bound);
  }

  lemma IdentifyKeepsBounded(cfg: Config, s: Net, bound: u32, n: NodeId, message: seq<byte>,
                             storage: IdentityStore.Storage)
    requires n in s.nodes && Bounded(cfg, s, bound)
    ensures Bounded(cfg, IdentifyAt(cfg, s, n, message, storage), bound)
  {
    hide IdentityStore.LearnOn, StampsBounded;
    assert NodeBounded(s.nodes[n], bound);
    ReplaceKeepsBounded(cfg, s, IdentifyAt(cfg, s, n, message, storage), n, bound);
  }

  lemma SignOutsideKeepsBounded(cfg: Config, s: Net, bound: u32, made: Signature)
    requires Bounded(cfg, s, bound) && MaySign(cfg, s, made)
    ensures Bounded(cfg, s.(issued := s.issued + {made}), bound)
  {
    hide Sane;
  }

  lemma CertifyKeepsBounded(cfg: Config, s: Net, bound: u32, payload: seq<byte>, seal: seq<byte>)
    requires WellFormed(cfg) && Bounded(cfg, s, bound)
    ensures Bounded(cfg, CertifyAt(cfg, s, payload, seal), bound)
  {
    hide NodeBounded;
  }

  lemma RawIsKept(cfg: Config, s: Net, n: NodeId, message: seq<byte>, clockReads: bool)
    requires n in s.nodes
    ensures DeliverTo(cfg, s.issued, s.causes, s.nodes[n], message, clockReads).raw == s.nodes[n].raw
  {
    hide Reception.Hear, Heard;
  }

  // Raw clocks move with ticks only.
  lemma RawIsKeptBetweenTicks(cfg: Config, s: Net, a: Action, n: NodeId)
    requires n in s.nodes && !a.Tick?
    ensures n in Apply(cfg, s, a).nodes && Apply(cfg, s, a).nodes[n].raw == s.nodes[n].raw
  {
    hide CreateAt, DeliverTo, DownlinkTo, IdentityStore.LearnOn, Certifiable, MaySign, TickAll, CanTick;
    match a {
      case Create(m, data, signature, clockReads) =>
        if m in s.nodes && m in cfg.keys {
          CreationOutcome(cfg, s, m, data, signature, clockReads);
        }
      case Deliver(m, message, clockReads) =>
        if m in s.nodes {
          RawIsKept(cfg, s, m, message, clockReads);
        }
      case Downlink(m, packet, clockReads) =>
        if m in s.nodes {
          DownlinkStepChangesNothing(s, m, packet, clockReads);
        }
      case _ =>
    }
  }

  lemma ApplyKeepsBounded(cfg: Config, s: Net, a: Action, bound: u32)
    requires WellFormed(cfg) && Safe(cfg, s) && Bounded(cfg, s, bound) && !a.Tick?
    ensures Bounded(cfg, Apply(cfg, s, a), bound)
  {
    hide Safe, WellFormed, Bounded, CreateAt, DeliverTo, DownlinkTo, IdentityStore.LearnOn, Certifiable, MaySign;
    NodesAreSetUp(cfg, s);
    match a {
      case Create(n, data, signature, clockReads) =>
        if n in s.nodes && n in cfg.keys {
          CreateKeepsBounded(cfg, s, bound, n, data, signature, clockReads);
        }
      case Deliver(n, message, clockReads) =>
        if n in s.nodes {
          DeliverStepKeepsBounded(cfg, s, bound, n, message, clockReads);
        }
      case Downlink(n, packet, clockReads) =>
        if n in s.nodes {
          DownlinkStepChangesNothing(s, n, packet, clockReads);
        }
      case Identify(n, message, storage) =>
        if n in s.nodes {
          IdentifyKeepsBounded(cfg, s, bound, n, message, storage);
        }
      case Certify(payload, seal) =>
        if IdentityStore.ROOT_KID in cfg.keys && Certifiable(cfg, payload) {
          CertifyKeepsBounded(cfg, s, bound, payload, seal);
        }
      case SignOutside(made) =>
        if MaySign(cfg, s, made) {
          SignOutsideKeepsBounded(cfg, s, bound, made);
        }
    }
  }

  lemma TickKeepsWithinTop(cfg: Config, s: Net, top: NodeId)
    requires WellFormed(cfg) && s.nodes.Keys == cfg.setup.Keys
    requires top in s.nodes && Bounded(cfg, s, s.nodes[top].raw)
    ensures var s' := Apply(cfg, s, Tick); top in s'.nodes && Bounded(cfg, s', s'.nodes[top].raw)
  {
    hide WellFormed, Bounded;
    if CanTick(s) {
      TickKeepsBounded(cfg, s, s.nodes[top].raw);
    }
  }

  // One step keeps everything within the raw clock of a node that is furthest.
  lemma StepKeepsWithinTop(cfg: Config, s: Net, a: Action, top: NodeId)
    requires WellFormed(cfg) && Safe(cfg, s) && top in s.nodes && Bounded(cfg, s, s.nodes[top].raw)
    ensures var s' := Apply(cfg, s, a); top in s'.nodes && Bounded(cfg, s', s'.nodes[top].raw)
  {
    hide Apply, WellFormed, Safe, Bounded;
    NodesAreSetUp(cfg, s);
    if a.Tick? {
      TickKeepsWithinTop(cfg, s, top);
    } else {
      RawIsKeptBetweenTicks(cfg, s, a, top);
      ApplyKeepsBounded(cfg, s, a, s.nodes[top].raw);
    }
  }

  lemma StartIsBounded(cfg: Config, start: Net, top: NodeId)
    requires Init(cfg, start) && IsFurthest(start, top)
    ensures top in start.nodes && Bounded(cfg, start, start.nodes[top].raw)
  {
  }

  lemma {:induction false} RunIsBounded(cfg: Config, run: Run, i: nat, top: NodeId)
    requires WellFormed(cfg) && IsRun(cfg, run) && i < |run.states|
    requires IsFurthest(run.states[0], top)
    ensures top in run.states[i].nodes && IsFurthest(run.states[i], top)
    ensures Bounded(cfg, run.states[i], run.states[i].nodes[top].raw)
  {
    hide Apply, Safe, Bounded, Init, WellFormed, IsFurthest;
    if i == 0 {
      StartIsBounded(cfg, run.states[0], top);
      BoundedIsFurthest(cfg, run.states[0], top);
    } else {
      RunIsBounded(cfg, run, i - 1, top);
      RunIsSafe(cfg, run, i - 1);
      RunStep(cfg, run, i - 1);
      StepKeepsWithinTop(cfg, run.states[i - 1], run.actions[i - 1], top);
      BoundedIsFurthest(cfg, run.states[i], top);
    }
  }

  predicate IsFurthest(s: Net, top: NodeId) {
    top in s.nodes && forall n :: n in s.nodes ==> s.nodes[n].raw <= s.nodes[top].raw
  }

  lemma BoundedIsFurthest(cfg: Config, s: Net, top: NodeId)
    requires top in s.nodes && Bounded(cfg, s, s.nodes[top].raw)
    ensures IsFurthest(s, top)
  {
    hide Sane, StampsBounded;
  }

  // Some raw clock is furthest.
  lemma {:induction false} FurthestAmong(nodes: map<NodeId, Node>, some: set<NodeId>) returns (top: NodeId)
    requires some <= nodes.Keys && some != {}
    ensures top in some && forall n :: n in some ==> nodes[n].raw <= nodes[top].raw
    decreases |some|
  {
    top :| top in some;
    var rest := some - {top};
    assert forall n :: n in some ==> n == top || n in rest;
    if rest != {} {
      var other := FurthestAmong(nodes, rest);
      if nodes[top].raw < nodes[other].raw {
        top := other;
      }
    }
  }

  // ---------------------------------------------------------------- results

  // Everything a network's clocks show lies within a bound: raw and adjusted clocks, physical
  // parts, and the timestamps of all records that could ever be accepted.
  predicate NoFurtherThan(cfg: Config, s: Net, bound: u32) {
    && (forall n :: n in s.nodes ==>
                      && s.nodes[n].raw <= bound
                      && Adjusted(s.nodes[n].raw, s.nodes[n].tab.clock.offset) <= bound
                      && s.nodes[n].tab.clock.local.physical <= bound)
    && StampsBounded(cfg, s.issued, bound)
  }

  // No network-wide drift: whatever bytes travel and whoever catches up with whom, in every
  // state of every run nothing is ahead of the raw clock that is furthest in that state, and
  // that is always the one that was furthest at the start.
  lemma {:induction false} NoNetworkDrift(cfg: Config, run: Run, i: nat, top: NodeId)
    requires WellFormed(cfg) && IsRun(cfg, run) && i < |run.states|
    requires IsFurthest(run.states[0], top)
    ensures top in run.states[i].nodes && IsFurthest(run.states[i], top)
    ensures NoFurtherThan(cfg, run.states[i], run.states[i].nodes[top].raw)
  {
    hide IsRun, WellFormed, IsFurthest;
    RunIsBounded(cfg, run, i, top);
    BoundedMeansNoFurther(cfg, run.states[i], run.states[i].nodes[top].raw);
  }

  lemma BoundedMeansNoFurther(cfg: Config, s: Net, bound: u32)
    requires Bounded(cfg, s, bound)
    ensures NoFurtherThan(cfg, s, bound)
  {
    hide Sane, Adjusted, StampsBounded;
    forall n | n in s.nodes
      ensures Adjusted(s.nodes[n].raw, s.nodes[n].tab.clock.offset)
           == s.nodes[n].raw + Signed(s.nodes[n].tab.clock.offset)
    {
      assert NodeBounded(s.nodes[n], bound);
      AdjustedIsExact(s.nodes[n].tab.clock, s.nodes[n].raw);
    }
  }

  // In every state of every run the offset lies between -1 and the physical part of the clock
  // and the adjusted clock is not negative, so creating a record and accepting one compute in 32
  // bits what the rules over unbounded integers say, up to the logical counter's end.
  lemma {:induction false} ClocksAreIntegers(cfg: Config, run: Run, i: nat, n: NodeId, ts: Timestamp)
    requires WellFormed(cfg) && IsRun(cfg, run) && i < |run.states| && n in run.states[i].nodes
    ensures ComputesLikeIntegers(run.states[i].nodes[n], ts)
  {
    hide IsRun, WellFormed, ComputesLikeIntegers, IsFurthest, Bounded, Safe;
    RunIsSafe(cfg, run, 0);
    RunIsSafe(cfg, run, i);
    NodesAreSetUp(cfg, run.states[0]);
    NodesAreSetUp(cfg, run.states[i]);
    var top := FurthestAmong(run.states[0].nodes, run.states[0].nodes.Keys);
    assert IsFurthest(run.states[0], top) by {
      FurthestIsFurthest(run.states[0], top);
    }
    RunIsBounded(cfg, run, i, top);
    BoundedComputesLikeIntegers(cfg, run.states[i], run.states[i].nodes[top].raw, n, ts);
  }

  lemma FurthestIsFurthest(s: Net, top: NodeId)
    requires top in s.nodes && forall n :: n in s.nodes.Keys ==> s.nodes[n].raw <= s.nodes[top].raw
    ensures IsFurthest(s, top)
  {
  }

  lemma BoundedComputesLikeIntegers(cfg: Config, s: Net, bound: u32, n: NodeId, ts: Timestamp)
    requires Bounded(cfg, s, bound) && n in s.nodes
    ensures ComputesLikeIntegers(s.nodes[n], ts)
  {
    hide StampsBounded, Sane, ComputesLikeIntegers;
    SaneClocksAreIntegers(s.nodes[n], bound, ts);
  }

  // The clock of a node is a pair of integers with a signed offset, and the next creation and the
  // next acceptance of a timestamp compute in 32 bits what they compute over the integers. A
  // catch-up never passes the timestamp it catches up with.
  predicate ComputesLikeIntegers(node: Node, ts: Timestamp) {
    var c := node.tab.clock;
    && -1 <= Signed(c.offset) <= c.local.physical
    && 0 <= node.raw + Signed(c.offset) == Adjusted(node.raw, c.offset)
    && (c.local.logical < U32 - 1 ==> Abstract(Issue(c, node.raw)) == IntIssue(Abstract(c), node.raw))
    && (c.local.logical < U32 - 1 && ts.logical < U32 - 1 ==>
          Abstract(Receive(c, node.raw, ts)) == IntReceive(Abstract(c), node.raw, ts))
    && (c.local.physical < ts.physical && Adjusted(node.raw, c.offset) <= ts.physical ==>
          0 <= Adjusted(node.raw, Receive(c, node.raw, ts).offset) == ts.physical - 1 - Signed(c.offset) <= ts.physical)
  }

  lemma SaneClocksAreIntegers(node: Node, bound: u32, ts: Timestamp)
    requires NodeBounded(node, bound)
    ensures ComputesLikeIntegers(node, ts)
  {
    AdjustedIsExact(node.tab.clock, node.raw);
    IssueRefinesIntegers(node.tab.clock, node.raw);
    ReceiveRefinesIntegers(node.tab.clock, node.raw, ts);
    hide Adjusted, Receive, Issue, IntReceive, IntIssue;
    if node.tab.clock.local.physical < ts.physical && Adjusted(node.raw, node.tab.clock.offset) <= ts.physical {
      CatchUpAdjustedClock(node.tab.clock, node.raw, ts);
    }
  }
}
