// What complete broadcast passes achieve at nodes that hear all of them.
module Propagation {
  import opened Types
  import opened Keys
  import opened Crypto
  import opened RecordCodec
  import opened Network
  import opened Ordering
  import opened Guarantees
  import opened Gossip
  import opened Hlc
  import IdentityStore
  import MergeOrder
  import Query
  import Store
  import Tables

  // Between states i and l of a run a node hears each of these messages, in any order, how often
  // and whatever else happens in the network.
  predicate HearsAll(run: Run, i: nat, l: nat, to: NodeId, messages: seq<seq<byte>>) {
    forall m :: m in messages ==> HearsOne(run, i, l, to, m)
  }

  predicate HearsOne(run: Run, i: nat, l: nat, to: NodeId, message: seq<byte>) {
    exists j :: i <= j < l && j < |run.actions| && run.actions[j] == Deliver(to, message, true)
  }

  // A replica is at least as new as another under a key.
  predicate CaughtUp(source: map<Key, Record>, replica: map<Key, Record>, k: Key) {
    k in source ==> k in replica && !Tables.Newer(source[k].body, replica[k].body)
  }

  // At step l node b is at least as new as node a was at step i.
  predicate CaughtUpAt(run: Run, i: nat, a: NodeId, l: nat, b: NodeId, k: Key) {
    && i < |run.states| && a in run.states[i].nodes
    && l < |run.states| && b in run.states[l].nodes
    && CaughtUp(run.states[i].nodes[a].tab.table, run.states[l].nodes[b].tab.table, k)
  }

  // At step l node b stores the very record that node a stored at step i.
  predicate SameRecordAt(run: Run, i: nat, a: NodeId, l: nat, b: NodeId, k: Key) {
    && i < |run.states| && a in run.states[i].nodes && k in run.states[i].nodes[a].tab.table
    && l < |run.states| && b in run.states[l].nodes && k in run.states[l].nodes[b].tab.table
    && run.states[l].nodes[b].tab.table[k] == run.states[i].nodes[a].tab.table[k]
  }

  // At step l node n stores under a key what it stored at step i.
  predicate Keeps(run: Run, i: nat, l: nat, n: NodeId, k: Key) {
    && i < |run.states| && n in run.states[i].nodes
    && l < |run.states| && n in run.states[l].nodes
    && StoredAt(run.states[l].nodes[n], k) == StoredAt(run.states[i].nodes[n], k)
  }

  // ---------------------------------------------------------------- a pass

  // A broadcast pass: its query, and the store it runs over in the order the database lists it.
  datatype Pass = Pass(query: Query.TableQuery, kv: map<seq<byte>, Store.Blob>, order: seq<seq<byte>>)

  // What a pass of a node broadcasts.
  function Sent(node: Node, pass: Pass): seq<seq<byte>> {
    Broadcast(node.tab.table, pass.query, pass.order)
  }

  // The store holds the node's table, and no signature is longer than the one visited before.
  ghost predicate IsComplete(node: Node, pass: Pass) {
    && Tables.Represents(pass.kv, node.tab.table) && Store.IsListing(pass.order, pass.kv)
    && NonIncreasing(Store.Selected(pass.order, Query.Compile(pass.query)), node.tab.table, MAX_SIGNATURE_SIZE)
  }

  predicate Selects(pass: Pass, b: Body) {
    Store.Matches(KeyOf(b), Query.Compile(pass.query))
  }

  lemma MatchIsVisited(node: Node, pass: Pass, k: Key)
    requires IsComplete(node, pass) && k in node.tab.table && Selects(pass, node.tab.table[k].body)
    ensures k in PassKeys(node.tab.table, pass.query, pass.order)
  {
    hide PassKeys, NonIncreasing, KeyOf, Tables.Represents, Store.Selected, Store.IsListing, Store.Matches,
      Query.Compile;
    CompletePassVisitsEachMatchOnce(pass.kv, node.tab.table, pass.order, pass.query);
  }

  // The messages of a pass include that of every visited record.
  lemma {:induction false} MessageIsAmong(keys: seq<seq<byte>>, table: map<Key, Record>, k: Key, message: seq<byte>)
    requires k in keys && k in table && message in Message(Stored(table[k]))
    ensures message in Messages(keys, table)
    decreases |keys|
  {
    hide Message, Stored;
    var front, last := keys[..|keys| - 1], keys[|keys| - 1];
    assert keys == front + [last];
    if k != last {
      MessageIsAmong(front, table, k, message);
    }
  }

  // A pass broadcasts the sendable records it visits.
  lemma VisitedIsSent(cfg: Config, s: Net, from: NodeId, to: NodeId, pass: Pass, k: Key)
    requires WellFormed(cfg) && Safe(cfg, s) && Reaches(cfg, s, from, to, k)
    requires k in PassKeys(s.nodes[from].tab.table, pass.query, pass.order)
    ensures EncodeRecord(s.nodes[from].tab.table[k], true) in Sent(s.nodes[from], pass)
  {
    hide WellFormed, Safe, KeyOf, EncodeRecord, Message, Stored, Messages, PassKeys, Sendable;
    var r := s.nodes[from].tab.table[k];
    TablesAreKeyed(cfg, s, from);
    StoredVerifiesEverywhere(cfg, s, from, to, r);
    SendableIsBroadcast(r);
    MessageIsAmong(PassKeys(s.nodes[from].tab.table, pass.query, pass.order), s.nodes[from].tab.table, k,
                   EncodeRecord(r, true));
  }

  lemma SendableIsBroadcast(r: Record)
    requires Sendable(r) && r.signature.value != []
    ensures Serializable(r, true) && Message(Stored(r)) == [EncodeRecord(r, true)]
  {
    SentIsBroadcast(r);
  }

  // What a pass of `from`, begun at step i, makes a listener hear by step l.
  lemma PassArrives(cfg: Config, run: Run, i: nat, l: nat, from: NodeId, to: NodeId, pass: Pass, k: Key)
    requires WellFormed(cfg) && IsRun(cfg, run) && Quiet(cfg, run) && i <= l < |run.states|
    requires Reaches(cfg, run.states[i], from, to, k)
    requires k in PassKeys(run.states[i].nodes[from].tab.table, pass.query, pass.order)
    requires HearsAll(run, i, l, to, Sent(run.states[i].nodes[from], pass))
    ensures HasArrived(run, l, to, run.states[i].nodes[from].tab.table[k])
    ensures KeyOf(run.states[i].nodes[from].tab.table[k].body) == k
  {
    hide WellFormed, Safe, IsRun, Quiet, EncodeRecord, Message, Stored, PassKeys, Sent, KeyOf, HasArrived, Sendable;
    var r := run.states[i].nodes[from].tab.table[k];
    RunIsSafe(cfg, run, i);
    VisitedIsSent(cfg, run.states[i], from, to, pass, k);
    ReachesParts(cfg, run.states[i], from, to, k);
    assert HearsOne(run, i, l, to, EncodeRecord(r, true));
    var j :| i <= j < l && j < |run.actions| && run.actions[j] == Deliver(to, EncodeRecord(r, true), true);
    StillKnows(cfg, run, i, j, to, r.body.writer);
    HopDelivers(cfg, run, i, j, l, from, to, k);
    StoredIsHeard(cfg, run, i, i, from, k);
  }

  lemma ReachesParts(cfg: Config, s: Net, from: NodeId, to: NodeId, k: Key)
    requires Reaches(cfg, s, from, to, k)
    ensures Offers(s, from, k) && Knows(cfg, s, to, s.nodes[from].tab.table[k].body.writer)
    ensures Serializable(s.nodes[from].tab.table[k], true)
  {
  }

  lemma StillKnows(cfg: Config, run: Run, i: nat, j: nat, to: NodeId, w: NodeId)
    requires IsRun(cfg, run) && i <= j < |run.states| && Knows(cfg, run.states[i], to, w)
    ensures Knows(cfg, run.states[j], to, w)
  {
    hide IsRun;
    NodesGrow(cfg, run, i, j, to);
  }

  // A node that hears every message of a pass, whatever else it hears and whatever else happens
  // meanwhile, ends up at least as new as the sender was on every record the pass visits, that
  // can be sent, and whose writer's key it holds. A complete pass visits every match.
  lemma {:induction false} PassBringsUpToDate(cfg: Config, run: Run, i: nat, l: nat, from: NodeId, to: NodeId,
                                              pass: Pass, k: Key)
    requires WellFormed(cfg) && IsRun(cfg, run) && Quiet(cfg, run) && i <= l < |run.states|
    requires Reaches(cfg, run.states[i], from, to, k)
    requires IsComplete(run.states[i].nodes[from], pass)
    requires Selects(pass, run.states[i].nodes[from].tab.table[k].body)
    requires HearsAll(run, i, l, to, Sent(run.states[i].nodes[from], pass))
    ensures CaughtUpAt(run, i, from, l, to, k)
  {
    hide WellFormed, IsRun, Quiet, HearsAll, PassKeys, Sent, IsComplete, Selects, KeyOf, Tables.Newer, Sendable;
    MatchIsVisited(run.states[i].nodes[from], pass, k);
    PassArrives(cfg, run, i, l, from, to, pass, k);
  }

  // Nor does it matter when the pass reads a record: any version sent at or after step i will do.
  lemma {:induction false} LiveReadCatchesUp(cfg: Config, run: Run, i: nat, read: nat, j: nat, l: nat, from: NodeId,
                                             to: NodeId, k: Key)
    requires WellFormed(cfg) && IsRun(cfg, run) && Quiet(cfg, run) && i <= read <= j < l < |run.states|
    requires from in run.states[i].nodes && Offers(run.states[read], from, k)
    requires Knows(cfg, run.states[j], to, run.states[read].nodes[from].tab.table[k].body.writer)
    requires run.actions[j] == Deliver(to, EncodeRecord(run.states[read].nodes[from].tab.table[k], true), true)
    ensures CaughtUpAt(run, i, from, l, to, k)
  {
    hide WellFormed, IsRun, Quiet, EncodeRecord, Message, Stored, KeyOf, Knows, Sendable, Tables.Newer;
    var source, sent := run.states[i].nodes[from].tab.table, run.states[read].nodes[from].tab.table[k];
    HopDelivers(cfg, run, read, j, l, from, to, k);
    StoredIsHeard(cfg, run, read, read, from, k);
    VersionsNeverGoBack(cfg, run, i, read, from, k);
    if k in source && source[k] != sent {
      LaterIsNotOlder(source[k].body, sent.body, run.states[l].nodes[to].tab.table[k].body);
    }
  }

  lemma LaterIsNotOlder(x: Body, y: Body, z: Body)
    requires Tables.Newer(y, x) && !Tables.Newer(y, z)
    ensures !Tables.Newer(x, z)
  {
  }

  // Who is caught up with the writer of a report or an observation holds the writer's version.
  lemma CaughtUpWithWriterIsEqual(cfg: Config, run: Run, l: nat, writer: NodeId, to: NodeId, k: Key)
    requires WellFormed(cfg) && IsRun(cfg, run) && Quiet(cfg, run) && l < |run.states|
    requires writer in run.states[l].nodes && to in run.states[l].nodes
    requires
      var own := run.states[l].nodes[writer].tab.table;
      && k in own && own[k].body.writer == writer && WriterKeyed(own[k].Type())
      && CaughtUp(own, run.states[l].nodes[to].tab.table, k)
    ensures
      var own, replica := run.states[l].nodes[writer].tab.table, run.states[l].nodes[to].tab.table;
      k in replica && replica[k] == own[k]
  {
    hide WellFormed, IsRun, Quiet, Safe, Ordered, KeyOf, WriterKeyed, Tables.Newer;
    var s := run.states[l];
    var mine, theirs := s.nodes[writer].tab.table[k], s.nodes[to].tab.table[k];
    RunIsOrdered(cfg, run, l);
    NodesAreSetUp(cfg, s);
    TableIsNewestOfHeard(cfg, run, l, writer, k);
    TableIsNewestOfHeard(cfg, run, l, to, k);
    WriterOfKey(mine.body, theirs.body);
    WriterDominates(cfg, run, l, to, k);
    NoTies(cfg, s, writer, to, mine, theirs);
  }

  // The same, from an earlier version of the writer that it has not replaced since.
  lemma CaughtUpWithWriter(cfg: Config, run: Run, i: nat, l: nat, writer: NodeId, to: NodeId, k: Key)
    requires WellFormed(cfg) && IsRun(cfg, run) && Quiet(cfg, run) && CaughtUpAt(run, i, writer, l, to, k)
    requires
      var own := run.states[i].nodes[writer].tab.table;
      k in own && own[k].body.writer == writer && WriterKeyed(own[k].Type())
    requires Keeps(run, i, l, writer, k)
    ensures SameRecordAt(run, i, writer, l, to, k)
  {
    hide WellFormed, IsRun, Quiet, WriterKeyed, Tables.Newer;
    CaughtUpWithWriterIsEqual(cfg, run, l, writer, to, k);
  }

  // So when a node hears a complete pass of another node, the two agree on the sender's own
  // reports and observations, unless the sender has put a newer one by then.
  lemma {:induction false} PassByWriterAgrees(cfg: Config, run: Run, i: nat, l: nat, writer: NodeId, to: NodeId,
                                              pass: Pass, k: Key)
    requires WellFormed(cfg) && IsRun(cfg, run) && Quiet(cfg, run) && i <= l < |run.states|
    requires Reaches(cfg, run.states[i], writer, to, k)
    requires IsComplete(run.states[i].nodes[writer], pass)
    requires HearsAll(run, i, l, to, Sent(run.states[i].nodes[writer], pass))
    requires
      var r := run.states[i].nodes[writer].tab.table[k];
      r.body.writer == writer && WriterKeyed(r.Type()) && Selects(pass, r.body)
    requires Keeps(run, i, l, writer, k)
    ensures SameRecordAt(run, i, writer, l, to, k)
  {
    hide WellFormed, IsRun, Quiet, HearsAll, Sent, IsComplete, CaughtUpAt, SameRecordAt, Selects, WriterKeyed,
      Sendable, Keeps;
    PassBringsUpToDate(cfg, run, i, l, writer, to, pass, k);
    CaughtUpWithWriter(cfg, run, i, l, writer, to, k);
  }

  // ---------------------------------------------------------------- passes in both directions

  // A pass of `from`, begun at step i, that `to` hears in full by step l, and that covers a key:
  // if a record is stored there, the query selects it, and `to` wrote it itself or can take it.
  ghost predicate Offered(cfg: Config, run: Run, i: nat, l: nat, from: NodeId, to: NodeId, pass: Pass, k: Key) {
    && i <= l < |run.states| && from in run.states[i].nodes && to in run.states[i].nodes
    && var node := run.states[i].nodes[from];
    && IsComplete(node, pass) && HearsAll(run, i, l, to, Sent(node, pass))
    && (k in node.tab.table ==>
          && Selects(pass, node.tab.table[k].body)
          && (Reaches(cfg, run.states[i], from, to, k)
              || (node.tab.table[k].body.writer == to && WriterKeyed(node.tab.table[k].Type()))))
  }

  // By step l neither node has heard or put a record under a key but what a had at step i and b at
  // step j.
  ghost predicate NothingElse(run: Run, i: nat, a: NodeId, j: nat, b: NodeId, l: nat, k: Key) {
    && i < |run.states| && a in run.states[i].nodes && j < |run.states| && b in run.states[j].nodes
    && l < |run.states| && a in run.states[l].nodes && b in run.states[l].nodes
    && forall r :: r in run.states[l].nodes[a].heard + run.states[l].nodes[b].heard && KeyOf(r.body) == k ==>
                     r in run.states[i].nodes[a].heard + run.states[j].nodes[b].heard
  }

  // A writer has heard all its own reports and observations that are in circulation.
  lemma OwnIsHeard(cfg: Config, s: Net, n: NodeId, w: NodeId, r: Record)
    requires WellFormed(cfg) && Safe(cfg, s) && Ordered(cfg, s) && n in s.nodes && w in s.nodes
    requires r in s.nodes[n].heard && r.body.writer == w && WriterKeyed(r.Type())
    ensures r in s.nodes[w].heard
  {
    hide WellFormed, Safe, KeyOf, WriterKeyed, InStep, CausesOrdered, Newest, NotAhead;
    NodesAreSetUp(cfg, s);
    var m := HeardIsSigned(cfg, s, n, r);
    assert NodeOrdered(cfg, s.issued, w, s.nodes[w]);
    assert r == Record(m.payload.body, Some(m.bytes));
  }

  // What is offered has been heard at the end.
  lemma OfferedIsHeard(cfg: Config, run: Run, i: nat, l: nat, from: NodeId, to: NodeId, pass: Pass, k: Key)
    requires WellFormed(cfg) && IsRun(cfg, run) && Quiet(cfg, run) && Offered(cfg, run, i, l, from, to, pass, k)
    requires k in run.states[i].nodes[from].tab.table
    ensures to in run.states[l].nodes && run.states[i].nodes[from].tab.table[k] in run.states[l].nodes[to].heard
  {
    hide WellFormed, Safe, Ordered, IsRun, Quiet, HearsAll, Sent, IsComplete, Selects, WriterKeyed, KeyOf, Reaches,
      PassKeys;
    var r := run.states[i].nodes[from].tab.table[k];
    NodesGrow(cfg, run, i, l, to);
    if Reaches(cfg, run.states[i], from, to, k) {
      MatchIsVisited(run.states[i].nodes[from], pass, k);
      PassArrives(cfg, run, i, l, from, to, pass, k);
    } else {
      RunIsOrdered(cfg, run, i);
      StoredIsHeard(cfg, run, i, i, from, k);
      OwnIsHeard(cfg, run.states[i], from, to, r);
    }
  }

  // A node that heard what two nodes hold, and nothing they had not heard, stores a newest record
  // of all they heard.
  lemma HoldsNewestOfBoth(a: Node, b: Node, n: Node, k: Key)
    requires HoldsNewest(a, k) && HoldsNewest(b, k) && HoldsNewest(n, k)
    requires forall r :: r in n.heard && KeyOf(r.body) == k ==> r in a.heard + b.heard
    requires k in a.tab.table ==> a.tab.table[k] in n.heard
    requires k in b.tab.table ==> b.tab.table[k] in n.heard
    ensures k in n.tab.table <==> k in a.tab.table || k in b.tab.table
    ensures k in n.tab.table ==> MergeOrder.IsNewest(a.heard + b.heard, k, n.tab.table[k])
  {
    hide KeyOf, Tables.Newer;
    if k in n.tab.table {
      forall r | r in a.heard + b.heard && KeyOf(r.body) == k ensures !Tables.Newer(r.body, n.tab.table[k].body) {
        var best := if r in a.heard then a.tab.table[k] else b.tab.table[k];
        Tables.NewerIsStrictOrder(r.body, n.tab.table[k].body, best.body);
        Tables.NewerIsStrictOrder(best.body, n.tab.table[k].body, best.body);
        NotNewerIsTransitive(r.body, best.body, n.tab.table[k].body);
      }
    }
  }

  lemma NotNewerIsTransitive(x: Body, y: Body, z: Body)
    requires !Tables.Newer(x, y) && !Tables.Newer(y, z)
    ensures !Tables.Newer(x, z)
  {
  }

  // Two nodes, from a and b to a' and b', that heard what the other held and nothing else agree on
  // what one of them held, if of all that was heard one record is newest.
  lemma ExchangeAgrees(a: Node, b: Node, a': Node, b': Node, k: Key)
    requires HoldsNewest(a, k) && HoldsNewest(b, k) && HoldsNewest(a', k) && HoldsNewest(b', k)
    requires forall r :: r in a'.heard + b'.heard && KeyOf(r.body) == k ==> r in a.heard + b.heard
    requires k in a.tab.table ==> a.tab.table[k] in a'.heard && a.tab.table[k] in b'.heard
    requires k in b.tab.table ==> b.tab.table[k] in a'.heard && b.tab.table[k] in b'.heard
    requires MergeOrder.UniqueNewest(a.heard + b.heard, k)
    ensures AgreeOn(a', b', k)
    ensures StoredAt(a', k) == StoredAt(a, k) || StoredAt(b', k) == StoredAt(b, k)
  {
    hide KeyOf, HoldsNewest, MergeOrder.IsNewest;
    HoldsNewestOfBoth(a, b, a', k);
    HoldsNewestOfBoth(a, b, b', k);
    if k in a'.tab.table {
      NewestIsHeld(a, b, a'.tab.table[k], k);
    }
  }

  lemma NewestIsHeld(a: Node, b: Node, x: Record, k: Key)
    requires HoldsNewest(a, k) && HoldsNewest(b, k) && MergeOrder.IsNewest(a.heard + b.heard, k, x)
    requires MergeOrder.UniqueNewest(a.heard + b.heard, k)
    ensures StoredAt(a, k) == Some(x) || StoredAt(b, k) == Some(x)
  {
    hide KeyOf, Tables.Newer;
    var held := if x in a.heard then a.tab.table[k] else b.tab.table[k];
    forall r | r in a.heard + b.heard && KeyOf(r.body) == k ensures !Tables.Newer(r.body, held.body) {
      NotNewerIsTransitive(r.body, x.body, held.body);
    }
    assert MergeOrder.IsNewest(a.heard + b.heard, k, held);
  }

  // Two nodes that have each heard a complete pass of the other, whenever these began, store the
  // same record, and it is one that either of them stored when its pass began, if of all they had
  // heard then one is newest.
  lemma {:induction false} MutualPassesAgree(cfg: Config, run: Run, i: nat, a: NodeId, passA: Pass, j: nat, b: NodeId,
                                             passB: Pass, l: nat, k: Key)
    requires WellFormed(cfg) && IsRun(cfg, run) && Quiet(cfg, run)
    requires Offered(cfg, run, i, l, a, b, passA, k) && Offered(cfg, run, j, l, b, a, passB, k)
    requires NothingElse(run, i, a, j, b, l, k)
    requires MergeOrder.UniqueNewest(run.states[i].nodes[a].heard + run.states[j].nodes[b].heard, k)
    ensures AgreeOn(run.states[l].nodes[a], run.states[l].nodes[b], k)
    ensures Keeps(run, i, l, a, k) || Keeps(run, j, l, b, k)
  {
    hide WellFormed, IsRun, Quiet, Offered, KeyOf, HoldsNewest, MergeOrder.UniqueNewest, AgreeOn;
    OfferedHolds(cfg, run, i, l, a, b, passA, k);
    OfferedHolds(cfg, run, j, l, b, a, passB, k);
    ExchangeAgrees(run.states[i].nodes[a], run.states[j].nodes[b], run.states[l].nodes[a], run.states[l].nodes[b], k);
  }

  // A node still has heard what it held, the node it was offered to has, and both hold a newest.
  lemma OfferedHolds(cfg: Config, run: Run, i: nat, l: nat, from: NodeId, to: NodeId, pass: Pass, k: Key)
    requires WellFormed(cfg) && IsRun(cfg, run) && Quiet(cfg, run) && Offered(cfg, run, i, l, from, to, pass, k)
    ensures i <= l < |run.states| && from in run.states[i].nodes && from in run.states[l].nodes
    ensures HoldsNewest(run.states[i].nodes[from], k) && HoldsNewest(run.states[l].nodes[from], k)
    ensures to in run.states[l].nodes
    ensures
      k in run.states[i].nodes[from].tab.table ==>
        && run.states[i].nodes[from].tab.table[k] in run.states[l].nodes[from].heard
        && run.states[i].nodes[from].tab.table[k] in run.states[l].nodes[to].heard
  {
    hide WellFormed, IsRun, Quiet, KeyOf, HoldsNewest, HearsAll, Sent, IsComplete, Selects, WriterKeyed, Reaches;
    NodesGrow(cfg, run, i, l, from);
    NodesGrow(cfg, run, i, l, to);
    TableIsNewestOfHeard(cfg, run, i, from, k);
    TableIsNewestOfHeard(cfg, run, l, from, k);
    if k in run.states[i].nodes[from].tab.table {
      OfferedIsHeard(cfg, run, i, l, from, to, pass, k);
      StoredIsHeard(cfg, run, i, l, from, k);
    }
  }

  // For reports and observations of a node no such proviso is needed.
  lemma {:induction false} MutualPassesAgreeOnReports(cfg: Config, run: Run, i: nat, a: NodeId, passA: Pass, j: nat,
                                                      b: NodeId, passB: Pass, l: nat, body: Body)
    requires WellFormed(cfg) && IsRun(cfg, run) && Quiet(cfg, run)
    requires WriterKeyed(TypeOf(body.data)) && body.writer in cfg.setup
    requires Offered(cfg, run, i, l, a, b, passA, KeyOf(body)) && Offered(cfg, run, j, l, b, a, passB, KeyOf(body))
    requires NothingElse(run, i, a, j, b, l, KeyOf(body))
    ensures AgreeOn(run.states[l].nodes[a], run.states[l].nodes[b], KeyOf(body))
    ensures Keeps(run, i, l, a, KeyOf(body)) || Keeps(run, j, l, b, KeyOf(body))
  {
    hide WellFormed, Safe, Ordered, IsRun, Quiet, KeyOf, WriterKeyed, OneWriter, MergeOrder.UniqueNewest, AgreeOn,
      Keeps, IsComplete, HearsAll, Reaches, Selects, Sent;
    var heard := run.states[i].nodes[a].heard + run.states[j].nodes[b].heard;
    RunIsOrdered(cfg, run, l);
    NodesGrow(cfg, run, i, l, a);
    NodesGrow(cfg, run, j, l, b);
    KeyNamesTheWriter(heard, body);
    OneWriterIsUnique(cfg, run.states[l], a, b, heard, KeyOf(body), body.writer);
    MutualPassesAgree(cfg, run, i, a, passA, j, b, passB, l, KeyOf(body));
  }

  // ---------------------------------------------------------------- end to end

  // The report a node puts next.
  function NewReport(node: Node, state: GateState, bytes: seq<byte>): Record {
    Record(Tables.NewBody(node.tab, node.raw, ReportData(state)), Some(bytes))
  }

  lemma IsAReport(node: Node, state: GateState, bytes: seq<byte>)
    ensures WriterKeyed(NewReport(node, state, bytes).Type())
    ensures NewReport(node, state, bytes).body.writer == node.tab.self
    ensures NewReport(node, state, bytes).signature == Some(bytes)
  {
  }

  // At step i node a puts a report that can be sent.
  predicate PutAt(cfg: Config, run: Run, i: nat, a: NodeId, state: GateState, bytes: seq<byte>) {
    && i < |run.actions| && |run.states| == |run.actions| + 1
    && a in run.states[i].nodes && bytes != [] && cfg.kidOf(bytes) == Some(a)
    && Sendable(NewReport(run.states[i].nodes[a], state, bytes))
    && run.actions[i] == Create(a, ReportData(state), Some(bytes), true)
  }

  predicate StoresAt(run: Run, l: nat, n: NodeId, r: Record) {
    && l < |run.states| && n in run.states[l].nodes
    && StoredAt(run.states[l].nodes[n], KeyOf(r.body)) == Some(r)
  }

  lemma ReportIsStored(cfg: Config, s: Net, a: NodeId, state: GateState, bytes: seq<byte>)
    requires WellFormed(cfg) && Safe(cfg, s) && a in s.nodes
    requires bytes != [] && cfg.kidOf(bytes) == Some(a)
    ensures
      var r := NewReport(s.nodes[a], state, bytes);
      var s' := Apply(cfg, s, Create(a, ReportData(state), Some(bytes), true));
      r.body.writer == a && a in s'.nodes && StoredAt(s'.nodes[a], KeyOf(r.body)) == Some(r)
  {
    hide WellFormed, Safe, CreateAt, KeyOf, Issue;
    NodesAreSetUp(cfg, s);
    NodeHasKey(cfg, a);
    SelfIsKnown(cfg, s, a);
    CreationOutcome(cfg, s, a, ReportData(state), Some(bytes), true);
  }

  lemma PutIsOffered(cfg: Config, run: Run, i: nat, a: NodeId, state: GateState, bytes: seq<byte>)
    requires WellFormed(cfg) && IsRun(cfg, run) && PutAt(cfg, run, i, a, state, bytes)
    ensures
      var r := NewReport(run.states[i].nodes[a], state, bytes);
      && r.body.writer == a && WriterKeyed(r.Type()) && r.signature == Some(bytes)
      && StoresAt(run, i + 1, a, r) && Offers(run.states[i + 1], a, KeyOf(r.body))
  {
    hide WellFormed, IsRun, Safe, Apply, KeyOf, NewReport, Sendable, WriterKeyed;
    RunIsSafe(cfg, run, i);
    RunStep(cfg, run, i);
    IsAReport(run.states[i].nodes[a], state, bytes);
    ReportIsStored(cfg, run.states[i], a, state, bytes);
  }

  // Later a node that holds the writer's key by then hears a record.
  predicate HeardAt(cfg: Config, run: Run, j: nat, b: NodeId, r: Record) {
    && j < |run.actions| && j < |run.states| && Knows(cfg, run.states[j], b, r.body.writer)
    && Serializable(r, true) && run.actions[j] == Deliver(b, EncodeRecord(r, true), true)
  }

  // A report put at one node and heard any time later by another that holds the writer's key is
  // stored there from then on unless a newer one is; and it is the very report, exactly as it was
  // signed, as long as the writer has put no newer one itself.
  lemma {:induction false} ReportTravels(cfg: Config, run: Run, i: nat, j: nat, l: nat, a: NodeId, b: NodeId,
                                         state: GateState, bytes: seq<byte>)
    requires WellFormed(cfg) && IsRun(cfg, run) && Quiet(cfg, run) && i < j < l < |run.states|
    requires PutAt(cfg, run, i, a, state, bytes)
    requires HeardAt(cfg, run, j, b, NewReport(run.states[i].nodes[a], state, bytes))
    ensures
      var r := NewReport(run.states[i].nodes[a], state, bytes);
      HasArrived(run, l, b, r) && (StoresAt(run, l, a, r) ==> StoresAt(run, l, b, r))
  {
    hide WellFormed, IsRun, Quiet, EncodeRecord, Message, Stored, KeyOf, NewReport, Offers, Knows, WriterKeyed,
      Tables.Newer;
    var r := NewReport(run.states[i].nodes[a], state, bytes);
    PutIsOffered(cfg, run, i, a, state, bytes);
    HopDelivers(cfg, run, i + 1, j, l, a, b, KeyOf(r.body));
    if StoresAt(run, l, a, r) {
      CaughtUpWithWriterIsEqual(cfg, run, l, a, b, KeyOf(r.body));
    }
  }

  function FreshNode(n: NodeId, ring: KeyRing): Node {
    Node(Tables.Tab(n, 0, Hlc.Clock(Timestamp(0, 0), 0), map[]), 0, IdentityStore.Ids(ring, map[], map[]), {}, {})
  }

  const NODE_A: NodeId := [0, 0, 0, 1]
  const NODE_B: NodeId := [0, 0, 1, 2]

  function ExampleConfig(): Config {
    var keys: map<NodeId, seq<byte>> := map[NODE_A := [1], NODE_B := [2], IdentityStore.ROOT_KID := [3]];
    var ring: KeyRing := map[NODE_A := [1], NODE_B := [2]];
    Config(bytes => if |bytes| >= 4 then Some(bytes[..4]) else None, keys,
           map[NODE_A := ring, NODE_B := ring], {[1], [2], [3]})
  }

  lemma ExampleIdsDiffer()
    ensures NODE_A != NODE_B && NODE_A != IdentityStore.ROOT_KID && NODE_B != IdentityStore.ROOT_KID
  {
    assert NODE_A[2] != NODE_B[2] && NODE_A[2] != IdentityStore.ROOT_KID[2] && NODE_B[2] != IdentityStore.ROOT_KID[2];
  }

  lemma ExampleKeysAreDistinct()
    ensures Distinct(ExampleConfig().keys)
  {
    var keys := ExampleConfig().keys;
    ExampleIdsDiffer();
    assert keys[NODE_A][0] == 1 && keys[NODE_B][0] == 2 && keys[IdentityStore.ROOT_KID][0] == 3;
  }

  lemma ExampleIsWellFormed()
    ensures WellFormed(ExampleConfig())
  {
    var cfg := ExampleConfig();
    ExampleIdsDiffer();
    ExampleKeysAreDistinct();
    hide Distinct;
    assert cfg.keys.Keys == {NODE_A, NODE_B, IdentityStore.ROOT_KID};
    assert cfg.setup.Keys == {NODE_A, NODE_B};
    assert {NODE_A, NODE_B} == {NODE_A, NODE_B, IdentityStore.ROOT_KID} - {IdentityStore.ROOT_KID};
  }

  const EVERYTHING := Query.TableQuery(None, None, None)

  // The store of a node that holds one record, and its keys in the order they were written.
  function OneRecordStore(r: Record): map<seq<byte>, Store.Blob> {
    Tables.WriteParts(map[], r)
  }

  function OneRecordOrder(r: Record): seq<seq<byte>> {
    var k := KeyOf(r.body);
    [k, WithKind(k, DataKind), WithKind(k, SignatureLengthKind), WithKind(k, SignatureKind)]
  }

  lemma OneRecordIsListed(r: Record)
    requires Tables.SignatureLength(r) > 0
    ensures Tables.Represents(OneRecordStore(r), map[KeyOf(r.body) := r])
    ensures Store.IsListing(OneRecordOrder(r), OneRecordStore(r))
  {
    var k := KeyOf(r.body);
    Tables.KeyIsHeaderKey(r.body);
    forall i, j ensures WithKind(k, i) == WithKind(k, j) <==> i == j {
      KindsAreDisjoint(k, k, i, j);
    }
    Tables.FourWritesAreOneUpdate(map[], map[], r);
    assert map[][k := r] == map[k := r];
    hide KeyOf, WithKind, Tables.Represents, Tables.HeaderOf;
    var order := OneRecordOrder(r);
    assert order[0] == WithKind(k, HeaderKind) && order[1] == WithKind(k, DataKind)
           && order[2] == WithKind(k, SignatureLengthKind) && order[3] == WithKind(k, SignatureKind);
    assert OneRecordStore(r).Keys == {order[0], order[1], order[2], order[3]};
  }

  lemma EverythingSelects(k: seq<byte>, b: Body)
    ensures Store.WellFormedQuery(Query.Compile(EVERYTHING))
    ensures Store.Matches(KeyOf(b), Query.Compile(EVERYTHING))
    ensures |k| == 10 && !IsHeaderKey(k) ==> !Store.Matches(k, Query.Compile(EVERYTHING))
  {
    Query.CompiledMeaning(b, EVERYTHING);
    if Store.Matches(k, Query.Compile(EVERYTHING)) {
      Query.CompiledSelectsHeaderKeys(k, EVERYTHING);
    }
  }

  lemma OneRecordIsSelected(r: Record)
    ensures Store.WellFormedQuery(Query.Compile(EVERYTHING))
    ensures Store.Selected(OneRecordOrder(r), Query.Compile(EVERYTHING)) == [KeyOf(r.body)]
  {
    var k, order, q := KeyOf(r.body), OneRecordOrder(r), Query.Compile(EVERYTHING);
    forall i | 1 <= i < 4 ensures !Store.Matches(order[i], q) && Store.WellFormedQuery(q) {
      var kind := if i == 1 then DataKind else if i == 2 then SignatureLengthKind else SignatureKind;
      KindsAreDisjoint(k, k, kind, kind);
      EverythingSelects(order[i], r.body);
    }
    EverythingSelects(k, r.body);
    hide Store.Matches, KeyOf, WithKind, Query.Compile;
    assert order[0..] == order;
    assert order[1..][1..] == order[2..];
    assert order[2..][1..] == order[3..];
    assert Store.Selected(order[3..], q) == [];
    assert Store.Selected(order[2..], q) == [];
    assert Store.Selected(order[1..], q) == [];
  }

  lemma OneRecordIsVisited(r: Record)
    requires Tables.SignatureLength(r) <= MAX_SIGNATURE_SIZE
    ensures
      var table: map<Key, Record> := map[KeyOf(r.body) := r];
      && NonIncreasing([KeyOf(r.body)], table, MAX_SIGNATURE_SIZE)
      && Visited([KeyOf(r.body)], table, MAX_SIGNATURE_SIZE) == [KeyOf(r.body)]
      && Messages([KeyOf(r.body)], table) == Message(Stored(r))
  {
    hide KeyOf, Message, Stored;
    var table: map<Key, Record> := map[KeyOf(r.body) := r];
    var none: seq<seq<byte>> := [];
    assert [KeyOf(r.body)][1..] == none && [KeyOf(r.body)][..0] == none;
    VisitedEnds(none, table, Tables.SignatureLength(r));
    MessagesOfNothing(table);
  }

  function OneRecordPassOf(r: Record): Pass {
    Pass(EVERYTHING, OneRecordStore(r), OneRecordOrder(r))
  }

  // A node that holds one sendable record: its pass is complete and broadcasts this record.
  lemma OneRecordPass(node: Node, r: Record)
    requires node.tab.table == map[KeyOf(r.body) := r] && Sendable(r) && r.signature.value != []
    ensures IsComplete(node, OneRecordPassOf(r)) && Selects(OneRecordPassOf(r), r.body)
    ensures Sent(node, OneRecordPassOf(r)) == [EncodeRecord(r, true)]
  {
    hide KeyOf, OneRecordOrder, OneRecordStore, Tables.Represents, Store.IsListing, Store.Selected, Store.Matches,
      EncodeRecord, Message, Stored, Visited, NonIncreasing, Messages, Query.Compile;
    OneRecordIsListed(r);
    OneRecordIsSelected(r);
    OneRecordIsVisited(r);
    EverythingSelects(KeyOf(r.body), r.body);
    SendableIsBroadcast(r);
  }

  function ExampleStart(): Net {
    var ring := ExampleConfig().setup[NODE_A];
    Net(map[NODE_A := FreshNode(NODE_A, ring), NODE_B := FreshNode(NODE_B, ring)], {}, map[])
  }

  lemma ExampleStarts()
    ensures WellFormed(ExampleConfig()) && Init(ExampleConfig(), ExampleStart())
    ensures NODE_A != NODE_B && ExampleConfig().kidOf(NODE_A) == Some(NODE_A)
    ensures NODE_A in ExampleStart().nodes[NODE_B].ids.keys
  {
    ExampleIsWellFormed();
    hide WellFormed;
    ExampleIdsDiffer();
    assert NODE_A[..4] == NODE_A;
  }

  // The report put in the example, signed with four bytes.
  function ExampleReport(): Record {
    NewReport(ExampleStart().nodes[NODE_A], Open, NODE_A)
  }

  function ExampleRun(): Run
    requires Sendable(ExampleReport())
  {
    var put := Create(NODE_A, ReportData(Open), Some(NODE_A), true);
    var hear := Deliver(NODE_B, EncodeRecord(ExampleReport(), true), true);
    var start := ExampleStart();
    var stored := CreateAt(ExampleConfig(), start, NODE_A, put.data, put.signature, true);
    Run([start, stored, DeliverAt(ExampleConfig(), stored, NODE_B, hear.message, true)], [put, hear])
  }

  lemma ExampleReportIsSendable()
    ensures Sendable(ExampleReport()) && ExampleReport().signature == Some(NODE_A)
    ensures QuietStep(ExampleConfig(), ExampleStart(), Create(NODE_A, ReportData(Open), Some(NODE_A), true))
    ensures HasRoomFor(ExampleStart().nodes[NODE_B], ExampleReport().body.timestamp)
  {
    assert ExampleStart().nodes[NODE_A].tab.clock == Clock(Timestamp(0, 0), 0);
    assert ExampleStart().nodes[NODE_B].tab.clock == Clock(Timestamp(0, 0), 0);
  }

  lemma ExampleTable()
    requires Sendable(ExampleReport())
    ensures
      var stored := ExampleRun().states[1];
      && stored.nodes.Keys == {NODE_A, NODE_B}
      && stored.nodes[NODE_A].tab.table == map[KeyOf(ExampleReport().body) := ExampleReport()]
      && stored.nodes[NODE_B] == ExampleStart().nodes[NODE_B]
  {
    ExampleStarts();
    hide WellFormed, Init, CreateAt, KeyOf, Issue, EncodeRecord, DeliverAt, Sendable;
    CreationOutcome(ExampleConfig(), ExampleStart(), NODE_A, ReportData(Open), Some(NODE_A), true);
    OthersUntouched(ExampleConfig(), ExampleStart(), NODE_A, ReportData(Open), Some(NODE_A), true, NODE_B);
  }

  lemma ExampleIsRun()
    requires Sendable(ExampleReport())
    ensures IsRun(ExampleConfig(), ExampleRun())
  {
    ExampleStarts();
    ExampleTable();
    ExampleIdsHaveKeys();
    hide WellFormed, Init, Apply, CreateAt, DeliverAt, EncodeRecord, Sendable, ExampleReport, ExampleConfig,
      ExampleStart;
    var run := ExampleRun();
    AppliesCreate(ExampleConfig(), run.states[0], NODE_A, ReportData(Open), Some(NODE_A), true);
    AppliesDeliver(ExampleConfig(), run.states[1], NODE_B, EncodeRecord(ExampleReport(), true), true);
    TwoStepRun(ExampleConfig(), run.states[0], run.actions[0], run.actions[1]);
  }

  lemma TwoStepRun(cfg: Config, s: Net, a: Action, a': Action)
    requires Init(cfg, s)
    ensures IsRun(cfg, Run([s, Apply(cfg, s, a), Apply(cfg, Apply(cfg, s, a), a')], [a, a']))
  {
    hide Init, Apply;
  }

  lemma AppliesCreate(cfg: Config, s: Net, n: NodeId, data: RecordData, signature: Option<seq<byte>>, clockReads: bool)
    requires n in s.nodes && n in cfg.keys
    ensures Apply(cfg, s, Create(n, data, signature, clockReads)) == CreateAt(cfg, s, n, data, signature, clockReads)
  {
    hide CreateAt;
  }

  lemma AppliesDeliver(cfg: Config, s: Net, n: NodeId, message: seq<byte>, clockReads: bool)
    requires n in s.nodes
    ensures Apply(cfg, s, Deliver(n, message, clockReads)) == DeliverAt(cfg, s, n, message, clockReads)
  {
    hide DeliverAt;
  }

  lemma ExampleIdsHaveKeys()
    ensures NODE_A in ExampleConfig().keys && NODE_A in ExampleStart().nodes && NODE_B in ExampleStart().nodes
  {
  }

  lemma HearingIsQuiet(cfg: Config, s: Net, n: NodeId, r: Record)
    requires n in s.nodes && Sendable(r) && HasRoomFor(s.nodes[n], r.body.timestamp)
    ensures QuietStep(cfg, s, Deliver(n, EncodeRecord(r, true), true))
  {
    SentDecodes(r);
    hide EncodeRecord, DecodeRecord, RecordVerifies, Sendable, HasRoomFor, Tables.Supersedes;
  }

  lemma ExampleSteps()
    requires Sendable(ExampleReport())
    ensures
      var run := ExampleRun();
      && |run.states| == 3 && |run.actions| == 2 && run.states[0] == ExampleStart()
      && run.actions[0] == Create(NODE_A, ReportData(Open), Some(NODE_A), true)
      && run.actions[1] == Deliver(NODE_B, EncodeRecord(ExampleReport(), true), true)
  {
    hide CreateAt, DeliverAt, EncodeRecord, Sendable, ExampleReport, ExampleConfig, ExampleStart;
  }

  lemma ExampleIsQuiet()
    requires Sendable(ExampleReport())
    ensures Quiet(ExampleConfig(), ExampleRun())
  {
    hide ExampleRun, CreateAt, DeliverAt, EncodeRecord, Sendable, ExampleReport, HasRoomFor, ExampleConfig,
      ExampleStart, KeyOf, QuietStep;
    var run := ExampleRun();
    ExampleReportIsSendable();
    ExampleSteps();
    ExampleTable();
    ExampleIdsHaveKeys();
    HearingIsQuiet(ExampleConfig(), run.states[1], NODE_B, ExampleReport());
    assert QuietStep(ExampleConfig(), run.states[0], run.actions[0]);
    assert QuietStep(ExampleConfig(), run.states[1], run.actions[1]);
  }

  lemma ExamplePutIsHeard()
    requires Sendable(ExampleReport())
    ensures PutAt(ExampleConfig(), ExampleRun(), 0, NODE_A, Open, NODE_A)
    ensures HeardAt(ExampleConfig(), ExampleRun(), 1, NODE_B, ExampleReport())
  {
    ExampleStarts();
    ExampleIdsHaveKeys();
    ExampleTable();
    hide WellFormed, Init, CreateAt, DeliverAt, EncodeRecord, Sendable, ExampleConfig, ExampleStart, KeyOf;
  }

  // The state before the report is heard, and the one after.
  lemma ExampleStates()
    requires Sendable(ExampleReport())
    ensures
      var before, after := ExampleRun().states[1], ExampleRun().states[2];
      && NODE_A in before.nodes && NODE_B in before.nodes && before.nodes[NODE_B] == ExampleStart().nodes[NODE_B]
      && NODE_A in after.nodes && NODE_B in after.nodes && after.nodes[NODE_A] == before.nodes[NODE_A]
      && after.nodes[NODE_B].heard <= before.nodes[NODE_B].heard + {ExampleReport()}
  {
    ExampleStarts();
    ExampleTable();
    SentDecodes(ExampleReport());
    hide WellFormed, Init, CreateAt, EncodeRecord, DecodeRecord, RecordVerifies, Sendable, ExampleReport, ExampleConfig,
      ExampleStart, KeyOf, Causes;
  }

  // Node a stores nothing but its record r, node b nothing, and at the next step b hears r.
  predicate OneHop(cfg: Config, run: Run, a: NodeId, b: NodeId, r: Record) {
    && |run.states| == 3 && |run.actions| == 2 && a != b
    && a in run.states[1].nodes && b in run.states[1].nodes && a in run.states[2].nodes && b in run.states[2].nodes
    && run.states[1].nodes[a].tab.table == map[KeyOf(r.body) := r] && run.states[1].nodes[b].tab.table == map[]
    && run.states[2].nodes[a] == run.states[1].nodes[a]
    && Sendable(r) && r.signature.value != [] && r.body.writer == a && a in cfg.keys
    && a in run.states[1].nodes[b].ids.keys
    && run.actions[1] == Deliver(b, EncodeRecord(r, true), true)
  }

  lemma OneHopReaches(cfg: Config, run: Run, a: NodeId, b: NodeId, r: Record)
    requires OneHop(cfg, run, a, b, r)
    ensures Reaches(cfg, run.states[1], a, b, KeyOf(r.body))
    ensures StoresAt(run, 1, a, r) && StoresAt(run, 2, a, r) && Keeps(run, 1, 2, a, KeyOf(r.body))
    ensures HearsOne(run, 1, 2, b, EncodeRecord(r, true))
  {
    hide EncodeRecord, KeyOf;
    assert run.actions[1] == Deliver(b, EncodeRecord(r, true), true);
  }

  // Both have heard a complete pass of the other.
  lemma OneHopIsExchange(cfg: Config, run: Run, a: NodeId, b: NodeId, r: Record)
    requires OneHop(cfg, run, a, b, r)
    ensures Offered(cfg, run, 1, 2, a, b, OneRecordPassOf(r), KeyOf(r.body))
    ensures Offered(cfg, run, 1, 2, b, a, Pass(EVERYTHING, map[], []), KeyOf(r.body))
    ensures HearsAll(run, 1, 2, b, Sent(run.states[1].nodes[a], OneRecordPassOf(r)))
  {
    OneHopReaches(cfg, run, a, b, r);
    hide EncodeRecord, Sendable, KeyOf, IsComplete, Sent, Reaches, Selects, HearsOne;
    OneRecordPass(run.states[1].nodes[a], r);
    EmptyPass(run.states[1].nodes[b]);
  }

  lemma ExampleIsOneHop()
    requires Sendable(ExampleReport())
    ensures OneHop(ExampleConfig(), ExampleRun(), NODE_A, NODE_B, ExampleReport())
  {
    ExampleStarts();
    ExampleIdsHaveKeys();
    ExampleTable();
    ExampleStates();
    ExampleSteps();
    ExampleReportIsSendable();
    ExampleWriter();
    ExampleBIsEmpty();
    hide WellFormed, Init, ExampleRun, EncodeRecord, Sendable, ExampleReport, ExampleConfig, ExampleStart, KeyOf;
  }

  lemma ExampleBIsEmpty()
    ensures NODE_B in ExampleStart().nodes && ExampleStart().nodes[NODE_B].tab.table == map[]
  {
  }

  lemma ExampleWriter()
    ensures ExampleReport().body.writer == NODE_A
  {
  }

  lemma EmptyPass(node: Node)
    requires node.tab.table == map[]
    ensures IsComplete(node, Pass(EVERYTHING, map[], [])) && Sent(node, Pass(EVERYTHING, map[], [])) == []
  {
    hide Query.Compile;
    EverythingIsWellFormed();
    assert Store.Selected([], Query.Compile(EVERYTHING)) == [];
    MessagesOfNothing(map[]);
  }

  lemma EverythingIsWellFormed()
    ensures Store.WellFormedQuery(Query.Compile(EVERYTHING))
  {
  }

  lemma ExampleHeard()
    requires Sendable(ExampleReport())
    ensures NothingElse(ExampleRun(), 1, NODE_A, 1, NODE_B, 2, KeyOf(ExampleReport().body))
  {
    ExampleStarts();
    ExampleStates();
    ExampleIsRun();
    ExampleIsOneHop();
    OneHopReaches(ExampleConfig(), ExampleRun(), NODE_A, NODE_B, ExampleReport());
    hide WellFormed, Init, IsRun, OneHop, CreateAt, DeliverAt, EncodeRecord, Sendable, ExampleReport, ExampleConfig,
      ExampleStart, KeyOf, Reaches, ExampleRun;
    StoredIsHeard(ExampleConfig(), ExampleRun(), 1, 1, NODE_A, KeyOf(ExampleReport().body));
  }

  // The hypotheses of these results can be met: a network of two nodes that know each other, and
  // a run in which one puts a report and the other hears it, as the complete pass it is.
  lemma ReportRunExists() returns (cfg: Config, run: Run, r: Record)
    ensures WellFormed(cfg) && IsRun(cfg, run) && Quiet(cfg, run) && |run.states| == 3
    ensures PutAt(cfg, run, 0, NODE_A, Open, NODE_A) && r == NewReport(run.states[0].nodes[NODE_A], Open, NODE_A)
    ensures HeardAt(cfg, run, 1, NODE_B, r) && StoresAt(run, 2, NODE_A, r)
    ensures r.body.writer == NODE_A && WriterKeyed(r.Type()) && NODE_A in cfg.setup
    ensures Reaches(cfg, run.states[1], NODE_A, NODE_B, KeyOf(r.body))
    ensures IsComplete(run.states[1].nodes[NODE_A], OneRecordPassOf(r)) && Selects(OneRecordPassOf(r), r.body)
    ensures HearsAll(run, 1, 2, NODE_B, Sent(run.states[1].nodes[NODE_A], OneRecordPassOf(r)))
    ensures StoresAt(run, 1, NODE_A, r) && Keeps(run, 1, 2, NODE_A, KeyOf(r.body))
    ensures Offered(cfg, run, 1, 2, NODE_A, NODE_B, OneRecordPassOf(r), KeyOf(r.body))
    ensures exists pass :: Offered(cfg, run, 1, 2, NODE_B, NODE_A, pass, KeyOf(r.body))
    ensures NothingElse(run, 1, NODE_A, 1, NODE_B, 2, KeyOf(r.body))
  {
    hide WellFormed, IsRun, Quiet, Reaches, IsComplete, Sent, HearsAll, Sendable, NewReport, KeyOf, ExampleConfig,
      ExampleStart, Selects, WriterKeyed, Keeps, HeardAt, NothingElse;
    ExampleStarts();
    ExampleReportIsSendable();
    ExampleIsRun();
    ExampleIsQuiet();
    ExamplePutIsHeard();
    ExampleIsOneHop();
    ExampleHeard();
    NodesAreNamed();
    ExampleTable();
    cfg, run, r := ExampleConfig(), ExampleRun(), ExampleReport();
    OneHopReaches(cfg, run, NODE_A, NODE_B, r);
    OneHopIsExchange(cfg, run, NODE_A, NODE_B, r);
    OneRecordPass(run.states[1].nodes[NODE_A], r);
    PutIsOffered(cfg, run, 0, NODE_A, Open, NODE_A);
  }

  lemma NodesAreNamed()
    ensures NODE_A in ExampleConfig().setup
  {
  }
}
