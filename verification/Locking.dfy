// Threads that put and get records through one lock, one store access at a time.
module Locking {
  import opened Types
  import opened Keys
  import opened Hlc
  import opened Store
  import opened Tables

  // ---------------------------------------------------------------- single store accesses

  function Lookup(kv: Content, key: seq<byte>): Option<Blob> {
    if key in kv then Some(kv[key]) else None
  }

  type Answers = seq<Option<Blob>>

  // Whether a read that got these answers stops here: after a failed access, a signature too
  // long for the caller's buffer, or the last part it needs.
  predicate ReadEnds(answers: Answers, capacity: Option<nat>) {
    || |answers| >= 4
    || (|answers| > 0 && answers[|answers| - 1].None?)
    || (|answers| == 3 && !WantsSignature(answers[2], capacity))
  }

  predicate WantsSignature(length: Option<Blob>, capacity: Option<nat>) {
    length.Some? && length.value.LengthBlob? && capacity.Some? && 0 < length.value.length <= capacity.value
  }

  // What a finished read hands back.
  function Answer(answers: Answers, capacity: Option<nat>): Option<Retrieved> {
    if |answers| < 3 || answers[0].None? || answers[1].None? || answers[2].None?
       || !answers[0].value.HeaderBlob? || !answers[1].value.DataBlob? || !answers[2].value.LengthBlob? then None
    else
      var h, n := answers[0].value, answers[2].value.length;
      var body := Body(h.writer, h.sequence, h.timestamp, answers[1].value.data);
      if capacity.Some? && n > capacity.value then None
      else if capacity.None? || n == 0 then Some(Retrieved(body, n, None))
      else if |answers| == 4 && answers[3].Some? && answers[3].value.SignatureBlob? then
        Some(Retrieved(body, n, Some(answers[3].value.bytes)))
      else None
  }

  // ---------------------------------------------------------------- threads

  datatype Job =
    | Idle
    | Putting(record: Record, peek: Option<nat>, written: nat)
    | Getting(key: Key, capacity: Option<nat>, answers: Answers)
    | Peeking(key: Key, header: Answers)
    | Merging(record: Record, verified: bool, header: Answers)

  datatype Event =
    | PutDone(record: Record, peek: Option<nat>)
    | GetDone(key: Key, capacity: Option<nat>, result: Option<Retrieved>)
    | PeekDone(key: Key, header: Option<Blob>)

  // The log lists finished operations in the order in which they gave up the lock. A put that
  // belongs to a merge knows where in the log the merge's header read is.
  datatype System = System(kv: Content, owner: Option<nat>, jobs: map<nat, Job>, log: seq<Event>)

  const START := System(map[], None, map[], [])

  function JobOf(s: System, t: nat): Job {
    if t in s.jobs then s.jobs[t] else Idle
  }

  datatype Move =
    | StartPut(thread: nat, record: Record)
    | StartGet(thread: nat, key: Key, capacity: Option<nat>)
    | StartPeek(thread: nat, key: Key)
    | StartMerge(thread: nat, record: Record, verified: bool)
    | Advance(thread: nat)

  function Update(s: System, t: nat, job: Job): System {
    s.(jobs := s.jobs[t := job])
  }

  // Gives up the lock and goes on with another job.
  function Release(s: System, t: nat, event: Event, next: Job): System {
    s.(owner := None, jobs := s.jobs[t := next], log := s.log + [event])
  }

  // How a merge decides on the header it peeked at.
  predicate Decides(header: Option<Blob>, r: Record) {
    header.None? ||
    (header.value.HeaderBlob?
     && (r.body.sequence > header.value.sequence
         || (r.body.sequence == header.value.sequence && Less(header.value.timestamp, r.body.timestamp))))
  }

  // A merge that decided to write, and whose record verifies, goes on to put it.
  function AfterPeek(s: System, r: Record, verified: bool, header: Option<Blob>): Job {
    if verified && Decides(header, r) then Putting(r, Some(|s.log|), 0) else Idle
  }

  // One access, or the unlock, of the thread that holds the lock.
  function Access(s: System, t: nat): System {
    match JobOf(s, t)
    case Idle => s
    case Putting(r, peek, n) =>
      if n < PartCount(r) then Update(s, t, Putting(r, peek, n + 1)).(kv := WritePart(s.kv, r, n))
      else Release(s, t, PutDone(r, peek), Idle)
    case Getting(key, capacity, answers) =>
      if ReadEnds(answers, capacity) then Release(s, t, GetDone(key, capacity, Answer(answers, capacity)), Idle)
      else Update(s, t, Getting(key, capacity, answers + [Lookup(s.kv, WithKind(key, PARTS[|answers|]))]))
    case Peeking(key, header) =>
      if header != [] then Release(s, t, PeekDone(key, header[0]), Idle)
      else Update(s, t, Peeking(key, [Lookup(s.kv, WithKind(key, HeaderKind))]))
    case Merging(r, verified, header) =>
      var key := KeyOf(r.body);
      if header != [] then Release(s, t, PeekDone(key, header[0]), AfterPeek(s, r, verified, header[0]))
      else Update(s, t, Merging(r, verified, [Lookup(s.kv, WithKind(key, HeaderKind))]))
  }

  function Apply(s: System, m: Move): System {
    match m
    case StartPut(t, r) => if JobOf(s, t).Idle? then Update(s, t, Putting(r, None, 0)) else s
    case StartGet(t, key, capacity) => if JobOf(s, t).Idle? then Update(s, t, Getting(key, capacity, [])) else s
    case StartPeek(t, key) => if JobOf(s, t).Idle? then Update(s, t, Peeking(key, [])) else s
    case StartMerge(t, r, verified) =>
      if JobOf(s, t).Idle? && !IsEncounter(r.Type()) then Update(s, t, Merging(r, verified, [])) else s
    case Advance(t) =>
      if JobOf(s, t).Idle? then s
      else if s.owner == None then s.(owner := Some(t))
      else if s.owner == Some(t) then Access(s, t)
      else s
  }

  function Run(moves: seq<Move>): System {
    if moves == [] then START else Apply(Run(moves[..|moves| - 1]), moves[|moves| - 1])
  }

  // ---------------------------------------------------------------- atomic histories

  // The table after a list of operations that happen one at a time.
  function TableAfter(log: seq<Event>): map<Key, Record> {
    if log == [] then map[]
    else
      var before, last := TableAfter(log[..|log| - 1]), log[|log| - 1];
      if last.PutDone? then before[KeyOf(last.record.body) := last.record] else before
  }

  // The answer an operation gives when it happens at once.
  predicate Atomic(table: map<Key, Record>, e: Event) {
    match e
    case PutDone(_, _) => true
    case GetDone(key, capacity, result) => result == Retrieve(table, WithKind(key, HeaderKind), capacity)
    case PeekDone(key, header) =>
      var k := WithKind(key, HeaderKind);
      header == if k in table then Some(HeaderOf(table[k].body)) else None
  }

  ghost predicate AllAtomic(log: seq<Event>) {
    forall i :: 0 <= i < |log| ==> Atomic(TableAfter(log[..i]), log[i])
  }

  // ---------------------------------------------------------------- the invariant

  // The answers so far are what the store holds for the first parts.
  predicate AnswersFrom(kv: Content, key: Key, answers: Answers) {
    |answers| <= 4 && forall i :: 0 <= i < |answers| ==> answers[i] == Lookup(kv, WithKind(key, PARTS[i]))
  }

  // Every answer but the last was there, and the signature was only asked for if wanted.
  predicate Proceeds(answers: Answers, capacity: Option<nat>) {
    && (forall i :: 0 <= i < |answers| - 1 ==> answers[i].Some?)
    && (|answers| == 4 ==> WantsSignature(answers[2], capacity))
  }

  predicate Unstarted(job: Job) {
    match job
    case Idle => true
    case Putting(_, _, n) => n == 0
    case Getting(_, _, answers) => answers == []
    case Peeking(_, header) => header == []
    case Merging(_, _, header) => header == []
  }

  // The holder of the lock is partway through its accesses since the store stood at `base`.
  predicate Partway(kv: Content, base: Content, job: Job) {
    match job
    case Idle => false
    case Putting(r, _, n) => n <= PartCount(r) && kv == Written(base, r, n)
    case Getting(key, capacity, answers) =>
      kv == base && AnswersFrom(kv, key, answers) && Proceeds(answers, capacity)
    case Peeking(key, header) => kv == base && |header| <= 1 && AnswersFrom(kv, key, header)
    case Merging(r, _, header) => kv == base && |header| <= 1 && AnswersFrom(kv, KeyOf(r.body), header)
  }

  // `base` is the content at the last unlock.
  ghost predicate Inv(s: System, base: Content) {
    && Represents(base, TableAfter(s.log))
    && AllAtomic(s.log)
    && (forall t: nat :: s.owner != Some(t) ==> Unstarted(JobOf(s, t)))
    && (match s.owner
        case None => s.kv == base
        case Some(t) => Partway(s.kv, base, JobOf(s, t)))
  }

  // A read whose accesses all fell into one lock period is an atomic read.
  lemma UndisturbedReadIsAtomic(kv: Content, table: map<Key, Record>, key: Key, capacity: Option<nat>, answers: Answers)
    requires Represents(kv, table)
    requires AnswersFrom(kv, key, answers) && Proceeds(answers, capacity) && ReadEnds(answers, capacity)
    ensures Answer(answers, capacity) == Retrieve(table, WithKind(key, HeaderKind), capacity)
  {
    hide WithKind, KeyOf;
    var k := WithKind(key, HeaderKind);
    KindOfHeader(key);
    assert PARTS[0] == HeaderKind && PARTS[1] == DataKind;
    assert PARTS[2] == SignatureLengthKind && PARTS[3] == SignatureKind;
    if k in table {
      assert Holds(kv, k, table[k]);
      assert answers[0] == Some(HeaderOf(table[k].body));
    } else {
      assert k !in kv;
      assert answers[0].None?;
    }
  }

  lemma KindOfHeader(key: Key)
    ensures IsHeaderKey(WithKind(key, HeaderKind))
    ensures forall i :: WithKind(WithKind(key, HeaderKind), i) == WithKind(key, i)
  {
    forall i ensures WithKind(WithKind(key, HeaderKind), i) == WithKind(key, i) {
      assert key[1 := KindCode(HeaderKind)][1 := KindCode(i)] == key[1 := KindCode(i)];
    }
  }

  lemma PeekIsAtomic(kv: Content, table: map<Key, Record>, key: Key)
    requires Represents(kv, table)
    ensures Atomic(table, PeekDone(key, Lookup(kv, WithKind(key, HeaderKind))))
  {
    var k := WithKind(key, HeaderKind);
    assert IsHeaderKey(k);
    if k in table {
      assert Holds(kv, k, table[k]);
    }
  }

  lemma LogGrows(log: seq<Event>, e: Event)
    requires AllAtomic(log) && Atomic(TableAfter(log), e)
    ensures AllAtomic(log + [e])
    ensures TableAfter(log + [e]) ==
            if e.PutDone? then TableAfter(log)[KeyOf(e.record.body) := e.record] else TableAfter(log)
  {
    hide Atomic;
    assert (log + [e])[..|log|] == log;
    forall i | 0 <= i < |log + [e]| ensures Atomic(TableAfter((log + [e])[..i]), (log + [e])[i]) {
      assert i < |log| ==> (log + [e])[..i] == log[..i];
    }
  }

  lemma AccessKeepsInv(s: System, base: Content, t: nat) returns (base': Content)
    requires Inv(s, base) && s.owner == Some(t)
    ensures Inv(Access(s, t), base')
  {
    hide Represents, Atomic, AllAtomic, TableAfter, WithKind, KeyOf, Retrieve, Answer, WriteParts;
    base' := base;
    match JobOf(s, t) {
      case Putting(r, peek, n) =>
        if n < PartCount(r) {
        } else {
          hide Written;
          WrittenIsWriteParts(base, r);
          FourWritesAreOneUpdate(base, TableAfter(s.log), r);
          PutIsAtomic(TableAfter(s.log), r, peek);
          LogGrows(s.log, PutDone(r, peek));
          base' := s.kv;
        }
      case Getting(key, capacity, answers) =>
        hide ReadEnds;
        if ReadEnds(answers, capacity) {
          UndisturbedReadIsAtomic(base, TableAfter(s.log), key, capacity, answers);
          var e := GetDone(key, capacity, Answer(answers, capacity));
          GetIsAtomic(TableAfter(s.log), key, capacity, Answer(answers, capacity));
          LogGrows(s.log, e);
        } else {
          NextAnswer(s.kv, key, capacity, answers);
        }
      case Peeking(key, header) =>
        if header != [] {
          PeekIsAtomic(base, TableAfter(s.log), key);
          LogGrows(s.log, PeekDone(key, header[0]));
        }
      case Merging(r, verified, header) =>
        if header != [] {
          PeekIsAtomic(base, TableAfter(s.log), KeyOf(r.body));
          LogGrows(s.log, PeekDone(KeyOf(r.body), header[0]));
        }
    }
  }

  lemma PutIsAtomic(table: map<Key, Record>, r: Record, peek: Option<nat>)
    ensures Atomic(table, PutDone(r, peek))
  {
  }

  lemma GetIsAtomic(table: map<Key, Record>, key: Key, capacity: Option<nat>, result: Option<Retrieved>)
    requires result == Retrieve(table, WithKind(key, HeaderKind), capacity)
    ensures Atomic(table, GetDone(key, capacity, result))
  {
  }

  lemma NextAnswer(kv: Content, key: Key, capacity: Option<nat>, answers: Answers)
    requires AnswersFrom(kv, key, answers) && Proceeds(answers, capacity) && !ReadEnds(answers, capacity)
    ensures |answers| < 4
    ensures
      var answers' := answers + [Lookup(kv, WithKind(key, PARTS[|answers|]))];
      AnswersFrom(kv, key, answers') && Proceeds(answers', capacity)
  {
  }

  lemma ApplyKeepsInv(s: System, base: Content, m: Move) returns (base': Content)
    requires Inv(s, base)
    ensures Inv(Apply(s, m), base')
  {
    base' := base;
    hide Represents, AllAtomic, TableAfter, Access;
    if m.Advance? && s.owner == Some(m.thread) && !JobOf(s, m.thread).Idle? {
      hide Inv;
      base' := AccessKeepsInv(s, base, m.thread);
    }
  }

  lemma {:induction false} RunKeepsInv(moves: seq<Move>) returns (base: Content)
    ensures Inv(Run(moves), base)
    decreases |moves|
  {
    if moves == [] {
      base := map[];
    } else {
      hide Inv, Apply;
      base := RunKeepsInv(moves[..|moves| - 1]);
      base := ApplyKeepsInv(Run(moves[..|moves| - 1]), base, moves[|moves| - 1]);
    }
  }

  // ---------------------------------------------------------------- no torn record

  // However the accesses of any number of threads interleave, every finished operation answers
  // as if the operations had happened one at a time, in the order of their unlocks.
  lemma {:induction false} LockedOperationsAreAtomic(moves: seq<Move>)
    ensures AllAtomic(Run(moves).log)
  {
    var base := RunKeepsInv(moves);
  }

  // The latest put before position i under a key.
  ghost predicate LatestPut(log: seq<Event>, i: nat, key: Key, j: nat) {
    && j < i <= |log|
    && log[j].PutDone? && KeyOf(log[j].record.body) == key
    && forall k :: j < k < i && log[k].PutDone? ==> KeyOf(log[k].record.body) != key
  }

  lemma {:induction false} TableHoldsLatestPut(log: seq<Event>, key: Key) returns (j: nat)
    requires key in TableAfter(log)
    ensures LatestPut(log, |log|, key, j) && TableAfter(log)[key] == log[j].record
    decreases |log|
  {
    hide KeyOf;
    var front, last := log[..|log| - 1], log[|log| - 1];
    if last.PutDone? && KeyOf(last.record.body) == key {
      j := |log| - 1;
    } else {
      j := TableHoldsLatestPut(front, key);
      assert log[j] == front[j];
      forall k | j < k < |log| && log[k].PutDone? ensures KeyOf(log[k].record.body) != key {
        assert k < |front| ==> log[k] == front[k];
      }
    }
  }

  // Hence no torn record: body, length and signature of a read all stem from the one latest
  // put under its key.
  lemma {:induction false} NoTornRead(moves: seq<Move>, i: nat) returns (j: nat)
    requires i < |Run(moves).log| && Run(moves).log[i].GetDone? && Run(moves).log[i].result.Some?
    ensures
      var log := Run(moves).log;
      var got := log[i].result.value;
      && LatestPut(log, i, WithKind(log[i].key, HeaderKind), j)
      && got.body == log[j].record.body
      && got.signatureLength == SignatureLength(log[j].record)
      && (got.signature.Some? ==> got.signature == log[j].record.signature)
  {
    hide Run, LatestPut;
    var log := Run(moves).log;
    LockedOperationsAreAtomic(moves);
    assert Atomic(TableAfter(log[..i]), log[i]);
    j := TableHoldsLatestPut(log[..i], WithKind(log[i].key, HeaderKind));
    LatestPutInPrefix(log, i, WithKind(log[i].key, HeaderKind), j);
  }

  lemma LatestPutInPrefix(log: seq<Event>, i: nat, key: Key, j: nat)
    requires i <= |log| && LatestPut(log[..i], |log[..i]|, key, j)
    ensures LatestPut(log, i, key, j) && log[..i][j] == log[j]
  {
    forall k | j < k < i && log[k].PutDone? ensures KeyOf(log[k].record.body) != key {
      assert log[..i][k] == log[k];
    }
  }

  // ---------------------------------------------------------------- a merge is two operations

  predicate NoPutBetween(log: seq<Event>, p: nat, i: nat, key: Key) {
    forall j :: p < j < i <= |log| && log[j].PutDone? ==> KeyOf(log[j].record.body) != key
  }

  lemma {:induction false} TableKeptBetween(log: seq<Event>, p: nat, i: nat, key: Key)
    requires p < i <= |log| && NoPutBetween(log, p, i, key) && !log[p].PutDone?
    ensures key in TableAfter(log[..p]) <==> key in TableAfter(log[..i])
    ensures key in TableAfter(log[..p]) ==> TableAfter(log[..p])[key] == TableAfter(log[..i])[key]
    decreases i
  {
    assert log[..i][..i - 1] == log[..i - 1];
    if i > p + 1 {
      TableKeptBetween(log, p, i - 1, key);
    }
  }

  lemma {:induction false} PutStaysInTable(log: seq<Event>, i: nat, j: nat)
    requires j < i <= |log| && log[j].PutDone?
    ensures KeyOf(log[j].record.body) in TableAfter(log[..i])
    decreases i
  {
    hide KeyOf;
    assert log[..i][..i - 1] == log[..i - 1];
    if j < i - 1 {
      PutStaysInTable(log, i - 1, j);
    }
  }

  // A record may replace what is stored exactly if it is newer than the latest put under its key.
  lemma SupersedesLatestIff(log: seq<Event>, i: nat, r: Record)
    requires i <= |log|
    ensures Supersedes(TableAfter(log[..i]), r) <==>
            forall j: nat :: LatestPut(log, i, KeyOf(r.body), j) ==> Newer(r.body, log[j].record.body)
  {
    hide KeyOf, Newer;
    var table, key := TableAfter(log[..i]), KeyOf(r.body);
    if key in table {
      var latest := TableHoldsLatestPut(log[..i], key);
      LatestPutInPrefix(log, i, key, latest);
      forall j: nat | LatestPut(log, i, key, j) ensures j == latest {
        assert !(j < latest) && !(latest < j);
      }
    } else {
      forall j: nat | LatestPut(log, i, key, j) ensures false {
        PutStaysInTable(log, i, j);
      }
    }
  }

  // The course of one merge through the log: it peeks at p, decides to merge, and puts at i.
  predicate MergeCourse(log: seq<Event>, p: nat, i: nat) {
    && p < i < |log| && log[i].PutDone?
    && PeekFor(log, p, log[i].record)
  }

  predicate PeekFor(log: seq<Event>, p: nat, r: Record) {
    p < |log| && log[p].PeekDone? && log[p].key == KeyOf(r.body) && Decides(log[p].header, r)
  }

  ghost predicate MergesTracked(s: System) {
    && (forall t: nat :: JobOf(s, t).Putting? && JobOf(s, t).peek.Some? ==>
                           PeekFor(s.log, JobOf(s, t).peek.value, JobOf(s, t).record))
    && (forall i :: 0 <= i < |s.log| && s.log[i].PutDone? && s.log[i].peek.Some? ==>
                      MergeCourse(s.log, s.log[i].peek.value, i))
  }

  lemma ApplyTracksMerges(s: System, m: Move)
    requires MergesTracked(s)
    ensures MergesTracked(Apply(s, m))
  {
    hide Decides, KeyOf, WithKind, PartOf, ReadEnds, Answer;
    var s' := Apply(s, m);
    assert s.log <= s'.log;
    forall t: nat | JobOf(s', t).Putting? && JobOf(s', t).peek.Some?
      ensures PeekFor(s'.log, JobOf(s', t).peek.value, JobOf(s', t).record)
    {
      if JobOf(s, t).Putting? {
        assert PeekFor(s.log, JobOf(s, t).peek.value, JobOf(s, t).record);
      }
    }
    forall i | 0 <= i < |s'.log| && s'.log[i].PutDone? && s'.log[i].peek.Some?
      ensures MergeCourse(s'.log, s'.log[i].peek.value, i)
    {
      if i < |s.log| {
        assert s'.log[i] == s.log[i] && MergeCourse(s.log, s.log[i].peek.value, i);
      } else {
        assert JobOf(s, m.thread).Putting?;
      }
    }
  }

  lemma {:induction false} RunTracksMerges(moves: seq<Move>)
    ensures MergesTracked(Run(moves))
    decreases |moves|
  {
    if moves != [] {
      hide MergesTracked, Apply;
      RunTracksMerges(moves[..|moves| - 1]);
      ApplyTracksMerges(Run(moves[..|moves| - 1]), moves[|moves| - 1]);
    }
  }

  // A merge replaces only an older record if and only if its record is newer than the latest one
  // that was put under its key between its peek and its put, if there was any.
  lemma {:induction false} MergeIsSafeIff(moves: seq<Move>, p: nat, i: nat)
    requires i < |Run(moves).log| && Run(moves).log[i].PutDone? && Run(moves).log[i].peek == Some(p)
    ensures p < i
    ensures
      var log := Run(moves).log;
      var r := log[i].record;
      Supersedes(TableAfter(log[..i]), r) <==>
      forall j: nat :: p < j < i && LatestPut(log, i, KeyOf(r.body), j) ==> Newer(r.body, log[j].record.body)
  {
    hide Run, KeyOf, Newer;
    var log := Run(moves).log;
    var key := KeyOf(log[i].record.body);
    RunTracksMerges(moves);
    assert MergeCourse(log, p, i);
    SupersedesLatestIff(log, i, log[i].record);
    if j: nat :| LatestPut(log, i, key, j) && j < p {
      forall k | p < k < i && log[k].PutDone? ensures KeyOf(log[k].record.body) != key {
        assert j < k;
      }
      DecisionHoldsIfUndisturbed(moves, p, i);
    }
  }

  // In particular it is safe if no other put under its key came in between.
  lemma {:induction false} DecisionHoldsIfUndisturbed(moves: seq<Move>, p: nat, i: nat)
    requires i < |Run(moves).log| && Run(moves).log[i].PutDone? && Run(moves).log[i].peek == Some(p)
    requires NoPutBetween(Run(moves).log, p, i, KeyOf(Run(moves).log[i].record.body))
    ensures Supersedes(TableAfter(Run(moves).log[..i]), Run(moves).log[i].record)
  {
    hide Run, NoPutBetween, KeyOf;
    var log := Run(moves).log;
    RunTracksMerges(moves);
    assert MergeCourse(log, p, i);
    LockedOperationsAreAtomic(moves);
    KeyIsHeaderKey(log[i].record.body);
    assert Atomic(TableAfter(log[..p]), log[p]);
    TableKeptBetween(log, p, i, KeyOf(log[i].record.body));
  }

  lemma RunStep(moves: seq<Move>, m: Move)
    ensures Run(moves + [m]) == Apply(Run(moves), m)
  {
    assert (moves + [m])[..|moves|] == moves;
  }

  // A merge up to its decision, and from there to its end: lock, read or four writes, unlock.
  function MergeStart(t: nat, r: Record): seq<Move> {
    [StartMerge(t, r, true), Advance(t), Advance(t), Advance(t)]
  }

  function MergeEnd(t: nat): seq<Move> {
    [Advance(t), Advance(t), Advance(t), Advance(t), Advance(t), Advance(t)]
  }

  // Nobody holds the lock, and these are the jobs.
  ghost predicate Free(s: System, jobs: map<nat, Job>) {
    s.owner == None && forall t: nat :: JobOf(s, t) == if t in jobs then jobs[t] else Idle
  }

  lemma StartsAlone(moves: seq<Move>, t: nat, r: Record, jobs: map<nat, Job>)
    requires Free(Run(moves), jobs) && t !in jobs && !IsEncounter(r.Type())
    requires Decides(Lookup(Run(moves).kv, KeyOf(r.body)), r)
    ensures
      var s := Run(moves);
      var s' := Run(moves + MergeStart(t, r));
      && Free(s', jobs[t := Putting(r, Some(|s.log|), 0)])
      && s'.kv == s.kv && s'.log == s.log + [PeekDone(KeyOf(r.body), Lookup(s.kv, KeyOf(r.body)))]
  {
    hide Run, KeyOf, Decides;
    KeyIsHeaderKey(r.body);
    var m1 := moves + [StartMerge(t, r, true)];
    RunStep(moves, StartMerge(t, r, true));
    RunStep(m1, Advance(t));
    RunStep(m1 + [Advance(t)], Advance(t));
    RunStep(m1 + [Advance(t)] + [Advance(t)], Advance(t));
    assert moves + MergeStart(t, r) == m1 + [Advance(t)] + [Advance(t)] + [Advance(t)];
    forall u: nat
      ensures JobOf(Run(moves + MergeStart(t, r)), u) ==
              if u == t then Putting(r, Some(|Run(moves).log|), 0) else if u in jobs then jobs[u] else Idle
    {
      assert JobOf(Run(moves), u) == if u in jobs then jobs[u] else Idle;
    }
  }

  lemma EndsAlone(moves: seq<Move>, t: nat, r: Record, peek: Option<nat>, jobs: map<nat, Job>)
    requires Free(Run(moves), jobs) && t in jobs && jobs[t] == Putting(r, peek, 0) && SignatureLength(r) > 0
    ensures
      var s' := Run(moves + MergeEnd(t));
      Free(s', jobs[t := Idle]) && s'.log == Run(moves).log + [PutDone(r, peek)]
  {
    hide Run, WithKind, KeyOf, PartOf;
    var m2 := moves + [Advance(t)] + [Advance(t)];
    var m4 := m2 + [Advance(t)] + [Advance(t)];
    assert JobOf(Run(moves), t) == jobs[t];
    RunStep(moves, Advance(t));
    RunStep(moves + [Advance(t)], Advance(t));
    RunStep(m2, Advance(t));
    RunStep(m2 + [Advance(t)], Advance(t));
    RunStep(m4, Advance(t));
    RunStep(m4 + [Advance(t)], Advance(t));
    assert moves + MergeEnd(t) == m4 + [Advance(t)] + [Advance(t)];
    forall u: nat
      ensures JobOf(Run(moves + MergeEnd(t)), u) == if u == t then Idle else if u in jobs then jobs[u] else Idle
    {
      assert JobOf(Run(moves), u) == if u in jobs then jobs[u] else Idle;
    }
  }

  // Without that condition a stored version can go back, for any two signed records under one
  // key: two threads merge, both peek while nothing is stored and decide to write, and the one
  // with the older record writes last.
  lemma InterleavedMergesCanGoBack(newer: Record, older: Record) returns (moves: seq<Move>)
    requires KeyOf(newer.body) == KeyOf(older.body) && Newer(newer.body, older.body)
    requires SignatureLength(newer) > 0 && SignatureLength(older) > 0
    requires !IsEncounter(newer.Type()) && !IsEncounter(older.Type())
    ensures forall m :: m in moves ==> m.Advance? || m == StartMerge(0, newer, true) || m == StartMerge(1, older, true)
    ensures
      var log := Run(moves).log;
      var key := KeyOf(newer.body);
      && log == [PeekDone(key, None), PeekDone(key, None), PutDone(newer, Some(0)), PutDone(older, Some(1))]
      && TableAfter(log[..3])[key] == newer && TableAfter(log)[key] == older
  {
    var key := KeyOf(newer.body);
    hide Run, KeyOf, Newer;
    assert Run([]) == START by {
      RunOfNothing();
    }
    var m1 := [] + MergeStart(0, newer);
    var m2 := m1 + MergeStart(1, older);
    var m3 := m2 + MergeEnd(0);
    moves := m3 + MergeEnd(1);
    StartsAlone([], 0, newer, map[]);
    StartsAlone(m1, 1, older, map[0 := Putting(newer, Some(0), 0)]);
    EndsAlone(m2, 0, newer, Some(0), map[0 := Putting(newer, Some(0), 0)][1 := Putting(older, Some(1), 0)]);
    EndsAlone(m3, 1, older, Some(1), map[0 := Putting(newer, Some(0), 0)][1 := Putting(older, Some(1), 0)][0 := Idle]);
    var log := Run(moves).log;
    assert log[..3] == Run(m3).log && log[..3][..2] == Run(m2).log;
  }

  lemma RunOfNothing()
    ensures Run([]) == START
  {
  }

  // ---------------------------------------------------------------- a put is two draws

  // What concurrent puts and merges of a node do to its counters, one lock period at a time: a
  // put draws its number under the table lock and later its timestamp under the clock lock.
  datatype Draw = DrawNumber | DrawTimestamp(raw: u32) | AcceptTimestamp(raw: u32, ts: Timestamp)

  datatype Counters = Counters(sequence: u64, clock: Clock)

  function AfterDraw(c: Counters, d: Draw): Counters {
    match d
    case DrawNumber => c.(sequence := (c.sequence + 1) % U64)
    case DrawTimestamp(raw) => c.(clock := Issue(c.clock, raw))
    case AcceptTimestamp(raw, ts) => c.(clock := Receive(c.clock, raw, ts))
  }

  // The counter a draw increments is not at its end.
  predicate HasRoomFor(c: Counters, d: Draw) {
    match d
    case DrawNumber => c.sequence + 1 < U64
    case DrawTimestamp(raw) =>
      Adjusted(raw, c.clock.offset) > c.clock.local.physical || c.clock.local.logical + 1 < U32
    case AcceptTimestamp(raw, ts) =>
      ReferenceCounter(Adjusted(raw, c.clock.offset), c.clock.local, ts) != Some(U32 - 1)
  }

  // What the counters went through, and the draws in between, none of which overflowed.
  datatype Course = Course(states: seq<Counters>, draws: seq<Draw>)

  ghost predicate IsCourse(c: Course) {
    && |c.states| == |c.draws| + 1
    && forall i {:trigger c.draws[i]} :: 0 <= i < |c.draws| ==>
                                           && HasRoomFor(c.states[i], c.draws[i])
                                           && c.states[i + 1] == AfterDraw(c.states[i], c.draws[i])
  }

  // The record whose put draws its number at n and its timestamp at s.
  function RecordOfDraws(self: NodeId, c: Course, n: nat, s: nat, data: RecordData): Body
    requires n + 1 < |c.states| && s + 1 < |c.states|
  {
    Body(self, c.states[n + 1].sequence, c.states[s + 1].clock.local, data)
  }

  predicate NotBelow(c: Counters, c': Counters) {
    c.sequence <= c'.sequence && (c.clock.local == c'.clock.local || Less(c.clock.local, c'.clock.local))
  }

  lemma DrawGoesUp(c: Counters, d: Draw)
    requires HasRoomFor(c, d)
    ensures NotBelow(c, AfterDraw(c, d))
    ensures d.DrawNumber? ==> c.sequence < AfterDraw(c, d).sequence
    ensures d.DrawTimestamp? ==> Less(c.clock.local, AfterDraw(c, d).clock.local)
  {
    match d {
      case DrawNumber =>
      case DrawTimestamp(raw) => IssueIsStrictlyAboveLocal(c.clock, raw);
      case AcceptTimestamp(raw, ts) => ReceiveIsStrictlyAboveBoth(c.clock, raw, ts);
    }
  }

  lemma {:induction false} CountersGoUp(c: Course, i: nat, j: nat)
    requires IsCourse(c) && i <= j < |c.states|
    ensures NotBelow(c.states[i], c.states[j])
    decreases j
  {
    hide HasRoomFor, AfterDraw;
    if i < j {
      CountersGoUp(c, i, j - 1);
      DrawGoesUp(c.states[j - 1], c.draws[j - 1]);
    }
  }

  lemma LaterDrawIsHigher(c: Course, i: nat, j: nat)
    requires IsCourse(c) && i < j < |c.draws|
    ensures c.draws[j].DrawNumber? ==> c.states[i + 1].sequence < c.states[j + 1].sequence
    ensures c.draws[j].DrawTimestamp? ==> Less(c.states[i + 1].clock.local, c.states[j + 1].clock.local)
  {
    hide HasRoomFor, AfterDraw;
    CountersGoUp(c, i + 1, j);
    DrawGoesUp(c.states[j], c.draws[j]);
  }

  // However any number of puts and merges interleave on a node, of two of its records the one
  // that drew its number later has the larger one and counts as newer, and it has the later
  // timestamp if and only if its put also drew its timestamp later.
  lemma {:induction false} PutOrdersAgreeIff(self: NodeId, c: Course, n: nat, s: nat, n': nat, s': nat,
                                             data: RecordData, data': RecordData)
    requires IsCourse(c) && n < n' < |c.draws| && s < |c.draws| && s' < |c.draws| && s != s'
    requires c.draws[n].DrawNumber? && c.draws[n'].DrawNumber?
    requires c.draws[s].DrawTimestamp? && c.draws[s'].DrawTimestamp?
    ensures
      var early := RecordOfDraws(self, c, n, s, data);
      var late := RecordOfDraws(self, c, n', s', data');
      && early.sequence < late.sequence && Newer(late, early)
      && (Less(early.timestamp, late.timestamp) <==> s < s')
  {
    hide IsCourse;
    LaterDrawIsHigher(c, n, n');
    if s < s' {
      LaterDrawIsHigher(c, s, s');
    } else {
      LaterDrawIsHigher(c, s', s);
    }
  }

  // ---------------------------------------------------------------- failed writes

  // When a write fails after the header was written, the record counts as stored: the same record
  // and any that is no newer is turned down from then on, so hearing it again repairs nothing.
  lemma TornPutIsNotRepaired(kv: Content, r: Record, n: nat, x: Record)
    requires 0 < n < PartCount(r) && KeyOf(x.body) == KeyOf(r.body)
    ensures Decides(Lookup(Written(kv, r, n), KeyOf(x.body)), x) <==> Newer(x.body, r.body)
  {
    KindsOfKey(KeyOf(r.body));
    KindsDiffer(KeyOf(r.body));
    FirstParts(kv, r);
    hide KeyOf, WithKind, Written;
  }

  lemma KindsDiffer(k: Key)
    ensures forall i, j :: WithKind(k, i) == WithKind(k, j) <==> i == j
  {
    forall i, j ensures WithKind(k, i) == WithKind(k, j) <==> i == j {
      assert WithKind(k, i)[1] == KindCode(i) && WithKind(k, j)[1] == KindCode(j);
    }
  }

  // If nothing was stored under the key before, what was written cannot be read, except, without
  // its signature, when only that is missing.
  lemma TornPutCannotBeRead(kv: Content, r: Record, n: nat, capacity: Option<nat>, answers: Answers)
    requires 0 < n < PartCount(r) && forall i :: WithKind(KeyOf(r.body), i) !in kv
    requires AnswersFrom(Written(kv, r, n), KeyOf(r.body), answers)
    requires Proceeds(answers, capacity) && ReadEnds(answers, capacity)
    ensures Answer(answers, capacity) ==
            if n == 3 && capacity.None? then Some(Retrieved(r.body, SignatureLength(r), None)) else None
  {
    KindsDiffer(KeyOf(r.body));
    FirstParts(kv, r);
    hide KeyOf, WithKind, Written;
    assert PARTS[0] == HeaderKind && PARTS[1] == DataKind;
    assert PARTS[2] == SignatureLengthKind && PARTS[3] == SignatureKind;
  }
}
