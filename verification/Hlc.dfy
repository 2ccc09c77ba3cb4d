// The hybrid logical clock: a (physical, logical) pair in 32-bit arithmetic and a physical
// offset that pulls a lagging node forward.
module Hlc {
  import opened Types

  const HLC_ERROR_GET_TIME: int := -2

  datatype Clock = Clock(local: Timestamp, offset: u32)

  // ---------------------------------------------------------------- order on timestamps

  predicate Less(a: Timestamp, b: Timestamp) {
    a.physical < b.physical || (a.physical == b.physical && a.logical < b.logical)
  }

  function Sign(x: int, y: int): int {
    if x < y then -1 else if x > y then 1 else 0
  }

  function Compare(a: Timestamp, b: Timestamp): (r: int)
    ensures r == 1 <==> Less(b, a)
    ensures r == -1 <==> Less(a, b)
    ensures r == 0 <==> a == b
  {
    var p := Sign(a.physical, b.physical);
    if p != 0 then p else Sign(a.logical, b.logical)
  }

  lemma LessIsStrictTotalOrder(a: Timestamp, b: Timestamp, c: Timestamp)
    ensures !Less(a, a)
    ensures Less(a, b) && Less(b, c) ==> Less(a, c)
    ensures a == b || Less(a, b) || Less(b, a)
    ensures Compare(a, b) == -Compare(b, a)
  {
  }

  // ---------------------------------------------------------------- the clock rules as functions

  function Add32(x: u32, y: u32): u32 {
    (x + y) % U32
  }

  function Sub32(x: u32, y: u32): u32 {
    (x - y) % U32
  }

  // The physical clock as the node sees it: raw time plus offset, modulo 2^32.
  function Adjusted(raw: u32, offset: u32): u32 {
    Add32(raw, offset)
  }

  function MaxLogical(x: u32, y: u32): u32 {
    if x > y then x else y
  }

  function Issue(c: Clock, raw: u32): Clock {
    var now := Adjusted(raw, c.offset);
    if now > c.local.physical then
      Clock(Timestamp(now, 0), c.offset)
    else
      Clock(Timestamp(c.local.physical, Add32(c.local.logical, 1)), c.offset)
  }

  function Receive(c: Clock, raw: u32, ts: Timestamp): Clock {
    var now := Adjusted(raw, c.offset);
    if now > c.local.physical && now > ts.physical then
      Clock(Timestamp(now, 0), c.offset)
    else if c.local.physical == ts.physical then
      Clock(Timestamp(c.local.physical, Add32(MaxLogical(c.local.logical, ts.logical), 1)), c.offset)
    else if c.local.physical > ts.physical then
      Clock(Timestamp(c.local.physical, Add32(c.local.logical, 1)), c.offset)
    else
      Clock(Timestamp(ts.physical, Add32(ts.logical, 1)), Sub32(Sub32(ts.physical, now), 1))
  }

  // ---------------------------------------------------------------- the context object

  class HlcCtx {
    var local: Timestamp
    var physicalOffset: u32

    function View(): Clock
      reads this
    {
      Clock(local, physicalOffset)
    }

    constructor (initial: Clock)
      ensures View() == initial
    {
      local, physicalOffset := initial.local, initial.offset;
    }

    // `time` is what the time callback delivers; None is its error return.
    method Init(time: Option<u32>) returns (result: int)
      modifies this
      ensures time.Some? ==> result == 0 && View() == Clock(Timestamp(time.value, 0), 0)
      ensures time.None? ==> result == HLC_ERROR_GET_TIME && View() == old(View())
    {
      match time {
        case None =>
          result := HLC_ERROR_GET_TIME;
        case Some(t) =>
          local := Timestamp(t, 0);
          physicalOffset := 0;
          result := 0;
      }
    }

    method UpdateWithRemoteTimestamp(time: Option<u32>, ts: Timestamp) returns (result: int, out: Option<Timestamp>)
      modifies this
      ensures time.Some? ==> result == 0 && View() == Receive(old(View()), time.value, ts) && out == Some(local)
      ensures time.None? ==> result == HLC_ERROR_GET_TIME && View() == old(View()) && out == None
    {
      if time.None? {
        return HLC_ERROR_GET_TIME, None;
      }
      var nowPhysical := Add32(time.value, physicalOffset);
      if Sign(nowPhysical, local.physical) > 0 && Sign(nowPhysical, ts.physical) > 0 {
        local := Timestamp(nowPhysical, 0);
      } else if Sign(local.physical, ts.physical) == 0 {
        var newLogical := MaxLogical(local.logical, ts.logical);
        newLogical := Add32(newLogical, 1);
        local := Timestamp(local.physical, newLogical);
      } else if Sign(local.physical, ts.physical) > 0 {
        local := Timestamp(local.physical, Add32(local.logical, 1));
      } else {
        physicalOffset := Sub32(Sub32(ts.physical, nowPhysical), 1);
        local := Timestamp(ts.physical, Add32(ts.logical, 1));
      }
      return 0, Some(local);
    }

    method GetCurrentTimestamp(time: Option<u32>) returns (result: int, out: Option<Timestamp>)
      modifies this
      ensures time.Some? ==> result == 0 && View() == Issue(old(View()), time.value) && out == Some(local)
      ensures time.None? ==> result == HLC_ERROR_GET_TIME && View() == old(View()) && out == None
    {
      if time.None? {
        return HLC_ERROR_GET_TIME, None;
      }
      var currentPhysical := Add32(time.value, physicalOffset);
      if Sign(currentPhysical, local.physical) > 0 {
        local := Timestamp(currentPhysical, 0);
      } else {
        local := Timestamp(local.physical, Add32(local.logical, 1));
      }
      return 0, Some(local);
    }
  }

  // ---------------------------------------------------------------- the receive rule is the published one

  function Max(x: int, y: int): int {
    if x >= y then x else y
  }

  // The receive rule as the hybrid-logical-clock literature states it: first take the maximum
  // of the three physical parts, then pick the logical part by who attains it.
  function ReferencePhysical(now: u32, local: Timestamp, remote: Timestamp): u32 {
    Max(now, Max(local.physical, remote.physical))
  }

  // The counter that is incremented, or None when the physical clock alone moved ahead.
  function ReferenceCounter(now: u32, local: Timestamp, remote: Timestamp): Option<u32> {
    var p := ReferencePhysical(now, local, remote);
    if p == local.physical && p == remote.physical then Some(Max(local.logical, remote.logical))
    else if p == local.physical then Some(local.logical)
    else if p == remote.physical then Some(remote.logical)
    else None
  }

  lemma ReceiveIsTheReferenceRule(c: Clock, raw: u32, ts: Timestamp)
    ensures
      var now := Adjusted(raw, c.offset);
      var counter := ReferenceCounter(now, c.local, ts);
      && Receive(c, raw, ts).local.physical == ReferencePhysical(now, c.local, ts)
      && Receive(c, raw, ts).local.logical == (if counter.None? then 0 else (counter.value + 1) % U32)
  {
  }

  // The result is strictly above both the old local and the remote timestamp exactly when the
  // counter to increment is not already at its maximum.
  lemma ReceiveIsStrictlyAboveBoth(c: Clock, raw: u32, ts: Timestamp)
    ensures
      var counter := ReferenceCounter(Adjusted(raw, c.offset), c.local, ts);
      var after := Receive(c, raw, ts).local;
      (Less(c.local, after) && Less(ts, after)) <==> counter != Some(U32 - 1)
  {
  }

  lemma IssueIsStrictlyAboveLocal(c: Clock, raw: u32)
    ensures Less(c.local, Issue(c, raw).local) <==>
            Adjusted(raw, c.offset) > c.local.physical || c.local.logical != U32 - 1
  {
  }

  // ---------------------------------------------------------------- 32-bit arithmetic refines the integers

  // The offset read as a signed number: 2^32 - 1 stands for -1, the value a catch-up against a
  // remote timestamp equal to the adjusted clock leaves behind.
  function Signed(offset: u32): int {
    if offset == U32 - 1 then -1 else offset
  }

  // The clock rules over unbounded integers, with no modular reduction anywhere.
  datatype IntClock = IntClock(physical: int, logical: int, offset: int)

  function Abstract(c: Clock): IntClock {
    IntClock(c.local.physical, c.local.logical, Signed(c.offset))
  }

  function IntIssue(c: IntClock, raw: int): IntClock {
    if raw + c.offset > c.physical then c.(physical := raw + c.offset, logical := 0)
    else c.(logical := c.logical + 1)
  }

  function IntReceive(c: IntClock, raw: int, ts: Timestamp): IntClock {
    var now := raw + c.offset;
    if now > c.physical && now > ts.physical then c.(physical := now, logical := 0)
    else if c.physical == ts.physical then c.(logical := Max(c.logical, ts.logical) + 1)
    else if c.physical > ts.physical then c.(logical := c.logical + 1)
    else IntClock(ts.physical, ts.logical + 1, ts.physical - now - 1)
  }

  // What every reachable clock satisfies: the offset is at least -1 and at most the local
  // physical part, and the adjusted clock is an honest 32-bit sum.
  predicate Sane(c: Clock, raw: u32) {
    && -1 <= Signed(c.offset) <= c.local.physical
    && 0 <= raw + Signed(c.offset) < U32
  }

  lemma AdjustedIsExact(c: Clock, raw: u32)
    requires Sane(c, raw)
    ensures Adjusted(raw, c.offset) == raw + Signed(c.offset)
  {
  }

  lemma IssueRefinesIntegers(c: Clock, raw: u32)
    requires Sane(c, raw)
    ensures Sane(Issue(c, raw), raw)
    ensures IntIssue(Abstract(c), raw).logical < U32 ==> Abstract(Issue(c, raw)) == IntIssue(Abstract(c), raw)
  {
    AdjustedIsExact(c, raw);
  }

  // The two modular subtractions of a catch-up leave the exact difference, read as signed.
  lemma CatchUpOffsetIsExact(now: u32, ts: u32)
    requires now <= ts
    ensures Signed(Sub32(Sub32(ts, now), 1)) == ts - now - 1
  {
  }

  lemma ReceiveRefinesIntegers(c: Clock, raw: u32, ts: Timestamp)
    requires Sane(c, raw)
    ensures Sane(Receive(c, raw, ts), raw)
    ensures IntReceive(Abstract(c), raw, ts).logical < U32 ==>
              Abstract(Receive(c, raw, ts)) == IntReceive(Abstract(c), raw, ts)
  {
    AdjustedIsExact(c, raw);
    hide Adjusted, Sub32;
    if Adjusted(raw, c.offset) <= ts.physical {
      CatchUpOffsetIsExact(Adjusted(raw, c.offset), ts.physical);
    }
  }

  // A catch-up overwrites the offset although the adjusted clock already contained the old one:
  // the new adjusted clock is ts - 1 - (old offset), never above ts.
  lemma CatchUpAdjustedClock(c: Clock, raw: u32, ts: Timestamp)
    requires Sane(c, raw)
    requires ts.physical > c.local.physical && ts.physical >= Adjusted(raw, c.offset)
    ensures
      var after := Adjusted(raw, Receive(c, raw, ts).offset);
      && after == ts.physical - 1 - Signed(c.offset)
      && 0 <= after <= ts.physical
      && (after == ts.physical - 1 <==> c.offset == 0)
      && (after == ts.physical <==> c.offset == U32 - 1)
  {
    AdjustedIsExact(c, raw);
    ReceiveRefinesIntegers(c, raw, ts);
    AdjustedIsExact(Receive(c, raw, ts), raw);
  }

  // The offset 2^32 - 1 is reached from offset 0, by a catch-up with a timestamp equal to the
  // adjusted clock; the next catch-up then lands on its timestamp itself.
  lemma CatchUpFromMinusOne(c: Clock, raw: u32, ts: Timestamp, raw': u32, ts': Timestamp)
    requires c.offset == 0 && raw == ts.physical > c.local.physical
    requires 0 < raw' && raw' - 1 <= ts'.physical && ts.physical < ts'.physical
    ensures
      var c' := Receive(c, raw, ts);
      && c'.offset == U32 - 1
      && Adjusted(raw, c'.offset) == ts.physical - 1
      && Adjusted(raw', Receive(c', raw', ts').offset) == ts'.physical
  {
    var c' := Receive(c, raw, ts);
    assert Adjusted(raw', c'.offset) == raw' - 1;
    CatchUpAdjustedClock(c', raw', ts');
  }

  // Whatever happens, the physical parts stay below any bound the inputs stay below: the step
  // of the no-drift argument.
  lemma ReceiveKeepsBound(c: Clock, raw: u32, ts: Timestamp, bound: u32)
    requires Sane(c, raw)
    requires c.local.physical <= bound && raw + Signed(c.offset) <= bound && ts.physical <= bound
    ensures
      var after := Receive(c, raw, ts);
      after.local.physical <= bound && raw + Signed(after.offset) <= bound
  {
    AdjustedIsExact(c, raw);
  }
}
