/** Message ids: Rust's `generate_msg_id` under concurrency, and TypeScript's generator. */
module MessageIds {
  import opened Bytes

  // ---------------------------------------------------------------- Rust

  /** A call of `generate_msg_id`: after `fetch_add`, and after the clock read that ends it. */
  datatype Call =
    | Counted(count: u64, began: nat)
    | Done(count: u64, began: nat, clock: nat, ended: nat, id: u64)

  /** `time` numbers the steps of the interleaving. */
  datatype State = State(counter: u64, calls: map<nat, Call>, time: nat)

  /** The two atomic steps of a call, or of many calls at once. */
  datatype Action = FetchAdd(call: nat) | ReadClock(call: nat, micros: nat)

  const INIT := State(0, map[], 0)

  /** `timestamp + count` on u64, the timestamp itself cast from a wider integer. */
  function RustId(micros: nat, count: u64): u64 {
    (micros % TWO_POW_64 + count) % TWO_POW_64
  }

  function Step(s: State, a: Action): State {
    match a
    case FetchAdd(c) =>
      if c in s.calls then s
      else State((s.counter + 1) % TWO_POW_64, s.calls[c := Counted(s.counter, s.time)], s.time + 1)
    case ReadClock(c, micros) =>
      if c in s.calls && s.calls[c].Counted? then
        var call := s.calls[c];
        s.(calls := s.calls[c := Done(call.count, call.began, micros, s.time, RustId(micros, call.count))],
           time := s.time + 1)
      else s
  }

  function Run(actions: seq<Action>): State {
    if actions == [] then INIT else Step(Run(actions[..|actions| - 1]), actions[|actions| - 1])
  }

  /** The system clock never goes back during the run. */
  ghost predicate ClockAdvances(actions: seq<Action>) {
    forall i, j :: 0 <= i <= j < |actions| && actions[i].ReadClock? && actions[j].ReadClock? ==>
                     actions[i].micros <= actions[j].micros
  }

  /** Timestamp and counter stay within 64 bits. */
  ghost predicate NoOverflow(actions: seq<Action>) {
    && |actions| < TWO_POW_64
    && forall i :: 0 <= i < |actions| && actions[i].ReadClock? ==> actions[i].micros + |actions| < TWO_POW_64
  }

  ghost predicate Ordered(a: Call, b: Call) {
    && a.began != b.began
    && (a.began < b.began <==> a.count < b.count)
    && (a.Done? && b.Done? && a.ended <= b.ended ==> a.clock <= b.clock)
  }

  ghost predicate CallOk(s: State, c: Call, limit: nat) {
    && c.count < s.counter && c.began < s.time
    && (c.Done? ==>
          && c.began < c.ended < s.time
          && c.clock <= limit
          && c.id == c.clock + c.count)
  }

  ghost predicate Inv(s: State, limit: nat) {
    && s.counter <= s.time
    && (forall c :: c in s.calls ==> CallOk(s, s.calls[c], limit))
    && (forall c, d :: c in s.calls && d in s.calls && c != d ==> Ordered(s.calls[c], s.calls[d]))
  }

  lemma StepInv(s: State, a: Action, limit: nat, next: nat)
    requires Inv(s, limit) && limit <= next && s.time + 1 < TWO_POW_64
    requires a.ReadClock? ==> limit <= a.micros == next && next + s.time + 1 < TWO_POW_64
    ensures Inv(Step(s, a), next)
    ensures Step(s, a).time <= s.time + 1
  {
    var t := Step(s, a);
    if t != s {
      forall c | c in t.calls ensures CallOk(t, t.calls[c], next) {
        CallKept(s, a, limit, next, c);
      }
      forall c, d | c in t.calls && d in t.calls && c != d ensures Ordered(t.calls[c], t.calls[d]) {
        OrderKept(s, a, limit, next, c, d);
      }
    }
  }

  lemma CallKept(s: State, a: Action, limit: nat, next: nat, c: nat)
    requires Inv(s, limit) && limit <= next && s.time + 1 < TWO_POW_64
    requires a.ReadClock? ==> limit <= a.micros == next && next + s.time + 1 < TWO_POW_64
    requires c in Step(s, a).calls
    ensures CallOk(Step(s, a), Step(s, a).calls[c], next)
  {
    hide RustId;
    if c in s.calls {
      assert CallOk(s, s.calls[c], limit);
      if a.ReadClock? {
        NoWrap(a.micros, s.calls[c].count);
      }
    }
    CounterSteps(s.counter);
  }

  lemma NoWrap(micros: nat, count: u64)
    ensures micros + count < TWO_POW_64 ==> RustId(micros, count) == micros + count
  {
  }

  lemma CounterSteps(counter: u64)
    ensures counter + 1 < TWO_POW_64 ==> (counter + 1) % TWO_POW_64 == counter + 1
  {
  }

  lemma OrderKept(s: State, a: Action, limit: nat, next: nat, c: nat, d: nat)
    requires Inv(s, limit) && limit <= next
    requires a.ReadClock? ==> limit <= a.micros
    requires c in Step(s, a).calls && d in Step(s, a).calls && c != d
    ensures Ordered(Step(s, a).calls[c], Step(s, a).calls[d])
  {
    if c in s.calls {
      assert CallOk(s, s.calls[c], limit);
    }
    if d in s.calls {
      assert CallOk(s, s.calls[d], limit);
    }
    if c in s.calls && d in s.calls {
      assert Ordered(s.calls[c], s.calls[d]);
    }
  }

  lemma {:induction false} RunInv(actions: seq<Action>) returns (limit: nat)
    requires ClockAdvances(actions) && NoOverflow(actions)
    ensures Inv(Run(actions), limit) && Run(actions).time <= |actions|
    ensures forall i :: 0 <= i < |actions| && actions[i].ReadClock? ==> actions[i].micros <= limit
    ensures limit != 0 ==> exists i :: 0 <= i < |actions| && actions[i].ReadClock? && actions[i].micros == limit
    decreases |actions|
  {
    limit := 0;
    if actions != [] {
      var n := |actions| - 1;
      var before, a := actions[..n], actions[n];
      assert forall i :: 0 <= i < n ==> before[i] == actions[i];
      var was := RunInv(before);
      limit := if a.ReadClock? then a.micros else was;
      if was != 0 {
        var i :| 0 <= i < n && before[i].ReadClock? && before[i].micros == was;
        assert actions[i].micros == was;
      }
      StepInv(Run(before), a, was, limit);
    }
  }

  predicate Finished(s: State, c: nat) {
    c in s.calls && s.calls[c].Done?
  }

  /**
   * In every interleaving with an advancing clock and no overflow, a call that ends before another
   * begins returns a strictly smaller id.
   */
  lemma EarlierCallsGetSmallerIds(actions: seq<Action>, a: nat, b: nat)
    requires ClockAdvances(actions) && NoOverflow(actions)
    requires Finished(Run(actions), a) && Finished(Run(actions), b)
    requires Run(actions).calls[a].ended < Run(actions).calls[b].began
    ensures Run(actions).calls[a].id < Run(actions).calls[b].id
  {
    var limit := RunInv(actions);
    var s := Run(actions);
    assert CallOk(s, s.calls[a], limit) && CallOk(s, s.calls[b], limit);
    assert a != b && Ordered(s.calls[a], s.calls[b]);
  }

  /** The calls that took their first step before `c` did. */
  ghost function Earlier(s: State, c: nat): set<nat>
    requires c in s.calls
  {
    set d | d in s.calls && s.calls[d].began < s.calls[c].began
  }

  /**
   * What `generate_msg_id` returns: the clock reading of its second step plus the number of calls
   * that took their first step before it.
   */
  lemma {:induction false} IdIsClockPlusRank(actions: seq<Action>, c: nat)
    requires ClockAdvances(actions) && NoOverflow(actions) && Finished(Run(actions), c)
    ensures var s := Run(actions);
            && s.calls[c].id == s.calls[c].clock + s.calls[c].count
            && s.calls[c].count == |Earlier(s, c)|
  {
    var limit := RunInv(actions);
    assert CallOk(Run(actions), Run(actions).calls[c], limit);
    CountsAreRanks(actions, c);
  }

  lemma {:induction false} CountsAreRanks(actions: seq<Action>, c: nat)
    requires |actions| < TWO_POW_64 && c in Run(actions).calls
    ensures Run(actions).calls[c].count == |Earlier(Run(actions), c)|
    decreases |actions|
  {
    CounterCounts(actions);
    var n := |actions| - 1;
    var s, t := Run(actions[..n]), Run(actions);
    CounterCounts(actions[..n]);
    if c in s.calls {
      CountsAreRanks(actions[..n], c);
      assert Earlier(t, c) == Earlier(s, c);
    } else {
      assert Earlier(t, c) == s.calls.Keys;
    }
  }

  lemma {:induction false} CounterCounts(actions: seq<Action>)
    requires |actions| < TWO_POW_64
    ensures Run(actions).counter == |Run(actions).calls.Keys| <= |actions|
    ensures forall c :: c in Run(actions).calls ==> Run(actions).calls[c].began < Run(actions).time
    decreases |actions|
  {
    hide Step;
    if actions != [] {
      var n := |actions| - 1;
      CounterCounts(actions[..n]);
      StepCounts(Run(actions[..n]), actions[n]);
    }
  }

  lemma StepCounts(s: State, a: Action)
    requires s.counter == |s.calls.Keys| && s.counter + 1 < TWO_POW_64
    requires forall c :: c in s.calls ==> s.calls[c].began < s.time
    ensures var t := Step(s, a); t.counter == |t.calls.Keys| <= |s.calls.Keys| + 1
    ensures forall c :: c in Step(s, a).calls ==> Step(s, a).calls[c].began < Step(s, a).time
  {
    hide RustId;
    CounterSteps(s.counter);
    if a.FetchAdd? && a.call !in s.calls {
      assert Step(s, a).calls.Keys == s.calls.Keys + {a.call};
    } else {
      assert Step(s, a).calls.Keys == s.calls.Keys;
    }
  }

  /** Wrapped sums, should timestamp or counter leave 64 bits. */
  lemma IdWraps(micros: nat, count: u64)
    ensures RustId(micros, count) == (micros + count) % 0x1_0000_0000_0000_0000
  {
  }

  /** `inner` begins and ends while `outer` is between its two steps. */
  predicate Nested(outer: Call, inner: Call)
    requires outer.Done? && inner.Done?
  {
    outer.began < inner.began && inner.ended < outer.ended
  }

  /**
   * Two calls return the same id exactly when the difference of their clock reads cancels the
   * difference of their counts; and then one of them lies inside the other. Calls that merely
   * overlap get different ids.
   */
  lemma EqualIdsNest(actions: seq<Action>, a: nat, b: nat)
    requires ClockAdvances(actions) && NoOverflow(actions) && a != b
    requires Finished(Run(actions), a) && Finished(Run(actions), b)
    ensures var x, y := Run(actions).calls[a], Run(actions).calls[b];
            && (x.id == y.id <==> x.clock - y.clock == y.count - x.count)
            && (x.id == y.id ==> Nested(x, y) || Nested(y, x))
            && (x.id == y.id ==> x.began < y.ended && y.began < x.ended)
  {
    var limit := RunInv(actions);
    var s := Run(actions);
    var x, y := s.calls[a], s.calls[b];
    assert CallOk(s, x, limit) && CallOk(s, y, limit) && Ordered(x, y) && Ordered(y, x);
  }

  /** The same steps in the same order, at whatever times. */
  predicate SameSteps(a: seq<Action>, b: seq<Action>) {
    |a| == |b| && forall i :: 0 <= i < |a| ==> SameStep(a[i], b[i])
  }

  predicate SameStep(a: Action, b: Action) {
    a.FetchAdd? == b.FetchAdd? && a.call == b.call
  }

  predicate SameButClock(x: Call, y: Call) {
    && x.Done? == y.Done? && x.count == y.count && x.began == y.began
    && (x.Done? ==> x.ended == y.ended)
  }

  ghost predicate SameShape(s: State, t: State) {
    && s.counter == t.counter && s.time == t.time && s.calls.Keys == t.calls.Keys
    && forall c :: c in s.calls ==> SameButClock(s.calls[c], t.calls[c])
  }

  /** The clock decides about the clock readings and the ids, and about nothing else. */
  lemma {:induction false} ClockShapesNothing(a: seq<Action>, b: seq<Action>)
    requires SameSteps(a, b)
    ensures SameShape(Run(a), Run(b))
    decreases |a|
  {
    if a != [] {
      var n := |a| - 1;
      ClockShapesNothing(a[..n], b[..n]);
      ShapeStep(Run(a[..n]), Run(b[..n]), a[n], b[n]);
    }
  }

  lemma ShapeStep(s: State, t: State, a: Action, b: Action)
    requires SameShape(s, t) && SameStep(a, b)
    ensures SameShape(Step(s, a), Step(t, b))
  {
    hide RustId;
    assert a.call in s.calls ==> SameButClock(s.calls[a.call], t.calls[a.call]);
  }

  /** The run with a clock that reads 0 before the given moment and `later` from then on. */
  function Retimed(actions: seq<Action>, moment: nat, later: nat): seq<Action> {
    if actions == [] then []
    else
      var before, a := actions[..|actions| - 1], actions[|actions| - 1];
      Retimed(before, moment, later)
      + [if a.FetchAdd? then a else ReadClock(a.call, if Run(before).time < moment then 0 else later)]
  }

  lemma {:induction false} RetimedClock(actions: seq<Action>, moment: nat, later: nat)
    ensures var times := Retimed(actions, moment, later);
            && SameSteps(actions, times) && ClockAdvances(times)
            && (forall i :: 0 <= i < |times| && times[i].ReadClock? ==> times[i].micros <= later)
            && (Run(actions).time < moment ==>
                  forall i :: 0 <= i < |times| && times[i].ReadClock? ==> times[i].micros == 0)
    decreases |actions|
  {
    if actions != [] {
      var before := actions[..|actions| - 1];
      RetimedClock(before, moment, later);
      assert Run(before).time <= Run(actions).time;
    }
  }

  /** What the calls of the retimed run read. */
  lemma {:induction false} RetimedReadings(actions: seq<Action>, moment: nat, later: nat, c: nat)
    requires var s := Run(Retimed(actions, moment, later)); Finished(s, c)
    ensures var x := Run(Retimed(actions, moment, later)).calls[c];
            x.clock == (if x.ended < moment then 0 else later) && x.id == RustId(x.clock, x.count)
    decreases |actions|
  {
    hide RustId, ClockAdvances, SameSteps, Step, SameShape;
    if actions != [] {
      var n := |actions| - 1;
      var before := Retimed(actions[..n], moment, later);
      RetimedClock(actions[..n], moment, later);
      ClockShapesNothing(actions[..n], before);
      var s, now := Run(before), Run(actions[..n]).time;
      var a := if actions[n].FetchAdd? then actions[n]
               else ReadClock(actions[n].call, if now < moment then 0 else later);
      assert Retimed(actions, moment, later)[..n] == before;
      if Finished(s, c) {
        RetimedReadings(actions[..n], moment, later, c);
      }
      SameTime(Run(actions[..n]), s);
      ReadingStep(s, a, c);
    }
  }

  lemma SameTime(s: State, t: State)
    requires SameShape(s, t)
    ensures s.time == t.time
  {
  }

  /** A call reads the clock in the step that ends it, and keeps what it read. */
  lemma ReadingStep(s: State, a: Action, c: nat)
    requires Finished(Step(s, a), c)
    ensures var x := Step(s, a).calls[c];
            if Finished(s, c) then x == s.calls[c]
            else a.ReadClock? && x.ended == s.time && x.clock == a.micros && x.id == RustId(x.clock, x.count)
  {
    hide RustId;
  }

  /** In the order of their beginnings, calls get increasing counts below the number of steps. */
  lemma CountsFollowBeginnings(actions: seq<Action>, a: nat, b: nat)
    requires |actions| < TWO_POW_64 && a != b
    requires Finished(Run(actions), a) && Finished(Run(actions), b)
    ensures var x, y := Run(actions).calls[a], Run(actions).calls[b];
            (x.began < y.began <==> x.count < y.count) && x.count < |actions| && y.count < |actions|
  {
    var times := Retimed(actions, 0, 0);
    RetimedClock(actions, 0, 0);
    ClockShapesNothing(actions, times);
    assert NoOverflow(times);
    var limit := RunInv(times);
    var s, t := Run(actions), Run(times);
    assert CallOk(t, t.calls[a], limit) && CallOk(t, t.calls[b], limit) && Ordered(t.calls[a], t.calls[b]);
    assert SameButClock(s.calls[a], t.calls[a]) && SameButClock(s.calls[b], t.calls[b]);
  }

  /** Nested calls collide if the clock advances between their reads by as much as the counts differ. */
  lemma NestedCallsCollide(actions: seq<Action>, outer: nat, inner: nat) returns (times: seq<Action>)
    requires 2 * |actions| < TWO_POW_64 && outer != inner
    requires Finished(Run(actions), outer) && Finished(Run(actions), inner)
    requires Nested(Run(actions).calls[outer], Run(actions).calls[inner])
    ensures SameSteps(actions, times) && ClockAdvances(times) && NoOverflow(times)
    ensures SameId(times, outer, inner)
  {
    var x, y := Run(actions).calls[outer], Run(actions).calls[inner];
    CountsFollowBeginnings(actions, outer, inner);
    var later := y.count - x.count;
    times := Retimed(actions, x.ended, later);
    RetimedClock(actions, x.ended, later);
    ClockShapesNothing(actions, times);
    var t := Run(times);
    assert SameButClock(x, t.calls[outer]) && SameButClock(y, t.calls[inner]);
    RetimedReadings(actions, x.ended, later, outer);
    RetimedReadings(actions, x.ended, later, inner);
    NoWrap(later, x.count);
    NoWrap(0, y.count);
  }

  predicate SameId(actions: seq<Action>, a: nat, b: nat) {
    && Finished(Run(actions), a) && Finished(Run(actions), b)
    && Run(actions).calls[a].id == Run(actions).calls[b].id
  }

  /** Some clock that does not go back gives the two calls the same id. */
  ghost predicate CanCollide(actions: seq<Action>, a: nat, b: nat) {
    exists times :: SameSteps(actions, times) && ClockAdvances(times) && NoOverflow(times) && SameId(times, a, b)
  }

  /**
   * When two calls can get the same id. Given the order of the steps, there is an advancing clock
   * under which they do exactly if one of the calls lies inside the other.
   */
  lemma CollisionNeedsNesting(actions: seq<Action>, a: nat, b: nat)
    requires 2 * |actions| < TWO_POW_64 && a != b
    requires Finished(Run(actions), a) && Finished(Run(actions), b)
    ensures var x, y := Run(actions).calls[a], Run(actions).calls[b];
            CanCollide(actions, a, b) <==> Nested(x, y) || Nested(y, x)
  {
    hide Run, ClockAdvances, NoOverflow, SameSteps;
    var s := Run(actions);
    if CanCollide(actions, a, b) {
      var times :| SameSteps(actions, times) && ClockAdvances(times) && NoOverflow(times) && SameId(times, a, b);
      EqualIdsNest(times, a, b);
      ClockShapesNothing(actions, times);
      var t := Run(times);
      assert SameButClock(s.calls[a], t.calls[a]) && SameButClock(s.calls[b], t.calls[b]);
    }
    if Nested(s.calls[a], s.calls[b]) {
      var times := NestedCallsCollide(actions, a, b);
    }
    if Nested(s.calls[b], s.calls[a]) {
      var times := NestedCallsCollide(actions, b, a);
      assert SameId(times, a, b);
    }
  }

  /** A run with equal ids: the call inside has the later count and the earlier clock read. */
  lemma OverlappingCallsMayCollide(micros: nat)
    requires micros + 1 < TWO_POW_64
    ensures var s := Run([FetchAdd(0), FetchAdd(1), ReadClock(1, micros), ReadClock(0, micros + 1)]);
            Finished(s, 0) && Finished(s, 1) && s.calls[0].id == s.calls[1].id == micros + 1
  {
    var a := [FetchAdd(0), FetchAdd(1), ReadClock(1, micros), ReadClock(0, micros + 1)];
    assert a[..3][..2] == a[..2] && a[..2][..1] == a[..1] && a[..1][..0] == [];
    assert Run(a[..1]) == State(1, map[0 := Counted(0, 0)], 1);
    assert Run(a[..2]) == State(2, map[0 := Counted(0, 0), 1 := Counted(1, 1)], 2);
    assert Run(a[..3]).calls[1] == Done(1, 1, micros, 2, micros + 1);
    assert Run(a[..3]).calls[0] == Counted(0, 0);
  }

  // ---------------------------------------------------------------- TypeScript

  const IDS_PER_MILLISECOND: nat := 1_000_000

  /** The id of the `n`-th call, counting from one, at `Date.now() == millis`. */
  function TsId(millis: nat, n: nat): nat {
    millis * IDS_PER_MILLISECOND + n
  }

  class IdGenerator {
    var msgIdCounter: nat

    constructor ()
      ensures msgIdCounter == 0
    {
      msgIdCounter := 0;
    }

    method GenerateMsgId(now: nat) returns (id: nat)
      modifies this
      ensures msgIdCounter == old(msgIdCounter) + 1 && id == TsId(now, msgIdCounter)
    {
      msgIdCounter := msgIdCounter + 1;
      id := now * 1000000 + msgIdCounter;
    }
  }

  /** A run of calls of one generator. */
  method GenerateAll(clocks: seq<nat>) returns (ids: seq<nat>)
    ensures ids == TsIds(clocks)
  {
    var generator := new IdGenerator();
    ids := [];
    for i := 0 to |clocks|
      invariant generator.msgIdCounter == i && fresh(generator)
      invariant ids == TsIds(clocks)[..i]
    {
      var id := generator.GenerateMsgId(clocks[i]);
      ids := ids + [id];
    }
  }

  /** The ids of one generator for a sequence of clock readings. */
  function TsIds(clocks: seq<nat>): seq<nat> {
    seq(|clocks|, i requires 0 <= i < |clocks| => TsId(clocks[i], i + 1))
  }

  /**
   * Whatever the clock does, two ids are equal exactly when it went back by just the right number
   * of milliseconds; so ids issued fewer than a million calls apart always differ.
   */
  lemma TsIdsCollideExactly(clocks: seq<nat>, i: nat, j: nat)
    requires i < j < |clocks|
    ensures TsIds(clocks)[i] == TsIds(clocks)[j] <==> (clocks[i] - clocks[j]) * IDS_PER_MILLISECOND == j - i
    ensures j - i < IDS_PER_MILLISECOND ==> TsIds(clocks)[i] != TsIds(clocks)[j]
  {
    assert TsIds(clocks)[i] == clocks[i] * IDS_PER_MILLISECOND + i + 1;
    assert TsIds(clocks)[j] == clocks[j] * IDS_PER_MILLISECOND + j + 1;
  }

  lemma TsIdsIncrease(clocks: seq<nat>, i: nat, j: nat)
    requires i < j < |clocks| && clocks[i] <= clocks[j]
    ensures TsIds(clocks)[i] < TsIds(clocks)[j]
  {
    assert TsIds(clocks)[i] == clocks[i] * IDS_PER_MILLISECOND + i + 1;
    assert TsIds(clocks)[j] == clocks[j] * IDS_PER_MILLISECOND + j + 1;
  }

  /** Until some time in the year 2554, `writeBigUInt64BE` accepts every id. */
  lemma TsIdsFit(millis: nat, n: nat)
    requires millis <= 18446744073708 && n <= 1551615
    ensures TsId(millis, n) < TWO_POW_64
    ensures TsId(18446744073708, 1551615) + 1 == TWO_POW_64
  {
  }
}
