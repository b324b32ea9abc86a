/**
 The abstract meaning of an alarm context: a finite map from alarms to the clock each is
 scheduled at, bounded by the size of the pending table.
 */
module AlarmSpec {

  const CLOCK_MAX: nat := 0xFFFF_FFFF_FFFF_FFFF

  type Clock = n: nat | n <= CLOCK_MAX

  const MAX_PENDING: nat := 0x100

  type Schedule<A> = map<A, Clock>

  // ---------------------------------------------------------------- the pending table

  /** One entry of the pending table; entries at or beyond the fill level are vacant or stale. */
  datatype Slot<A> = Vacant | Slot(alarm: A, clk: Clock)

  type Table<A> = seq<Slot<A>>

  ghost predicate WellFormed<A>(t: Table<A>) {
    && |t| <= MAX_PENDING
    && (forall i :: 0 <= i < |t| ==> t[i].Slot?)
    && NoRepeats(t)
  }

  /** Where an alarm sits in the table, -1 when it is not pending. */
  function Find<A(==)>(t: Table<A>, a: A): (i: int)
    ensures -1 <= i < |t|
    ensures i >= 0 ==> t[i].Slot? && t[i].alarm == a
  {
    if t == [] then -1
    else if t[|t| - 1].Slot? && t[|t| - 1].alarm == a then |t| - 1
    else Find(t[..|t| - 1], a)
  }

  ghost predicate NoRepeats<A>(t: Table<A>) {
    t == []
    || (NoRepeats(t[..|t| - 1]) && (t[|t| - 1].Slot? ==> Find(t[..|t| - 1], t[|t| - 1].alarm) == -1))
  }

  ghost predicate PairwiseDistinct<A>(t: Table<A>) {
    forall i, j :: 0 <= i < j < |t| && t[i].Slot? && t[j].Slot? ==> t[i].alarm != t[j].alarm
  }

  lemma {:induction false} FindNone<A>(t: Table<A>, a: A)
    ensures Find(t, a) == -1 <==> forall i :: 0 <= i < |t| && t[i].Slot? ==> t[i].alarm != a
  {
    if t != [] {
      var front := t[..|t| - 1];
      FindNone(front, a);
      assert forall i :: 0 <= i < |front| ==> front[i] == t[i];
    }
  }

  lemma {:induction false} NoRepeatsIff<A>(t: Table<A>)
    ensures NoRepeats(t) <==> PairwiseDistinct(t)
  {
    if t != [] {
      var front, last := t[..|t| - 1], t[|t| - 1];
      NoRepeatsIff(front);
      assert forall i :: 0 <= i < |front| ==> front[i] == t[i];
      if last.Slot? {
        FindNone(front, last.alarm);
      }
    }
  }

  /** The schedule a table stands for. */
  function Meaning<A(==)>(t: Table<A>): Schedule<A> {
    if t == [] then map[]
    else if t[|t| - 1].Vacant? then Meaning(t[..|t| - 1])
    else Meaning(t[..|t| - 1])[t[|t| - 1].alarm := t[|t| - 1].clk]
  }

  /** Removal of slot `i`: the last slot moves into it. */
  function RemoveSlot<A>(t: Table<A>, i: nat): Table<A>
    requires i < |t|
  {
    if i == |t| - 1 then t[..i] else t[..|t| - 1][i := t[|t| - 1]]
  }

  /** The cached clock is the least one in the table, `CLOCK_MAX` when there is none; below
      `CLOCK_MAX` the cached index names a slot that holds it. */
  ghost predicate CacheOk<A>(t: Table<A>, clk: Clock, idx: int)
    requires WellFormed(t)
  {
    && (forall i :: 0 <= i < |t| ==> clk <= t[i].clk)
    && (clk < CLOCK_MAX ==> 0 <= idx < |t| && t[idx].clk == clk)
  }

  lemma {:induction false} FindAt<A>(t: Table<A>, i: nat)
    requires WellFormed(t) && i < |t|
    ensures Find(t, t[i].alarm) == i
  {
    if i < |t| - 1 {
      assert t[..|t| - 1][i] == t[i];
      FindAt(t[..|t| - 1], i);
      FindNone(t[..|t| - 1], t[|t| - 1].alarm);
    }
  }

  lemma {:induction false} MeaningAt<A>(t: Table<A>, a: A)
    requires WellFormed(t)
    ensures a in Meaning(t) <==> Find(t, a) >= 0
    ensures a in Meaning(t) ==> Meaning(t)[a] == t[Find(t, a)].clk
  {
    if t != [] {
      MeaningAt(t[..|t| - 1], a);
    }
  }

  lemma {:induction false} MeaningSize<A>(t: Table<A>)
    requires WellFormed(t)
    ensures |Meaning(t)| == |t|
  {
    if t != [] {
      var front, last := t[..|t| - 1], t[|t| - 1];
      MeaningSize(front);
      MeaningAt(front, last.alarm);
    }
  }

  /** A new alarm goes to the end of the table. */
  lemma AppendMeaning<A>(t: Table<A>, a: A, clk: Clock)
    requires WellFormed(t) && |t| < MAX_PENDING && Find(t, a) == -1
    ensures WellFormed(t + [Slot(a, clk)])
    ensures Meaning(t + [Slot(a, clk)]) == Meaning(t)[a := clk]
    ensures forall b :: Find(t + [Slot(a, clk)], b) == if b == a then |t| else Find(t, b)
  {
    var t' := t + [Slot(a, clk)];
    assert t'[..|t'| - 1] == t;
  }

  lemma {:induction false} UpdateFind<A>(t: Table<A>, i: nat, clk: Clock, b: A)
    requires WellFormed(t) && i < |t|
    ensures Find(t[i := Slot(t[i].alarm, clk)], b) == Find(t, b)
  {
    var t' := t[i := Slot(t[i].alarm, clk)];
    if i < |t| - 1 {
      assert t'[..|t| - 1] == t[..|t| - 1][i := Slot(t[i].alarm, clk)];
      UpdateFind(t[..|t| - 1], i, clk, b);
    } else {
      assert t'[..|t| - 1] == t[..|t| - 1];
    }
  }

  /** A pending alarm is moved in its slot. */
  lemma UpdateMeaning<A>(t: Table<A>, i: nat, clk: Clock)
    requires WellFormed(t) && i < |t|
    ensures WellFormed(t[i := Slot(t[i].alarm, clk)])
    ensures Meaning(t[i := Slot(t[i].alarm, clk)]) == Meaning(t)[t[i].alarm := clk]
    ensures forall b :: Find(t[i := Slot(t[i].alarm, clk)], b) == Find(t, b)
  {
    var t' := t[i := Slot(t[i].alarm, clk)];
    NoRepeatsIff(t);
    NoRepeatsIff(t');
    FindAt(t, i);
    forall b
      ensures Find(t', b) == Find(t, b)
    {
      UpdateFind(t, i, clk, b);
    }
    var m := Meaning(t)[t[i].alarm := clk];
    forall b | b in Meaning(t')
      ensures b in m && m[b] == Meaning(t')[b]
    {
      MeaningAt(t, b);
      MeaningAt(t', b);
    }
    forall b | b in m
      ensures b in Meaning(t')
    {
      MeaningAt(t, b);
      MeaningAt(t', b);
    }
    assert Meaning(t').Keys == m.Keys;
  }

  lemma RemoveShape<A>(t: Table<A>, i: nat)
    requires WellFormed(t) && i < |t|
    ensures WellFormed(RemoveSlot(t, i)) && |RemoveSlot(t, i)| == |t| - 1
    ensures forall k :: 0 <= k < |t| - 1 ==> RemoveSlot(t, i)[k] == if k == i then t[|t| - 1] else t[k]
  {
    NoRepeatsIff(t);
    NoRepeatsIff(RemoveSlot(t, i));
  }

  /** Where everything is after a removal: the removed alarm nowhere, the last alarm in the freed
      slot, every other one unmoved. */
  lemma RemoveFind<A>(t: Table<A>, i: nat, b: A)
    requires WellFormed(t) && i < |t|
    ensures Find(RemoveSlot(t, i), b) ==
            if b == t[i].alarm then -1 else if b == t[|t| - 1].alarm then i else Find(t, b)
  {
    RemoveShape(t, i);
    var t', k := RemoveSlot(t, i), Find(t, b);
    FindAt(t, i);
    FindAt(t, |t| - 1);
    if k == -1 || k == i {
      AbsentAfterRemoval(t, i, b);
    } else {
      FindAt(t', if k == |t| - 1 then i else k);
    }
  }

  lemma AbsentAfterRemoval<A>(t: Table<A>, i: nat, b: A)
    requires WellFormed(t) && i < |t| && (Find(t, b) == -1 || Find(t, b) == i)
    ensures Find(RemoveSlot(t, i), b) == -1
  {
    RemoveShape(t, i);
    var t' := RemoveSlot(t, i);
    forall k | 0 <= k < |t'|
      ensures t'[k].alarm != b
    {
      FindAt(t, if k == i then |t| - 1 else k);
    }
    FindNone(t', b);
  }

  lemma RemoveMeaning<A>(t: Table<A>, i: nat)
    requires WellFormed(t) && i < |t|
    ensures WellFormed(RemoveSlot(t, i))
    ensures Meaning(RemoveSlot(t, i)) == Meaning(t) - {t[i].alarm}
    ensures forall b :: Find(RemoveSlot(t, i), b) ==
              if b == t[i].alarm then -1 else if b == t[|t| - 1].alarm then i else Find(t, b)
  {
    RemoveShape(t, i);
    var t', m := RemoveSlot(t, i), Meaning(t) - {t[i].alarm};
    forall b
      ensures Find(t', b) ==
              if b == t[i].alarm then -1 else if b == t[|t| - 1].alarm then i else Find(t, b)
    {
      RemoveFind(t, i, b);
    }
    forall b | b in Meaning(t')
      ensures b in m && m[b] == Meaning(t')[b]
    {
      RemovedAt(t, i, b);
    }
    forall b | b in m
      ensures b in Meaning(t')
    {
      RemovedAt(t, i, b);
    }
    assert Meaning(t').Keys == m.Keys;
  }

  lemma RemovedAt<A>(t: Table<A>, i: nat, b: A)
    requires WellFormed(t) && i < |t|
    ensures b in Meaning(RemoveSlot(t, i)) <==> b in Meaning(t) - {t[i].alarm}
    ensures b in Meaning(RemoveSlot(t, i)) ==> Meaning(RemoveSlot(t, i))[b] == Meaning(t)[b]
  {
    RemoveShape(t, i);
    RemoveFind(t, i, b);
    MeaningAt(t, b);
    MeaningAt(RemoveSlot(t, i), b);
    FindAt(t, i);
    FindAt(t, |t| - 1);
  }

  /** The cache agrees with the schedule. */
  lemma CacheIsNext<A>(t: Table<A>, clk: Clock, idx: int)
    requires WellFormed(t) && CacheOk(t, clk, idx)
    ensures IsNext(Meaning(t), clk)
    ensures clk < CLOCK_MAX ==> t[idx].alarm in Meaning(t) && Meaning(t)[t[idx].alarm] == clk
  {
    forall a | a in Meaning(t)
      ensures clk <= Meaning(t)[a]
    {
      MeaningAt(t, a);
    }
    if clk < CLOCK_MAX {
      FindAt(t, idx);
      MeaningAt(t, t[idx].alarm);
    }
  }

  // ---------------------------------------------------------------- operations on schedules

  /** What a caller can ask of a context. */
  datatype Op<A> = SetOp(alarm: A, at: Clock) | UnsetOp(alarm: A)

  /** `alarm_set`: a new alarm needs a free slot, a pending one is moved. */
  function SetSpec<A(==)>(m: Schedule<A>, a: A, at: Clock): Schedule<A> {
    if a in m || |m| < MAX_PENDING then m[a := at] else m
  }

  /** `alarm_unset` */
  function UnsetSpec<A(==)>(m: Schedule<A>, a: A): Schedule<A> {
    m - {a}
  }

  function Apply<A(==)>(m: Schedule<A>, op: Op<A>): Schedule<A> {
    match op
    case SetOp(a, at) => SetSpec(m, a, at)
    case UnsetOp(a) => UnsetSpec(m, a)
  }

  function ApplyAll<A(==)>(m: Schedule<A>, ops: seq<Op<A>>): Schedule<A> {
    if ops == [] then m else Apply(ApplyAll(m, ops[..|ops| - 1]), ops[|ops| - 1])
  }

  lemma ApplySnoc<A>(m: Schedule<A>, ops: seq<Op<A>>, op: Op<A>)
    ensures ApplyAll(m, ops + [op]) == Apply(ApplyAll(m, ops), op)
  {
    assert (ops + [op])[..|ops + [op]| - 1] == ops;
  }

  /** The alarms that `while (CLK >= next)` has to serve at clock `clk`. */
  ghost function Due<A>(m: Schedule<A>, clk: Clock): set<A> {
    set a | a in m && m[a] <= clk
  }

  /** `least` is the cached "next pending" clock of the schedule. */
  ghost predicate IsNext<A>(m: Schedule<A>, least: Clock) {
    && (forall a :: a in m ==> least <= m[a])
    && (least < CLOCK_MAX ==> exists a :: a in m && m[a] == least)
  }

  /** What one dispatched callback may do: at least its own alarm is unset or set again, and
      nothing is scheduled at or before the present clock. */
  ghost predicate CallbackOps<A>(ops: seq<Op<A>>, own: A, clk: Clock) {
    && (exists i :: 0 <= i < |ops| && ops[i].alarm == own)
    && (forall i :: 0 <= i < |ops| && ops[i].SetOp? ==> clk < ops[i].at)
  }

  /** The cached clock is a function of the schedule. */
  lemma NextUnique<A>(m: Schedule<A>, x: Clock, y: Clock)
    requires forall a :: a in m ==> x <= m[a] && y <= m[a]
    requires x < CLOCK_MAX ==> exists a :: a in m && m[a] == x
    requires y < CLOCK_MAX ==> exists a :: a in m && m[a] == y
    ensures x == y
  {
  }

  lemma {:induction false} SubsetSize<A>(s: set<A>, t: set<A>)
    requires s <= t
    ensures |s| <= |t|
  {
    if s != {} {
      var a :| a in s;
      SubsetSize(s - {a}, t - {a});
    }
  }

  ghost predicate Names<A>(ops: seq<Op<A>>, a: A) {
    exists i :: 0 <= i < |ops| && ops[i].alarm == a
  }

  /** Every alarm an operation sequence names is afterwards absent, or at a clock the sequence
      itself asked for; every other alarm keeps its clock. */
  lemma {:induction false} ApplyAllEffect<A>(m: Schedule<A>, ops: seq<Op<A>>, a: A)
    ensures Names(ops, a) && a in ApplyAll(m, ops) ==> SetOp(a, ApplyAll(m, ops)[a]) in ops
    ensures !Names(ops, a) ==>
              (a in m <==> a in ApplyAll(m, ops)) && (a in m ==> m[a] == ApplyAll(m, ops)[a])
  {
    if ops != [] {
      var front, last := ops[..|ops| - 1], ops[|ops| - 1];
      ApplyAllEffect(m, front, a);
      assert forall op :: op in front ==> op in ops;
      assert last in ops;
      if last.alarm != a {
        NamesFront(ops, a);
      }
    }
  }

  lemma NamesFront<A>(ops: seq<Op<A>>, a: A)
    requires ops != [] && ops[|ops| - 1].alarm != a
    ensures Names(ops, a) <==> Names(ops[..|ops| - 1], a)
  {
    if Names(ops, a) {
      var i :| 0 <= i < |ops| && ops[i].alarm == a;
      assert ops[..|ops| - 1][i].alarm == a;
    }
  }

  /** A callback that runs at clock `clk` brings nothing to a clock before that: what is due at `from` after it
      was due before, is not named by it and keeps its clock; and what it does not name stays due. */
  lemma CallbackLeavesDue<A>(m: Schedule<A>, ops: seq<Op<A>>, own: A, clk: Clock, from: Clock)
    requires CallbackOps(ops, own, clk) && from <= clk
    ensures own !in Due(ApplyAll(m, ops), from)
    ensures forall a :: a in Due(ApplyAll(m, ops), from) ==> a in Due(m, from) && ApplyAll(m, ops)[a] == m[a]
    ensures forall a :: a in Due(m, from) && !Names(ops, a) ==> a in Due(ApplyAll(m, ops), from)
  {
    var m' := ApplyAll(m, ops);
    forall a | a in Due(m', from)
      ensures !Names(ops, a) && a in Due(m, from) && m'[a] == m[a]
    {
      ApplyAllEffect(m, ops, a);
    }
    forall a | a in Due(m, from) && !Names(ops, a)
      ensures a in Due(m', from)
    {
      ApplyAllEffect(m, ops, a);
    }
    assert Names(ops, own);
  }

  /** One dispatch makes progress: the served alarm stops being due, and nothing new becomes due. */
  lemma CallbackShrinksDue<A>(m: Schedule<A>, ops: seq<Op<A>>, own: A, clk: Clock)
    requires CallbackOps(ops, own, clk) && own in Due(m, clk)
    ensures Due(ApplyAll(m, ops), clk) < Due(m, clk)
  {
    CallbackLeavesDue(m, ops, own, clk, clk);
  }

  // ---------------------------------------------------------------- the dispatch loop

  /** One dispatched callback: which alarm, the clock it was scheduled at, the offset it was told. */
  datatype Event<A> = Event(alarm: A, scheduled: Clock, offset: Clock)

  /** The clock at which it was dispatched. */
  function ClockOf<A>(e: Event<A>): nat {
    e.scheduled + e.offset
  }

  /** What each callback does to the schedule: `callback(n, e)` are the calls made by the callback that is
      dispatched as number `n` of the loop, with `e`. */
  type Callback<!A> = (nat, Event<A>) -> seq<Op<A>>

  /** The schedule once the callbacks of `served` have run. */
  ghost function After<A>(m: Schedule<A>, served: seq<Event<A>>, callback: Callback<A>): Schedule<A> {
    if served == [] then m
    else
      var front, last := served[..|served| - 1], served[|served| - 1];
      ApplyAll(After(m, front, callback), callback(|front|, last))
  }

  /** `e` serves an alarm that is due at `clk` and scheduled no later than any other one. */
  ghost predicate ServesNext<A>(m: Schedule<A>, e: Event<A>, clk: Clock) {
    && e.alarm in Due(m, clk) && m[e.alarm] == e.scheduled
    && e.offset == clk - e.scheduled
    && forall b :: b in m ==> e.scheduled <= m[b]
  }

  /** The clock that the loop has reached. */
  function Reached<A>(from: nat, served: seq<Event<A>>): nat {
    if served == [] then from else ClockOf(served[|served| - 1])
  }

  /** `served` is a run of the loop from clock `from` on: each step serves the next due alarm of its own time.
      The clock may go on between the steps. */
  ghost predicate Dispatched<A>(m: Schedule<A>, served: seq<Event<A>>, callback: Callback<A>, from: Clock) {
    served == []
    || (var front, last := served[..|served| - 1], served[|served| - 1];
        Dispatched(m, front, callback, from)
        && from <= Reached(from, front) <= ClockOf(last) <= CLOCK_MAX
        && CallbackOps(callback(|front|, last), last.alarm, ClockOf(last))
        && ServesNext(After(m, front, callback), last, ClockOf(last)))
  }

  lemma ExtendDispatched<A>(m: Schedule<A>, served: seq<Event<A>>, e: Event<A>, callback: Callback<A>, from: Clock)
    requires Dispatched(m, served, callback, from) && from <= Reached(from, served) <= ClockOf(e) <= CLOCK_MAX
    requires CallbackOps(callback(|served|, e), e.alarm, ClockOf(e))
    requires ServesNext(After(m, served, callback), e, ClockOf(e))
    ensures Dispatched(m, served + [e], callback, from)
    ensures After(m, served + [e], callback) == ApplyAll(After(m, served, callback), callback(|served|, e))
    ensures Reached(from, served + [e]) == ClockOf(e)
  {
    assert (served + [e])[..|served + [e]| - 1] == served;
  }

  /** What becomes of the clock behind dispatch number n. */
  type Delay = (nat, Clock) -> Clock

  /** The clock does not go back, nor beyond `limit`. */
  ghost predicate Bounded(delay: Delay, limit: Clock) {
    forall n: nat, clk: Clock :: clk <= limit ==> clk <= delay(n, clk) <= limit
  }

  /** The clock behind `n` dispatches. */
  function ClockAfter(delay: Delay, from: Clock, n: nat): Clock {
    if n == 0 then from else delay(n - 1, ClockAfter(delay, from, n - 1))
  }

  /** Each callback has been dispatched at the clock of its turn, and now the clock is `clk`. */
  ghost predicate Clocked<A>(served: seq<Event<A>>, delay: Delay, from: Clock, clk: Clock) {
    && (forall i :: 0 <= i < |served| ==> ClockOf(served[i]) == ClockAfter(delay, from, i))
    && clk == ClockAfter(delay, from, |served|)
  }

  lemma ClockedOn<A>(served: seq<Event<A>>, e: Event<A>, delay: Delay, from: Clock, clk: Clock)
    requires Clocked(served, delay, from, clk) && ClockOf(e) == clk
    ensures Clocked(served + [e], delay, from, delay(|served|, clk))
  {
  }

  /** No callback but its own names the alarm. */
  ghost predicate LeftAlone<A>(served: seq<Event<A>>, callback: Callback<A>, a: A) {
    forall i :: 0 <= i < |served| && served[i].alarm != a ==> !Names(callback(i, served[i]), a)
  }

  ghost predicate Serves<A>(served: seq<Event<A>>, a: A) {
    exists i :: 0 <= i < |served| && served[i].alarm == a
  }

  /** What is still due at the clock of entry was due at the start, at the same clock, and has not been
      served. */
  lemma {:induction false} StillDue<A>(m: Schedule<A>, served: seq<Event<A>>, callback: Callback<A>, from: Clock, a: A)
    requires Dispatched(m, served, callback, from)
    requires a in Due(After(m, served, callback), from)
    ensures a in Due(m, from) && After(m, served, callback)[a] == m[a]
    ensures forall i :: 0 <= i < |served| ==> served[i].alarm != a
  {
    if served != [] {
      var front, last := served[..|served| - 1], served[|served| - 1];
      CallbackLeavesDue(After(m, front, callback), callback(|front|, last), last.alarm, ClockOf(last), from);
      StillDue(m, front, callback, from, a);
      assert forall i :: 0 <= i < |served| - 1 ==> served[i] == front[i];
    }
  }

  /** Whatever is pending is scheduled no earlier than anything served. */
  lemma {:induction false} NothingEarlier<A>(
    m: Schedule<A>, served: seq<Event<A>>, callback: Callback<A>, from: Clock, a: A)
    requires Dispatched(m, served, callback, from) && a in After(m, served, callback)
    ensures forall i :: 0 <= i < |served| ==> served[i].scheduled <= After(m, served, callback)[a]
  {
    if served != [] {
      var front, last := served[..|served| - 1], served[|served| - 1];
      var ops := callback(|front|, last);
      NothingEarlier(m, front, callback, from, last.alarm);
      ApplyAllEffect(After(m, front, callback), ops, a);
      assert forall i :: 0 <= i < |served| - 1 ==> served[i] == front[i];
      if Names(ops, a) {
        assert last.scheduled <= ClockOf(last) < After(m, served, callback)[a];
      }
    }
  }

  /** Every callback is told how late it is, the scheduled clocks never decrease, and what was scheduled up to
      the clock of entry was so at the start, and is served once. */
  lemma {:induction false} ServedInOrder<A>(m: Schedule<A>, served: seq<Event<A>>, callback: Callback<A>, from: Clock)
    requires Dispatched(m, served, callback, from)
    ensures forall i :: 0 <= i < |served| && served[i].scheduled <= from ==>
              served[i].alarm in Due(m, from) && served[i].scheduled == m[served[i].alarm]
    ensures forall i, j :: 0 <= i < j < |served| ==>
              && served[i].scheduled <= served[j].scheduled && ClockOf(served[i]) <= ClockOf(served[j])
              && (served[j].scheduled <= from ==> served[i].alarm != served[j].alarm)
  {
    if served != [] {
      var front, last := served[..|served| - 1], served[|served| - 1];
      ServedInOrder(m, front, callback, from);
      NothingEarlier(m, front, callback, from, last.alarm);
      if last.scheduled <= from {
        StillDue(m, front, callback, from, last.alarm);
      }
      assert forall i :: 0 <= i < |served| - 1 ==> served[i] == front[i];
    }
  }

  /** An alarm is served as it was scheduled up to clock `from`. */
  ghost predicate ServesBy<A>(served: seq<Event<A>>, a: A, from: Clock) {
    exists i :: 0 <= i < |served| && served[i].alarm == a && served[i].scheduled <= from
  }

  /** A due alarm that only its own callback touches stays due until it is served. */
  lemma {:induction false} DueUntilServed<A>(
    m: Schedule<A>, served: seq<Event<A>>, callback: Callback<A>, from: Clock, a: A)
    requires Dispatched(m, served, callback, from)
    requires a in Due(m, from) && LeftAlone(served, callback, a)
    ensures ServesBy(served, a, from) || a in Due(After(m, served, callback), from)
  {
    if served != [] {
      var front, last := served[..|served| - 1], served[|served| - 1];
      assert forall i :: 0 <= i < |front| ==> front[i] == served[i];
      DueUntilServed(m, front, callback, from, a);
      if ServesBy(front, a, from) {
        var i :| 0 <= i < |front| && front[i].alarm == a && front[i].scheduled <= from;
        assert served[i].alarm == a;
      } else if last.alarm == a {
        assert served[|served| - 1].alarm == a && last.scheduled <= from;
      } else {
        assert !Names(callback(|front|, served[|front|]), a);
        CallbackLeavesDue(After(m, front, callback), callback(|front|, last), last.alarm, ClockOf(last), from);
      }
    }
  }

  /** How many of the events, which are in order, serve what was scheduled up to clock `from`. */
  lemma {:induction false} InTimeCount<A>(served: seq<Event<A>>, from: Clock) returns (n: nat)
    requires forall i, j :: 0 <= i < j < |served| ==> served[i].scheduled <= served[j].scheduled
    ensures n <= |served| && forall i :: 0 <= i < |served| ==> (i < n <==> served[i].scheduled <= from)
  {
    if served == [] || served[|served| - 1].scheduled <= from {
      n := |served|;
    } else {
      n := InTimeCount(served[..|served| - 1], from);
    }
  }

  /** The loop goes on until nothing is due. When no callback touches another's due alarm, the alarms due at
      entry are served first, each once, and no others among them; and when the clock stands still, no others
      at all. */
  lemma ServesExactlyTheDue<A>(m: Schedule<A>, served: seq<Event<A>>, callback: Callback<A>, from: Clock)
    requires Dispatched(m, served, callback, from)
    requires Due(After(m, served, callback), from) == {}
    requires forall a :: a in Due(m, from) ==> LeftAlone(served, callback, a)
    ensures |Due(m, from)| <= |served|
    ensures forall a :: Serves(served[..|Due(m, from)|], a) <==> a in Due(m, from)
    ensures (forall i :: 0 <= i < |served| ==> ClockOf(served[i]) == from) ==> |served| == |Due(m, from)|
  {
    ServedInOrder(m, served, callback, from);
    var n := InTimeCount(served, from);
    var first := served[..n];
    forall a | a in Due(m, from)
      ensures Serves(first, a)
    {
      DueUntilServed(m, served, callback, from, a);
      var i :| 0 <= i < |served| && served[i].alarm == a && served[i].scheduled <= from;
      assert first[i].alarm == a;
    }
    assert forall i :: 0 <= i < n ==> first[i] == served[i];
    EventCount(first, Due(m, from));
  }

  lemma {:induction false} EventCount<A>(served: seq<Event<A>>, due: set<A>)
    requires forall i, j :: 0 <= i < j < |served| ==> served[i].alarm != served[j].alarm
    requires forall i :: 0 <= i < |served| ==> served[i].alarm in due
    requires forall a :: a in due ==> Serves(served, a)
    ensures |served| == |due|
  {
    if served == [] {
      assert due == {};
    } else {
      var front, last := served[..|served| - 1], served[|served| - 1];
      forall a | a in due - {last.alarm}
        ensures Serves(front, a)
      {
        var i :| 0 <= i < |served| && served[i].alarm == a;
        assert front[i].alarm == a;
      }
      EventCount(front, due - {last.alarm});
    }
  }

  /** An alarm that is not served and that no callback names keeps its clock through the loop. */
  lemma {:induction false} OthersUntouched<A>(m: Schedule<A>, served: seq<Event<A>>, callback: Callback<A>, a: A)
    requires !Serves(served, a) && LeftAlone(served, callback, a)
    ensures a in After(m, served, callback) <==> a in m
    ensures a in m ==> After(m, served, callback)[a] == m[a]
  {
    if served != [] {
      var front, last := served[..|served| - 1], served[|served| - 1];
      assert forall i :: 0 <= i < |front| ==> front[i] == served[i];
      assert served[..|served| - 1] == front;
      OthersUntouched(m, front, callback, a);
      ApplyAllEffect(After(m, front, callback), callback(|front|, last), a);
    }
  }
}
