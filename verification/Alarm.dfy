/**
 Alarm contexts and alarms (alarm.h, alarm.c): an unsorted table of pending alarms with
 swap-with-last removal, back-pointers from the alarms into the table, a cached minimum, and a
 doubly linked list of all alarms of the context.
 */
module Alarms {
  import opened AlarmSpec

  class Alarm {
    var pendingIdx: int
    var next: Alarm?
    var prev: Alarm?

    constructor ()
      ensures pendingIdx == -1 && next == null && prev == null
    {
      pendingIdx, next, prev := -1, null, null;
    }
  }

  class AlarmContext {
    var alarms: Alarm?
    const pendingAlarms: array<Slot<Alarm>>
    var numPending: nat
    var nextClk: Clock
    var nextIdx: int

    ghost var list: seq<Alarm>  // the live alarms, in list order
    ghost var members: set<Alarm>  // the same, without the order
    ghost var freed: seq<Alarm>  // the alarms freed so far, in order
    ghost var table: Table<Alarm>  // the filled part of the pending array
    ghost var pending: Schedule<Alarm>  // what it stands for: which alarm is due when

    /** `list` is what the `alarms`, `next` and `prev` pointers spell out. */
    ghost predicate ListOk()
      reads `alarms, `list, list`next, list`prev
    {
      && Distinct(list)
      && alarms == (if list == [] then null else list[0])
      && (forall i {:trigger list[i].next} :: 0 <= i < |list| ==>
            list[i].next == (if i + 1 < |list| then list[i + 1] else null))
      && (forall i {:trigger list[i].prev} :: 0 <= i < |list| ==>
            list[i].prev == (if i > 0 then list[i - 1] else null))
    }

    /** `table` is the filled part of the pending array. */
    ghost predicate FilledOk()
      reads `numPending, `table, pendingAlarms
    {
      && numPending == |table| <= pendingAlarms.Length
      && (forall i {:trigger pendingAlarms[i]} :: 0 <= i < numPending ==> pendingAlarms[i] == table[i])
    }

    /** The table holds distinct alarms, and the back-pointers are the exact inverse of it. */
    ghost predicate TableOk()
      reads `numPending, `table, `members, members`pendingIdx, pendingAlarms
    {
      && FilledOk()
      && pendingAlarms.Length == MAX_PENDING
      && WellFormed(table)
      && (forall i {:trigger table[i]} :: 0 <= i < |table| ==> table[i].alarm in members)
      && (forall a {:trigger a.pendingIdx} :: a in members ==> a.pendingIdx == Find(table, a))
    }

    /** The cache agrees with the table. */
    ghost predicate SlotsOk()
      reads `numPending, `table, `nextClk, `nextIdx, `members, members`pendingIdx, pendingAlarms
    {
      && TableOk()
      && CacheOk(table, nextClk, nextIdx)
    }

    ghost predicate PendingOk()
      reads `numPending, `table, `nextClk, `nextIdx, `pending, `members, members`pendingIdx, pendingAlarms
    {
      && SlotsOk()
      && pending == Meaning(table)
    }

    ghost predicate Valid()
      reads this, list, members, pendingAlarms
    {
      && ListOk()
      && PendingOk()
      && members == Elements(list)
    }

    ghost function Repr(): set<object>
      reads this
    {
      {this, pendingAlarms} + members
    }

    /** `alarm_context_new`, `alarm_context_init`: the cached index is left as it happens to be. */
    constructor ()
      ensures Valid() && list == [] && pending == map[] && freed == []
      ensures fresh(Repr())
    {
      pendingAlarms := new Slot<Alarm>[MAX_PENDING](_ => Vacant);
      nextIdx := *;
      alarms := null;
      numPending := 0;
      nextClk := CLOCK_MAX;
      list, members, freed, table, pending := [], {}, [], [], map[];
    }

    /** `alarm_context_update_next_pending`; among equal clocks the last slot wins. */
    method UpdateNextPending()
      requires FilledOk() && WellFormed(table)
      modifies `nextClk, `nextIdx
      ensures CacheOk(table, nextClk, nextIdx)
      ensures numPending == 0 ==> nextIdx == old(nextIdx) && nextClk == CLOCK_MAX
      ensures numPending > 0 ==> 0 <= nextIdx < numPending && table[nextIdx].clk == nextClk
      ensures forall i :: 0 <= i < numPending && nextIdx < i ==> nextClk < table[i].clk
    {
      var clk: Clock := CLOCK_MAX;
      var idx := nextIdx;
      var i := 0;
      while i < numPending
        invariant 0 <= i <= numPending
        invariant forall j :: 0 <= j < i ==> clk <= table[j].clk
        invariant i == 0 ==> clk == CLOCK_MAX && idx == nextIdx
        invariant i > 0 ==> 0 <= idx < i && table[idx].clk == clk
        invariant i > 0 ==> forall j :: idx < j < i ==> clk < table[j].clk
      {
        assert pendingAlarms[i] == table[i];
        var pendingClk := pendingAlarms[i].clk;
        if pendingClk <= clk {
          clk := pendingClk;
          idx := i;
        }
        i := i + 1;
      }
      nextClk := clk;
      nextIdx := idx;
    }

    /** The part of `alarm_set` that fills a fresh slot at the end of the table. */
    method Append(a: Alarm, cpuClk: Clock)
      requires TableOk() && a in members && a.pendingIdx < 0 && numPending < MAX_PENDING
      modifies `numPending, `table, pendingAlarms, a`pendingIdx
      ensures TableOk()
      ensures table == old(table) + [Slot(a, cpuClk)]
    {
      ghost var t := table;
      var newIdx := numPending;
      AppendMeaning(t, a, cpuClk);
      pendingAlarms[newIdx] := Slot(a, cpuClk);
      numPending := numPending + 1;
      a.pendingIdx := newIdx;
      table := t + [Slot(a, cpuClk)];
    }

    /** `alarm_set`, not pending yet: add. */
    method Add(a: Alarm, cpuClk: Clock)
      requires SlotsOk() && a in members && a.pendingIdx < 0
      modifies `numPending, `table, `nextClk, `nextIdx, pendingAlarms, a`pendingIdx
      ensures SlotsOk()
      ensures table ==
              if old(numPending) < MAX_PENDING then old(table) + [Slot(a, cpuClk)] else old(table)
    {
      var newIdx := numPending;
      if newIdx >= MAX_PENDING {
        return;  // alarm_log_too_many_alarms
      }
      Append(a, cpuClk);
      if cpuClk < nextClk {
        nextClk := cpuClk;
        nextIdx := newIdx;
      }
    }

    /** `alarm_set`, already pending: modify. */
    method Move(a: Alarm, cpuClk: Clock)
      requires SlotsOk() && a in members && a.pendingIdx >= 0
      modifies `table, `nextClk, `nextIdx, pendingAlarms
      ensures SlotsOk()
      ensures table == old(table)[a.pendingIdx := Slot(a, cpuClk)]
    {
      ghost var t := table;
      var idx := a.pendingIdx;
      UpdateMeaning(t, idx, cpuClk);
      assert pendingAlarms[idx] == t[idx];
      pendingAlarms[idx] := pendingAlarms[idx].(clk := cpuClk);
      table := t[idx := Slot(a, cpuClk)];
      if nextClk > cpuClk || idx == nextIdx {
        UpdateNextPending();
      }
    }

    /** `alarm_set` */
    method Set(a: Alarm, cpuClk: Clock)
      requires PendingOk() && a in members
      modifies `numPending, `table, `pending, `nextClk, `nextIdx, pendingAlarms, a`pendingIdx
      ensures PendingOk()
      ensures pending == SetSpec(old(pending), a, cpuClk)
    {
      ghost var t := table;
      MeaningSize(t);
      MeaningAt(t, a);
      if a.pendingIdx < 0 {
        if numPending < MAX_PENDING {
          AppendMeaning(t, a, cpuClk);
        }
        Add(a, cpuClk);
      } else {
        UpdateMeaning(t, a.pendingIdx, cpuClk);
        Move(a, cpuClk);
      }
      pending := SetSpec(pending, a, cpuClk);
    }

    /** The part of `alarm_unset` that frees slot `idx` by moving the last slot into it. */
    method CloseGap(a: Alarm, idx: nat)
      requires TableOk() && a in members && a.pendingIdx == idx
      modifies `numPending, `table, pendingAlarms, members`pendingIdx
      ensures TableOk()
      ensures table == RemoveSlot(old(table), idx)
      ensures a.pendingIdx == -1
    {
      ghost var t := table;
      RemoveShape(t, idx);
      RemoveMeaning(t, idx);
      numPending := numPending - 1;
      var last := numPending;
      assert pendingAlarms[last] == t[last];
      if last != idx {
        pendingAlarms[idx] := pendingAlarms[last];
        pendingAlarms[idx].alarm.pendingIdx := idx;
      }
      a.pendingIdx := -1;
      table := RemoveSlot(t, idx);
    }

    /** `alarm_unset` of a pending alarm, with the repair of the cache. */
    method Remove(a: Alarm, idx: nat)
      requires SlotsOk() && a in members && a.pendingIdx == idx
      modifies `numPending, `table, `nextClk, `nextIdx, pendingAlarms, members`pendingIdx
      ensures SlotsOk()
      ensures table == RemoveSlot(old(table), idx)
      ensures a.pendingIdx == -1
    {
      RemoveShape(table, idx);
      CloseGap(a, idx);
      if numPending > 0 {
        var last := numPending;
        if nextIdx == idx {
          UpdateNextPending();
        } else if nextIdx == last {
          nextIdx := idx;
        }
      } else {
        nextClk := CLOCK_MAX;
        nextIdx := -1;
      }
    }

    /** `alarm_unset` */
    method Unset(a: Alarm)
      requires PendingOk() && a in members
      modifies `numPending, `table, `pending, `nextClk, `nextIdx, pendingAlarms, members`pendingIdx
      ensures PendingOk()
      ensures pending == UnsetSpec(old(pending), a)
      ensures a.pendingIdx == -1
    {
      MeaningAt(table, a);
      var idx := a.pendingIdx;
      if idx < 0 {
        return;
      }
      RemoveMeaning(table, idx);
      Remove(a, idx);
      pending := UnsetSpec(pending, a);
    }

    /** `alarm_init`'s insertion at the head of the list. */
    method Link(a: Alarm)
      requires ListOk() && a !in list
      modifies `alarms, `list, list`prev, a`next, a`prev
      ensures ListOk()
      ensures list == [a] + old(list)
    {
      ghost var was := list;
      if alarms == null {
        alarms := a;
        a.next := null;
      } else {
        a.next := alarms;
        alarms.prev := a;
        alarms := a;
      }
      a.prev := null;
      list := [a] + list;
      assert forall i :: 0 < i < |list| ==> list[i] == was[i - 1];
    }

    /** The part of `alarm_destroy` that takes the alarm out of the list. */
    method Unlink(a: Alarm, ghost k: nat)
      requires ListOk() && k < |list| && list[k] == a
      modifies `alarms, `list, list`prev, list`next
      ensures ListOk()
      ensures list == Without(old(list), k)
    {
      WithoutElements(list, k);
      Apart(list, k);
      if k > 0 { Apart(list, k - 1); }
      if k + 1 < |list| { Apart(list, k + 1); }
      ghost var was := list;
      assert a.next == (if k + 1 < |was| then was[k + 1] else null);
      assert a.prev == (if k > 0 then was[k - 1] else null);
      if a == alarms {
        alarms := a.next;
      }
      if a.next != null {
        a.next.prev := a.prev;
      }
      if a.prev != null {
        a.prev.next := a.next;
      }
      list := Without(list, k);
      assert forall i :: 0 <= i < |list| ==> list[i] == was[if i < k then i else i + 1];
    }

    /** `alarm_new` */
    method New() returns (a: Alarm)
      requires Valid()
      modifies `alarms, `list, `members, members`prev
      ensures Valid() && fresh(a)
      ensures list == [a] + old(list) && members == old(members) + {a} && freed == old(freed)
      ensures a.pendingIdx == -1 && pending == old(pending)
    {
      a := new Alarm();
      Link(a);
      Welcome(a);
    }

    /** A new alarm is an alarm of the context, not pending. */
    ghost method Welcome(a: Alarm)
      requires PendingOk() && a !in members && a.pendingIdx == -1
      modifies `members
      ensures PendingOk() && members == old(members) + {a}
    {
      FindNone(table, a);
      members := members + {a};
    }

    /** `alarm_destroy` of an alarm at position `k` of the list. */
    method Discard(a: Alarm, ghost k: nat)
      requires Valid() && k < |list| && list[k] == a
      modifies this, pendingAlarms, members
      ensures Valid() && freed == old(freed) + [a]
      ensures list == Without(old(list), k) && members == old(members) - {a}
      ensures pending == UnsetSpec(old(pending), a)
    {
      WithoutElements(list, k);
      Retire(a);
      Unlink(a, k);
    }

    /** Both ends of `alarm_destroy`: the alarm is unset first and freed last. */
    method Retire(a: Alarm)
      requires PendingOk() && a in members
      modifies `numPending, `table, `pending, `nextClk, `nextIdx, `members, `freed, pendingAlarms, members`pendingIdx
      ensures PendingOk()
      ensures members == old(members) - {a} && freed == old(freed) + [a]
      ensures pending == UnsetSpec(old(pending), a)
    {
      Unset(a);
      Forget(a);
    }

    /** `lib_free`: a freed alarm is no alarm of the context. */
    ghost method Forget(a: Alarm)
      requires PendingOk() && a in members && a.pendingIdx == -1
      modifies `members, `freed
      ensures PendingOk()
      ensures members == old(members) - {a} && freed == old(freed) + [a]
    {
      NotInTable(a);
      members := members - {a};
      freed := freed + [a];
    }

    /** `alarm_destroy` */
    method Destroy(a: Alarm?)
      requires Valid() && (a != null ==> a in members)
      modifies this, pendingAlarms, members
      ensures Valid()
      ensures a == null ==> list == old(list) && pending == old(pending)
      ensures a != null ==>
                && freed == old(freed) + [a]
                && members == old(members) - {a}
                && pending == UnsetSpec(old(pending), a)
                && exists k :: 0 <= k < |old(list)| && old(list)[k] == a && list == Without(old(list), k)
    {
      if a == null {
        return;
      }
      ghost var k :| 0 <= k < |list| && list[k] == a;
      Discard(a, k);
    }

    /** One round of `alarm_context_destroy`: the successor is saved before the alarm is freed. */
    method DestroyHead(ap: Alarm) returns (apNext: Alarm?)
      requires Valid() && ap == alarms
      modifies this, pendingAlarms, members
      ensures Valid() && apNext == alarms
      ensures |list| < |old(list)| && members <= old(members)
      ensures freed + list == old(freed + list)
    {
      assert ap == list[0] && Without(list, 0) == list[1..];
      assert ap.next == (if |list| > 1 then list[1] else null);
      apNext := ap.next;
      Discard(ap, 0);
    }

    /** `alarm_context_destroy`: the walk ends, having freed every alarm of the list, each once. */
    method DestroyAll()
      requires Valid()
      modifies this, pendingAlarms, members
      ensures freed == old(freed) + old(list)
      ensures Valid() && list == [] && pending == map[]
    {
      ghost var all := members;
      var ap := alarms;
      while ap != null
        invariant Valid() && ap == alarms && members <= all
        invariant freed + list == old(freed + list)
        decreases |list|
      {
        ap := DestroyHead(ap);
      }
      EmptyTable();
    }

    // -------------------------------------------------------------- runs of creating and destroying

    /** Since `o`: the list holds `all` but the alarms in `dead`, in the same order; these have been freed, each
        once; and the table has seen the calls `ops`. */
    ghost predicate Lived(h: History<Alarm>, o: Origin)
      reads `list, `freed, `pending
    {
      && Distinct(h.all) && Distinct(h.dead)
      && list == Alive(h.all, Elements(h.dead))
      && freed == o.freed + h.dead
      && pending == ApplyAll(o.pending, h.ops)
    }

    method Create(ghost h: History<Alarm>, ghost o: Origin)
      returns (a: Alarm, ghost h': History<Alarm>)
      requires Valid() && Lived(h, o)
      modifies `alarms, `list, `members, members`prev
      ensures Valid() && fresh(a) && members == old(members) + {a}
      ensures h' == h.(all := [a] + h.all) && Lived(h', o)
    {
      a := New();
      h' := h.(all := [a] + h.all);
      assert h'.all[1..] == h.all;
    }

    method Kill(a: Alarm, ghost h: History<Alarm>, ghost o: Origin)
      returns (ghost h': History<Alarm>)
      requires Valid() && a in members && Lived(h, o)
      modifies this, pendingAlarms, members
      ensures Valid() && members == old(members) - {a}
      ensures h' == h.(dead := h.dead + [a], ops := h.ops + [UnsetOp(a)]) && Lived(h', o)
    {
      ghost var k :| 0 <= k < |list| && list[k] == a;
      h' := h.(dead := h.dead + [a], ops := h.ops + [UnsetOp(a)]);
      AliveWithout(h.all, Elements(h.dead), k);
      AliveNotDead(h.all, Elements(h.dead), k);
      DistinctSnoc(h.dead, a);
      assert Elements(h'.dead) == Elements(h.dead) + {a};
      ApplySnoc(o.pending, h.ops, UnsetOp(a));
      Discard(a, k);
    }

    method Ask(op: Op<Alarm>, ghost h: History<Alarm>, ghost o: Origin)
      returns (ghost h': History<Alarm>)
      requires Valid() && op.alarm in members && Lived(h, o)
      modifies `numPending, `table, `pending, `nextClk, `nextIdx, pendingAlarms, members`pendingIdx
      ensures Valid()
      ensures h' == h.(ops := h.ops + [op]) && Lived(h', o)
    {
      h' := h.(ops := h.ops + [op]);
      ApplySnoc(o.pending, h.ops, op);
      Perform(op);
    }

    method Register(handles: seq<Alarm>, live: seq<bool>, ghost h: History<Alarm>, ghost o: Origin)
      returns (a: Alarm, ghost h': History<Alarm>)
      requires Valid() && Lived(h, o) && Known(handles, live, members)
      modifies `alarms, `list, `members, members`prev
      ensures Valid() && Lived(h', o) && Known(handles + [a], live + [true], members) && fresh(members - old(members))
      ensures h' == h.(all := [a] + h.all)
    {
      ghost var was := members;
      a, h' := Create(h, o);
      KnownWith(handles, live, was, a);
    }

    /** One request, of an alarm that has not been destroyed */
    method Grant(r: Request, a: Alarm, ghost h: History<Alarm>, ghost o: Origin) returns (ghost h': History<Alarm>)
      requires Valid() && Lived(h, o) && a in members && !r.NewReq?
      modifies this, pendingAlarms, members
      ensures Valid() && Lived(h', o)
      ensures h' == History(h.all, if r.DestroyReq? then h.dead + [a] else h.dead, h.ops + [CallFor(r, a)])
      ensures members == if r.DestroyReq? then old(members) - {a} else old(members)
    {
      match r {
        case DestroyReq(_) => h' := Kill(a, h, o);
        case SetReq(_, at) => h' := Ask(SetOp(a, at), h, o);
        case UnsetReq(_) => h' := Ask(UnsetOp(a), h, o);
      }
    }

    method Attend(
        r: Request, handles: seq<Alarm>, live: seq<bool>, ghost h: History<Alarm>, ghost o: Origin)
      returns (live': seq<bool>, ghost h': History<Alarm>)
      requires Valid() && Lived(h, o) && Known(handles, live, members) && !r.NewReq?
      modifies this, pendingAlarms, members
      ensures Valid() && Lived(h', o) && Known(handles, live', members) && members <= old(members)
      ensures live' == LiveNext(r, live)
      ensures h' == History(h.all, h.dead + DeadBy(r, handles, live), h.ops + CallsBy(r, handles, live))
    {
      live', h' := live, h;
      if Stands(r, live) {
        KnownWithout(handles, live, members, r.which);
        h' := Grant(r, handles[r.which], h, o);
        if r.DestroyReq? {
          live' := live[r.which := false];
        }
      }
    }

    /** Any sequence of `alarm_new`, `alarm_destroy`, `alarm_set` and `alarm_unset` by callers who do not use an
        alarm that they have destroyed; `given` are the alarms they have to begin with. */
    method Serve(requests: seq<Request>, given: seq<Alarm>) returns (handles: seq<Alarm>, ghost h: History<Alarm>)
      requires Valid() && Distinct(given) && forall k :: 0 <= k < |given| ==> given[k] in members
      modifies this, pendingAlarms, members
      ensures Valid() && Lived(h, Origin(old(list), old(freed), old(pending)))
      ensures Distinct(handles) && Created(given, handles, old(list), h.all) && Asked(requests, |given|, handles, h)
    {
      ghost var o := Origin(list, freed, pending);
      handles := given;
      var live := seq(|given|, _ => true);
      h := Begin(o);
      BooksOpened(given, o.list);
      for i := 0 to |requests|
        invariant Valid() && fresh(members - old(members)) && Lived(h, o) && Known(handles, live, members)
        invariant Books(requests[..i], given, handles, live, o.list, h)
      {
        BooksKept(requests, i, given, handles, live, o.list, h);
        if requests[i].NewReq? {
          var a;
          a, h := Register(handles, live, h, o);
          BooksGrow(requests, i, given, handles, live, o.list, h.(all := h.all[1..]), a);
          handles, live := handles + [a], live + [true];
        } else {
          live, h := Attend(requests[i], handles, live, h, o);
        }
      }
      assert requests[..|requests|] == requests;
    }

    lemma Begin(o: Origin) returns (h: History<Alarm>)
      requires Valid() && o == Origin(list, freed, pending)
      ensures h == History(list, [], []) && Lived(h, o)
    {
      h := History(list, [], []);
      AliveAll(list);
      assert Elements<Alarm>([]) == {};
    }

    lemma EmptyTable()
      requires PendingOk()
      ensures members == {} ==> pending == map[]
    {
      if numPending > 0 {
        assert table[0].alarm in members;
      }
    }

    lemma NotInTable(a: Alarm)
      requires TableOk() && a in members && a.pendingIdx == -1
      ensures forall i :: 0 <= i < numPending ==> table[i].alarm != a
    {
      forall i | 0 <= i < numPending
        ensures table[i].alarm != a
      {
        FindAt(table, i);
      }
    }

    /** A context with no more alarms than the table has slots always has room for another one. */
    lemma HasRoom(a: Alarm)
      requires PendingOk() && a in members && |members| <= MAX_PENDING
      ensures a in pending || |pending| < MAX_PENDING
    {
      var keys := pending.Keys;
      forall b | b in keys
        ensures b in members
      {
        MeaningAt(table, b);
      }
      if a !in keys {
        SubsetSize(keys, members - {a});
      }
    }

    lemma NotPending(a: Alarm)
      requires PendingOk() && a in members && a.pendingIdx == -1
      ensures a !in pending
    {
      MeaningAt(table, a);
    }

    // -------------------------------------------------------------- runs and dispatching

    /** Any sequence of `alarm_set` and `alarm_unset` on alarms of this context. */
    method Run(ops: seq<Op<Alarm>>)
      requires PendingOk() && forall i :: 0 <= i < |ops| ==> ops[i].alarm in members
      modifies `numPending, `table, `pending, `nextClk, `nextIdx, pendingAlarms, members`pendingIdx
      ensures PendingOk()
      ensures pending == ApplyAll(old(pending), ops)
    {
      ghost var start := pending;
      var i := 0;
      while i < |ops|
        invariant 0 <= i <= |ops|
        invariant PendingOk()
        invariant pending == ApplyAll(start, ops[..i])
      {
        assert ops[..i + 1][..i] == ops[..i];
        Perform(ops[i]);
        i := i + 1;
      }
      assert ops[..i] == ops;
    }

    method Perform(op: Op<Alarm>)
      requires PendingOk() && op.alarm in members
      modifies `numPending, `table, `pending, `nextClk, `nextIdx, pendingAlarms, members`pendingIdx
      ensures PendingOk()
      ensures pending == Apply(old(pending), op)
    {
      match op {
        case SetOp(a, at) => Set(a, at);
        case UnsetOp(a) => Unset(a);
      }
    }

    /** `alarm_context_next_pending_clk`: constant time, but the minimum of the whole schedule. */
    method NextPendingClk() returns (clk: Clock)
      requires PendingOk()
      ensures IsNext(pending, clk)
    {
      CacheIsNext(table, nextClk, nextIdx);
      clk := nextClk;
    }

    /** `alarm_context_dispatch` up to the call: which alarm, and the offset handed to it. */
    method Dispatch(cpuClk: Clock) returns (a: Alarm, offset: Clock)
      requires PendingOk() && nextClk <= cpuClk < CLOCK_MAX
      ensures a in members && a in pending && pending[a] == cpuClk - offset
      ensures forall b :: b in pending ==> pending[a] <= pending[b]
    {
      CacheIsNext(table, nextClk, nextIdx);
      assert pendingAlarms[nextIdx] == table[nextIdx];
      offset := cpuClk - nextClk;
      a := pendingAlarms[nextIdx].alarm;
    }

    /** What the loop needs of the callbacks, at any clock up to `limit`. */
    ghost predicate Behaved(callback: Callback<Alarm>, limit: Clock)
      reads `members
    {
      forall n, a, s: Clock, o: Clock :: a in members && s + o <= limit ==>
        && CallbackOps(callback(n, Event(a, s, o)), a, s + o)
        && forall op :: op in callback(n, Event(a, s, o)) ==> op.alarm in members
    }

    /** One round of the loop: number `n` is dispatched and its callback runs. */
    method Round(cpuClk: Clock, callback: Callback<Alarm>, n: nat) returns (e: Event<Alarm>)
      requires PendingOk() && nextClk <= cpuClk < CLOCK_MAX && Behaved(callback, cpuClk)
      modifies `numPending, `table, `pending, `nextClk, `nextIdx, pendingAlarms, members`pendingIdx
      ensures PendingOk()
      ensures ServesNext(old(pending), e, cpuClk) && ClockOf(e) == cpuClk
      ensures CallbackOps(callback(n, e), e.alarm, cpuClk)
      ensures pending == ApplyAll(old(pending), callback(n, e))
      ensures Due(pending, cpuClk) < old(Due(pending, cpuClk))
    {
      var a, offset := Dispatch(cpuClk);
      e := Event(a, cpuClk - offset, offset);
      assert ClockOf(e) == cpuClk;
      var ops := callback(n, e);
      CallbackShrinksDue(pending, ops, a, cpuClk);
      Run(ops);
    }

    /** `PROCESS_ALARMS`: while the CPU clock has reached the next pending clock, dispatch, and let the clock go
        on (`CPU_DELAY_CLK`), but not beyond `limit`. */
    method ProcessAlarms(cpuClk: Clock, callback: Callback<Alarm>, delay: Delay, limit: Clock)
      returns (served: seq<Event<Alarm>>, clk: Clock)
      requires PendingOk() && cpuClk <= limit < CLOCK_MAX && Behaved(callback, limit) && Bounded(delay, limit)
      modifies `numPending, `table, `pending, `nextClk, `nextIdx, pendingAlarms, members`pendingIdx
      ensures PendingOk()
      ensures Dispatched(old(pending), served, callback, cpuClk) && Clocked(served, delay, cpuClk, clk)
      ensures pending == After(old(pending), served, callback)
      ensures cpuClk <= clk <= limit && Due(pending, clk) == {}
    {
      ghost var start := pending;
      served, clk := [], cpuClk;
      while clk >= nextClk
        invariant PendingOk() && cpuClk <= Reached(cpuClk, served) <= clk <= limit
        invariant Dispatched(start, served, callback, cpuClk) && Clocked(served, delay, cpuClk, clk)
        invariant pending == After(start, served, callback)
        decreases limit - clk, Due(pending, clk)
      {
        var e := Round(clk, callback, |served|);
        ExtendDispatched(start, served, e, callback, cpuClk);
        ClockedOn(served, e, delay, cpuClk, clk);
        clk := delay(|served|, clk);
        served := served + [e];
      }
      CacheIsNext(table, nextClk, nextIdx);
    }
  }

  /** What a device can ask for; alarms are named by their places in the order of creation. */
  datatype Request = NewReq | DestroyReq(which: nat) | SetReq(which: nat, at: Clock) | UnsetReq(which: nat)

  /** A context as it was: its list, the alarms freed so far, and the schedule. */
  datatype Origin = Origin(list: seq<Alarm>, freed: seq<Alarm>, pending: Schedule<Alarm>)

  /** All alarms there have been, as the list would be had none been destroyed; those destroyed, in order; and
      the calls that the pending table has seen. */
  datatype History<A> = History(all: seq<A>, dead: seq<A>, ops: seq<Op<A>>)

  ghost function Elements<A>(s: seq<A>): set<A> {
    set a | a in s
  }

  ghost predicate Distinct<A>(s: seq<A>) {
    s == [] || (s[0] !in s[1..] && Distinct(s[1..]))
  }

  lemma {:induction false} DistinctPairs<A>(s: seq<A>)
    ensures Distinct(s) <==> forall i, j :: 0 <= i < j < |s| ==> s[i] != s[j]
  {
    if s != [] {
      var t := s[1..];
      DistinctPairs(t);
      assert forall i :: 0 < i < |s| ==> s[i] == t[i - 1];
      assert forall i :: 0 <= i < |t| ==> t[i] == s[i + 1];
    }
  }

  lemma Apart<A>(s: seq<A>, k: nat)
    requires Distinct(s) && k < |s|
    ensures forall i :: 0 <= i < |s| && i != k ==> s[i] != s[k]
  {
    DistinctPairs(s);
  }

  /** The list with position `k` taken out, everything else in the same order. */
  ghost function Without<A>(s: seq<A>, k: nat): seq<A>
    requires k < |s|
  {
    s[..k] + s[k + 1..]
  }

  lemma WithoutElements<A>(s: seq<A>, k: nat)
    requires Distinct(s) && k < |s|
    ensures Distinct(Without(s, k))
    ensures Elements(Without(s, k)) == Elements(s) - {s[k]}
  {
    var t := Without(s, k);
    DistinctPairs(s);
    DistinctPairs(t);
    forall a | a in s && a != s[k]
      ensures a in t
    {
      var i :| 0 <= i < |s| && s[i] == a;
      assert t[if i < k then i else i - 1] == a;
    }
  }

  /** The callers know their alarms, and which of them they have not destroyed. */
  ghost predicate Known<A>(handles: seq<A>, live: seq<bool>, members: set<A>) {
    |live| == |handles| && Distinct(handles) && forall k :: 0 <= k < |live| && live[k] ==> handles[k] in members
  }

  lemma KnownWithout<A>(handles: seq<A>, live: seq<bool>, members: set<A>, which: nat)
    requires Known(handles, live, members) && which < |live| && live[which]
    ensures handles[which] in members
    ensures Known(handles, live[which := false], members - {handles[which]})
  {
    Apart(handles, which);
  }

  lemma KnownWith<A>(handles: seq<A>, live: seq<bool>, members: set<A>, a: A)
    requires Known(handles, live, members) && a !in handles
    ensures Known(handles + [a], live + [true], members + {a})
  {
    DistinctSnoc(handles, a);
  }

  /** The request is about an alarm that has been created and not destroyed. */
  predicate Stands(r: Request, live: seq<bool>) {
    !r.NewReq? && r.which < |live| && live[r.which]
  }

  /** What a request makes of the alarms that are alive, of those destroyed and of the pending table. */
  function LiveNext(r: Request, live: seq<bool>): seq<bool> {
    if r.NewReq? then live + [true]
    else if r.DestroyReq? && Stands(r, live) then live[r.which := false]
    else live
  }

  function DeadBy<A>(r: Request, handles: seq<A>, live: seq<bool>): seq<A>
    requires |live| <= |handles|
  {
    if r.DestroyReq? && Stands(r, live) then [handles[r.which]] else []
  }

  function CallFor<A>(r: Request, a: A): Op<A>
    requires !r.NewReq?
  {
    if r.SetReq? then SetOp(a, r.at) else UnsetOp(a)
  }

  function CallsBy<A>(r: Request, handles: seq<A>, live: seq<bool>): seq<Op<A>>
    requires |live| <= |handles|
  {
    if Stands(r, live) then [CallFor(r, handles[r.which])] else []
  }

  /** The same for a sequence of requests, by callers who had `n` alarms to begin with. */
  function LiveAfter(n: nat, requests: seq<Request>): (live: seq<bool>)
    ensures |live| >= n
  {
    if requests == [] then seq(n, _ => true)
    else LiveNext(requests[|requests| - 1], LiveAfter(n, requests[..|requests| - 1]))
  }

  function DeadAfter<A>(n: nat, requests: seq<Request>, handles: seq<A>): seq<A>
    requires |LiveAfter(n, requests)| <= |handles|
  {
    if requests == [] then []
    else
      var front, last := requests[..|requests| - 1], requests[|requests| - 1];
      DeadAfter(n, front, handles) + DeadBy(last, handles, LiveAfter(n, front))
  }

  function CallsAfter<A>(n: nat, requests: seq<Request>, handles: seq<A>): seq<Op<A>>
    requires |LiveAfter(n, requests)| <= |handles|
  {
    if requests == [] then []
    else
      var front, last := requests[..|requests| - 1], requests[|requests| - 1];
      CallsAfter(n, front, handles) + CallsBy(last, handles, LiveAfter(n, front))
  }

  /** The history is the one that the requests ask for. */
  ghost predicate Asked<A>(requests: seq<Request>, n: nat, handles: seq<A>, h: History<A>) {
    && |LiveAfter(n, requests)| == |handles|
    && h.dead == DeadAfter(n, requests, handles) && h.ops == CallsAfter(n, requests, handles)
  }

  /** Alarms created later make no difference. */
  lemma {:induction false} AskedMore<A>(requests: seq<Request>, n: nat, handles: seq<A>, a: A)
    requires |LiveAfter(n, requests)| <= |handles|
    ensures DeadAfter(n, requests, handles + [a]) == DeadAfter(n, requests, handles)
    ensures CallsAfter(n, requests, handles + [a]) == CallsAfter(n, requests, handles)
  {
    if requests != [] {
      AskedMore(requests[..|requests| - 1], n, handles, a);
    }
  }

  /** All of this together. */
  ghost predicate Books<A>(
    requests: seq<Request>, given: seq<A>, handles: seq<A>, live: seq<bool>, list: seq<A>, h: History<A>)
  {
    && live == LiveAfter(|given|, requests)
    && Asked(requests, |given|, handles, h)
    && Created(given, handles, list, h.all)
  }

  lemma BooksOpened<A>(given: seq<A>, list: seq<A>)
    ensures Books([], given, given, seq(|given|, _ => true), list, History(list, [], []))
  {
    assert given[|given|..] == [];
  }

  /** A request about an alarm there is. */
  lemma BooksKept<A>(
    requests: seq<Request>, i: nat, given: seq<A>, handles: seq<A>, live: seq<bool>, list: seq<A>, h: History<A>)
    requires i < |requests| && Books(requests[..i], given, handles, live, list, h)
    ensures !requests[i].NewReq? ==>
              Books(requests[..i + 1], given, handles, LiveNext(requests[i], live), list,
                    h.(dead := h.dead + DeadBy(requests[i], handles, live),
                       ops := h.ops + CallsBy(requests[i], handles, live)))
  {
    assert requests[..i + 1][..i] == requests[..i];
  }

  /** A new alarm. */
  lemma BooksGrow<A>(
    requests: seq<Request>, i: nat, given: seq<A>, handles: seq<A>, live: seq<bool>, list: seq<A>, h: History<A>,
    a: A)
    requires i < |requests| && requests[i].NewReq? && Books(requests[..i], given, handles, live, list, h)
    ensures Books(requests[..i + 1], given, handles + [a], live + [true], list, h.(all := [a] + h.all))
  {
    assert requests[..i + 1][..i] == requests[..i];
    AskedMore(requests[..i], |given|, handles, a);
    CreatedSnoc(given, handles, list, h.all, a);
  }

  /** The alarms created since the callers had `given` are in front of the list, the latest first. */
  ghost predicate Created<A>(given: seq<A>, handles: seq<A>, list: seq<A>, all: seq<A>) {
    given <= handles && all == Reversed(handles[|given|..]) + list
  }

  lemma CreatedSnoc<A>(given: seq<A>, handles: seq<A>, list: seq<A>, all: seq<A>, a: A)
    requires Created(given, handles, list, all)
    ensures Created(given, handles + [a], list, [a] + all)
  {
    ReversedSnoc(handles[|given|..], a);
    assert (handles + [a])[|given|..] == handles[|given|..] + [a];
  }

  /** What is left of a list when some of its alarms are gone. */
  ghost function Alive<A>(all: seq<A>, dead: set<A>): seq<A> {
    if all == [] then []
    else if all[0] in dead then Alive(all[1..], dead)
    else [all[0]] + Alive(all[1..], dead)
  }

  lemma {:induction false} AliveAll<A>(all: seq<A>)
    ensures Alive(all, {}) == all
  {
    if all != [] {
      AliveAll(all[1..]);
    }
  }

  lemma {:induction false} AliveNotDead<A>(all: seq<A>, dead: set<A>, k: nat)
    requires k < |Alive(all, dead)|
    ensures Alive(all, dead)[k] in all && Alive(all, dead)[k] !in dead
  {
    if all[0] in dead {
      AliveNotDead(all[1..], dead, k);
    } else if k > 0 {
      AliveNotDead(all[1..], dead, k - 1);
    }
  }

  lemma {:induction false} AliveUntouched<A>(all: seq<A>, dead: set<A>, a: A)
    requires a !in all
    ensures Alive(all, dead + {a}) == Alive(all, dead)
  {
    if all != [] {
      AliveUntouched(all[1..], dead, a);
    }
  }

  /** One alarm more is gone: the others keep their order. */
  lemma {:induction false} AliveWithout<A>(all: seq<A>, dead: set<A>, k: nat)
    requires Distinct(all) && k < |Alive(all, dead)|
    ensures Alive(all, dead + {Alive(all, dead)[k]}) == Without(Alive(all, dead), k)
  {
    var a := Alive(all, dead)[k];
    if all[0] in dead {
      AliveWithout(all[1..], dead, k);
    } else if k == 0 {
      AliveUntouched(all[1..], dead, a);
    } else {
      AliveNotDead(all[1..], dead, k - 1);
      AliveWithout(all[1..], dead, k - 1);
    }
  }

  lemma DistinctSnoc<A>(s: seq<A>, a: A)
    requires Distinct(s) && a !in s
    ensures Distinct(s + [a])
  {
    DistinctPairs(s);
    DistinctPairs(s + [a]);
  }

  function Reversed<A>(s: seq<A>): seq<A> {
    if s == [] then [] else Reversed(s[1..]) + [s[0]]
  }

  lemma {:induction false} ReversedSnoc<A>(s: seq<A>, a: A)
    ensures Reversed(s + [a]) == [a] + Reversed(s)
  {
    if s != [] {
      ReversedSnoc(s[1..], a);
      assert (s + [a])[1..] == s[1..] + [a];
    }
  }
}
