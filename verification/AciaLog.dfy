/**
 What a log that the observer finds faithful says about the bytes on the line: none is sent twice
 or invented, and every byte received is read, discarded, dropped by a reset or still there.
 */
module AciaLog {
  import opened Basics
  import opened AciaSpec
  import opened AciaRuns
  import opened AciaObserver

  lemma {:induction false} FaithfulPrefix(log: seq<Entry>, n: nat)
    requires Faithful(log) && n <= |log|
    ensures Faithful(log[..n])
    ensures n < |log| ==> Expected(Observe(log[..n]), log[n])
  {
    if n < |log| {
      var front := log[..|log| - 1];
      if n < |log| - 1 {
        FaithfulPrefix(front, n);
        assert front[..n] == log[..n] && front[n] == log[n];
      }
    } else {
      assert log[..n] == log;
    }
  }

  // ---------------------------------------------------------------- transmission

  /** The position of the last data register write, -1 if there is none. */
  function LastWrite(log: seq<Entry>): (i: int)
    ensures -1 <= i < |log|
    ensures i >= 0 ==> log[i].Write?
  {
    if log == [] then -1
    else if log[|log| - 1].Write? then |log| - 1
    else LastWrite(log[..|log| - 1])
  }

  lemma {:induction false} LastWriteAfter(log: seq<Entry>, i: nat)
    requires i < |log| && log[i].Write?
    ensures i <= LastWrite(log)
  {
    if i < |log| - 1 {
      assert log[..|log| - 1][i] == log[i];
      LastWriteAfter(log[..|log| - 1], i);
    }
  }

  /** A byte waits to be sent only while it is the last one written, and only since then. */
  lemma {:induction false} SlotIsLastWrite(log: seq<Entry>)
    requires Observe(log).slot.Some?
    ensures LastWrite(log) >= 0 && log[LastWrite(log)].value == Observe(log).slot.value
    ensures forall j :: 0 <= j < |log| && log[j].Sent? ==> j < LastWrite(log)
  {
    var front, last := log[..|log| - 1], log[|log| - 1];
    assert forall j :: 0 <= j < |front| ==> front[j] == log[j];
    if !last.Write? {
      SlotIsLastWrite(front);
    }
  }

  /** Every byte handed to the driver is the last one written before, masked to the word length in
      force; two sends never stem from the same write, and follow the order of the writes. */
  lemma SentFromWrites(log: seq<Entry>, j: nat)
    requires Faithful(log) && j < |log| && log[j].Sent?
    ensures var i := LastWrite(log[..j]);
            && 0 <= i < j && log[i].Write? && log[j].value == Masked(log[i].value, log[j].mask)
            && forall k :: 0 <= k < j && log[k].Sent? ==> LastWrite(log[..k]) < k < i
  {
    FaithfulPrefix(log, j);
    SlotIsLastWrite(log[..j]);
    assert forall k :: 0 <= k < j ==> log[..j][k] == log[k];
  }

  /** The transmit-empty bit is off exactly from an accepted write until a byte is sent, or a
      hardware reset: a byte that was lost leaves it off. */
  lemma {:induction false} OwedMeans(log: seq<Entry>)
    ensures Observe(log).owed <==>
              exists i :: 0 <= i < |log| && log[i].Write? && log[i].accepted
                && forall k :: i < k < |log| ==> !log[k].Sent? && !log[k].HwReset?
  {
    if log != [] {
      var front, last := log[..|log| - 1], log[|log| - 1];
      assert forall j :: 0 <= j < |front| ==> front[j] == log[j];
      OwedMeans(front);
      if last.Write? && last.accepted {
        assert log[|log| - 1].accepted;
      } else if !last.Sent? && !last.HwReset? {
        if Observe(front).owed {
          var i :| 0 <= i < |front| && front[i].Write? && front[i].accepted
            && forall k :: i < k < |front| ==> !front[k].Sent? && !front[k].HwReset?;
          assert log[i].Write?;
        }
      }
    }
  }

  // ---------------------------------------------------------------- reception

  predicate Clears(e: Entry) {
    e.DataRead? || e.HwReset?
  }

  /** The byte in the buffer is the first one fetched since the buffer was last cleared. */
  lemma {:induction false} OccupantIsFirstFetch(log: seq<Entry>) returns (i: nat)
    requires Observe(log).occupant.Some?
    ensures i < |log| && log[i].Fetch?
    ensures Observe(log).occupant.value == Masked(log[i].value, log[i].mask)
    ensures Observe(log[..i]).occupant.None?
    ensures forall k :: i < k < |log| ==> !Clears(log[k])
  {
    var front, last := log[..|log| - 1], log[|log| - 1];
    assert forall j :: 0 <= j < |front| ==> front[j] == log[j];
    if Observe(front).occupant.Some? {
      i := OccupantIsFirstFetch(front);
      assert front[..i] == log[..i];
    } else {
      i := |log| - 1;
    }
  }

  /** What the program reads with the full bit set is a fetched byte, masked; different reads get
      different fetches, in order. */
  lemma ReadFromFetches(log: seq<Entry>, j: nat) returns (i: nat)
    requires Faithful(log) && j < |log| && log[j].DataRead? && log[j].unread
    ensures i < j && log[i].Fetch? && log[j].value == Masked(log[i].value, log[i].mask)
    ensures Observe(log[..i]).occupant.None?
    ensures forall k :: i < k < j ==> !Clears(log[k])
  {
    FaithfulPrefix(log, j);
    i := OccupantIsFirstFetch(log[..j]);
    assert forall k :: 0 <= k < j ==> log[..j][k] == log[k];
    assert log[..j][..i] == log[..i];
  }

  function Fetched(log: seq<Entry>): nat {
    if log == [] then 0
    else Fetched(log[..|log| - 1]) + (if log[|log| - 1].Fetch? then 1 else 0)
  }

  /** Reads of the data register that found the full bit set. */
  function ReadOut(log: seq<Entry>): nat {
    if log == [] then 0
    else ReadOut(log[..|log| - 1]) + (if log[|log| - 1].DataRead? && log[|log| - 1].unread then 1 else 0)
  }

  predicate Discards(log: seq<Entry>, k: nat)
    requires k < |log|
  {
    log[k].Fetch? && Observe(log[..k]).occupant.Some?
  }

  function Discarded(log: seq<Entry>): nat {
    if log == [] then 0
    else Discarded(log[..|log| - 1]) + (if Discards(log, |log| - 1) then 1 else 0)
  }

  /** Bytes that a hardware reset removed from the buffer. */
  function Dropped(log: seq<Entry>): nat {
    if log == [] then 0
    else
      Dropped(log[..|log| - 1])
      + (if log[|log| - 1].HwReset? && Observe(log[..|log| - 1]).occupant.Some? then 1 else 0)
  }

  lemma {:induction false} Conservation(log: seq<Entry>)
    requires Faithful(log)
    ensures Fetched(log) == ReadOut(log) + Discarded(log) + Dropped(log)
                            + (if Observe(log).occupant.Some? then 1 else 0)
  {
    if log != [] {
      Conservation(log[..|log| - 1]);
    }
  }

  /** A byte was discarded at `k`, and the overrun flag not cleared since. */
  ghost predicate DiscardStands(log: seq<Entry>, k: int) {
    && 0 <= k < |log| && Discards(log, k)
    && forall m :: k < m < |log| ==> !Clears(log[m]) && !log[m].ProgReset?
  }

  lemma DiscardStandsFront(log: seq<Entry>, k: nat)
    requires k < |log| - 1 && !Clears(log[|log| - 1]) && !log[|log| - 1].ProgReset?
    ensures DiscardStands(log, k) <==> DiscardStands(log[..|log| - 1], k)
  {
    var front := log[..|log| - 1];
    assert front[..k] == log[..k];
    assert forall m :: 0 <= m < |front| ==> front[m] == log[m];
  }

  /** The overrun flag is on exactly while a byte has been discarded since the data register was
      last read and the chip last reset, and then the buffer is full. */
  lemma {:induction false} OverrunMeans(log: seq<Entry>)
    ensures Observe(log).lost > 0 <==> exists k :: DiscardStands(log, k)
    ensures Observe(log).lost > 0 ==> Observe(log).occupant.Some?
  {
    if log != [] {
      var front, last := log[..|log| - 1], log[|log| - 1];
      OverrunMeans(front);
      if Discards(log, |log| - 1) {
        assert DiscardStands(log, |log| - 1);
      } else if Clears(last) || last.ProgReset? {
        assert forall k :: DiscardStands(log, k) ==> k == |log| - 1;
      } else {
        forall k: nat | k < |log| - 1
          ensures DiscardStands(log, k) <==> DiscardStands(front, k)
        {
          DiscardStandsFront(log, k);
        }
      }
    }
  }

  // ---------------------------------------------------------------- interrupts

  /** The interrupt bit reads as one exactly when there was a cause since it was last read as part of
      the status register, or the chip reset. */
  lemma {:induction false} IrqMeans(log: seq<Entry>)
    ensures Observe(log).irq <==>
              exists k :: 0 <= k < |log| && log[k].Irq?
                && forall m :: k < m < |log| ==> !log[m].StatusRead? && !log[m].ProgReset? && !log[m].HwReset?
  {
    if log != [] {
      var front, last := log[..|log| - 1], log[|log| - 1];
      assert forall j :: 0 <= j < |front| ==> front[j] == log[j];
      IrqMeans(front);
      if last.Irq? {
        assert log[|log| - 1].Irq?;
      } else if Observe(front).irq && Observe(log).irq {
        var k :| 0 <= k < |front| && front[k].Irq?
          && forall m :: k < m < |front| ==> !front[m].StatusRead? && !front[m].ProgReset? && !front[m].HwReset?;
        assert log[k].Irq?;
      }
    }
  }

  // ---------------------------------------------------------------- over every run

  /** Transmission over every run from reset. */
  lemma TransmissionAlways(cfg: Config, run: seq<Stamped>, j: nat)
    requires j < |After(cfg, Start(cfg), run).log| && After(cfg, Start(cfg), run).log[j].Sent?
    ensures var log := After(cfg, Start(cfg), run).log;
            var i := LastWrite(log[..j]);
            && 0 <= i < j && log[i].Write? && log[j].value == Masked(log[i].value, log[j].mask)
            && forall k :: 0 <= k < j && log[k].Sent? ==> LastWrite(log[..k]) < k < i
  {
    RefinesAlways(cfg, run);
    SentFromWrites(After(cfg, Start(cfg), run).log, j);
  }

  /** Reception over every run from reset: nothing is lost without a trace, the full bit means that
      the first byte fetched since it was last clear is there, and the overrun bit means a discard. */
  lemma ReceptionAlways(cfg: Config, run: seq<Stamped>)
    ensures var s := After(cfg, Start(cfg), run);
            && Fetched(s.log) == ReadOut(s.log) + Discarded(s.log) + Dropped(s.log) + Num(s.status.full)
            && (s.status.full ==>
                  exists i :: 0 <= i < |s.log| && s.log[i].Fetch?
                    && s.rx.data == Masked(s.log[i].value, s.log[i].mask)
                    && Observe(s.log[..i]).occupant.None?
                    && forall k :: i < k < |s.log| ==> !Clears(s.log[k]))
            && (s.status.overrun <==> exists k :: DiscardStands(s.log, k))
            && (s.status.overrun ==> s.status.full)
  {
    RefinesAlways(cfg, run);
    var s := After(cfg, Start(cfg), run);
    Conservation(s.log);
    OverrunMeans(s.log);
    if s.status.full {
      var i := OccupantIsFirstFetch(s.log);
    }
  }
}
