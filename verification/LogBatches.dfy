/** Splitting log events into the batches a log service accepts. */
module LogBatches {
  /** An event's time in milliseconds, and its message's length in bytes. */
  datatype Event = Event(at: int, bytes: nat)

  const OVERHEAD := 26

  function Length(e: Event): nat { e.bytes + OVERHEAD }

  function Size(events: seq<Event>): nat
  {
    if events == [] then 0 else Size(events[..|events| - 1]) + Length(events[|events| - 1])
  }

  function Concat(batches: seq<seq<Event>>): seq<Event>
  {
    if batches == [] then [] else batches[0] + Concat(batches[1..])
  }

  predicate Sorted(events: seq<Event>)
  {
    forall i, j | 0 <= i <= j < |events| :: events[i].at <= events[j].at
  }

  /** No two events are the span apart; 0 is no limit. */
  predicate Spans(batch: seq<Event>, maxSpan: nat)
  {
    maxSpan == 0 || forall i, j | 0 <= i < |batch| && 0 <= j < |batch| :: batch[j].at - batch[i].at < maxSpan
  }

  /** What the service accepts: not empty, in the byte limit unless it is one event, and in the span. */
  predicate Fits(batch: seq<Event>, maxBytes: int, maxSpan: nat)
  {
    batch != [] && (Size(batch) <= maxBytes || |batch| == 1) && Spans(batch, maxSpan)
  }

  predicate AllFit(batches: seq<seq<Event>>, maxBytes: int, maxSpan: nat)
  {
    forall k | 0 <= k < |batches| :: Fits(batches[k], maxBytes, maxSpan)
  }

  /** A batch takes every event it can: the next one would not fit. */
  predicate Full(batches: seq<seq<Event>>, maxBytes: int, maxSpan: nat)
  {
    forall k | 0 <= k < |batches| - 1 && batches[k + 1] != [] ::
      batches[k] != [] && !Fits(batches[k] + [batches[k + 1][0]], maxBytes, maxSpan)
  }

  lemma {:induction false} ConcatSnoc(batches: seq<seq<Event>>, batch: seq<Event>)
    ensures Concat(batches + [batch]) == Concat(batches) + batch
  {
    if batches != [] {
      assert (batches + [batch])[1..] == batches[1..] + [batch];
      ConcatSnoc(batches[1..], batch);
      assert Concat(batches + [batch]) == batches[0] + (Concat(batches[1..]) + batch);
    } else {
      assert Concat([batch]) == batch + Concat([]);
    }
  }

  lemma SizeSnoc(events: seq<Event>, e: Event)
    ensures Size(events + [e]) == Size(events) + Length(e)
  {
    assert (events + [e])[..|events|] == events;
  }

  function Bytes(events: seq<Event>): nat
  {
    if events == [] then 0 else events[0].bytes + Bytes(events[1..])
  }

  lemma {:induction false} BytesSnoc(events: seq<Event>, e: Event)
    ensures Bytes(events + [e]) == Bytes(events) + e.bytes
  {
    if events != [] {
      assert (events + [e])[1..] == events[1..] + [e];
      BytesSnoc(events[1..], e);
    }
  }

  /** What the limit is about: every message's bytes, and 26 more for each event. */
  lemma {:induction false} SizeIsBytesAndOverhead(events: seq<Event>)
    ensures Size(events) == Bytes(events) + 26 * |events|
  {
    if events != [] {
      var n := |events| - 1;
      SizeIsBytesAndOverhead(events[..n]);
      BytesSnoc(events[..n], events[n]);
      assert events == events[..n] + [events[n]];
    }
  }

  lemma SizeOfOne(e: Event)
    ensures Size([e]) == Length(e)
  {
    assert [e][..0] == [];
  }

  lemma StartBatch(batches: seq<seq<Event>>, batch: seq<Event>, e: Event, maxBytes: int, maxSpan: nat)
    requires Full(batches + [batch], maxBytes, maxSpan) && batch != [] && !Fits(batch + [e], maxBytes, maxSpan)
    ensures Full(batches + [batch] + [[e]], maxBytes, maxSpan)
  {
    var before, after := batches + [batch], batches + [batch] + [[e]];
    forall k | 0 <= k < |after| - 1 && after[k + 1] != []
      ensures after[k] != [] && !Fits(after[k] + [after[k + 1][0]], maxBytes, maxSpan)
    {
      if k < |batches| { assert after[k] == before[k] && after[k + 1] == before[k + 1]; }
    }
  }

  lemma GrowBatch(batches: seq<seq<Event>>, batch: seq<Event>, e: Event, maxBytes: int, maxSpan: nat)
    requires Full(batches + [batch], maxBytes, maxSpan) && (batch == [] ==> batches == [])
    ensures Full(batches + [batch + [e]], maxBytes, maxSpan)
  {
    var before, after := batches + [batch], batches + [batch + [e]];
    forall k | 0 <= k < |after| - 1 && after[k + 1] != []
      ensures after[k] != [] && !Fits(after[k] + [after[k + 1][0]], maxBytes, maxSpan)
    {
      assert after[k] == before[k] && before[k + 1] != [] && after[k + 1][0] == before[k + 1][0];
    }
  }

  /** Whether the next event fits, from the batch's size and its first event alone. */
  lemma NextFits(batch: seq<Event>, e: Event, maxBytes: int, maxSpan: nat)
    requires Sorted(batch + [e]) && (batch != [] ==> Fits(batch, maxBytes, maxSpan))
    ensures Fits(batch + [e], maxBytes, maxSpan) <==>
              batch == [] || !(Size(batch) + Length(e) > maxBytes || (maxSpan != 0 && e.at - batch[0].at >= maxSpan))
  {
    var next := batch + [e];
    SizeSnoc(batch, e);
    assert next[|batch|] == e;
    if batch != [] {
      assert next[0] == batch[0];
      if maxSpan != 0 && e.at - batch[0].at < maxSpan {
        forall i, j | 0 <= i < |next| && 0 <= j < |next| ensures next[j].at - next[i].at < maxSpan {
          assert next[0].at <= next[i].at && next[j].at <= next[|batch|].at;
        }
      }
    }
  }

  lemma SortedPart(events: seq<Event>, before: seq<Event>, batch: seq<Event>, i: nat)
    requires Sorted(events) && i < |events| && before + batch == events[..i]
    ensures Sorted(batch + [events[i]])
  {
    var next := batch + [events[i]];
    forall k | 0 <= k < |next| ensures next[k] == events[|before| + k] {
      if k < |batch| { assert events[..i][|before| + k] == batch[k]; }
    }
  }

  /** The batches closed and the one open after the events in `done`. */
  predicate Holds(batches: seq<seq<Event>>, batch: seq<Event>, done: seq<Event>, maxBytes: int, maxSpan: nat)
  {
    && Concat(batches) + batch == done
    && (batch == [] ==> batches == [])
    && AllFit(batches, maxBytes, maxSpan)
    && (batch != [] ==> Fits(batch, maxBytes, maxSpan))
    && Full(batches + [batch], maxBytes, maxSpan)
  }

  lemma Closes(batches: seq<seq<Event>>, batch: seq<Event>, done: seq<Event>, e: Event, maxBytes: int, maxSpan: nat)
    requires Holds(batches, batch, done, maxBytes, maxSpan) && batch != [] && !Fits(batch + [e], maxBytes, maxSpan)
    ensures Holds(batches + [batch], [e], done + [e], maxBytes, maxSpan)
  {
    ConcatSnoc(batches, batch);
    StartBatch(batches, batch, e, maxBytes, maxSpan);
    assert Spans([e], maxSpan);
  }

  lemma Grows(batches: seq<seq<Event>>, batch: seq<Event>, done: seq<Event>, e: Event, maxBytes: int, maxSpan: nat)
    requires Holds(batches, batch, done, maxBytes, maxSpan) && Fits(batch + [e], maxBytes, maxSpan)
    ensures Holds(batches, batch + [e], done + [e], maxBytes, maxSpan)
  {
    GrowBatch(batches, batch, e, maxBytes, maxSpan);
    assert Concat(batches) + (batch + [e]) == Concat(batches) + batch + [e];
  }

  /** The loop's own test, and what it means for the next event. */
  predicate MustClose(batch: seq<Event>, size: nat, e: Event, maxBytes: int, maxSpan: nat)
  {
    batch != [] && (size + Length(e) > maxBytes || (maxSpan != 0 && e.at - batch[0].at >= maxSpan))
  }

  lemma TestMeans(batches: seq<seq<Event>>, batch: seq<Event>, events: seq<Event>, i: nat, maxBytes: int, maxSpan: nat)
    requires Sorted(events) && i < |events| && Holds(batches, batch, events[..i], maxBytes, maxSpan)
    ensures Fits(batch + [events[i]], maxBytes, maxSpan) <==>
              !MustClose(batch, Size(batch), events[i], maxBytes, maxSpan)
  {
    SortedPart(events, Concat(batches), batch, i);
    NextFits(batch, events[i], maxBytes, maxSpan);
  }

  lemma AllHeld(batches: seq<seq<Event>>, batch: seq<Event>, events: seq<Event>, maxBytes: int, maxSpan: nat)
    requires Holds(batches, batch, events, maxBytes, maxSpan)
    ensures var all := if batch == [] then batches else batches + [batch];
            && Concat(all) == events && AllFit(all, maxBytes, maxSpan)
            && forall other | Concat(other) == events && AllFit(other, maxBytes, maxSpan) :: |all| <= |other|
  {
    var all := if batch == [] then batches else batches + [batch];
    ConcatSnoc(batches, batch);
    forall other | Concat(other) == events && AllFit(other, maxBytes, maxSpan) ensures |all| <= |other| {
      FullBatchesAreFewest(all, other, maxBytes, maxSpan);
    }
  }

  /** Fill one batch after the other, closing each at the first event it cannot take. */
  method Batches(events: seq<Event>, maxBytes: int, maxSpan: nat) returns (batches: seq<seq<Event>>)
    requires Sorted(events)
    ensures Concat(batches) == events && AllFit(batches, maxBytes, maxSpan)
    ensures forall other | Concat(other) == events && AllFit(other, maxBytes, maxSpan) :: |batches| <= |other|
  {
    batches := [];
    var batch: seq<Event>, size: nat := [], 0;
    for i := 0 to |events|
      invariant Holds(batches, batch, events[..i], maxBytes, maxSpan) && size == Size(batch)
    {
      TestMeans(batches, batch, events, i, maxBytes, maxSpan);
      SizeSnoc(batch, events[i]);
      SizeOfOne(events[i]);
      assert events[..i + 1] == events[..i] + [events[i]];
      if MustClose(batch, size, events[i], maxBytes, maxSpan) {
        Closes(batches, batch, events[..i], events[i], maxBytes, maxSpan);
        batches := batches + [batch];
        batch, size := [events[i]], Length(events[i]);
      } else {
        Grows(batches, batch, events[..i], events[i], maxBytes, maxSpan);
        batch, size := batch + [events[i]], size + Length(events[i]);
      }
    }
    assert events[..|events|] == events;
    AllHeld(batches, batch, events, maxBytes, maxSpan);
    if batch != [] {
      batches := batches + [batch];
    }
  }

  // -- no split uses fewer batches -----------------------------------------------------------

  lemma {:induction false} PartIsSmaller(events: seq<Event>, lo: nat, hi: nat)
    requires lo <= hi <= |events|
    ensures Size(events[lo..hi]) <= Size(events)
    decreases |events|
  {
    if lo < hi {
      var n := |events| - 1;
      var rest, last := events[..n], events[n];
      assert events == rest + [last];
      SizeSnoc(rest, last);
      if hi <= n {
        PartIsSmaller(rest, lo, hi);
        assert events[lo..hi] == rest[lo..hi];
      } else {
        PartIsSmaller(rest, lo, n);
        assert events[lo..hi] == rest[lo..n] + [last];
        SizeSnoc(rest[lo..n], last);
      }
    }
  }

  lemma PartFits(batch: seq<Event>, lo: nat, hi: nat, maxBytes: int, maxSpan: nat)
    requires Fits(batch, maxBytes, maxSpan) && lo < hi <= |batch|
    ensures Fits(batch[lo..hi], maxBytes, maxSpan)
  {
    PartIsSmaller(batch, lo, hi);
    var part := batch[lo..hi];
    forall i, j | maxSpan != 0 && 0 <= i < |part| && 0 <= j < |part| ensures part[j].at - part[i].at < maxSpan {
      assert part[i] == batch[lo + i] && part[j] == batch[lo + j];
    }
  }

  /** A full first batch reaches at least as far as any batch that fits and that began no later. */
  lemma FirstReachesAsFar(full: seq<seq<Event>>, other: seq<Event>, rest: seq<Event>, maxBytes: int, maxSpan: nat)
    requires full != [] && full[0] != [] && Full(full, maxBytes, maxSpan)
    requires forall k | 0 <= k < |full| :: full[k] != []
    requires other != [] && Fits(other, maxBytes, maxSpan) && Concat(full) == other + rest
    ensures |other| <= |full[0]|
  {
    if |full[0]| < |other| {
      var tail := Concat(full[1..]);
      assert Concat(full) == full[0] + tail;
      assert |full| > 1 && tail[0] == full[1][0];
      var n := |full[0]|;
      var longer := full[0] + [full[1][0]];
      forall i | 0 <= i < n + 1 ensures longer[i] == other[0..n + 1][i] {
        assert (full[0] + tail)[i] == (other + rest)[i];
      }
      assert longer == other[0..n + 1];
      PartFits(other, 0, n + 1, maxBytes, maxSpan);
    }
  }

  lemma FullTail(full: seq<seq<Event>>, maxBytes: int, maxSpan: nat)
    requires full != [] && Full(full, maxBytes, maxSpan)
    ensures Full(full[1..], maxBytes, maxSpan)
  {
    var tail := full[1..];
    forall k | 0 <= k < |tail| - 1 && tail[k + 1] != []
      ensures tail[k] != [] && !Fits(tail[k] + [tail[k + 1][0]], maxBytes, maxSpan)
    {
      assert tail[k] == full[k + 1] && tail[k + 1] == full[k + 2];
    }
  }

  lemma Cancels(a: seq<Event>, b: seq<Event>, c: seq<Event>, d: seq<Event>)
    requires a + b == c + d && |a| <= |c|
    ensures b == c[|a|..] + d
  {
    assert b == (a + b)[|a|..];
    assert c[|a|..] + d == (c + d)[|a|..];
  }

  /** Full batches of the end of what another split covers are no more than that split's. */
  lemma {:induction false} FullIsAhead(full: seq<seq<Event>>, other: seq<seq<Event>>, ahead: seq<Event>,
                                       maxBytes: int, maxSpan: nat)
    requires Full(full, maxBytes, maxSpan) && forall k | 0 <= k < |full| :: full[k] != []
    requires AllFit(other, maxBytes, maxSpan)
    requires Concat(other) == ahead + Concat(full)
    ensures |full| <= |other|
    decreases |other|
  {
    if full != [] {
      assert Concat(full) == full[0] + Concat(full[1..]) && full[0] != [];
      assert other != [];
      assert Concat(other) == other[0] + Concat(other[1..]);
      if |other[0]| <= |ahead| {
        Cancels(other[0], Concat(other[1..]), ahead, Concat(full));
        FullIsAhead(full, other[1..], ahead[|other[0]|..], maxBytes, maxSpan);
      } else {
        var part := other[0][|ahead|..];
        assert part == other[0][|ahead|..|other[0]|];
        PartFits(other[0], |ahead|, |other[0]|, maxBytes, maxSpan);
        Cancels(ahead, Concat(full), other[0], Concat(other[1..]));
        FirstReachesAsFar(full, part, Concat(other[1..]), maxBytes, maxSpan);
        FullTail(full, maxBytes, maxSpan);
        Cancels(part, Concat(other[1..]), full[0], Concat(full[1..]));
        FullIsAhead(full[1..], other[1..], full[0][|part|..], maxBytes, maxSpan);
      }
    }
  }

  /** No split of the same events into batches the service accepts uses fewer batches than full ones. */
  lemma FullBatchesAreFewest(full: seq<seq<Event>>, other: seq<seq<Event>>, maxBytes: int, maxSpan: nat)
    requires Full(full, maxBytes, maxSpan) && AllFit(full, maxBytes, maxSpan)
    requires AllFit(other, maxBytes, maxSpan) && Concat(other) == Concat(full)
    ensures |full| <= |other|
  {
    FullIsAhead(full, other, [], maxBytes, maxSpan);
  }
}
