/** Counting new dead letters from a queue's running count, across agent restarts. */
module DeadLetters {
  import opened Options

  /** The positive increases between consecutive counts. */
  function Increases(counts: seq<nat>): nat
  {
    if |counts| < 2 then 0 else
      var n := |counts| - 1;
      Increases(counts[..n]) + if counts[n] > counts[n - 1] then counts[n] - counts[n - 1] else 0
  }

  function Decreases(counts: seq<nat>): nat
  {
    if |counts| < 2 then 0 else
      var n := |counts| - 1;
      Decreases(counts[..n]) + if counts[n] < counts[n - 1] then counts[n - 1] - counts[n] else 0
  }

  lemma OneMoreCount(counts: seq<nat>, dead: nat)
    ensures Increases(counts + [dead]) ==
            Increases(counts) + if counts != [] && dead > counts[|counts| - 1] then dead - counts[|counts| - 1] else 0
  {
    assert (counts + [dead])[..|counts|] == counts;
  }

  class Meter {
    var measured: Option<nat>       // this process's last count
    var onDisk: Option<nat>
    ghost var counts: seq<nat>      // every count measured, by any process
    ghost var total: nat            // every number of new dead letters reported

    ghost predicate Valid()
      reads this
    {
      && onDisk == (if counts == [] then None else Some(counts[|counts| - 1]))
      && (measured.Some? ==> measured == onDisk)
      && total == Increases(counts)
    }

    constructor ()
      ensures Valid() && counts == [] && total == 0
    {
      measured, onDisk, counts, total := None, None, [], 0;
    }

    /** One measurement: how many dead letters are new. */
    method Measure(dead: nat) returns (added: nat)
      requires Valid()
      modifies this
      ensures Valid() && counts == old(counts) + [dead] && total == old(total) + added
      ensures measured == Some(dead) && onDisk == Some(dead)
    {
      var previous := if measured.Some? then measured else onDisk;
      added := if previous.Some? && dead > previous.value then dead - previous.value else 0;
      if previous != Some(dead) {
        onDisk := Some(dead);
      }
      measured := Some(dead);
      OneMoreCount(counts, dead);
      counts, total := counts + [dead], total + added;
    }

    /** The agent restarts: only what is on the disk stays. */
    method Restart()
      requires Valid()
      modifies this
      ensures Valid() && counts == old(counts) && total == old(total) && onDisk == old(onDisk)
    {
      measured := None;
    }

    /** Any measurements, with the agent restarted between any of them: what was reported adds up to the
        increases, as if one process had measured throughout. */
    method Watch(readings: seq<nat>)
      requires Valid() && counts == []
      modifies this
      ensures Valid() && counts == readings && total == Increases(readings)
    {
      for i := 0 to |readings|
        invariant Valid() && counts == readings[..i]
      {
        if * { Restart(); }
        var added := Measure(readings[i]);
      }
      assert readings[..|readings|] == readings;
    }
  }

  predicate Nondecreasing(counts: seq<nat>) { forall i, j | 0 <= i <= j < |counts| :: counts[i] <= counts[j] }

  /** What came less what went is the change from the first count to the last. */
  lemma {:induction false} IncreasesBalance(counts: seq<nat>)
    requires counts != []
    ensures Increases(counts) + counts[0] == Decreases(counts) + counts[|counts| - 1]
  {
    if |counts| > 1 { IncreasesBalance(counts[..|counts| - 1]); }
  }

  /** A count that never falls: the new dead letters total last minus first, and they do so only then. */
  lemma {:induction false} TotalOfARisingCount(counts: seq<nat>)
    requires counts != []
    ensures Decreases(counts) == 0 <==> Nondecreasing(counts)
    ensures Nondecreasing(counts) <==> Increases(counts) + counts[0] == counts[|counts| - 1]
  {
    IncreasesBalance(counts);
    if |counts| > 1 {
      var n := |counts| - 1;
      TotalOfARisingCount(counts[..n]);
      if Decreases(counts) == 0 {
        forall i, j | 0 <= i <= j < |counts| ensures counts[i] <= counts[j] {
          if j == n && i < n { assert counts[..n][i] <= counts[..n][n - 1]; }
          else if j < n { assert counts[..n][i] <= counts[..n][j]; }
        }
      }
      if Nondecreasing(counts) {
        assert Nondecreasing(counts[..n]) && counts[n - 1] <= counts[n];
      }
    }
  }
}
