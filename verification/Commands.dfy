/** Commands arrive at least once; the IDs of the last ones are remembered on the data
    disk, which an agent's restart does not change. */
module Commands {
  /** A command's request ID. */
  type Id = nat

  const NO_ID: Id := 0

  const COMMANDS_REMEMBERED := 200

  /** Whether an ID is among the last ones recorded. */
  predicate Remembered(recorded: seq<Id>, id: Id)
  {
    exists k :: 0 <= k < |recorded| && |recorded| - COMMANDS_REMEMBERED <= k && recorded[k] == id
  }

  /** Every ID recorded over the first `j` deliveries, in order. A command with no ID is not. */
  function Recorded(deliveries: seq<Id>, j: nat): seq<Id>
    requires j <= |deliveries|
  {
    if j == 0 then [] else
      var before, id := Recorded(deliveries, j - 1), deliveries[j - 1];
      if id == NO_ID || Remembered(before, id) then before else before + [id]
  }

  /** Whether the `j`th delivery runs. */
  predicate Runs(deliveries: seq<Id>, j: nat)
    requires j < |deliveries|
  {
    deliveries[j] == NO_ID || !Remembered(Recorded(deliveries, j), deliveries[j])
  }

  function Newest(s: seq<Id>): seq<Id>
  {
    if |s| <= COMMANDS_REMEMBERED then s else s[|s| - COMMANDS_REMEMBERED..]
  }

  class Agent {
    var seen: seq<Id>               // the file
    ghost var deliveries: seq<Id>

    ghost predicate Valid()
      reads this
    {
      seen == Newest(Recorded(deliveries, |deliveries|))
    }

    constructor ()
      ensures Valid() && deliveries == []
    {
      seen, deliveries := [], [];
    }

    /** Remember an ID, unless it is remembered already. */
    method FirstDelivery(id: Id) returns (first: bool)
      requires Valid() && id != NO_ID
      modifies this
      ensures Valid() && deliveries == old(deliveries) + [id] && first == Runs(deliveries, |old(deliveries)|)
    {
      OneMoreDelivery(deliveries, id);
      first := id !in seen;
      if first {
        seen := Newest(seen + [id]);
      }
      deliveries := deliveries + [id];
    }

    /** Take one delivery; a command with no ID always runs. */
    method Take(id: Id) returns (runs: bool)
      requires Valid()
      modifies this
      ensures Valid() && deliveries == old(deliveries) + [id] && runs == Runs(deliveries, |old(deliveries)|)
    {
      if id == NO_ID {
        OneMoreDelivery(deliveries, id);
        deliveries, runs := deliveries + [id], true;
      } else {
        runs := FirstDelivery(id);
      }
    }
  }

  // -- the file -----------------------------------------------------------------------------------

  /** Forgetting the oldest each time leaves the newest of all. */
  lemma NewestOfMore(s: seq<Id>, id: Id)
    ensures Newest(Newest(s) + [id]) == Newest(s + [id])
  {
  }

  lemma NewestAreRemembered(s: seq<Id>, id: Id)
    ensures id in Newest(s) <==> Remembered(s, id)
  {
    var from := |s| - |Newest(s)|;
    if id in Newest(s) {
      var k :| 0 <= k < |Newest(s)| && Newest(s)[k] == id;
      assert s[from + k] == id;
    }
    if Remembered(s, id) {
      var k :| 0 <= k < |s| && |s| - COMMANDS_REMEMBERED <= k && s[k] == id;
      assert Newest(s)[k - from] == id;
    }
  }

  lemma {:induction false} LaterDeliveriesDoNotMatter(deliveries: seq<Id>, id: Id, j: nat)
    requires j <= |deliveries|
    ensures Recorded(deliveries + [id], j) == Recorded(deliveries, j)
  {
    if j > 0 { LaterDeliveriesDoNotMatter(deliveries, id, j - 1); }
  }

  /** What the file holds says whether the next delivery runs, and what the file holds after it. */
  lemma OneMoreDelivery(deliveries: seq<Id>, id: Id)
    ensures var n, seen := |deliveries|, Newest(Recorded(deliveries, |deliveries|));
            && Runs(deliveries + [id], n) == (id == NO_ID || id !in seen)
            && Newest(Recorded(deliveries + [id], n + 1)) ==
               if id == NO_ID || id in seen then seen else Newest(seen + [id])
  {
    var recorded := Recorded(deliveries, |deliveries|);
    LaterDeliveriesDoNotMatter(deliveries, id, |deliveries|);
    NewestAreRemembered(recorded, id);
    NewestOfMore(recorded, id);
  }

  // -- when a command runs again ----------------------------------------------------------------------

  /** How many IDs were recorded after delivery `i` and before delivery `j`. */
  function RecordedBetween(deliveries: seq<Id>, i: nat, j: nat): int
    requires i < j <= |deliveries|
  {
    |Recorded(deliveries, j)| - |Recorded(deliveries, i + 1)|
  }

  /** A delivery of the same ID after `i` and before `j` ran. */
  ghost predicate RunsBetween(deliveries: seq<Id>, i: nat, j: nat)
    requires i < j <= |deliveries|
  {
    exists k :: i < k < j && deliveries[k] == deliveries[i] && Runs(deliveries, k)
  }

  /** What was recorded before stays where it is. */
  lemma {:induction false} RecordedGrows(deliveries: seq<Id>, i: nat, j: nat)
    requires i <= j <= |deliveries|
    ensures |Recorded(deliveries, i)| <= |Recorded(deliveries, j)| <= |Recorded(deliveries, i)| + j - i
    ensures forall k | 0 <= k < |Recorded(deliveries, i)| :: Recorded(deliveries, j)[k] == Recorded(deliveries, i)[k]
    decreases j
  {
    if i < j { RecordedGrows(deliveries, i, j - 1); }
  }

  lemma {:induction false} NotRecordedBetween(deliveries: seq<Id>, i: nat, j: nat)
    requires i < j <= |deliveries| && !RunsBetween(deliveries, i, j)
    ensures forall k | |Recorded(deliveries, i + 1)| <= k < |Recorded(deliveries, j)| ::
              Recorded(deliveries, j)[k] != deliveries[i]
    decreases j
  {
    if i + 1 < j {
      assert !(deliveries[j - 1] == deliveries[i] && Runs(deliveries, j - 1));
      NotRecordedBetween(deliveries, i, j - 1);
    }
  }

  /** After a command ran, its next delivery runs again exactly when 200 or more IDs were recorded since. */
  lemma RunsAgainExactlyAfterTheWindow(deliveries: seq<Id>, i: nat, j: nat)
    requires i < j < |deliveries| && deliveries[i] != NO_ID && deliveries[j] == deliveries[i]
    requires Runs(deliveries, i) && !RunsBetween(deliveries, i, j)
    ensures Runs(deliveries, j) <==> RecordedBetween(deliveries, i, j) >= 200
  {
    var at, all := |Recorded(deliveries, i)|, Recorded(deliveries, j);
    assert Recorded(deliveries, i + 1)[at] == deliveries[i];
    RecordedGrows(deliveries, i + 1, j);
    NotRecordedBetween(deliveries, i, j);
    assert all[at] == deliveries[i];
  }

  /** At most once: while fewer than 200 IDs were recorded since a command ran, it does not run again. */
  lemma {:induction false} AtMostOnce(deliveries: seq<Id>, i: nat, j: nat)
    requires i < j < |deliveries| && deliveries[i] != NO_ID && deliveries[j] == deliveries[i]
    requires Runs(deliveries, i) && RecordedBetween(deliveries, i, j) < 200
    ensures !Runs(deliveries, j)
    decreases j
  {
    if RunsBetween(deliveries, i, j) {
      var k :| i < k < j && deliveries[k] == deliveries[i] && Runs(deliveries, k);
      RecordedGrows(deliveries, k, j);
      AtMostOnce(deliveries, i, k);
    } else {
      RunsAgainExactlyAfterTheWindow(deliveries, i, j);
    }
  }

  // -- redelivery does not refresh ---------------------------------------------------------------

  /** An ID not delivered before. */
  ghost predicate IsNew(deliveries: seq<Id>, j: nat)
    requires j < |deliveries|
  {
    deliveries[j] != NO_ID && forall k | 0 <= k < j :: deliveries[k] != deliveries[j]
  }

  lemma {:induction false} RecordedWereDelivered(deliveries: seq<Id>, j: nat, n: nat)
    requires j <= |deliveries| && n < |Recorded(deliveries, j)|
    ensures exists k :: 0 <= k < j && deliveries[k] == Recorded(deliveries, j)[n]
  {
    if n < |Recorded(deliveries, j - 1)| {
      RecordedWereDelivered(deliveries, j - 1, n);
    } else {
      assert deliveries[j - 1] == Recorded(deliveries, j)[n];
    }
  }

  lemma NewOnesRun(deliveries: seq<Id>, j: nat)
    requires j < |deliveries| && IsNew(deliveries, j)
    ensures Runs(deliveries, j)
  {
    forall n | 0 <= n < |Recorded(deliveries, j)| ensures Recorded(deliveries, j)[n] != deliveries[j] {
      RecordedWereDelivered(deliveries, j, n);
    }
  }

  lemma {:induction false} NewOnesAreRecorded(deliveries: seq<Id>, i: nat, j: nat)
    requires i <= j <= |deliveries| && forall k | i <= k < j :: IsNew(deliveries, k)
    ensures |Recorded(deliveries, j)| == |Recorded(deliveries, i)| + j - i
    decreases j
  {
    if i < j {
      NewOnesAreRecorded(deliveries, i, j - 1);
      NewOnesRun(deliveries, j - 1);
    }
  }

  /** A command redelivered in time is skipped, and that does not count as recent: with fewer than 200 others
      between each two of its deliveries, but 200 or more since it ran, it runs again. */
  lemma RedeliveryDoesNotRefresh(deliveries: seq<Id>, n: nat, m: nat)
    requires n < 200 && m < 200 <= n + m && |deliveries| == n + m + 3
    requires deliveries[0] != NO_ID && deliveries[n + 1] == deliveries[0] && deliveries[n + m + 2] == deliveries[0]
    requires forall k | 0 < k < n + m + 2 && k != n + 1 :: IsNew(deliveries, k)
    ensures Runs(deliveries, 0) && !Runs(deliveries, n + 1) && Runs(deliveries, n + m + 2)
  {
    NewOnesRun(deliveries, 0);
    RecordedGrows(deliveries, 1, n + 1);
    AtMostOnce(deliveries, 0, n + 1);
    NewOnesAreRecorded(deliveries, 1, n + 1);
    NewOnesAreRecorded(deliveries, n + 2, n + m + 2);
    assert !RunsBetween(deliveries, 0, n + m + 2) by {
      forall k | 0 < k < n + m + 2 && deliveries[k] == deliveries[0] ensures !Runs(deliveries, k) {
        assert k == n + 1 || IsNew(deliveries, k);
      }
    }
    assert |Recorded(deliveries, n + 2)| == |Recorded(deliveries, n + 1)|;
    RunsAgainExactlyAfterTheWindow(deliveries, 0, n + m + 2);
  }
}
