/** What a ticket owes the breakers: one record per held element, in chain order. */
module Accounting {
  import opened Wrappers
  import opened CircuitBreaker
  import opened BreakerLog

  /** The records of a log, in order: the hold each one settles, and its outcome. */
  function Records(log: Log): seq<(nat, bool)> {
    if log == [] then []
    else
      var e := log[|log| - 1];
      Records(log[..|log| - 1]) + (if e.Recorded? then [(e.hold, e.ok)] else [])
  }

  /** The outcomes recorded for one hold. */
  function RecordsFor(log: Log, h: nat): seq<bool> {
    if log == [] then []
    else
      var e := log[|log| - 1];
      RecordsFor(log[..|log| - 1], h) + (if Settles(e, h) then [e.ok] else [])
  }

  /** One record for each hold of a ticket; only the winning element's is a success. */
  function Expected(grants: seq<Option<nat>>, winner: Option<nat>): seq<(nat, bool)> {
    if grants == [] then []
    else
      var i := |grants| - 1;
      Expected(grants[..i], winner) + (if grants[i].Some? then [(grants[i].value, winner == Some(i))] else [])
  }

  lemma RecordsSnoc(log: Log, e: Event)
    ensures Records(log + [e]) == Records(log) + (if e.Recorded? then [(e.hold, e.ok)] else [])
    ensures forall h :: RecordsFor(log + [e], h) == RecordsFor(log, h) + (if Settles(e, h) then [e.ok] else [])
  {
    assert (log + [e])[..|log|] == log;
  }

  lemma ExpectedSnoc(grants: seq<Option<nat>>, i: nat, winner: Option<nat>)
    requires i < |grants|
    ensures Expected(grants[..i + 1], winner) ==
            Expected(grants[..i], winner) + (if grants[i].Some? then [(grants[i].value, winner == Some(i))] else [])
  {
    assert grants[..i + 1][..i] == grants[..i];
  }

  /** A ticket owes nothing exactly if it was granted nothing. */
  lemma {:induction false} ExpectedEmptyIff(grants: seq<Option<nat>>, winner: Option<nat>)
    ensures Expected(grants, winner) == [] <==> forall i :: 0 <= i < |grants| ==> grants[i].None?
  {
    if grants != [] {
      var init := grants[..|grants| - 1];
      ExpectedEmptyIff(init, winner);
      assert forall i :: 0 <= i < |init| ==> init[i] == grants[i];
    }
  }

  lemma OutstandingKept(log: Log, e: Event, h: nat)
    requires Outstanding(log, h) && !Settles(e, h)
    ensures Outstanding(log + [e], h)
  {
    assert (log + [e])[h] == log[h];
  }

  /** A hold is outstanding exactly while nothing has been recorded for it. */
  lemma {:induction false} OutstandingIffNoRecord(log: Log, h: nat)
    ensures RecordsFor(log, h) == [] <==> forall i :: 0 <= i < |log| ==> !Settles(log[i], h)
  {
    if log != [] {
      var init := log[..|log| - 1];
      OutstandingIffNoRecord(init, h);
      assert forall i :: 0 <= i < |init| ==> init[i] == log[i];
    }
  }

  /** In a legal log no hold is recorded twice. */
  lemma {:induction false} AtMostOneRecord(log: Log, h: nat)
    requires Legal(log)
    ensures |RecordsFor(log, h)| <= 1
  {
    if log != [] {
      var init, e := log[..|log| - 1], log[|log| - 1];
      AtMostOneRecord(init, h);
      if Settles(e, h) {
        OutstandingIffNoRecord(init, h);
      }
    }
  }

  lemma {:induction false} RecordsForFromRecords(log: Log, h: nat, ok: bool)
    ensures (h, ok) in Records(log) <==> ok in RecordsFor(log, h)
  {
    if log != [] {
      RecordsForFromRecords(log[..|log| - 1], h, ok);
    }
  }

  lemma {:induction false} ExpectedContains(grants: seq<Option<nat>>, winner: Option<nat>, j: nat)
    requires j < |grants| && grants[j].Some?
    ensures (grants[j].value, winner == Some(j)) in Expected(grants, winner)
  {
    var i := |grants| - 1;
    if j < i {
      ExpectedContains(grants[..i], winner, j);
    }
  }

  /**
   A legal log that has grown by a ticket's expected records holds exactly one record for each
   of the ticket's holds, and it is a success exactly for the winner.
   */
  lemma ExactlyOneRecordEach(before: Log, after: Log, grants: seq<Option<nat>>, winner: Option<nat>, j: nat)
    requires Legal(after) && Records(after) == Records(before) + Expected(grants, winner)
    requires j < |grants| && grants[j].Some?
    ensures RecordsFor(after, grants[j].value) == [winner == Some(j)]
  {
    ExpectedContains(grants, winner, j);
    RecordsForFromRecords(after, grants[j].value, winner == Some(j));
    AtMostOneRecord(after, grants[j].value);
  }

  lemma {:induction false} RecordsAtMost(before: Log, after: Log)
    requires before <= after
    ensures |Records(after)| <= |Records(before)| + |after| - |before|
    decreases |after|
  {
    if |after| == |before| {
      assert after == before;
    } else {
      RecordsAtMost(before, after[..|after| - 1]);
    }
  }

  predicate Pays(e: Event, owed: (nat, bool)) {
    e.Recorded? && e.hold == owed.0 && e.ok == owed.1
  }

  /** A log that has grown by n events and by n records has grown by those records, one event each, in order. */
  lemma {:induction false} NewRecords(before: Log, after: Log, owed: seq<(nat, bool)>)
    requires before <= after && |after| == |before| + |owed| && Records(after) == Records(before) + owed
    ensures forall i :: 0 <= i < |owed| ==> Pays(after[|before| + i], owed[i])
    decreases |after|
  {
    if owed != [] {
      var n := |owed| - 1;
      var init, e := after[..|after| - 1], after[|after| - 1];
      assert after == init + [e];
      RecordsSnoc(init, e);
      RecordsAtMost(before, init);
      assert e.Recorded?;
      assert (Records(before) + owed)[..|Records(before)| + n] == Records(before) + owed[..n];
      assert Records(init) == Records(before) + owed[..n];
      assert Pays(e, owed[n]) by {
        assert Records(after)[|Records(before)| + n] == owed[n];
      }
      NewRecords(before, init, owed[..n]);
      forall i | 0 <= i < |owed|
        ensures Pays(after[|before| + i], owed[i])
      {
        if i < n {
          assert owed[..n][i] == owed[i] && init[|before| + i] == after[|before| + i];
        }
      }
    }
  }
}
