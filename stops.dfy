/** The stop-destination table: "Stop: 2 Destination: ... Stop Location Memo:"
    blocks fill a list indexed by stop number (stop n at index n - 1), padded
    with "" and overwritten by later blocks naming the same stop. */
module Stops {
  import opened Wrappers
  import opened Text

  /** One stop block as the scan reports it: the stop number (the value of
      its digits) and the raw destination text. */
  datatype StopMatch = StopMatch(number: nat, destination: string)

  /** The table grown with "" entries until it has at least n of them. */
  function Padded(table: seq<string>, n: nat): (r: seq<string>)
    ensures |r| == if |table| < n then n else |table|
    ensures r[..|table|] == table
    ensures forall i :: |table| <= i < |r| ==> r[i] == ""
  {
    if |table| < n then table + seq(n - |table|, _ => "") else table
  }

  /** The effect of one block on the table. Stop 0 addresses index -1: it
      overwrites the last entry, and on an empty table it is an index error
      (None). */
  function Placed(table: seq<string>, m: StopMatch): (r: Option<seq<string>>)
    ensures r.None? <==> m.number == 0 && table == []
  {
    var d := Strip(m.destination);
    if m.number == 0 then
      if table == [] then None else Some(table[|table| - 1 := d])
    else
      Some(Padded(table, m.number)[m.number - 1 := d])
  }

  /** The table after the given blocks, in scan order; None once an index
      error has occurred. */
  function StopTable(ms: seq<StopMatch>): Option<seq<string>>
  {
    if ms == [] then Some([])
    else
      match StopTable(ms[..|ms| - 1])
      case None => None
      case Some(t) => Placed(t, ms[|ms| - 1])
  }

  /** An index error ends the scan: no later block brings the table back. */
  lemma {:induction false} FailurePersists(ms: seq<StopMatch>, i: nat)
    requires i <= |ms| && StopTable(ms[..i]).None?
    ensures StopTable(ms).None?
    decreases |ms| - i
  {
    if i < |ms| {
      assert ms[..i + 1][..i] == ms[..i];
      FailurePersists(ms, i + 1);
    } else {
      assert ms[..i] == ms;
    }
  }

  /** One more block updates the table as Placed says. */
  lemma StopTableStep(ms: seq<StopMatch>, i: nat, t: seq<string>)
    requires i < |ms| && StopTable(ms[..i]) == Some(t)
    ensures StopTable(ms[..i + 1]) == Placed(t, ms[i])
  {
    assert ms[..i + 1][..i] == ms[..i];
  }

  /** The padding loop: append "" until the table has n entries. */
  method Pad(table: seq<string>, n: nat) returns (r: seq<string>)
    ensures r == Padded(table, n)
  {
    r := table;
    while |r| < n
      invariant |table| <= |r| <= if |table| < n then n else |table|
      invariant r == table + seq(|r| - |table|, _ => "")
    {
      r := r + [""];
    }
  }

  /** The loop body for one block: pad the table to the stop number, then
      write the stripped destination at index number - 1. */
  method Place(table: seq<string>, m: StopMatch) returns (r: Option<seq<string>>)
    ensures r == Placed(table, m)
  {
    var destination := Strip(m.destination);
    var destinations := Pad(table, m.number);
    if m.number == 0 {
      if destinations == [] {
        return None;
      }
      destinations := destinations[|destinations| - 1 := destination];
    } else {
      destinations := destinations[m.number - 1 := destination];
    }
    r := Some(destinations);
  }

  /** `extract_stop_destinations` over the scanned blocks. */
  method ExtractStopDestinations(matches: seq<StopMatch>) returns (r: Option<seq<string>>)
    ensures r == StopTable(matches)
  {
    var destinations: seq<string> := [];
    var i := 0;
    while i < |matches|
      invariant 0 <= i <= |matches|
      invariant StopTable(matches[..i]) == Some(destinations)
    {
      StopTableStep(matches, i, destinations);
      var placed := Place(destinations, matches[i]);
      if placed.None? {
        FailurePersists(matches, i + 1);
        return None;
      }
      destinations := placed.value;
      i := i + 1;
    }
    assert matches[..i] == matches;
    r := Some(destinations);
  }

  // ---------------------------------------------------------------------
  // What the table holds, for blocks numbered from 1.

  predicate AllNumbered(ms: seq<StopMatch>) {
    forall i :: 0 <= i < |ms| ==> ms[i].number >= 1
  }

  /** The largest stop number named, 0 when there is none. */
  function MaxStop(ms: seq<StopMatch>): nat {
    if ms == [] then 0
    else
      var m := MaxStop(ms[..|ms| - 1]);
      if ms[|ms| - 1].number > m then ms[|ms| - 1].number else m
  }

  /** The stripped destination of the last block naming stop n. */
  function LastDestination(ms: seq<StopMatch>, n: nat): Option<string> {
    if ms == [] then None
    else if ms[|ms| - 1].number == n then Some(Strip(ms[|ms| - 1].destination))
    else LastDestination(ms[..|ms| - 1], n)
  }

  /** A stop above every named number has no destination. */
  lemma {:induction false} AboveMaxUnnamed(ms: seq<StopMatch>, n: nat)
    requires n > MaxStop(ms)
    ensures LastDestination(ms, n) == None
    decreases |ms|
  {
    if ms != [] {
      AboveMaxUnnamed(ms[..|ms| - 1], n);
    }
  }

  /** A stop no block names has no destination. */
  lemma {:induction false} NeverNamed(ms: seq<StopMatch>, n: nat)
    requires forall i :: 0 <= i < |ms| ==> ms[i].number != n
    ensures LastDestination(ms, n) == None
    decreases |ms|
  {
    if ms != [] {
      NeverNamed(ms[..|ms| - 1], n);
    }
  }

  /** With stops numbered from 1 the scan never fails, the table is as long
      as the largest stop number, and entry n - 1 holds the stripped
      destination of the last block for stop n, or "" when none names it. */
  lemma {:induction false} StopTableContents(ms: seq<StopMatch>)
    requires AllNumbered(ms)
    ensures StopTable(ms).Some?
    ensures |StopTable(ms).value| == MaxStop(ms)
    ensures forall n :: 1 <= n <= MaxStop(ms) ==>
      StopTable(ms).value[n - 1] == LastDestination(ms, n).GetOr("")
    decreases |ms|
  {
    if ms != [] {
      var p := ms[..|ms| - 1];
      var m := ms[|ms| - 1];
      assert AllNumbered(p) by {
        forall i | 0 <= i < |p| ensures p[i].number >= 1 {
          assert p[i] == ms[i];
        }
      }
      StopTableContents(p);
      var t := StopTable(p).value;
      assert m.number >= 1;
      var padded := Padded(t, m.number);
      forall n | 1 <= n <= MaxStop(ms)
        ensures StopTable(ms).value[n - 1] == LastDestination(ms, n).GetOr("")
      {
        if n != m.number {
          if n > MaxStop(p) {
            AboveMaxUnnamed(p, n);
          }
        }
      }
    }
  }

  /** Every stop number from 1 up to the largest has an entry; those no block
      names are "". */
  lemma UnnamedStopEmpty(ms: seq<StopMatch>, n: nat)
    requires AllNumbered(ms) && 1 <= n <= MaxStop(ms)
    requires forall i :: 0 <= i < |ms| ==> ms[i].number != n
    ensures StopTable(ms).Some? && |StopTable(ms).value| == MaxStop(ms)
    ensures StopTable(ms).value[n - 1] == ""
  {
    StopTableContents(ms);
    NeverNamed(ms, n);
  }

  /** Stop 0 as the first block is an index error on the empty table. */
  lemma LeadingZeroFails(ms: seq<StopMatch>)
    requires ms != [] && ms[0].number == 0
    ensures StopTable(ms) == None
  {
    assert ms[..1][..0] == [];
    FailurePersists(ms, 1);
  }

  /** Stop 0 after a non-empty table overwrites its last entry. */
  lemma ZeroOverwritesLast(ms: seq<StopMatch>, d: string, t: seq<string>)
    requires StopTable(ms) == Some(t) && t != []
    ensures StopTable(ms + [StopMatch(0, d)]) == Some(t[|t| - 1 := Strip(d)])
  {
    assert (ms + [StopMatch(0, d)])[..|ms|] == ms;
  }
}
