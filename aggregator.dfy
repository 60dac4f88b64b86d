/** Aggregation of the per-file tables (__main__.py lines 66-81): the
    earliest time of every (Side, Location, Depth) group, the elapsed time
    dTime of every observation from its group's earliest time, and the
    removal of the date column. */
module Aggregator {
  import opened Records

  datatype GroupKey = GroupKey(side: string, location: string, depth: Depth)

  function KeyOf(o: Obs): GroupKey
  {
    GroupKey(o.side, o.location, o.depth)
  }

  /** Some observation of the table belongs to group `k`. */
  predicate HasKey(table: seq<Obs>, k: GroupKey)
  {
    exists i :: 0 <= i < |table| && KeyOf(table[i]) == k
  }

  /** The earliest time among the observations of group `k`: it is the
      time of one of them, and no observation of the group is earlier. */
  function GroupMin(table: seq<Obs>, k: GroupKey): (m: nat)
    requires HasKey(table, k)
    ensures exists i :: 0 <= i < |table| && KeyOf(table[i]) == k && table[i].time == m
    ensures forall i :: 0 <= i < |table| && KeyOf(table[i]) == k ==> m <= table[i].time
  {
    if KeyOf(table[0]) != k then
      assert HasKey(table[1..], k) by {
        var i :| 0 <= i < |table| && KeyOf(table[i]) == k;
        assert KeyOf(table[1..][i - 1]) == k;
      }
      GroupMin(table[1..], k)
    else if !HasKey(table[1..], k) then
      table[0].time
    else
      var rest := GroupMin(table[1..], k);
      if table[0].time <= rest then table[0].time else rest
  }

  /** The elapsed seconds of observation `i` since its group's earliest time. */
  function Elapsed(table: seq<Obs>, i: nat): int
    requires i < |table|
  {
    assert HasKey(table, KeyOf(table[i]));
    table[i].time - GroupMin(table, KeyOf(table[i]))
  }

  /** The combined depth table with dTime added and the date dropped:
      every other column is kept, row by row, and no dTime is negative. */
  function WithElapsed(table: seq<Obs>): (out: seq<DepthRow>)
    ensures |out| == |table|
    ensures forall i :: 0 <= i < |table| ==>
              out[i].side == table[i].side && out[i].location == table[i].location &&
              out[i].depth == table[i].depth && out[i].time == table[i].time &&
              out[i].temperature == table[i].temperature
    ensures forall i :: 0 <= i < |table| ==> out[i].dTime >= 0
  {
    seq(|table|, i requires 0 <= i < |table| =>
      DepthRow(table[i].side, table[i].location, table[i].depth, table[i].time, table[i].temperature, Elapsed(table, i)))
  }

  /** Every group has an observation whose dTime is exactly 0. */
  lemma ElapsedZeroInEveryGroup(table: seq<Obs>, i: nat)
    requires i < |table|
    ensures exists j :: 0 <= j < |table| && KeyOf(table[j]) == KeyOf(table[i]) && WithElapsed(table)[j].dTime == 0
  {
    var k := KeyOf(table[i]);
    assert HasKey(table, k);
    var j :| 0 <= j < |table| && KeyOf(table[j]) == k && table[j].time == GroupMin(table, k);
    assert WithElapsed(table)[j].dTime == Elapsed(table, j) == 0;
  }

  /** Within a group dTime is the time shifted by one constant: the
      difference of two observations' dTime is the difference of their times. */
  lemma ElapsedIsShift(table: seq<Obs>, i: nat, j: nat)
    requires i < |table| && j < |table| && KeyOf(table[i]) == KeyOf(table[j])
    ensures WithElapsed(table)[i].dTime - WithElapsed(table)[j].dTime == table[i].time - table[j].time
  {
    assert WithElapsed(table)[i].dTime == Elapsed(table, i);
    assert WithElapsed(table)[j].dTime == Elapsed(table, j);
  }

  /** dTime is measured from the group's earliest time and from no other
      origin: any time `origin` that some observation of the group has and
      that no observation of the group precedes gives the same dTime. */
  lemma ElapsedOriginIsUnique(table: seq<Obs>, i: nat, origin: int)
    requires i < |table|
    requires forall j :: 0 <= j < |table| && KeyOf(table[j]) == KeyOf(table[i]) ==> origin <= table[j].time
    requires exists l :: 0 <= l < |table| && KeyOf(table[l]) == KeyOf(table[i]) && table[l].time == origin
    ensures WithElapsed(table)[i].dTime == table[i].time - origin
  {
    var k := KeyOf(table[i]);
    assert HasKey(table, k);
    var m := GroupMin(table, k);
    var l :| 0 <= l < |table| && KeyOf(table[l]) == k && table[l].time == origin;
    var w :| 0 <= w < |table| && KeyOf(table[w]) == k && table[w].time == m;
    assert m <= table[l].time;
    assert origin <= table[w].time;
    assert WithElapsed(table)[i].dTime == Elapsed(table, i);
  }

  /** The air table with the date column dropped. */
  function DropAirDate(air: seq<AirObs>): seq<AirRow>
  {
    seq(|air|, i requires 0 <= i < |air| => AirRow(air[i].location, air[i].time, air[i].temperature))
  }
}
