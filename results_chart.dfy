/** The bar-chart data of src/components/ResultsChart.tsx: one row per roster
    restaurant, in roster order, with the sizes of its first tally's two lists. */
module ResultsChart {
  import opened Base
  import opened Types

  datatype ChartRow = ChartRow(name: string, upvotes: nat, downvotes: nat)

  /** `Array.isArray(list) ? list.length : 0` */
  function ListSize(l: VoteList): (n: nat)
    ensures l.Voters? ==> n == |l.ids|
    ensures l.Number? ==> n == 0
  {
    if l.Voters? then |l.ids| else 0
  }

  /** The row for one restaurant: counts from the first tally with its id, 0 without one. */
  function RowFor(r: Restaurant, votes: seq<RestaurantVote>): ChartRow {
    match TallyOf(votes, r.id)
    case None => ChartRow(r.name, 0, 0)
    case Some(t) => ChartRow(r.name, ListSize(t.upvotes), ListSize(t.downvotes))
  }

  function Rows(rs: seq<Restaurant>, votes: seq<RestaurantVote>): (rows: seq<ChartRow>)
    ensures |rows| == |rs|
    ensures forall i :: 0 <= i < |rs| ==> rows[i] == RowFor(rs[i], votes)
  {
    if rs == [] then [] else [RowFor(rs[0], votes)] + Rows(rs[1..], votes)
  }

  /** `data`, or None where the component renders nothing. The session type always
      carries a roster (an empty array is truthy), so only a null session gives None. */
  function ChartData(session: Option<GroupSession>): (data: Option<seq<ChartRow>>)
    ensures data.None? <==> session.None?
    ensures data.Some? ==> |data.value| == |session.value.restaurants|
  {
    if session.None? then None else Some(Rows(session.value.restaurants, session.value.votes))
  }

  /** One row per roster entry in roster order, named after it, counting the first
      matching tally's arrays; a missing tally or a bare count gives 0. */
  lemma ChartDataShape(session: Option<GroupSession>, i: nat)
    ensures ChartData(session).None? <==> session.None?
    ensures session.Some? && i < |session.value.restaurants| ==>
              var rows := ChartData(session).value;
              var r := session.value.restaurants[i];
              && |rows| == |session.value.restaurants|
              && rows[i].name == r.name
              && (TallyOf(session.value.votes, r.id).None? ==> rows[i].upvotes == 0 && rows[i].downvotes == 0)
              && (TallyOf(session.value.votes, r.id).Some? ==>
                    var t := TallyOf(session.value.votes, r.id).value;
                    && t == session.value.votes[FindTally(session.value.votes, r.id).value]
                    && rows[i].upvotes == (if t.upvotes.Voters? then |t.upvotes.ids| else 0)
                    && rows[i].downvotes == (if t.downvotes.Voters? then |t.downvotes.ids| else 0))
  {
  }

  /** Appending a tally for some other restaurant does not change what `find` returns. */
  lemma {:induction false} TallyOfAppend(votes: seq<RestaurantVote>, t: RestaurantVote, id: string)
    requires t.restaurantId != id
    ensures TallyOf(votes + [t], id) == TallyOf(votes, id)
    decreases |votes|
  {
    if votes != [] {
      assert (votes + [t])[1..] == votes[1..] + [t];
      TallyOfAppend(votes[1..], t, id);
    } else {
      assert [t][1..] == [];
    }
  }

  /** Tallies for ids outside the roster leave the chart unchanged, wherever they are. */
  lemma ForeignTalliesIgnored(s: GroupSession, t: RestaurantVote)
    requires t.restaurantId !in RosterIds(s.restaurants)
    ensures ChartData(Some(s.(votes := s.votes + [t]))) == ChartData(Some(s))
    ensures ChartData(Some(s.(votes := [t] + s.votes))) == ChartData(Some(s))
  {
    forall i | 0 <= i < |s.restaurants|
      ensures RowFor(s.restaurants[i], s.votes + [t]) == RowFor(s.restaurants[i], s.votes)
      ensures RowFor(s.restaurants[i], [t] + s.votes) == RowFor(s.restaurants[i], s.votes)
    {
      assert RosterIds(s.restaurants)[i] == s.restaurants[i].id;
      TallyOfAppend(s.votes, t, s.restaurants[i].id);
      assert ([t] + s.votes)[1..] == s.votes;
    }
    assert Rows(s.restaurants, s.votes + [t]) == Rows(s.restaurants, s.votes);
    assert Rows(s.restaurants, [t] + s.votes) == Rows(s.restaurants, s.votes);
  }
}
