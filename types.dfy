/** The records the app stores and exchanges: restaurants, per-restaurant vote
    tallies and group sessions (src/types/index.ts). */
module Types {
  import opened Base
  import opened Seqs

  /** The opaque per-browser user identifier. */
  type UserId = string

  datatype Geometry = Geometry(lat: real, lng: real)

  /** A candidate restaurant. The session code treats every field but `id` as an
      opaque payload; `photos` is display-only and not modelled. */
  datatype Restaurant = Restaurant(
    id: string,
    name: string,
    vicinity: string,
    rating: real,
    userRatingsTotal: int,
    priceLevel: int,
    geometry: Geometry,
    types: seq<string>)

  /** `upvotes`/`downvotes` are declared `number | string[]`: either the list of
      voters or a bare count. */
  datatype VoteList = Voters(ids: seq<UserId>) | Number(n: int)

  /** The tally of one restaurant inside a session. */
  datatype RestaurantVote = RestaurantVote(restaurantId: string, upvotes: VoteList, downvotes: VoteList)

  /** A group session. `createdAt` is the clock reading (milliseconds) whose ISO
      string the source stores; `expires` is a millisecond timestamp. */
  datatype GroupSession = GroupSession(
    id: string,
    name: string,
    restaurants: seq<Restaurant>,
    votes: seq<RestaurantVote>,
    createdAt: int,
    expires: int)

  /** `24 * 60 * 60 * 1000`: a session lives one day. */
  const SessionExpiryMs: int := 86400000

  /** A tally that holds nobody yet. */
  function EmptyTally(restaurantId: string): RestaurantVote {
    RestaurantVote(restaurantId, Voters([]), Voters([]))
  }

  /** `votes.find(v => v.restaurantId === restaurantId)`, as the index found. */
  function FindTally(votes: seq<RestaurantVote>, restaurantId: string): (r: Option<nat>)
    ensures r.Some? ==> r.value < |votes| && votes[r.value].restaurantId == restaurantId
    ensures r.Some? ==> forall j :: 0 <= j < r.value ==> votes[j].restaurantId != restaurantId
    ensures r.None? <==> forall j :: 0 <= j < |votes| ==> votes[j].restaurantId != restaurantId
  {
    if votes == [] then None
    else if votes[0].restaurantId == restaurantId then Some(0)
    else match FindTally(votes[1..], restaurantId)
      case None => None
      case Some(i) => Some(i + 1)
  }

  /** The tally `find` returns, if any. */
  function TallyOf(votes: seq<RestaurantVote>, restaurantId: string): Option<RestaurantVote> {
    match FindTally(votes, restaurantId)
    case None => None
    case Some(i) => Some(votes[i])
  }

  /** The ids of a roster, in roster order. */
  function RosterIds(rs: seq<Restaurant>): (ids: seq<string>)
    ensures |ids| == |rs|
    ensures forall i :: 0 <= i < |rs| ==> ids[i] == rs[i].id
  {
    if rs == [] then [] else [rs[0].id] + RosterIds(rs[1..])
  }

  /** The restaurant ids the tallies are for, in order. */
  function TallyIds(votes: seq<RestaurantVote>): (ids: seq<string>)
    ensures |ids| == |votes|
    ensures forall i :: 0 <= i < |votes| ==> ids[i] == votes[i].restaurantId
  {
    if votes == [] then [] else [votes[0].restaurantId] + TallyIds(votes[1..])
  }

  /** `restaurants.some(r => r.id === id)`. */
  predicate HasRestaurant(rs: seq<Restaurant>, id: string) {
    id in RosterIds(rs)
  }

  /** A tally whose lists are arrays, hold nobody twice, and share nobody. */
  ghost predicate TallyValid(t: RestaurantVote) {
    && t.upvotes.Voters?
    && t.downvotes.Voters?
    && NoDup(t.upvotes.ids)
    && NoDup(t.downvotes.ids)
    && forall u :: u in t.upvotes.ids ==> u !in t.downvotes.ids
  }

  /** The bookkeeping invariant: roster ids are unique, at most one tally per
      restaurant id, and every tally is valid. */
  ghost predicate SessionValid(s: GroupSession) {
    && NoDup(RosterIds(s.restaurants))
    && NoDup(TallyIds(s.votes))
    && forall i :: 0 <= i < |s.votes| ==> TallyValid(s.votes[i])
  }
}
