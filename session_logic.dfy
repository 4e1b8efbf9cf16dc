/** The session bookkeeping both session workers (workers/session-api.mjs and its
    twin workers/session-api.js) and the client voting service perform on a parsed
    session: creation, casting a vote, adding a restaurant, and the field merge of
    PUT. Each transform is a function; the lemmas state what the handlers promise. */
module SessionLogic {
  import opened Base
  import opened Seqs
  import opened Types

  const DefaultSessionName: string := "Default Session"

  /** `createSession(name)` of the workers: `name || 'Default Session'`, nothing in
      the roster or the tallies, and a one-day lifetime. */
  function NewSession(id: string, name: string, now: int): (s: GroupSession)
    ensures s.id == id && s.createdAt == now
    ensures s.name == (if name == "" then DefaultSessionName else name) && s.name != ""
    ensures s.restaurants == [] && s.votes == []
    ensures s.expires - s.createdAt == SessionExpiryMs
    ensures SessionValid(s)
  {
    GroupSession(id, if name == "" then DefaultSessionName else name, [], [], now, now + SessionExpiryMs)
  }

  // ---------------------------------------------------------------------------
  // Casting a vote

  /** The voters on one side of a tally whose lists are arrays. */
  function Side(t: RestaurantVote, up: bool): seq<UserId>
    requires t.upvotes.Voters? && t.downvotes.Voters?
  {
    if up then t.upvotes.ids else t.downvotes.ids
  }

  /** The tallies with one for `restaurantId` guaranteed, and its index: the found
      tally, or a fresh empty one pushed at the end. */
  function WithTally(votes: seq<RestaurantVote>, restaurantId: string): (r: (seq<RestaurantVote>, nat))
    ensures r.1 < |r.0| && FindTally(r.0, restaurantId) == Some(r.1)
    ensures FindTally(votes, restaurantId).Some? ==> r == (votes, FindTally(votes, restaurantId).value)
    ensures FindTally(votes, restaurantId).None? ==>
              r == (votes + [EmptyTally(restaurantId)], |votes|)
  {
    match FindTally(votes, restaurantId)
    case Some(i) => (votes, i)
    case None =>
      var vs := votes + [EmptyTally(restaurantId)];
      assert vs[|votes|].restaurantId == restaurantId;
      (vs, |votes|)
  }

  /** The tally `find` would return, or the empty one the handler would create. */
  function PriorTally(votes: seq<RestaurantVote>, restaurantId: string): RestaurantVote {
    TallyOf(votes, restaurantId).GetOr(EmptyTally(restaurantId))
  }

  /** Retract `userId` from both lists with `filter`, then push it onto the side
      `isUpvote` selects. Filtering a number throws a `TypeError`. */
  function Recast(t: RestaurantVote, userId: UserId, isUpvote: bool): (r: Outcome<RestaurantVote>)
    ensures r.TypeError? <==> !(t.upvotes.Voters? && t.downvotes.Voters?)
    ensures r.Ok? ==> r.value.restaurantId == t.restaurantId
    ensures r.Ok? ==> r.value.upvotes.Voters? && r.value.downvotes.Voters?
  {
    if !t.upvotes.Voters? || !t.downvotes.Voters? then TypeError
    else
      var ups := Without(t.upvotes.ids, userId);
      var downs := Without(t.downvotes.ids, userId);
      if isUpvote then Ok(t.(upvotes := Voters(ups + [userId]), downvotes := Voters(downs)))
      else Ok(t.(upvotes := Voters(ups), downvotes := Voters(downs + [userId])))
  }

  /** What /vote does to a parsed session: find or lazily append the tally for
      `restaurantId`, then recast `userId`'s vote in it. Nothing but `votes` changes. */
  function CastVote(s: GroupSession, restaurantId: string, userId: UserId, isUpvote: bool): (r: Outcome<GroupSession>)
    ensures r.Ok? ==> r.value == s.(votes := r.value.votes)
    ensures r.Ok? ==> |r.value.votes| == |WithTally(s.votes, restaurantId).0|
  {
    var (votes, i) := WithTally(s.votes, restaurantId);
    match Recast(votes[i], userId, isUpvote)
    case TypeError => TypeError
    case Ok(t) => Ok(s.(votes := votes[i := t]))
  }

  /** The handler's in-place steps on the parsed session, in source order. */
  method ApplyVote(session: GroupSession, restaurantId: string, userId: UserId, isUpvote: bool)
    returns (r: Outcome<GroupSession>)
    ensures r == CastVote(session, restaurantId, userId, isUpvote)
  {
    var s := session;
    var found := FindTally(s.votes, restaurantId);
    var i: nat;
    if found.None? {
      s := s.(votes := s.votes + [EmptyTally(restaurantId)]);
      i := |s.votes| - 1;
    } else {
      i := found.value;
    }
    var t := s.votes[i];
    if !t.upvotes.Voters? {
      return TypeError;
    }
    t := t.(upvotes := Voters(Without(t.upvotes.ids, userId)));
    if !t.downvotes.Voters? {
      return TypeError;
    }
    t := t.(downvotes := Voters(Without(t.downvotes.ids, userId)));
    if isUpvote {
      t := t.(upvotes := Voters(t.upvotes.ids + [userId]));
    } else {
      t := t.(downvotes := Voters(t.downvotes.ids + [userId]));
    }
    s := s.(votes := s.votes[i := t]);
    r := Ok(s);
  }

  /** A vote throws exactly when the existing tally holds a bare count; a lazily
      created tally never does. */
  lemma CastVoteFails(s: GroupSession, restaurantId: string, userId: UserId, isUpvote: bool)
    ensures CastVote(s, restaurantId, userId, isUpvote).TypeError? <==>
              (match TallyOf(s.votes, restaurantId)
               case None => false
               case Some(t) => !(t.upvotes.Voters? && t.downvotes.Voters?))
  {
  }

  /** After a vote the tally for `restaurantId` is the first one, holds `userId`
      exactly once on the chosen side and never on the other. */
  lemma CastVoteExactlyOnce(s: GroupSession, restaurantId: string, userId: UserId, isUpvote: bool)
    requires CastVote(s, restaurantId, userId, isUpvote).Ok?
    ensures var t := TallyOf(CastVote(s, restaurantId, userId, isUpvote).value.votes, restaurantId);
            && t.Some? && t.value.upvotes.Voters? && t.value.downvotes.Voters?
            && Count(Side(t.value, isUpvote), userId) == 1
            && Count(Side(t.value, !isUpvote), userId) == 0
  {
    var (votes, i) := WithTally(s.votes, restaurantId);
    var old_ := votes[i];
    var t := Recast(old_, userId, isUpvote).value;
    var s' := CastVote(s, restaurantId, userId, isUpvote).value;
    assert s'.votes == votes[i := t];
    assert FindTally(s'.votes, restaurantId) == Some(i) by {
      FindTallyAfterUpdate(votes, i, t, restaurantId);
    }
    var pick := Without(Side(old_, isUpvote), userId);
    CountPush(pick, userId, userId);
    WithoutCount(Side(old_, isUpvote), userId, userId);
    WithoutCount(Side(old_, !isUpvote), userId, userId);
  }

  /** Replacing the found tally by one for the same restaurant keeps it the one found. */
  lemma FindTallyAfterUpdate(votes: seq<RestaurantVote>, i: nat, t: RestaurantVote, restaurantId: string)
    requires FindTally(votes, restaurantId) == Some(i)
    requires t.restaurantId == restaurantId
    ensures FindTally(votes[i := t], restaurantId) == Some(i)
  {
    var vs := votes[i := t];
    assert vs[i].restaurantId == restaurantId;
    var r := FindTally(vs, restaurantId);
    assert r.Some?;
  }

  /** Every other user keeps exactly the votes they had, in the same relative order. */
  lemma CastVoteKeepsOthers(s: GroupSession, restaurantId: string, userId: UserId, isUpvote: bool, side: bool)
    requires CastVote(s, restaurantId, userId, isUpvote).Ok?
    ensures var before := PriorTally(s.votes, restaurantId);
            var t := TallyOf(CastVote(s, restaurantId, userId, isUpvote).value.votes, restaurantId);
            && t.Some? && t.value.upvotes.Voters? && t.value.downvotes.Voters?
            && before.upvotes.Voters? && before.downvotes.Voters?
            && Without(Side(t.value, side), userId) == Without(Side(before, side), userId)
            && forall v :: v != userId ==> Count(Side(t.value, side), v) == Count(Side(before, side), v)
  {
    var (votes, i) := WithTally(s.votes, restaurantId);
    var before := votes[i];
    assert before == PriorTally(s.votes, restaurantId);
    var t := Recast(before, userId, isUpvote).value;
    var s' := CastVote(s, restaurantId, userId, isUpvote).value;
    FindTallyAfterUpdate(votes, i, t, restaurantId);
    assert TallyOf(s'.votes, restaurantId) == Some(t);
    var w := Without(Side(before, side), userId);
    if side == isUpvote {
      assert Side(t, side) == w + [userId];
      WithoutConcat(w, [userId], userId);
      assert Without([userId], userId) == [];
      WithoutAbsent(w, userId);
      forall v | v != userId ensures Count(Side(t, side), v) == Count(Side(before, side), v) {
        CountPush(w, userId, v);
        WithoutCount(Side(before, side), userId, v);
      }
    } else {
      assert Side(t, side) == w;
      WithoutAbsent(w, userId);
      forall v | v != userId ensures Count(Side(t, side), v) == Count(Side(before, side), v) {
        WithoutCount(Side(before, side), userId, v);
      }
    }
  }

  /** The tally for `restaurantId` is appended at the end only when none exists;
      otherwise it is updated where it stands. Every other tally is untouched. */
  lemma CastVoteLazyTally(s: GroupSession, restaurantId: string, userId: UserId, isUpvote: bool)
    requires CastVote(s, restaurantId, userId, isUpvote).Ok?
    ensures var vs := CastVote(s, restaurantId, userId, isUpvote).value.votes;
            match FindTally(s.votes, restaurantId)
            case None =>
              && |vs| == |s.votes| + 1
              && vs[..|s.votes|] == s.votes
              && vs[|s.votes|].restaurantId == restaurantId
            case Some(i) =>
              && |vs| == |s.votes|
              && vs[i].restaurantId == restaurantId
              && forall j :: 0 <= j < |vs| && j != i ==> vs[j] == s.votes[j]
  {
    var (votes, i) := WithTally(s.votes, restaurantId);
    var vs := CastVote(s, restaurantId, userId, isUpvote).value.votes;
    if FindTally(s.votes, restaurantId).None? {
      assert vs[..|s.votes|] == votes[..|s.votes|];
    }
  }

  /** Repeating a vote changes nothing: the handler behaves as a replace, not an increment. */
  lemma CastVoteIdempotent(s: GroupSession, restaurantId: string, userId: UserId, isUpvote: bool)
    requires CastVote(s, restaurantId, userId, isUpvote).Ok?
    ensures var s' := CastVote(s, restaurantId, userId, isUpvote).value;
            CastVote(s', restaurantId, userId, isUpvote) == Ok(s')
  {
    var (votes, i) := WithTally(s.votes, restaurantId);
    var before := votes[i];
    var t := Recast(before, userId, isUpvote).value;
    var s' := CastVote(s, restaurantId, userId, isUpvote).value;
    FindTallyAfterUpdate(votes, i, t, restaurantId);
    assert WithTally(s'.votes, restaurantId) == (s'.votes, i);
    var pick := Without(Side(before, isUpvote), userId);
    var other := Without(Side(before, !isUpvote), userId);
    WithoutConcat(pick, [userId], userId);
    assert Without([userId], userId) == [];
    WithoutAbsent(pick, userId);
    WithoutAbsent(other, userId);
    assert Without(pick + [userId], userId) == pick by {
      assert pick + [] == pick;
    }
    if isUpvote {
      assert t == before.(upvotes := Voters(pick + [userId]), downvotes := Voters(other));
    } else {
      assert t == before.(upvotes := Voters(other), downvotes := Voters(pick + [userId]));
    }
    assert Recast(t, userId, isUpvote) == Ok(t);
    assert s'.votes[i := t] == s'.votes;
  }

  /** The lengths of both lists of the tally before (`t`) and after (`t'`) a vote. */
  ghost predicate SideLengths(t: RestaurantVote, t': RestaurantVote, side: bool, dSide: int, dOther: int)
    requires t.upvotes.Voters? && t.downvotes.Voters?
    requires t'.upvotes.Voters? && t'.downvotes.Voters?
  {
    && |Side(t', side)| == |Side(t, side)| + dSide
    && |Side(t', !side)| == |Side(t, !side)| + dOther
  }

  /** With `userId` once on side `was` and not on the other, repeating that vote
      leaves both lengths alone and flipping it moves one count from that side to
      the other. */
  lemma CastVoteCounts(s: GroupSession, restaurantId: string, userId: UserId, was: bool, isUpvote: bool)
    requires TallyOf(s.votes, restaurantId).Some?
    requires var t := TallyOf(s.votes, restaurantId).value;
             && t.upvotes.Voters? && t.downvotes.Voters?
             && Count(Side(t, was), userId) == 1 && Count(Side(t, !was), userId) == 0
    ensures CastVote(s, restaurantId, userId, isUpvote).Ok?
    ensures var t := TallyOf(s.votes, restaurantId).value;
            var t' := TallyOf(CastVote(s, restaurantId, userId, isUpvote).value.votes, restaurantId);
            && t'.Some? && t'.value.upvotes.Voters? && t'.value.downvotes.Voters?
            && if isUpvote == was then SideLengths(t, t'.value, was, 0, 0)
               else SideLengths(t, t'.value, was, -1, 1)
  {
    var (votes, i) := WithTally(s.votes, restaurantId);
    var before := votes[i];
    var t := Recast(before, userId, isUpvote).value;
    var s' := CastVote(s, restaurantId, userId, isUpvote).value;
    FindTallyAfterUpdate(votes, i, t, restaurantId);
    assert TallyOf(s'.votes, restaurantId) == Some(t);
    WithoutLength(Side(before, was), userId);
    WithoutLength(Side(before, !was), userId);
  }

  /** The tallies are valid and at most one is kept per restaurant id. */
  ghost predicate TalliesValid(votes: seq<RestaurantVote>) {
    && NoDup(TallyIds(votes))
    && forall j :: 0 <= j < |votes| ==> TallyValid(votes[j])
  }

  /** Lazily appending an empty tally keeps the tallies valid. */
  lemma WithTallyValid(votes: seq<RestaurantVote>, restaurantId: string)
    requires TalliesValid(votes)
    ensures TalliesValid(WithTally(votes, restaurantId).0)
  {
    if FindTally(votes, restaurantId).None? {
      var vs := votes + [EmptyTally(restaurantId)];
      assert TallyIds(vs) == TallyIds(votes) + [restaurantId];
      PushNoDup(TallyIds(votes), restaurantId);
      assert TallyValid(EmptyTally(restaurantId)) by {
        var none: seq<UserId> := [];
        forall y: UserId ensures Count(none, y) <= 1 { }
      }
    }
  }

  /** Recasting a vote in a valid tally gives a valid tally. */
  lemma RecastValid(t: RestaurantVote, userId: UserId, isUpvote: bool)
    requires TallyValid(t)
    ensures Recast(t, userId, isUpvote).Ok? && TallyValid(Recast(t, userId, isUpvote).value)
  {
    var pick := Without(Side(t, isUpvote), userId);
    var other := Without(Side(t, !isUpvote), userId);
    WithoutNoDup(Side(t, isUpvote), userId);
    WithoutNoDup(Side(t, !isUpvote), userId);
    PushNoDup(pick, userId);
    var t' := Recast(t, userId, isUpvote).value;
    assert Side(t', isUpvote) == pick + [userId] && Side(t', !isUpvote) == other;
    forall v | v in Side(t', isUpvote) ensures v !in Side(t', !isUpvote) {
      if v != userId {
        assert v in Side(t, isUpvote);
      }
    }
  }

  /** The invariant (unique roster ids, one tally per restaurant, every tally
      valid) survives every vote, and a vote on a valid session never throws. */
  lemma CastVotePreservesValid(s: GroupSession, restaurantId: string, userId: UserId, isUpvote: bool)
    requires SessionValid(s)
    ensures CastVote(s, restaurantId, userId, isUpvote).Ok?
    ensures SessionValid(CastVote(s, restaurantId, userId, isUpvote).value)
  {
    var (votes, i) := WithTally(s.votes, restaurantId);
    assert TalliesValid(s.votes);
    WithTallyValid(s.votes, restaurantId);
    RecastValid(votes[i], userId, isUpvote);
    var t := Recast(votes[i], userId, isUpvote).value;
    var vs := votes[i := t];
    assert TallyIds(vs) == TallyIds(votes);
    assert TalliesValid(vs);
  }

  // ---------------------------------------------------------------------------
  // The restaurant roster

  /** `if (!restaurants.some(r => r.id === restaurant.id)) restaurants.push(restaurant)`. */
  function AddToRoster(rs: seq<Restaurant>, r: Restaurant): (out: seq<Restaurant>)
    ensures HasRestaurant(out, r.id)
    ensures HasRestaurant(rs, r.id) ==> out == rs
    ensures !HasRestaurant(rs, r.id) ==> out == rs + [r]
  {
    if HasRestaurant(rs, r.id) then rs
    else
      RosterIdsPush(rs, r);
      rs + [r]
  }

  lemma {:induction false} RosterIdsPush(rs: seq<Restaurant>, r: Restaurant)
    ensures RosterIds(rs + [r]) == RosterIds(rs) + [r.id]
  {
    assert forall i :: 0 <= i < |rs| + 1 ==> RosterIds(rs + [r])[i] == (RosterIds(rs) + [r.id])[i];
  }

  /** Adding the same restaurant again is a no-op, and unique ids stay unique. */
  lemma AddToRosterProps(rs: seq<Restaurant>, r: Restaurant)
    ensures AddToRoster(AddToRoster(rs, r), r) == AddToRoster(rs, r)
    ensures NoDup(RosterIds(rs)) ==> NoDup(RosterIds(AddToRoster(rs, r)))
    ensures (set id | id in RosterIds(AddToRoster(rs, r))) == (set id | id in RosterIds(rs)) + {r.id}
  {
    if !HasRestaurant(rs, r.id) {
      RosterIdsPush(rs, r);
      if NoDup(RosterIds(rs)) {
        PushNoDup(RosterIds(rs), r.id);
      }
    }
  }

  /** The roster after `restaurant` adds in order, starting from `rs`. */
  function AddAll(rs: seq<Restaurant>, adds: seq<Restaurant>): seq<Restaurant>
    decreases |adds|
  {
    if adds == [] then rs else AddAll(AddToRoster(rs, adds[0]), adds[1..])
  }

  /** The set of ids in a roster. */
  ghost function IdSet(rs: seq<Restaurant>): set<string> {
    set id | id in RosterIds(rs)
  }

  /** However often each id is added, the roster ends up with one entry per distinct
      id ever added, and the ids stay unique. */
  lemma {:induction false} AddAllDistinct(rs: seq<Restaurant>, adds: seq<Restaurant>)
    requires NoDup(RosterIds(rs))
    ensures NoDup(RosterIds(AddAll(rs, adds)))
    ensures IdSet(AddAll(rs, adds)) == IdSet(rs) + IdSet(adds)
    ensures |AddAll(rs, adds)| == |IdSet(rs) + IdSet(adds)|
    decreases |adds|
  {
    if adds == [] {
      NoDupCardinality(RosterIds(rs));
      assert IdSet(adds) == {};
    } else {
      var next := AddToRoster(rs, adds[0]);
      AddToRosterProps(rs, adds[0]);
      assert IdSet(next) == IdSet(rs) + {adds[0].id};
      AddAllDistinct(next, adds[1..]);
      assert RosterIds(adds) == [adds[0].id] + RosterIds(adds[1..]);
      assert IdSet(adds) == {adds[0].id} + IdSet(adds[1..]);
      var out := AddAll(rs, adds);
      assert IdSet(out) == IdSet(rs) + IdSet(adds);
      NoDupCardinality(RosterIds(out));
    }
  }

  /** /add-restaurant on a parsed session: append and refresh the expiry when the id
      is new, otherwise the session is returned as stored. */
  function AddRestaurant(s: GroupSession, r: Restaurant, now: int): (out: GroupSession)
    ensures HasRestaurant(s.restaurants, r.id) ==> out == s
    ensures !HasRestaurant(s.restaurants, r.id) ==>
              && out.restaurants == s.restaurants + [r]
              && out.expires == now + SessionExpiryMs
              && out == s.(restaurants := out.restaurants, expires := out.expires)
  {
    if HasRestaurant(s.restaurants, r.id) then s
    else s.(restaurants := s.restaurants + [r], expires := now + SessionExpiryMs)
  }

  /** Adding a restaurant keeps the session invariant and is idempotent on the id,
      whatever the clock says the second time. */
  lemma AddRestaurantProps(s: GroupSession, r: Restaurant, now: int, later: int)
    ensures SessionValid(s) ==> SessionValid(AddRestaurant(s, r, now))
    ensures AddRestaurant(AddRestaurant(s, r, now), r, later) == AddRestaurant(s, r, now)
  {
    AddToRosterProps(s.restaurants, r);
  }

  // ---------------------------------------------------------------------------
  // PUT /sessions/{id}

  /** The fields a PUT body may carry. A falsy `name` is the empty string; an
      array is truthy even when empty, so `Some([])` does overwrite. */
  datatype SessionPatch = SessionPatch(
    name: string,
    restaurants: Option<seq<Restaurant>>,
    votes: Option<seq<RestaurantVote>>)

  /** Only truthy fields overwrite; the expiry is pushed one day past `now`. */
  function ApplyPatch(s: GroupSession, body: SessionPatch, now: int): (out: GroupSession)
    ensures out.id == s.id && out.createdAt == s.createdAt
    ensures out.expires == now + SessionExpiryMs
    ensures out.name == if body.name != "" then body.name else s.name
    ensures out.restaurants == body.restaurants.GetOr(s.restaurants)
    ensures out.votes == body.votes.GetOr(s.votes)
  {
    var s1 := if body.name != "" then s.(name := body.name) else s;
    var s2 := if body.restaurants.Some? then s1.(restaurants := body.restaurants.value) else s1;
    var s3 := if body.votes.Some? then s2.(votes := body.votes.value) else s2;
    s3.(expires := now + SessionExpiryMs)
  }

  /** An empty patch only refreshes the expiry, and a patch that touches neither
      list keeps the session invariant. */
  lemma ApplyPatchProps(s: GroupSession, body: SessionPatch, now: int)
    ensures body == SessionPatch("", None, None) ==> ApplyPatch(s, body, now) == s.(expires := now + SessionExpiryMs)
    ensures SessionValid(s) && body.restaurants.None? && body.votes.None? ==> SessionValid(ApplyPatch(s, body, now))
  {
  }
}
