/** The browser-side voting service (src/services/votingService.ts): the same vote
    and add-restaurant bookkeeping as the workers, over one localStorage slot
    (`'voting_session'`) holding at most one session. `crypto.randomUUID()` and the
    clock are parameters; JSON round-tripping through the slot is the identity. */
module VotingService {
  import opened Base
  import opened Types
  import opened SessionLogic

  /** The two clock readings of one `createSession` call: `new Date()` for
      `createdAt`, then `Date.now()` for `expires`. */
  datatype Readings = Readings(newDate: int, dateNow: int)

  /** The client's `createSession(name)`: the name is kept as given (no default),
      nothing in the roster or the tallies, and one day to live from the second
      clock reading, so at least one day from creation when the clock does not go
      back between the two. */
  function ClientSession(id: string, name: string, clock: Readings): (s: GroupSession)
    ensures s.id == id && s.name == name && s.createdAt == clock.newDate
    ensures s.restaurants == [] && s.votes == []
    ensures s.expires - clock.dateNow == SessionExpiryMs
    ensures clock.newDate <= clock.dateNow ==> s.expires - s.createdAt >= SessionExpiryMs
    ensures SessionValid(s)
  {
    GroupSession(id, name, [], [], clock.newDate, clock.dateNow + SessionExpiryMs)
  }

  /** The stored session, or the 'Default Session' `vote`/`addRestaurant` would
      create when the slot is empty. */
  function SessionOrDefault(slot: Option<GroupSession>, freshId: string, clock: Readings): (s: GroupSession)
    ensures slot.Some? ==> s == slot.value
    ensures slot.None? ==> s.id == freshId && s.name == DefaultSessionName && s.restaurants == [] && s.votes == []
    ensures SlotValid(slot) ==> SessionValid(s)
  {
    if slot.Some? then slot.value else ClientSession(freshId, DefaultSessionName, clock)
  }

  /** The slot holds nothing, or a session that keeps the bookkeeping invariant. */
  ghost predicate SlotValid(slot: Option<GroupSession>) {
    slot.Some? ==> SessionValid(slot.value)
  }

  /** The `'voting_session'` localStorage entry. `saves` logs every `setItem`. */
  class SessionSlot {
    var slot: Option<GroupSession>
    ghost var saves: seq<GroupSession>

    constructor (initial: Option<GroupSession>)
      ensures slot == initial && saves == []
    {
      slot := initial;
      saves := [];
    }

    /** `getSession()`: the stored session, or null when the slot is empty. */
    function GetSession(): Option<GroupSession>
      reads this
    {
      slot
    }

    /** `saveSession(session)`: overwrite the slot. */
    method SaveSession(session: GroupSession)
      modifies this
      ensures slot == Some(session)
      ensures saves == old(saves) + [session]
    {
      slot := Some(session);
      saves := saves + [session];
    }

    /** `createSession(name)`: build a fresh session and store it. */
    method CreateSession(name: string, freshId: string, clock: Readings) returns (s: GroupSession)
      modifies this
      ensures s == ClientSession(freshId, name, clock)
      ensures slot == Some(s) && saves == old(saves) + [s]
    {
      s := ClientSession(freshId, name, clock);
      SaveSession(s);
    }

    /** `getVotesForRestaurant(id)` (and its twin `getRestaurantVotes`): the first
        tally for that restaurant, or null when there is none or no session. */
    function GetVotesForRestaurant(restaurantId: string): (r: Option<RestaurantVote>)
      reads this
      ensures slot.None? ==> r.None?
      ensures r.None? <==>
                slot.None? || forall j :: 0 <= j < |slot.value.votes| ==> slot.value.votes[j].restaurantId != restaurantId
      ensures r.Some? ==> exists i :: 0 <= i < |slot.value.votes| && slot.value.votes[i] == r.value
                            && r.value.restaurantId == restaurantId
                            && forall j :: 0 <= j < i ==> slot.value.votes[j].restaurantId != restaurantId
    {
      if slot.None? then None else TallyOf(slot.value.votes, restaurantId)
    }

    /** `getUserVote(id, user)`: true when the user is among the upvoters, else false
        when among the downvoters, else null; `includes` on a bare count throws. */
    function GetUserVote(restaurantId: string, userId: UserId): (r: Outcome<Option<bool>>)
      reads this
      ensures GetVotesForRestaurant(restaurantId).None? ==> r == Ok(None)
      ensures GetVotesForRestaurant(restaurantId).Some? ==>
                var t := GetVotesForRestaurant(restaurantId).value;
                && (r == Ok(Some(true)) <==> t.upvotes.Voters? && userId in t.upvotes.ids)
                && (r == Ok(Some(false)) <==>
                      t.upvotes.Voters? && userId !in t.upvotes.ids && t.downvotes.Voters? && userId in t.downvotes.ids)
                && (r.TypeError? <==>
                      t.upvotes.Number? || (userId !in t.upvotes.ids && t.downvotes.Number?))
    {
      match GetVotesForRestaurant(restaurantId)
      case None => Ok(None)
      case Some(t) =>
        if !t.upvotes.Voters? then TypeError
        else if userId in t.upvotes.ids then Ok(Some(true))
        else if !t.downvotes.Voters? then TypeError
        else if userId in t.downvotes.ids then Ok(Some(false))
        else Ok(None)
    }

    /** `vote(restaurantId, userId, isUpvote)`. An empty slot first gets a stored
        'Default Session'. A tally holding a bare count makes the call throw before
        anything is saved; otherwise the recast session is saved and a following
        `getUserVote` reports this very vote. */
    method Vote(restaurantId: string, userId: UserId, isUpvote: bool, freshId: string, clock: Readings)
      returns (r: Outcome<GroupSession>)
      modifies this
      ensures var base := SessionOrDefault(old(slot), freshId, clock);
              r == CastVote(base, restaurantId, userId, isUpvote)
      ensures var base := SessionOrDefault(old(slot), freshId, clock);
              var created := if old(slot).None? then [base] else [];
              if r.Ok? then slot == Some(r.value) && saves == old(saves) + created + [r.value]
              else slot == old(slot) && saves == old(saves)
      ensures r.Ok? ==> GetUserVote(restaurantId, userId) == Ok(Some(isUpvote))
      ensures SlotValid(old(slot)) ==> SlotValid(slot)
    {
      var session: GroupSession;
      if slot.None? {
        session := CreateSession(DefaultSessionName, freshId, clock);
      } else {
        session := slot.value;
      }
      r := ApplyVote(session, restaurantId, userId, isUpvote);
      if r.TypeError? {
        return;
      }
      if SessionValid(session) {
        CastVotePreservesValid(session, restaurantId, userId, isUpvote);
      }
      CastVoteExactlyOnce(session, restaurantId, userId, isUpvote);
      SaveSession(r.value);
    }

    /** `addRestaurant(restaurant)`. An empty slot first gets a stored 'Default
        Session'; the restaurant is appended and saved only when its id is new.
        Unlike the workers, the expiry is left as it was. */
    method AddRestaurant(restaurant: Restaurant, freshId: string, clock: Readings)
      modifies this
      ensures var base := SessionOrDefault(old(slot), freshId, clock);
              slot == Some(base.(restaurants := AddToRoster(base.restaurants, restaurant)))
      ensures var base := SessionOrDefault(old(slot), freshId, clock);
              var created := if old(slot).None? then [base] else [];
              saves == old(saves) + created +
                       (if HasRestaurant(base.restaurants, restaurant.id) then [] else [slot.value])
      ensures SlotValid(old(slot)) ==> SlotValid(slot)
    {
      var session: GroupSession;
      if slot.None? {
        session := CreateSession(DefaultSessionName, freshId, clock);
      } else {
        session := slot.value;
      }
      AddToRosterProps(session.restaurants, restaurant);
      if !HasRestaurant(session.restaurants, restaurant.id) {
        session := session.(restaurants := session.restaurants + [restaurant]);
        SaveSession(session);
      }
    }
  }

  /** Adding the same restaurant twice stores it once, and only the first call
      saves: the 'Default Session' when the slot was empty, then the append. */
  method AddTwiceScenario(store: SessionSlot, r: Restaurant, freshId: string, clock: Readings, later: Readings)
    modifies store
    ensures store.slot.Some?
    ensures HasRestaurant(store.slot.value.restaurants, r.id)
    ensures old(store.slot).None? ==> store.slot.value.restaurants == [r]
    ensures old(store.slot).Some? && !HasRestaurant(old(store.slot).value.restaurants, r.id) ==>
              store.slot.value.restaurants == old(store.slot).value.restaurants + [r]
    ensures old(store.slot).Some? && HasRestaurant(old(store.slot).value.restaurants, r.id) ==>
              store.slot == old(store.slot)
    ensures store.saves == old(store.saves) +
              (if old(store.slot).None? then [ClientSession(freshId, DefaultSessionName, clock), store.slot.value]
               else if HasRestaurant(old(store.slot).value.restaurants, r.id) then []
               else [store.slot.value])
  {
    store.AddRestaurant(r, freshId, clock);
    ghost var saved := store.saves;
    store.AddRestaurant(r, freshId, later);
    assert store.saves == saved;
  }

  /** Voting up and then down leaves a down-vote on record. */
  method FlipScenario(store: SessionSlot, restaurantId: string, userId: UserId, freshId: string, clock: Readings)
    returns (second: Outcome<GroupSession>)
    requires store.slot.None?
    modifies store
    ensures second.Ok?
    ensures store.GetUserVote(restaurantId, userId) == Ok(Some(false))
  {
    var first := store.Vote(restaurantId, userId, true, freshId, clock);
    CastVoteFails(ClientSession(freshId, DefaultSessionName, clock), restaurantId, userId, true);
    assert first.Ok?;
    assert store.slot.Some?;
    var s := store.slot.value;
    CastVoteExactlyOnce(SessionOrDefault(None, freshId, clock), restaurantId, userId, true);
    CastVoteFails(s, restaurantId, userId, false);
    second := store.Vote(restaurantId, userId, false, freshId, clock);
  }
}
