/** The options-and-ballot worker (workers/voting-api.mjs): a shared list of lunch
    options under the `'options'` key, and single-ballot sessions under
    `session:<id>` in which each user votes once for one option. */
module VotingApi {
  import opened Base
  import opened Seqs
  import opened Paths

  datatype VoteOption = VoteOption(id: string, name: string)

  /** A ballot session: `votes` counts per option id, `voters` maps each user to
      the option chosen. */
  datatype Ballot = Ballot(id: string, votes: map<string, nat>, voters: map<string, string>)

  /** `expirationTtl` of every ballot write: one day, in seconds. */
  const BallotTtl: nat := 86400

  const OptionsKey: string := "options"

  /** The key of a ballot session. */
  function BallotKey(id: string): (k: string)
    ensures k != OptionsKey
    ensures |k| == 8 + |id| && k[8..] == id
  {
    "session:" + id
  }

  lemma BallotKeyInjective(a: string, b: string)
    ensures BallotKey(a) == BallotKey(b) <==> a == b
  {
    if BallotKey(a) == BallotKey(b) {
      assert a == BallotKey(a)[8..] && b == BallotKey(b)[8..];
    }
  }

  /** One `kv.put`: the key and its `expirationTtl`, if any. */
  datatype Write = Write(key: string, ttl: Option<nat>)

  /** The SESSIONS_KV namespace as this worker uses it: the raw `'options'` value
      (absent or a list) and the ballot records by key. */
  class VotingKv {
    var options: Option<seq<VoteOption>>
    var ballots: map<string, Ballot>
    ghost var writes: seq<Write>

    constructor (initialOptions: Option<seq<VoteOption>>, initialBallots: map<string, Ballot>)
      ensures options == initialOptions && ballots == initialBallots && writes == []
    {
      options := initialOptions;
      ballots := initialBallots;
      writes := [];
    }

    /** `getOptions()`: the stored list, or `[]` when the key is absent. */
    method GetOptions() returns (r: seq<VoteOption>)
      ensures r == StoredOptions(options)
      ensures options.None? ==> r == []
    {
      r := if options.Some? then options.value else [];
    }

    method PutOptions(value: seq<VoteOption>)
      modifies this
      ensures options == Some(value) && ballots == old(ballots)
      ensures writes == old(writes) + [Write(OptionsKey, None)]
    {
      options := Some(value);
      writes := writes + [Write(OptionsKey, None)];
    }

    method GetBallot(key: string) returns (r: Option<Ballot>)
      ensures r == if key in ballots then Some(ballots[key]) else None
    {
      r := if key in ballots then Some(ballots[key]) else None;
    }

    method PutBallot(key: string, value: Ballot)
      modifies this
      ensures ballots == old(ballots)[key := value] && options == old(options)
      ensures writes == old(writes) + [Write(key, Some(BallotTtl))]
    {
      ballots := ballots[key := value];
      writes := writes + [Write(key, Some(BallotTtl))];
    }
  }

  /** What `getOptions()` reads back from the raw `'options'` value. */
  function StoredOptions(raw: Option<seq<VoteOption>>): seq<VoteOption> {
    raw.GetOr([])
  }

  // ---------------------------------------------------------------------------
  // The options list

  /** `options.findIndex(o => o.id === id)`, with -1 as None. */
  function FindOption(opts: seq<VoteOption>, id: string): (r: Option<nat>)
    ensures r.Some? ==> r.value < |opts| && opts[r.value].id == id
    ensures r.Some? ==> forall j :: 0 <= j < r.value ==> opts[j].id != id
    ensures r.None? <==> forall j :: 0 <= j < |opts| ==> opts[j].id != id
  {
    FindOptionFrom(opts, id, 0)
  }

  /** The scan `findIndex` performs, from index `k` onwards. */
  function FindOptionFrom(opts: seq<VoteOption>, id: string, k: nat): (r: Option<nat>)
    requires k <= |opts|
    ensures r.Some? ==> k <= r.value < |opts| && opts[r.value].id == id
    ensures r.Some? ==> forall j :: k <= j < r.value ==> opts[j].id != id
    ensures r.None? <==> forall j :: k <= j < |opts| ==> opts[j].id != id
    decreases |opts| - k
  {
    if k == |opts| then None
    else if opts[k].id == id then Some(k)
    else FindOptionFrom(opts, id, k + 1)
  }

  /** `options[idx].name = name || options[idx].name` */
  function RenameAt(opts: seq<VoteOption>, idx: nat, name: string): (r: seq<VoteOption>)
    requires idx < |opts|
    ensures |r| == |opts|
    ensures r[idx].id == opts[idx].id
    ensures r[idx].name == if name == "" then opts[idx].name else name
    ensures forall j :: 0 <= j < |opts| && j != idx ==> r[j] == opts[j]
  {
    opts[idx := opts[idx].(name := if name == "" then opts[idx].name else name)]
  }

  /** Renaming keeps every id in place, and an empty name changes nothing. */
  lemma RenameKeepsIds(opts: seq<VoteOption>, idx: nat, name: string)
    requires idx < |opts|
    ensures forall j :: 0 <= j < |opts| ==> RenameAt(opts, idx, name)[j].id == opts[j].id
    ensures name == "" ==> RenameAt(opts, idx, name) == opts
  {
  }

  /** `options.filter(o => o.id !== id)` */
  function RemoveOption(opts: seq<VoteOption>, id: string): (r: seq<VoteOption>)
    ensures |r| <= |opts|
    ensures forall o :: o in r <==> o in opts && o.id != id
  {
    if opts == [] then []
    else if opts[0].id == id then RemoveOption(opts[1..], id)
    else [opts[0]] + RemoveOption(opts[1..], id)
  }

  /** Deleting keeps the other options in their order and is idempotent. */
  lemma {:induction false} RemoveOptionProps(opts: seq<VoteOption>, id: string)
    ensures IsSubseq(RemoveOption(opts, id), opts)
    ensures RemoveOption(RemoveOption(opts, id), id) == RemoveOption(opts, id)
    ensures (forall j :: 0 <= j < |opts| ==> opts[j].id != id) ==> RemoveOption(opts, id) == opts
    decreases |opts|
  {
    if opts != [] {
      RemoveOptionProps(opts[1..], id);
      var tail := RemoveOption(opts[1..], id);
      if opts[0].id == id {
        SubseqDropHead(tail, opts);
      } else {
        var r := [opts[0]] + tail;
        assert r[0] == opts[0] && r[1..] == tail;
        assert (forall j :: 0 <= j < |opts| ==> opts[j].id != id) ==>
               (forall j :: 0 <= j < |opts[1..]| ==> opts[1..][j].id != id) by {
          if forall j :: 0 <= j < |opts| ==> opts[j].id != id {
            forall j | 0 <= j < |opts[1..]| ensures opts[1..][j].id != id {
              assert opts[1..][j] == opts[j + 1];
            }
          }
        }
        assert opts == [opts[0]] + opts[1..];
      }
    }
  }

  // ---------------------------------------------------------------------------
  // Ballots

  /** `session.voters[userId]` is truthy. */
  predicate AlreadyVoted(b: Ballot, userId: string) {
    userId in b.voters && b.voters[userId] != ""
  }

  /** `{ id, votes: {}, voters: {} }` */
  function NewBallot(id: string): (b: Ballot)
    ensures b.id == id && b.votes == map[] && b.voters == map[]
    ensures BallotInvariant(b)
  {
    var b := Ballot(id, map[], map[]);
    assert Total(b.votes) == 0;
    b
  }

  /** Record the user's choice and add one to that option's count; a user whose
      entry is truthy is refused. */
  function CastBallot(b: Ballot, optionId: string, userId: string): (r: Option<Ballot>)
    ensures r.None? <==> AlreadyVoted(b, userId)
    ensures r.Some? ==> r.value.id == b.id
    ensures r.Some? ==> r.value.voters == b.voters[userId := optionId]
    ensures r.Some? ==> optionId in r.value.votes
    ensures r.Some? ==> r.value.votes[optionId] == (if optionId in b.votes then b.votes[optionId] else 0) + 1
    ensures r.Some? ==> forall o :: o != optionId ==>
              (o in r.value.votes <==> o in b.votes) && (o in b.votes ==> r.value.votes[o] == b.votes[o])
  {
    if AlreadyVoted(b, userId) then None
    else
      var count := if optionId in b.votes then b.votes[optionId] else 0;
      Some(b.(voters := b.voters[userId := optionId], votes := b.votes[optionId := count + 1]))
  }

  /** The number of votes cast, summed over the options. */
  ghost function Total(m: map<string, nat>): nat
    decreases |m.Keys|
  {
    if m.Keys == {} then 0
    else
      var k :| k in m.Keys;
      assert |(m - {k}).Keys| < |m.Keys| by {
        assert (m - {k}).Keys == m.Keys - {k};
      }
      m[k] + Total(m - {k})
  }

  /** The sum can be taken apart at any key. */
  lemma TotalRemove(m: map<string, nat>, k: string)
    requires k in m
    ensures Total(m) == m[k] + Total(m - {k})
    decreases |m.Keys|
  {
    var j :| j in m.Keys && Total(m) == m[j] + Total(m - {j});
    if j != k {
      assert (m - {j}).Keys == m.Keys - {j};
      assert (m - {k}).Keys == m.Keys - {k};
      TotalRemove(m - {j}, k);
      TotalRemove(m - {k}, j);
      assert m - {j} - {k} == m - {k} - {j};
    }
  }

  /** Adding one to a count (a new key starting from 0) adds one to the sum. */
  lemma TotalIncrement(m: map<string, nat>, k: string)
    ensures var c := if k in m then m[k] else 0;
            Total(m[k := c + 1]) == Total(m) + 1
  {
    var c := if k in m then m[k] else 0;
    var m' := m[k := c + 1];
    TotalRemove(m', k);
    assert m' - {k} == m - {k};
    if k in m {
      TotalRemove(m, k);
    } else {
      assert m - {k} == m;
    }
  }

  /** The users who chose `o`. */
  ghost function VotersFor(voters: map<string, string>, o: string): set<string> {
    set u | u in voters.Keys && voters[u] == o
  }

  /** Every voter chose a truthy option that has a count, each count is the number
      of users who chose it, and the counts add up to the number of voters. */
  ghost predicate BallotInvariant(b: Ballot) {
    && (forall u :: u in b.voters ==> b.voters[u] != "" && b.voters[u] in b.votes)
    && (forall o :: o in b.votes ==> b.votes[o] == |VotersFor(b.voters, o)|)
    && Total(b.votes) == |b.voters|
  }

  /** Under the invariant a user has voted exactly when the user is in `voters`. */
  lemma AlreadyVotedMeansPresent(b: Ballot, userId: string)
    requires BallotInvariant(b)
    ensures AlreadyVoted(b, userId) <==> userId in b.voters
  {
  }

  lemma VotersForAdd(voters: map<string, string>, u: string, o: string, o': string)
    requires u !in voters
    ensures VotersFor(voters[u := o], o') == if o' == o then VotersFor(voters, o') + {u} else VotersFor(voters, o')
    ensures u !in VotersFor(voters, o')
  {
  }

  /** A successful vote with a truthy option keeps the counting invariant; in
      particular the counts still sum to the number of voters, one more than before. */
  lemma CastBallotPreservesInvariant(b: Ballot, optionId: string, userId: string)
    requires BallotInvariant(b) && optionId != ""
    requires CastBallot(b, optionId, userId).Some?
    ensures var b' := CastBallot(b, optionId, userId).value;
            BallotInvariant(b') && |b'.voters| == |b.voters| + 1 && Total(b'.votes) == Total(b.votes) + 1
  {
    var b' := CastBallot(b, optionId, userId).value;
    assert userId !in b.voters;
    assert b'.voters.Keys == b.voters.Keys + {userId};
    TotalIncrement(b.votes, optionId);
    forall o | o in b'.votes
      ensures b'.votes[o] == |VotersFor(b'.voters, o)|
    {
      VotersForAdd(b.voters, userId, optionId, o);
      if o != optionId {
        assert o in b.votes;
      } else if optionId !in b.votes {
        assert VotersFor(b.voters, o) == {} by {
          forall u | u in b.voters ensures b.voters[u] != o {
            assert b.voters[u] in b.votes;
          }
        }
      }
    }
  }

  /** Once a user's vote is recorded, a second vote by that user is refused,
      whatever option it names. */
  lemma SecondVoteRefused(b: Ballot, optionId: string, other: string, userId: string)
    requires optionId != "" && CastBallot(b, optionId, userId).Some?
    ensures CastBallot(CastBallot(b, optionId, userId).value, other, userId).None?
  {
  }

  // ---------------------------------------------------------------------------
  // Requests, replies and handlers

  datatype HttpMethod = GET | POST | PUT | DELETE | OPTIONS | OtherMethod

  datatype Endpoint =
    | Preflight
    | ListOptions
    | AddOption
    | RenameOption(id: string)
    | DeleteOption(id: string)
    | CreateBallot
    | Vote(sessionId: string)
    | Results(sessionId: string)
    | NoRoute

  /** The route chain of the worker: `/options` lists and adds, `/options/{id}`
      renames and deletes, POST `/sessions` creates a ballot, and the two session
      actions carry the third segment. */
  function Route(m: HttpMethod, path: string): (r: Endpoint)
    ensures m == OPTIONS <==> r == Preflight
    ensures r == ListOptions <==> m == GET && path == "/options"
    ensures r == AddOption <==> m == POST && path == "/options"
    ensures r.RenameOption? <==> m == PUT && StartsWith(path, "/options/")
    ensures r.DeleteOption? <==> m == DELETE && StartsWith(path, "/options/")
    ensures r.RenameOption? || r.DeleteOption? ==> r.id == ThirdSegment(path)
    ensures r == CreateBallot <==> m == POST && path == "/sessions"
    ensures r.Vote? ==> m == POST && IsSessionAction(path, "vote") && r.sessionId == ThirdSegment(path)
    ensures r.Results? ==> m == GET && IsSessionAction(path, "results") && r.sessionId == ThirdSegment(path)
  {
    if m == OPTIONS then Preflight
    else if path == "/options" && m == GET then ListOptions
    else if path == "/options" && m == POST then AddOption
    else if StartsWith(path, "/options/") && m == PUT then RenameOption(ThirdSegment(path))
    else if StartsWith(path, "/options/") && m == DELETE then DeleteOption(ThirdSegment(path))
    else if path == "/sessions" && m == POST then CreateBallot
    else if IsSessionAction(path, "vote") && m == POST then Vote(ThirdSegment(path))
    else if IsSessionAction(path, "results") && m == GET then Results(ThirdSegment(path))
    else NoRoute
  }

  /** A path under `/sessions/` is neither `/options`, `/options/...` nor `/sessions`. */
  lemma SessionPathIsNotOptions(p: string)
    requires |p| > 10 && p[..10] == "/sessions/"
    ensures p != "/options" && p != "/sessions" && !StartsWith(p, "/options/")
  {
    assert p[1] == p[..10][1] == 's';
    assert p[..9][1] == p[1];
  }

  /** `/sessions/{id}/vote` reaches the vote handler with the id read back, for
      every non-empty id without a slash. */
  lemma VoteRoute(id: string)
    requires |id| > 0 && '/' !in id
    ensures Route(POST, "/sessions/" + id + "/vote") == Vote(id)
  {
    var p := "/sessions/" + id + "/vote";
    assert p == "/sessions/" + id + "/" + "vote";
    SessionActionPaths(id, "vote", p);
    assert IsSessionAction(p, "vote") && ThirdSegment(p) == id;
    assert p[..10] == "/sessions/";
    SessionPathIsNotOptions(p);
  }

  /** `/sessions/{id}/results` reaches the results handler with the id read back. */
  lemma ResultsRoute(id: string)
    requires |id| > 0 && '/' !in id
    ensures Route(GET, "/sessions/" + id + "/results") == Results(id)
  {
    var p := "/sessions/" + id + "/results";
    assert p == "/sessions/" + id + "/" + "results";
    SessionActionPaths(id, "results", p);
    assert IsSessionAction(p, "results") && ThirdSegment(p) == id;
    assert p[..10] == "/sessions/";
    SessionPathIsNotOptions(p);
  }

  /** A reply: a status and one of the JSON bodies the worker sends. */
  datatype Reply =
    | OptionsBody(options: seq<VoteOption>)
    | OptionBody(status: int, option: VoteOption)
    | SuccessBody
    | CreatedBody(id: string)
    | BallotBody(ballot: Ballot)
    | CountsBody(votes: map<string, nat>)
    | ErrorBody(status: int, error: string)

  /** Every ballot is stored under the key of its own id. */
  ghost predicate BallotsWellKeyed(ballots: map<string, Ballot>) {
    forall k :: k in ballots ==> k == BallotKey(ballots[k].id)
  }

  ghost predicate BallotsValid(ballots: map<string, Ballot>) {
    forall k :: k in ballots ==> BallotInvariant(ballots[k])
  }

  /** GET /options */
  method HandleListOptions(kv: VotingKv) returns (reply: Reply)
    ensures reply == OptionsBody(StoredOptions(kv.options))
  {
    var options := kv.GetOptions();
    reply := OptionsBody(options);
  }

  /** POST /options: 400 without a name; otherwise `{ id, name }` is pushed at the end. */
  method HandleAddOption(kv: VotingKv, name: string, freshId: string) returns (reply: Reply)
    modifies kv
    ensures name == "" ==>
              reply == ErrorBody(400, "Name required") && kv.options == old(kv.options) && kv.writes == old(kv.writes)
    ensures name != "" ==>
              && reply == OptionBody(201, VoteOption(freshId, name))
              && kv.options == Some(StoredOptions(old(kv.options)) + [VoteOption(freshId, name)])
              && kv.writes == old(kv.writes) + [Write(OptionsKey, None)]
    ensures kv.ballots == old(kv.ballots)
  {
    if name == "" {
      return ErrorBody(400, "Name required");
    }
    var options := kv.GetOptions();
    var option := VoteOption(freshId, name);
    options := options + [option];
    kv.PutOptions(options);
    reply := OptionBody(201, option);
  }

  /** PUT /options/{id}: 404 for an unknown id; otherwise that option's name is set
      (an empty name keeps the old one) and the whole list is written back. */
  method HandleRenameOption(kv: VotingKv, id: string, name: string) returns (reply: Reply)
    modifies kv
    ensures var opts := StoredOptions(old(kv.options));
            FindOption(opts, id).None? ==>
              reply == ErrorBody(404, "Not found") && kv.options == old(kv.options) && kv.writes == old(kv.writes)
    ensures var opts := StoredOptions(old(kv.options));
            FindOption(opts, id).Some? ==>
              var idx := FindOption(opts, id).value;
              && kv.options == Some(RenameAt(opts, idx, name))
              && reply == OptionBody(200, RenameAt(opts, idx, name)[idx])
              && kv.writes == old(kv.writes) + [Write(OptionsKey, None)]
    ensures kv.ballots == old(kv.ballots)
  {
    var options := kv.GetOptions();
    var idx := FindOption(options, id);
    if idx.None? {
      return ErrorBody(404, "Not found");
    }
    var i := idx.value;
    options := options[i := options[i].(name := if name == "" then options[i].name else name)];
    kv.PutOptions(options);
    reply := OptionBody(200, options[i]);
  }

  /** DELETE /options/{id}: filter the list, write it (even when nothing matched or
      the key was absent), report success. */
  method HandleDeleteOption(kv: VotingKv, id: string) returns (reply: Reply)
    modifies kv
    ensures reply == SuccessBody
    ensures kv.options == Some(RemoveOption(StoredOptions(old(kv.options)), id))
    ensures kv.writes == old(kv.writes) + [Write(OptionsKey, None)]
    ensures kv.ballots == old(kv.ballots)
  {
    var options := kv.GetOptions();
    options := RemoveOption(options, id);
    kv.PutOptions(options);
    reply := SuccessBody;
  }

  /** POST /sessions: store an empty ballot under `session:<id>` with a one-day TTL. */
  method HandleCreateBallot(kv: VotingKv, freshId: string) returns (reply: Reply)
    modifies kv
    ensures reply == CreatedBody(freshId)
    ensures kv.ballots == old(kv.ballots)[BallotKey(freshId) := NewBallot(freshId)]
    ensures kv.writes == old(kv.writes) + [Write(BallotKey(freshId), Some(BallotTtl))]
    ensures kv.options == old(kv.options)
    ensures BallotsWellKeyed(old(kv.ballots)) ==> BallotsWellKeyed(kv.ballots)
    ensures BallotsValid(old(kv.ballots)) ==> BallotsValid(kv.ballots)
  {
    var session := NewBallot(freshId);
    kv.PutBallot(BallotKey(freshId), session);
    reply := CreatedBody(freshId);
  }

  /** POST /sessions/{id}/vote: 400 without an option or user, 404 for an unknown
      session, 400 when the user already voted; otherwise the choice is recorded,
      the count raised, and the ballot written back with the TTL. */
  method HandleVote(kv: VotingKv, id: string, optionId: string, userId: string) returns (reply: Reply)
    modifies kv
    ensures optionId == "" || userId == "" ==>
              reply == ErrorBody(400, "optionId and userId required")
              && kv.ballots == old(kv.ballots) && kv.writes == old(kv.writes)
    ensures optionId != "" && userId != "" && BallotKey(id) !in old(kv.ballots) ==>
              reply == ErrorBody(404, "Session not found")
              && kv.ballots == old(kv.ballots) && kv.writes == old(kv.writes)
    ensures optionId != "" && userId != "" && BallotKey(id) in old(kv.ballots) ==>
              var b := old(kv.ballots)[BallotKey(id)];
              if AlreadyVoted(b, userId) then
                reply == ErrorBody(400, "Already voted")
                && kv.ballots == old(kv.ballots) && kv.writes == old(kv.writes)
              else
                var b' := CastBallot(b, optionId, userId).value;
                && reply == BallotBody(b')
                && kv.ballots == old(kv.ballots)[BallotKey(id) := b']
                && kv.writes == old(kv.writes) + [Write(BallotKey(id), Some(BallotTtl))]
    ensures kv.options == old(kv.options)
    ensures BallotsWellKeyed(old(kv.ballots)) ==> BallotsWellKeyed(kv.ballots)
    ensures BallotsValid(old(kv.ballots)) ==> BallotsValid(kv.ballots)
  {
    if optionId == "" || userId == "" {
      return ErrorBody(400, "optionId and userId required");
    }
    var key := BallotKey(id);
    var data := kv.GetBallot(key);
    if data.None? {
      return ErrorBody(404, "Session not found");
    }
    var session := data.value;
    if userId in session.voters && session.voters[userId] != "" {
      return ErrorBody(400, "Already voted");
    }
    var count := if optionId in session.votes then session.votes[optionId] else 0;
    session := session.(voters := session.voters[userId := optionId]);
    session := session.(votes := session.votes[optionId := count + 1]);
    assert session == CastBallot(data.value, optionId, userId).value;
    if BallotInvariant(data.value) {
      CastBallotPreservesInvariant(data.value, optionId, userId);
    }
    kv.PutBallot(key, session);
    reply := BallotBody(session);
  }

  /** GET /sessions/{id}/results: the counts, or 404. Reads only. */
  method HandleResults(kv: VotingKv, id: string) returns (reply: Reply)
    ensures BallotKey(id) in kv.ballots ==> reply == CountsBody(kv.ballots[BallotKey(id)].votes)
    ensures BallotKey(id) !in kv.ballots ==> reply == ErrorBody(404, "Session not found")
  {
    var data := kv.GetBallot(BallotKey(id));
    if data.None? {
      return ErrorBody(404, "Session not found");
    }
    reply := CountsBody(data.value.votes);
  }

  /** A fresh ballot with one vote cast counts that vote, and a repeat by the same
      user is refused without a write. */
  method VoteOnceScenario(kv: VotingKv, freshId: string, optionId: string, userId: string)
    returns (first: Reply, second: Reply)
    requires optionId != "" && userId != ""
    modifies kv
    ensures first.BallotBody? && first.ballot.votes == map[optionId := 1]
    ensures second == ErrorBody(400, "Already voted")
    ensures BallotKey(freshId) in kv.ballots && kv.ballots[BallotKey(freshId)] == first.ballot
  {
    var created := HandleCreateBallot(kv, freshId);
    assert !AlreadyVoted(NewBallot(freshId), userId);
    first := HandleVote(kv, freshId, optionId, userId);
    assert BallotKey(freshId) in kv.ballots;
    second := HandleVote(kv, freshId, optionId, userId);
  }
}
