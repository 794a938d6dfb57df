/** The in-memory backend of the voting front end (src/lib/mock-db.ts): four
    tables (users, elections, voting tokens, votes) and the operations that
    read and change them. Each asynchronous call is one synchronous step here;
    random numbers and clock readings are parameters. */
module MockDb {
  import opened Lists
  import Decimal

  datatype Role = Admin | Voter

  datatype User = User(id: int, username: string, passwordHash: string, role: Role, createdAt: string)

  datatype Candidate = Candidate(id: int, electionId: int, name: string, description: string)

  datatype Election = Election(
    id: int,
    title: string,
    description: string,
    startTime: string,
    endTime: string,
    isActive: bool,
    createdBy: int,
    candidates: seq<Candidate>)

  datatype VotingToken = VotingToken(
    id: int,
    electionId: int,
    userId: int,
    tokenHash: string,
    isUsed: bool,
    expiresAt: string)

  datatype Vote = Vote(
    id: int,
    electionId: int,
    candidateId: int,
    voteHash: string,
    prevVoteHash: string,
    createdAt: string)

  /** The `{ success, message }` object that `castVote` resolves to. */
  datatype CastResult = CastResult(success: bool, message: string)

  const Genesis: string := "GENESIS"
  const NoTokenMessage: string := "No voting token found."
  const TokenUsedMessage: string := "Token already used."
  const VoteCastMessage: string := "Vote successfully cast."

  // ---------------------------------------------------------------------
  // Lookups

  /** The `find` predicate of `login`. */
  function HasCredentials(username: string, password: string): User -> bool {
    (u: User) => u.username == username && u.passwordHash == password
  }

  /** The `find` predicate of `fetchElectionById`. */
  function HasElectionId(id: int): Election -> bool {
    (e: Election) => e.id == id
  }

  /** The `find` predicate of `castVote`. */
  function TokenFor(electionId: int, userId: int): VotingToken -> bool {
    (t: VotingToken) => t.electionId == electionId && t.userId == userId
  }

  /** The position of the token `castVote` uses for (electionId, userId):
      the first one in the table for that pair. */
  function FindToken(tokens: seq<VotingToken>, electionId: int, userId: int): (r: Option<nat>)
    ensures r.Some? ==>
      r.value < |tokens| && tokens[r.value].electionId == electionId && tokens[r.value].userId == userId
    ensures r.Some? ==> forall j :: 0 <= j < r.value ==>
      !(tokens[j].electionId == electionId && tokens[j].userId == userId)
    ensures r.None? ==> forall j :: 0 <= j < |tokens| ==>
      !(tokens[j].electionId == electionId && tokens[j].userId == userId)
  {
    FirstMatch(tokens, TokenFor(electionId, userId))
  }

  /** The voter has spent the credential for this election: the token
      `castVote` would use exists and is marked used. */
  predicate HasVoted(tokens: seq<VotingToken>, electionId: int, userId: int) {
    match FindToken(tokens, electionId, userId)
    case Some(k) => tokens[k].isUsed
    case None => false
  }

  // ---------------------------------------------------------------------
  // Values built from random numbers and clock readings

  /** `token-${u.id}-${newElectionId}` */
  function TokenHash(userId: int, electionId: int): string {
    "token-" + (Decimal.IntToString(userId) + ("-" + Decimal.IntToString(electionId)))
  }

  /** Two users, or two elections, never share a token hash. */
  lemma TokenHashInjective(u1: nat, e1: nat, u2: nat, e2: nat)
    ensures TokenHash(u1, e1) == TokenHash(u2, e2) ==> u1 == u2 && e1 == e2
  {
    if TokenHash(u1, e1) == TokenHash(u2, e2) {
      var x1, y1 := Decimal.NatToString(u1), Decimal.NatToString(e1);
      var x2, y2 := Decimal.NatToString(u2), Decimal.NatToString(e2);
      var t1, t2 := "-" + y1, "-" + y2;
      assert x1 + t1 == x2 + t2 by {
        assert TokenHash(u1, e1) == "token-" + (x1 + t1);
        assert TokenHash(u2, e2) == "token-" + (x2 + t2);
        assert ("token-" + (x1 + t1))[6..] == x1 + t1;
        assert ("token-" + (x2 + t2))[6..] == x2 + t2;
      }
      Decimal.DigitPrefixOf(x1, t1);
      Decimal.DigitPrefixOf(x2, t2);
      assert t1 == (x1 + t1)[|x1|..];
      assert t2 == (x2 + t2)[|x2|..];
      assert y1 == t1[1..] && y2 == t2[1..];
      Decimal.NatToStringInjective(u1, u2);
      Decimal.NatToStringInjective(e1, e2);
    }
  }

  /** `"0x" + Math.random().toString(16).slice(2) + Date.now().toString()`,
      with the random hexadecimal digits and the clock in milliseconds given. */
  function VoteHash(randomHex: string, nowMillis: nat): string {
    "0x" + randomHex + Decimal.NatToString(nowMillis)
  }

  /** The candidate records `createElection` builds from the submitted names;
      `seeds[i]` stands for the i-th `Math.floor(Math.random() * 10000)`. */
  function MakeCandidates(names: seq<string>, seeds: seq<int>, electionId: int, title: string): (r: seq<Candidate>)
    requires |seeds| == |names|
    ensures |r| == |names|
    ensures forall i :: 0 <= i < |r| ==> r[i].name == names[i] && r[i].id == seeds[i] + i
    ensures forall i :: 0 <= i < |r| ==>
      r[i].electionId == electionId && r[i].description == "Candidate for " + title
  {
    seq(|names|, i requires 0 <= i < |names| =>
      Candidate(seeds[i] + i, electionId, names[i], "Candidate for " + title))
  }

  /** The token `createElection` pushes for user `u`. */
  function NewToken(tokenId: int, electionId: int, u: User, endTime: string): VotingToken {
    VotingToken(tokenId, electionId, u.id, TokenHash(u.id, electionId), false, endTime)
  }

  /** The tokens the `users.forEach` loop of `createElection` pushes, in user
      order; `tokenIds[i]` stands for the i-th `Math.floor(Math.random() * 10000)`. */
  function IssuedTokens(users: seq<User>, electionId: int, endTime: string, tokenIds: seq<int>): (r: seq<VotingToken>)
    requires |tokenIds| == |users|
    ensures |r| == |users|
    decreases |users|
  {
    if |users| == 0 then []
    else
      var n := |users| - 1;
      IssuedTokens(users[..n], electionId, endTime, tokenIds[..n]) + [NewToken(tokenIds[n], electionId, users[n], endTime)]
  }

  /** The loop's step: one more user, one more token at the end. */
  lemma IssuedTokensSnoc(users: seq<User>, electionId: int, endTime: string, tokenIds: seq<int>, i: nat)
    requires |tokenIds| == |users| && i < |users|
    ensures IssuedTokens(users[..i + 1], electionId, endTime, tokenIds[..i + 1])
      == IssuedTokens(users[..i], electionId, endTime, tokenIds[..i]) + [NewToken(tokenIds[i], electionId, users[i], endTime)]
  {
    assert users[..i + 1][..i] == users[..i] && tokenIds[..i + 1][..i] == tokenIds[..i];
  }

  /** Token i is the unused token of user i for the election. */
  lemma {:induction false} IssuedTokensAt(users: seq<User>, electionId: int, endTime: string, tokenIds: seq<int>)
    requires |tokenIds| == |users|
    ensures forall i :: 0 <= i < |users| ==>
      IssuedTokens(users, electionId, endTime, tokenIds)[i] == NewToken(tokenIds[i], electionId, users[i], endTime)
    decreases |users|
  {
    if |users| > 0 {
      var n := |users| - 1;
      var issued := IssuedTokens(users, electionId, endTime, tokenIds);
      var pre := IssuedTokens(users[..n], electionId, endTime, tokenIds[..n]);
      IssuedTokensAt(users[..n], electionId, endTime, tokenIds[..n]);
      assert issued == pre + [NewToken(tokenIds[n], electionId, users[n], endTime)];
      forall i | 0 <= i < |users|
        ensures issued[i] == NewToken(tokenIds[i], electionId, users[i], endTime)
      {
        if i < n {
          assert issued[i] == pre[i];
          assert users[..n][i] == users[i] && tokenIds[..n][i] == tokenIds[i];
        }
      }
    }
  }

  // ---------------------------------------------------------------------
  // Table invariants

  predicate UserIdsArePositions(users: seq<User>) {
    forall i :: 0 <= i < |users| ==> users[i].id == i + 1
  }

  predicate ElectionIdsArePositions(elections: seq<Election>) {
    forall i :: 0 <= i < |elections| ==> elections[i].id == i + 1
  }

  predicate VoteIdsArePositions(votes: seq<Vote>) {
    forall i :: 0 <= i < |votes| ==> votes[i].id == i + 1
  }

  /** Every token refers to an existing election and an existing user. */
  predicate TokensReferToTables(tokens: seq<VotingToken>, electionCount: int, userCount: int) {
    forall i :: 0 <= i < |tokens| ==>
      1 <= tokens[i].electionId <= electionCount && 1 <= tokens[i].userId <= userCount
  }

  /** At most one token per (election, user) pair. */
  predicate TokensUnique(tokens: seq<VotingToken>) {
    forall i, j :: 0 <= i < j < |tokens| ==>
      !(tokens[i].electionId == tokens[j].electionId && tokens[i].userId == tokens[j].userId)
  }

  /** The hash that the next vote links to: the last vote's, or the genesis constant. */
  function LastVoteHash(votes: seq<Vote>): string {
    if |votes| > 0 then votes[|votes| - 1].voteHash else Genesis
  }

  /** The first vote names the genesis constant, and every later vote the
      hash of the vote before it in the whole table. */
  predicate ChainLinked(votes: seq<Vote>) {
    && (|votes| > 0 ==> votes[0].prevVoteHash == Genesis)
    && forall i :: 0 < i < |votes| ==> votes[i].prevVoteHash == votes[i - 1].voteHash
  }

  /** Appending keeps the chain exactly when the new vote links to the old tail. */
  lemma AppendVoteChain(votes: seq<Vote>, v: Vote)
    ensures ChainLinked(votes + [v]) <==> ChainLinked(votes) && v.prevVoteHash == LastVoteHash(votes)
  {
    var w := votes + [v];
    assert forall i :: 0 <= i < |votes| ==> w[i] == votes[i];
    assert w[|votes|] == v;
    if ChainLinked(w) {
      forall i | 0 < i < |votes|
        ensures votes[i].prevVoteHash == votes[i - 1].voteHash
      {
        assert w[i].prevVoteHash == w[i - 1].voteHash;
      }
    }
  }

  /** Marking token k used. */
  function MarkUsed(tokens: seq<VotingToken>, k: nat): (r: seq<VotingToken>)
    requires k < |tokens|
  {
    tokens[k := tokens[k].(isUsed := true)]
  }

  /** Marking a token used changes no lookup, records the vote of its own
      (election, user) pair and withdraws no earlier vote. */
  lemma MarkUsedKeepsVotes(tokens: seq<VotingToken>, k: nat, electionId: int, userId: int)
    requires k < |tokens|
    ensures FindToken(MarkUsed(tokens, k), electionId, userId) == FindToken(tokens, electionId, userId)
    ensures FindToken(tokens, electionId, userId) == Some(k) ==> HasVoted(MarkUsed(tokens, k), electionId, userId)
    ensures HasVoted(tokens, electionId, userId) ==> HasVoted(MarkUsed(tokens, k), electionId, userId)
  {
    FirstMatchUpdate(tokens, k, tokens[k].(isUsed := true), TokenFor(electionId, userId));
  }

  /** Issuing more tokens changes no existing lookup, so no earlier vote is withdrawn. */
  lemma AppendTokensKeepsVotes(tokens: seq<VotingToken>, more: seq<VotingToken>, electionId: int, userId: int)
    ensures FindToken(tokens, electionId, userId).Some? ==>
      FindToken(tokens + more, electionId, userId) == FindToken(tokens, electionId, userId)
    ensures HasVoted(tokens, electionId, userId) ==> HasVoted(tokens + more, electionId, userId)
  {
    FirstMatchAppend(tokens, more, TokenFor(electionId, userId));
    match FindToken(tokens, electionId, userId)
    case Some(k) =>
      assert (tokens + more)[k] == tokens[k];
    case None =>
  }

  /** `issued` holds one unused token of the election per user, in user order. */
  predicate OneUnusedTokenEach(issued: seq<VotingToken>, users: seq<User>, electionId: int) {
    |issued| == |users|
    && forall i :: 0 <= i < |issued| ==>
      issued[i].electionId == electionId && issued[i].userId == users[i].id && !issued[i].isUsed
  }

  lemma IssuedTokensOneEach(users: seq<User>, electionId: int, endTime: string, tokenIds: seq<int>)
    requires |tokenIds| == |users|
    ensures OneUnusedTokenEach(IssuedTokens(users, electionId, endTime, tokenIds), users, electionId)
  {
    IssuedTokensAt(users, electionId, endTime, tokenIds);
  }

  /** Issuing a fresh election's tokens after the existing ones adds no
      second token for any (election, user) pair. */
  lemma IssueKeepsTokensUnique(prior: seq<VotingToken>, issued: seq<VotingToken>, users: seq<User>, electionId: int)
    requires OneUnusedTokenEach(issued, users, electionId) && UserIdsArePositions(users)
    requires TokensUnique(prior)
    requires forall j :: 0 <= j < |prior| ==> prior[j].electionId != electionId
    ensures TokensUnique(prior + issued)
  {
    var all := prior + issued;
    forall i, j | 0 <= i < j < |all|
      ensures !(all[i].electionId == all[j].electionId && all[i].userId == all[j].userId)
    {
      if j < |prior| {
        assert all[i] == prior[i] && all[j] == prior[j];
      } else if i < |prior| {
        assert all[i] == prior[i] && all[j] == issued[j - |prior|];
      } else {
        assert all[i] == issued[i - |prior|] && all[j] == issued[j - |prior|];
      }
    }
  }

  /** Issuing a fresh election's tokens keeps every token pointing at an
      existing election and user. */
  lemma IssueKeepsReferences(prior: seq<VotingToken>, issued: seq<VotingToken>, users: seq<User>, electionId: int)
    requires OneUnusedTokenEach(issued, users, electionId) && UserIdsArePositions(users)
    requires TokensReferToTables(prior, electionId - 1, |users|) && electionId >= 1
    ensures TokensReferToTables(prior + issued, electionId, |users|)
  {
    var all := prior + issued;
    forall j | 0 <= j < |all|
      ensures 1 <= all[j].electionId <= electionId && 1 <= all[j].userId <= |users|
    {
      if j < |prior| {
        assert all[j] == prior[j];
      } else {
        assert all[j] == issued[j - |prior|];
      }
    }
  }

  /** After issuing a fresh election's tokens, every user finds exactly their
      own new token, unused, and the election has no token for anyone else. */
  lemma IssueCoversEveryUserOnce(prior: seq<VotingToken>, issued: seq<VotingToken>, users: seq<User>, electionId: int)
    requires OneUnusedTokenEach(issued, users, electionId) && UserIdsArePositions(users)
    requires forall j :: 0 <= j < |prior| ==> prior[j].electionId != electionId
    ensures forall i :: 0 <= i < |users| ==>
      FindToken(prior + issued, electionId, users[i].id) == Some(|prior| + i)
      && !HasVoted(prior + issued, electionId, users[i].id)
    ensures forall j :: 0 <= j < |prior + issued| && (prior + issued)[j].electionId == electionId ==>
      |prior| <= j && (prior + issued)[j].userId == users[j - |prior|].id
  {
    var all := prior + issued;
    assert forall j :: 0 <= j < |prior| ==> all[j] == prior[j];
    assert forall j :: |prior| <= j < |all| ==> all[j] == issued[j - |prior|];
    forall i | 0 <= i < |users|
      ensures FindToken(all, electionId, users[i].id) == Some(|prior| + i)
    {
      FirstMatchAt(all, TokenFor(electionId, users[i].id), |prior| + i);
    }
  }

  /** What every operation of the backend keeps: ids follow positions,
      tokens refer to existing rows and are unique per pair, and the vote
      chain is linked. */
  ghost predicate TablesValid(users: seq<User>, elections: seq<Election>, tokens: seq<VotingToken>, votes: seq<Vote>) {
    && UserIdsArePositions(users)
    && ElectionIdsArePositions(elections)
    && TokensReferToTables(tokens, |elections|, |users|)
    && TokensUnique(tokens)
    && ChainLinked(votes)
    && VoteIdsArePositions(votes)
  }

  /** The whole effect of `createElection` on the tables: the invariant
      holds afterwards, every current user holds exactly one new unused
      token for the new election, and no earlier vote is withdrawn. */
  lemma CreateElectionKeepsTables(
    users: seq<User>, elections: seq<Election>, prior: seq<VotingToken>, votes: seq<Vote>,
    e: Election, endTime: string, tokenIds: seq<int>, elections': seq<Election>, tokens: seq<VotingToken>)
    requires TablesValid(users, elections, prior, votes)
    requires e.id == |elections| + 1 && |tokenIds| == |users|
    requires elections' == elections + [e]
    requires tokens == prior + IssuedTokens(users, e.id, endTime, tokenIds)
    ensures TablesValid(users, elections', tokens, votes)
    ensures forall i :: 0 <= i < |users| ==>
      FindToken(tokens, |elections'|, users[i].id) == Some(|prior| + i) && !HasVoted(tokens, |elections'|, users[i].id)
    ensures forall ev, u :: HasVoted(prior, ev, u) ==> HasVoted(tokens, ev, u)
  {
    var issued := IssuedTokens(users, e.id, endTime, tokenIds);
    assert forall j :: 0 <= j < |elections| ==> elections'[j] == elections[j];
    IssuedTokensOneEach(users, e.id, endTime, tokenIds);
    IssueKeepsReferences(prior, issued, users, e.id);
    IssueKeepsTokensUnique(prior, issued, users, e.id);
    IssueCoversEveryUserOnce(prior, issued, users, e.id);
    forall ev, u | HasVoted(prior, ev, u)
      ensures HasVoted(prior + issued, ev, u)
    {
      AppendTokensKeepsVotes(prior, issued, ev, u);
    }
  }

  // ---------------------------------------------------------------------
  // The backend

  /** The seeded data; `now` is the `new Date().toISOString()` of module load. */
  function InitialUsers(now: string): seq<User> {
    [User(1, "john_doe", "123", Voter, now), User(2, "admin", "admin", Admin, now)]
  }

  const InitialElections: seq<Election> := [
    Election(1, "Student Council 2024", "Vote for the next student body president.",
      "2023-10-01T09:00:00Z", "2025-12-30T17:00:00Z", true, 2,
      [Candidate(1, 1, "Alice Johnson", "Better cafeteria food"),
       Candidate(2, 1, "Bob Smith", "New sports equipment")])
  ]

  const InitialTokens: seq<VotingToken> := [
    VotingToken(1, 1, 1, "abc-token", false, "2025-12-30T17:00:00Z")
  ]

  class Backend {
    var users: seq<User>
    var elections: seq<Election>
    var votingTokens: seq<VotingToken>
    var votes: seq<Vote>

    /** What every operation keeps: ids follow positions, tokens refer to
        existing rows and are unique per pair, and the vote chain is linked. */
    ghost predicate Valid()
      reads this
    {
      TablesValid(users, elections, votingTokens, votes)
    }

    constructor (now: string)
      ensures Valid()
      ensures users == InitialUsers(now) && elections == InitialElections
      ensures votingTokens == InitialTokens && votes == []
    {
      users := InitialUsers(now);
      elections := InitialElections;
      votingTokens := InitialTokens;
      votes := [];
    }

    /** `api.login`: the first user whose username and password both match. */
    function Login(username: string, password: string): (r: Option<User>)
      reads this
      ensures r.Some? <==> exists i :: 0 <= i < |users| && users[i].username == username && users[i].passwordHash == password
      ensures r.Some? ==> r.value.username == username && r.value.passwordHash == password
      ensures r.Some? ==>
        exists k :: 0 <= k < |users| && users[k] == r.value &&
          forall j :: 0 <= j < k ==> !(users[j].username == username && users[j].passwordHash == password)
    {
      match FirstMatch(users, HasCredentials(username, password))
      case Some(k) => Some(users[k])
      case None => None
    }

    /** `api.register`: append a voter whose id is one past the table length. */
    method Register(username: string, password: string, now: string) returns (u: User)
      requires Valid()
      modifies this`users
      ensures Valid()
      ensures u == User(|old(users)| + 1, username, password, Voter, now)
      ensures users == old(users) + [u]
    {
      u := User(|users| + 1, username, password, Voter, now);
      users := users + [u];
    }

    /** `api.fetchElectionById`: the first election with that id. */
    function FetchElectionById(id: int): (r: Option<Election>)
      reads this
      ensures r.Some? <==> exists i :: 0 <= i < |elections| && elections[i].id == id
      ensures r.Some? ==> r.value.id == id && r.value in elections
      ensures r.Some? ==>
        exists k :: 0 <= k < |elections| && elections[k] == r.value &&
          forall j :: 0 <= j < k ==> elections[j].id != id
    {
      match FirstMatch(elections, HasElectionId(id))
      case Some(k) => Some(elections[k])
      case None => None
    }

    /** `api.createElection`: append an active election with the next id and
        its candidates, then push one unused token per current user. */
    method CreateElection(
      title: string, description: string, endTime: string, candidateNames: seq<string>, creatorId: int,
      now: string, candidateSeeds: seq<int>, tokenIds: seq<int>)
      returns (ok: bool)
      requires Valid()
      requires |candidateSeeds| == |candidateNames| && |tokenIds| == |users|
      modifies this`elections, this`votingTokens
      ensures Valid()
      ensures ok
      ensures elections == old(elections) + [Election(|old(elections)| + 1, title, description, now, endTime, true,
        creatorId, MakeCandidates(candidateNames, candidateSeeds, |old(elections)| + 1, title))]
      ensures votingTokens == old(votingTokens) + IssuedTokens(users, |elections|, endTime, tokenIds)
      ensures forall i :: 0 <= i < |users| ==>
        FindToken(votingTokens, |elections|, users[i].id) == Some(|old(votingTokens)| + i)
        && !HasVoted(votingTokens, |elections|, users[i].id)
      ensures forall e, u :: HasVoted(old(votingTokens), e, u) ==> HasVoted(votingTokens, e, u)
    {
      var electionId := |elections| + 1;
      var newCandidates := MakeCandidates(candidateNames, candidateSeeds, electionId, title);
      var election := Election(electionId, title, description, now, endTime, true, creatorId, newCandidates);
      ghost var electionsBefore := elections;
      elections := elections + [election];

      ghost var before := votingTokens;
      IssueTokens(electionId, endTime, tokenIds);
      CreateElectionKeepsTables(users, electionsBefore, before, votes, election, endTime, tokenIds, elections, votingTokens);
      ok := true;
    }

    /** The `users.forEach` loop of `createElection`: push one new token per
        current user, in user order. */
    method IssueTokens(electionId: int, endTime: string, tokenIds: seq<int>)
      requires |tokenIds| == |users|
      modifies this`votingTokens
      ensures votingTokens == old(votingTokens) + IssuedTokens(users, electionId, endTime, tokenIds)
    {
      ghost var before := votingTokens;
      var i := 0;
      while i < |users|
        invariant 0 <= i <= |users|
        invariant votingTokens == before + IssuedTokens(users[..i], electionId, endTime, tokenIds[..i])
      {
        var u := users[i];
        IssuedTokensSnoc(users, electionId, endTime, tokenIds, i);
        votingTokens := votingTokens + [NewToken(tokenIds[i], electionId, u, endTime)];
        i := i + 1;
      }
      assert users[..i] == users && tokenIds[..i] == tokenIds;
    }

    /** `api.castVote`: redeem the voter's token for the election and append a
        vote linked to the last vote of the whole table. The election, the
        candidate and the token's expiry are not checked. */
    method CastVote(electionId: int, candidateId: int, userId: int, randomHex: string, nowMillis: nat, now: string)
      returns (r: CastResult)
      requires Valid()
      modifies this`votes, this`votingTokens
      ensures Valid()
      ensures FindToken(old(votingTokens), electionId, userId).None? ==>
        r == CastResult(false, NoTokenMessage)
      ensures HasVoted(old(votingTokens), electionId, userId) ==>
        r == CastResult(false, TokenUsedMessage)
      ensures r.success <==>
        FindToken(old(votingTokens), electionId, userId).Some? && !HasVoted(old(votingTokens), electionId, userId)
      ensures !r.success ==> votes == old(votes) && votingTokens == old(votingTokens)
      ensures r.success ==> r.message == VoteCastMessage
      ensures r.success ==>
        votes == old(votes) + [Vote(|old(votes)| + 1, electionId, candidateId,
                                    VoteHash(randomHex, nowMillis), LastVoteHash(old(votes)), now)]
      ensures r.success ==>
        votingTokens == MarkUsed(old(votingTokens), FindToken(old(votingTokens), electionId, userId).value)
      ensures r.success ==> HasVoted(votingTokens, electionId, userId)
      ensures forall e, u :: HasVoted(old(votingTokens), e, u) ==> HasVoted(votingTokens, e, u)
    {
      var found := FindToken(votingTokens, electionId, userId);
      if found.None? {
        return CastResult(false, NoTokenMessage);
      }
      var k := found.value;
      if votingTokens[k].isUsed {
        return CastResult(false, TokenUsedMessage);
      }

      var prevHash := LastVoteHash(votes);
      var newHash := VoteHash(randomHex, nowMillis);
      var vote := Vote(|votes| + 1, electionId, candidateId, newHash, prevHash, now);
      AppendVoteChain(votes, vote);
      votes := votes + [vote];

      ghost var before := votingTokens;
      votingTokens := votingTokens[k := votingTokens[k].(isUsed := true)];
      forall e, u
        ensures FindToken(votingTokens, e, u) == FindToken(before, e, u)
        ensures HasVoted(before, e, u) ==> HasVoted(votingTokens, e, u)
      {
        MarkUsedKeepsVotes(before, k, e, u);
      }
      MarkUsedKeepsVotes(before, k, electionId, userId);
      r := CastResult(true, VoteCastMessage);
    }
  }

  /** One call a client can make on the backend. The random draws of
      `createElection` are given as functions of the draw's position, so
      every possible outcome of `Math.random()` is covered. */
  datatype Step =
    | RegisterStep(username: string, password: string, registeredAt: string)
    | CreateStep(
        title: string, description: string, endTime: string, candidateNames: seq<string>, creatorId: int,
        createdAt: string, candidateSeed: nat -> int, tokenId: nat -> int)
    | CastStep(electionId: int, candidateId: int, userId: int, randomHex: string, nowMillis: nat, castAt: string)

  /** Steps i and j are votes of the same user in the same election. */
  predicate SameBallot(steps: seq<Step>, i: int, j: int)
    requires 0 <= i < |steps| && 0 <= j < |steps|
  {
    steps[i].CastStep? && steps[j].CastStep?
    && steps[i].electionId == steps[j].electionId && steps[i].userId == steps[j].userId
  }

  /** Makes one call on the backend; a `castVote` reports its result. No
      call withdraws a vote, and a vote fails for a user who has voted. */
  method RunStep(db: Backend, step: Step) returns (result: Option<CastResult>)
    requires db.Valid()
    modifies db
    ensures db.Valid()
    ensures result.Some? <==> step.CastStep?
    ensures forall e, u :: HasVoted(old(db.votingTokens), e, u) ==> HasVoted(db.votingTokens, e, u)
    ensures step.CastStep? && HasVoted(old(db.votingTokens), step.electionId, step.userId) ==>
      !result.value.success
    ensures step.CastStep? && result.value.success ==> HasVoted(db.votingTokens, step.electionId, step.userId)
  {
    match step {
      case RegisterStep(username, password, registeredAt) =>
        var _ := db.Register(username, password, registeredAt);
        result := None;
      case CreateStep(title, description, endTime, names, creatorId, createdAt, candidateSeed, tokenId) =>
        var userCount := |db.users|;
        var seeds := seq(|names|, i requires 0 <= i < |names| => candidateSeed(i));
        var tokenIds := seq(userCount, i requires 0 <= i < userCount => tokenId(i));
        var _ := db.CreateElection(title, description, endTime, names, creatorId, createdAt, seeds, tokenIds);
        result := None;
      case CastStep(electionId, candidateId, userId, randomHex, nowMillis, castAt) =>
        var r := db.CastVote(electionId, candidateId, userId, randomHex, nowMillis, castAt);
        result := Some(r);
    }
  }

  /** Runs any sequence of calls against the backend, recording what each
      `castVote` returns. Whatever is interleaved, a user who has voted
      successfully in an election never succeeds again in that election. */
  method VoteOncePerToken(db: Backend, steps: seq<Step>) returns (results: seq<Option<CastResult>>)
    requires db.Valid()
    modifies db
    ensures db.Valid()
    ensures |results| == |steps|
    ensures forall i :: 0 <= i < |steps| ==> (results[i].Some? <==> steps[i].CastStep?)
    ensures forall i, j :: 0 <= i < j < |steps| && SameBallot(steps, i, j) && results[i].Some? && results[i].value.success ==>
      results[j].Some? && !results[j].value.success
  {
    results := [];
    var k := 0;
    while k < |steps|
      invariant 0 <= k <= |steps| && |results| == k
      invariant db.Valid()
      invariant forall i :: 0 <= i < k ==> (results[i].Some? <==> steps[i].CastStep?)
      invariant forall i :: 0 <= i < k && steps[i].CastStep? && results[i].Some? && results[i].value.success ==>
        HasVoted(db.votingTokens, steps[i].electionId, steps[i].userId)
      invariant forall i, j :: 0 <= i < j < k && SameBallot(steps, i, j) && results[i].Some? && results[i].value.success ==>
        results[j].Some? && !results[j].value.success
    {
      var r := RunStep(db, steps[k]);
      results := results + [r];
      k := k + 1;
    }
  }
}
