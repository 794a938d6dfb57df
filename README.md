# Voting front end: mock backend and forms, in Dafny

This project models the core of a small Next.js voting application. The core has three parts.

- **The in-memory backend** (`src/lib/mock-db.ts`, module `MockDb`).
  - Four tables: users, elections, voting tokens and votes.
  - `login`, `register` and `fetchElectionById`.
  - `createElection`. It appends an active election with its candidates, then issues one unused token to every current user.
  - `castVote`. It finds the caller's token for the election, refuses a missing or used token, appends a vote, and marks the token used. The new vote is linked by hash to the last vote of the table.
  - The backend is a class, `MockDb.Backend`, with one `seq` field per table. The methods reassign those fields.
  - `Valid()` is the invariant every operation keeps:
    - user, election and vote ids are their positions plus one;
    - every token refers to an existing election and user;
    - no two tokens share an (election, user) pair;
    - the vote chain is linked.
- **The candidate list of the "create election" form** (`src/app/admin/create/page.tsx`, module `CreateElectionForm`).
  - Changing, adding and removing name slots.
  - `trim` as JavaScript defines it.
  - The submit check: it needs at least two non-blank names and passes only those names on.
  - An edit-run model of the rendered form. It proves the list never falls below two slots.
- **The votings page's own simulated requests** (`src/app/votings/page.tsx`, module `VotingsPage`).
  - `mockLogin` over the page's constant user table.
  - `fetchActiveVotings`. It attaches to every election the candidate rows that name it.

Two shared modules support these:

- `Lists` models `Array.prototype.find` (as the index of the first match) and `Array.prototype.filter`.
- `Decimal` models the decimal rendering of integers used in template literals, and proves it can be parsed back.

Each asynchronous call is one synchronous step. Values drawn from `Math.random()`, `Date.now()` and `new Date().toISOString()` are parameters.

What the code does, and so what the model does:

- `castVote` checks neither that the election exists, nor its `is_active` flag, nor the candidate, nor the token's `expires_at`.
- The vote hash is `0x`, random hexadecimal digits and the clock in milliseconds. It does not depend on the vote.
- There is one chain across the whole `votes` table: each vote links to the last vote of any election.
- `createElection` issues tokens only for the fresh election id it has just assigned, so it never issues a second token for an existing (election, user) pair. This is `MockDb.IssueKeepsTokensUnique`, and `TokensUnique` is part of `Valid()`.
- A vote succeeds at most once per voter and election, whatever calls come in between. `HasVoted` never goes from true to false, and `castVote` fails whenever it is already true (`MockDb.VoteOncePerToken`).

## Model

| member | source | states |
|---|---|---|
| `Lists.FirstMatch` | src/lib/mock-db.ts:93 | `find`: the index found satisfies the predicate and no earlier element does; no index means no element satisfies it |
| `Lists.FirstMatchAppend` | src/lib/mock-db.ts:150-162 | pushing rows never changes an existing `find` result; when there was none, a new result lies in the pushed part |
| `Lists.FirstMatchUpdate` | src/lib/mock-db.ts:188 | changing a row in a way the predicate cannot see leaves the `find` result where it was |
| `Lists.Filter` | src/app/votings/page.tsx:119 | `filter`: the result is no longer than the input, holds only input elements that pass, and holds every input element that passes |
| `Lists.FilterDistributes` | src/app/admin/create/page.tsx:55 | filtering a concatenation filters each part and keeps the parts in order |
| `Lists.FilterSingleton` | src/app/admin/create/page.tsx:55 | a single element is kept exactly when it passes |
| `Decimal.NatToString` | src/lib/mock-db.ts:158 | an integer renders as a non-empty run of decimal digits, with at least two digits from 10 up |
| `Decimal.ParseNatToString` | src/lib/mock-db.ts:158 | parsing the decimal rendering of a number gives the number back |
| `Decimal.NatToStringInjective` | src/lib/mock-db.ts:158 | distinct numbers render as distinct strings |
| `Decimal.DigitPrefixOf` | src/lib/mock-db.ts:158 | a rendered number followed by a non-digit is recovered from the front of the string |
| `MockDb.HasVoted` | src/lib/mock-db.ts:170-173 | the token `castVote` would use exists and is marked used; defined by its body; characterized by `MockDb.MarkUsedKeepsVotes`, `MockDb.AppendTokensKeepsVotes` and `MockDb.Backend.CastVote` |
| `MockDb.FindToken` | src/lib/mock-db.ts:170 | the token `castVote` uses is the first one for the (election, user) pair; none means the pair has no token |
| `MockDb.TokenHash` | src/lib/mock-db.ts:158 | `token-<user id>-<election id>`; defined by its body; characterized by `MockDb.TokenHashInjective` |
| `MockDb.TokenHashInjective` | src/lib/mock-db.ts:158 | `token-<user>-<election>` determines both the user id and the election id |
| `MockDb.VoteHash` | src/lib/mock-db.ts:177 | `0x`, the random hexadecimal digits, then the clock in milliseconds; defined by its body |
| `MockDb.MakeCandidates` | src/lib/mock-db.ts:132-137 | one candidate per submitted name, in order: same name, id random seed plus position, the new election's id, description "Candidate for " and the title |
| `MockDb.IssuedTokens` | src/lib/mock-db.ts:153-162 | the tokens the `forEach` pushes, one per user; characterized by `MockDb.IssuedTokensAt` and `MockDb.IssuedTokensOneEach` |
| `MockDb.IssuedTokensSnoc` | src/lib/mock-db.ts:153-162 | one more pass of the `forEach` pushes exactly one more token, at the end |
| `MockDb.IssuedTokensAt` | src/lib/mock-db.ts:153-162 | token i is user i's token: new election id, user i's id, hash `token-<id>-<election>`, unused, expiring at the end time |
| `MockDb.IssuedTokensOneEach` | src/lib/mock-db.ts:153-162 | the tokens issued are one unused token of the new election per user, in user order |
| `MockDb.LastVoteHash` | src/lib/mock-db.ts:176 | the hash the next vote links to: the last vote's hash, or `GENESIS` when there are no votes; defined by its body; characterized by `MockDb.AppendVoteChain` |
| `MockDb.AppendVoteChain` | src/lib/mock-db.ts:176-186 | appending a vote keeps the chain linked exactly when the vote names the previous tail hash, or `GENESIS` for the first vote |
| `MockDb.MarkUsed` | src/lib/mock-db.ts:188 | the token table with only the found token's `is_used` set; defined by its body; characterized by `MockDb.MarkUsedKeepsVotes` |
| `MockDb.MarkUsedKeepsVotes` | src/lib/mock-db.ts:170-188 | marking the found token used moves no lookup, records the vote of its own pair, and withdraws no other vote |
| `MockDb.AppendTokensKeepsVotes` | src/lib/mock-db.ts:153-162 | issuing tokens changes no existing lookup and withdraws no vote |
| `MockDb.IssueKeepsTokensUnique` | src/lib/mock-db.ts:129-162 | issuing a fresh election's tokens adds no second token for any (election, user) pair |
| `MockDb.IssueKeepsReferences` | src/lib/mock-db.ts:129-162 | every token still refers to an existing election and an existing user |
| `MockDb.IssueCoversEveryUserOnce` | src/lib/mock-db.ts:129-162 | every user finds exactly their own new token, unused; the new election has no other tokens |
| `MockDb.CreateElectionKeepsTables` | src/lib/mock-db.ts:120-165 | the table invariant holds after `createElection`, every user can vote once in the new election, and no earlier vote is withdrawn |
| `MockDb.Backend.constructor` | src/lib/mock-db.ts:52-86 | the seeded tables: two users, one election with two candidates, john_doe's unused token, no votes; the invariant holds |
| `MockDb.Backend.Login` | src/lib/mock-db.ts:91-94 | a user comes back exactly when some user has that username and password, and it is the first such user; otherwise null |
| `MockDb.Backend.Register` | src/lib/mock-db.ts:96-107 | appends a voter whose id is the old table length plus one, with the given credentials, and returns it; the invariant holds |
| `MockDb.Backend.FetchElectionById` | src/lib/mock-db.ts:114-117 | an election comes back exactly when one has the id, and it is the first such one |
| `MockDb.Backend.IssueTokens` | src/lib/mock-db.ts:153-162 | the `forEach` loop pushes exactly the issued tokens, one per current user in user order, after the existing ones |
| `MockDb.Backend.CreateElection` | src/lib/mock-db.ts:120-165 | appends an active election with the next id, start time now, and its candidates; appends one unused token per current user, each found by that user; withdraws no vote; returns true; the invariant holds |
| `MockDb.Backend.CastVote` | src/lib/mock-db.ts:167-190 | no token: "No voting token found."; used token: "Token already used."; both leave every table unchanged; otherwise success, with a vote appended (next id, linked to the previous tail) and exactly the found token marked used; votes are never withdrawn |
| `MockDb.RunStep` | src/lib/mock-db.ts:96-190 | one `register`, `createElection` or `castVote` call: the invariant holds, no vote is withdrawn, a vote by a user who has voted fails, and a successful vote is recorded |
| `MockDb.VoteOncePerToken` | src/lib/mock-db.ts:170-188 | over any sequence of `register`, `createElection` and `castVote` calls, once a user has voted successfully in an election, every later vote of theirs there fails |
| `CreateElectionForm.HandleCandidateChange` | src/app/admin/create/page.tsx:35-39 | a copy of the list with only the edited slot replaced: `candidates[index := value]` |
| `CreateElectionForm.RemoveCandidateSlot` | src/app/admin/create/page.tsx:45-48 | one slot fewer when the index is a slot, otherwise as many; every remaining slot comes from the list; characterized exactly by `CreateElectionForm.RemoveCandidateSlotDropsOne` |
| `CreateElectionForm.RemoveCandidateSlotDropsOne` | src/app/admin/create/page.tsx:45-48 | removing drops exactly the slot at the index and keeps the rest in order; an index outside the list removes nothing |
| `CreateElectionForm.AddCandidateSlot` | src/app/admin/create/page.tsx:41-43 | the list with an empty slot appended; defined by its body; characterized by `CreateElectionForm.AddSlotKeepsSubmission` |
| `CreateElectionForm.AddSlotKeepsSubmission` | src/app/admin/create/page.tsx:41-43 | adding a slot lengthens the list by one and never changes the names that would be submitted |
| `CreateElectionForm.TrimStart` | src/app/admin/create/page.tsx:55 | the result is a suffix of the input; what was removed is all white space; the result does not start with white space |
| `CreateElectionForm.TrimEnd` | src/app/admin/create/page.tsx:55 | the result is a prefix of the input; what was removed is all white space; the result does not end with white space |
| `CreateElectionForm.Trim` | src/app/admin/create/page.tsx:55 | `trim()`: no longer than the input, and neither end of the result is white space; characterized by `CreateElectionForm.TrimEmptyIffBlank` |
| `CreateElectionForm.TrimEmptyIffBlank` | src/app/admin/create/page.tsx:55 | a name trims to "" exactly when it is all white space |
| `CreateElectionForm.ValidCandidates` | src/app/admin/create/page.tsx:55 | the `filter` of slots whose trim is not empty; characterized by `CreateElectionForm.ValidCandidatesAreNonBlankSlots` |
| `CreateElectionForm.ValidCandidatesAreNonBlankSlots` | src/app/admin/create/page.tsx:55 | the names submitted are exactly the slots that are not all white space, unchanged and in slot order |
| `CreateElectionForm.HandleSubmit` | src/app/admin/create/page.tsx:50-69 | nothing happens without a signed-in user; fewer than two non-blank names gives the alert; otherwise `createElection` receives exactly the non-blank names (at least two), the form's fields and the user's id |
| `CreateElectionForm.EditsKeepTwoSlots` | src/app/admin/create/page.tsx:136-154 | no run of edits the rendered form offers takes a list of two or more slots below two |
| `CreateElectionForm.SlotsNeverBelowTwo` | src/app/admin/create/page.tsx:24 | starting from the initial two empty slots, the form never shows fewer than two |
| `VotingsPage.FindByCredentials` | src/app/votings/page.tsx:107-109 | a row comes back exactly when some row has that username and password, and it is the first such row |
| `VotingsPage.MockLogin` | src/app/votings/page.tsx:104-112 | `mockLogin` returns a row of the page's own user table with those credentials exactly when one exists; otherwise null |
| `VotingsPage.CandidatesOf` | src/app/votings/page.tsx:119 | the candidates attached to an election are exactly the table's rows naming its id |
| `VotingsPage.CandidatesOfKeepsOrder` | src/app/votings/page.tsx:119 | the attached candidates keep table order |
| `VotingsPage.CandidatesOfSingleRow` | src/app/votings/page.tsx:119 | one row is attached exactly when it names the election |
| `VotingsPage.JoinCandidates` | src/app/votings/page.tsx:117-120 | one result per election, in order, with all fields copied, and candidates exactly the rows naming that election, in table order |
| `VotingsPage.FetchActiveVotings` | src/app/votings/page.tsx:115-121 | every election of the page's table comes back, inactive ones included, each with its own candidate rows |

## Left out

- The artificial `setTimeout` delays and the asynchrony: each call is one atomic step. JavaScript is single-threaded, so no two calls interleave inside one operation.
- `Math.random()`, `Date.now()` and `new Date().toISOString()` values are parameters (`candidateSeeds`, `tokenIds`, `randomHex`, `nowMillis`, `now`; in `MockDb.Step`, functions from the draw's position to its value). Nothing is claimed about their distribution or uniqueness.
- `fetchElections` is not modelled. It returns the elections table itself (`elections` of `MockDb.Backend`).
- Aliasing is not modelled. The backend hands out references to its rows, and a caller could mutate them. Here rows are values.
- JavaScript number formatting is modelled for integers only. Ids built from `Math.floor` are integers.
- `trim` works on UTF-16 code units; the model works on Unicode scalar values. The two agree on every white-space character listed.
- React rendering, routing, the authentication context (`useAuth`) and its storage are not part of this model. So are the admin-role redirect of the create form and the page components.
- CreateElectionForm.HandleSubmit: passes the end date unchanged. The source converts it with `new Date(endDate).toISOString()`, and date parsing is not modelled.
- CreateElectionForm.HandleCandidateChange: requires the index to be a slot of the list. The form only ever passes the index of a rendered slot. On other indices JavaScript would extend the array with holes, and that is not modelled.
- MockDb.Backend.CreateElection: takes one random candidate seed per name and one random token id per user. This fixes how many random draws `createElection` makes.
