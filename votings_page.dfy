/** The simulated requests of the votings page (src/app/votings/page.tsx),
    which keeps its own constant tables: the credential check behind its login
    form and the join of elections with their candidates. */
module VotingsPage {
  import opened Lists

  datatype Role = Admin | Voter

  datatype UserRow = UserRow(id: int, username: string, passwordHash: string, role: Role, createdAt: string)

  datatype ElectionRow = ElectionRow(
    id: int,
    title: string,
    description: string,
    startTime: string,
    endTime: string,
    isActive: bool,
    createdBy: int)

  datatype CandidateRow = CandidateRow(id: int, electionId: int, name: string, description: string)

  /** An election row spread into a new object with its `candidates` added. */
  datatype ElectionWithCandidates = ElectionWithCandidates(
    id: int,
    title: string,
    description: string,
    startTime: string,
    endTime: string,
    isActive: bool,
    createdBy: int,
    candidates: seq<CandidateRow>)

  const MockUsersDb: seq<UserRow> := [
    UserRow(1, "john_doe", "password123", Voter, "2023-01-01T12:00:00Z"),
    UserRow(2, "admin_jane", "adminpass", Admin, "2023-01-01T12:00:00Z")
  ]

  const MockElectionsDb: seq<ElectionRow> := [
    ElectionRow(1, "Student Council President 2024", "Cast your vote for the next student body president.",
      "2023-10-01T09:00:00Z", "2023-10-07T17:00:00Z", true, 2),
    ElectionRow(2, "Best Frontend Framework", "Community poll to decide the tech stack.",
      "2023-09-01T09:00:00Z", "2023-09-02T17:00:00Z", false, 2)
  ]

  const MockCandidatesDb: seq<CandidateRow> := [
    CandidateRow(1, 1, "Alice Johnson", "Better cafeteria food."),
    CandidateRow(2, 1, "Bob Smith", "Sports equipment upgrades."),
    CandidateRow(3, 2, "React", "UI Library."),
    CandidateRow(4, 2, "Vue", "Progressive Framework.")
  ]

  // ---------------------------------------------------------------------
  // mockLogin

  /** The `find` predicate of `mockLogin`. */
  function MatchesCredentials(username: string, password: string): UserRow -> bool {
    (u: UserRow) => u.username == username && u.passwordHash == password
  }

  /** The first row of `table` whose username and password both match, if any. */
  function FindByCredentials(table: seq<UserRow>, username: string, password: string): (r: Option<UserRow>)
    ensures r.Some? <==>
      exists i :: 0 <= i < |table| && table[i].username == username && table[i].passwordHash == password
    ensures r.Some? ==> r.value.username == username && r.value.passwordHash == password
    ensures r.Some? ==>
      exists k :: 0 <= k < |table| && table[k] == r.value &&
        forall j :: 0 <= j < k ==> !(table[j].username == username && table[j].passwordHash == password)
  {
    match FirstMatch(table, MatchesCredentials(username, password))
    case Some(k) => Some(table[k])
    case None => None
  }

  /** `mockLogin`: the credential lookup over the page's own user table. */
  function MockLogin(username: string, password: string): (r: Option<UserRow>)
    ensures r.Some? <==>
      exists i :: 0 <= i < |MockUsersDb| && MockUsersDb[i].username == username && MockUsersDb[i].passwordHash == password
    ensures r.Some? ==> r.value in MockUsersDb && r.value.username == username && r.value.passwordHash == password
  {
    FindByCredentials(MockUsersDb, username, password)
  }

  // ---------------------------------------------------------------------
  // fetchActiveVotings

  /** The `filter` predicate of `fetchActiveVotings`. */
  function BelongsTo(electionId: int): CandidateRow -> bool {
    (c: CandidateRow) => c.electionId == electionId
  }

  /** The candidate rows of one election, in table order. */
  function CandidatesOf(candidates: seq<CandidateRow>, electionId: int): (r: seq<CandidateRow>)
    ensures forall i :: 0 <= i < |r| ==> r[i] in candidates && r[i].electionId == electionId
    ensures forall i :: 0 <= i < |candidates| && candidates[i].electionId == electionId ==> candidates[i] in r
  {
    Filter(candidates, BelongsTo(electionId))
  }

  /** Keeping a table's order: the rows of a concatenation are the rows of
      each part, one part after the other. */
  lemma CandidatesOfKeepsOrder(a: seq<CandidateRow>, b: seq<CandidateRow>, electionId: int)
    ensures CandidatesOf(a + b, electionId) == CandidatesOf(a, electionId) + CandidatesOf(b, electionId)
  {
    FilterDistributes(a, b, BelongsTo(electionId));
  }

  /** A row is kept exactly when it belongs to the election. */
  lemma CandidatesOfSingleRow(c: CandidateRow, electionId: int)
    ensures CandidatesOf([c], electionId) == if c.electionId == electionId then [c] else []
  {
    FilterSingleton(c, BelongsTo(electionId));
  }

  /** One election row with its candidates attached. */
  function WithCandidates(e: ElectionRow, candidates: seq<CandidateRow>): ElectionWithCandidates {
    ElectionWithCandidates(e.id, e.title, e.description, e.startTime, e.endTime, e.isActive, e.createdBy,
      CandidatesOf(candidates, e.id))
  }

  /** Every election in table order, its fields copied unchanged and its
      candidates the candidate rows that name its id, in table order. */
  function JoinCandidates(elections: seq<ElectionRow>, candidates: seq<CandidateRow>): (r: seq<ElectionWithCandidates>)
    ensures |r| == |elections|
    ensures forall i :: 0 <= i < |r| ==>
      && r[i].id == elections[i].id && r[i].title == elections[i].title
      && r[i].description == elections[i].description && r[i].startTime == elections[i].startTime
      && r[i].endTime == elections[i].endTime && r[i].isActive == elections[i].isActive
      && r[i].createdBy == elections[i].createdBy
    ensures forall i, j :: 0 <= i < |r| && 0 <= j < |r[i].candidates| ==>
      r[i].candidates[j] in candidates && r[i].candidates[j].electionId == elections[i].id
    ensures forall i, j :: 0 <= i < |r| && 0 <= j < |candidates| && candidates[j].electionId == elections[i].id ==>
      candidates[j] in r[i].candidates
    ensures forall i :: 0 <= i < |r| ==> r[i].candidates == CandidatesOf(candidates, elections[i].id)
  {
    seq(|elections|, i requires 0 <= i < |elections| => WithCandidates(elections[i], candidates))
  }

  /** `fetchActiveVotings`: the join over the page's constant tables. Every
      election is returned, inactive ones too. */
  function FetchActiveVotings(): (r: seq<ElectionWithCandidates>)
    ensures |r| == |MockElectionsDb|
    ensures forall i :: 0 <= i < |r| ==> r[i].id == MockElectionsDb[i].id && r[i].isActive == MockElectionsDb[i].isActive
    ensures forall i :: 0 <= i < |r| ==> r[i].candidates == CandidatesOf(MockCandidatesDb, MockElectionsDb[i].id)
  {
    JoinCandidates(MockElectionsDb, MockCandidatesDb)
  }
}
