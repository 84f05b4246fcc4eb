/**
 * The funding lifecycle rules of `FundingService` over an in-memory repository:
 * at most one ACTIVE funding per user, the initial status taken from the end date,
 * not-found and owner checks on finish, update and delete, and the status-filtered
 * listings with their sort direction.
 *
 * `LocalDate.now()` is the parameter `today` (a day number). The product preview always
 * fetches the fixed page `PREVIEW_LINK`; the `og:image` content it finds there is the
 * parameter `ogImage`, and `None` stands for the IOException it throws.
 */
module FundingServices {
  import opened Results
  import opened JavaLang
  import opened Users
  import opened Fundings

  // ---------------------------------------------------------------------------
  // Rules over the funding table
  // ---------------------------------------------------------------------------

  /** The page `saveToDatabase` previews for every new funding. */
  const PREVIEW_LINK := "https://www.giftipie.me/"

  /** `f` is an ACTIVE funding of user `userId`. */
  predicate ActiveOwnedBy(f: Funding, userId: nat) {
    f.user == Some(userId) && f.status == Active
  }

  /** The ids of the ACTIVE fundings of `userId`. */
  function ActiveIdsOf(fundings: map<nat, Funding>, userId: nat): set<nat> {
    set id | id in fundings && ActiveOwnedBy(fundings[id], userId)
  }

  /** `user.getFundings().stream().anyMatch(f -> f.getStatus() == ACTIVE)`. */
  predicate HasActiveFunding(fundings: map<nat, Funding>, userId: nat) {
    ActiveIdsOf(fundings, userId) != {}
  }

  /** Every funding has an owner, and the owner is a known user. */
  ghost predicate OwnersKnown(fundings: map<nat, Funding>, users: map<nat, User>) {
    forall id :: id in fundings ==> fundings[id].user.Some? && fundings[id].user.value in users
  }

  /** The invariant the creation guard keeps: no user has two ACTIVE fundings. */
  ghost predicate AtMostOneActive(fundings: map<nat, Funding>) {
    forall a, b, u: nat ::
      a in fundings && b in fundings && ActiveOwnedBy(fundings[a], u) && ActiveOwnedBy(fundings[b], u) ==> a == b
  }

  /** Under the invariant a user has no ACTIVE funding or exactly one. */
  lemma ActiveIdsAtMostOne(fundings: map<nat, Funding>, userId: nat)
    requires AtMostOneActive(fundings)
    ensures |ActiveIdsOf(fundings, userId)| <= 1
  {
    var s := ActiveIdsOf(fundings, userId);
    if s != {} {
      var a :| a in s;
      forall b | b in s
        ensures b == a
      {
        assert ActiveOwnedBy(fundings[a], userId) && ActiveOwnedBy(fundings[b], userId);
      }
      assert s == {a};
    }
  }

  /** Adding a funding for a user who has no ACTIVE one keeps the invariant. */
  lemma AddPreservesAtMostOneActive(fundings: map<nat, Funding>, id: nat, f: Funding, userId: nat)
    requires AtMostOneActive(fundings)
    requires id !in fundings && f.user == Some(userId) && !HasActiveFunding(fundings, userId)
    ensures AtMostOneActive(fundings[id := f])
  {
    forall a | a in fundings
      ensures !ActiveOwnedBy(fundings[a], userId)
    {
      assert a !in ActiveIdsOf(fundings, userId);
    }
  }

  /** The status of a new funding: FINISHED exactly when its end date is already past. */
  function InitialStatus(endDate: int, today: int): (s: FundingStatus)
    ensures s == Finished <==> endDate < today
  {
    if endDate < today then Finished else Active
  }

  /** A funding that ends today starts ACTIVE. */
  lemma EndingTodayStartsActive(today: int)
    ensures InitialStatus(today, today) == Active
  {
  }

  /** `fundings` with funding `id` switched to FINISHED. */
  function Finish(fundings: map<nat, Funding>, id: nat): (r: map<nat, Funding>)
    requires id in fundings
    ensures r.Keys == fundings.Keys
    ensures r[id] == fundings[id].(status := Finished)
    ensures forall k :: k in fundings && k != id ==> r[k] == fundings[k]
  {
    fundings[id := fundings[id].(status := Finished)]
  }

  /** Finishing a funding twice is finishing it once. */
  lemma FinishIdempotent(fundings: map<nat, Funding>, id: nat)
    requires id in fundings
    ensures Finish(Finish(fundings, id), id) == Finish(fundings, id)
  {
  }

  /** Finishing never creates an ACTIVE funding, so it keeps the invariant. */
  lemma FinishPreservesAtMostOneActive(fundings: map<nat, Funding>, id: nat)
    requires id in fundings && AtMostOneActive(fundings)
    ensures AtMostOneActive(Finish(fundings, id))
  {
    var m := Finish(fundings, id);
    forall a, b, u: nat | a in m && b in m && ActiveOwnedBy(m[a], u) && ActiveOwnedBy(m[b], u)
      ensures a == b
    {
      assert ActiveOwnedBy(fundings[a], u) && ActiveOwnedBy(fundings[b], u);
    }
  }

  /** Removing fundings keeps the invariant. */
  lemma RemovePreservesAtMostOneActive(fundings: map<nat, Funding>, ids: set<nat>)
    requires AtMostOneActive(fundings)
    ensures AtMostOneActive(fundings - ids)
  {
    var m := fundings - ids;
    forall a, b, u: nat | a in m && b in m && ActiveOwnedBy(m[a], u) && ActiveOwnedBy(m[b], u)
      ensures a == b
    {
      assert ActiveOwnedBy(fundings[a], u) && ActiveOwnedBy(fundings[b], u);
    }
  }

  // ---------------------------------------------------------------------------
  // Listings
  // ---------------------------------------------------------------------------

  datatype Direction = Asc | Desc

  /** `sortOrder.equalsIgnoreCase("asc") ? ASC : DESC`. */
  function SortDirection(sortOrder: string): (d: Direction)
    ensures d == Asc <==> EqualsIgnoreCase(sortOrder, "asc")
  {
    if EqualsIgnoreCase(sortOrder, "asc") then Asc else Desc
  }

  /**
   * The strings that sort ascending: "asc" in any mix of cases, where the `s` may also be
   * LATIN SMALL LETTER LONG S, whose upper case is `S`. Every other string sorts descending.
   */
  lemma SortDirectionAsc(sortOrder: string)
    ensures SortDirection(sortOrder) == Asc <==>
      && |sortOrder| == 3
      && (sortOrder[0] == 'a' || sortOrder[0] == 'A')
      && (sortOrder[1] == 's' || sortOrder[1] == 'S' || sortOrder[1] == '\U{17F}')
      && (sortOrder[2] == 'c' || sortOrder[2] == 'C')
  {
    if |sortOrder| == 3 {
      assert "asc"[0] == 'a' && "asc"[1] == 's' && "asc"[2] == 'c';
      if EqualsIgnoreCase(sortOrder, "asc") {
        assert CharEqualsIgnoreCase(sortOrder[0], 'a');
        assert CharEqualsIgnoreCase(sortOrder[1], 's');
        assert CharEqualsIgnoreCase(sortOrder[2], 'c');
      }
    }
  }

  /** The fundings whose status is `status`: the row set of `findByStatus`. */
  function WithStatus(fundings: map<nat, Funding>, status: FundingStatus): (r: map<nat, Funding>)
    ensures forall id :: id in r <==> id in fundings && fundings[id].status == status
    ensures forall id :: id in r ==> r[id] == fundings[id]
  {
    map id | id in fundings && fundings[id].status == status :: fundings[id]
  }

  /** The ACTIVE and the FINISHED listings split the table: every funding is in exactly one. */
  lemma ListingsPartition(fundings: map<nat, Funding>)
    ensures WithStatus(fundings, Active).Keys !! WithStatus(fundings, Finished).Keys
    ensures WithStatus(fundings, Active).Keys + WithStatus(fundings, Finished).Keys == fundings.Keys
  {
  }

  /** `Sort.by(direction, property)`. */
  datatype Sort = Sort(direction: Direction, property: string)

  /** `PageRequest.of(page, size, sort)`. */
  datatype PageRequest = PageRequest(page: int, size: int, sort: Sort)

  /** A listing: the page asked for and the rows the query selects, before paging. */
  datatype Page = Page(request: PageRequest, rows: map<nat, Funding>)

  /** `FundingResponseDto`: the empty DTO, or a funding with its id. */
  datatype FundingResponse = EmptyDto | FundingResponse(id: nat, funding: Funding)

  /** The smallest of a non-empty set of ids: the row `findFirstByOrderByIdAsc` picks. */
  method SmallestId(ids: set<nat>) returns (m: nat)
    requires ids != {}
    ensures m in ids && forall k :: k in ids ==> m <= k
  {
    m :| m in ids;
    var rest := ids - {m};
    while rest != {}
      invariant rest <= ids && m in ids
      invariant forall k :: k in ids && k !in rest ==> m <= k
      decreases rest
    {
      var k :| k in rest;
      if k < m {
        m := k;
      }
      rest := rest - {k};
    }
  }

  // ---------------------------------------------------------------------------
  // Repository and service
  // ---------------------------------------------------------------------------

  /** The tables the service reads and writes: fundings, users and the summary rows. */
  class FundingRepository {
    var fundings: map<nat, Funding>
    var users: map<nat, User>
    var summaries: map<nat, FundingSummary>
    /** The next identifier the funding table assigns. */
    var nextId: nat

    ghost predicate Valid()
      reads this
    {
      && (forall id :: id in fundings ==> id < nextId)
      && OwnersKnown(fundings, users)
      && (forall u :: u in users ==> users[u].id == u)
      && AtMostOneActive(fundings)
    }

    constructor (users: map<nat, User>, summaries: map<nat, FundingSummary>)
      requires forall u :: u in users ==> users[u].id == u
      ensures Valid()
      ensures fundings == map[] && this.users == users && this.summaries == summaries
    {
      fundings := map[];
      this.users := users;
      this.summaries := summaries;
      nextId := 1;
    }
  }

  class FundingService {
    const repo: FundingRepository

    constructor (repo: FundingRepository)
      ensures this.repo == repo
    {
      this.repo := repo;
    }

    /**
     * `saveToDatabase`: an unknown user is UsernameNotFoundException; a user who already
     * has an ACTIVE funding is IllegalStateException; then the preview of the fixed page
     * `PREVIEW_LINK` (IOException when the page's `og:image` cannot be had), the status from
     * the end date, and the conversion (NumberFormatException); only then is the funding
     * saved, owned by the user, under a fresh id. `ogImage` is what the fetch of the page
     * yields: its `og:image` content, or `None` when the fetch fails or the tag is missing.
     */
    method SaveToDatabase(request: FundingCreateRequest, userId: nat, today: int, ogImage: Option<string>)
      returns (r: Result<FundingResponse>)
      requires repo.Valid()
      modifies repo
      ensures repo.Valid()
      ensures repo.users == old(repo.users) && repo.summaries == old(repo.summaries)
      ensures r.Err? ==> repo.fundings == old(repo.fundings) && repo.nextId == old(repo.nextId)
      ensures userId !in old(repo.users) ==> r == Err(UsernameNotFound)
      ensures userId in old(repo.users) && HasActiveFunding(old(repo.fundings), userId) ==> r == Err(IllegalState)
      ensures userId in old(repo.users) && !HasActiveFunding(old(repo.fundings), userId) && ogImage.None? ==>
        r == Err(IOFailure)
      ensures userId in old(repo.users) && !HasActiveFunding(old(repo.fundings), userId) && ogImage.Some? ==>
        match ToEntity(request, FundingItem(PREVIEW_LINK, ogImage.value), InitialStatus(request.endDate, today))
        case Err(e) => r == Err(e)
        case Ok(f) =>
          && r == Ok(FundingResponse(old(repo.nextId), f.(user := Some(userId))))
          && repo.fundings == old(repo.fundings)[old(repo.nextId) := f.(user := Some(userId))]
          && repo.nextId == old(repo.nextId) + 1
      ensures r.Ok? ==> r.value.FundingResponse? && r.value.funding.itemLink == PREVIEW_LINK
    {
      if userId !in repo.users {
        return Err(UsernameNotFound);
      }
      if HasActiveFunding(repo.fundings, userId) {
        return Err(IllegalState);
      }
      if ogImage.None? {
        return Err(IOFailure);
      }
      var fundingItem := FundingItem(PREVIEW_LINK, ogImage.value);
      var status := InitialStatus(request.endDate, today);
      var converted := ToEntity(request, fundingItem, status);
      if converted.Err? {
        return Err(converted.error);
      }
      var funding := converted.value.(user := Some(userId));
      var id := repo.nextId;
      AddPreservesAtMostOneActive(repo.fundings, id, funding, userId);
      repo.fundings := repo.fundings[id := funding];
      repo.nextId := id + 1;
      return Ok(FundingResponse(id, funding));
    }

    /** `findFunding`: the funding, or NullPointerException for a missing id. */
    method FindFunding(fundingId: nat) returns (r: Result<FundingResponse>)
      ensures fundingId !in repo.fundings ==> r == Err(NullPointer)
      ensures fundingId in repo.fundings ==> r == Ok(FundingResponse(fundingId, repo.fundings[fundingId]))
    {
      if fundingId !in repo.fundings {
        return Err(NullPointer);
      }
      return Ok(FundingResponse(fundingId, repo.fundings[fundingId]));
    }

    /**
     * `getMyFundingInfo`: the user's ACTIVE funding, or the empty DTO when there is none.
     * The single-result query fails when it matches several rows, which the invariant
     * rules out.
     */
    method GetMyFundingInfo(currentUser: User) returns (r: Result<FundingResponse>)
      ensures ActiveIdsOf(repo.fundings, currentUser.id) == {} ==> r == Ok(EmptyDto)
      ensures r.Ok? && r.value.FundingResponse? ==>
        r.value.id in ActiveIdsOf(repo.fundings, currentUser.id) && r.value.funding == repo.fundings[r.value.id]
      ensures |ActiveIdsOf(repo.fundings, currentUser.id)| == 1 ==> r.Ok? && r.value.FundingResponse?
      ensures |ActiveIdsOf(repo.fundings, currentUser.id)| > 1 <==> r == Err(IncorrectResultSize)
      ensures AtMostOneActive(repo.fundings) ==> r.Ok?
    {
      var found := ActiveIdsOf(repo.fundings, currentUser.id);
      if AtMostOneActive(repo.fundings) {
        ActiveIdsAtMostOne(repo.fundings, currentUser.id);
      }
      if found == {} {
        return Ok(EmptyDto);
      }
      if |found| > 1 {
        return Err(IncorrectResultSize);
      }
      var id :| id in found;
      return Ok(FundingResponse(id, repo.fundings[id]));
    }

    /** `getActiveFundings`: the ACTIVE fundings, sorted ascending only for "asc" in any case. */
    method GetActiveFundings(page: int, size: int, sortBy: string, sortOrder: string) returns (p: Page)
      ensures forall id :: id in p.rows <==> id in repo.fundings && repo.fundings[id].status == Active
      ensures forall id :: id in p.rows ==> p.rows[id] == repo.fundings[id]
      ensures p.request.sort.direction == Asc <==> EqualsIgnoreCase(sortOrder, "asc")
      ensures p.request.sort.property == sortBy && p.request.page == page && p.request.size == size
    {
      var pageable := PageRequest(page, size, Sort(SortDirection(sortOrder), sortBy));
      return Page(pageable, WithStatus(repo.fundings, Active));
    }

    /** `getFinishedFundings`: the FINISHED fundings, with the same sort rule. */
    method GetFinishedFundings(page: int, size: int, sortBy: string, sortOrder: string) returns (p: Page)
      ensures forall id :: id in p.rows <==> id in repo.fundings && repo.fundings[id].status == Finished
      ensures forall id :: id in p.rows ==> p.rows[id] == repo.fundings[id]
      ensures p.request.sort.direction == Asc <==> EqualsIgnoreCase(sortOrder, "asc")
      ensures p.request.sort.property == sortBy && p.request.page == page && p.request.size == size
    {
      var pageable := PageRequest(page, size, Sort(SortDirection(sortOrder), sortBy));
      return Page(pageable, WithStatus(repo.fundings, Finished));
    }

    /**
     * `finishFunding`: FUNDING_NOT_FOUND for a missing id, UNAUTHORIZED_FINISHED_FUNDING when
     * the caller is not the owner; otherwise that funding becomes FINISHED.
     */
    method FinishFunding(fundingId: nat, currentUser: User) returns (r: Result<()>)
      requires repo.Valid()
      modifies repo
      ensures repo.Valid()
      ensures repo.users == old(repo.users) && repo.summaries == old(repo.summaries) && repo.nextId == old(repo.nextId)
      ensures fundingId !in old(repo.fundings) ==>
        r == Err(Base(FundingNotFound)) && repo.fundings == old(repo.fundings)
      ensures fundingId in old(repo.fundings) && old(repo.fundings)[fundingId].user != Some(currentUser.id) ==>
        r == Err(Base(UnauthorizedFinishedFunding)) && repo.fundings == old(repo.fundings)
      ensures fundingId in old(repo.fundings) && old(repo.fundings)[fundingId].user == Some(currentUser.id) ==>
        r == Ok(()) && repo.fundings == Finish(old(repo.fundings), fundingId)
    {
      if fundingId !in repo.fundings {
        return Err(Base(FundingNotFound));
      }
      var funding := repo.fundings[fundingId];
      if funding.user != Some(currentUser.id) {
        return Err(Base(UnauthorizedFinishedFunding));
      }
      FinishPreservesAtMostOneActive(repo.fundings, fundingId);
      repo.fundings := repo.fundings[fundingId := funding.(status := Finished)];
      return Ok(());
    }

    /**
     * `updateFunding`: FUNDING_NOT_FOUND for a missing id, UNAUTHORIZED_UPDATE_FUNDING when
     * the caller is not the owner; otherwise the funding is returned. The record update
     * itself is not part of this model, so the table is left as it was.
     */
    method UpdateFunding(fundingId: nat, user: User) returns (r: Result<FundingResponse>)
      requires repo.Valid()
      ensures fundingId !in repo.fundings ==> r == Err(Base(FundingNotFound))
      ensures fundingId in repo.fundings && repo.fundings[fundingId].user != Some(user.id) ==>
        r == Err(Base(UnauthorizedUpdateFunding))
      ensures fundingId in repo.fundings && repo.fundings[fundingId].user == Some(user.id) ==>
        r == Ok(FundingResponse(fundingId, repo.fundings[fundingId]))
    {
      if fundingId !in repo.fundings {
        return Err(Base(FundingNotFound));
      }
      var funding := repo.fundings[fundingId];
      if funding.user != Some(user.id) {
        return Err(Base(UnauthorizedUpdateFunding));
      }
      return Ok(FundingResponse(fundingId, funding));
    }

    /**
     * `deleteFunding`: FUNDING_NOT_FOUND for a missing id, UNAUTHORIZED_DELETE_FUNDING when
     * the caller is not the owner; otherwise exactly that funding is removed.
     */
    method DeleteFunding(fundingId: nat, user: User) returns (r: Result<()>)
      requires repo.Valid()
      modifies repo
      ensures repo.Valid()
      ensures repo.users == old(repo.users) && repo.summaries == old(repo.summaries) && repo.nextId == old(repo.nextId)
      ensures fundingId !in old(repo.fundings) ==>
        r == Err(Base(FundingNotFound)) && repo.fundings == old(repo.fundings)
      ensures fundingId in old(repo.fundings) && old(repo.fundings)[fundingId].user != Some(user.id) ==>
        r == Err(Base(UnauthorizedDeleteFunding)) && repo.fundings == old(repo.fundings)
      ensures fundingId in old(repo.fundings) && old(repo.fundings)[fundingId].user == Some(user.id) ==>
        r == Ok(()) && repo.fundings == old(repo.fundings) - {fundingId}
    {
      if fundingId !in repo.fundings {
        return Err(Base(FundingNotFound));
      }
      var funding := repo.fundings[fundingId];
      if funding.user != Some(user.id) {
        return Err(Base(UnauthorizedDeleteFunding));
      }
      RemovePreservesAtMostOneActive(repo.fundings, {fundingId});
      repo.fundings := repo.fundings - {fundingId};
      return Ok(());
    }

    /** `getFundingSummary`: the summary row with the smallest id, or all zeros when there is none. */
    method GetFundingSummary() returns (s: FundingSummary)
      ensures repo.summaries == map[] ==> s == EMPTY_SUMMARY
      ensures repo.summaries != map[] ==>
        exists k :: k in repo.summaries && s == repo.summaries[k] && forall j :: j in repo.summaries ==> k <= j
    {
      if repo.summaries == map[] {
        return EMPTY_SUMMARY;
      }
      assert repo.summaries.Keys != {} by {
        var k :| k in repo.summaries;
      }
      var first := SmallestId(repo.summaries.Keys);
      return repo.summaries[first];
    }
  }
}
