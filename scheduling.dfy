/**
 * The midnight expiry sweep (`Scheduler.autoFinishFundings`): every ACTIVE funding whose
 * end date is today or earlier becomes FINISHED, each owner who agreed to e-mail is sent a
 * FUNDING_TIME_OUT notification, and the listing caches are cleared once at the end.
 *
 * `notificationService.send` runs asynchronously, so the scheduler only hands the request
 * over: the model records each hand-over, in order, in `dispatched`. The list of expired
 * fundings comes from a repository query whose order is not fixed, so the loop visits
 * them in the order `Enumerate` gives and reports that order.
 */
module Scheduling {
  import opened JavaLang
  import opened Sequences
  import opened Users
  import opened Notifications
  import opened Fundings
  import opened FundingServices

  const TIMEOUT_CONTENT := "펀딩 마감일이되어 펀딩이 종료되었습니다."
  const DETAIL_URL_PREFIX := "https://giftipie.me/fundingdetail/"

  /** The detail page of funding `id`: the prefix followed by the decimal id. */
  function DetailUrl(id: nat): string {
    DETAIL_URL_PREFIX + NatToString(id)
  }

  /** Different fundings have different detail pages. */
  lemma DetailUrlInjective(a: nat, b: nat)
    ensures DetailUrl(a) == DetailUrl(b) ==> a == b
  {
    if DetailUrl(a) == DetailUrl(b) {
      var n := |DETAIL_URL_PREFIX|;
      assert DetailUrl(a)[n..] == NatToString(a);
      assert DetailUrl(b)[n..] == NatToString(b);
      NatToStringInjective(a, b);
    }
  }

  /** `findByEndDateLessThanEqualAndStatus(today, ACTIVE)` selects `f`. */
  predicate Expired(f: Funding, today: int) {
    f.status == Active && f.endDate <= today
  }

  function ExpiredIds(fundings: map<nat, Funding>, today: int): set<nat> {
    set id | id in fundings && Expired(fundings[id], today)
  }

  /** `fundings` with every funding in `ids` switched to FINISHED. */
  function FinishAll(fundings: map<nat, Funding>, ids: set<nat>): (r: map<nat, Funding>)
    ensures r.Keys == fundings.Keys
    ensures forall k :: k in fundings && k in ids ==> r[k] == fundings[k].(status := Finished)
    ensures forall k :: k in fundings && k !in ids ==> r[k] == fundings[k]
  {
    map k | k in fundings :: if k in ids then fundings[k].(status := Finished) else fundings[k]
  }

  /**
   * The table after the sweep: expired fundings are FINISHED and otherwise unchanged;
   * fundings not yet at their end date, and fundings already FINISHED, are untouched.
   */
  function Sweep(fundings: map<nat, Funding>, today: int): (r: map<nat, Funding>)
    ensures r.Keys == fundings.Keys
    ensures forall k :: k in fundings && Expired(fundings[k], today) ==> r[k] == fundings[k].(status := Finished)
    ensures forall k :: k in fundings && !Expired(fundings[k], today) ==> r[k] == fundings[k]
  {
    FinishAll(fundings, ExpiredIds(fundings, today))
  }

  /** After the sweep nothing is left for the same day's query to find. */
  lemma SweepLeavesNothingExpired(fundings: map<nat, Funding>, today: int)
    ensures ExpiredIds(Sweep(fundings, today), today) == {}
  {
    var m := Sweep(fundings, today);
    forall k | k in m
      ensures !Expired(m[k], today)
    {
      assert k in fundings;
    }
  }

  /** Sweeping twice on the same day is sweeping once. */
  lemma SweepIdempotent(fundings: map<nat, Funding>, today: int)
    ensures Sweep(Sweep(fundings, today), today) == Sweep(fundings, today)
  {
    SweepLeavesNothingExpired(fundings, today);
    var once := Sweep(fundings, today);
    assert forall k :: k in once ==> !Expired(once[k], today);
  }

  /** The sweep only ends fundings, so it keeps the one-ACTIVE-per-user invariant. */
  lemma SweepPreservesAtMostOneActive(fundings: map<nat, Funding>, today: int)
    requires AtMostOneActive(fundings)
    ensures AtMostOneActive(Sweep(fundings, today))
  {
    var m := Sweep(fundings, today);
    forall a, b, u: nat | a in m && b in m && ActiveOwnedBy(m[a], u) && ActiveOwnedBy(m[b], u)
      ensures a == b
    {
      assert ActiveOwnedBy(fundings[a], u) && ActiveOwnedBy(fundings[b], u);
    }
  }

  /** The sweep leaves every funding with its owner. */
  lemma SweepKeepsOwners(fundings: map<nat, Funding>, users: map<nat, User>, today: int)
    requires OwnersKnown(fundings, users)
    ensures forall id :: id in fundings ==> id in Sweep(fundings, today) && Sweep(fundings, today)[id].user == fundings[id].user
    ensures OwnersKnown(Sweep(fundings, today), users)
  {
    var m := Sweep(fundings, today);
    forall id | id in m
      ensures m[id].user == fundings[id].user
    {
    }
  }

  /** The arguments of one `notificationService.send` call. */
  datatype SendRequest = SendRequest(receiver: User, notificationType: NotificationType, content: string, url: string)

  /** The owner of funding `id`. */
  function Owner(fundings: map<nat, Funding>, users: map<nat, User>, id: nat): User
    requires OwnersKnown(fundings, users) && id in fundings
  {
    users[fundings[id].user.value]
  }

  /** The time-out notice for funding `id`. */
  function Notice(fundings: map<nat, Funding>, users: map<nat, User>, id: nat): SendRequest
    requires OwnersKnown(fundings, users) && id in fundings
  {
    SendRequest(Owner(fundings, users, id), FundingTimeOut, TIMEOUT_CONTENT, DetailUrl(id))
  }

  /** The notices the sweep hands over when it visits the fundings in `order`. */
  function TimeoutNotices(fundings: map<nat, Funding>, users: map<nat, User>, order: seq<nat>): (r: seq<SendRequest>)
    requires OwnersKnown(fundings, users) && forall i :: 0 <= i < |order| ==> order[i] in fundings
    ensures |r| <= |order|
    ensures forall j :: 0 <= j < |r| ==>
      r[j].notificationType == FundingTimeOut && r[j].content == TIMEOUT_CONTENT && r[j].receiver.isEmailNotificationAgreed
    ensures forall j :: 0 <= j < |r| ==>
      exists i :: 0 <= i < |order| && r[j] == Notice(fundings, users, order[i])
  {
    if order == [] then []
    else
      var id := Last(order);
      var earlier := TimeoutNotices(fundings, users, order[..|order| - 1]);
      if Owner(fundings, users, id).isEmailNotificationAgreed then earlier + [Notice(fundings, users, id)] else earlier
  }

  /** A funding whose owner agreed to e-mail gets a notice. */
  lemma {:induction false} NoticeSentWhenAgreed(fundings: map<nat, Funding>, users: map<nat, User>, order: seq<nat>, i: nat)
    requires OwnersKnown(fundings, users) && forall i :: 0 <= i < |order| ==> order[i] in fundings
    requires i < |order| && Owner(fundings, users, order[i]).isEmailNotificationAgreed
    ensures Notice(fundings, users, order[i]) in TimeoutNotices(fundings, users, order)
  {
    if i < |order| - 1 {
      var init := order[..|order| - 1];
      assert init[i] == order[i];
      NoticeSentWhenAgreed(fundings, users, init, i);
    }
  }

  /** A funding gets a notice exactly when its owner agreed to e-mail. */
  lemma NoticeSentIff(fundings: map<nat, Funding>, users: map<nat, User>, order: seq<nat>, i: nat)
    requires OwnersKnown(fundings, users) && forall i :: 0 <= i < |order| ==> order[i] in fundings
    requires i < |order|
    ensures (exists j :: 0 <= j < |TimeoutNotices(fundings, users, order)|
               && TimeoutNotices(fundings, users, order)[j].url == DetailUrl(order[i]))
            <==> Owner(fundings, users, order[i]).isEmailNotificationAgreed
  {
    var r := TimeoutNotices(fundings, users, order);
    if Owner(fundings, users, order[i]).isEmailNotificationAgreed {
      NoticeSentWhenAgreed(fundings, users, order, i);
    }
    if j :| 0 <= j < |r| && r[j].url == DetailUrl(order[i]) {
      var k :| 0 <= k < |order| && r[j] == Notice(fundings, users, order[k]);
      DetailUrlInjective(order[k], order[i]);
    }
  }

  /** Visiting each funding once, no funding gets two notices. */
  lemma {:induction false} NoticesDistinct(fundings: map<nat, Funding>, users: map<nat, User>, order: seq<nat>)
    requires OwnersKnown(fundings, users) && forall i :: 0 <= i < |order| ==> order[i] in fundings
    requires Distinct(order)
    ensures var r := TimeoutNotices(fundings, users, order);
      forall j, k :: 0 <= j < k < |r| ==> r[j].url != r[k].url
  {
    if order != [] {
      var init := order[..|order| - 1];
      var id := Last(order);
      assert forall i :: 0 <= i < |init| ==> init[i] == order[i];
      assert order == init + [id];
      assert Distinct(init) && id !in init;
      NoticesDistinct(fundings, users, init);
      EarlierUrlsDiffer(fundings, users, init, id);
      NoticesStep(fundings, users, init, id);
      var earlier := TimeoutNotices(fundings, users, init);
      var r := TimeoutNotices(fundings, users, order);
      forall j, k | 0 <= j < k < |r|
        ensures r[j].url != r[k].url
      {
        assert r[j] == earlier[j];
        if k < |earlier| {
          assert r[k] == earlier[k];
        } else {
          assert r[k] == Notice(fundings, users, id);
        }
      }
    }
  }

  /** The notices of fundings other than `id` point elsewhere than `id`'s detail page. */
  lemma EarlierUrlsDiffer(fundings: map<nat, Funding>, users: map<nat, User>, order: seq<nat>, id: nat)
    requires OwnersKnown(fundings, users) && forall i :: 0 <= i < |order| ==> order[i] in fundings
    requires id !in order
    ensures var r := TimeoutNotices(fundings, users, order);
      forall j :: 0 <= j < |r| ==> r[j].url != DetailUrl(id)
  {
    var r := TimeoutNotices(fundings, users, order);
    forall j | 0 <= j < |r|
      ensures r[j].url != DetailUrl(id)
    {
      var i :| 0 <= i < |order| && r[j] == Notice(fundings, users, order[i]);
      DetailUrlInjective(order[i], id);
    }
  }

  /** Visiting one more funding adds its notice, if its owner agreed, at the end. */
  lemma NoticesStep(fundings: map<nat, Funding>, users: map<nat, User>, order: seq<nat>, id: nat)
    requires OwnersKnown(fundings, users) && forall i :: 0 <= i < |order| ==> order[i] in fundings
    requires id in fundings
    ensures TimeoutNotices(fundings, users, order + [id]) ==
      TimeoutNotices(fundings, users, order)
      + (if Owner(fundings, users, id).isEmailNotificationAgreed then [Notice(fundings, users, id)] else [])
  {
    assert (order + [id])[..|order|] == order;
  }

  /** Finishing one more funding is one more map update. */
  lemma FinishAllStep(fundings: map<nat, Funding>, done: set<nat>, id: nat)
    requires id in fundings
    ensures FinishAll(fundings, done + {id}) == FinishAll(fundings, done)[id := fundings[id].(status := Finished)]
  {
  }

  /** One visit of the sweep's loop, on the ghost state: the visited set, the table and the notices grow by one. */
  lemma VisitStep(table: map<nat, Funding>, users: map<nat, User>, sent: seq<SendRequest>, ids: seq<nat>, i: nat, done: set<nat>)
    requires OwnersKnown(table, users) && i < |ids| && forall j :: 0 <= j < |ids| ==> ids[j] in table
    requires forall x :: x in done <==> x in ids[..i]
    ensures forall x :: x in done + {ids[i]} <==> x in ids[..i + 1]
    ensures FinishAll(table, done + {ids[i]}) == FinishAll(table, done)[ids[i] := table[ids[i]].(status := Finished)]
    ensures sent + TimeoutNotices(table, users, ids[..i + 1])
      == sent + TimeoutNotices(table, users, ids[..i])
         + (if Owner(table, users, ids[i]).isEmailNotificationAgreed then [Notice(table, users, ids[i])] else [])
  {
    var id := ids[i];
    assert ids[..i + 1] == ids[..i] + [id];
    FinishAllStep(table, done, id);
    NoticesStep(table, users, ids[..i], id);
  }

  /** A second sweep on the same day visits nothing and so sends nothing. */
  lemma SecondSweepSendsNothing(fundings: map<nat, Funding>, users: map<nat, User>, today: int, order: seq<nat>)
    requires OwnersKnown(fundings, users)
    requires forall i :: 0 <= i < |order| ==> order[i] in ExpiredIds(Sweep(fundings, today), today)
    ensures order == []
  {
    SweepLeavesNothingExpired(fundings, today);
    HasFirst(order);
  }

  class Scheduler {
    const repo: FundingRepository
    /** Every `send` handed to the notification service, oldest first. */
    var dispatched: seq<SendRequest>
    /** How many times `clearFundingCaches` has run. */
    var cacheClears: nat

    constructor (repo: FundingRepository)
      ensures this.repo == repo && dispatched == [] && cacheClears == 0
    {
      this.repo := repo;
      dispatched := [];
      cacheClears := 0;
    }

    /**
     * One pass of the loop body: funding `id` of the fetched list becomes FINISHED and is
     * saved, and its owner is sent the time-out notice if they agreed to e-mail.
     */
    method Expire(table: map<nat, Funding>, id: nat)
      requires OwnersKnown(table, repo.users) && id in table
      modifies this`dispatched, repo`fundings
      ensures repo.fundings == old(repo.fundings)[id := table[id].(status := Finished)]
      ensures repo.users == old(repo.users) && repo.summaries == old(repo.summaries) && repo.nextId == old(repo.nextId)
      ensures dispatched == old(dispatched)
        + (if Owner(table, repo.users, id).isEmailNotificationAgreed then [Notice(table, repo.users, id)] else [])
      ensures cacheClears == old(cacheClears)
    {
      var funding := table[id];
      repo.fundings := repo.fundings[id := funding.(status := Finished)];
      var owner := repo.users[funding.user.value];
      if owner.isEmailNotificationAgreed {
        dispatched := dispatched + [SendRequest(owner, FundingTimeOut, TIMEOUT_CONTENT, DetailUrl(id))];
      }
    }

    /** The loop over the fetched list: each id of `expired` is visited once, in some order. */
    method ExpireAll(table: map<nat, Funding>, expired: set<nat>) returns (ghost order: seq<nat>)
      requires OwnersKnown(table, repo.users) && expired <= table.Keys
      requires repo.fundings == table
      modifies this`dispatched, repo`fundings
      ensures repo.fundings == FinishAll(table, expired)
      ensures repo.users == old(repo.users) && repo.summaries == old(repo.summaries) && repo.nextId == old(repo.nextId)
      ensures Distinct(order)
      ensures forall i :: 0 <= i < |order| ==> order[i] in expired
      ensures forall id :: id in expired ==> id in order
      ensures dispatched == old(dispatched) + TimeoutNotices(table, repo.users, order)
      ensures cacheClears == old(cacheClears)
    {
      ghost var sent := dispatched;
      var ids := Enumerate(expired);
      forall j | 0 <= j < |ids| ensures ids[j] in expired && ids[j] in table {
        assert ids[j] in ids;
      }
      ghost var done: set<nat> := {};
      var i := 0;
      while i < |ids|
        invariant 0 <= i <= |ids|
        invariant forall x :: x in done <==> x in ids[..i]
        invariant repo.fundings == FinishAll(table, done)
        invariant dispatched == sent + TimeoutNotices(table, repo.users, ids[..i])
      {
        var id := ids[i];
        VisitStep(table, repo.users, sent, ids, i, done);
        Expire(table, id);
        done := done + {id};
        i := i + 1;
      }
      assert ids[..i] == ids;
      assert done == expired;
      order := ids;
    }

    /**
     * `autoFinishFundings`: the table becomes `Sweep` of the old one, each expired funding is
     * visited exactly once, the notices of the visits are handed over in visiting order, and
     * the caches are cleared exactly once.
     */
    method AutoFinishFundings(today: int) returns (ghost order: seq<nat>)
      requires repo.Valid()
      modifies this, repo
      ensures repo.Valid()
      ensures repo.fundings == Sweep(old(repo.fundings), today)
      ensures repo.users == old(repo.users) && repo.summaries == old(repo.summaries) && repo.nextId == old(repo.nextId)
      ensures Distinct(order)
      ensures forall i :: 0 <= i < |order| ==> order[i] in ExpiredIds(old(repo.fundings), today)
      ensures forall id :: id in ExpiredIds(old(repo.fundings), today) ==> id in order
      ensures OwnersKnown(old(repo.fundings), repo.users)
      ensures dispatched == old(dispatched) + TimeoutNotices(old(repo.fundings), repo.users, order)
      ensures cacheClears == old(cacheClears) + 1
    {
      var table := repo.fundings;
      var fundings := ExpiredIds(table, today);
      order := ExpireAll(table, fundings);
      SweepPreservesAtMostOneActive(table, today);
      SweepKeepsOwners(table, repo.users, today);
      cacheClears := cacheClears + 1;
    }
  }
}
