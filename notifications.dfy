/**
 * The notification service: a registry of open SSE connections (emitters), an event
 * cache used to replay missed events, and the store of persisted notifications.
 *
 * Clock readings are parameters (milliseconds as `nat`). The outcome of each push on an
 * SSE stream is an oracle: the push of event `eventId` to emitter `emitterId` fails
 * exactly when `(emitterId, eventId)` is in `fails`. The mail transport's outcome is the
 * oracle `mailFails`. Map iteration order is not fixed by the code, so the loops visit
 * the keys in the order `Enumerate` gives, of which nothing is known but that each key
 * comes once, and a ghost out-parameter reports that order.
 */
module Notifications {
  import opened Results
  import opened JavaLang
  import opened Sequences
  import opened Users

  datatype NotificationType = Donation | FundingTimeOut

  /** The persisted notification entity; `id` and `createdAt` are assigned when it is saved. */
  datatype Notification = Notification(
    id: nat,
    receiver: User,
    notificationType: NotificationType,
    content: string,
    url: string,
    isRead: bool,
    createdAt: nat)

  /** The projection sent to clients and returned by the management operations. */
  datatype NotificationResponse = NotificationResponse(
    id: nat,
    content: string,
    url: string,
    notificationType: NotificationType,
    isRead: bool,
    createdAt: nat)

  function ToResponse(n: Notification): NotificationResponse {
    NotificationResponse(n.id, n.content, n.url, n.notificationType, n.isRead, n.createdAt)
  }

  /** What an SSE event carries: the handshake dummy, a response projection, or a cached entity. */
  datatype Payload =
    | SubscribeDummy(username: string)
    | Dto(response: NotificationResponse)
    | Entity(notification: Notification)

  const EVENT_NAME: string := "sse"

  /** Lifetime of an SSE connection: one hour. */
  const DEFAULT_TIMEOUT: nat := 60 * 1000 * 60

  datatype SseEvent = SseEvent(id: string, name: string, data: Payload)

  /** One event delivered on the stream of one emitter. */
  datatype Push = Push(emitterId: string, event: SseEvent)

  datatype Termination = Completion | Timeout | TransportError

  /**
   * An open SSE connection: its lifetime and, for each of its three callbacks, the key
   * prefix that the callback removes from the registry.
   */
  datatype Emitter = Emitter(timeoutMillis: nat, onCompletion: string, onTimeout: string, onError: string)

  function CleanupKey(e: Emitter, cause: Termination): string {
    match cause
    case Completion => e.onCompletion
    case Timeout => e.onTimeout
    case TransportError => e.onError
  }

  /** The emitter `sseSubscribe` creates: all three callbacks remove `emitterId`. */
  function NewEmitter(emitterId: string): Emitter {
    Emitter(DEFAULT_TIMEOUT, emitterId, emitterId, emitterId)
  }

  /** `createTimeIncludeId`: the name, an underscore, and the clock reading in decimal. */
  function CreateTimeIncludeId(name: string, millis: nat): (id: string)
    ensures StartsWith(id, name + "_")
    ensures AllDigits(id[|name| + 1..]) && DecimalValue(id[|name| + 1..]) == millis
  {
    var id := name + "_" + NatToString(millis);
    assert id[|name| + 1..] == NatToString(millis);
    DecimalValueOfNatToString(millis);
    id
  }

  /** Two identifiers for the same name are equal only when the clock readings are. */
  lemma CreateTimeIncludeIdInjective(name: string, a: nat, b: nat)
    requires CreateTimeIncludeId(name, a) == CreateTimeIncludeId(name, b)
    ensures a == b
  {
  }

  /** `hasLostData`: replay is requested exactly when the client sent a non-empty Last-Event-ID. */
  predicate HasLostData(lastEventId: string) {
    lastEventId != ""
  }

  /** `createNotification`: unread, with id and creation time left for the store to assign. */
  function CreateNotification(receiver: User, notificationType: NotificationType, content: string, url: string): (n: Notification)
    ensures n.receiver == receiver && n.notificationType == notificationType && n.content == content && n.url == url
    ensures !n.isRead
  {
    Notification(0, receiver, notificationType, content, url, false, 0)
  }

  /** The repository's prefix lookup (`findAll...StartWithByUserId`). */
  function StartingWith<V>(m: map<string, V>, prefix: string): (r: map<string, V>)
    ensures forall k :: k in r <==> k in m && StartsWith(k, prefix)
    ensures forall k :: k in r ==> r[k] == m[k]
  {
    map k | k in m && StartsWith(k, prefix) :: m[k]
  }

  /** The repository's prefix deletion (`deleteAllEmitterStartWithId`). */
  function DeleteStartingWith<V>(m: map<string, V>, prefix: string): (r: map<string, V>)
    ensures forall k :: k in r <==> k in m && !StartsWith(k, prefix)
    ensures forall k :: k in r ==> r[k] == m[k]
  {
    map k | k in m && !StartsWith(k, prefix) :: m[k]
  }

  /** The registry after the emitter's callbacks fire, one per element of `causes`. */
  function AfterTerminations(m: map<string, Emitter>, e: Emitter, causes: seq<Termination>): map<string, Emitter>
    decreases |causes|
  {
    if causes == [] then m
    else AfterTerminations(DeleteStartingWith(m, CleanupKey(e, causes[0])), e, causes[1..])
  }

  /**
   * The three callbacks of an emitter made by `sseSubscribe` do the same removal, so any
   * non-empty sequence of them, in any order and with repetitions, leaves the registry as
   * one removal does, and its id absent.
   */
  lemma {:induction false} TerminationsRemoveEmitter(m: map<string, Emitter>, emitterId: string, causes: seq<Termination>)
    requires causes != []
    ensures AfterTerminations(m, NewEmitter(emitterId), causes) == DeleteStartingWith(m, emitterId)
    ensures emitterId !in AfterTerminations(m, NewEmitter(emitterId), causes)
  {
    var once := DeleteStartingWith(m, emitterId);
    assert CleanupKey(NewEmitter(emitterId), causes[0]) == emitterId;
    if |causes| > 1 {
      TerminationsRemoveEmitter(once, emitterId, causes[1..]);
      assert DeleteStartingWith(once, emitterId) == once;
    }
    assert StartsWith(emitterId, emitterId);
  }

  /** The cache keys `sendLostData` replays: under the username, after `lastEventId` by `compareTo`. */
  function ReplayKeys(cache: map<string, Notification>, username: string, lastEventId: string): set<string> {
    set k | k in cache && StartsWith(k, username) && CompareTo(lastEventId, k) < 0
  }

  /** The entry the client saw last is never replayed. */
  lemma ReplaySkipsLastSeen(cache: map<string, Notification>, username: string, lastEventId: string)
    ensures lastEventId !in ReplayKeys(cache, username, lastEventId)
  {
    CompareToZero(lastEventId, lastEventId);
  }

  /**
   * Every cached key under the username is exactly one of: the last seen id, replayed,
   * or before the last seen id. No key is lost and none is sent twice.
   */
  lemma ReplayPartition(cache: map<string, Notification>, username: string, lastEventId: string, k: string)
    requires k in cache && StartsWith(k, username)
    ensures k in ReplayKeys(cache, username, lastEventId) <==> k != lastEventId && CompareTo(k, lastEventId) >= 0
  {
    CompareToZero(lastEventId, k);
    CompareToAntisymmetric(lastEventId, k);
  }

  /** A later Last-Event-ID replays a subset of what an earlier one replays. */
  lemma ReplayMonotone(cache: map<string, Notification>, username: string, earlier: string, later: string)
    requires CompareTo(earlier, later) < 0
    ensures ReplayKeys(cache, username, later) <= ReplayKeys(cache, username, earlier)
  {
    forall k | k in ReplayKeys(cache, username, later)
      ensures k in ReplayKeys(cache, username, earlier)
    {
      CompareToTransitive(earlier, later, k);
    }
  }

  /**
   * Replay compares identifiers as text, not as numbers, so it follows the clock only
   * between readings with the same number of digits: `u_1000` sorts before `u_999`
   * (and is not replayed after it) but after `u_100` (and is).
   */
  lemma ReplayOrderIsTextual(cache: map<string, Notification>, n: Notification)
    ensures "u_1000" !in ReplayKeys(cache["u_1000" := n], "u", "u_999")
    ensures "u_1000" in ReplayKeys(cache["u_1000" := n], "u", "u_100")
  {
    assert StartsWith("u_1000", "u");
    assert Utf16("u_100") == ['u' as int] + Utf16("_100");
    assert Utf16("_100") == ['_' as int] + Utf16("100");
    assert Utf16("100") == ['1' as int] + Utf16("00");
    assert Utf16("00") == ['0' as int] + Utf16("0");
    assert Utf16("000") == ['0' as int] + Utf16("00");
    assert Utf16("0") == ['0' as int] + Utf16("");
    assert CompareTo("u_100", "u_1000") < 0;
    assert Utf16("u_999") == ['u' as int] + Utf16("_999");
    assert Utf16("u_1000") == ['u' as int] + Utf16("_1000");
    assert Utf16("_999") == ['_' as int] + Utf16("999");
    assert Utf16("_1000") == ['_' as int] + Utf16("1000");
    assert Utf16("999") == ['9' as int] + Utf16("99");
    assert Utf16("1000") == ['1' as int] + Utf16("000");
    assert CompareTo("u_999", "u_1000") > 0;
  }

  /** The pushes of one event to each emitter of `ids`, in that order. */
  function FannedOut(ids: seq<string>, event: SseEvent): (r: seq<Push>)
    ensures |r| == |ids|
    ensures forall i :: 0 <= i < |ids| ==> r[i] == Push(ids[i], event)
  {
    if ids == [] then [] else FannedOut(ids[..|ids| - 1], event) + [Push(Last(ids), event)]
  }

  /** One more emitter visited: one more push at the end. */
  lemma FannedOutStep(ids: seq<string>, i: nat, event: SseEvent)
    requires i < |ids|
    ensures FannedOut(ids[..i + 1], event) == FannedOut(ids[..i], event) + [Push(ids[i], event)]
  {
    assert ids[..i + 1][..i] == ids[..i];
  }

  /** The pushes of the cached entries `keys` to one emitter, each under its cache key. */
  function Replayed(keys: seq<string>, emitterId: string, cache: map<string, Notification>): (r: seq<Push>)
    requires forall i :: 0 <= i < |keys| ==> keys[i] in cache
    ensures |r| == |keys|
    ensures forall i :: 0 <= i < |keys| ==> r[i] == Push(emitterId, SseEvent(keys[i], EVENT_NAME, Entity(cache[keys[i]])))
  {
    if keys == [] then []
    else Replayed(keys[..|keys| - 1], emitterId, cache) + [Push(emitterId, SseEvent(Last(keys), EVENT_NAME, Entity(cache[Last(keys)])))]
  }

  /** One more key replayed: one more push at the end. */
  lemma ReplayedStep(keys: seq<string>, i: nat, emitterId: string, cache: map<string, Notification>)
    requires i < |keys| && forall j :: 0 <= j < |keys| ==> keys[j] in cache
    ensures Replayed(keys[..i + 1], emitterId, cache)
      == Replayed(keys[..i], emitterId, cache) + [Push(emitterId, SseEvent(keys[i], EVENT_NAME, Entity(cache[keys[i]])))]
  {
    assert keys[..i + 1][..i] == keys[..i];
  }

  /** The event cache after `saveEventCache(k, n)` for each key `k` of `keys` in turn. */
  function CacheWrites(cache: map<string, Notification>, keys: seq<string>, n: Notification): (r: map<string, Notification>)
  {
    if keys == [] then cache else CacheWrites(cache, keys[..|keys| - 1], n)[Last(keys) := n]
  }

  /** One more cache write: one more map update. */
  lemma CacheWritesStep(cache: map<string, Notification>, keys: seq<string>, i: nat, n: Notification)
    requires i < |keys|
    ensures CacheWrites(cache, keys[..i + 1], n) == CacheWrites(cache, keys[..i], n)[keys[i] := n]
  {
    assert keys[..i + 1][..i] == keys[..i];
  }

  /** Every key written is present with the notification; every other entry is untouched. */
  lemma {:induction false} CacheWritesEntries(cache: map<string, Notification>, keys: seq<string>, n: Notification)
    ensures var r := CacheWrites(cache, keys, n);
      && (forall k :: k in r <==> k in cache || k in keys)
      && (forall k :: k in keys ==> r[k] == n)
      && (forall k :: k in cache && k !in keys ==> r[k] == cache[k])
  {
    if keys != [] {
      CacheWritesEntries(cache, keys[..|keys| - 1], n);
      assert forall k :: k in keys <==> k in keys[..|keys| - 1] || k == Last(keys);
    }
  }

  /** The read notifications of a user: what `deleteNotificationIsReadTrue` removes. */
  function ReadIdsOf(store: map<nat, Notification>, userId: nat): set<nat> {
    set id | id in store && store[id].receiver.id == userId && store[id].isRead
  }

  /** Bulk deletion leaves every unread row and every row of another user, and no read row of the user. */
  lemma DeleteReadKeepsOthers(store: map<nat, Notification>, userId: nat)
    ensures var after := store - ReadIdsOf(store, userId);
      ReadIdsOf(after, userId) == {}
      && forall id :: id in store && (store[id].receiver.id != userId || !store[id].isRead) ==> id in after && after[id] == store[id]
  {
  }

  /** The store after `readNotification` succeeds: one flag set. */
  function MarkedRead(store: map<nat, Notification>, id: nat): (r: map<nat, Notification>)
    requires id in store
    ensures r.Keys == store.Keys && r[id].isRead
    ensures r[id] == store[id].(isRead := true)
    ensures forall k :: k in store && k != id ==> r[k] == store[k]
  {
    store[id := store[id].(isRead := true)]
  }

  /** Reading a notification twice leaves the store as reading it once. */
  lemma MarkedReadIdempotent(store: map<nat, Notification>, id: nat)
    requires id in store
    ensures MarkedRead(MarkedRead(store, id), id) == MarkedRead(store, id)
  {
  }

  /** A non-empty finite set of stored ids has a newest element. */
  lemma {:induction false} NewestExists(ids: set<nat>, store: map<nat, Notification>)
    requires ids != {} && ids <= store.Keys
    ensures exists m :: m in ids && forall k :: k in ids ==> store[k].createdAt <= store[m].createdAt
  {
    var x :| x in ids;
    var rest := ids - {x};
    if rest != {} {
      NewestExists(rest, store);
      var m :| m in rest && forall k :: k in rest ==> store[k].createdAt <= store[m].createdAt;
      if store[x].createdAt <= store[m].createdAt {
        assert forall k :: k in ids ==> store[k].createdAt <= store[m].createdAt;
      } else {
        assert forall k :: k in ids ==> store[k].createdAt <= store[x].createdAt;
      }
    } else {
      assert ids == {x};
    }
  }

  /** The ids of the rows of `store` that `userId` receives. */
  function ReceivedBy(store: map<nat, Notification>, userId: nat): set<nat> {
    set id | id in store && store[id].receiver.id == userId
  }

  /** `ids` lists rows of `store` from the newest `createdAt` to the oldest. */
  ghost predicate NewestFirst(store: map<nat, Notification>, ids: seq<nat>) {
    (forall i :: 0 <= i < |ids| ==> ids[i] in store)
    && forall i, j :: 0 <= i < j < |ids| ==> store[ids[i]].createdAt >= store[ids[j]].createdAt
  }

  /**
   * The repository query `findAllByReceiverOrderByCreatedAtDesc`: every row the user
   * receives, each once, newest first. Rows with the same timestamp come in no fixed order.
   */
  method FindAllByReceiverOrderByCreatedAtDesc(store: map<nat, Notification>, userId: nat) returns (ids: seq<nat>)
    ensures forall i :: 0 <= i < |ids| ==> ids[i] in ReceivedBy(store, userId)
    ensures forall id :: id in ReceivedBy(store, userId) ==> id in ids
    ensures Distinct(ids)
    ensures NewestFirst(store, ids)
  {
    var remaining := ReceivedBy(store, userId);
    ids := [];
    while remaining != {}
      invariant remaining <= ReceivedBy(store, userId)
      invariant forall i :: 0 <= i < |ids| ==> ids[i] in ReceivedBy(store, userId) && ids[i] !in remaining
      invariant forall id :: id in ReceivedBy(store, userId) ==> id in remaining || id in ids
      invariant Distinct(ids)
      invariant NewestFirst(store, ids)
      invariant forall i, id :: 0 <= i < |ids| && id in remaining ==> store[ids[i]].createdAt >= store[id].createdAt
      decreases remaining
    {
      NewestExists(remaining, store);
      var newest :| newest in remaining && forall k :: k in remaining ==> store[k].createdAt <= store[newest].createdAt;
      ids := ids + [newest];
      assert Distinct(ids) by {
        forall i, j | 0 <= i < j < |ids| ensures ids[i] != ids[j] {
          if j == |ids| - 1 {
            assert ids[i] !in remaining;
          }
        }
      }
      remaining := remaining - {newest};
    }
  }

  class NotificationService {
    /** The connection registry: emitter id to emitter. */
    var emitters: map<string, Emitter>
    /** The event cache: key to the notification saved under it. */
    var eventCache: map<string, Notification>
    /** The notification store: id to record. */
    var store: map<nat, Notification>
    /** The next identifier the store assigns. */
    var nextId: nat
    /** Every event delivered on some SSE stream, oldest first. */
    var pushes: seq<Push>
    /** Every call into the mailing service, oldest first. */
    var mailCalls: seq<Notification>

    ghost predicate Valid()
      reads this
    {
      forall id :: id in store ==> store[id].id == id && id < nextId
    }

    constructor ()
      ensures Valid()
      ensures emitters == map[] && eventCache == map[] && store == map[]
      ensures pushes == [] && mailCalls == []
    {
      emitters, eventCache, store := map[], map[], map[];
      nextId := 1;
      pushes, mailCalls := [], [];
    }

    /**
     * `sendNotification`: deliver one event; on a transport failure remove that one
     * emitter id from the registry and report failure (the caller throws).
     */
    method SendNotification(emitterId: string, eventId: string, data: Payload, fails: set<(string, string)>)
      returns (ok: bool)
      modifies this`emitters, this`pushes
      ensures ok <==> (emitterId, eventId) !in fails
      ensures ok ==> pushes == old(pushes) + [Push(emitterId, SseEvent(eventId, EVENT_NAME, data))]
      ensures ok ==> emitters == old(emitters)
      ensures !ok ==> pushes == old(pushes) && emitters == old(emitters) - {emitterId}
      ensures eventCache == old(eventCache) && store == old(store) && nextId == old(nextId)
      ensures mailCalls == old(mailCalls)
    {
      if (emitterId, eventId) in fails {
        emitters := emitters - {emitterId};
        return false;
      }
      pushes := pushes + [Push(emitterId, SseEvent(eventId, EVENT_NAME, data))];
      return true;
    }

    /**
     * `sendLostData`: push every cache entry under `username` whose key is after
     * `lastEventId`, each under its own key, in no particular order; the first failing
     * push ends the replay.
     */
    method SendLostData(lastEventId: string, username: string, emitterId: string, fails: set<(string, string)>)
      returns (ok: bool, ghost order: seq<string>)
      modifies this`emitters, this`pushes
      ensures var keys := ReplayKeys(old(eventCache), username, lastEventId);
        Distinct(order) && (forall k :: k in order ==> k in keys)
      ensures forall i :: 0 <= i < |order| ==> order[i] in old(eventCache)
      ensures ok <==> forall k :: k in ReplayKeys(old(eventCache), username, lastEventId) ==> (emitterId, k) !in fails
      ensures ok ==>
        && (forall k :: k in ReplayKeys(old(eventCache), username, lastEventId) ==> k in order)
        && emitters == old(emitters)
        && pushes == old(pushes) + Replayed(order, emitterId, old(eventCache))
      ensures !ok ==>
        && order != []
        && (emitterId, Last(order)) in fails
        && (forall i :: 0 <= i < |order| - 1 ==> (emitterId, order[i]) !in fails)
        && emitters == old(emitters) - {emitterId}
        && pushes == old(pushes) + Replayed(order[..|order| - 1], emitterId, old(eventCache))
      ensures eventCache == old(eventCache) && store == old(store) && nextId == old(nextId)
      ensures mailCalls == old(mailCalls)
    {
      var caches := StartingWith(eventCache, username);
      ghost var keys := ReplayKeys(eventCache, username, lastEventId);
      var selected := set k | k in caches && CompareTo(lastEventId, k) < 0;
      assert selected == keys;
      var ids := Enumerate(selected);
      forall j | 0 <= j < |ids| ensures ids[j] in keys && ids[j] in eventCache {
        assert ids[j] in ids;
      }
      var n;
      ok, n := ReplayAll(ids, emitterId, fails);
      if !ok {
        DistinctPrefix(ids, n + 1);
        assert ids[..n + 1][..n] == ids[..n];
        return false, ids[..n + 1];
      }
      order := ids;
      return true, order;
    }

    /**
     * The `forEach` of `sendLostData` once the keys are chosen: push each cached entry of
     * `ids`, in that order, under its own key; a failed push ends the replay at index `n`.
     */
    method ReplayAll(ids: seq<string>, emitterId: string, fails: set<(string, string)>)
      returns (ok: bool, n: nat)
      requires forall j :: 0 <= j < |ids| ==> ids[j] in eventCache
      modifies this`emitters, this`pushes
      ensures ok <==> forall j :: 0 <= j < |ids| ==> (emitterId, ids[j]) !in fails
      ensures ok ==> emitters == old(emitters) && pushes == old(pushes) + Replayed(ids, emitterId, eventCache)
      ensures !ok ==>
        && n < |ids|
        && (emitterId, ids[n]) in fails
        && (forall j :: 0 <= j < n ==> (emitterId, ids[j]) !in fails)
        && emitters == old(emitters) - {emitterId}
        && pushes == old(pushes) + Replayed(ids[..n], emitterId, eventCache)
    {
      var i := 0;
      while i < |ids|
        invariant 0 <= i <= |ids|
        invariant forall j :: 0 <= j < i ==> (emitterId, ids[j]) !in fails
        invariant pushes == old(pushes) + Replayed(ids[..i], emitterId, eventCache)
        invariant emitters == old(emitters)
      {
        var key := ids[i];
        ReplayedStep(ids, i, emitterId, eventCache);
        var sent := SendNotification(emitterId, key, Entity(eventCache[key]), fails);
        if !sent {
          return false, i;
        }
        i := i + 1;
      }
      assert ids[..i] == ids;
      return true, 0;
    }

    /**
     * `sseSubscribe`: register a new emitter under `username_<emitterMillis>`, push the
     * handshake event `username_<eventMillis>`, and replay missed events only when
     * `lastEventId` is non-empty. A failed push removes the new emitter and throws.
     * On success the result is the new emitter's id.
     */
    method SseSubscribe(username: string, lastEventId: string, emitterMillis: nat, eventMillis: nat,
                        fails: set<(string, string)>)
      returns (r: Result<string>, ghost replayed: seq<string>)
      requires Valid()
      modifies this`emitters, this`pushes
      ensures Valid()
      ensures eventCache == old(eventCache) && store == old(store) && nextId == old(nextId)
      ensures mailCalls == old(mailCalls)
      ensures var emitterId := CreateTimeIncludeId(username, emitterMillis);
        var handshake := SseEvent(CreateTimeIncludeId(username, eventMillis), EVENT_NAME, SubscribeDummy(username));
        (emitterId, handshake.id) in fails ==>
          && r == Err(Base(NotificationSendFailed))
          && emitters == old(emitters) - {emitterId}
          && pushes == old(pushes)
          && replayed == []
      ensures var emitterId := CreateTimeIncludeId(username, emitterMillis);
        var handshake := SseEvent(CreateTimeIncludeId(username, eventMillis), EVENT_NAME, SubscribeDummy(username));
        var keys := ReplayKeys(old(eventCache), username, lastEventId);
        (emitterId, handshake.id) !in fails ==>
          && (!HasLostData(lastEventId) ==> replayed == [])
          && Distinct(replayed)
          && (forall k :: k in replayed ==> k in keys)
          && (forall i :: 0 <= i < |replayed| ==> replayed[i] in old(eventCache))
          && (r.Ok? <==> forall k :: k in keys && HasLostData(lastEventId) ==> (emitterId, k) !in fails)
          && (r.Ok? ==>
                && r.value == emitterId
                && (HasLostData(lastEventId) ==> forall k :: k in keys ==> k in replayed)
                && emitters == old(emitters)[emitterId := NewEmitter(emitterId)]
                && pushes == old(pushes) + [Push(emitterId, handshake)] + Replayed(replayed, emitterId, old(eventCache)))
          && (r.Err? ==>
                && r.error == Base(NotificationSendFailed)
                && replayed != []
                && (emitterId, Last(replayed)) in fails
                && emitters == old(emitters) - {emitterId}
                && pushes == old(pushes) + [Push(emitterId, handshake)]
                     + Replayed(replayed[..|replayed| - 1], emitterId, old(eventCache)))
    {
      var emitterId := CreateTimeIncludeId(username, emitterMillis);
      emitters := emitters[emitterId := NewEmitter(emitterId)];
      var eventId := CreateTimeIncludeId(username, eventMillis);
      var sent := SendNotification(emitterId, eventId, SubscribeDummy(username), fails);
      if !sent {
        assert old(emitters)[emitterId := NewEmitter(emitterId)] - {emitterId} == old(emitters) - {emitterId};
        return Err(Base(NotificationSendFailed)), [];
      }
      replayed := [];
      if HasLostData(lastEventId) {
        var ok;
        ok, replayed := SendLostData(lastEventId, username, emitterId, fails);
        if !ok {
          assert old(emitters)[emitterId := NewEmitter(emitterId)] - {emitterId} == old(emitters) - {emitterId};
          return Err(Base(NotificationSendFailed)), replayed;
        }
      }
      return Ok(emitterId), replayed;
    }

    /** One of an emitter's callbacks fires: remove every registry key starting with its key. */
    method Terminate(e: Emitter, cause: Termination)
      modifies this`emitters
      ensures emitters == DeleteStartingWith(old(emitters), CleanupKey(e, cause))
      ensures eventCache == old(eventCache) && store == old(store) && nextId == old(nextId)
      ensures pushes == old(pushes) && mailCalls == old(mailCalls)
    {
      emitters := DeleteStartingWith(emitters, CleanupKey(e, cause));
    }

    /**
     * The `forEach` of `send`: for each target emitter, in no particular order, write the
     * cache under the emitter's id and then push `event`; the first failing push ends it.
     */
    method FanOut(targets: set<string>, eventId: string, data: Payload, saved: Notification, fails: set<(string, string)>)
      returns (ok: bool, ghost order: seq<string>)
      modifies this`emitters, this`pushes, this`eventCache
      ensures Distinct(order) && forall k :: k in order ==> k in targets
      ensures eventCache == CacheWrites(old(eventCache), order, saved)
      ensures ok <==> forall k :: k in targets ==> (k, eventId) !in fails
      ensures ok ==>
        && (forall k :: k in targets ==> k in order)
        && emitters == old(emitters)
        && pushes == old(pushes) + FannedOut(order, SseEvent(eventId, EVENT_NAME, data))
      ensures !ok ==>
        && order != []
        && (Last(order), eventId) in fails
        && (forall i :: 0 <= i < |order| - 1 ==> (order[i], eventId) !in fails)
        && emitters == old(emitters) - {Last(order)}
        && pushes == old(pushes) + FannedOut(order[..|order| - 1], SseEvent(eventId, EVENT_NAME, data))
      ensures store == old(store) && nextId == old(nextId) && mailCalls == old(mailCalls)
    {
      var ids := Enumerate(targets);
      var n;
      ok, n := WriteAndPushAll(ids, eventId, data, saved, fails);
      if !ok {
        DistinctPrefix(ids, n + 1);
        assert ids[..n + 1][..n] == ids[..n];
        forall k | k in ids[..n + 1] ensures k in targets {
          assert k in ids;
        }
        return false, ids[..n + 1];
      }
      assert ids[..|ids|] == ids;
      order := ids;
    }

    /**
     * The `forEach` of `send` once the order is fixed: for each emitter of `ids` in turn,
     * write the cache under its id and push the event; a failed push ends it at index `n`.
     */
    method WriteAndPushAll(ids: seq<string>, eventId: string, data: Payload, saved: Notification, fails: set<(string, string)>)
      returns (ok: bool, n: nat)
      modifies this`emitters, this`pushes, this`eventCache
      ensures ok <==> forall j :: 0 <= j < |ids| ==> (ids[j], eventId) !in fails
      ensures ok ==>
        && eventCache == CacheWrites(old(eventCache), ids, saved)
        && emitters == old(emitters)
        && pushes == old(pushes) + FannedOut(ids, SseEvent(eventId, EVENT_NAME, data))
      ensures !ok ==>
        && n < |ids|
        && (ids[n], eventId) in fails
        && (forall j :: 0 <= j < n ==> (ids[j], eventId) !in fails)
        && eventCache == CacheWrites(old(eventCache), ids[..n + 1], saved)
        && emitters == old(emitters) - {ids[n]}
        && pushes == old(pushes) + FannedOut(ids[..n], SseEvent(eventId, EVENT_NAME, data))
    {
      ghost var event := SseEvent(eventId, EVENT_NAME, data);
      ghost var cache0, pushes0, emitters0 := eventCache, pushes, emitters;
      var i := 0;
      while i < |ids|
        invariant 0 <= i <= |ids|
        invariant forall j :: 0 <= j < i ==> (ids[j], eventId) !in fails
        invariant eventCache == CacheWrites(cache0, ids[..i], saved)
        invariant pushes == pushes0 + FannedOut(ids[..i], event)
        invariant emitters == emitters0
      {
        var emitterId := ids[i];
        CacheWritesStep(cache0, ids, i, saved);
        eventCache := eventCache[emitterId := saved];
        var sent := SendNotification(emitterId, eventId, data, fails);
        if !sent {
          return false, i;
        }
        FannedOutStep(ids, i, event);
        i := i + 1;
      }
      assert ids[..i] == ids;
      return true, 0;
    }

    /**
     * `send`: persist one unread notification, then for each emitter whose id starts with
     * the receiver's nickname write the cache under that emitter's id and push the event
     * `nickname_<now>`; a failed push removes that emitter and throws, ending the fan-out.
     * Only after a complete fan-out is the mailing service called, when the receiver
     * agreed to email; a mail failure throws but leaves the persisted row.
     */
    method Send(receiver: User, notificationType: NotificationType, content: string, url: string,
                now: nat, fails: set<(string, string)>, mailFails: bool)
      returns (r: Result<()>, ghost order: seq<string>)
      requires Valid()
      modifies this
      ensures Valid()
      ensures nextId == old(nextId) + 1
      ensures store == old(store)[old(nextId) :=
        CreateNotification(receiver, notificationType, content, url).(id := old(nextId), createdAt := now)]
      ensures var targets := StartingWith(old(emitters), receiver.nickname);
        Distinct(order) && forall k :: k in order ==> k in targets
      ensures eventCache == CacheWrites(old(eventCache), order, store[old(nextId)])
      ensures var eventId := CreateTimeIncludeId(receiver.nickname, now);
        var targets := StartingWith(old(emitters), receiver.nickname);
        r != Err(Base(NotificationSendFailed)) <==> forall k :: k in targets ==> (k, eventId) !in fails
      ensures var event := SseEvent(CreateTimeIncludeId(receiver.nickname, now), EVENT_NAME, Dto(ToResponse(store[old(nextId)])));
        var targets := StartingWith(old(emitters), receiver.nickname);
        r != Err(Base(NotificationSendFailed)) ==>
          && (forall k :: k in targets ==> k in order)
          && emitters == old(emitters)
          && pushes == old(pushes) + FannedOut(order, event)
          && mailCalls == old(mailCalls) + (if receiver.isEmailNotificationAgreed then [store[old(nextId)]] else [])
          && r == (if receiver.isEmailNotificationAgreed && mailFails then Err(Base(EmailSendFailed)) else Ok(()))
      ensures var event := SseEvent(CreateTimeIncludeId(receiver.nickname, now), EVENT_NAME, Dto(ToResponse(store[old(nextId)])));
        r == Err(Base(NotificationSendFailed)) ==>
          && order != []
          && (Last(order), event.id) in fails
          && (forall i :: 0 <= i < |order| - 1 ==> (order[i], event.id) !in fails)
          && emitters == old(emitters) - {Last(order)}
          && pushes == old(pushes) + FannedOut(order[..|order| - 1], event)
          && mailCalls == old(mailCalls)
    {
      var notification := CreateNotification(receiver, notificationType, content, url);
      var saved := notification.(id := nextId, createdAt := now);
      store := store[nextId := saved];
      nextId := nextId + 1;

      var receiverId := receiver.nickname;
      var eventId := CreateTimeIncludeId(receiverId, now);
      var targets := StartingWith(emitters, receiverId);
      var ok;
      ok, order := FanOut(targets.Keys, eventId, Dto(ToResponse(saved)), saved, fails);
      if !ok {
        return Err(Base(NotificationSendFailed)), order;
      }

      if saved.receiver.isEmailNotificationAgreed {
        mailCalls := mailCalls + [saved];
        if mailFails {
          return Err(Base(EmailSendFailed)), order;
        }
      }
      return Ok(()), order;
    }

    /** `getNotifications`: the user's notifications, newest first, each exactly once. */
    method GetNotifications(user: User) returns (list: seq<NotificationResponse>)
      requires Valid()
      ensures forall i :: 0 <= i < |list| ==>
        list[i].id in store && store[list[i].id].receiver.id == user.id && list[i] == ToResponse(store[list[i].id])
      ensures forall id :: id in store && store[id].receiver.id == user.id ==>
        exists i :: 0 <= i < |list| && list[i].id == id
      ensures forall i, j :: 0 <= i < j < |list| ==> list[i].id != list[j].id
      ensures forall i, j :: 0 <= i < j < |list| ==> list[i].createdAt >= list[j].createdAt
    {
      var ids := FindAllByReceiverOrderByCreatedAtDesc(store, user.id);
      var rows := store;
      list := seq(|ids|, i requires 0 <= i < |ids| && ids[i] in rows => ToResponse(rows[ids[i]]));
      assert forall i :: 0 <= i < |ids| ==> list[i] == ToResponse(store[ids[i]]) && list[i].id == ids[i];
      forall id | id in store && store[id].receiver.id == user.id
        ensures exists i :: 0 <= i < |list| && list[i].id == id
      {
        assert id in ReceivedBy(store, user.id);
        var i :| 0 <= i < |ids| && ids[i] == id;
        assert list[i].id == id;
      }
      assert forall i, j :: 0 <= i < j < |list| ==> list[i].createdAt >= list[j].createdAt by {
        assert NewestFirst(store, ids);
      }
    }

    /**
     * `readNotification`: NOTIFICATION_NOT_FOUND for a missing id,
     * UNAUTHORIZED_READ_NOTIFICATION when the caller is not the receiver; otherwise the
     * read flag is set and the updated projection returned.
     */
    method ReadNotification(user: User, notificationId: nat) returns (r: Result<NotificationResponse>)
      requires Valid()
      modifies this`store
      ensures Valid()
      ensures notificationId !in old(store) ==> r == Err(Base(NotificationNotFound)) && store == old(store)
      ensures notificationId in old(store) && old(store)[notificationId].receiver.id != user.id ==>
        r == Err(Base(UnauthorizedReadNotification)) && store == old(store)
      ensures notificationId in old(store) && old(store)[notificationId].receiver.id == user.id ==>
        store == MarkedRead(old(store), notificationId) && r == Ok(ToResponse(store[notificationId]))
      ensures emitters == old(emitters) && eventCache == old(eventCache) && nextId == old(nextId)
      ensures pushes == old(pushes) && mailCalls == old(mailCalls)
    {
      if notificationId !in store {
        return Err(Base(NotificationNotFound));
      }
      var notification := store[notificationId];
      if notification.receiver.id != user.id {
        return Err(Base(UnauthorizedReadNotification));
      }
      store := store[notificationId := notification.(isRead := true)];
      return Ok(ToResponse(store[notificationId]));
    }

    /**
     * `deleteNotificationIsReadTrue`: READ_NOTIFICATION_LIST_NOT_FOUND when the user has no
     * read notification; otherwise exactly the user's read rows are removed.
     */
    method DeleteNotificationIsReadTrue(user: User) returns (r: Result<()>)
      requires Valid()
      modifies this`store
      ensures Valid()
      ensures ReadIdsOf(old(store), user.id) == {} ==> r == Err(Base(ReadNotificationListNotFound)) && store == old(store)
      ensures ReadIdsOf(old(store), user.id) != {} ==> r == Ok(()) && store == old(store) - ReadIdsOf(old(store), user.id)
      ensures emitters == old(emitters) && eventCache == old(eventCache) && nextId == old(nextId)
      ensures pushes == old(pushes) && mailCalls == old(mailCalls)
    {
      var notificationList := ReadIdsOf(store, user.id);
      if notificationList == {} {
        return Err(Base(ReadNotificationListNotFound));
      }
      store := store - notificationList;
      return Ok(());
    }

    /**
     * `deleteNotification`: NOTIFICATION_NOT_FOUND for a missing id,
     * UNAUTHORIZED_DELETE_NOTIFICATION when the caller is not the receiver; otherwise that
     * one row is removed.
     */
    method DeleteNotification(user: User, notificationId: nat) returns (r: Result<()>)
      requires Valid()
      modifies this`store
      ensures Valid()
      ensures notificationId !in old(store) ==> r == Err(Base(NotificationNotFound)) && store == old(store)
      ensures notificationId in old(store) && old(store)[notificationId].receiver.id != user.id ==>
        r == Err(Base(UnauthorizedDeleteNotification)) && store == old(store)
      ensures notificationId in old(store) && old(store)[notificationId].receiver.id == user.id ==>
        r == Ok(()) && store == old(store) - {notificationId}
      ensures emitters == old(emitters) && eventCache == old(eventCache) && nextId == old(nextId)
      ensures pushes == old(pushes) && mailCalls == old(mailCalls)
    {
      if notificationId !in store {
        return Err(Base(NotificationNotFound));
      }
      var notification := store[notificationId];
      if notification.receiver.id != user.id {
        return Err(Base(UnauthorizedDeleteNotification));
      }
      store := store - {notificationId};
      return Ok(());
    }
  }
}
