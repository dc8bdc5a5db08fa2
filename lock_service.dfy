/**
 * The per-user lock table kept in Redis. The store is a map from key to
 * value and expiry time (milliseconds); a key whose expiry has passed is
 * gone, as Redis drops it. The current time is a parameter of every
 * operation that looks at the store.
 */
module LockService {
  import opened Base

  datatype Stored = Stored(value: string, expiry: int)

  type Store = map<string, Stored>

  const LockPrefix: string := "vote_lock:"
  const SessionPrefix: string := "vote_session:"
  /** Lock and session lifetimes: 10 s and 300 s. */
  const LockTimeoutMs: int := 10 * 1000
  const SessionTimeoutMs: int := 300 * 1000

  function LockKey(userId: string): string {
    LockPrefix + userId
  }

  function SessionKey(userId: string): string {
    SessionPrefix + userId
  }

  /** Different users have different keys, and no lock key is a session key. */
  lemma KeysDistinct(u: string, v: string)
    ensures LockKey(u) == LockKey(v) ==> u == v
    ensures SessionKey(u) == SessionKey(v) ==> u == v
    ensures LockKey(u) != SessionKey(v)
  {
    if LockKey(u) == LockKey(v) {
      assert u == LockKey(u)[|LockPrefix|..];
    }
    if SessionKey(u) == SessionKey(v) {
      assert u == SessionKey(u)[|SessionPrefix|..];
    }
    assert LockKey(u)[5] == 'l' && SessionKey(v)[5] == 's';
  }

  /** The key exists and has not expired. */
  predicate Live(store: Store, key: string, now: int) {
    key in store && now < store[key].expiry
  }

  /** `get`: the value of a live key, null otherwise. */
  function Get(store: Store, key: string, now: int): (r: Option<string>)
    ensures r.Some? <==> Live(store, key, now)
    ensures r.Some? ==> r.value == store[key].value
  {
    if Live(store, key, now) then Some(store[key].value) else None
  }

  /** The outcome of one lock-table operation. */
  datatype Step = Step(ok: bool, store: Store)

  /** `tryLock`: `setIfAbsent` of the lock key with a 10 s expiry and, when it
      took, the session key with a 300 s expiry. */
  function TryLockStep(store: Store, userId: string, sessionId: string, now: int): (r: Step)
    ensures r.ok <==> !Live(store, LockKey(userId), now)
  {
    if Live(store, LockKey(userId), now) then Step(false, store)
    else
      Step(true, store[LockKey(userId) := Stored(sessionId, now + LockTimeoutMs)]
                      [SessionKey(userId) := Stored(sessionId, now + SessionTimeoutMs)])
  }

  /** `releaseLock`: deletes both keys when the live lock belongs to the session. */
  function ReleaseStep(store: Store, userId: string, sessionId: string, now: int): (r: Step)
    ensures r.ok <==> Get(store, LockKey(userId), now) == Some(sessionId)
  {
    if Get(store, LockKey(userId), now) == Some(sessionId) then
      Step(true, store - {LockKey(userId), SessionKey(userId)})
    else Step(false, store)
  }

  /** `isLocked`: the lock key exists. */
  predicate Locked(store: Store, userId: string, now: int) {
    Live(store, LockKey(userId), now)
  }

  /** `forceReleaseLock`: deletes both keys whoever holds them. */
  function ForceReleaseStep(store: Store, userId: string): (r: Step)
    ensures r.ok
  {
    Step(true, store - {LockKey(userId), SessionKey(userId)})
  }

  /** A grant records the session as holder for 10 s, and its session key for 300 s. */
  lemma TryLockGrants(store: Store, userId: string, sessionId: string, now: int)
    requires !Locked(store, userId, now)
    ensures TryLockStep(store, userId, sessionId, now).ok
    ensures TryLockStep(store, userId, sessionId, now).store[LockKey(userId)] == Stored(sessionId, now + 10000)
    ensures TryLockStep(store, userId, sessionId, now).store[SessionKey(userId)] == Stored(sessionId, now + 300000)
    ensures Locked(TryLockStep(store, userId, sessionId, now).store, userId, now)
  {
    KeysDistinct(userId, userId);
  }

  /** A refused request leaves the holder and its expiry as they were. */
  lemma TryLockRefuses(store: Store, userId: string, sessionId: string, now: int)
    requires Locked(store, userId, now)
    ensures !TryLockStep(store, userId, sessionId, now).ok
    ensures TryLockStep(store, userId, sessionId, now).store == store
  {
  }

  /** While the lock is live no other session gets it; once its 10 s have
      passed without a release, any session does. */
  lemma LockExpires(store: Store, userId: string, s1: string, s2: string, t0: int, now: int)
    requires !Locked(store, userId, t0)
    ensures var held := TryLockStep(store, userId, s1, t0).store;
      (now < t0 + LockTimeoutMs ==> !TryLockStep(held, userId, s2, now).ok) &&
      (now >= t0 + LockTimeoutMs ==> TryLockStep(held, userId, s2, now).ok)
  {
    TryLockGrants(store, userId, s1, t0);
  }

  /** Only the holding session releases the lock, and the release frees it. */
  lemma ReleaseByOwner(store: Store, userId: string, sessionId: string, now: int)
    ensures ReleaseStep(store, userId, sessionId, now).ok <==>
      (Live(store, LockKey(userId), now) && store[LockKey(userId)].value == sessionId)
    ensures ReleaseStep(store, userId, sessionId, now).ok ==>
      var after := ReleaseStep(store, userId, sessionId, now).store;
      LockKey(userId) !in after && SessionKey(userId) !in after && !Locked(after, userId, now)
    ensures !ReleaseStep(store, userId, sessionId, now).ok ==>
      ReleaseStep(store, userId, sessionId, now).store == store
  {
  }

  /** Taking and then releasing in the same session, within the 10 s, leaves
      no lock behind. */
  lemma LockThenRelease(store: Store, userId: string, sessionId: string, t0: int, now: int)
    requires !Locked(store, userId, t0)
    requires t0 <= now < t0 + LockTimeoutMs
    ensures var held := TryLockStep(store, userId, sessionId, t0).store;
      ReleaseStep(held, userId, sessionId, now).ok &&
      !Locked(ReleaseStep(held, userId, sessionId, now).store, userId, now)
  {
    TryLockGrants(store, userId, sessionId, t0);
  }

  /** A release that comes only once the 10 s have passed finds no live lock:
      it fails and deletes nothing, so the session key stays for its 300 s
      although the lock key has lapsed. */
  lemma LateReleaseFails(store: Store, userId: string, sessionId: string, t0: int, now: int)
    requires !Locked(store, userId, t0)
    requires now >= t0 + LockTimeoutMs
    ensures var held := TryLockStep(store, userId, sessionId, t0).store;
      !ReleaseStep(held, userId, sessionId, now).ok &&
      ReleaseStep(held, userId, sessionId, now).store == held &&
      held[SessionKey(userId)] == Stored(sessionId, t0 + SessionTimeoutMs) &&
      (now < t0 + SessionTimeoutMs <==> Live(held, SessionKey(userId), now)) &&
      !Locked(held, userId, now)
  {
    TryLockGrants(store, userId, sessionId, t0);
  }

  /** After a forced release the user is not locked. */
  lemma ForceReleaseFrees(store: Store, userId: string, now: int)
    ensures !Locked(ForceReleaseStep(store, userId).store, userId, now)
    ensures SessionKey(userId) !in ForceReleaseStep(store, userId).store
  {
  }

  /** The keys an operation on `userId` may touch. */
  predicate OwnKey(userId: string, key: string) {
    key == LockKey(userId) || key == SessionKey(userId)
  }

  /** The two keys of another user are not the user's own keys. */
  lemma OtherUsersKeys(u: string, v: string)
    requires u != v
    ensures !OwnKey(u, LockKey(v)) && !OwnKey(u, SessionKey(v))
  {
    KeysDistinct(u, v);
    KeysDistinct(v, u);
  }

  /** No operation on one user changes any key that is not that user's. */
  lemma OnlyOwnKeysChange(store: Store, userId: string, sessionId: string, now: int, key: string)
    requires !OwnKey(userId, key)
    ensures (key in TryLockStep(store, userId, sessionId, now).store <==> key in store)
    ensures key in store ==> TryLockStep(store, userId, sessionId, now).store[key] == store[key]
    ensures (key in ReleaseStep(store, userId, sessionId, now).store <==> key in store)
    ensures key in store ==> ReleaseStep(store, userId, sessionId, now).store[key] == store[key]
    ensures (key in ForceReleaseStep(store, userId).store <==> key in store)
    ensures key in store ==> ForceReleaseStep(store, userId).store[key] == store[key]
  {
  }

  /** The lock table object. */
  class DistributedLockService {
    var store: Store

    constructor ()
      ensures store == map[]
    {
      store := map[];
    }

    method TryLock(userId: string, sessionId: string, now: int) returns (acquired: bool)
      modifies this
      ensures Step(acquired, store) == TryLockStep(old(store), userId, sessionId, now)
    {
      var lockKey := LockKey(userId);
      var sessionKey := SessionKey(userId);
      if Live(store, lockKey, now) {
        return false;
      }
      store := store[lockKey := Stored(sessionId, now + LockTimeoutMs)];
      store := store[sessionKey := Stored(sessionId, now + SessionTimeoutMs)];
      return true;
    }

    method ReleaseLock(userId: string, sessionId: string, now: int) returns (released: bool)
      modifies this
      ensures Step(released, store) == ReleaseStep(old(store), userId, sessionId, now)
    {
      var lockKey := LockKey(userId);
      var sessionKey := SessionKey(userId);
      var current := Get(store, lockKey, now);
      if current == Some(sessionId) {
        store := store - {lockKey};
        store := store - {sessionKey};
        return true;
      }
      return false;
    }

    method IsLocked(userId: string, now: int) returns (locked: bool)
      ensures locked <==> LockKey(userId) in store && now < store[LockKey(userId)].expiry
    {
      locked := Live(store, LockKey(userId), now);
    }

    method ForceReleaseLock(userId: string) returns (released: bool)
      modifies this
      ensures Step(released, store) == ForceReleaseStep(old(store), userId)
    {
      store := store - {LockKey(userId)};
      store := store - {SessionKey(userId)};
      return true;
    }
  }
}
