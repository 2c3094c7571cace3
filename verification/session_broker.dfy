/**
  The login session broker: the `OAuth` durable object of
  src/objects/oauth.ts. It keeps one durable record per login session,
  keyed by a random handle, and an in-memory registry of parked `listen`
  calls waiting for that session's token.

  The outside world enters as parameters: the clock (`now`), the random
  handle of `begin` (a fresh key), GitHub's answers to the three requests
  of the code exchange (`GitHubReplies`) and the JWT signer (`sign`).
  The `Promise.any` race in `listen` is split into `Listen`, which
  registers a waiter, and a separate `Timeout` event.
 */
module SessionBroker {
  import opened Text
  import opened Waiters

  const SessionExpired := "您的会话已过期，请重新登录"
  const NotOrgMember := "您不是 byrdocs 组织的成员"

  /** Records older than this many milliseconds are swept; also the alarm period. */
  const HourMs := 3600 * 1000

  /** The durable record of one session. `data` and `token` are absent until given. */
  datatype State = State(service: string, login: bool, data: Option<string>, createdAt: int, token: Option<string>)

  /** The claims the broker signs into a token: `{ id, iat }`. */
  datatype Claims = Claims(id: string, iat: int)

  /** What a successful `login` or `loginBUPT` hands back to the route. */
  datatype Resolution = Resolution(token: string, service: string, data: Option<string>)

  /** What a `listen` call does at once: fail, answer, or park until a login or its timeout. */
  datatype Listened = Expired(message: string) | Ready(token: string) | Parked(waiter: Waiter)

  /**
    GitHub's answers to the code exchange: whether the token request was
    ok and its body text, the `access_token` and `error_description` of
    its JSON (the empty string when absent), whether the user request was
    ok, its body text and the user's `id` and `login`, and the status of
    the organisation-membership request.
   */
  datatype GitHubReplies = GitHubReplies(
    tokenOk: bool, tokenText: string,
    accessToken: string, errorDescription: string,
    userOk: bool, userText: string, userId: nat, userLogin: string,
    orgStatus: nat)

  /**
    The GitHub user id the code exchange yields for a session of
    `service`, or the message it throws. The membership check runs only
    for the main site's service.
   */
  function GitHubIdentity(service: string, g: GitHubReplies): (r: Result<nat, string>)
    ensures r.Success? <==>
      g.tokenOk && g.accessToken != "" && g.userOk && (service == "byrdocs" ==> g.orgStatus == 204)
    ensures r.Success? ==> r.value == g.userId
    ensures !g.tokenOk ==> r == Failure(g.tokenText)
    ensures g.tokenOk && g.accessToken == "" ==>
      r == Failure(if g.errorDescription != "" then g.errorDescription else UnknownError)
    ensures g.tokenOk && g.accessToken != "" && !g.userOk ==> r == Failure(g.userText)
    ensures g.tokenOk && g.accessToken != "" && g.userOk && r.Failure? ==>
      service == "byrdocs" && r.error == NotOrgMember
  {
    if !g.tokenOk then Failure(g.tokenText)
    else if g.accessToken == "" then
      Failure(if g.errorDescription != "" then g.errorDescription else UnknownError)
    else if !g.userOk then Failure(g.userText)
    else if service == "byrdocs" && g.orgStatus != 204 then Failure(NotOrgMember)
    else Success(g.userId)
  }

  /** A service other than the main site's never depends on the membership answer. */
  lemma OrgCheckOnlyForMainSite(service: string, g: GitHubReplies, status: nat)
    requires service != "byrdocs"
    ensures GitHubIdentity(service, g) == GitHubIdentity(service, g.(orgStatus := status))
  {
  }

  /** The identity claim of a GitHub user: `GitHub-${id}`. */
  function GitHubSubject(id: nat): (s: string)
    ensures StartsWith(s, "GitHub-") && s[7..] == Decimal(id)
  {
    "GitHub-" + Decimal(id)
  }

  /** The identity claim of a campus account: `BUPT-${username}`. */
  function BuptSubject(username: string): (s: string)
    ensures StartsWith(s, "BUPT-") && s[5..] == username
  {
    "BUPT-" + username
  }

  /**
    Identity claims never collide: two GitHub users, two campus accounts,
    or a GitHub user and a campus account get different claims.
   */
  lemma SubjectsDistinct(id1: nat, id2: nat, u1: string, u2: string)
    ensures GitHubSubject(id1) == GitHubSubject(id2) ==> id1 == id2
    ensures BuptSubject(u1) == BuptSubject(u2) ==> u1 == u2
    ensures GitHubSubject(id1) != BuptSubject(u1)
  {
    DecimalInjective(id1, id2);
    assert GitHubSubject(id1)[0] != BuptSubject(u1)[0];
  }

  /** `Math.floor(Date.now() / 1000)`: the clock in whole seconds. */
  function IssuedAt(nowMs: int): (s: int)
    ensures s * 1000 <= nowMs < s * 1000 + 1000
  {
    nowMs / 1000
  }

  /** The record a successful login leaves: resolved, with the new token. */
  function Resolved(s: State, token: string): (r: State)
    ensures r.login && r.token == Some(token)
    ensures r.service == s.service && r.data == s.data && r.createdAt == s.createdAt
  {
    s.(login := true, token := Some(token))
  }

  /** A record is swept once it is older than an hour, resolved or not. */
  predicate IsStale(s: State, now: int) {
    now - s.createdAt > HourMs
  }

  /** The records the sweep keeps. */
  function Sweep(store: map<string, State>, now: int): (kept: map<string, State>)
    ensures kept.Keys <= store.Keys
    ensures forall k :: k in store ==> (k in kept <==> !IsStale(store[k], now))
    ensures forall k :: k in kept ==> kept[k] == store[k]
  {
    map k | k in store && !IsStale(store[k], now) :: store[k]
  }

  /** A later sweep removes at least what an earlier one removed: sweeping at `t1` then `t2` is sweeping at `t2`. */
  lemma SweepLater(store: map<string, State>, t1: int, t2: int)
    requires t1 <= t2
    ensures Sweep(Sweep(store, t1), t2) == Sweep(store, t2)
  {
  }

  /** Every stored record is resolved exactly when it carries a token. */
  ghost predicate TokensConsistent(store: map<string, State>) {
    forall k :: k in store ==> (store[k].login <==> store[k].token.Some?)
  }

  class OAuth {
    /** The durable records, `ctx.storage`. */
    var storage: map<string, State>
    /** The parked `listen` calls per handle, `listeners`. */
    var listeners: Registry
    /** The time the next sweep is scheduled for, `setAlarm`. */
    var alarmAt: int
    /** The number the next parked call will get. */
    var nextWaiter: Waiter
    /** Every listener call made so far, in order. */
    ghost var delivered: seq<Delivery>
    /** Every handle ever handed out; a handle is never reused. */
    ghost var minted: set<string>

    ghost predicate Valid()
      reads this
    {
      && TokensConsistent(storage)
      && storage.Keys <= minted
      && RegistryOk(listeners, delivered, nextWaiter)
    }

    /** The object is (re)loaded over the durable records it already holds and arms the first sweep. */
    constructor (stored: map<string, State>, now: int)
      requires TokensConsistent(stored)
      ensures Valid()
      ensures storage == stored && listeners == map[] && delivered == []
      ensures alarmAt == now + HourMs
    {
      storage := stored;
      listeners := map[];
      alarmAt := now + HourMs;
      nextWaiter := 0;
      delivered := [];
      minted := stored.Keys;
      EmptyOk(0);
    }

    /** `alarm`: deletes exactly the records older than an hour and re-arms an hour after `rearmNow`. */
    method Alarm(now: int, rearmNow: int)
      requires Valid()
      modifies this
      ensures Valid()
      ensures storage == Sweep(old(storage), now)
      ensures alarmAt == rearmNow + HourMs
      ensures listeners == old(listeners) && delivered == old(delivered) && nextWaiter == old(nextWaiter)
      ensures minted == old(minted)
    {
      var pending := storage.Keys;
      while pending != {}
        invariant pending <= old(storage).Keys
        invariant storage == map k | k in old(storage) && (k in pending || !IsStale(old(storage)[k], now)) :: old(storage)[k]
        invariant listeners == old(listeners) && delivered == old(delivered) && nextWaiter == old(nextWaiter)
        invariant minted == old(minted)
        decreases |pending|
      {
        var key :| key in pending;
        if IsStale(storage[key], now) {
          storage := storage - {key};
        }
        pending := pending - {key};
      }
      alarmAt := rearmNow + HourMs;
    }

    /** `begin`: stores an unresolved record under the fresh handle `uuid` and returns it. */
    method Begin(service: string, data: Option<string>, uuid: string, now: int) returns (handle: string)
      requires Valid()
      requires uuid !in minted
      modifies this
      ensures Valid()
      ensures handle == uuid && handle !in old(storage)
      ensures storage == old(storage)[handle := State(service, false, data, now, None)]
      ensures listeners == old(listeners) && delivered == old(delivered) && nextWaiter == old(nextWaiter)
      ensures minted == old(minted) + {handle} && alarmAt == old(alarmAt)
    {
      storage := storage[uuid := State(service, false, data, now, None)];
      minted := minted + {uuid};
      handle := uuid;
    }

    /** `get`: the record of a handle, or the session-expired error. */
    method Get(uuid: string) returns (r: Result<State, string>)
      ensures r.Success? <==> uuid in storage
      ensures r.Success? ==> r.value == storage[uuid]
      ensures r.Failure? ==> r.error == SessionExpired
    {
      if uuid in storage {
        r := Success(storage[uuid]);
      } else {
        r := Failure(SessionExpired);
      }
    }

    /**
      The common tail of `login` and `loginBUPT`: sign the claim, resolve
      the record (whatever it held before), then drop the handle's
      listener list and call each listener once, in order, with the token.
     */
    method Settle(uuid: string, subject: string, now: int, sign: Claims -> string) returns (res: Resolution)
      requires Valid() && uuid in storage
      modifies this
      ensures Valid()
      ensures res == Resolution(sign(Claims(subject, IssuedAt(now))), old(storage)[uuid].service, old(storage)[uuid].data)
      ensures storage == old(storage)[uuid := Resolved(old(storage)[uuid], res.token)]
      ensures listeners == old(listeners) - {uuid}
      ensures delivered == old(delivered) + Notify(Registered(old(listeners), uuid), res.token)
      ensures nextWaiter == old(nextWaiter) && minted == old(minted) && alarmAt == old(alarmAt)
    {
      var token := sign(Claims(subject, IssuedAt(now)));
      var state := storage[uuid];
      storage := storage[uuid := Resolved(state, token)];
      var waiting := Registered(listeners, uuid);
      DrainOk(listeners, delivered, nextWaiter, uuid, token);
      listeners := listeners - {uuid};
      delivered := delivered + Notify(waiting, token);
      res := Resolution(token, state.service, state.data);
    }

    /**
      `login`: the GitHub code exchange for the session `uuid`. A missing
      record or any provider failure throws before anything changes.
     */
    method Login(code: string, uuid: string, replies: GitHubReplies, now: int, sign: Claims -> string)
      returns (r: Result<Resolution, string>)
      requires Valid()
      modifies this
      ensures Valid()
      ensures uuid !in old(storage) ==> r == Failure(SessionExpired) && unchanged(this)
      ensures uuid in old(storage) && GitHubIdentity(old(storage)[uuid].service, replies).Failure? ==>
        r == Failure(GitHubIdentity(old(storage)[uuid].service, replies).error) && unchanged(this)
      ensures uuid in old(storage) && GitHubIdentity(old(storage)[uuid].service, replies).Success? ==>
        var token := sign(Claims(GitHubSubject(replies.userId), IssuedAt(now)));
        && r == Success(Resolution(token, old(storage)[uuid].service, old(storage)[uuid].data))
        && storage == old(storage)[uuid := Resolved(old(storage)[uuid], token)]
        && listeners == old(listeners) - {uuid}
        && delivered == old(delivered) + Notify(Registered(old(listeners), uuid), token)
        && nextWaiter == old(nextWaiter) && minted == old(minted) && alarmAt == old(alarmAt)
    {
      if uuid !in storage {
        return Failure(SessionExpired);
      }
      var identity := GitHubIdentity(storage[uuid].service, replies);
      if identity.Failure? {
        return Failure(identity.error);
      }
      var res := Settle(uuid, GitHubSubject(identity.value), now, sign);
      r := Success(res);
    }

    /** `loginBUPT`: resolves the session `uuid` for an already verified campus account. */
    method LoginBupt(username: string, uuid: string, now: int, sign: Claims -> string)
      returns (r: Result<Resolution, string>)
      requires Valid()
      modifies this
      ensures Valid()
      ensures uuid !in old(storage) ==> r == Failure(SessionExpired) && unchanged(this)
      ensures uuid in old(storage) ==>
        var token := sign(Claims(BuptSubject(username), IssuedAt(now)));
        && r == Success(Resolution(token, old(storage)[uuid].service, old(storage)[uuid].data))
        && storage == old(storage)[uuid := Resolved(old(storage)[uuid], token)]
        && listeners == old(listeners) - {uuid}
        && delivered == old(delivered) + Notify(Registered(old(listeners), uuid), token)
        && nextWaiter == old(nextWaiter) && minted == old(minted) && alarmAt == old(alarmAt)
    {
      if uuid !in storage {
        return Failure(SessionExpired);
      }
      var res := Settle(uuid, BuptSubject(username), now, sign);
      r := Success(res);
    }

    /**
      `listen`: a resolved session answers with its token at once; an
      unresolved one registers one more waiter behind the earlier ones.
     */
    method Listen(uuid: string) returns (r: Listened)
      requires Valid()
      modifies this
      ensures Valid()
      ensures uuid !in old(storage) ==> r == Expired(SessionExpired) && unchanged(this)
      ensures uuid in old(storage) && old(storage)[uuid].login ==>
        old(storage)[uuid].token.Some? && r == Ready(old(storage)[uuid].token.value) && unchanged(this)
      ensures uuid in old(storage) && !old(storage)[uuid].login ==>
        && r == Parked(old(nextWaiter))
        && listeners == Register(old(listeners), uuid, old(nextWaiter))
        && nextWaiter == old(nextWaiter) + 1
        && storage == old(storage) && delivered == old(delivered)
        && minted == old(minted) && alarmAt == old(alarmAt)
    {
      if uuid !in storage {
        return Expired(SessionExpired);
      }
      var state := storage[uuid];
      if state.login {
        return Ready(state.token.value);
      }
      RegisterOk(listeners, delivered, nextWaiter, uuid);
      listeners := Register(listeners, uuid, nextWaiter);
      r := Parked(nextWaiter);
      nextWaiter := nextWaiter + 1;
    }

    /**
      The ten-minute timer of a parked `listen` firing, as written: the
      handle's whole listener list is deleted and the parked call yields
      no token. Records and other handles' lists are untouched.
     */
    method Timeout(uuid: string)
      requires Valid()
      modifies this
      ensures Valid()
      ensures listeners == TimeoutAsWritten(old(listeners), uuid)
      ensures storage == old(storage) && delivered == old(delivered) && nextWaiter == old(nextWaiter)
      ensures minted == old(minted) && alarmAt == old(alarmAt)
    {
      DropOk(listeners, delivered, nextWaiter, uuid);
      listeners := listeners - {uuid};
    }

    /**
      The timer of the parked call `w` firing as the design intends: only
      `w` is unregistered, later calls on the same handle stay parked.
     */
    method WithdrawOnTimeout(uuid: string, w: Waiter)
      requires Valid()
      modifies this
      ensures Valid()
      ensures listeners == Withdraw(old(listeners), uuid, w)
      ensures storage == old(storage) && delivered == old(delivered) && nextWaiter == old(nextWaiter)
      ensures minted == old(minted) && alarmAt == old(alarmAt)
    {
      WithdrawOk(listeners, delivered, nextWaiter, uuid, w);
      listeners := Withdraw(listeners, uuid, w);
    }
  }

  /**
    A `listen` right after `begin` parks: it never answers with a token
    before the session is resolved.
   */
  method ListenAfterBeginParks(b: OAuth, service: string, data: Option<string>, uuid: string, now: int)
    returns (r: Listened)
    requires b.Valid() && uuid !in b.minted
    modifies b
    ensures b.Valid()
    ensures r.Parked?
  {
    var h := b.Begin(service, data, uuid, now);
    r := b.Listen(h);
  }

  /**
    A `listen` right after a successful `loginBUPT` answers at once with
    the very token the login produced, claiming `BUPT-<username>`.
   */
  method ListenAfterLoginAnswers(b: OAuth, username: string, uuid: string, now: int, sign: Claims -> string)
    returns (login: Result<Resolution, string>, r: Listened)
    requires b.Valid() && uuid in b.storage
    modifies b
    ensures b.Valid()
    ensures login.Success? && r == Ready(login.value.token)
    ensures login.value.token == sign(Claims(BuptSubject(username), IssuedAt(now)))
  {
    login := b.LoginBupt(username, uuid, now, sign);
    r := b.Listen(uuid);
  }

  /**
    Every call parked on a handle when the login succeeds receives the
    token exactly once, in the order the calls were parked: the calls
    already waiting first, then two more parked now.
   */
  method ParkedCallsAllReceiveToken(b: OAuth, uuid: string, now: int, sign: Claims -> string)
    returns (first: Listened, second: Listened, login: Result<Resolution, string>)
    requires b.Valid() && uuid in b.storage && !b.storage[uuid].login
    modifies b
    ensures b.Valid()
    ensures first.Parked? && second.Parked? && login.Success? && first.waiter != second.waiter
    ensures b.delivered ==
      old(b.delivered) + Notify(old(Registered(b.listeners, uuid)) + [first.waiter, second.waiter], login.value.token)
    ensures uuid !in b.listeners
  {
    first := b.Listen(uuid);
    second := b.Listen(uuid);
    login := b.LoginBupt("2021000001", uuid, now, sign);
  }

  /** A failed code exchange leaves the session unresolved: a later `listen` still parks. */
  method FailedLoginKeepsPending(b: OAuth, uuid: string, replies: GitHubReplies, now: int, sign: Claims -> string)
    returns (login: Result<Resolution, string>, r: Listened)
    requires b.Valid() && uuid in b.storage && !b.storage[uuid].login
    requires !replies.tokenOk
    modifies b
    ensures b.Valid()
    ensures login == Failure(replies.tokenText) && r.Parked?
  {
    login := b.Login("badcode", uuid, replies, now, sign);
    r := b.Listen(uuid);
  }

  /** After the sweep, a session older than an hour is gone: `listen` reports it expired. */
  method StaleSessionExpires(b: OAuth, uuid: string, now: int)
    returns (r: Listened)
    requires b.Valid() && uuid in b.storage && IsStale(b.storage[uuid], now)
    modifies b
    ensures b.Valid()
    ensures r == Expired(SessionExpired)
  {
    b.Alarm(now, now);
    r := b.Listen(uuid);
  }
}
