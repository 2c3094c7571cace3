/**
  The earlier login broker of src/oauth.ts: the same durable object with
  records that carry only `{login, createdAt, token?}`, no service tag,
  no membership check and no campus login. Its token signs the numeric
  GitHub id itself, `{ id }`, and `login` returns only the token.
 */
module LegacyBroker {
  import opened Text
  import opened Waiters

  const SessionExpired := "您的会话已过期，请重新登录"
  const HourMs := 3600 * 1000

  datatype State = State(login: bool, createdAt: int, token: Option<string>)

  /** What a `listen` call does at once. */
  datatype Listened = Expired(message: string) | Ready(token: string) | Parked(waiter: Waiter)

  /**
    GitHub's answers to the token and user requests: ok flags and body
    texts, the `access_token` and `error_description` (empty when absent)
    and the user's numeric `id`.
   */
  datatype GitHubReplies = GitHubReplies(
    tokenOk: bool, tokenText: string,
    accessToken: string, errorDescription: string,
    userOk: bool, userText: string, userId: nat)

  /** The GitHub user id the exchange yields, or the message it throws; no membership check. */
  function GitHubIdentity(g: GitHubReplies): (r: Result<nat, string>)
    ensures r.Success? <==> g.tokenOk && g.accessToken != "" && g.userOk
    ensures r.Success? ==> r.value == g.userId
    ensures !g.tokenOk ==> r == Failure(g.tokenText)
    ensures g.tokenOk && g.accessToken == "" ==>
      r == Failure(if g.errorDescription != "" then g.errorDescription else UnknownError)
    ensures g.tokenOk && g.accessToken != "" && !g.userOk ==> r == Failure(g.userText)
  {
    if !g.tokenOk then Failure(g.tokenText)
    else if g.accessToken == "" then
      Failure(if g.errorDescription != "" then g.errorDescription else UnknownError)
    else if !g.userOk then Failure(g.userText)
    else Success(g.userId)
  }

  predicate IsStale(s: State, now: int) {
    now - s.createdAt > HourMs
  }

  /** The records the sweep keeps: those at most an hour old. */
  function Sweep(store: map<string, State>, now: int): (kept: map<string, State>)
    ensures kept.Keys <= store.Keys
    ensures forall k :: k in store ==> (k in kept <==> !IsStale(store[k], now))
    ensures forall k :: k in kept ==> kept[k] == store[k]
  {
    map k | k in store && !IsStale(store[k], now) :: store[k]
  }

  ghost predicate TokensConsistent(store: map<string, State>) {
    forall k :: k in store ==> (store[k].login <==> store[k].token.Some?)
  }

  class OAuth {
    var storage: map<string, State>
    var listeners: Registry
    var alarmAt: int
    var nextWaiter: Waiter
    ghost var delivered: seq<Delivery>
    ghost var minted: set<string>

    ghost predicate Valid()
      reads this
    {
      && TokensConsistent(storage)
      && storage.Keys <= minted
      && RegistryOk(listeners, delivered, nextWaiter)
    }

    constructor (stored: map<string, State>, now: int)
      requires TokensConsistent(stored)
      ensures Valid()
      ensures storage == stored && listeners == map[] && delivered == []
      ensures alarmAt == now + HourMs
    {
      storage := stored;
      listeners := map[];
      alarmAt := now + HourMs;
      nextWaiter := 0;
      delivered := [];
      minted := stored.Keys;
      EmptyOk(0);
    }

    /** `alarm`: deletes exactly the records older than an hour (strictly) and re-arms. */
    method Alarm(now: int, rearmNow: int)
      requires Valid()
      modifies this
      ensures Valid()
      ensures storage == Sweep(old(storage), now)
      ensures alarmAt == rearmNow + HourMs
      ensures listeners == old(listeners) && delivered == old(delivered) && nextWaiter == old(nextWaiter)
      ensures minted == old(minted)
    {
      var pending := storage.Keys;
      while pending != {}
        invariant pending <= old(storage).Keys
        invariant storage == map k | k in old(storage) && (k in pending || !IsStale(old(storage)[k], now)) :: old(storage)[k]
        invariant listeners == old(listeners) && delivered == old(delivered) && nextWaiter == old(nextWaiter)
        invariant minted == old(minted)
        decreases |pending|
      {
        var key :| key in pending;
        if IsStale(storage[key], now) {
          storage := storage - {key};
        }
        pending := pending - {key};
      }
      alarmAt := rearmNow + HourMs;
    }

    /** `begin`: stores `{login: false, createdAt: now}` under the fresh handle `uuid`. */
    method Begin(uuid: string, now: int) returns (handle: string)
      requires Valid()
      requires uuid !in minted
      modifies this
      ensures Valid()
      ensures handle == uuid && handle !in old(storage)
      ensures storage == old(storage)[handle := State(false, now, None)]
      ensures listeners == old(listeners) && delivered == old(delivered) && nextWaiter == old(nextWaiter)
      ensures minted == old(minted) + {handle} && alarmAt == old(alarmAt)
    {
      storage := storage[uuid := State(false, now, None)];
      minted := minted + {uuid};
      handle := uuid;
    }

    /**
      `login`: the GitHub code exchange; on success the token signs the
      numeric id, the record is resolved and the handle's listeners are
      each called once, in order.
     */
    method Login(code: string, uuid: string, replies: GitHubReplies, sign: nat -> string)
      returns (r: Result<string, string>)
      requires Valid()
      modifies this
      ensures Valid()
      ensures uuid !in old(storage) ==> r == Failure(SessionExpired) && unchanged(this)
      ensures uuid in old(storage) && GitHubIdentity(replies).Failure? ==>
        r == Failure(GitHubIdentity(replies).error) && unchanged(this)
      ensures uuid in old(storage) && GitHubIdentity(replies).Success? ==>
        var token := sign(replies.userId);
        && r == Success(token)
        && storage == old(storage)[uuid := old(storage)[uuid].(login := true, token := Some(token))]
        && listeners == old(listeners) - {uuid}
        && delivered == old(delivered) + Notify(Registered(old(listeners), uuid), token)
        && nextWaiter == old(nextWaiter) && minted == old(minted) && alarmAt == old(alarmAt)
    {
      if uuid !in storage {
        return Failure(SessionExpired);
      }
      var identity := GitHubIdentity(replies);
      if identity.Failure? {
        return Failure(identity.error);
      }
      var token := sign(identity.value);
      storage := storage[uuid := storage[uuid].(login := true, token := Some(token))];
      var waiting := Registered(listeners, uuid);
      DrainOk(listeners, delivered, nextWaiter, uuid, token);
      listeners := listeners - {uuid};
      delivered := delivered + Notify(waiting, token);
      r := Success(token);
    }

    /** `listen`: the stored token when resolved, otherwise one more parked waiter. */
    method Listen(uuid: string) returns (r: Listened)
      requires Valid()
      modifies this
      ensures Valid()
      ensures uuid !in old(storage) ==> r == Expired(SessionExpired) && unchanged(this)
      ensures uuid in old(storage) && old(storage)[uuid].login ==>
        old(storage)[uuid].token.Some? && r == Ready(old(storage)[uuid].token.value) && unchanged(this)
      ensures uuid in old(storage) && !old(storage)[uuid].login ==>
        && r == Parked(old(nextWaiter))
        && listeners == Register(old(listeners), uuid, old(nextWaiter))
        && nextWaiter == old(nextWaiter) + 1
        && storage == old(storage) && delivered == old(delivered)
        && minted == old(minted) && alarmAt == old(alarmAt)
    {
      if uuid !in storage {
        return Expired(SessionExpired);
      }
      var state := storage[uuid];
      if state.login {
        return Ready(state.token.value);
      }
      RegisterOk(listeners, delivered, nextWaiter, uuid);
      listeners := Register(listeners, uuid, nextWaiter);
      r := Parked(nextWaiter);
      nextWaiter := nextWaiter + 1;
    }

    /** The timer of a parked `listen` firing: the handle's whole listener list is deleted. */
    method Timeout(uuid: string)
      requires Valid()
      modifies this
      ensures Valid()
      ensures listeners == TimeoutAsWritten(old(listeners), uuid)
      ensures storage == old(storage) && delivered == old(delivered) && nextWaiter == old(nextWaiter)
      ensures minted == old(minted) && alarmAt == old(alarmAt)
    {
      DropOk(listeners, delivered, nextWaiter, uuid);
      listeners := listeners - {uuid};
    }
  }
}
