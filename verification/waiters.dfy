/**
  The in-memory listener registry both login brokers keep:
  `listeners: Map<string, Array<(token) => void>>`. A parked `listen`
  call is identified by a number handed out in registration order; a
  call of a listener with a token is recorded as a `Delivery`.

  `RegistryOk` is the bookkeeping invariant behind "each registered
  listener is called at most once": waiters sit in one place of the
  registry, none of them has been called yet, and no waiter is ever
  called twice.
 */
module Waiters {

  type Waiter = nat

  datatype Delivery = Delivery(waiter: Waiter, token: string)

  type Registry = map<string, seq<Waiter>>

  /** `listeners.get(key) || []` */
  function Registered(listeners: Registry, key: string): (ws: seq<Waiter>)
    ensures key !in listeners ==> ws == []
    ensures key in listeners ==> ws == listeners[key]
  {
    if key in listeners then listeners[key] else []
  }

  /** `listeners.set(key, (listeners.get(key) || []).concat(w))` */
  function Register(listeners: Registry, key: string, w: Waiter): (r: Registry)
    ensures r.Keys == listeners.Keys + {key}
    ensures Registered(r, key) == Registered(listeners, key) + [w]
    ensures forall k :: k in listeners && k != key ==> r[k] == listeners[k]
  {
    listeners[key := Registered(listeners, key) + [w]]
  }

  /** `ws.forEach(listener => listener(token))`: one call per listener, in order. */
  function Notify(ws: seq<Waiter>, token: string): (calls: seq<Delivery>)
    ensures |calls| == |ws|
    ensures forall i :: 0 <= i < |ws| ==> calls[i] == Delivery(ws[i], token)
  {
    if ws == [] then [] else [Delivery(ws[0], token)] + Notify(ws[1..], token)
  }

  /** `w` is the waiter at position `i` of the list registered under `k`. */
  ghost predicate At(listeners: Registry, k: string, i: int, w: Waiter) {
    k in listeners && 0 <= i < |listeners[k]| && listeners[k][i] == w
  }

  /** No waiter sits in two places of the registry. */
  ghost predicate DistinctWaiters(listeners: Registry) {
    forall k1, i1, k2, i2, w: Waiter :: At(listeners, k1, i1, w) && At(listeners, k2, i2, w) ==> k1 == k2 && i1 == i2
  }

  /** Every waiter registered or already called was handed out before `bound`. */
  ghost predicate Below(listeners: Registry, log: seq<Delivery>, bound: nat) {
    && (forall k, i, w: Waiter :: At(listeners, k, i, w) ==> w < bound)
    && (forall j :: 0 <= j < |log| ==> log[j].waiter < bound)
  }

  /** No registered waiter has been called yet. */
  ghost predicate NotCalled(listeners: Registry, log: seq<Delivery>) {
    forall k, i, j :: 0 <= j < |log| ==> !At(listeners, k, i, log[j].waiter)
  }

  /** No waiter has been called twice. */
  ghost predicate CalledOnce(log: seq<Delivery>) {
    forall i, j :: 0 <= i < j < |log| ==> log[i].waiter != log[j].waiter
  }

  ghost predicate RegistryOk(listeners: Registry, log: seq<Delivery>, bound: nat) {
    DistinctWaiters(listeners) && Below(listeners, log, bound) && NotCalled(listeners, log) && CalledOnce(log)
  }

  /** The empty registry with nothing delivered is consistent. */
  lemma EmptyOk(bound: nat)
    ensures RegistryOk(map[], [], bound)
  {
  }

  /** Registering the next waiter number keeps the registry consistent. */
  lemma RegisterOk(listeners: Registry, log: seq<Delivery>, bound: nat, key: string)
    requires RegistryOk(listeners, log, bound)
    ensures RegistryOk(Register(listeners, key, bound), log, bound + 1)
  {
    var r := Register(listeners, key, bound);
    forall k, i, w: Waiter | At(r, k, i, w)
      ensures w < bound + 1
      ensures w == bound ==> k == key && i == |Registered(listeners, key)|
      ensures w != bound ==> At(listeners, k, i, w)
    {
      if k != key {
        assert At(listeners, k, i, w);
      } else if i < |Registered(listeners, key)| {
        assert At(listeners, k, i, w);
      }
    }
  }

  /** Removing a key's list and calling its waiters keeps the registry consistent. */
  lemma DrainOk(listeners: Registry, log: seq<Delivery>, bound: nat, key: string, token: string)
    requires RegistryOk(listeners, log, bound)
    ensures RegistryOk(listeners - {key}, log + Notify(Registered(listeners, key), token), bound)
  {
    var ws := Registered(listeners, key);
    var rest := listeners - {key};
    var log' := log + Notify(ws, token);
    forall k, i, w: Waiter | At(rest, k, i, w)
      ensures At(listeners, k, i, w)
    {
    }
    forall j | |log| <= j < |log'|
      ensures log'[j].waiter == ws[j - |log|]
      ensures At(listeners, key, j - |log|, ws[j - |log|])
    {
    }
    forall i, j | 0 <= i < j < |log'|
      ensures log'[i].waiter != log'[j].waiter
    {
      if j >= |log| && i >= |log| {
        assert At(listeners, key, i - |log|, log'[i].waiter);
        assert At(listeners, key, j - |log|, log'[j].waiter);
      } else if j >= |log| {
        assert At(listeners, key, j - |log|, log'[j].waiter);
      }
    }
    forall k, i, j | 0 <= j < |log'|
      ensures !At(rest, k, i, log'[j].waiter)
    {
      if j < |log| {
        assert !At(listeners, k, i, log[j].waiter);
      } else {
        assert At(listeners, key, j - |log|, log'[j].waiter);
      }
    }
  }

  /** Removing a key's whole list, without calling anyone, keeps the registry consistent. */
  lemma DropOk(listeners: Registry, log: seq<Delivery>, bound: nat, key: string)
    requires RegistryOk(listeners, log, bound)
    ensures RegistryOk(listeners - {key}, log, bound)
  {
    var rest := listeners - {key};
    forall k, i, w: Waiter | At(rest, k, i, w)
      ensures At(listeners, k, i, w)
    {
    }
  }

  // ---------------------------------------------------------------------
  // What the ten-minute timeout of one parked call does to the registry

  /**
    The timeout as the brokers write it, `listeners.delete(key)`: the
    whole list of the key goes, whoever registered it.
   */
  function TimeoutAsWritten(listeners: Registry, key: string): (r: Registry)
    ensures r.Keys == listeners.Keys - {key}
    ensures forall k :: k in listeners && k != key ==> r[k] == listeners[k]
  {
    listeners - {key}
  }

  /** `ws` without the waiter `w`, the others kept in order. */
  function Without(ws: seq<Waiter>, w: Waiter): (r: seq<Waiter>)
    ensures forall x :: x in r <==> x in ws && x != w
    ensures |r| <= |ws|
  {
    if ws == [] then []
    else if ws[0] == w then Without(ws[1..], w)
    else [ws[0]] + Without(ws[1..], w)
  }

  /** The timeout of waiter `w` as the design intends: only `w` is unregistered. */
  function Withdraw(listeners: Registry, key: string, w: Waiter): (r: Registry)
    ensures r.Keys == listeners.Keys
    ensures Registered(r, key) == Without(Registered(listeners, key), w)
    ensures forall k :: k in listeners && k != key ==> r[k] == listeners[k]
  {
    if key in listeners then listeners[key := Without(listeners[key], w)] else listeners
  }

  /**
    Two calls parked on one key, the first times out: as written, the
    second is unregistered too and the token of a later login never
    reaches it.
   */
  lemma TimeoutDropsLaterWaiter(key: string)
    ensures var both := Register(Register(map[], key, 0), key, 1);
      && Registered(both, key) == [0, 1]
      && Registered(TimeoutAsWritten(both, key), key) == []
      && Notify(Registered(TimeoutAsWritten(both, key), key), "token") == []
  {
  }

  /** With `Withdraw`, every other waiter of the key stays registered. */
  lemma WithdrawKeepsOthers(listeners: Registry, key: string, w: Waiter, other: Waiter)
    requires other in Registered(listeners, key) && other != w
    ensures other in Registered(Withdraw(listeners, key, w), key)
    ensures w !in Registered(Withdraw(listeners, key, w), key)
  {
  }

  /** Removing positions from a list keeps every remaining element at some earlier-or-equal position. */
  lemma {:induction false} WithoutFrom(ws: seq<Waiter>, w: Waiter, i: int)
    requires 0 <= i < |Without(ws, w)|
    ensures exists j :: i <= j < |ws| && ws[j] == Without(ws, w)[i]
    ensures forall j :: 0 <= j < |ws| && ws[j] == Without(ws, w)[i] ==> ws[j] != w
  {
    if ws[0] == w {
      WithoutFrom(ws[1..], w, i);
      var j :| i <= j < |ws[1..]| && ws[1..][j] == Without(ws[1..], w)[i];
      assert ws[j + 1] == Without(ws, w)[i];
    } else if i > 0 {
      WithoutFrom(ws[1..], w, i - 1);
      var j :| i - 1 <= j < |ws[1..]| && ws[1..][j] == Without(ws[1..], w)[i - 1];
      assert ws[j + 1] == Without(ws, w)[i];
    } else {
      assert ws[0] == Without(ws, w)[0];
    }
  }

  /** Distinct elements stay distinct after removing one value. */
  lemma {:induction false} WithoutDistinct(ws: seq<Waiter>, w: Waiter)
    requires forall a, b :: 0 <= a < b < |ws| ==> ws[a] != ws[b]
    ensures forall a, b :: 0 <= a < b < |Without(ws, w)| ==> Without(ws, w)[a] != Without(ws, w)[b]
  {
    if ws != [] {
      WithoutDistinct(ws[1..], w);
      if ws[0] != w {
        var r := Without(ws, w);
        assert r == [ws[0]] + Without(ws[1..], w);
        forall b | 0 < b < |r| ensures r[0] != r[b] {
          assert r[b] in Without(ws[1..], w);
          assert r[b] in ws[1..];
        }
      }
    }
  }

  /** A waiter registered after `Withdraw` was registered, under the same key, before it. */
  lemma WithdrawAt(listeners: Registry, key: string, w: Waiter, k: string, i: int, x: Waiter) returns (j: int)
    requires At(Withdraw(listeners, key, w), k, i, x)
    ensures At(listeners, k, j, x)
    ensures k != key ==> j == i
  {
    if k == key {
      WithoutFrom(listeners[key], w, i);
      j :| i <= j < |listeners[key]| && listeners[key][j] == Without(listeners[key], w)[i];
    } else {
      j := i;
    }
  }

  /** Withdrawing one waiter keeps the registry consistent. */
  lemma WithdrawOk(listeners: Registry, log: seq<Delivery>, bound: nat, key: string, w: Waiter)
    requires RegistryOk(listeners, log, bound)
    ensures RegistryOk(Withdraw(listeners, key, w), log, bound)
  {
    var r := Withdraw(listeners, key, w);
    if key in listeners {
      var ws := listeners[key];
      forall a, b | 0 <= a < b < |ws| ensures ws[a] != ws[b] {
        assert At(listeners, key, a, ws[a]) && At(listeners, key, b, ws[b]);
      }
      WithoutDistinct(ws, w);
      forall k1, i1, k2, i2, x: Waiter | At(r, k1, i1, x) && At(r, k2, i2, x)
        ensures k1 == k2 && i1 == i2
      {
        var j1 := WithdrawAt(listeners, key, w, k1, i1, x);
        var j2 := WithdrawAt(listeners, key, w, k2, i2, x);
        assert k1 == k2 && j1 == j2;
      }
      forall k, i, x: Waiter | At(r, k, i, x)
        ensures x < bound
      {
        var j := WithdrawAt(listeners, key, w, k, i, x);
      }
      forall k, i, n | 0 <= n < |log|
        ensures !At(r, k, i, log[n].waiter)
      {
        if At(r, k, i, log[n].waiter) {
          var j := WithdrawAt(listeners, key, w, k, i, log[n].waiter);
          assert false;
        }
      }
    }
  }
}
