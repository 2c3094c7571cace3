/**
  The download counter of src/objects/counter.ts: a durable object
  whose storage maps a file path to the number of times it was fetched.
 */
module VisitCounter {

  /** One line of the ranking `list` returns. */
  datatype Entry = Entry(key: string, value: int)

  /** Every count is at least 1: a key is stored only by `add`. */
  ghost predicate Positive(storage: map<string, int>) {
    forall k :: k in storage ==> storage[k] >= 1
  }

  /** The ranking is ordered by count, largest first. */
  ghost predicate Descending(s: seq<Entry>) {
    forall i, j :: 0 <= i < j < |s| ==> s[i].value >= s[j].value
  }

  /** `s` lists every stored pair once and nothing else. */
  ghost predicate ListsExactly(s: seq<Entry>, storage: map<string, int>) {
    && |s| == |storage|
    && (forall e :: e in s <==> e.key in storage && storage[e.key] == e.value)
  }

  /** Insert `e` into a descending ranking, behind the entries with a count at least as large. */
  function Insert(e: Entry, s: seq<Entry>): (r: seq<Entry>)
    requires Descending(s)
    ensures Descending(r)
    ensures multiset(r) == multiset(s) + multiset{e}
  {
    if s == [] then [e]
    else if s[0].value >= e.value then
      assert Descending(s[1..]);
      var rest := Insert(e, s[1..]);
      InsertHead(s[0], e, s[1..], rest);
      assert s == [s[0]] + s[1..];
      [s[0]] + rest
    else
      assert forall j :: 0 <= j < |s| ==> e.value > s[j].value;
      [e] + s
  }

  /** Putting an entry with a count at least every other one in front keeps the ranking descending. */
  lemma InsertHead(head: Entry, e: Entry, tail: seq<Entry>, rest: seq<Entry>)
    requires Descending(tail) && Descending(rest)
    requires forall j :: 0 <= j < |tail| ==> head.value >= tail[j].value
    requires head.value >= e.value
    requires multiset(rest) == multiset(tail) + multiset{e}
    ensures Descending([head] + rest)
  {
    forall j | 0 <= j < |rest| ensures head.value >= rest[j].value {
      assert rest[j] in multiset(rest);
      if rest[j] != e {
        assert rest[j] in multiset(tail);
        var k :| 0 <= k < |tail| && tail[k] == rest[j];
      }
    }
  }

  /**
    `result.sort((a, b) => b.value - a.value)`: the same entries, ordered
    by count, largest first.
   */
  function SortByCount(s: seq<Entry>): (r: seq<Entry>)
    ensures Descending(r)
    ensures multiset(r) == multiset(s)
  {
    if s == [] then []
    else
      assert s == [s[0]] + s[1..];
      Insert(s[0], SortByCount(s[1..]))
  }

  class Counter {
    /** The durable storage: path to download count. */
    var storage: map<string, int>

    ghost predicate Valid()
      reads this
    {
      Positive(storage)
    }

    constructor (stored: map<string, int>)
      requires Positive(stored)
      ensures Valid() && storage == stored
    {
      storage := stored;
    }

    /** `add`: an absent key starts at 1, a present one goes up by 1; no other key changes. */
    method Add(key: string)
      requires Valid()
      modifies this
      ensures Valid()
      ensures key !in old(storage) ==> storage == old(storage)[key := 1]
      ensures key in old(storage) ==> storage == old(storage)[key := old(storage)[key] + 1]
    {
      var value := if key in storage then storage[key] else 0;
      storage := storage[key := value + 1];
    }

    /**
      `list`: one entry per stored key with its count, ranked by count,
      largest first. Storage is left as it was.
     */
    method List() returns (ranking: seq<Entry>)
      ensures ListsExactly(ranking, storage)
      ensures Descending(ranking)
    {
      var result: seq<Entry> := [];
      var rest := storage.Keys;
      while rest != {}
        invariant rest <= storage.Keys
        invariant |result| + |rest| == |storage|
        invariant forall e :: e in result <==> e.key in storage && e.key !in rest && storage[e.key] == e.value
        decreases |rest|
      {
        var key :| key in rest;
        result := result + [Entry(key, storage[key])];
        rest := rest - {key};
      }
      ranking := SortByCount(result);
      assert forall e :: e in ranking <==> e in multiset(result);
    }
  }
}
