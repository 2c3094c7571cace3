/**
  Small value types and string helpers shared by the rest of the model:
  optional values, results, prefix/suffix tests, JavaScript's
  `split`/`join` on a non-empty separator, decimal rendering of numbers
  (template literals such as `GitHub-${id}`) and the error-text fallback
  `(e as Error).message || e?.toString() || "未知错误"` used by every route.
 */
module Text {

  datatype Option<+T> = None | Some(value: T)

  datatype Result<+R, +E> = Success(value: R) | Failure(error: E)

  /** The text shown when a thrown value carries neither a message nor a string form. */
  const UnknownError := "未知错误"

  /** A thrown value as the routes see it: its `message` and its `toString()`. */
  datatype Thrown = Thrown(message: string, text: string)

  /** `message || toString() || "未知错误"`: the first non-empty of the three. */
  function Describe(e: Thrown): (r: string)
    ensures r != ""
    ensures e.message != "" ==> r == e.message
    ensures e.message == "" && e.text != "" ==> r == e.text
    ensures r in {e.message, e.text, UnknownError}
  {
    if e.message != "" then e.message
    else if e.text != "" then e.text
    else UnknownError
  }

  predicate StartsWith(s: string, prefix: string) {
    |prefix| <= |s| && s[..|prefix|] == prefix
  }

  predicate EndsWith(s: string, suffix: string) {
    |suffix| <= |s| && s[|s| - |suffix|..] == suffix
  }

  /** `s.slice(n)` for a non-negative `n`: empty once `n` passes the end. */
  function Drop(s: string, n: nat): (r: string)
    ensures n <= |s| ==> s == s[..n] + r
    ensures n >= |s| ==> r == ""
  {
    if n <= |s| then s[n..] else ""
  }

  // ---------------------------------------------------------------------
  // split / join

  /**
    `s.split(sep)` for a non-empty separator: the pieces between the
    non-overlapping occurrences of `sep`, scanned from the left. There is
    always at least one piece (`"".split(";")` is `[""]`).
   */
  function Split(s: string, sep: string): (parts: seq<string>)
    requires sep != ""
    ensures |parts| >= 1
    decreases |s|
  {
    if s == [] then [""]
    else if StartsWith(s, sep) then [""] + Split(s[|sep|..], sep)
    else
      var rest := Split(s[1..], sep);
      [[s[0]] + rest[0]] + rest[1..]
  }

  /** `parts.join(sep)`. */
  function Join(parts: seq<string>, sep: string): string
  {
    if parts == [] then ""
    else if |parts| == 1 then parts[0]
    else parts[0] + sep + Join(parts[1..], sep)
  }

  /** Every occurrence of `marker`, scanned from the left, replaced by `with`. */
  function ReplaceAll(s: string, marker: string, with: string): string
    requires marker != ""
    decreases |s|
  {
    if s == [] then ""
    else if StartsWith(s, marker) then with + ReplaceAll(s[|marker|..], marker, with)
    else [s[0]] + ReplaceAll(s[1..], marker, with)
  }

  /** `marker` occurs somewhere in `s`. */
  predicate Contains(s: string, marker: string) {
    exists i :: 0 <= i <= |s| && StartsWith(s[i..], marker)
  }

  /** The longest prefix of `s` in which `c` does not occur. */
  function TakeUntil(s: string, c: char): (r: string)
    ensures StartsWith(s, r) && c !in r
    ensures |r| < |s| ==> s[|r|] == c
  {
    if s == [] || s[0] == c then "" else [s[0]] + TakeUntil(s[1..], c)
  }

  lemma JoinCons(p: string, parts: seq<string>, sep: string)
    requires |parts| >= 1
    ensures Join([p] + parts, sep) == p + sep + Join(parts, sep)
  {
    assert ([p] + parts)[1..] == parts;
  }

  lemma JoinHeadExtend(c: char, parts: seq<string>, sep: string)
    requires |parts| >= 1
    ensures Join([[c] + parts[0]] + parts[1..], sep) == [c] + Join(parts, sep)
  {
    if |parts| > 1 {
      JoinCons([c] + parts[0], parts[1..], sep);
      JoinCons(parts[0], parts[1..], sep);
      assert parts == [parts[0]] + parts[1..];
    }
  }

  /** Joining the pieces of a split with the same separator restores the text. */
  lemma {:induction false} JoinSplit(s: string, sep: string)
    requires sep != ""
    ensures Join(Split(s, sep), sep) == s
    decreases |s|
  {
    if s == [] {
    } else if StartsWith(s, sep) {
      var tail := s[|sep|..];
      JoinSplit(tail, sep);
      JoinCons("", Split(tail, sep), sep);
      calc {
        Join(Split(s, sep), sep);
        Join([""] + Split(tail, sep), sep);
        "" + sep + Join(Split(tail, sep), sep);
        sep + tail;
        { assert s == s[..|sep|] + tail; }
        s;
      }
    } else {
      var tail := s[1..];
      JoinSplit(tail, sep);
      JoinHeadExtend(s[0], Split(tail, sep), sep);
      calc {
        Join(Split(s, sep), sep);
        Join([[s[0]] + Split(tail, sep)[0]] + Split(tail, sep)[1..], sep);
        [s[0]] + Join(Split(tail, sep), sep);
        [s[0]] + tail;
        s;
      }
    }
  }

  /** Splitting on a marker and joining with `with` is replacing every marker by `with`. */
  lemma {:induction false} SplitJoinIsReplaceAll(s: string, marker: string, with: string)
    requires marker != ""
    ensures Join(Split(s, marker), with) == ReplaceAll(s, marker, with)
    decreases |s|
  {
    if s == [] {
    } else if StartsWith(s, marker) {
      var tail := s[|marker|..];
      var parts := Split(tail, marker);
      SplitJoinIsReplaceAll(tail, marker, with);
      JoinCons("", parts, with);
      assert Split(s, marker) == [""] + parts;
      assert "" + with + Join(parts, with) == with + Join(parts, with);
    } else {
      var parts := Split(s[1..], marker);
      SplitJoinIsReplaceAll(s[1..], marker, with);
      JoinHeadExtend(s[0], parts, with);
      assert Split(s, marker) == [[s[0]] + parts[0]] + parts[1..];
    }
  }

  /** With no occurrence of the marker, replacing changes nothing. */
  lemma {:induction false} ReplaceAllAbsent(s: string, marker: string, with: string)
    requires marker != ""
    requires !Contains(s, marker)
    ensures ReplaceAll(s, marker, with) == s
    decreases |s|
  {
    if s != [] {
      assert s[0..] == s;
      assert !StartsWith(s, marker);
      assert !Contains(s[1..], marker) by {
        forall i | 0 <= i <= |s[1..]|
          ensures !StartsWith(s[1..][i..], marker)
        {
          assert s[1..][i..] == s[i + 1..];
        }
      }
      ReplaceAllAbsent(s[1..], marker, with);
    }
  }

  /** The first piece of a split on one character is the text before that character. */
  lemma {:induction false} SplitOnCharFirst(s: string, c: char)
    ensures Split(s, [c])[0] == TakeUntil(s, c)
    ensures |TakeUntil(s, c)| < |s| ==>
      Split(s, [c])[1..] == Split(s[|TakeUntil(s, c)| + 1..], [c])
    decreases |s|
  {
    if s != [] && s[0] != c {
      SplitOnCharFirst(s[1..], c);
      if |TakeUntil(s, c)| < |s| {
        assert s[1..][|TakeUntil(s[1..], c)| + 1..] == s[|TakeUntil(s, c)| + 1..];
      }
    }
  }

  // ---------------------------------------------------------------------
  // decimal numbers

  predicate IsDigit(ch: char) { '0' <= ch <= '9' }

  function DigitChar(d: nat): (ch: char)
    requires d < 10
    ensures IsDigit(ch)
  {
    "0123456789"[d]
  }

  function DigitValue(ch: char): (d: nat)
    requires IsDigit(ch)
    ensures d < 10
  {
    (ch as int - '0' as int) as nat
  }

  /** The decimal text of `n`, as `${n}` or `n.toString()` writes a non-negative integer. */
  function Decimal(n: nat): (s: string)
    ensures s != [] && forall i :: 0 <= i < |s| ==> IsDigit(s[i])
  {
    if n < 10 then [DigitChar(n)] else Decimal(n / 10) + [DigitChar(n % 10)]
  }

  /** The value of a string of decimal digits; the inverse of `Decimal`. */
  function DecimalValue(s: string): nat
    requires forall i :: 0 <= i < |s| ==> IsDigit(s[i])
  {
    if s == [] then 0 else 10 * DecimalValue(s[..|s| - 1]) + DigitValue(s[|s| - 1])
  }

  /** Reading back the decimal text of a number gives the number. */
  lemma {:induction false} DecimalRoundTrip(n: nat)
    ensures DecimalValue(Decimal(n)) == n
  {
    if n >= 10 {
      DecimalRoundTrip(n / 10);
      var s := Decimal(n);
      assert s[..|s| - 1] == Decimal(n / 10);
    }
  }

  /** Different numbers have different decimal texts. */
  lemma DecimalInjective(a: nat, b: nat)
    ensures Decimal(a) == Decimal(b) ==> a == b
  {
    DecimalRoundTrip(a);
    DecimalRoundTrip(b);
  }

  /** JavaScript's `String(n)` for an integer, with a leading `-` when negative. */
  function IntText(n: int): (s: string)
    ensures s != []
    ensures n >= 0 ==> s == Decimal(n)
    ensures n < 0 ==> s[0] == '-'
  {
    if n >= 0 then Decimal(n) else "-" + Decimal(-n)
  }

  // ---------------------------------------------------------------------
  // Query strings

  /** The pairs of a `URLSearchParams`, in insertion order. */
  type Query = seq<(string, string)>

  /** `URLSearchParams.get(name)`: the value of the first pair called `name`. */
  function Get(q: Query, name: string): (v: Option<string>)
    ensures v.None? <==> forall i :: 0 <= i < |q| ==> q[i].0 != name
    ensures v.Some? ==>
      exists i :: 0 <= i < |q| && q[i] == (name, v.value) && forall j :: 0 <= j < i ==> q[j].0 != name
    ensures |q| >= 1 && q[0].0 == name ==> v == Some(q[0].1)
  {
    if q == [] then None
    else if q[0].0 == name then Some(q[0].1)
    else Get(q[1..], name)
  }
}

