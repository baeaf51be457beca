/** Values shared by both dashboards and the scan screen: optional values,
    the outcome of a network call, JavaScript's string order, `Array.find`
    and the filter-by-key used to remove an entry from a displayed list. */
module Common {

  datatype Option<+T> = None | Some(value: T) {
    /** The JavaScript default-parameter rule: a missing value takes `default`. */
    function GetOr(default: T): T {
      match this
      case Some(v) => v
      case None => default
    }
  }

  /** A slot of a timetable, as the server returns it (and as a 409 reply
      lists the slots a new one overlaps). */
  datatype TimetableSlot = TimetableSlot(
    id: string,
    subjectCode: string,
    subjectName: string,
    section: string,
    dayOfWeek: int,
    startTime: string,
    endTime: string,
    roomNumber: string)

  /** Why a request failed. A transport failure has no response, so it has
      no server `error` text; a rejected request carries the HTTP status and
      the fields of the reply's JSON body (`""` when a field is absent, which
      is what JavaScript's `||` treats as missing anyway). `message` is the
      client-side `err.message`. */
  datatype Failure =
    | Transport(message: string)
    | Rejected(status: int, error: string, conflicts: Option<seq<TimetableSlot>>, message: string)

  /** The result of awaiting one request. */
  datatype Outcome<+T> = Done(value: T) | Failed(failure: Failure)

  /** `err.response?.data?.error`, with absence as the empty string. */
  function ServerError(f: Failure): string {
    match f
    case Transport(_) => ""
    case Rejected(_, error, _, _) => error
  }

  /** `xs[0] || xs[1] || ... || fallback` over strings: the first non-empty
      candidate, or the fallback when every candidate is empty. */
  function FirstNonEmpty(xs: seq<string>, fallback: string): (r: string)
    ensures r == fallback || r in xs
    ensures fallback != "" ==> r != ""
    ensures (forall i :: 0 <= i < |xs| ==> xs[i] == "") ==> r == fallback
    ensures forall i :: 0 <= i < |xs| && xs[i] != "" && (forall j :: 0 <= j < i ==> xs[j] == "") ==> r == xs[i]
    decreases |xs|
  {
    if xs == [] then fallback
    else if xs[0] != "" then xs[0]
    else FirstNonEmpty(xs[1..], fallback)
  }

  /** The error text shown after a failure: the server's `error`, else the
      client-side `err.message`, else `fallback`. */
  function ErrorText(f: Failure, fallback: string): (r: string)
    ensures ServerError(f) != "" ==> r == ServerError(f)
    ensures ServerError(f) == "" && f.message != "" ==> r == f.message
    ensures ServerError(f) == "" && f.message == "" ==> r == fallback
  {
    var candidates := [ServerError(f), f.message];
    assert candidates[1] == f.message;
    FirstNonEmpty(candidates, fallback)
  }

  /** The error text of the handlers that ignore `err.message`: the
      server's `error`, else `fallback`. */
  function ServerErrorOr(f: Failure, fallback: string): (r: string)
    ensures ServerError(f) != "" ==> r == ServerError(f)
    ensures ServerError(f) == "" ==> r == fallback
  {
    FirstNonEmpty([ServerError(f)], fallback)
  }

  /** `Array.prototype.find`: the first element satisfying `p`, if any. */
  function Find<T>(xs: seq<T>, p: T -> bool): (r: Option<T>)
    ensures r.None? <==> forall i :: 0 <= i < |xs| ==> !p(xs[i])
    ensures r.Some? ==> exists i :: 0 <= i < |xs| && xs[i] == r.value && p(r.value) && forall j :: 0 <= j < i ==> !p(xs[j])
    ensures forall i :: 0 <= i < |xs| && p(xs[i]) && (forall j :: 0 <= j < i ==> !p(xs[j])) ==> r == Some(xs[i])
    decreases |xs|
  {
    if xs == [] then None
    else if p(xs[0]) then Some(xs[0])
    else
      var r := Find(xs[1..], p);
      assert r.Some? ==> exists i :: 1 <= i < |xs| && xs[i] == r.value && p(r.value) && forall j :: 0 <= j < i ==> !p(xs[j]) by {
        if r.Some? {
          var i :| 0 <= i < |xs[1..]| && xs[1..][i] == r.value && p(r.value) && forall j :: 0 <= j < i ==> !p(xs[1..][j]);
          assert xs[i + 1] == r.value;
          forall j | 0 <= j < i + 1 ensures !p(xs[j]) {
            if j > 0 { assert xs[j] == xs[1..][j - 1]; }
          }
        }
      }
      assert forall i :: 0 <= i < |xs| && p(xs[i]) && (forall j :: 0 <= j < i ==> !p(xs[j])) ==> r == Some(xs[i]) by {
        forall i | 0 <= i < |xs| && p(xs[i]) && (forall j :: 0 <= j < i ==> !p(xs[j]))
          ensures r == Some(xs[i])
        {
          assert i > 0;
          assert xs[1..][i - 1] == xs[i];
          forall j | 0 <= j < i - 1 ensures !p(xs[1..][j]) {
            assert xs[1..][j] == xs[j + 1];
          }
        }
      }
      r
  }

  /** The textbook lexicographic order: after some common prefix, either
      `a` has ended while `b` goes on, or `a`'s next character is smaller. */
  ghost predicate Lexicographic(a: string, b: string) {
    exists k :: 0 <= k < |b| && k <= |a| && a[..k] == b[..k] && (k == |a| || a[k] < b[k])
  }

  lemma LexicographicEmpty(a: string, b: string)
    requires a == [] || b == [] || a[0] != b[0]
    ensures Lexicographic(a, b) <==>
              if a == [] then b != [] else if b == [] then false else a[0] < b[0]
  {
    if a == [] || (b != [] && a[0] < b[0]) {
      assert a[..0] == b[..0];
    }
  }

  lemma LexicographicTail(a: string, b: string)
    requires a != [] && b != [] && a[0] == b[0]
    ensures Lexicographic(a, b) <==> Lexicographic(a[1..], b[1..])
  {
    var a', b' := a[1..], b[1..];
    if Lexicographic(a', b') {
      var k :| 0 <= k < |b'| && k <= |a'| && a'[..k] == b'[..k] && (k == |a'| || a'[k] < b'[k]);
      assert a[..k + 1] == [a[0]] + a'[..k];
      assert b[..k + 1] == [b[0]] + b'[..k];
    }
    if Lexicographic(a, b) {
      var k :| 0 <= k < |b| && k <= |a| && a[..k] == b[..k] && (k == |a| || a[k] < b[k]);
      assert k > 0;
      assert a'[..k - 1] == a[..k][1..];
      assert b'[..k - 1] == b[..k][1..];
    }
  }

  /** JavaScript's `a < b` on strings: lexicographic order of characters,
      a proper prefix coming first. */
  predicate Less(a: string, b: string)
    ensures Less(a, b) <==> Lexicographic(a, b)
    decreases |a|
  {
    if a == [] || b == [] || a[0] != b[0] then
      LexicographicEmpty(a, b);
      if a == [] then b != [] else if b == [] then false else a[0] < b[0]
    else
      LexicographicTail(a, b);
      Less(a[1..], b[1..])
  }

  /** JavaScript's `a <= b` on strings, which is `!(b < a)`. */
  predicate AtMost(a: string, b: string) {
    !Less(b, a)
  }

  lemma {:induction false} LessIrreflexive(a: string)
    ensures !Less(a, a)
    decreases |a|
  {
    if a != [] {
      LessIrreflexive(a[1..]);
    }
  }

  lemma {:induction false} LessTransitive(a: string, b: string, c: string)
    requires Less(a, b) && Less(b, c)
    ensures Less(a, c)
    decreases |a|
  {
    if a != [] && a[0] == b[0] && b[0] == c[0] {
      LessTransitive(a[1..], b[1..], c[1..]);
    }
  }

  /** Exactly one of `a < b`, `a == b`, `b < a` holds. */
  lemma {:induction false} LessTrichotomy(a: string, b: string)
    ensures Less(a, b) || a == b || Less(b, a)
    ensures !(Less(a, b) && Less(b, a))
    decreases |a|
  {
    if a != [] && b != [] && a[0] == b[0] {
      LessTrichotomy(a[1..], b[1..]);
      if a[1..] == b[1..] {
        assert a == [a[0]] + a[1..] && b == [b[0]] + b[1..];
      }
    }
  }

  /** `xs.filter(x => key(x) !== k)`: drop every entry whose key is `k`. */
  function Without<T, K(==)>(xs: seq<T>, key: T -> K, k: K): (r: seq<T>)
    ensures |r| <= |xs|
    ensures forall i :: 0 <= i < |r| ==> key(r[i]) != k
    ensures forall i :: 0 <= i < |r| ==> r[i] in xs
    decreases |xs|
  {
    if xs == [] then []
    else if key(xs[0]) == k then Without(xs[1..], key, k)
    else [xs[0]] + Without(xs[1..], key, k)
  }

  /** Filtering keeps the order: it distributes over concatenation. */
  lemma {:induction false} WithoutConcat<T, K>(a: seq<T>, b: seq<T>, key: T -> K, k: K)
    ensures Without(a + b, key, k) == Without(a, key, k) + Without(b, key, k)
    decreases |a|
  {
    if a != [] {
      assert (a + b)[1..] == a[1..] + b;
      WithoutConcat(a[1..], b, key, k);
    } else {
      assert a + b == b;
    }
  }

  /** Removing a key that no entry has changes nothing. */
  lemma {:induction false} WithoutAbsent<T, K>(xs: seq<T>, key: T -> K, k: K)
    requires forall i :: 0 <= i < |xs| ==> key(xs[i]) != k
    ensures Without(xs, key, k) == xs
    decreases |xs|
  {
    if xs != [] {
      WithoutAbsent(xs[1..], key, k);
    }
  }

  /** Every entry with another key survives, as often as it occurred. */
  lemma {:induction false} WithoutKeepsOthers<T, K>(xs: seq<T>, key: T -> K, k: K, x: T)
    requires key(x) != k
    ensures multiset(Without(xs, key, k))[x] == multiset(xs)[x]
    decreases |xs|
  {
    if xs != [] {
      WithoutKeepsOthers(xs[1..], key, k, x);
      assert xs == [xs[0]] + xs[1..];
    }
  }

  /** Removing twice is removing once: a dismissal followed by the scheduled
      expiry of the same entry has no further effect. */
  lemma WithoutIdempotent<T, K>(xs: seq<T>, key: T -> K, k: K)
    ensures Without(Without(xs, key, k), key, k) == Without(xs, key, k)
  {
    WithoutAbsent(Without(xs, key, k), key, k);
  }

  /** When the key is carried by exactly one entry, at index `n`, removal
      cuts out exactly that entry. */
  lemma {:induction false} WithoutSingle<T, K>(xs: seq<T>, key: T -> K, n: nat)
    requires n < |xs|
    requires forall i :: 0 <= i < |xs| && i != n ==> key(xs[i]) != key(xs[n])
    ensures Without(xs, key, key(xs[n])) == xs[..n] + xs[n + 1..]
  {
    var k := key(xs[n]);
    assert xs == xs[..n] + [xs[n]] + xs[n + 1..];
    WithoutConcat(xs[..n] + [xs[n]], xs[n + 1..], key, k);
    WithoutConcat(xs[..n], [xs[n]], key, k);
    WithoutAbsent(xs[..n], key, k);
    WithoutAbsent(xs[n + 1..], key, k);
    assert Without([xs[n]], key, k) == [];
  }

  /** Two removals by key give the same list in either order. */
  lemma {:induction false} WithoutCommutes<T, K>(xs: seq<T>, key: T -> K, j: K, k: K)
    ensures Without(Without(xs, key, j), key, k) == Without(Without(xs, key, k), key, j)
    decreases |xs|
  {
    if xs != [] {
      var x := xs[0];
      var tail := xs[1..];
      WithoutCommutes(tail, key, j, k);
      var tj := Without(tail, key, j);
      var tk := Without(tail, key, k);
      if key(x) != j {
        assert Without(xs, key, j) == [x] + tj;
        assert ([x] + tj)[1..] == tj;
      } else {
        assert Without(xs, key, j) == tj;
      }
      if key(x) != k {
        assert Without(xs, key, k) == [x] + tk;
        assert ([x] + tk)[1..] == tk;
      } else {
        assert Without(xs, key, k) == tk;
      }
    }
  }

  predicate UniqueKeys<T, K(==)>(xs: seq<T>, key: T -> K) {
    forall i, j :: 0 <= i < j < |xs| ==> key(xs[i]) != key(xs[j])
  }

  /** Filtering a list whose keys are unique leaves them unique. */
  lemma {:induction false} WithoutKeepsUnique<T, K>(xs: seq<T>, key: T -> K, k: K)
    requires UniqueKeys(xs, key)
    ensures UniqueKeys(Without(xs, key, k), key)
    decreases |xs|
  {
    if xs != [] {
      assert UniqueKeys(xs[1..], key) by {
        forall i, j | 0 <= i < j < |xs[1..]| ensures key(xs[1..][i]) != key(xs[1..][j]) {
          assert xs[1..][i] == xs[i + 1] && xs[1..][j] == xs[j + 1];
        }
      }
      WithoutKeepsUnique(xs[1..], key, k);
      var rest := Without(xs[1..], key, k);
      if key(xs[0]) != k {
        forall j | 0 <= j < |rest| ensures key(xs[0]) != key(rest[j]) {
          var m :| 0 <= m < |xs[1..]| && xs[1..][m] == rest[j];
          assert xs[m + 1] == rest[j];
        }
      }
    }
  }
}
