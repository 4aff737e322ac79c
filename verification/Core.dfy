/** Result types shared by every module of the model. */
module Core {

  datatype Option<+T> = None | Some(value: T)

  /** The first of the two values that is there. */
  function OrElse<T>(first: Option<T>, second: T): T {
    if first.Some? then first.value else second
  }

  datatype Result<+T, +E> = Ok(value: T) | Err(error: E)

  /** Any element of a set. */
  method PickOne<T(==)>(s: set<T>) returns (x: T)
    requires s != {}
    ensures x in s
  {
    x :| x in s;
  }

  /** One octet of a wire format. */
  type byte = x: int | 0 <= x < 256

  lemma {:induction false} SomeElement<T(!new)>(s: set<T>) returns (x: T)
    requires s != {}
    ensures x in s
  {
    x :| x in s;
  }

  /** The value of a hexadecimal digit. */
  function HexValue(c: char): Option<nat> {
    if '0' <= c <= '9' then Some(c as int - '0' as int)
    else if 'A' <= c <= 'F' then Some(c as int - 'A' as int + 10)
    else if 'a' <= c <= 'f' then Some(c as int - 'a' as int + 10)
    else None
  }

  /** A hexadecimal digit; `ten` is the letter that stands for ten. */
  function HexDigit(n: nat, ten: char): (c: char)
    requires n < 16 && (ten == 'a' || ten == 'A')
    ensures HexValue(c) == Some(n)
    ensures '0' <= c <= '9' || ten <= c <= (ten as int + 5) as char
  {
    if n < 10 then ('0' as int + n) as char else (ten as int + n - 10) as char
  }

  /** No element occurs at two indices. */
  ghost predicate Distinct<T(!new)>(s: seq<T>) {
    s == [] || (s[0] !in s[1..] && Distinct(s[1..]))
  }

  lemma {:induction false} DistinctIndices<T(!new)>(s: seq<T>)
    ensures Distinct(s) <==> forall i, j :: 0 <= i < j < |s| ==> s[i] != s[j]
  {
    if s != [] {
      var rest := s[1..];
      DistinctIndices(rest);
      if Distinct(s) {
        forall i, j | 0 <= i < j < |s| ensures s[i] != s[j] {
          assert s[j] == rest[j - 1] && rest[j - 1] in rest;
          assert i == 0 || s[i] == rest[i - 1];
        }
      } else if s[0] in rest {
        var j :| 0 <= j < |rest| && rest[j] == s[0];
        assert s[0] == s[j + 1];
      } else {
        var i, j :| 0 <= i < j < |rest| && rest[i] == rest[j];
        assert s[i + 1] == s[j + 1];
      }
    }
  }

  /** The elements of a sequence. */
  function Elements<T(!new)>(s: seq<T>): set<T> {
    if s == [] then {} else {s[0]} + Elements(s[1..])
  }

  lemma {:induction false} ElementsAre<T(!new)>(s: seq<T>)
    ensures forall x :: x in Elements(s) <==> x in s
  {
    if s != [] {
      ElementsAre(s[1..]);
      assert forall x :: x in s <==> x == s[0] || x in s[1..];
    }
  }

  lemma {:induction false} SameElements<T(!new)>(a: seq<T>, b: seq<T>)
    requires forall x :: x in a <==> x in b
    ensures Elements(a) == Elements(b)
  {
    ElementsAre(a);
    ElementsAre(b);
  }

  /** A sequence without repetitions has as many elements as positions. */
  lemma {:induction false} DistinctCardinality<T(!new)>(s: seq<T>)
    requires Distinct(s)
    ensures |Elements(s)| == |s|
  {
    if s != [] {
      DistinctCardinality(s[1..]);
      ElementsAre(s[1..]);
    }
  }

  /** A repetition costs an element. */
  lemma {:induction false} RepeatedCardinality<T(!new)>(s: seq<T>)
    ensures |Elements(s)| <= |s|
    ensures !Distinct(s) ==> |Elements(s)| < |s|
  {
    if s != [] {
      var rest := s[1..];
      RepeatedCardinality(rest);
      ElementsAre(rest);
      if s[0] in rest {
        assert Elements(s) == Elements(rest);
      }
    }
  }

  /** A quotient and a remainder are the ones of the division. */
  lemma {:induction false} Divides(x: nat, n: nat, q: nat, r: nat)
    requires r < n && x == q * n + r
    ensures x / n == q && x % n == r
  {
    var p := x / n;
    assert x == p * n + x % n;
    if p < q {
      MoreTimes(p, q, n);
    } else if q < p {
      MoreTimes(q, p, n);
    }
  }

  lemma {:induction false} OneMoreTime(q: nat, n: nat)
    ensures (q + 1) * n == q * n + n
  {
  }

  lemma {:induction false} MoreTimes(p: nat, q: nat, n: nat)
    requires p < q
    ensures p * n + n <= q * n
  {
    assert (q - p - 1) * n >= 0;
    assert q * n == p * n + n + (q - p - 1) * n;
  }

  // Sequence identities, proved once so that no other proof has to reason by index.

  lemma {:induction false} ConcatAssociative<T(!new)>(a: seq<T>, b: seq<T>, c: seq<T>)
    ensures (a + b) + c == a + (b + c)
  {
  }

  lemma {:induction false} ConcatLast<T(!new)>(a: seq<T>, b: seq<T>)
    requires b != []
    ensures a + b == (a + b[..|b| - 1]) + [b[|b| - 1]]
  {
  }

  lemma {:induction false} ConcatEmpty<T(!new)>(a: seq<T>)
    ensures a + [] == a && [] + a == a
  {
  }

  lemma {:induction false} ConcatSplit<T(!new)>(a: seq<T>, b: seq<T>)
    ensures (a + b)[..|a|] == a && (a + b)[|a|..] == b
  {
  }

  lemma {:induction false} DropDrop<T(!new)>(s: seq<T>, i: nat, j: nat)
    requires i + j <= |s|
    ensures s[i..][j..] == s[i + j..]
  {
  }

  lemma {:induction false} TakeAll<T(!new)>(s: seq<T>)
    ensures s[..|s|] == s && s[0..] == s
  {
  }

  /** The middle of three sequences put together. */
  lemma {:induction false} Middle<T(!new)>(head: seq<T>, mid: seq<T>, tail: seq<T>)
    ensures (head + mid + tail)[|head|..|head| + |mid|] == mid
  {
  }

  lemma {:induction false} CutInFour<T(!new)>(s: seq<T>, i: nat, j: nat, k: nat)
    requires i <= j <= k <= |s|
    ensures s == s[..i] + s[i..j] + s[j..k] + s[k..]
  {
  }

  /** Cutting the second of two sequences leaves a prefix of the two together. */
  lemma {:induction false} CutSecond<T(!new)>(a: seq<T>, b: seq<T>, r: nat)
    requires r <= |b|
    ensures a + b[..r] <= a + b
  {
  }

  lemma {:induction false} PrefixOfPrefix<T(!new)>(a: seq<T>, b: seq<T>, c: seq<T>)
    requires a <= b && b <= c
    ensures a <= c && c[..|a|] == a
  {
  }

  lemma {:induction false} FirstAndRest<T(!new)>(s: seq<T>)
    requires s != []
    ensures [s[0]] + s[1..] == s
  {
  }
}
