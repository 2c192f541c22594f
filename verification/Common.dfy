/** Small datatypes and sequence facts shared by every component model. */
module Common {

  datatype Option<+T> = None | Some(value: T)

  datatype Result<+T, +E> = Ok(value: T) | Err(error: E)

  function Min(a: int, b: int): int { if a <= b then a else b }

  /** The pieces of a chunked stream, joined in order. */
  function Concat<T>(parts: seq<seq<T>>): (whole: seq<T>)
    ensures |parts| == 1 ==> whole == parts[0]
  {
    if parts == [] then [] else parts[0] + Concat(parts[1..])
  }

  lemma {:induction false} ConcatAppend<T>(a: seq<seq<T>>, b: seq<seq<T>>)
    ensures Concat(a + b) == Concat(a) + Concat(b)
  {
    if a == [] {
      assert a + b == b;
    } else {
      assert (a + b)[1..] == a[1..] + b;
      ConcatAppend(a[1..], b);
    }
  }

  lemma {:induction false} ConcatSnoc<T>(a: seq<seq<T>>, last: seq<T>)
    ensures Concat(a + [last]) == Concat(a) + last
  {
    ConcatAppend(a, [last]);
  }

  lemma {:induction false} Assoc<T>(a: seq<T>, b: seq<T>, c: seq<T>, d: seq<T>)
    ensures (a + b) + c + d == a + (b + c + d)
  {}

  /** Where in the list an element of this kind stands. */
  ghost function Places<T>(xs: seq<T>, kind: T -> bool): set<nat> {
    set i: nat | i < |xs| && kind(xs[i])
  }

  lemma {:induction false} PlacesSnoc<T>(xs: seq<T>, x: T, kind: T -> bool)
    ensures |Places(xs + [x], kind)| == |Places(xs, kind)| + (if kind(x) then 1 else 0)
  {
    assert Places(xs + [x], kind) == Places(xs, kind) + if kind(x) then {|xs|} else {};
  }

  lemma {:induction false} PlacesCons<T>(xs: seq<T>, kind: T -> bool)
    requires xs != []
    ensures |Places(xs, kind)| == (if kind(xs[0]) then 1 else 0) + |Places(xs[1..], kind)|
    decreases |xs|
  {
    var front, last := xs[..|xs| - 1], xs[|xs| - 1];
    assert front + [last] == xs;
    PlacesSnoc(front, last, kind);
    if front == [] {
      assert Places(front, kind) == {} && Places(xs[1..], kind) == {};
    } else {
      PlacesCons(front, kind);
      assert xs[1..] == front[1..] + [last] && front[0] == xs[0];
      PlacesSnoc(front[1..], last, kind);
    }
  }

  lemma {:induction false} DropThenSlice<T>(s: seq<T>, cut: nat, i: nat, j: nat)
    requires i <= j && cut + j <= |s|
    ensures s[cut..][i..j] == s[cut + i..cut + j]
  {}

  lemma {:induction false} TakeThenSlice<T>(s: seq<T>, cut: nat, i: nat, j: nat)
    requires i <= j <= cut <= |s|
    ensures s[..cut][i..j] == s[i..j]
  {}

  lemma {:induction false} SplitSlice<T>(s: seq<T>, i: nat, j: nat, k: nat)
    requires i <= j <= k <= |s|
    ensures s[i..k] == s[i..j] + s[j..k]
  {}

  lemma {:induction false} Assoc3<T>(a: seq<T>, b: seq<T>, c: seq<T>)
    ensures (a + b) + c == a + (b + c)
  {}

  /** Taking the next chunk into a buffer leaves the text still to come unchanged. */
  lemma {:induction false} ConcatStep<T>(buffer: seq<T>, chunks: seq<seq<T>>)
    requires chunks != []
    ensures (buffer + chunks[0]) + Concat(chunks[1..]) == buffer + Concat(chunks)
  {
    Assoc3(buffer, chunks[0], Concat(chunks[1..]));
  }

  lemma {:induction false} TakeThenDrop<T>(s: seq<T>, n: nat, i: nat)
    requires n <= i <= |s|
    ensures s[..i][n..] == s[n..][..i - n]
  {}

  lemma {:induction false} DropThenDrop<T>(s: seq<T>, n: nat, m: nat)
    requires n + m <= |s|
    ensures s[n..][m..] == s[n + m..]
  {}

  lemma {:induction false} TakeExtends<T>(s: seq<T>, n: nat, m: nat)
    requires n + m <= |s|
    ensures s[..n] + s[n..][..m] == s[..n + m]
  {}

  lemma {:induction false} AppendSlices<T>(a: seq<T>, b: seq<T>, n: nat)
    requires n <= |a|
    ensures (a + b)[..|a|] == a && (a + b)[..n] == a[..n] && (a + b)[n..] == a[n..] + b
  {}
}
