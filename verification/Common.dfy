/** Request ids, optional values, and sequences as lists, shared by several models. */
module Common {
  import opened Indexing

  type Id = nat

  datatype Option<T> = None | Some(value: T)

  ghost predicate Distinct(s: seq<int>) {
    forall i, j :: 0 <= i < j < |s| ==> s[i] != s[j]
  }

  /** Concatenation of pieces. */
  function Flatten<T>(pieces: seq<seq<T>>): seq<T> {
    if pieces == [] then [] else Flatten(pieces[..|pieces| - 1]) + pieces[|pieces| - 1]
  }

  lemma {:induction false} FlattenConcat<T>(a: seq<seq<T>>, b: seq<seq<T>>)
    ensures Flatten(a + b) == Flatten(a) + Flatten(b)
  {
    if b == [] {
      assert a + b == a;
    } else {
      FlattenConcat(a, b[..|b| - 1]);
      assert (a + b)[..|a + b| - 1] == a + b[..|b| - 1];
    }
  }

  /** Piece `j` of `r` pieces of `n` elements each. */
  function Piece<T>(s: seq<T>, r: nat, n: nat, j: nat): (p: seq<T>)
    requires |s| == r * n && j < r
    ensures |p| == n && 0 <= j * n <= j * n + n <= |s|
  {
    RowInRange(j, r, n);
    s[j * n..j * n + n]
  }

  function Pieces<T>(s: seq<T>, r: nat, n: nat): (p: seq<seq<T>>)
    requires |s| == r * n
    ensures |p| == r && forall j :: 0 <= j < r ==> p[j] == Piece(s, r, n, j)
  {
    seq(r, j requires 0 <= j < r => Piece(s, r, n, j))
  }

  /** Where an element of a piece ends up. */
  lemma FlattenAt<T>(pieces: seq<seq<T>>, m: nat, q: nat)
    requires m < |pieces| && q < |pieces[m]|
    ensures |Flatten(pieces[..m])| + q < |Flatten(pieces)|
    ensures Flatten(pieces)[|Flatten(pieces[..m])| + q] == pieces[m][q]
  {
    FlattenConcat(pieces[..m + 1], pieces[m + 1..]);
    assert pieces == pieces[..m + 1] + pieces[m + 1..];
    assert pieces[..m + 1][..m] == pieces[..m];
  }

  /** The piece an element comes from. */
  lemma {:induction false} FlattenFind<T>(pieces: seq<seq<T>>, i: nat) returns (m: nat, q: nat)
    requires i < |Flatten(pieces)|
    ensures m < |pieces| && q < |pieces[m]| && pieces[m][q] == Flatten(pieces)[i]
  {
    var n := |pieces| - 1;
    var front := |Flatten(pieces[..n])|;
    if i < front {
      m, q := FlattenFind(pieces[..n], i);
    } else {
      m, q := n, i - front;
    }
  }
}
