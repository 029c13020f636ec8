/**
  The bounded edit distance behind fuzzy wake-word matching.

  `Edits` is the reference: a chain of strings in which each differs from the one
  before it by inserting, deleting or replacing one byte. `Distance` is the textbook
  recurrence, and `BoundedEditDistance` the two-row loop with swapped buffers.
*/
module EditDistance {
  import opened Wrappers

  type Byte = b: int | 0 <= b < 256

  function Init(s: seq<Byte>): seq<Byte>
    requires s != []
  {
    s[..|s| - 1]
  }

  function Last(s: seq<Byte>): Byte
    requires s != []
  {
    s[|s| - 1]
  }

  /** One byte inserted, deleted or replaced, anywhere in the string. */
  ghost predicate OneEdit(a: seq<Byte>, b: seq<Byte>)
  {
    || (a != [] && Init(a) == b)
    || (b != [] && a == Init(b))
    || (a != [] && b != [] && Init(a) == Init(b))
    || (a != [] && b != [] && Last(a) == Last(b) && OneEdit(Init(a), Init(b)))
  }

  /** `path` leads from `a` to `b` by single edits; its cost is `|path| - 1`. */
  ghost predicate Edits(path: seq<seq<Byte>>, a: seq<Byte>, b: seq<Byte>)
  {
    && path != []
    && path[0] == a
    && path[|path| - 1] == b
    && forall i :: 0 <= i < |path| - 1 ==> OneEdit(path[i], path[i + 1])
  }

  /** `d` is the least number of single edits from `a` to `b`. */
  ghost predicate IsEditDistance(a: seq<Byte>, b: seq<Byte>, d: nat)
  {
    && (exists path :: Edits(path, a, b) && |path| - 1 == d)
    && forall path :: Edits(path, a, b) ==> d <= |path| - 1
  }

  function Min(x: nat, y: nat): nat {
    if x <= y then x else y
  }

  function Mismatch(x: Byte, y: Byte): nat {
    if x != y then 1 else 0
  }

  function Distance(a: seq<Byte>, b: seq<Byte>): nat
    decreases |a| + |b|
  {
    if a == [] then |b|
    else if b == [] then |a|
    else
      Min(Min(Distance(Init(a), Init(b)) + Mismatch(Last(a), Last(b)),
              Distance(a, Init(b)) + 1),
          Distance(Init(a), b) + 1)
  }

  // ---- the recurrence is a lower bound on every edit path ----

  lemma {:induction false} SelfDistance(a: seq<Byte>)
    ensures Distance(a, a) == 0
    decreases |a|
  {
    if a != [] { SelfDistance(Init(a)); }
  }

  /** Dropping the last byte of the first argument moves the distance by at most one. */
  lemma {:induction false} DropMoves(a: seq<Byte>, c: seq<Byte>)
    requires a != []
    ensures Distance(Init(a), c) <= Distance(a, c) + 1
    ensures Distance(a, c) <= Distance(Init(a), c) + 1
    decreases |a| + |c|
  {
    if c != [] {
      DropMoves(a, Init(c));
    }
  }

  lemma {:induction false} ReplaceMoves(a: seq<Byte>, b: seq<Byte>, c: seq<Byte>)
    requires a != [] && b != [] && Init(a) == Init(b)
    ensures Distance(a, c) <= Distance(b, c) + 1
    decreases |c|
  {
    if c != [] {
      ReplaceMoves(a, b, Init(c));
    }
  }

  lemma {:induction false} OneEditMoves(a: seq<Byte>, b: seq<Byte>, c: seq<Byte>)
    requires OneEdit(a, b)
    ensures Distance(a, c) <= Distance(b, c) + 1
    decreases |a| + |b| + |c|
  {
    if a != [] && Init(a) == b {
      DropMoves(a, c);
    } else if b != [] && a == Init(b) {
      DropMoves(b, c);
    } else if Init(a) == Init(b) {
      ReplaceMoves(a, b, c);
    } else {
      OneEditMoves(Init(a), Init(b), c);
      if c != [] {
        OneEditMoves(a, b, Init(c));
        OneEditMoves(Init(a), Init(b), Init(c));
      }
    }
  }

  lemma {:induction false} DistanceIsLowerBound(path: seq<seq<Byte>>, a: seq<Byte>, b: seq<Byte>)
    requires Edits(path, a, b)
    ensures Distance(a, b) <= |path| - 1
    decreases |path|
  {
    if |path| == 1 {
      SelfDistance(a);
    } else {
      var rest := path[1..];
      forall i | 0 <= i < |rest| - 1 ensures OneEdit(rest[i], rest[i + 1]) {
        assert OneEdit(path[i + 1], path[i + 2]);
      }
      DistanceIsLowerBound(rest, path[1], b);
      assert OneEdit(path[0], path[1]);
      OneEditMoves(a, path[1], b);
    }
  }

  // ---- and some edit path attains it ----

  ghost function Extend(path: seq<seq<Byte>>, x: Byte): (r: seq<seq<Byte>>)
    ensures |r| == |path|
    ensures forall i :: 0 <= i < |path| ==> r[i] == path[i] + [x]
  {
    seq(|path|, i requires 0 <= i < |path| => path[i] + [x])
  }

  lemma Append(path: seq<seq<Byte>>, a: seq<Byte>, c: seq<Byte>, b: seq<Byte>)
    requires Edits(path, a, c) && OneEdit(c, b)
    ensures Edits(path + [b], a, b)
  {
    var longer := path + [b];
    forall i | 0 <= i < |longer| - 1 ensures OneEdit(longer[i], longer[i + 1]) {
      if i < |path| - 1 { assert OneEdit(path[i], path[i + 1]); }
    }
  }

  /** After the front parts agree, at most one replacement makes the last bytes agree. */
  lemma ReplaceLast(middle: seq<seq<Byte>>, a: seq<Byte>, b: seq<Byte>) returns (path: seq<seq<Byte>>)
    requires a != [] && b != [] && Edits(middle, Init(a), Init(b))
    ensures Edits(path, a, b) && |path| == |middle| + Mismatch(Last(a), Last(b))
  {
    path := Extend(middle, Last(a));
    if Last(a) == Last(b) {
    } else {
      var almost := Init(b) + [Last(a)];
      assert Init(almost) == Init(b);
      Append(path, a, almost, b);
      path := path + [b];
    }
  }

  lemma {:induction false} DistanceIsAttained(a: seq<Byte>, b: seq<Byte>) returns (path: seq<seq<Byte>>)
    ensures Edits(path, a, b) && |path| - 1 == Distance(a, b)
    decreases |a| + |b|
  {
    if a == [] && b == [] {
      path := [a];
    } else if a != [] && Distance(a, b) == Distance(Init(a), b) + 1 {
      path := DistanceIsAttained(Init(a), b);
      path := [a] + path;
    } else if b != [] && Distance(a, b) == Distance(a, Init(b)) + 1 {
      path := DistanceIsAttained(a, Init(b));
      Append(path, a, Init(b), b);
      path := path + [b];
    } else {
      path := DistanceIsAttained(Init(a), Init(b));
      path := ReplaceLast(path, a, b);
    }
  }

  /** The recurrence is the edit distance. */
  lemma DistanceIsEditDistance(a: seq<Byte>, b: seq<Byte>)
    ensures IsEditDistance(a, b, Distance(a, b))
  {
    var path := DistanceIsAttained(a, b);
    forall p | Edits(p, a, b) ensures Distance(a, b) <= |p| - 1 {
      DistanceIsLowerBound(p, a, b);
    }
  }

  /** What makes the length test before the loop safe. */
  lemma {:induction false} LengthGapIsLowerBound(a: seq<Byte>, b: seq<Byte>)
    ensures |a| - |b| <= Distance(a, b) && |b| - |a| <= Distance(a, b)
    decreases |a| + |b|
  {
    if a != [] && b != [] {
      LengthGapIsLowerBound(Init(a), Init(b));
      LengthGapIsLowerBound(a, Init(b));
      LengthGapIsLowerBound(Init(a), b);
    }
  }

  lemma PrefixStep(a: seq<Byte>, i: nat)
    requires i < |a|
    ensures Init(a[..i + 1]) == a[..i] && Last(a[..i + 1]) == a[i]
  {
  }

  /** One cell of the table from its three neighbours. */
  lemma Cell(a: seq<Byte>, b: seq<Byte>, i: nat, j: nat)
    requires i < |a| && j < |b|
    ensures Distance(a[..i + 1], b[..j + 1])
         == Min(Min(Distance(a[..i], b[..j]) + Mismatch(a[i], b[j]),
                    Distance(a[..i + 1], b[..j]) + 1),
                Distance(a[..i], b[..j + 1]) + 1)
  {
    PrefixStep(a, i);
    PrefixStep(b, j);
  }

  /** The first `upto` cells of row `i`: the distances from `a[..i]` to prefixes of `b`. */
  ghost predicate IsRow(row: seq<nat>, a: seq<Byte>, i: nat, b: seq<Byte>, upto: nat)
    requires i <= |a| && upto <= |row| && upto <= |b| + 1
  {
    forall j :: 0 <= j < upto ==> row[j] == Distance(a[..i], b[..j])
  }

  lemma RowGrows(before: seq<nat>, after: seq<nat>, a: seq<Byte>, i: nat, b: seq<Byte>, upto: nat)
    requires i <= |a| && upto < |before| == |after| && upto <= |b| && IsRow(before, a, i, b, upto)
    requires after[..upto] == before[..upto] && after[upto] == Distance(a[..i], b[..upto])
    ensures IsRow(after, a, i, b, upto + 1)
  {
    forall j | 0 <= j < upto ensures after[j] == before[j] {
      assert after[..upto][j] == before[..upto][j];
    }
  }

  /** The inner loop: row `row + 1` of the table from row `row`. */
  method FillRow(previous: array<nat>, current: array<nat>, left: seq<Byte>, row: nat, right: seq<Byte>)
    requires row < |left| && previous.Length == current.Length == |right| + 1 && previous != current
    requires IsRow(previous[..], left, row, right, |right| + 1)
    modifies current
    ensures IsRow(current[..], left, row + 1, right, |right| + 1)
  {
    current[0] := row + 1;
    for column := 0 to |right|
      invariant IsRow(current[..], left, row + 1, right, column + 1)
    {
      ghost var known := current[..];
      Cell(left, right, row, column);
      var substitution := previous[column] + Mismatch(left[row], right[column]);
      var insertion := current[column] + 1;
      var deletion := previous[column + 1] + 1;
      assert previous[..][column] == Distance(left[..row], right[..column]);
      assert previous[..][column + 1] == Distance(left[..row], right[..column + 1]);
      assert known[column] == Distance(left[..row + 1], right[..column]);
      current[column + 1] := Min(Min(substitution, insertion), deletion);
      RowGrows(known, current[..], left, row + 1, right, column + 1);
    }
  }

  /**
    The two-row loop: `Some(d)` with the true edit distance when that is within the
    bound, and `None` only when every way of editing costs more than the bound.
  */
  method BoundedEditDistance(left: seq<Byte>, right: seq<Byte>, maxDistance: nat) returns (r: Option<nat>)
    ensures r.Some? ==> IsEditDistance(left, right, r.value) && r.value <= maxDistance
    ensures r.None? ==> forall path :: Edits(path, left, right) ==> |path| - 1 > maxDistance
  {
    DistanceIsEditDistance(left, right);
    LengthGapIsLowerBound(left, right);
    var gap := if |left| < |right| then |right| - |left| else |left| - |right|;
    if gap > maxDistance {
      return None;
    }
    var previous := new nat[|right| + 1](j => j);
    var current := new nat[|right| + 1](_ => 0);
    for row := 0 to |left|
      invariant previous.Length == current.Length == |right| + 1
      invariant fresh(previous) && fresh(current) && previous != current
      invariant IsRow(previous[..], left, row, right, |right| + 1)
    {
      FillRow(previous, current, left, row, right);
      previous, current := current, previous;
    }
    assert left[..|left|] == left && right[..|right|] == right;
    var distance := previous[|right|];
    assert distance == previous[..][|right|];
    r := if distance <= maxDistance then Some(distance) else None;
  }
}
