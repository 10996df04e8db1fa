/**
 * The content of a media file, abstractly: the file plays, one after the
 * other, stretches of the ORIGINAL recording. A piece `Piece(origin, len)`
 * is the stretch [origin, origin + len) of the original; a timeline is the
 * sequence of pieces the file currently plays. Position t of the file is
 * found by walking the pieces. The external engine's trim filter
 * (`atrim=a:b` / `trim=a:b` followed by a timestamp reset) is `Trim`.
 */
module Timeline {

  datatype Piece = Piece(origin: real, len: real)

  type Timeline = seq<Piece>

  /** Every piece plays for a positive time. */
  predicate Valid(tl: Timeline) {
    forall i :: 0 <= i < |tl| ==> tl[i].len > 0.0
  }

  function Duration(tl: Timeline): real
    decreases |tl|
  {
    if tl == [] then 0.0 else tl[0].len + Duration(tl[1..])
  }

  lemma {:induction false} DurationNonNegative(tl: Timeline)
    ensures Valid(tl) ==> Duration(tl) >= 0.0
    ensures Valid(tl) && tl != [] ==> Duration(tl) > 0.0
    decreases |tl|
  {
    if tl != [] {
      DurationNonNegative(tl[1..]);
    }
  }

  lemma {:induction false} DurationAppend(a: Timeline, b: Timeline)
    ensures Duration(a + b) == Duration(a) + Duration(b)
    decreases |a|
  {
    if a != [] {
      assert (a + b)[1..] == a[1..] + b;
      DurationAppend(a[1..], b);
    } else {
      assert a + b == b;
    }
  }

  /** The first t seconds of the timeline (all of it when t exceeds its duration). */
  function Take(tl: Timeline, t: real): Timeline
    decreases |tl|
  {
    if tl == [] || t <= 0.0 then []
    else if t >= tl[0].len then [tl[0]] + Take(tl[1..], t - tl[0].len)
    else [Piece(tl[0].origin, t)]
  }

  /** Everything after the first t seconds. */
  function Drop(tl: Timeline, t: real): Timeline
    decreases |tl|
  {
    if tl == [] || t <= 0.0 then tl
    else if t >= tl[0].len then Drop(tl[1..], t - tl[0].len)
    else [Piece(tl[0].origin + t, tl[0].len - t)] + tl[1..]
  }

  /** A prefix of a valid timeline is valid and lasts t, or the whole duration when t exceeds it. */
  lemma {:induction false} TakeValid(tl: Timeline, t: real)
    requires Valid(tl)
    ensures Valid(Take(tl, t))
    ensures t >= 0.0 ==> Duration(Take(tl, t)) == if t < Duration(tl) then t else Duration(tl)
    decreases |tl|
  {
    DurationNonNegative(tl);
    if tl != [] && t > 0.0 {
      DurationNonNegative(tl[1..]);
      if t >= tl[0].len {
        TakeValid(tl[1..], t - tl[0].len);
        var r := Take(tl, t);
        assert r[0] == tl[0] && r[1..] == Take(tl[1..], t - tl[0].len);
      } else {
        assert Take(tl, t) == [Piece(tl[0].origin, t)];
        assert Take(tl, t)[1..] == [];
      }
    }
  }

  /** What follows the first t seconds of a valid timeline is valid and lasts the rest. */
  lemma {:induction false} DropValid(tl: Timeline, t: real)
    requires Valid(tl)
    ensures Valid(Drop(tl, t))
    ensures t >= 0.0 ==> Duration(Drop(tl, t)) == if t < Duration(tl) then Duration(tl) - t else 0.0
    decreases |tl|
  {
    DurationNonNegative(tl);
    if tl != [] && t > 0.0 {
      DurationNonNegative(tl[1..]);
      if t >= tl[0].len {
        DropValid(tl[1..], t - tl[0].len);
      } else {
        var r := Drop(tl, t);
        assert r[1..] == tl[1..];
      }
    }
  }

  /** The engine's trim of [from, to] with its timestamps reset to start at zero. */
  function Trim(tl: Timeline, from: real, to: real): Timeline {
    Take(Drop(tl, from), to - from)
  }

  /** A trim of a valid timeline is valid. */
  lemma TrimValid(tl: Timeline, from: real, to: real)
    ensures Valid(tl) ==> Valid(Trim(tl, from, to))
  {
    if Valid(tl) {
      DropValid(tl, from);
      TakeValid(Drop(tl, from), to - from);
    }
  }

  lemma {:induction false} TakeAll(tl: Timeline, t: real)
    requires Valid(tl) && t >= Duration(tl)
    ensures Take(tl, t) == tl
    decreases |tl|
  {
    if tl != [] {
      DurationNonNegative(tl[1..]);
      TakeAll(tl[1..], t - tl[0].len);
      assert [tl[0]] + tl[1..] == tl;
    }
  }

  lemma {:induction false} DropAll(tl: Timeline, t: real)
    requires Valid(tl) && t >= Duration(tl)
    ensures Drop(tl, t) == []
    decreases |tl|
  {
    if tl != [] {
      DurationNonNegative(tl[1..]);
      DropAll(tl[1..], t - tl[0].len);
    }
  }

  /** Taking no more than the first part of a concatenation sees only that part. */
  lemma {:induction false} TakeAppend(a: Timeline, b: Timeline, t: real)
    requires Valid(a) && t <= Duration(a)
    ensures Take(a + b, t) == Take(a, t)
    decreases |a|
  {
    if a == [] {
      assert a + b == b;
    } else {
      assert (a + b)[0] == a[0];
      assert (a + b)[1..] == a[1..] + b;
      if t > 0.0 && t >= a[0].len {
        TakeAppend(a[1..], b, t - a[0].len);
      }
    }
  }

  /** A shorter prefix of a prefix is a prefix. */
  lemma {:induction false} TakeTake(tl: Timeline, a: real, b: real)
    requires b <= a
    ensures Take(Take(tl, a), b) == Take(tl, b)
    decreases |tl|
  {
    if tl != [] && a > 0.0 && b > 0.0 && a >= tl[0].len {
      TakeTake(tl[1..], a - tl[0].len, b - tl[0].len);
      var r := Take(tl, a);
      assert r[0] == tl[0] && r[1..] == Take(tl[1..], a - tl[0].len);
    }
  }

  /** Dropping from a prefix equals the matching prefix of the drop. */
  lemma {:induction false} DropTake(tl: Timeline, s: real, e: real)
    requires 0.0 <= s <= e
    ensures Drop(Take(tl, e), s) == Take(Drop(tl, s), e - s)
    decreases |tl|
  {
    if tl == [] || s <= 0.0 {
    } else if s >= tl[0].len {
      var r := Take(tl, e);
      assert r == [tl[0]] + Take(tl[1..], e - tl[0].len);
      assert r[0] == tl[0] && r[1..] == Take(tl[1..], e - tl[0].len);
      DropTake(tl[1..], s - tl[0].len, e - tl[0].len);
      assert Drop(r, s) == Drop(r[1..], s - tl[0].len);
      assert Drop(tl, s) == Drop(tl[1..], s - tl[0].len);
    } else {
      DropTakeInFirst(tl, s, e);
    }
  }

  /** DropTake when the drop ends inside the first piece. */
  lemma DropTakeInFirst(tl: Timeline, s: real, e: real)
    requires tl != [] && 0.0 < s < tl[0].len && s <= e
    ensures Drop(Take(tl, e), s) == Take(Drop(tl, s), e - s)
  {
    var p := Piece(tl[0].origin + s, tl[0].len - s);
    var d := [p] + tl[1..];
    assert Drop(tl, s) == d;
    assert d[0] == p && d[1..] == tl[1..];
    if e >= tl[0].len {
      var r := [tl[0]] + Take(tl[1..], e - tl[0].len);
      assert Take(tl, e) == r;
      assert r[1..] == Take(tl[1..], e - tl[0].len);
      assert Drop(r, s) == [p] + r[1..];
      assert Take(d, e - s) == [p] + Take(d[1..], e - s - p.len);
    } else {
      assert Take(tl, e) == [Piece(tl[0].origin, e)];
    }
  }

  /** What a trim of [s, e] reads depends only on the first e seconds. */
  lemma TrimOfPrefix(tl: Timeline, s: real, e: real)
    requires 0.0 <= s <= e
    ensures Trim(Take(tl, e), s, e) == Trim(tl, s, e)
  {
    var d := Drop(tl, s);
    DropTake(tl, s, e);
    assert Drop(Take(tl, e), s) == Take(d, e - s);
    TakeTake(d, e - s, e - s);
    assert Trim(Take(tl, e), s, e) == Take(Take(d, e - s), e - s);
    assert Trim(tl, s, e) == Take(d, e - s);
  }

  /** Two timelines that agree on their first a seconds agree on every trim inside [0, a]. */
  lemma TrimOfCommonPrefix(x: Timeline, y: Timeline, a: real, s: real, e: real)
    requires 0.0 <= s <= e <= a
    requires Take(x, a) == Take(y, a)
    ensures Trim(x, s, e) == Trim(y, s, e)
  {
    TakeTake(x, a, e);
    TakeTake(y, a, e);
    TrimOfPrefix(x, s, e);
    TrimOfPrefix(y, s, e);
  }

  /** A trim that starts at or after the end is empty. */
  lemma TrimPastEnd(tl: Timeline, s: real, e: real)
    requires Valid(tl) && s >= Duration(tl)
    ensures Trim(tl, s, e) == []
  {
    DropAll(tl, s);
  }

  /** The trim [e, duration] is the whole suffix after e. */
  lemma TrimToEnd(tl: Timeline, e: real)
    requires Valid(tl) && 0.0 <= e
    ensures Trim(tl, e, Duration(tl)) == Drop(tl, e)
  {
    DurationNonNegative(tl);
    var d := Drop(tl, e);
    DropValid(tl, e);
    if e < Duration(tl) {
      TakeAll(d, Duration(tl) - e);
    } else {
      DropAll(tl, e);
    }
  }
}
