/** The sorted interval list of one display line: the neighbour check and the insertion. */
module Spans {

  datatype Span = Span(start: int, end: int)

  ghost predicate Overlap(a: Span, b: Span)
  {
    a.start < b.end && b.start < a.end
  }

  /** What the neighbour check stands for: a scan of the whole line. */
  ghost predicate OverlapsAny(line: seq<Span>, s: Span)
  {
    exists i :: 0 <= i < |line| && Overlap(line[i], s)
  }

  /** Spans of positive length, in order, none overlapping the next. */
  ghost predicate Tidy(line: seq<Span>)
  {
    && (forall i :: 0 <= i < |line| ==> line[i].start < line[i].end)
    && (forall i, j :: 0 <= i < j < |line| ==> line[i].end <= line[j].start)
  }

  /** Tuple order. */
  predicate Before(a: Span, b: Span)
  {
    a.start < b.start || (a.start == b.start && a.end < b.end)
  }

  ghost predicate Sorted(line: seq<Span>)
  {
    forall i, j :: 0 <= i < j < |line| ==> !Before(line[j], line[i])
  }

  /** The first position whose span starts at or after `start`. */
  function BisectStart(line: seq<Span>, start: int): (r: nat)
    ensures r <= |line| && (forall j :: 0 <= j < r ==> line[j].start < start)
    ensures r < |line| ==> start <= line[r].start
  {
    if line == [] || line[0].start >= start then 0 else 1 + BisectStart(line[1..], start)
  }

  /** The first position whose span is not before s. */
  function BisectSpan(line: seq<Span>, s: Span): (r: nat)
    ensures r <= |line| && (forall j :: 0 <= j < r ==> Before(line[j], s))
    ensures r < |line| ==> !Before(line[r], s)
  {
    if line == [] || !Before(line[0], s) then 0 else 1 + BisectSpan(line[1..], s)
  }

  /** Only the neighbours are looked at. */
  predicate CheckOverlap(line: seq<Span>, s: Span)
  {
    var i := BisectStart(line, s.start);
    (i > 0 && line[i - 1].end > s.start) || (i < |line| && line[i].start < s.end)
  }

  function InsertSpan(line: seq<Span>, s: Span): seq<Span>
  {
    var i := BisectSpan(line, s);
    line[..i] + [s] + line[i..]
  }

  lemma InsertAt(line: seq<Span>, s: Span, k: nat)
    requires k <= |line|
    ensures var (i, out) := (BisectSpan(line, s), InsertSpan(line, s));
            && |out| == |line| + 1
            && out[k] == if k < i then line[k] else if k == i then s else line[k - 1]
  {
  }

  lemma InsertKeepsAll(line: seq<Span>, s: Span)
    ensures multiset(InsertSpan(line, s)) == multiset(line) + multiset{s}
  {
    var i := BisectSpan(line, s);
    assert line == line[..i] + line[i..];
  }

  lemma InsertKeepsSorted(line: seq<Span>, s: Span)
    requires Sorted(line)
    ensures Sorted(InsertSpan(line, s))
  {
    var i, out := BisectSpan(line, s), InsertSpan(line, s);
    forall a, b | 0 <= a < b < |out| ensures !Before(out[b], out[a]) {
      InsertAt(line, s, a);
      InsertAt(line, s, b);
      if a == i && b > i { assert !Before(line[b - 1], line[i]); }
    }
  }

  /** On a tidy line, looking at the neighbours is as good as looking at everything. */
  lemma {:induction false} CheckIsFullScan(line: seq<Span>, s: Span)
    requires Tidy(line) && s.start < s.end
    ensures CheckOverlap(line, s) <==> OverlapsAny(line, s)
  {
    var i := BisectStart(line, s.start);
    if CheckOverlap(line, s) {
      assert Overlap(line[if i > 0 && line[i - 1].end > s.start then i - 1 else i], s);
    }
    if k :| 0 <= k < |line| && Overlap(line[k], s) {
      if k < i {
        assert line[k].end <= line[i - 1].end;
      } else {
        assert line[i].start <= line[k].start;
      }
    }
  }

  /** A span that overlaps nothing keeps the line tidy. */
  lemma {:induction false} InsertKeepsTidy(line: seq<Span>, s: Span)
    requires Tidy(line) && s.start < s.end && !OverlapsAny(line, s)
    ensures Tidy(InsertSpan(line, s))
  {
    var i, out := BisectSpan(line, s), InsertSpan(line, s);
    forall j | 0 <= j < |line| ensures if j < i then line[j].end <= s.start else s.end <= line[j].start {
      assert !Overlap(line[j], s);
      if j > i { assert line[i].end <= line[j].start; }
    }
    forall a, b | 0 <= a < b < |out| ensures out[a].end <= out[b].start {
      InsertAt(line, s, a);
      InsertAt(line, s, b);
    }
    forall a | 0 <= a < |out| ensures out[a].start < out[a].end { InsertAt(line, s, a); }
  }

  // ---- Spans of length zero --------------------------------------------------------------------

  predicate Positive(s: Span)
  {
    s.start < s.end
  }

  /** What a line can be when spans of length zero are placed on it unchecked: sorted, with its spans of
      positive length apart. */
  ghost predicate Proper(line: seq<Span>)
  {
    && Sorted(line) && (forall i :: 0 <= i < |line| ==> line[i].start <= line[i].end)
    && (forall i, j :: 0 <= i < j < |line| && Positive(line[i]) && Positive(line[j]) ==> line[i].end <= line[j].start)
  }

  /** A span overlaps one of positive length. */
  ghost predicate OverlapsPositive(line: seq<Span>, s: Span)
  {
    exists i :: 0 <= i < |line| && Positive(line[i]) && Overlap(line[i], s)
  }

  /** Any span of length zero, and any of positive length that overlaps none of those, may be inserted. */
  lemma {:induction false} InsertKeepsProper(line: seq<Span>, s: Span)
    requires Proper(line) && s.start <= s.end && (Positive(s) ==> !OverlapsPositive(line, s))
    ensures Proper(InsertSpan(line, s))
  {
    var i, out := BisectSpan(line, s), InsertSpan(line, s);
    InsertKeepsSorted(line, s);
    forall j | 0 <= j < |line| && Positive(line[j]) && Positive(s)
      ensures if j < i then line[j].end <= s.start else s.end <= line[j].start
    {
      assert !Overlap(line[j], s);
      if j > i { assert !Before(line[j], line[i]); }
    }
    forall a | 0 <= a < |out| ensures out[a].start <= out[a].end { InsertAt(line, s, a); }
    forall a, b | 0 <= a < b < |out| && Positive(out[a]) && Positive(out[b]) ensures out[a].end <= out[b].start {
      InsertAt(line, s, a);
      InsertAt(line, s, b);
    }
  }

  /** A check that finds nothing can be trusted, for every span of positive length. */
  ghost predicate Trustworthy(line: seq<Span>)
  {
    forall s: Span :: Positive(s) && !CheckOverlap(line, s) ==> !OverlapsAny(line, s)
  }

  /** Time t lies inside s, and not in its last unit. */
  predicate Inside(s: Span, t: int)
  {
    s.start < t && t + 1 < s.end
  }

  ghost predicate HasZeroAt(line: seq<Span>, t: int)
  {
    exists i :: 0 <= i < |line| && line[i] == Span(t, t)
  }

  ghost predicate HasInside(line: seq<Span>, t: int)
  {
    exists i :: 0 <= i < |line| && Inside(line[i], t)
  }

  ghost predicate StartsAt(line: seq<Span>, t: int)
  {
    exists i :: 0 <= i < |line| && line[i].start == t
  }

  /** A span of length zero lies inside another span of the line, and no span starts right after it. */
  ghost predicate Hidden(line: seq<Span>, t: int)
  {
    HasZeroAt(line, t) && HasInside(line, t) && !StartsAt(line, t + 1)
  }

  /** The span one unit after a hidden time passes the check, and overlaps. */
  lemma HiddenMisleads(line: seq<Span>, t: int)
    requires Proper(line) && Hidden(line, t)
    ensures !Trustworthy(line)
  {
    var s := Span(t + 1, t + 2);
    var z :| 0 <= z < |line| && line[z] == Span(t, t);
    var p :| 0 <= p < |line| && Inside(line[p], t);
    var b := BisectStart(line, t + 1);
    assert z < b && p < b by { SortedStarts(line, b); }
    LastIsZero(line, t, z, p, b);
    assert b < |line| ==> line[b].start != t + 1;
    assert Overlap(line[p], s) && OverlapsAny(line, s);
    assert !CheckOverlap(line, s);
  }

  lemma PositiveApart(line: seq<Span>, a: nat, b: nat)
    requires Proper(line) && a <= b < |line|
    ensures Positive(line[a]) && Positive(line[b]) ==> a == b || line[a].end <= line[b].start
  {
  }

  lemma SortedStarts(line: seq<Span>, b: nat)
    requires Sorted(line) && b <= |line|
    ensures forall k :: b <= k < |line| ==> line[b].start <= line[k].start
  {
    forall k | b <= k < |line| ensures line[b].start <= line[k].start {
      assert k == b || !Before(line[k], line[b]);
    }
  }

  /** What stands last before time t + 1 is a span of length zero at t. */
  lemma LastIsZero(line: seq<Span>, t: int, z: nat, p: nat, b: nat)
    requires Proper(line) && z < b <= |line| && p < b && line[z] == Span(t, t) && Inside(line[p], t)
    requires forall k :: 0 <= k < b ==> line[k].start < t + 1
    ensures line[b - 1] == Span(t, t)
  {
    var last := line[b - 1];
    assert z == b - 1 || !Before(last, line[z]);
    assert last.start == t;
    PositiveApart(line, p, b - 1);
  }

  /** Without a hidden time, whatever the span overlaps shows in the check. */
  lemma {:induction false} NothingMisleads(line: seq<Span>, s: Span, k: nat)
    requires Proper(line) && Positive(s) && k < |line| && Overlap(line[k], s) && !CheckOverlap(line, s)
    ensures exists t :: Hidden(line, t)
  {
    var b := BisectStart(line, s.start);
    SortedStarts(line, b);
    assert k < b;
    var last := line[b - 1];
    PositiveApart(line, k, b - 1);
    var t := last.start;
    assert last == Span(t, t);
    assert k < b - 1 && !Before(last, line[k]);
    assert Inside(line[k], t);
    NoneStartsNext(line, s, b, t);
    assert Hidden(line, t);
  }

  lemma NoneStartsNext(line: seq<Span>, s: Span, b: nat, t: int)
    requires Sorted(line) && 0 < b <= |line| && line[b - 1].start == t < s.start < s.end
    requires (forall k :: 0 <= k < b ==> line[k].start < s.start) && (b < |line| ==> s.end <= line[b].start)
    ensures !StartsAt(line, t + 1)
  {
    forall k | 0 <= k < |line| ensures line[k].start != t + 1 {
      if k < b { assert k == b - 1 || !Before(line[b - 1], line[k]); } else { SortedStarts(line, b); }
    }
  }

  /** Exactly when the neighbour check of a line can be trusted, however many spans of length zero it holds. */
  lemma {:induction false} TrustworthyIff(line: seq<Span>)
    requires Proper(line)
    ensures Trustworthy(line) <==> forall t :: !Hidden(line, t)
  {
    if t :| Hidden(line, t) { HiddenMisleads(line, t); }
    if forall t :: !Hidden(line, t) {
      forall s: Span | Positive(s) && !CheckOverlap(line, s) ensures !OverlapsAny(line, s) {
        if k :| 0 <= k < |line| && Overlap(line[k], s) { NothingMisleads(line, s, k); }
      }
    }
  }

  /** (5, 5) goes unchecked to the line of (0, 10) and hides it from (6, 7). */
  lemma {:induction false} HiddenExample()
    ensures InsertSpan([], Span(0, 10)) == [Span(0, 10)]
    ensures InsertSpan([Span(0, 10)], Span(5, 5)) == [Span(0, 10), Span(5, 5)]
    ensures !CheckOverlap([Span(0, 10), Span(5, 5)], Span(6, 7))
  {
    InsertFirst(Span(0, 10));
    InsertLast(Span(0, 10), Span(5, 5));
    StartsOfTwo(Span(0, 10), Span(5, 5), 6);
    hide InsertSpan, BisectStart;
  }

  lemma InsertFirst(s: Span)
    ensures InsertSpan([], s) == [s]
  {
  }

  lemma InsertLast(a: Span, s: Span)
    requires Before(a, s)
    ensures InsertSpan([a], s) == [a, s]
  {
    assert BisectSpan([a], s) == 1;
  }

  lemma StartsOfTwo(a: Span, b: Span, start: int)
    requires a.start < start && b.start < start
    ensures BisectStart([a, b], start) == 2
  {
    var line := [a, b];
    assert line[0] == a && line[1] == b;
  }
}
