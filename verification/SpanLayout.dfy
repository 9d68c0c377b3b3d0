/** Assigning trace spans to display lines, process by process. */
module SpanLayout {
  import opened Options
  import opened Spans

  datatype Job = Job(pid: nat, span: Span)

  /** A display line and its intervals. A process's lines are listed in the order they were made. */
  datatype Row = Row(line: nat, intervals: seq<Span>)

  type Graph = map<nat, seq<Row>>

  datatype Placement = Placement(job: Job, line: nat)

  ghost predicate AllProper(rows: seq<Row>)
  {
    forall k :: 0 <= k < |rows| ==> Proper(rows[k].intervals)
  }

  /** Spans do not end before they start, and none of length zero lies inside another span of its process. */
  ghost predicate Calm(jobs: seq<Job>)
  {
    && (forall i :: 0 <= i < |jobs| ==> jobs[i].span.start <= jobs[i].span.end)
    && (forall i, k :: 0 <= i < |jobs| && 0 <= k < |jobs| && jobs[i].pid == jobs[k].pid && !Positive(jobs[i].span) ==>
          !Inside(jobs[k].span, jobs[i].span.start))
  }

  /** The spans placed on one line, in order of placement. */
  function OnLine(placed: seq<Placement>, pid: nat, line: nat): seq<Span>
  {
    if placed == [] then []
    else
      var p := placed[|placed| - 1];
      OnLine(placed[..|placed| - 1], pid, line) + (if p.job.pid == pid && p.line == line then [p.job.span] else [])
  }

  lemma {:induction false} OnLineHas(placed: seq<Placement>, i: nat)
    requires i < |placed|
    ensures placed[i].job.span in OnLine(placed, placed[i].job.pid, placed[i].line)
  {
    if i < |placed| - 1 { OnLineHas(placed[..|placed| - 1], i); }
  }

  /** No two spans of positive length of one process on one line overlap. */
  ghost predicate Apart(placed: seq<Placement>)
  {
    forall i, j ::
      && 0 <= i < j < |placed| && placed[i].job.pid == placed[j].job.pid && placed[i].line == placed[j].line
      && Positive(placed[i].job.span) && Positive(placed[j].job.span) ==>
      !Overlap(placed[i].job.span, placed[j].job.span)
  }

  function JobsOf(placed: seq<Placement>): seq<Job>
  {
    seq(|placed|, i requires 0 <= i < |placed| => placed[i].job)
  }

  function AllJobs(rooms: seq<seq<Job>>): seq<Job>
  {
    if rooms == [] then [] else AllJobs(rooms[..|rooms| - 1]) + rooms[|rooms| - 1]
  }

  function Zip(jobs: seq<Job>, lines: seq<nat>): seq<Placement>
    requires |jobs| == |lines|
  {
    seq(|jobs|, i requires 0 <= i < |jobs| => Placement(jobs[i], lines[i]))
  }

  /** All placements, request by request. */
  function ZipAll(rooms: seq<seq<Job>>, lines: seq<seq<nat>>): seq<Placement>
    requires |rooms| == |lines| && forall r :: 0 <= r < |rooms| ==> |rooms[r]| == |lines[r]|
  {
    if rooms == [] then []
    else
      var n := |rooms| - 1;
      ZipAll(rooms[..n], lines[..n]) + Zip(rooms[n], lines[n])
  }

  ghost predicate HoldsPlaced(row: Row, placed: seq<Placement>, pid: nat, line: nat)
  {
    row.line == line && multiset(row.intervals) == multiset(OnLine(placed, pid, line))
  }

  ghost predicate Listed(graph: Graph, p: Placement)
  {
    p.job.pid in graph && 1 <= p.line <= |graph[p.job.pid]|
  }

  /** Lines are numbered from 1 without a gap, every placement is on one of them, and each line holds
      exactly the spans placed there. */
  ghost predicate RowsMatch(graph: Graph, placed: seq<Placement>)
  {
    && (forall i :: 0 <= i < |placed| ==> Listed(graph, placed[i]))
    && (forall pid, k :: pid in graph && 0 <= k < |graph[pid]| ==> HoldsPlaced(graph[pid][k], placed, pid, k + 1))
  }

  ghost predicate GraphProper(graph: Graph)
  {
    forall pid :: pid in graph ==> AllProper(graph[pid])
  }

  /** Lines remembered for the current request exist. */
  ghost predicate StatusOk(graph: Graph, status: map<nat, nat>)
  {
    forall pid :: pid in status ==> pid in graph && 1 <= status[pid] <= |graph[pid]|
  }

  /** A process's rows, if it has any. */
  function RowsOf(graph: Graph, pid: nat): seq<Row>
  {
    if pid in graph then graph[pid] else []
  }

  /** One more, empty, line for a process. */
  function Extended(graph: Graph, pid: nat): Graph
  {
    graph[pid := RowsOf(graph, pid) + [Row(|RowsOf(graph, pid)| + 1, [])]]
  }

  /** A span inserted on an existing line. */
  function Inserted(graph: Graph, pid: nat, line: nat, s: Span): Graph
    requires pid in graph && 1 <= line <= |graph[pid]|
  {
    var row := graph[pid][line - 1];
    graph[pid := graph[pid][line - 1 := row.(intervals := InsertSpan(row.intervals, s))]]
  }

  lemma {:induction false} NothingBeyond(graph: Graph, placed: seq<Placement>, m: nat, pid: nat, line: nat)
    requires RowsMatch(graph, placed) && m <= |placed| && line > |RowsOf(graph, pid)|
    ensures OnLine(placed[..m], pid, line) == []
  {
    if m > 0 {
      NothingBeyond(graph, placed, m - 1, pid, line);
      assert placed[..m][..m - 1] == placed[..m - 1] && placed[..m][m - 1] == placed[m - 1];
      assert Listed(graph, placed[m - 1]);
    }
  }

  lemma ExtendedAt(graph: Graph, pid: nat, q: nat, k: nat)
    requires q in Extended(graph, pid) && k < |Extended(graph, pid)[q]|
    ensures || (q == pid && k == |RowsOf(graph, pid)| && Extended(graph, pid)[q][k] == Row(k + 1, []))
            || (q in graph && k < |graph[q]| && Extended(graph, pid)[q][k] == graph[q][k])
  {
  }

  lemma ExtendedHas(graph: Graph, pid: nat, p: Placement)
    requires Listed(graph, p)
    ensures Listed(Extended(graph, pid), p)
  {
  }

  lemma NewRow(graph: Graph, placed: seq<Placement>, pid: nat, line: nat)
    requires RowsMatch(graph, placed) && line == |RowsOf(graph, pid)| + 1
    ensures HoldsPlaced(Row(line, []), placed, pid, line)
  {
    NothingBeyond(graph, placed, |placed|, pid, line);
    assert placed[..|placed|] == placed;
  }

  lemma ExtendKeeps(graph: Graph, placed: seq<Placement>, pid: nat)
    requires RowsMatch(graph, placed)
    ensures RowsMatch(Extended(graph, pid), placed)
  {
    NewRow(graph, placed, pid, |RowsOf(graph, pid)| + 1);
    hide HoldsPlaced, OnLine, Listed, RowsOf, Extended;
    var after := Extended(graph, pid);
    forall i | 0 <= i < |placed| ensures Listed(after, placed[i]) { ExtendedHas(graph, pid, placed[i]); }
    forall q, k | q in after && 0 <= k < |after[q]| ensures HoldsPlaced(after[q][k], placed, q, k + 1) {
      ExtendedAt(graph, pid, q, k);
    }
  }

  lemma ExtendKeepsProper(graph: Graph, pid: nat)
    requires GraphProper(graph)
    ensures GraphProper(Extended(graph, pid))
  {
    assert Proper([]);
    hide Proper, RowsOf, Extended;
    var after := Extended(graph, pid);
    forall q | q in after ensures AllProper(after[q]) {
      forall k | 0 <= k < |after[q]| ensures Proper(after[q][k].intervals) {
        ExtendedAt(graph, pid, q, k);
        assert q in graph ==> AllProper(graph[q]);
      }
    }
  }

  lemma OnLineNext(placed: seq<Placement>, p: Placement, pid: nat, line: nat)
    ensures OnLine(placed + [p], pid, line) ==
            OnLine(placed, pid, line) + (if p.job.pid == pid && p.line == line then [p.job.span] else [])
  {
    assert (placed + [p])[..|placed|] == placed;
  }

  lemma InsertKeeps(graph: Graph, placed: seq<Placement>, pid: nat, line: nat, s: Span)
    requires RowsMatch(graph, placed) && pid in graph && 1 <= line <= |graph[pid]|
    ensures RowsMatch(Inserted(graph, pid, line, s), placed + [Placement(Job(pid, s), line)])
  {
    hide InsertSpan, OnLine;
    var p, after := Placement(Job(pid, s), line), Inserted(graph, pid, line, s);
    forall q, k | q in after && 0 <= k < |after[q]| ensures HoldsPlaced(after[q][k], placed + [p], q, k + 1) {
      assert HoldsPlaced(graph[q][k], placed, q, k + 1);
      OnLineNext(placed, p, q, k + 1);
      if q == pid && k == line - 1 { InsertKeepsAll(graph[pid][k].intervals, s); }
    }
    forall i | 0 <= i < |placed| ensures Listed(after, placed[i]) { assert Listed(graph, placed[i]); }
  }

  /** A span of a line is one that was placed there. */
  lemma RowSpanWasPlaced(graph: Graph, placed: seq<Placement>, pid: nat, line: nat, s: Span) returns (i: nat)
    requires RowsMatch(graph, placed) && pid in graph && 1 <= line <= |graph[pid]|
    requires s in graph[pid][line - 1].intervals
    ensures i < |placed| && placed[i] == Placement(Job(pid, s), line)
  {
    assert HoldsPlaced(graph[pid][line - 1], placed, pid, line);
    assert s in multiset(graph[pid][line - 1].intervals);
    assert s in multiset(OnLine(placed, pid, line));
    i := OnLineFinds(placed, pid, line, s);
  }

  lemma {:induction false} OnLineFinds(placed: seq<Placement>, pid: nat, line: nat, s: Span) returns (i: nat)
    requires s in OnLine(placed, pid, line)
    ensures i < |placed| && placed[i] == Placement(Job(pid, s), line)
  {
    var n := |placed| - 1;
    if placed[n] == Placement(Job(pid, s), line) { i := n; } else { i := OnLineFinds(placed[..n], pid, line, s); }
  }

  lemma CalmAt(placed: seq<Placement>, i: nat, k: nat)
    requires Calm(JobsOf(placed)) && i < |placed| && k < |placed| && placed[i].job.pid == placed[k].job.pid
    ensures !Positive(placed[i].job.span) ==> !Inside(placed[k].job.span, placed[i].job.span.start)
  {
    var jobs := JobsOf(placed);
    assert jobs[i] == placed[i].job && jobs[k] == placed[k].job;
  }

  /** Calm input leaves no hidden time on any line. */
  lemma CalmIsTrustworthy(graph: Graph, placed: seq<Placement>, pid: nat, line: nat)
    requires RowsMatch(graph, placed) && GraphProper(graph) && Calm(JobsOf(placed))
    requires pid in graph && 1 <= line <= |graph[pid]|
    ensures Trustworthy(graph[pid][line - 1].intervals)
  {
    var spans := graph[pid][line - 1].intervals;
    assert AllProper(graph[pid]);
    forall t ensures !Hidden(spans, t) {
      if HasZeroAt(spans, t) && HasInside(spans, t) {
        var p :| 0 <= p < |spans| && Inside(spans[p], t);
        var i := RowSpanWasPlaced(graph, placed, pid, line, Span(t, t));
        var k := RowSpanWasPlaced(graph, placed, pid, line, spans[p]);
        CalmAt(placed, i, k);
      }
    }
    TrustworthyIff(spans);
  }

  lemma ApartGrows(graph: Graph, placed: seq<Placement>, pid: nat, line: nat, s: Span)
    requires RowsMatch(graph, placed) && Apart(placed) && pid in graph && 1 <= line <= |graph[pid]|
    requires Positive(s) ==> !OverlapsAny(graph[pid][line - 1].intervals, s)
    ensures Apart(placed + [Placement(Job(pid, s), line)])
  {
    forall i | 0 <= i < |placed| && placed[i].job.pid == pid && placed[i].line == line && Positive(s)
      ensures !Overlap(placed[i].job.span, s)
    {
      OnLineHas(placed, i);
      assert HoldsPlaced(graph[pid][line - 1], placed, pid, line);
      var on, intervals := OnLine(placed, pid, line), graph[pid][line - 1].intervals;
      assert placed[i].job.span in multiset(on);
      assert placed[i].job.span in multiset(intervals);
      var k :| 0 <= k < |intervals| && intervals[k] == placed[i].job.span;
    }
  }

  lemma ProperGrows(graph: Graph, pid: nat, line: nat, s: Span)
    requires GraphProper(graph) && pid in graph && 1 <= line <= |graph[pid]| && s.start <= s.end
    requires Positive(s) ==> !OverlapsAny(graph[pid][line - 1].intervals, s)
    ensures GraphProper(Inserted(graph, pid, line, s))
  {
    assert AllProper(graph[pid]);
    var spans := graph[pid][line - 1].intervals;
    assert Positive(s) ==> !OverlapsPositive(spans, s);
    InsertKeepsProper(spans, s);
    hide Proper, InsertSpan, OverlapsAny, OverlapsPositive;
    var after := Inserted(graph, pid, line, s);
    forall q | q in after ensures AllProper(after[q]) { assert AllProper(graph[q]); }
  }

  /** The first line a span does not collide on according to the check, or one past the last. */
  function FirstFree(rows: seq<Row>, s: Span): (line: nat)
    ensures 1 <= line <= |rows| + 1 && (forall k :: 0 <= k < line - 1 ==> CheckOverlap(rows[k].intervals, s))
    ensures line <= |rows| ==> !CheckOverlap(rows[line - 1].intervals, s)
  {
    if rows == [] || !CheckOverlap(rows[0].intervals, s) then 1 else 1 + FirstFree(rows[1..], s)
  }

  /** The line last used by this request and process if the span fits there or has length zero, else the
      first that fits, else a new one. */
  function LineFor(graph: Graph, status: map<nat, nat>, pid: nat, s: Span): nat
    requires pid in status ==> pid in graph && 1 <= status[pid] <= |graph[pid]|
  {
    if pid in status && (s.start == s.end || !CheckOverlap(graph[pid][status[pid] - 1].intervals, s)) then status[pid]
    else FirstFree(RowsOf(graph, pid), s)
  }

  /** The rule for a line: stay on the line last used, unless a span of positive length collides there; else take the
      first line on which the span does not collide, and a new one only if it collides on all. */
  ghost predicate Chosen(rows: seq<Row>, last: Option<nat>, s: Span, line: nat)
  {
    if last.Some? && 1 <= last.value <= |rows| &&
       (s.start == s.end || !CheckOverlap(rows[last.value - 1].intervals, s)) then line == last.value
    else
      && 1 <= line <= |rows| + 1 && (forall k :: 0 <= k < line - 1 ==> CheckOverlap(rows[k].intervals, s))
      && (line <= |rows| ==> !CheckOverlap(rows[line - 1].intervals, s))
  }

  function Remembered(status: map<nat, nat>, pid: nat): Option<nat>
  {
    if pid in status then Some(status[pid]) else None
  }

  lemma LineForIsChosen(graph: Graph, status: map<nat, nat>, pid: nat, s: Span)
    requires StatusOk(graph, status)
    ensures Chosen(RowsOf(graph, pid), Remembered(status, pid), s, LineFor(graph, status, pid, s))
  {
    hide FirstFree, CheckOverlap;
  }

  lemma ChosenPasses(graph: Graph, status: map<nat, nat>, pid: nat, s: Span)
    requires StatusOk(graph, status) && Positive(s)
    ensures var (line, rows) := (LineFor(graph, status, pid, s), RowsOf(graph, pid));
            1 <= line <= |rows| + 1 && (line <= |rows| ==> !CheckOverlap(rows[line - 1].intervals, s))
  {
    hide FirstFree, CheckOverlap;
  }

  /** With calm input the chosen line, if it exists, has room for a span of positive length. */
  lemma LineIsClear(graph: Graph, placed: seq<Placement>, status: map<nat, nat>, pid: nat, s: Span)
    requires RowsMatch(graph, placed) && GraphProper(graph) && Calm(JobsOf(placed)) && StatusOk(graph, status)
    requires Positive(s)
    ensures var line := LineFor(graph, status, pid, s);
            1 <= line <= |RowsOf(graph, pid)| ==> !OverlapsAny(RowsOf(graph, pid)[line - 1].intervals, s)
  {
    ChosenPasses(graph, status, pid, s);
    hide *;
    ClearOn(graph, placed, pid, LineFor(graph, status, pid, s), s);
  }

  lemma ClearOn(graph: Graph, placed: seq<Placement>, pid: nat, line: nat, s: Span)
    requires RowsMatch(graph, placed) && GraphProper(graph) && Calm(JobsOf(placed)) && Positive(s)
    requires 1 <= line <= |RowsOf(graph, pid)| ==> !CheckOverlap(RowsOf(graph, pid)[line - 1].intervals, s)
    ensures 1 <= line <= |RowsOf(graph, pid)| ==> !OverlapsAny(RowsOf(graph, pid)[line - 1].intervals, s)
  {
    hide FirstFree, CheckOverlap, OverlapsAny, RowsMatch, GraphProper, Calm, JobsOf;
    if 1 <= line <= |RowsOf(graph, pid)| {
      CalmIsTrustworthy(graph, placed, pid, line);
    }
  }

  /** Every line is announced exactly once. */
  ghost predicate SlotsOk(graph: Graph, slots: seq<(nat, nat)>)
  {
    && (forall i, j :: 0 <= i < j < |slots| ==> slots[i] != slots[j])
    && (forall pid, line :: (pid, line) in slots <==> pid in graph && 1 <= line <= |graph[pid]|)
  }

  lemma SlotsGrow(graph: Graph, slots: seq<(nat, nat)>, pid: nat)
    requires SlotsOk(graph, slots)
    ensures SlotsOk(Extended(graph, pid), slots + [(pid, |RowsOf(graph, pid)| + 1)])
  {
  }

  /** An insertion leaves the lines as they are. */
  lemma InsertKeepsShape(graph: Graph, pid: nat, line: nat, s: Span, slots: seq<(nat, nat)>, status: map<nat, nat>)
    requires pid in graph && 1 <= line <= |graph[pid]| && SlotsOk(graph, slots) && StatusOk(graph, status)
    ensures SlotsOk(Inserted(graph, pid, line, s), slots) && StatusOk(Inserted(graph, pid, line, s), status)
  {
    var after := Inserted(graph, pid, line, s);
    assert after.Keys == graph.Keys && forall q :: q in graph ==> |after[q]| == |graph[q]|;
  }

  /** The graph after FindLine. */
  function Prepared(graph: Graph, pid: nat, line: nat): Graph
  {
    if line <= |RowsOf(graph, pid)| then graph else Extended(graph, pid)
  }

  lemma PreparedClear(graph: Graph, placed: seq<Placement>, status: map<nat, nat>, pid: nat, s: Span, line: nat)
    requires RowsMatch(graph, placed) && GraphProper(graph) && Calm(JobsOf(placed)) && StatusOk(graph, status)
    requires line == LineFor(graph, status, pid, s)
    ensures var after := Prepared(graph, pid, line);
            && GraphProper(after) && pid in after && 1 <= line <= |after[pid]|
            && (Positive(s) ==> !OverlapsAny(after[pid][line - 1].intervals, s))
  {
    hide GraphProper, CheckOverlap, FirstFree, LineFor, RowsMatch, Calm, JobsOf, StatusOk, InsertSpan;
    ChosenExists(graph, status, pid, s);
    if Positive(s) { LineIsClear(graph, placed, status, pid, s); }
    ExtendKeepsProper(graph, pid);
  }

  // ---- The whole layout as a function ----------------------------------------------------------

  lemma ChosenExists(graph: Graph, status: map<nat, nat>, pid: nat, s: Span)
    requires StatusOk(graph, status)
    ensures var (line, after) := (LineFor(graph, status, pid, s), Prepared(graph, pid, LineFor(graph, status, pid, s)));
            && 1 <= line <= |RowsOf(graph, pid)| + 1 && pid in after && line <= |after[pid]|
            && StatusOk(Inserted(after, pid, line, s), status[pid := line])
  {
    hide FirstFree, CheckOverlap, InsertSpan;
  }

  /** One span placed: the graph, and the line it went to, which the request remembers. */
  function PlaceOne(graph: Graph, status: map<nat, nat>, job: Job): (r: (Graph, nat))
    requires StatusOk(graph, status)
    ensures StatusOk(r.0, status[job.pid := r.1])
  {
    ChosenExists(graph, status, job.pid, job.span);
    var line := LineFor(graph, status, job.pid, job.span);
    (Inserted(Prepared(graph, job.pid, line), job.pid, line, job.span), line)
  }

  /** The spans of one request placed in turn: the graph, the lines remembered, and the lines used. */
  function RoomResult(graph: Graph, jobs: seq<Job>): (r: (Graph, map<nat, nat>, seq<nat>))
    ensures StatusOk(r.0, r.1) && |r.2| == |jobs|
  {
    if jobs == [] then (graph, map[], [])
    else
      var job := jobs[|jobs| - 1];
      var (before, status, lines) := RoomResult(graph, jobs[..|jobs| - 1]);
      var (after, line) := PlaceOne(before, status, job);
      (after, status[job.pid := line], lines + [line])
  }

  /** The line of the last of the first n spans that is of this process. */
  function LastLine(jobs: seq<Job>, lines: seq<nat>, n: nat, pid: nat): Option<nat>
    requires n <= |jobs| && n <= |lines|
  {
    if n == 0 then None else if jobs[n - 1].pid == pid then Some(lines[n - 1]) else LastLine(jobs, lines, n - 1, pid)
  }

  lemma {:induction false} RoomPrefix(graph: Graph, jobs: seq<Job>, n: nat)
    requires n <= |jobs|
    ensures RoomResult(graph, jobs[..n]).2 == RoomResult(graph, jobs).2[..n]
  {
    hide PlaceOne;
    if n < |jobs| {
      var front := jobs[..|jobs| - 1];
      RoomPrefix(graph, front, n);
      assert front[..n] == jobs[..n];
    } else {
      assert jobs[..n] == jobs;
    }
  }

  /** What a request remembers is where it last put a span of the process. */
  lemma {:induction false} RoomRemembers(graph: Graph, jobs: seq<Job>, n: nat, pid: nat)
    requires n <= |jobs|
    ensures Remembered(RoomResult(graph, jobs[..n]).1, pid) == LastLine(jobs, RoomResult(graph, jobs).2, n, pid)
  {
    hide PlaceOne;
    if n > 0 {
      RoomRemembers(graph, jobs, n - 1, pid);
      RoomPrefix(graph, jobs, n);
      assert jobs[..n][..n - 1] == jobs[..n - 1];
    }
  }

  /** Every span of a request goes where the rule says, given the lines the request has used before. */
  ghost predicate FollowsRule(graph: Graph, jobs: seq<Job>, lines: seq<nat>)
  {
    |lines| == |jobs| &&
    forall i :: 0 <= i < |jobs| ==>
      Chosen(RowsOf(RoomResult(graph, jobs[..i]).0, jobs[i].pid), LastLine(jobs, lines, i, jobs[i].pid),
             jobs[i].span, lines[i])
  }

  lemma RoomFollowsRule(graph: Graph, jobs: seq<Job>)
    ensures FollowsRule(graph, jobs, RoomResult(graph, jobs).2)
  {
    hide Chosen, RoomResult, LastLine;
    forall i | 0 <= i < |jobs|
      ensures var lines := RoomResult(graph, jobs).2;
              Chosen(RowsOf(RoomResult(graph, jobs[..i]).0, jobs[i].pid), LastLine(jobs, lines, i, jobs[i].pid),
                     jobs[i].span, lines[i])
    {
      RoomChooses(graph, jobs, i);
    }
  }

  lemma RoomChooses(graph: Graph, jobs: seq<Job>, i: nat)
    requires i < |jobs|
    ensures var lines := RoomResult(graph, jobs).2;
            Chosen(RowsOf(RoomResult(graph, jobs[..i]).0, jobs[i].pid), LastLine(jobs, lines, i, jobs[i].pid),
                   jobs[i].span, lines[i])
  {
    hide Chosen, LineFor, LastLine, StatusOk, Inserted, Prepared;
    var (before, status, _) := RoomResult(graph, jobs[..i]);
    RoomPrefix(graph, jobs, i + 1);
    RoomRemembers(graph, jobs, i, jobs[i].pid);
    LineForIsChosen(before, status, jobs[i].pid, jobs[i].span);
    assert jobs[..i + 1][..i] == jobs[..i];
    assert RoomResult(graph, jobs[..i + 1]).2[i] == PlaceOne(before, status, jobs[i]).1;
  }

  /** All requests in turn: the graph and the lines used. */
  function LayoutResult(graph: Graph, rooms: seq<seq<Job>>): (r: (Graph, seq<seq<nat>>))
    ensures |r.1| == |rooms| && forall k :: 0 <= k < |rooms| ==> |r.1[k]| == |rooms[k]|
  {
    if rooms == [] then (graph, [])
    else
      var (before, lines) := LayoutResult(graph, rooms[..|rooms| - 1]);
      var (after, _, room) := RoomResult(before, rooms[|rooms| - 1]);
      (after, lines + [room])
  }

  /** Placing one more span keeps the lines proper and the positive spans apart, if the input stays calm. */
  lemma PlaceKeeps(graph: Graph, placed: seq<Placement>, status: map<nat, nat>, job: Job, line: nat)
    requires RowsMatch(graph, placed) && StatusOk(graph, status) && line == LineFor(graph, status, job.pid, job.span)
    requires Calm(JobsOf(placed)) ==> GraphProper(graph) && Apart(placed)
    ensures var (after, more) := (Prepared(graph, job.pid, line), placed + [Placement(job, line)]);
            && job.pid in after && 1 <= line <= |after[job.pid]|
            && (Calm(JobsOf(more)) ==> GraphProper(Inserted(after, job.pid, line, job.span)) && Apart(more))
  {
    var more := placed + [Placement(job, line)];
    ChosenExists(graph, status, job.pid, job.span);
    if Calm(JobsOf(more)) {
      JobsOfJoin(placed, [Placement(job, line)]);
      CalmPrefix(JobsOf(placed), JobsOf([Placement(job, line)]));
      assert JobsOf(more)[|placed|] == job && job.span.start <= job.span.end;
      PreparedClear(graph, placed, status, job.pid, job.span, line);
      ExtendKeeps(graph, placed, job.pid);
      hide RowsMatch, GraphProper, Apart, Calm, LineFor, Inserted, OverlapsAny, RowsOf, Extended;
      ApartGrows(Prepared(graph, job.pid, line), placed, job.pid, line, job.span);
      ProperGrows(Prepared(graph, job.pid, line), job.pid, line, job.span);
    }
  }

  lemma JobsOfJoin(a: seq<Placement>, b: seq<Placement>)
    ensures JobsOf(a + b) == JobsOf(a) + JobsOf(b)
  {
  }

  lemma CalmPrefix(a: seq<Job>, b: seq<Job>)
    requires Calm(a + b)
    ensures Calm(a)
  {
    assert forall i :: 0 <= i < |a| ==> (a + b)[i] == a[i];
  }

  lemma {:induction false} ZipAllJobs(rooms: seq<seq<Job>>, lines: seq<seq<nat>>)
    requires |rooms| == |lines| && forall r :: 0 <= r < |rooms| ==> |rooms[r]| == |lines[r]|
    ensures JobsOf(ZipAll(rooms, lines)) == AllJobs(rooms)
  {
    if rooms != [] {
      var n := |rooms| - 1;
      ZipAllJobs(rooms[..n], lines[..n]);
      JobsOfJoin(ZipAll(rooms[..n], lines[..n]), Zip(rooms[n], lines[n]));
      assert JobsOf(Zip(rooms[n], lines[n])) == rooms[n];
    }
  }

  class Layout {
    var graph: Graph
    /** The lines announced to the viewer, one entry per line. */
    var slots: seq<(nat, nat)>
    ghost var placed: seq<Placement>

    /** Calm input so far has left every line proper and spans of positive length apart. */
    ghost predicate Valid()
      reads this
    {
      && RowsMatch(graph, placed) && SlotsOk(graph, slots)
      && (Calm(JobsOf(placed)) ==> GraphProper(graph) && Apart(placed))
    }

    constructor ()
      ensures Valid() && placed == [] && graph == map[]
    {
      graph, slots, placed := map[], [], [];
    }

    method FindLine(pid: nat, s: Span, status: map<nat, nat>) returns (line: nat, after: map<nat, nat>)
      requires Valid() && StatusOk(graph, status)
      modifies this`graph, this`slots
      ensures line == LineFor(old(graph), status, pid, s) && after == status[pid := line]
      ensures graph == Prepared(old(graph), pid, line)
      ensures Chosen(RowsOf(old(graph), pid), Remembered(status, pid), s, line)
      ensures if line <= |RowsOf(old(graph), pid)| then graph == old(graph) && slots == old(slots)
              else slots == old(slots) + [(pid, line)]
      ensures RowsMatch(graph, placed) && SlotsOk(graph, slots)
      ensures StatusOk(graph, after) && pid in graph && 1 <= line <= |graph[pid]|
    {
      hide HoldsPlaced, CheckOverlap, Calm, GraphProper, Apart;
      LineForIsChosen(graph, status, pid, s);
      hide Chosen;
      if pid in status {
        line := status[pid];
        after := status;
        assert status[pid := line] == status;
        if s.start == s.end { return; }
        if !CheckOverlap(graph[pid][line - 1].intervals, s) { return; }
      }
      if pid in graph {
        for k := 0 to |graph[pid]|
          invariant forall j :: 0 <= j < k ==> CheckOverlap(graph[pid][j].intervals, s)
        {
          if !CheckOverlap(graph[pid][k].intervals, s) {
            line := k + 1;
            after := status[pid := line];
            return;
          }
        }
      }
      line := AddLine(pid);
      after := status[pid := line];
    }

    method AddLine(pid: nat) returns (line: nat)
      requires RowsMatch(graph, placed) && SlotsOk(graph, slots)
      modifies this`graph, this`slots
      ensures RowsMatch(graph, placed) && SlotsOk(graph, slots)
      ensures graph == Extended(old(graph), pid) && line == |RowsOf(old(graph), pid)| + 1
      ensures slots == old(slots) + [(pid, line)]
    {
      ExtendKeeps(graph, placed, pid);
      SlotsGrow(graph, slots, pid);
      hide RowsMatch, SlotsOk;
      var rows := if pid in graph then graph[pid] else [];
      line := |rows| + 1;
      graph := graph[pid := rows + [Row(line, [])]];
      slots := slots + [(pid, line)];
    }

    method Place(job: Job, status: map<nat, nat>) returns (line: nat, after: map<nat, nat>)
      requires Valid() && StatusOk(graph, status)
      modifies this
      ensures Valid() && StatusOk(graph, after) && placed == old(placed) + [Placement(job, line)]
      ensures (graph, line) == PlaceOne(old(graph), status, job) && after == status[job.pid := line]
    {
      ghost var before := graph;
      line, after := FindLine(job.pid, job.span, status);
      PlaceKeeps(before, placed, status, job, line);
      hide RowsMatch, GraphProper, Apart, Calm, LineFor, Prepared, Inserted, SlotsOk, StatusOk;
      InsertKeeps(graph, placed, job.pid, line, job.span);
      InsertKeepsShape(graph, job.pid, line, job.span, slots, after);
      graph := Inserted(graph, job.pid, line, job.span);
      placed := placed + [Placement(job, line)];
    }

    /** The spans of one request. */
    method PlaceRoom(jobs: seq<Job>) returns (lines: seq<nat>)
      requires Valid()
      modifies this
      ensures Valid() && |lines| == |jobs| && placed == old(placed) + Zip(jobs, lines)
      ensures graph == RoomResult(old(graph), jobs).0 && lines == RoomResult(old(graph), jobs).2
      ensures FollowsRule(old(graph), jobs, lines)
    {
      hide RowsMatch, GraphProper, Apart, Calm, SlotsOk, PlaceOne, FollowsRule;
      lines := [];
      var status := map[];
      for i := 0 to |jobs|
        invariant Valid() && |lines| == i && placed == old(placed) + Zip(jobs[..i], lines)
        invariant (graph, status, lines) == RoomResult(old(graph), jobs[..i])
      {
        assert jobs[..i + 1][..i] == jobs[..i] && jobs[..i + 1][i] == jobs[i];
        var line;
        line, status := Place(jobs[i], status);
        assert Zip(jobs[..i + 1], lines + [line]) == Zip(jobs[..i], lines) + [Placement(jobs[i], line)];
        lines := lines + [line];
      }
      assert jobs[..|jobs|] == jobs;
      RoomFollowsRule(old(graph), jobs);
    }

    /** All requests. The lines are those of `LayoutResult`; those of a process are 1..n and hold exactly what was
        placed there; and if no span of length zero lies inside another of its process, no two spans of positive
        length of one process on one line overlap. */
    method PlaceAll(rooms: seq<seq<Job>>) returns (lines: seq<seq<nat>>)
      requires Valid() && placed == []
      modifies this
      ensures Valid() && (graph, lines) == LayoutResult(old(graph), rooms) && placed == ZipAll(rooms, lines)
      ensures Calm(AllJobs(rooms)) ==> Apart(ZipAll(rooms, lines))
    {
      hide RowsMatch, GraphProper, Apart, Calm, SlotsOk, RoomResult, FollowsRule, LayoutResult, ZipAll, AllJobs;
      NothingLaidOut(graph);
      assert rooms[..0] == [];
      lines := [];
      for r := 0 to |rooms|
        invariant Valid() && |lines| == r && (forall q :: 0 <= q < r ==> |lines[q]| == |rooms[q]|)
        invariant (graph, lines) == LayoutResult(old(graph), rooms[..r]) && placed == ZipAll(rooms[..r], lines)
      {
        LayoutUnfolds(old(graph), rooms, r, lines);
        var room := PlaceRoom(rooms[r]);
        lines := lines + [room];
      }
      assert rooms[..|rooms|] == rooms;
      ZipAllJobs(rooms, lines);
    }
  }

  /** Three spans of one request and process, the second of length zero inside the first. */
  function Troubled(): seq<Job>
  {
    [Job(0, Span(0, 10)), Job(0, Span(5, 5)), Job(0, Span(6, 7))]
  }

  lemma PlaceFirst(job: Job)
    requires InsertSpan([], job.span) == [job.span]
    ensures PlaceOne(map[], map[], job) == (map[job.pid := [Row(1, [job.span])]], 1)
  {
    hide InsertSpan, CheckOverlap;
    var none: Graph, made: Graph := map[], map[job.pid := [Row(1, [])]];
    var row := Row(1, []);
    assert RowsOf(none, job.pid) == [] && [] + [row] == [row];
    assert Extended(none, job.pid) == made;
    assert LineFor(none, map[], job.pid, job.span) == 1;
    assert Prepared(none, job.pid, 1) == made;
    InsertOnly(job.pid, [], job.span);
  }

  lemma InsertOnly(pid: nat, spans: seq<Span>, s: Span)
    ensures Inserted(map[pid := [Row(1, spans)]], pid, 1, s) == map[pid := [Row(1, InsertSpan(spans, s))]]
  {
    hide InsertSpan;
    assert [Row(1, spans)][0 := Row(1, InsertSpan(spans, s))] == [Row(1, InsertSpan(spans, s))];
  }

  /** A span that may stay on the request's only line does. */
  lemma PlaceAgain(pid: nat, spans: seq<Span>, s: Span)
    requires s.start == s.end || !CheckOverlap(spans, s)
    ensures PlaceOne(map[pid := [Row(1, spans)]], map[pid := 1], Job(pid, s)) ==
            (map[pid := [Row(1, InsertSpan(spans, s))]], 1)
  {
    hide InsertSpan, CheckOverlap;
    var graph: Graph, status: map<nat, nat> := map[pid := [Row(1, spans)]], map[pid := 1];
    assert graph[pid][status[pid] - 1] == Row(1, spans);
    assert LineFor(graph, status, pid, s) == 1 && Prepared(graph, pid, 1) == graph;
    InsertOnly(pid, spans, s);
  }

  lemma RoomNext(jobs: seq<Job>, spans: seq<Span>, lines: seq<nat>, s: Span)
    requires RoomResult(map[], jobs) == (map[0 := [Row(1, spans)]], map[0 := 1], lines)
    requires s.start == s.end || !CheckOverlap(spans, s)
    ensures RoomResult(map[], jobs + [Job(0, s)]) ==
            (map[0 := [Row(1, InsertSpan(spans, s))]], map[0 := 1], lines + [1])
  {
    hide PlaceOne, InsertSpan, CheckOverlap, StatusOk, RoomResult;
    PlaceAgain(0, spans, s);
    RoomUnfolds(map[], jobs, Job(0, s));
    var status: map<nat, nat> := map[0 := 1];
    assert status[0 := 1] == status;
  }

  lemma RoomUnfolds(graph: Graph, jobs: seq<Job>, job: Job)
    ensures var (before, status, lines) := RoomResult(graph, jobs);
            var (after, line) := PlaceOne(before, status, job);
            RoomResult(graph, jobs + [job]) == (after, status[job.pid := line], lines + [line])
  {
    hide PlaceOne, StatusOk;
    assert (jobs + [job])[..|jobs|] == jobs;
  }

  lemma NothingLaidOut(graph: Graph)
    ensures LayoutResult(graph, []) == (graph, []) && ZipAll([], []) == []
  {
  }

  lemma LayoutUnfolds(graph: Graph, rooms: seq<seq<Job>>, r: nat, lines: seq<seq<nat>>)
    requires r < |rooms| && |lines| == r && forall q :: 0 <= q < r ==> |lines[q]| == |rooms[q]|
    ensures var (before, used) := LayoutResult(graph, rooms[..r]);
            var (after, _, room) := RoomResult(before, rooms[r]);
            && LayoutResult(graph, rooms[..r + 1]) == (after, used + [room])
            && ZipAll(rooms[..r + 1], lines + [room]) == ZipAll(rooms[..r], lines) + Zip(rooms[r], room)
  {
    hide RoomResult;
    var room := RoomResult(LayoutResult(graph, rooms[..r]).0, rooms[r]).2;
    var more := lines + [room];
    assert rooms[..r + 1][..r] == rooms[..r] && rooms[..r + 1][r] == rooms[r] && more[..r] == lines;
  }

  lemma RoomFirst(s: Span)
    requires InsertSpan([], s) == [s]
    ensures RoomResult(map[], [Job(0, s)]) == (map[0 := [Row(1, [s])]], map[0 := 1], [1])
  {
    PlaceFirst(Job(0, s));
    hide PlaceOne, InsertSpan, CheckOverlap, StatusOk;
    var none: map<nat, nat>, lines: seq<nat> := map[], [];
    assert [Job(0, s)][..0] == [] && none[0 := 1] == map[0 := 1] && lines + [1] == [1];
    assert RoomResult(map[], []) == (map[], none, lines);
  }

  lemma TroubledRoom()
    ensures RoomResult(map[], Troubled()).2 == [1, 1, 1]
  {
    HiddenExample();
    hide InsertSpan, CheckOverlap, RoomResult;
    var a, b, c := Span(0, 10), Span(5, 5), Span(6, 7);
    RoomFirst(a);
    RoomNext([Job(0, a)], [a], [1], b);
    var one: seq<nat> := [1];
    assert one + one == [1, 1];
    assert [Job(0, a)] + [Job(0, b)] == [Job(0, a), Job(0, b)];
    RoomNext([Job(0, a), Job(0, b)], [a, b], [1, 1], c);
    assert [Job(0, a), Job(0, b)] + [Job(0, c)] == Troubled();
  }

  lemma OneRoom(jobs: seq<Job>)
    ensures var lines := RoomResult(map[], jobs).2;
            LayoutResult(map[], [jobs]).1 == [lines] && ZipAll([jobs], [lines]) == Zip(jobs, lines)
  {
    hide RoomResult;
    var lines := RoomResult(map[], jobs).2;
    var all: seq<seq<nat>> := [lines];
    assert [jobs][..0] == [] && all[..0] == [];
  }

  lemma TroubledPlacement()
    ensures LayoutResult(map[], [Troubled()]).1 == [[1, 1, 1]]
    ensures !Apart(ZipAll([Troubled()], [[1, 1, 1]]))
  {
    hide RoomResult, LayoutResult, ZipAll;
    TroubledRoom();
    OneRoom(Troubled());
    var z := Zip(Troubled(), [1, 1, 1]);
    assert z[0] == Placement(Job(0, Span(0, 10)), 1) && z[2] == Placement(Job(0, Span(6, 7)), 1);
  }

  /** The layout puts all three on one line, where the first and the third overlap. */
  method HiddenOverlap() returns (lines: seq<seq<nat>>)
    ensures lines == [[1, 1, 1]] && !Apart(ZipAll([Troubled()], lines))
  {
    var layout := new Layout();
    lines := layout.PlaceAll([Troubled()]);
    TroubledPlacement();
  }
}
