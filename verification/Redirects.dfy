/** Lines of a retrieval benchmark that refer to other lines: following the references, finding rings,
    copying values along chains and grouping lines by chain length. */
module Redirects {
  import opened Options

  type Table = seq<Option<nat>>

  predicate InRange(t: Table)
  {
    forall i :: 0 <= i < |t| && t[i].Some? ==> t[i].value < |t|
  }

  /** Line i followed by the given lines, each the target of the one before. */
  ghost predicate IsPath(t: Table, i: nat, link: seq<nat>)
    requires InRange(t)
    decreases |link|
  {
    i < |t| && (link != [] ==> t[i] == Some(link[0]) && IsPath(t, link[0], link[1..]))
  }

  function End(i: nat, link: seq<nat>): nat
  {
    if link == [] then i else link[|link| - 1]
  }

  /** A path that stops at a plain line. */
  ghost predicate IsChain(t: Table, i: nat, link: seq<nat>)
    requires InRange(t)
  {
    IsPath(t, i, link) && End(i, link) < |t| && t[End(i, link)] == None
  }

  ghost predicate Resolves(t: Table, i: nat)
    requires InRange(t)
  {
    exists link :: IsChain(t, i, link)
  }

  lemma {:induction false} PathAppend(t: Table, i: nat, link: seq<nat>, x: nat)
    requires InRange(t) && IsPath(t, i, link) && End(i, link) < |t| && t[End(i, link)] == Some(x)
    ensures IsPath(t, i, link + [x])
    decreases |link|
  {
    if link == [] {
      assert (link + [x])[1..] == [];
    } else {
      assert End(link[0], link[1..]) == End(i, link);
      PathAppend(t, link[0], link[1..], x);
      assert (link + [x])[1..] == link[1..] + [x];
    }
  }

  /** A line has at most one chain. */
  lemma {:induction false} ChainUnique(t: Table, i: nat, a: seq<nat>, b: seq<nat>)
    requires InRange(t) && IsChain(t, i, a) && IsChain(t, i, b)
    ensures a == b
    decreases |a|
  {
    if a != [] && b != [] {
      assert End(a[0], a[1..]) == End(i, a) && End(b[0], b[1..]) == End(i, b);
      ChainUnique(t, a[0], a[1..], b[1..]);
      assert a == [a[0]] + a[1..] && b == [b[0]] + b[1..];
    }
  }

  /** A set of lines that only refer to each other has no chains. */
  ghost predicate Closed(t: Table, s: set<nat>)
  {
    forall x :: x in s ==> x < |t| && t[x].Some? && t[x].value in s
  }

  lemma {:induction false} ClosedHasNoChain(t: Table, s: set<nat>, i: nat, link: seq<nat>)
    requires InRange(t) && Closed(t, s) && i in s
    ensures !IsChain(t, i, link)
    decreases |link|
  {
    if link != [] && t[i] == Some(link[0]) {
      ClosedHasNoChain(t, s, link[0], link[1..]);
      assert End(link[0], link[1..]) == End(i, link);
    }
  }

  lemma {:induction false} SubsetSize(s: set<nat>, n: nat)
    requires forall x :: x in s ==> x < n
    ensures |s| <= n
  {
    if n == 0 {
      assert s == {};
    } else if n - 1 in s {
      SubsetSize(s - {n - 1}, n - 1);
    } else {
      SubsetSize(s, n - 1);
    }
  }

  /** Everything visited refers to something visited, or to where we are now. */
  ghost predicate Trail(t: Table, visited: set<nat>, cur: nat)
  {
    forall x :: x in visited ==> x < |t| && t[x].Some? && (t[x].value in visited || t[x].value == cur)
  }

  /** Follow the references from line i until a plain line, or until a line is met again. */
  method Follow(t: Table, i: nat) returns (cur: nat, link: Option<seq<nat>>)
    requires InRange(t) && i < |t|
    ensures cur < |t|
    ensures link.Some? <==> Resolves(t, i)
    ensures link.Some? ==> IsChain(t, i, link.value) && cur == End(i, link.value)
  {
    var path := [];
    var visited := {};
    cur := i;
    while t[cur].Some?
      invariant IsPath(t, i, path) && cur == End(i, path) && cur < |t| && cur !in visited
      invariant (i in visited || i == cur) && Trail(t, visited, cur)
      decreases |t| - |visited|
    {
      visited := visited + {cur};
      SubsetSize(visited, |t|);
      var next := t[cur].value;
      PathAppend(t, i, path, next);
      path := path + [next];
      cur := next;
      if cur in visited {
        forall l ensures !IsChain(t, i, l) { ClosedHasNoChain(t, visited, i, l); }
        return cur, None;
      }
    }
    assert IsChain(t, i, path);
    link := Some(path);
  }

  /** What a line's final record should be, given the original values. */
  ghost predicate Resolved<T(!new)>(t: Table, was: seq<T>, i: nat, value: T, link: Option<seq<nat>>)
    requires InRange(t) && i < |t| == |was|
  {
    && (link.Some? <==> Resolves(t, i))
    && (link.Some? ==> IsChain(t, i, link.value) && value == was[End(i, link.value)])
  }

  lemma PlainChain(t: Table, i: nat)
    requires InRange(t) && i < |t| && t[i] == None
    ensures IsChain(t, i, [])
  {
  }

  /** One pass over the lines. A line gets its chain and the original value of the plain line at the
      chain's end, although values are overwritten during the pass; the ring lines are exactly those
      without a chain. */
  method BuildLinks<T(!new)>(t: Table, values: array<T>) returns (links: seq<Option<seq<nat>>>, ring: set<nat>)
    requires InRange(t) && values.Length == |t|
    modifies values
    ensures |links| == |t|
    ensures forall i: nat :: i in ring <==> i < |t| && !Resolves(t, i)
    ensures forall i: nat :: i < |t| ==> Resolved(t, old(values[..]), i, values[i], links[i])
  {
    links := seq(|t|, _ => Some([]));
    ring := {};
    ghost var was := values[..];
    for i := 0 to |t|
      invariant |links| == |t|
      invariant forall j: nat :: j in ring <==> j < i && !Resolves(t, j)
      invariant forall j: nat :: j < i ==> Resolved(t, was, j, values[j], links[j])
      invariant forall j: nat :: j < |t| && (i <= j || t[j] == None) ==> values[j] == was[j] && links[j] == Some([])
    {
      if t[i] == None {
        PlainChain(t, i);
      } else {
        var cur, link := Follow(t, i);
        if link == None { ring := ring + {i}; }
        values[i] := values[cur];
        links := links[i := link];
        assert Resolved(t, was, i, values[i], links[i]);
      }
    }
  }

  ghost predicate Increasing(s: seq<nat>)
  {
    forall i, j :: 0 <= i < j < |s| ==> s[i] < s[j]
  }

  ghost predicate InGroup(groups: map<nat, seq<nat>>, h: nat, i: nat)
  {
    h in groups && i in groups[h]
  }

  lemma Grouped(groups: map<nat, seq<nat>>, h: nat, g: seq<nat>, i: nat, h': nat, j: nat)
    requires g == if h in groups then groups[h] else []
    ensures InGroup(groups[h := g + [i]], h', j) <==> InGroup(groups, h', j) || (h' == h && j == i)
  {
  }

  /** Lines by number of hops. The groups partition the lines that are not on the way to a ring. */
  method GroupByHops(links: seq<Option<seq<nat>>>, ring: set<nat>) returns (groups: map<nat, seq<nat>>)
    requires forall i: nat :: i < |links| && i !in ring ==> links[i].Some?
    ensures forall h: nat, i: nat :: InGroup(groups, h, i) <==> i < |links| && i !in ring && h == |links[i].value| + 1
    ensures forall h :: h in groups ==> Increasing(groups[h]) && groups[h] != []
  {
    groups := map[];
    for i := 0 to |links|
      invariant forall h: nat, j: nat :: InGroup(groups, h, j) <==> j < i && j !in ring && h == |links[j].value| + 1
      invariant forall h :: h in groups ==> Increasing(groups[h]) && groups[h] != []
    {
      if i !in ring {
        var h := |links[i].value| + 1;
        var g := if h in groups then groups[h] else [];
        forall j | 0 <= j < |g| ensures g[j] < i { assert InGroup(groups, h, g[j]); }
        assert Increasing(g + [i]);
        ghost var before := groups;
        groups := groups[h := g + [i]];
        forall h': nat, j: nat
          ensures InGroup(groups, h', j) <==> j < i + 1 && j !in ring && h' == |links[j].value| + 1
        {
          Grouped(before, h, g, i, h', j);
          assert InGroup(before, h', j) <==> j < i && j !in ring && h' == |links[j].value| + 1;
        }
      }
    }
  }

  /** The length of a line's chain, for a line that has one. */
  ghost function Hops(t: Table, i: nat): (h: nat)
    requires InRange(t) && Resolves(t, i)
    ensures forall link :: IsChain(t, i, link) ==> h == |link|
  {
    var link :| IsChain(t, i, link);
    assert forall l :: IsChain(t, i, l) ==> |l| == |link| by {
      forall l | IsChain(t, i, l) ensures |l| == |link| { ChainUnique(t, i, l, link); }
    }
    |link|
  }

  /** Both passes: the groups hold exactly the lines with a chain, each under its chain's length. */
  method GroupLines<T(!new)>(t: Table, values: array<T>) returns (groups: map<nat, seq<nat>>)
    requires InRange(t) && values.Length == |t|
    modifies values
    ensures forall h: nat, i: nat :: InGroup(groups, h, i) <==> i < |t| && Resolves(t, i) && h == Hops(t, i) + 1
    ensures forall h :: h in groups ==> Increasing(groups[h])
  {
    var links, ring := BuildLinks(t, values);
    groups := GroupByHops(links, ring);
    forall i: nat | i < |t| && Resolves(t, i) ensures links[i].Some? && Hops(t, i) == |links[i].value| {
      assert Resolved(t, old(values[..]), i, values[i], links[i]);
    }
  }
}
