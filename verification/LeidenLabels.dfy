// Label bookkeeping: dense first-appearance renumbering between levels, and the final
// canonical numbering of the communities.
module LeidenLabels {
  import opened LeidenLevel
  import opened LeidenMove

  // ----- dense -----

  // The distinct labels in order of first appearance.
  ghost function FirstSeen(l: seq<nat>): seq<nat> {
    if l == [] then [] else
      var seen := FirstSeen(l[..|l| - 1]);
      if l[|l| - 1] in seen then seen else seen + [l[|l| - 1]]
  }

  ghost function IndexOf(s: seq<nat>, x: nat): nat {
    if s == [] || s[0] == x then 0 else 1 + IndexOf(s[1..], x)
  }

  // Each label replaced by its order of first appearance.
  ghost function DenseLabels(l: seq<nat>): (r: seq<nat>)
    ensures |r| == |l|
  {
    if l == [] then [] else DenseLabels(l[..|l| - 1]) + [IndexOf(FirstSeen(l), l[|l| - 1])]
  }

  lemma {:induction false} IndexOfFirst(s: seq<nat>, x: nat)
    ensures x in s ==> IndexOf(s, x) < |s| && s[IndexOf(s, x)] == x
    ensures x !in s ==> IndexOf(s, x) == |s|
    ensures forall i :: 0 <= i < |s| && s[i] == x ==> IndexOf(s, x) <= i
  {
    if s == [] {
    } else {
      IndexOfFirst(s[1..], x);
    }
  }

  lemma {:induction false} IndexOfAppend(s: seq<nat>, y: nat, x: nat)
    requires x in s || x == y
    ensures IndexOf(s + [y], x) == if x in s then IndexOf(s, x) else |s|
  {
    if s == [] {
    } else {
      assert (s + [y])[1..] == s[1..] + [y];
      if s[0] != x { IndexOfAppend(s[1..], y, x); }
    }
  }

  lemma {:induction false} FirstSeenFacts(l: seq<nat>)
    ensures var s := FirstSeen(l);
            Distinct(s) && |s| <= |l| && forall x: nat :: x in s <==> x in l
  {
    if l == [] {
    } else {
      FirstSeenFacts(l[..|l| - 1]);
      assert l == l[..|l| - 1] + [l[|l| - 1]];
    }
  }

  lemma {:induction false} DenseIsIndex(l: seq<nat>)
    ensures forall v :: 0 <= v < |l| ==> DenseLabels(l)[v] == IndexOf(FirstSeen(l), l[v])
  {
    if l == [] {
    } else {
      var rest := l[..|l| - 1];
      DenseIsIndex(rest);
      FirstSeenFacts(rest);
      forall v | 0 <= v < |l| ensures DenseLabels(l)[v] == IndexOf(FirstSeen(l), l[v]) {
        if v < |l| - 1 {
          assert rest[v] in rest;
          IndexOfAppend(FirstSeen(rest), l[|l| - 1], l[v]);
        }
      }
    }
  }

  /** Dense labels keep the partition, use every number below the count, and the count is
      the number of nodes exactly when every node is alone. */
  lemma DenseFacts(l: seq<nat>)
    ensures var r, count := DenseLabels(l), |FirstSeen(l)|;
            && SamePartition(l, r) && count <= |l|
            && (forall v :: 0 <= v < |l| ==> r[v] < count)
            && (forall d: nat :: d < count ==> d in r)
            && (count == |l| <==> forall v: nat :: v < |l| ==> Alone(l, v))
  {
    var r, s := DenseLabels(l), FirstSeen(l);
    DenseIsIndex(l);
    FirstSeenFacts(l);
    forall v | 0 <= v < |l| ensures r[v] < |s| && s[r[v]] == l[v] {
      assert l[v] in l;
      IndexOfFirst(s, l[v]);
    }
    forall d: nat | d < |s| ensures d in r {
      assert s[d] in s;
      var v :| 0 <= v < |l| && l[v] == s[d];
      assert s[r[v]] == s[d];
      assert r[v] == d;
    }
    CountIsAlone(l);
  }

  lemma {:induction false} CountIsAlone(l: seq<nat>)
    ensures |FirstSeen(l)| == |l| <==> forall v: nat :: v < |l| ==> Alone(l, v)
  {
    if l == [] {
    } else {
      var rest, x := l[..|l| - 1], l[|l| - 1];
      CountIsAlone(rest);
      FirstSeenFacts(rest);
      FirstSeenFacts(l);
      if |FirstSeen(l)| == |l| {
        assert x !in rest;
        forall v: nat | v < |l| ensures Alone(l, v) {
          forall u | 0 <= u < |l| && u != v ensures l[u] != l[v] {
            if u < |rest| && v < |rest| { assert Alone(rest, v); assert rest[u] != rest[v]; }
            else if u < |rest| { assert rest[u] in rest; } else { assert rest[v] in rest; }
          }
        }
      } else if x in rest {
        var u :| 0 <= u < |rest| && rest[u] == x;
        assert l[u] == l[|l| - 1];
        assert !Alone(l, u);
      } else {
        var v: nat :| v < |rest| && !Alone(rest, v);
        var u :| 0 <= u < |rest| && u != v && rest[u] == rest[v];
        assert l[u] == l[v];
        assert !Alone(l, v);
      }
    }
  }

  // Pairwise different labels number the nodes in order.
  lemma {:induction false} DenseOfAlone(l: seq<nat>)
    requires |FirstSeen(l)| == |l|
    ensures DenseLabels(l) == Identity(|l|)
  {
    if l == [] {
    } else {
      var rest := l[..|l| - 1];
      FirstSeenFacts(rest);
      DenseOfAlone(rest);
      IndexOfAppend(FirstSeen(rest), l[|l| - 1], l[|l| - 1]);
    }
  }

  /** Labels are numbered in the order of their first appearance. */
  lemma {:induction false} DenseInOrder(l: seq<nat>, x: nat, y: nat)
    requires x < y < |l| && (forall u :: 0 <= u < x ==> l[u] != l[x]) && (forall u :: 0 <= u < y ==> l[u] != l[y])
    ensures DenseLabels(l)[x] < DenseLabels(l)[y]
    decreases |l|
  {
    var n := |l| - 1;
    var before := l[..n];
    if y < n {
      DenseInOrder(before, x, y);
    } else {
      FirstSeenFacts(before);
      DenseFacts(before);
      IndexOfAppend(FirstSeen(before), l[n], l[n]);
      assert DenseLabels(l)[x] == DenseLabels(before)[x];
      assert l[n] !in before;
    }
  }

  /** Renumbers labels densely in place, in first-appearance order; returns the count. */
  method Dense(labels: array<nat>) returns (count: nat)
    modifies labels
    ensures labels[..] == DenseLabels(old(labels[..])) && count == |FirstSeen(old(labels[..]))|
  {
    ghost var l := labels[..];
    var table: map<nat, nat> := map[];
    count := 0;
    for i := 0 to labels.Length
      invariant labels[..i] == DenseLabels(l[..i]) && forall j :: i <= j < labels.Length ==> labels[j] == l[j]
      invariant count == |FirstSeen(l[..i])|
      invariant forall x: nat :: x in table <==> x in FirstSeen(l[..i])
      invariant forall x: nat :: x in table ==> table[x] == IndexOf(FirstSeen(l[..i]), x)
    {
      var label' := labels[i];
      ghost var seen := FirstSeen(l[..i]);
      assert l[..i + 1][..i] == l[..i];
      assert label' == l[i];
      forall x: nat | x in seen || x == label'
        ensures IndexOf(seen + [label'], x) == if x in seen then IndexOf(seen, x) else |seen|
      {
        IndexOfAppend(seen, label', x);
      }
      if label' !in table {
        table := table[label' := count];
        count := count + 1;
      }
      labels[i] := table[label'];
      assert labels[..i + 1] == labels[..i] + [labels[i]];
    }
    assert l[..labels.Length] == l && labels[..labels.Length] == labels[..];
  }

  // ----- the final numbering -----

  ghost function ClassSize(p: seq<nat>, x: nat): nat
    requires x < |p|
  {
    multiset(p)[p[x]]
  }

  // Smallest member of the class of x.
  ghost function Leader(p: seq<nat>, x: nat): nat
    requires x < |p|
  {
    IndexOf(p, p[x])
  }

  // The class of x is numbered before the class of y: larger first, ties by smallest member.
  ghost predicate Precedes(p: seq<nat>, x: nat, y: nat)
    requires x < |p| && y < |p|
  {
    ClassSize(p, x) > ClassSize(p, y) || (ClassSize(p, x) == ClassSize(p, y) && Leader(p, x) < Leader(p, y))
  }

  // Dense ranks in that order.
  ghost predicate Canonical(r: seq<nat>) {
    && (forall x: nat, d: nat :: x < |r| && d < r[x] ==> d in r)
    && (forall x: nat, y: nat :: x < |r| && y < |r| && r[x] < r[y] ==> Precedes(r, x, y))
  }

  lemma {:induction false} SizesOfPartition(p: seq<nat>, q: seq<nat>, a: nat, b: nat)
    requires |p| == |q| && forall x :: 0 <= x < |p| ==> (p[x] == a <==> q[x] == b)
    ensures multiset(p)[a] == multiset(q)[b]
  {
    if p == [] {
    } else {
      var k := |p| - 1;
      SizesOfPartition(p[..k], q[..k], a, b);
      assert p == p[..k] + [p[k]] && q == q[..k] + [q[k]];
    }
  }

  lemma OrderOfPartition(p: seq<nat>, q: seq<nat>, x: nat)
    requires SamePartition(p, q) && x < |p|
    ensures ClassSize(p, x) == ClassSize(q, x) && Leader(p, x) == Leader(q, x)
  {
    SizesOfPartition(p, q, p[x], q[x]);
    IndexOfFirst(p, p[x]);
    IndexOfFirst(q, q[x]);
  }

  lemma {:induction false} CanonicalAgree(r: seq<nat>, s: seq<nat>, x: nat)
    requires Canonical(r) && Canonical(s) && SamePartition(r, s) && x < |r|
    ensures r[x] == s[x]
    decreases if r[x] < s[x] then r[x] else s[x]
  {
    if r[x] < s[x] {
      // Some class has rank r[x] in s; it is not that of x, and it must rank later in r.
      assert r[x] in s;
      var u: nat :| u < |s| && s[u] == r[x];
      if r[u] <= r[x] {
        if r[u] < s[u] { CanonicalAgree(r, s, u); }
        assert false;
      }
      assert Precedes(r, x, u) && Precedes(s, u, x);
      OrderOfPartition(r, s, x);
      OrderOfPartition(r, s, u);
      assert false;
    } else if s[x] < r[x] {
      assert s[x] in r;
      var u: nat :| u < |r| && r[u] == s[x];
      if s[u] <= s[x] {
        if s[u] < r[u] { CanonicalAgree(r, s, u); }
        assert false;
      }
      assert Precedes(s, x, u) && Precedes(r, u, x);
      OrderOfPartition(r, s, x);
      OrderOfPartition(r, s, u);
      assert false;
    }
  }

  /** The canonical numbering depends only on the partition. */
  lemma CanonicalUnique(p: seq<nat>, r: seq<nat>, q: seq<nat>, s: seq<nat>)
    requires SamePartition(p, q) && SamePartition(p, r) && SamePartition(q, s) && Canonical(r) && Canonical(s)
    ensures r == s
  {
    forall x: nat | x < |r| ensures r[x] == s[x] {
      CanonicalAgree(r, s, x);
    }
  }

  // A group of the final numbering: label, size and smallest member.
  datatype Group = Group(label_: nat, size: nat, min: nat)

  predicate Before(a: Group, b: Group) { a.size > b.size || (a.size == b.size && a.min < b.min) }

  ghost predicate Sorted(s: seq<Group>) { forall i, j :: 0 <= i < j < |s| ==> Before(s[i], s[j]) }

  // The groups of the first k members, by label.
  ghost predicate GroupsOf(p: seq<nat>, k: nat, groups: map<nat, (nat, nat)>)
    requires k <= |p|
  {
    && (forall c: nat :: c in groups <==> c in p[..k])
    && (forall c: nat :: c in groups ==> groups[c] == (multiset(p[..k])[c], IndexOf(p[..k], c)))
  }

  lemma GroupsStep(p: seq<nat>, k: nat, groups: map<nat, (nat, nat)>)
    requires k < |p| && GroupsOf(p, k, groups)
    ensures GroupsOf(p, k + 1, groups[p[k] := if p[k] in groups then (groups[p[k]].0 + 1, groups[p[k]].1) else (1, k)])
  {
    var q := p[..k];
    assert p[..k + 1] == q + [p[k]];
    forall c: nat | c in q || c == p[k] ensures IndexOf(q + [p[k]], c) == if c in q then IndexOf(q, c) else k {
      IndexOfAppend(q, p[k], c);
    }
    assert p[k] !in q ==> multiset(q)[p[k]] == 0;
  }

  // Places a group among sorted ones, as the sort of the ranked groups does.
  method InsertSorted(ranked: seq<Group>, x: Group) returns (r: seq<Group>)
    requires Sorted(ranked) && forall i :: 0 <= i < |ranked| ==> ranked[i].min != x.min
    ensures Sorted(r) && |r| == |ranked| + 1
    ensures forall y :: y in r <==> y == x || y in ranked
  {
    var k := 0;
    while k < |ranked| && Before(ranked[k], x)
      invariant k <= |ranked| && forall i :: 0 <= i < k ==> Before(ranked[i], x)
    {
      k := k + 1;
    }
    r := ranked[..k] + [x] + ranked[k..];
    forall i | k <= i < |ranked| ensures Before(x, ranked[i]) {
      if i > k { assert Before(ranked[k], ranked[i]); }
    }
    assert ranked == ranked[..k] + ranked[k..];
  }

  const RANK_MAX: nat := 0xFFFF_FFFF

  // Ranks are returned in 32 bits; larger ones saturate.
  function Saturate(rank: nat): nat { if rank <= RANK_MAX then rank else RANK_MAX }

  // The groups in final order: sorted, exactly one per label, with true sizes and leaders.
  ghost predicate RankedOf(p: seq<nat>, ranked: seq<Group>) {
    && Sorted(ranked)
    && (forall c: nat :: c in p ==> Group(c, multiset(p)[c], IndexOf(p, c)) in ranked)
    && (forall i :: 0 <= i < |ranked| ==>
          ranked[i].label_ in p && ranked[i] == Group(ranked[i].label_, multiset(p)[ranked[i].label_], IndexOf(p, ranked[i].label_)))
  }

  lemma RankedDistinct(p: seq<nat>, ranked: seq<Group>, i: nat, j: nat)
    requires RankedOf(p, ranked) && i < |ranked| && j < |ranked| && ranked[i].label_ == ranked[j].label_
    ensures i == j
  {
  }

  lemma RanksCanonical(p: seq<nat>, ranked: seq<Group>, ranks: seq<nat>)
    requires RankedOf(p, ranked) && |ranks| == |p|
    requires forall v :: 0 <= v < |p| ==> ranks[v] < |ranked| && ranked[ranks[v]].label_ == p[v]
    ensures SamePartition(p, ranks) && Canonical(ranks)
  {
    forall x, y | 0 <= x < |p| && 0 <= y < |p| ensures p[x] == p[y] <==> ranks[x] == ranks[y] {
      if p[x] == p[y] { RankedDistinct(p, ranked, ranks[x], ranks[y]); }
    }
    forall x: nat, d: nat | x < |p| && d < ranks[x] ensures d in ranks {
      var c := ranked[d].label_;
      var v :| 0 <= v < |p| && p[v] == c;
      RankedDistinct(p, ranked, ranks[v], d);
    }
    forall x: nat, y: nat | x < |p| && y < |p| && ranks[x] < ranks[y] ensures Precedes(ranks, x, y) {
      OrderOfPartition(p, ranks, x);
      OrderOfPartition(p, ranks, y);
      assert Before(ranked[ranks[x]], ranked[ranks[y]]);
    }
  }

  // Canonical ranks of a partition, and the same in 32 bits.
  ghost predicate RanksOf(p: seq<nat>, ranks: seq<nat>, labels: seq<nat>) {
    && SamePartition(p, ranks) && Canonical(ranks)
    && |labels| == |ranks| && forall v :: 0 <= v < |labels| ==> labels[v] == Saturate(ranks[v])
  }

  /** Gives every community its canonical rank: larger communities first, and among equals the
      one whose first node comes first. */
  method Renumber(membership: seq<nat>) returns (labels: seq<nat>)
    ensures exists ranks :: RanksOf(membership, ranks, labels)
  {
    hide IndexOf, Precedes;
    ghost var p := membership;
    var groups: map<nat, (nat, nat)> := map[];
    for v := 0 to |membership|
      invariant GroupsOf(p, v, groups)
    {
      GroupsStep(p, v, groups);
      var c := membership[v];
      groups := groups[c := if c in groups then (groups[c].0 + 1, groups[c].1) else (1, v)];
    }
    assert p[..|p|] == p;
    var ranked := RankGroups(p, groups);
    var rank := RankTable(p, ranked);
    ghost var ranks := seq(|p|, v requires 0 <= v < |p| => rank[p[v]]);
    RanksCanonical(p, ranked, ranks);
    labels := seq(|membership|, v requires 0 <= v < |membership| => Saturate(rank[membership[v]]));
    assert RanksOf(membership, ranks, labels);
  }

  // The position of every label in the final order.
  method RankTable(ghost p: seq<nat>, ranked: seq<Group>) returns (rank: map<nat, nat>)
    requires RankedOf(p, ranked)
    ensures forall v :: 0 <= v < |p| ==> p[v] in rank && rank[p[v]] < |ranked| && ranked[rank[p[v]]].label_ == p[v]
  {
    rank := map[];
    for i := 0 to |ranked|
      invariant forall j: nat :: j < i ==> ranked[j].label_ in rank && rank[ranked[j].label_] == j
    {
      forall j: nat | j < i ensures ranked[j].label_ != ranked[i].label_ {
        assert Before(ranked[j], ranked[i]);
      }
      rank := rank[ranked[i].label_ := i];
    }
    forall v | 0 <= v < |p| ensures p[v] in rank && rank[p[v]] < |ranked| && ranked[rank[p[v]]].label_ == p[v] {
      var g := Group(p[v], multiset(p)[p[v]], IndexOf(p, p[v]));
      assert g in ranked;
      var j: nat :| j < |ranked| && ranked[j] == g;
      assert ranked[j].label_ == p[v];
    }
  }

  // Collects the groups in final order.
  method RankGroups(ghost p: seq<nat>, groups: map<nat, (nat, nat)>) returns (ranked: seq<Group>)
    requires GroupsOf(p, |p|, groups)
    ensures RankedOf(p, ranked)
  {
    assert p[..|p|] == p;
    ranked := [];
    var keys := groups.Keys;
    while keys != {}
      invariant keys <= groups.Keys && Sorted(ranked)
      invariant forall c: nat :: c in groups && c !in keys ==> Group(c, groups[c].0, groups[c].1) in ranked
      invariant forall i :: 0 <= i < |ranked| ==>
                  ranked[i].label_ in groups && ranked[i].label_ !in keys
                  && (ranked[i].size, ranked[i].min) == groups[ranked[i].label_]
      decreases |keys|
    {
      var c :| c in keys;
      forall i | 0 <= i < |ranked| ensures ranked[i].min != groups[c].1 {
        IndexOfFirst(p, c);
        IndexOfFirst(p, ranked[i].label_);
      }
      ghost var was := ranked;
      ranked := InsertSorted(ranked, Group(c, groups[c].0, groups[c].1));
      forall i | 0 <= i < |ranked|
        ensures ranked[i].label_ in groups && ranked[i].label_ !in keys - {c}
             && (ranked[i].size, ranked[i].min) == groups[ranked[i].label_]
      {
        assert ranked[i] in ranked;
      }
      keys := keys - {c};
    }
  }

  /** The 32-bit labels name the communities faithfully exactly when there are at most 2^32 of them. */
  lemma SaturationExact(ranks: seq<nat>, labels: seq<nat>)
    requires Canonical(ranks) && |labels| == |ranks| && forall v :: 0 <= v < |labels| ==> labels[v] == Saturate(ranks[v])
    ensures labels == ranks <==> forall v :: 0 <= v < |ranks| ==> ranks[v] <= RANK_MAX
    ensures SamePartition(ranks, labels) <==> forall v :: 0 <= v < |ranks| ==> ranks[v] <= RANK_MAX
  {
    if x: nat :| x < |ranks| && ranks[x] > RANK_MAX {
      assert RANK_MAX in ranks;
      var y: nat :| y < |ranks| && ranks[y] == RANK_MAX;
      assert labels[x] == labels[y] && ranks[x] != ranks[y];
    }
  }

  lemma {:induction false} SizeIsCount(p: seq<nat>, c: nat)
    ensures multiset(p)[c] == |set u | 0 <= u < |p| && p[u] == c|
  {
    var now := set u | 0 <= u < |p| && p[u] == c;
    if p == [] {
      assert now == {};
    } else {
      var k := |p| - 1;
      SizeIsCount(p[..k], c);
      assert p == p[..k] + [p[k]];
      var was := set u | 0 <= u < k && p[..k][u] == c;
      assert now == was + if p[k] == c then {k} else {};
    }
  }

  /** Ranks in plain terms: the communities are those of the membership, no number is left out,
      of two communities the one with more members comes first, of equally large ones the one
      whose first node comes first, and ranks past 32 bits are cut to the largest. */
  lemma RanksExact(p: seq<nat>, ranks: seq<nat>, labels: seq<nat>, x: nat, y: nat)
    requires RanksOf(p, ranks, labels) && x < |p| && y < |p|
    requires (forall u :: 0 <= u < x ==> p[u] != p[x]) && (forall u :: 0 <= u < y ==> p[u] != p[y])
    ensures |labels| == |ranks| == |p| && (forall u, v :: 0 <= u < |p| && 0 <= v < |p| ==> (ranks[u] == ranks[v] <==> p[u] == p[v]))
    ensures forall d: nat :: d < ranks[x] ==> d in ranks
    ensures var size, size' := |set u | 0 <= u < |p| && p[u] == p[x]|, |set u | 0 <= u < |p| && p[u] == p[y]|;
            ranks[x] < ranks[y] <==> (size > size' || (size == size' && x < y))
    ensures forall v :: 0 <= v < |p| ==> labels[v] == if ranks[v] < 4294967296 then ranks[v] else 4294967295
  {
    SizeIsCount(p, p[x]);
    SizeIsCount(p, p[y]);
    OrderOfPartition(p, ranks, x);
    OrderOfPartition(p, ranks, y);
    IndexOfFirst(p, p[x]);
    IndexOfFirst(p, p[y]);
    assert Leader(p, x) == x && Leader(p, y) == y;
    if ranks[x] < ranks[y] { assert Precedes(ranks, x, y); }
    if ranks[y] < ranks[x] { assert Precedes(ranks, y, x); }
  }
}
