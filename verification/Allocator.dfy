/** The provider manager's allocation of page replicas (pmanager/adv_manager.cpp:86-144).
    Providers are kept ordered by score and free space; each request takes them in groups,
    one group per page, and raises the scores of those it takes. */
module Allocator {
  import opened Arithmetic
  import opened Basics

  datatype Provider = Provider(host: string, service: string)

  datatype Entry = Entry(id: Provider, score: nat, free: nat)

  /** score_entry::operator<. */
  predicate Less(a: Entry, b: Entry) {
    if a.free == 0 && b.free == 0 then a.score < b.score
    else if a.free == 0 || a.score > b.score then false
    else if b.free == 0 || a.score < b.score then true
    else a.free > b.free
  }

  /** The table in the order of its score index. */
  type Table = seq<Entry>

  predicate DistinctIds(t: Table) {
    forall i, j :: 0 <= i < j < |t| ==> t[i].id != t[j].id
  }

  predicate Sorted(t: Table) {
    forall i, j :: 0 <= i < j < |t| ==> !Less(t[j], t[i])
  }

  predicate AllFree(t: Table) {
    forall i :: 0 <= i < |t| ==> t[i].free > 0
  }

  // ---- Replacing an entry of the ordered index ----

  function UpperBound(t: Table, e: Entry): (i: nat)
    ensures i <= |t|
    ensures forall j :: 0 <= j < i ==> !Less(e, t[j])
    ensures i < |t| ==> Less(e, t[i])
  {
    if t == [] || Less(e, t[0]) then 0 else 1 + UpperBound(t[1..], e)
  }

  function Erase(t: Table, i: nat): Table
    requires i < |t|
  {
    t[..i] + t[i + 1..]
  }

  function InsertAt(t: Table, i: nat, e: Entry): Table
    requires i <= |t|
  {
    t[..i] + [e] + t[i..]
  }

  predicate InPlace(t: Table, i: nat, e: Entry)
    requires i < |t|
  {
    (i > 0 ==> !Less(e, t[i - 1])) && (i + 1 < |t| ==> !Less(t[i + 1], e))
  }

  /** The entry keeps its position if that is still in order, and else moves behind all
      entries that are not greater. */
  function Replace(t: Table, i: nat, e: Entry): Table
    requires i < |t|
  {
    if InPlace(t, i, e) then t[i := e]
    else
      var rest := Erase(t, i);
      InsertAt(rest, UpperBound(rest, e), e)
  }

  /** Replacing changes one entry and nothing else. */
  lemma ReplaceMembers(t: Table, i: nat, e: Entry)
    requires i < |t| && DistinctIds(t) && e.id == t[i].id
    ensures |Replace(t, i, e)| == |t| && DistinctIds(Replace(t, i, e))
    ensures forall x :: x in Replace(t, i, e) <==> (x in t && x != t[i]) || x == e
  {
    var rest := Erase(t, i);
    var j := UpperBound(rest, e);
    var r := Replace(t, i, e);
    EraseMembers(t, i);
    if InPlace(t, i, e) {
      assert r == t[..i] + [e] + t[i + 1..];
    } else {
      InsertMembers(rest, j, e);
    }
  }

  lemma EraseMembers(t: Table, i: nat)
    requires i < |t| && DistinctIds(t)
    ensures DistinctIds(Erase(t, i)) && |Erase(t, i)| == |t| - 1
    ensures forall x :: x in Erase(t, i) <==> x in t && x != t[i]
    ensures forall k :: 0 <= k < |Erase(t, i)| ==> Erase(t, i)[k].id != t[i].id
  {
    var r := Erase(t, i);
    assert forall k :: 0 <= k < |r| ==> r[k] == t[if k < i then k else k + 1];
    assert t == t[..i] + [t[i]] + t[i + 1..];
  }

  lemma InsertMembers(t: Table, j: nat, e: Entry)
    requires j <= |t| && DistinctIds(t) && forall k :: 0 <= k < |t| ==> t[k].id != e.id
    ensures DistinctIds(InsertAt(t, j, e)) && |InsertAt(t, j, e)| == |t| + 1
    ensures forall x :: x in InsertAt(t, j, e) <==> x in t || x == e
  {
    var r := InsertAt(t, j, e);
    assert DistinctIds(r) by {
      assert forall k :: 0 <= k < |r| ==> r[k] == if k < j then t[k] else if k == j then e else t[k - 1];
    }
    hide DistinctIds;
    forall x ensures x in r <==> x in t || x == e {
      assert t == t[..j] + t[j..];
      assert x in t <==> x in t[..j] || x in t[j..];
    }
  }

  // ---- Order, when every provider has free space ----

  lemma LessTransitive(a: Entry, b: Entry, c: Entry)
    requires a.free > 0 && b.free > 0 && c.free > 0 && !Less(b, a) && !Less(c, b)
    ensures !Less(c, a)
  {
  }

  lemma EraseSorted(t: Table, i: nat)
    requires i < |t| && Sorted(t)
    ensures Sorted(Erase(t, i))
  {
    hide Less;
    var r := Erase(t, i);
    assert forall k :: 0 <= k < |r| ==> r[k] == t[if k < i then k else k + 1];
  }

  lemma InsertSorted(t: Table, e: Entry)
    requires Sorted(t) && AllFree(t) && e.free > 0
    ensures Sorted(InsertAt(t, UpperBound(t, e), e))
  {
    hide Less, UpperBound;
    var j := UpperBound(t, e);
    var r := InsertAt(t, j, e);
    forall k | 0 <= k < |t| ensures if k < j then !Less(e, t[k]) else !Less(t[k], e) {
      if j <= k {
        assert j < k ==> !Less(t[k], t[j]);
        assert !Less(t[k], e) by { AfterUpper(e, t[j], t[k]); }
      }
    }
    forall a, b | 0 <= a < b < |r| ensures !Less(r[b], r[a]) {
      assert r[a] == if a < j then t[a] else if a == j then e else t[a - 1];
      assert r[b] == if b < j then t[b] else if b == j then e else t[b - 1];
    }
  }

  lemma AfterUpper(e: Entry, b: Entry, c: Entry)
    requires e.free > 0 && b.free > 0 && c.free > 0 && Less(e, b) && (b == c || !Less(c, b))
    ensures !Less(c, e)
  {
  }

  lemma InPlaceSorted(t: Table, i: nat, e: Entry)
    requires i < |t| && Sorted(t) && AllFree(t) && e.free > 0 && InPlace(t, i, e)
    ensures Sorted(t[i := e])
  {
    hide Less;
    var r := t[i := e];
    forall a, b | 0 <= a < b < |r| ensures !Less(r[b], r[a]) {
      if b == i && a < i - 1 {
        LessTransitive(t[a], t[i - 1], e);
      } else if a == i && i + 1 < b {
        LessTransitive(e, t[i + 1], t[b]);
      }
    }
  }

  lemma ReplaceSorted(t: Table, i: nat, e: Entry)
    requires i < |t| && Sorted(t) && AllFree(t) && e.free > 0
    ensures Sorted(Replace(t, i, e))
  {
    hide Less, UpperBound;
    if InPlace(t, i, e) {
      InPlaceSorted(t, i, e);
    } else {
      EraseSorted(t, i);
      InsertSorted(Erase(t, i), e);
    }
  }

  // ---- Scores ----

  function RaisedBy(x: Entry, list: seq<Provider>): Entry {
    Entry(x.id, x.score + Count(list, x.id), x.free)
  }

  /** Every provider's score has risen by exactly the number of times it was allocated, and
      no provider has come or gone. */
  ghost predicate Raised(before: Table, after: Table, list: seq<Provider>) {
    && |after| == |before| && DistinctIds(after)
    && forall k :: 0 <= k < |before| ==> RaisedBy(before[k], list) in after
  }

  function Total(t: Table): nat {
    if t == [] then 0 else Total(t[..|t| - 1]) + t[|t| - 1].score
  }

  lemma {:induction false} TotalConcat(a: Table, b: Table)
    ensures Total(a + b) == Total(a) + Total(b)
  {
    if b == [] {
      assert a + b == a;
    } else {
      assert (a + b)[..|a + b| - 1] == a + b[..|b| - 1];
      TotalConcat(a, b[..|b| - 1]);
    }
  }

  lemma TotalSplit(t: Table, i: nat, e: Entry)
    requires i <= |t|
    ensures Total(t[..i] + [e] + t[i..]) == Total(t) + e.score
  {
    TotalConcat(t[..i] + [e], t[i..]);
    TotalConcat(t[..i], [e]);
    TotalConcat(t[..i], t[i..]);
    assert t == t[..i] + t[i..];
    assert [e][..0] == [];
  }

  lemma ReplaceTotal(t: Table, i: nat, e: Entry)
    requires i < |t|
    ensures Total(Replace(t, i, e)) + t[i].score == Total(t) + e.score
  {
    hide Less, UpperBound, InPlace, Total;
    var rest := Erase(t, i);
    EraseSplit(t, i, t[i]);
    EraseSplit(t, i, e);
    TotalSplit(rest, i, t[i]);
    TotalSplit(rest, i, e);
    TotalSplit(rest, UpperBound(rest, e), e);
  }

  lemma EraseSplit(t: Table, i: nat, e: Entry)
    requires i < |t|
    ensures var rest := Erase(t, i); i <= |rest| && t[i := e] == rest[..i] + [e] + rest[i..]
    ensures t[i := t[i]] == t
  {
    var rest := Erase(t, i);
    assert rest[..i] == t[..i] && rest[i..] == t[i + 1..];
  }

  function Bump(e: Entry): Entry {
    e.(score := e.score + 1)
  }

  lemma SameId(t: Table, x: Entry, y: Entry)
    requires DistinctIds(t) && x in t && y in t && x.id == y.id
    ensures x == y
  {
  }

  /** One allocation raises one score. */
  lemma RaisedStep(before: Table, t: Table, list: seq<Provider>, i: nat)
    requires DistinctIds(before) && Raised(before, t, list) && i < |t|
    ensures Raised(before, Replace(t, i, Bump(t[i])), list + [t[i].id])
  {
    hide Replace, Count, DistinctIds, RaisedBy;
    var e, t', more := t[i], Replace(t, i, Bump(t[i])), list + [t[i].id];
    ReplaceMembers(t, i, Bump(e));
    forall k | 0 <= k < |before| ensures RaisedBy(before[k], more) in t' {
      RaisedForward(t, t', e, list, before[k]);
    }
  }

  lemma RaisedForward(t: Table, t': Table, e: Entry, list: seq<Provider>, x: Entry)
    requires DistinctIds(t) && e in t && RaisedBy(x, list) in t
    requires forall y :: y in t' <==> (y in t && y != e) || y == Bump(e)
    ensures RaisedBy(x, list + [e.id]) in t'
  {
    hide Count;
    CountPush(list, e.id, x.id);
    if x.id == e.id { SameId(t, RaisedBy(x, list), e); }
  }

  // ---- Balance ----

  /** Scores differ by at most one. */
  ghost predicate Balanced(t: Table) {
    exists s: nat :: Within(t, s)
  }

  predicate Within(t: Table, s: nat) {
    forall k :: 0 <= k < |t| ==> s <= t[k].score <= s + 1
  }

  /** Inside a group that started within s: its members have been raised once, and a member
      at the top means that no provider is left at the bottom. */
  predicate GroupWithin(t: Table, group: seq<Provider>, s: nat) {
    && (forall k :: 0 <= k < |t| ==>
          if t[k].id in group then s + 1 <= t[k].score <= s + 2 else s <= t[k].score <= s + 1)
    && (forall j, k :: 0 <= j < |t| && 0 <= k < |t| && t[j].id in group && t[j].score == s + 2 && t[k].id !in group
          ==> t[k].score == s + 1)
  }

  /** The first provider of the index that the group does not hold yet. */
  predicate FirstOutside(t: Table, group: seq<Provider>, i: nat) {
    i < |t| && t[i].id !in group && forall j :: 0 <= j < i ==> t[j].id in group
  }

  lemma LowestOutside(t: Table, group: seq<Provider>, i: nat, k: nat)
    requires Sorted(t) && AllFree(t) && FirstOutside(t, group, i) && k < |t| && t[k].id !in group
    ensures t[i].score <= t[k].score
  {
    assert i <= k;
  }

  /** Taking the first provider outside the group keeps the group within bounds. */
  lemma TakeWithin(t: Table, group: seq<Provider>, i: nat, s: nat)
    requires DistinctIds(t) && Sorted(t) && AllFree(t) && FirstOutside(t, group, i) && GroupWithin(t, group, s)
    ensures GroupWithin(Replace(t, i, Bump(t[i])), group + [t[i].id], s)
  {
    hide Replace, Less, Sorted;
    var e, t', more := t[i], Replace(t, i, Bump(t[i])), group + [t[i].id];
    ReplaceMembers(t, i, Bump(e));
    forall k | 0 <= k < |t'|
      ensures if t'[k].id in more then s + 1 <= t'[k].score <= s + 2 else s <= t'[k].score <= s + 1
    {
      var m := TakenFrom(t, t', e, k);
    }
    forall j, k | 0 <= j < |t'| && 0 <= k < |t'| && t'[j].id in more && t'[j].score == s + 2 && t'[k].id !in more
      ensures t'[k].score == s + 1
    {
      var a := TakenFrom(t, t', e, j);
      var b := TakenFrom(t, t', e, k);
      LowestOutside(t, group, i, b);
    }
  }

  /** An entry of the new table is the raised one or an old one with another id. */
  lemma TakenFrom(t: Table, t': Table, e: Entry, k: nat) returns (m: nat)
    requires DistinctIds(t) && e in t && k < |t'|
    requires forall y :: y in t' <==> (y in t && y != e) || y == Bump(e)
    ensures m < |t| && (if t'[k] == Bump(e) then t[m] == e else t[m] == t'[k] && t'[k].id != e.id)
  {
    assert t'[k] in t';
    if t'[k] == Bump(e) {
      m :| 0 <= m < |t| && t[m] == e;
    } else {
      m :| 0 <= m < |t| && t[m] == t'[k];
      if t[m].id == e.id { SameId(t, t[m], e); }
    }
  }

  lemma GroupStarts(t: Table, s: nat)
    requires Within(t, s)
    ensures GroupWithin(t, [], s)
  {
  }

  lemma GroupEnds(t: Table, group: seq<Provider>, s: nat)
    requires GroupWithin(t, group, s)
    ensures Balanced(t)
  {
    if j :| 0 <= j < |t| && t[j].id in group && t[j].score == s + 2 {
      assert Within(t, s + 1);
    } else {
      assert Within(t, s);
    }
  }

  // ---- Groups ----

  /** Providers of one aligned block of r are pairwise distinct. */
  ghost predicate Blocks(list: seq<Provider>, r: nat)
    requires r > 0
  {
    forall i: nat, j: nat :: i < j < |list| && i / r == j / r ==> list[i] != list[j]
  }

  /** A group appended to whole blocks makes a new block. */
  lemma BlocksAppend(list: seq<Provider>, group: seq<Provider>, r: nat, g: nat)
    requires r > 0 && |list| == g * r && |group| <= r && Blocks(list, r) && Distinct(group)
    ensures Blocks(list + group, r)
  {
    var all := list + group;
    forall i: nat, j: nat | i < j < |all| && i / r == j / r ensures all[i] != all[j] {
      Distribute(g, 1, r);
      BlockOf(i, r, g);
      BlockOf(j, r, g);
      if j < |list| {
        assert list[i] != list[j];
      }
    }
  }

  lemma BlockOf(i: nat, r: nat, g: nat)
    requires r > 0 && i < (g + 1) * r
    ensures i < g * r <==> i / r < g
    ensures i / r <= g
  {
    DivMod(i, r);
    Distribute(g, 1, r);
    if i / r < g { MulStep(i / r, g, r); } else if g < i / r { MulStep(g, i / r, r); }
  }

  ghost function Ids(t: Table): set<Provider> {
    set k | 0 <= k < |t| :: t[k].id
  }

  lemma {:induction false} IdsSize(t: Table)
    requires DistinctIds(t)
    ensures |Ids(t)| == |t|
  {
    if t != [] {
      var rest, e := t[..|t| - 1], t[|t| - 1];
      IdsSize(rest);
      assert Ids(t) == Ids(rest) + {e.id};
    }
  }

  lemma {:induction false} GroupSize(group: seq<Provider>)
    requires Distinct(group)
    ensures |set p | p in group| == |group|
  {
    if group != [] {
      var rest, p := group[..|group| - 1], group[|group| - 1];
      GroupSize(rest);
      assert (set x | x in group) == (set x | x in rest) + {p};
    }
  }

  lemma SubsetSize(a: set<Provider>, b: set<Provider>)
    requires a <= b
    ensures |a| <= |b|
  {
    assert b == a + (b - a);
  }

  /** A group of distinct providers of the table is no larger than the table, and exactly as
      large only if it has them all. */
  lemma GroupFits(t: Table, group: seq<Provider>)
    requires DistinctIds(t) && Distinct(group) && forall p :: p in group ==> p in Ids(t)
    ensures |group| <= |t|
    ensures (forall k :: 0 <= k < |t| ==> t[k].id in group) ==> |group| == |t|
  {
    IdsSize(t);
    GroupSize(group);
    SubsetSize((set p | p in group), Ids(t));
    if forall k :: 0 <= k < |t| ==> t[k].id in group {
      SubsetSize(Ids(t), (set p | p in group));
    }
  }

  lemma ReplaceIds(t: Table, i: nat)
    requires DistinctIds(t) && i < |t|
    ensures Ids(Replace(t, i, Bump(t[i]))) == Ids(t)
  {
    hide Replace;
    var e, t' := t[i], Replace(t, i, Bump(t[i]));
    ReplaceMembers(t, i, Bump(e));
    forall p ensures p in Ids(t') <==> p in Ids(t) {
      if p in Ids(t) {
        var k :| 0 <= k < |t| && t[k].id == p;
        if t[k] == e { assert Bump(e) in t'; } else { assert t[k] in t'; }
      }
      if p in Ids(t') {
        var k :| 0 <= k < |t'| && t'[k].id == p;
        var m := TakenFrom(t, t', e, k);
      }
    }
  }

  /** All providers before the first one without free space are in the group. */
  ghost predicate Exhausted(t: Table, group: seq<Provider>) {
    exists k: nat :: ExhaustedAt(t, group, k)
  }

  predicate ExhaustedAt(t: Table, group: seq<Provider>, k: nat) {
    k <= |t| && (k < |t| ==> t[k].free == 0) && forall j :: 0 <= j < k ==> t[j].id in group
  }

  // ---- The choice ----

  /** x is at least as good a choice as y when the allocations in `taken` are counted in: its
      score is lower, or it is the same and there is no less free space. */
  predicate Better(x: Entry, y: Entry, taken: seq<Provider>) {
    var a, b := x.score + Count(taken, x.id), y.score + Count(taken, y.id);
    a < b || (a == b && x.free >= y.free)
  }

  /** p is the best choice of the table outside a group. */
  ghost predicate Best(t: Table, taken: seq<Provider>, group: seq<Provider>, p: Provider) {
    && p !in group && p in Ids(t)
    && forall x, y :: x in t && x.id == p && y in t && y.id !in group ==> Better(x, y, taken)
  }

  /** Every provider of the list was the best choice outside its own group, given all whole
      groups before it. */
  ghost predicate Greedy(t: Table, list: seq<Provider>, r: nat)
    requires r > 0
  {
    forall n: nat :: n < |list| ==> BestNext(t, list, r, n)
  }

  ghost predicate BestNext(t: Table, list: seq<Provider>, r: nat, n: nat)
    requires r > 0 && n < |list|
  {
    var start := n - n % r;
    0 <= start <= n && Best(t, list[..start], list[start..n], list[n])
  }

  lemma {:induction false} CountAbsent(s: seq<Provider>, p: Provider)
    requires p !in s
    ensures Count(s, p) == 0
  {
    if s != [] {
      CountAbsent(s[..|s| - 1], p);
    }
  }

  /** In order, the first entry is no worse than any later one. */
  lemma FirstIsBetter(t: Table, i: nat, k: nat)
    requires Sorted(t) && AllFree(t) && i <= k < |t|
    ensures t[i].score < t[k].score || (t[i].score == t[k].score && t[i].free >= t[k].free)
  {
  }

  /** A provider outside the group is as it was when the group began. */
  lemma UntouchedInGroup(before: Table, t: Table, group: seq<Provider>, x: Entry)
    requires Raised(before, t, group) && x in before && x.id !in group
    ensures x in t
  {
    CountAbsent(group, x.id);
    var k :| 0 <= k < |before| && before[k] == x;
    assert RaisedBy(before[k], group) == x;
  }

  /** The first provider outside the group is the best choice. */
  lemma FirstIsBest(before: Table, t: Table, group: seq<Provider>, i: nat)
    requires DistinctIds(before) && GroupDone(before, t, group) && Ordered(t) && FirstOutside(t, group, i)
    ensures Best(before, [], group, t[i].id)
  {
    hide Raised, Total, Sorted, AllFree;
    RaisedDistinct(before, t, group);
    assert t[i].id in Ids(t);
    forall x, y | x in before && x.id == t[i].id && y in before && y.id !in group ensures Better(x, y, []) {
      UntouchedInGroup(before, t, group, x);
      UntouchedInGroup(before, t, group, y);
      SameId(t, x, t[i]);
      var k :| 0 <= k < |t| && t[k] == y;
      FirstIsBetter(t, i, k);
    }
  }

  /** Seen from an earlier table, with what was allocated since counted in. */
  lemma BestSince(first: Table, before: Table, list: seq<Provider>, group: seq<Provider>, p: Provider)
    requires Raised(first, before, list) && Best(before, [], group, p) && Ids(before) == Ids(first)
    ensures Best(first, list, group, p)
  {
    hide Count;
    forall x, y | x in first && x.id == p && y in first && y.id !in group ensures Better(x, y, list) {
      RaisedMember(first, before, list, x);
      RaisedMember(first, before, list, y);
      assert Better(RaisedBy(x, list), RaisedBy(y, list), []);
      NothingCounted(x.id);
      NothingCounted(y.id);
    }
  }

  lemma NothingCounted(p: Provider)
    ensures Count([], p) == 0
  {
  }

  lemma RaisedMember(first: Table, before: Table, list: seq<Provider>, x: Entry)
    requires Raised(first, before, list) && x in first
    ensures RaisedBy(x, list) in before
  {
    var k :| 0 <= k < |first| && first[k] == x;
  }

  /** Each provider of a group was the best choice outside those before it. */
  ghost predicate AllBest(t: Table, group: seq<Provider>) {
    forall j :: 0 <= j < |group| ==> Best(t, [], group[..j], group[j])
  }

  lemma BestPush(t: Table, group: seq<Provider>, p: Provider)
    requires AllBest(t, group) && Best(t, [], group, p)
    ensures AllBest(t, group + [p])
  {
    hide Best;
    var more := group + [p];
    forall j | 0 <= j < |more| ensures Best(t, [], more[..j], more[j]) {
      assert more[..j] == if j < |group| then group[..j] else group;
    }
  }

  /** A group of best choices after whole groups of best choices. */
  lemma GreedyAppend(t: Table, list: seq<Provider>, group: seq<Provider>, r: nat, g: nat)
    requires r > 0 && |list| == g * r && |group| <= r && Greedy(t, list, r)
    requires forall j :: 0 <= j < |group| ==> Best(t, list, group[..j], group[j])
    ensures Greedy(t, list + group, r)
  {
    hide Best;
    var all := list + group;
    forall n: nat | n < |all| ensures BestNext(t, all, r, n) {
      if n < |list| {
        assert BestNext(t, list, r, n);
        DivMod(n, r);
        var start := n - n % r;
        assert all[..start] == list[..start] && all[start..n] == list[start..n];
      } else {
        GroupStartsAt(n, r, g);
        assert all[..|list|] == list && all[|list|..n] == group[..n - |list|];
      }
    }
  }

  lemma RaisedIds(first: Table, before: Table, list: seq<Provider>)
    requires DistinctIds(first) && Raised(first, before, list)
    ensures Ids(before) == Ids(first)
  {
    IdsSize(first);
    IdsSize(before);
    forall p | p in Ids(first) ensures p in Ids(before) {
      var k :| 0 <= k < |first| && first[k].id == p;
      assert RaisedBy(first[k], list) in before;
    }
    SameSet(Ids(first), Ids(before));
  }

  lemma SameSet(a: set<Provider>, b: set<Provider>)
    requires a <= b && |a| == |b|
    ensures a == b
  {
    if a != b {
      var x :| x in b && x !in a;
      SubsetSize(a + {x}, b);
    }
  }

  lemma GreedyGroup(first: Table, before: Table, list: seq<Provider>, group: seq<Provider>, r: nat, g: nat)
    requires r > 0 && |list| == g * r && |group| <= r && Greedy(first, list, r)
    requires DistinctIds(first) && Raised(first, before, list) && AllBest(before, group)
    ensures Greedy(first, list + group, r)
  {
    hide Raised, Best, Greedy;
    RaisedIds(first, before, list);
    forall j | 0 <= j < |group| ensures Best(first, list, group[..j], group[j]) {
      BestSince(first, before, list, group[..j], group[j]);
    }
    GreedyAppend(first, list, group, r, g);
  }

  lemma GroupStartsAt(n: nat, r: nat, g: nat)
    requires r > 0 && g * r <= n < g * r + r
    ensures n - n % r == g * r
  {
    ModOf(g, r, n - g * r);
  }

  // ---- The request ----

  datatype Status<+T> = Ok(value: T) | BadArgument | NoResources

  /** What the group loop has done to the table since the request began its group. */
  ghost predicate GroupDone(before: Table, after: Table, group: seq<Provider>) {
    && Raised(before, after, group) && Distinct(group) && Ids(after) == Ids(before)
    && (forall p :: p in group ==> p in Ids(after)) && Total(after) == Total(before) + |group|
  }

  ghost predicate Ordered(t: Table) {
    Sorted(t) && AllFree(t)
  }

  lemma GroupStep(before: Table, t: Table, group: seq<Provider>, i: nat)
    requires DistinctIds(before) && GroupDone(before, t, group) && i < |t| && t[i].id !in group
    ensures GroupDone(before, Replace(t, i, Bump(t[i])), group + [t[i].id])
  {
    hide Replace, Raised, Total;
    assert DistinctIds(t) by { RaisedDistinct(before, t, group); }
    RaisedStep(before, t, group, i);
    ReplaceIds(t, i);
    ReplaceTotal(t, i, Bump(t[i]));
    assert t[i].id in Ids(t);
  }

  lemma RaisedDistinct(before: Table, t: Table, group: seq<Provider>)
    requires Raised(before, t, group)
    ensures DistinctIds(t) && |t| == |before|
  {
  }

  lemma GroupNone(t: Table)
    requires DistinctIds(t)
    ensures GroupDone(t, t, [])
  {
  }

  lemma OrderedStep(t: Table, i: nat)
    requires DistinctIds(t) && Ordered(t) && i < |t|
    ensures Ordered(Replace(t, i, Bump(t[i])))
  {
    hide Replace, Less, Sorted;
    ReplaceSorted(t, i, Bump(t[i]));
    var t' := Replace(t, i, Bump(t[i]));
    ReplaceMembers(t, i, Bump(t[i]));
    forall k | 0 <= k < |t'| ensures t'[k].free > 0 {
      var m := TakenFrom(t, t', t[i], k);
    }
  }

  class AdvManager {
    var table: Table

    ghost predicate Valid()
      reads this
    {
      DistinctIds(table)
    }

    /** Whether a provider is among the last i of the list: the current group. */
    method InGroup(list: seq<Provider>, i: nat, id: Provider) returns (taken: bool)
      requires i <= |list|
      ensures taken <==> id in list[|list| - i..]
    {
      var j := |list|;
      while j > |list| - i
        invariant |list| - i <= j <= |list| && id !in list[j..]
      {
        j := j - 1;
        assert list[j..] == [list[j]] + list[j + 1..];
        if list[j].host == id.host && list[j].service == id.service {
          assert list[|list| - i..] == list[|list| - i..j] + list[j..];
          return true;
        }
      }
      return false;
    }

    /** The first provider, before any without free space, that the group does not hold. */
    method FindProvider(list: seq<Provider>, i: nat) returns (k: nat, found: bool)
      requires i <= |list|
      ensures found ==> FirstOutside(table, list[|list| - i..], k) && table[k].free > 0
      ensures !found ==> ExhaustedAt(table, list[|list| - i..], k)
    {
      k := 0;
      while k < |table| && table[k].free > 0
        invariant k <= |table| && forall j :: 0 <= j < k ==> table[j].id in list[|list| - i..]
      {
        var taken := InGroup(list, i, table[k].id);
        if !taken {
          return k, true;
        }
        k := k + 1;
      }
      return k, false;
    }

    /** One turn of the group loop. */
    method TakeOne(list: seq<Provider>, i: nat, ghost before: Table, ghost s: nat) returns (list': seq<Provider>, found: bool)
      requires DistinctIds(before) && i <= |list| && GroupDone(before, table, list[|list| - i..])
      modifies this
      ensures !found ==> list' == list && table == old(table) && Exhausted(table, list[|list| - i..])
      ensures !found && AllFree(table) ==> |table| <= i
      ensures found ==> |list'| == |list| + 1 && list'[..|list|] == list
                        && GroupDone(before, table, list'[|list'| - (i + 1)..])
      ensures found && Ordered(old(table)) ==> Best(before, [], list[|list| - i..], list'[|list|])
      ensures Ordered(old(table)) ==> Ordered(table)
      ensures found && Ordered(old(table)) && GroupWithin(old(table), list[|list| - i..], s) ==>
        GroupWithin(table, list'[|list'| - (i + 1)..], s)
    {
      hide Replace, Less, Raised, Total, Sorted, Best;
      ghost var group := list[|list| - i..];
      RaisedDistinct(before, table, group);
      GroupFits(table, group);
      var k;
      k, found := FindProvider(list, i);
      list' := list;
      if found {
        GroupStep(before, table, group, k);
        if Ordered(table) {
          FirstIsBest(before, table, group, k);
          OrderedStep(table, k);
          if GroupWithin(table, group, s) { TakeWithin(table, group, k, s); }
        }
        list' := list + [table[k].id];
        assert list'[|list'| - (i + 1)..] == group + [table[k].id];
        table := Replace(table, k, Bump(table[k]));
      }
    }

    /** One group: up to r providers, all different; full exactly when found stays true. */
    method TakeGroup(list: seq<Provider>, r: nat) returns (list': seq<Provider>, found: bool, ghost group: seq<Provider>)
      requires Valid()
      modifies this
      ensures Valid() && list' == list + group && |group| <= r && (found <==> |group| == r)
      ensures GroupDone(old(table), table, group) && (!found ==> Exhausted(table, group))
      ensures Ordered(old(table)) ==> Ordered(table) && (found <==> r <= |table|) && (!found ==> |group| == |table|)
      ensures Ordered(old(table)) && Balanced(old(table)) ==> Balanced(table)
      ensures Ordered(old(table)) ==> AllBest(old(table), group)
    {
      hide Raised, Total, Sorted, GroupWithin, AllFree, GroupDone, Best, Exhausted;
      list', found := list, true;
      var i := 0;
      ghost var s: nat := if Balanced(table) then var s: nat :| Within(table, s); s else 0;
      assert list[|list|..] == [];
      GroupNone(table);
      if Balanced(table) { GroupStarts(table, s); }
      while i < r && found
        invariant i <= r && |list'| == |list| + i && list'[..|list|] == list
        invariant GroupDone(old(table), table, list'[|list|..])
        invariant Ordered(old(table)) ==> Ordered(table)
        invariant Ordered(old(table)) ==> AllBest(old(table), list'[|list|..])
        invariant Ordered(old(table)) && Balanced(old(table)) ==> GroupWithin(table, list'[|list|..], s)
        invariant !found ==> i < r && (Ordered(old(table)) ==> |table| <= i) && Exhausted(table, list'[|list|..])
        decreases r - i, found
      {
        var more;
        more, found := TakeOne(list', i, old(table), s);
        assert found ==> more[..|list|] == more[..|list'|][..|list|];
        if found && Ordered(old(table)) {
          assert more[|list|..] == list'[|list|..] + [more[|list'|]];
          BestPush(old(table), list'[|list|..], more[|list'|]);
        }
        list' := more;
        if found { i := i + 1; }
      }
      group := list'[|list|..];
      assert list' == list + group;
      GroupFacts(old(table), table, group);
      if Ordered(old(table)) && Balanced(old(table)) { GroupEnds(table, group, s); }
    }

    /** adv_manager::get.  With r == 0 a group adds nothing and never fails, so the loop would
        not end.  Scores stay raised when a request fails.  Groups are only taken whole, so
        with enough providers a request succeeds exactly when its size is a multiple of r;
        with fewer than r the one short group of all providers can still be accepted. */
    method Get(no: nat, r: nat) returns (result: Status<seq<Provider>>, ghost list: seq<Provider>)
      requires Valid() && r > 0
      modifies this
      ensures Valid() && Raised(old(table), table, list) && Total(table) == Total(old(table)) + |list|
      ensures Blocks(list, r)
      ensures no == 0 ==> result == BadArgument && list == []
      ensures result.Ok? ==> result.value == list
      ensures (result.Ok? <==> no > 0 && |list| == no) && (no > 0 ==> result != BadArgument)
      ensures no > 0 && |list| < no ==> Exhausted(table, list[|list| - |list| % r..])
      ensures Ordered(old(table)) ==> Ordered(table) && (result.Ok? <==> no > 0 && if r <= |table| then no % r == 0 else no == |table|)
      ensures Ordered(old(table)) && Balanced(old(table)) ==> Balanced(table)
      ensures Ordered(old(table)) ==> Greedy(old(table), list, r)
    {
      hide Raised, Total, Sorted, AllFree, Ordered, Balanced, Blocks, GroupDone, Best, Greedy, AllBest, Exhausted;
      list := [];
      RaisedNone(table);
      if no == 0 {
        return BadArgument, [];
      }
      var adv: seq<Provider>, found := [], true;
      ghost var g: nat := 0;
      while |adv| < no && found
        invariant Valid() && Raised(old(table), table, adv) && Total(table) == Total(old(table)) + |adv| && Blocks(adv, r)
        invariant Ordered(old(table)) ==> Ordered(table)
        invariant Ordered(old(table)) && Balanced(old(table)) ==> Balanced(table)
        invariant Ordered(old(table)) ==> Greedy(old(table), adv, r)
        invariant found ==> |adv| == g * r && (g > 0 ==> (g - 1) * r < no && (Ordered(old(table)) ==> r <= |table|))
        invariant !found && Ordered(old(table)) ==> r > |table| && |adv| == |table|
        invariant !found ==> 0 <= |adv| - |adv| % r && Exhausted(table, adv[|adv| - |adv| % r..])
        decreases found, no - |adv|
      {
        ghost var group;
        ghost var before, had := table, adv;
        adv, found, group := TakeGroup(adv, r);
        JoinGroup(old(table), before, table, had, group);
        BlocksAppend(had, group, r, g);
        if Ordered(old(table)) { GreedyGroup(old(table), before, had, group, r, g); }
        Distribute(g, 1, r);
        if !found {
          GroupStartsAt(|adv|, r, g);
          assert adv[|had|..] == group;
        }
        g := g + 1;
        SameSize(old(table), before, had);
        SameSize(old(table), table, adv);
      }
      list := adv;
      if found { WholeGroups(no, r, g); }
      if |adv| != no {
        return NoResources, list;
      }
      return Ok(adv), list;
    }

    lemma GroupFacts(before: Table, after: Table, group: seq<Provider>)
      requires GroupDone(before, after, group)
      ensures DistinctIds(after) && |after| == |before| && |group| <= |after|
    {
      RaisedDistinct(before, after, group);
      GroupFits(after, group);
    }
  }

  lemma RaisedNone(t: Table)
    requires DistinctIds(t)
    ensures Raised(t, t, []) && Blocks([], 1)
    ensures forall r: nat :: r > 0 ==> Greedy(t, [], r)
    ensures forall r: nat :: r > 0 ==> Blocks([], r)
  {
  }

  lemma SameSize(before: Table, after: Table, list: seq<Provider>)
    requires Raised(before, after, list)
    ensures |before| == |after|
  {
  }

  /** Raising by one list and then by another is raising by both. */
  lemma JoinGroup(first: Table, before: Table, after: Table, list: seq<Provider>, group: seq<Provider>)
    requires Raised(first, before, list) && GroupDone(before, after, group) && Total(before) == Total(first) + |list|
    ensures Raised(first, after, list + group) && Total(after) == Total(first) + |list + group|
    ensures Distinct(group) && DistinctIds(after)
  {
    hide Count, Total, Ids;
    forall k | 0 <= k < |first| ensures RaisedBy(first[k], list + group) in after {
      CountConcat(list, group, first[k].id);
      var y := RaisedBy(first[k], list);
      assert y in before;
      var m :| 0 <= m < |before| && before[m] == y;
      assert RaisedBy(before[m], group) in after;
    }
  }

  /** Whole groups add up to the request exactly when its size is a multiple of r. */
  lemma WholeGroups(no: nat, r: nat, g: nat)
    requires r > 0 && no > 0 && g > 0 && (g - 1) * r < no <= g * r
    ensures g * r == no <==> no % r == 0
  {
    DivMod(no, r);
    if no % r == 0 {
      var q := no / r;
      if q < g - 1 { MulStep(q, g - 1, r); }
      if g < q { MulStep(g, q, r); }
    } else {
      ModOf(g, r, 0);
    }
  }
}
