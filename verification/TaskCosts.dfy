/** Own and subtree cost of each task: a memoised walk over the parent map, in whatever order the map yields children. */
module TaskCosts {
  import opened Folding
  import opened Options

  /** Cost and the mark that part of it is unknown; they add up the same way. */
  datatype Cost = Cost(usd: real, incomplete: bool)

  const NO_COST := Cost(0.0, false)

  function Plus(a: Cost, b: Cost): Cost
  {
    Cost(a.usd + b.usd, a.incomplete || b.incomplete)
  }

  function Costs(): Monoid<Cost>
  {
    Monoid(NO_COST, (a, b) => Plus(a, b))
  }

  lemma CostsLawful()
    ensures Lawful(Costs())
  {
  }

  // ----- Own cost -----

  datatype Usage = Usage(taskID: string, cost: real, metered: bool)

  /** A task's own invocations; a record of no task counts for none. */
  function Own(records: seq<Usage>, id: string): Cost
  {
    Fold(Costs(), OwnShare(id), records)
  }

  function OwnShare(id: string): Usage -> Cost
  {
    (r: Usage) => if r.taskID == id && id != "" then Cost(r.cost, !r.metered) else NO_COST
  }

  // ----- Descendants -----

  type Parents = map<string, string>

  type Children = map<string, seq<string>>

  function ChildrenOf(children: Children, id: string): seq<string>
  {
    if id in children then children[id] else []
  }

  ghost predicate ListedRight(parentOf: Parents, children: Children, id: string, c: string)
  {
    c in ChildrenOf(children, id) <==> c in parentOf && parentOf[c] == id
  }

  ghost predicate ListedOnce(children: Children, id: string)
  {
    Distinct(ChildrenOf(children, id))
  }

  /** The child lists of a parent map, in some order, each child once. */
  ghost predicate Lists(parentOf: Parents, children: Children)
  {
    && (forall id {:trigger ListedOnce(children, id)} :: ListedOnce(children, id))
    && (forall id, c {:trigger ListedRight(parentOf, children, id, c)} :: ListedRight(parentOf, children, id, c))
  }

  /** The parent map has no cycle: heights fall from parent to child. */
  ghost predicate Acyclic(parentOf: Parents, height: string -> nat)
  {
    forall c {:trigger Falls(parentOf, height, c)} :: Falls(parentOf, height, c)
  }

  ghost predicate Falls(parentOf: Parents, height: string -> nat, c: string)
  {
    c in parentOf ==> height(c) < height(parentOf[c])
  }

  lemma ChildLower(parentOf: Parents, children: Children, height: string -> nat, id: string, c: string)
    requires Lists(parentOf, children) && Acyclic(parentOf, height) && c in ChildrenOf(children, id)
    ensures c in parentOf && parentOf[c] == id && height(c) < height(id)
  {
    assert ListedRight(parentOf, children, id, c) && Falls(parentOf, height, c);
  }

  /** The task and everything below it. */
  ghost function Below(parentOf: Parents, children: Children, height: string -> nat, id: string): seq<string>
    requires Lists(parentOf, children) && Acyclic(parentOf, height)
    decreases height(id), 1, 0
  {
    [id] + BelowAll(parentOf, children, height, id, ChildrenOf(children, id))
  }

  ghost function BelowAll(parentOf: Parents, children: Children, height: string -> nat, id: string, cs: seq<string>): seq<string>
    requires Lists(parentOf, children) && Acyclic(parentOf, height) && forall c :: c in cs ==> c in ChildrenOf(children, id)
    decreases height(id), 0, |cs|
  {
    if cs == [] then [] else
      assert cs[|cs| - 1] in cs;
      ChildLower(parentOf, children, height, id, cs[|cs| - 1]);
      BelowAll(parentOf, children, height, id, cs[..|cs| - 1]) + Below(parentOf, children, height, cs[|cs| - 1])
  }

  /** n steps up from t. */
  function Up(parentOf: Parents, t: string, n: nat): Option<string>
  {
    if n == 0 then Some(t)
    else match Up(parentOf, t, n - 1)
         case None => None
         case Some(u) => if u in parentOf then Some(parentOf[u]) else None
  }

  ghost predicate Descends(parentOf: Parents, t: string, id: string)
  {
    exists n: nat :: Up(parentOf, t, n) == Some(id)
  }

  lemma {:induction false} UpCompose(parentOf: Parents, t: string, n: nat, k: nat)
    requires Up(parentOf, t, n).Some?
    ensures Up(parentOf, t, n + k) == Up(parentOf, Up(parentOf, t, n).value, k)
  {
    if k > 0 { UpCompose(parentOf, t, n, k - 1); }
  }

  lemma {:induction false} UpRises(parentOf: Parents, height: string -> nat, t: string, n: nat)
    requires Acyclic(parentOf, height) && Up(parentOf, t, n).Some?
    ensures height(Up(parentOf, t, n).value) >= height(t) + n
  {
    if n > 0 {
      UpRises(parentOf, height, t, n - 1);
      assert Falls(parentOf, height, Up(parentOf, t, n - 1).value);
    }
  }

  lemma LastBelow(parentOf: Parents, children: Children, height: string -> nat, id: string, cs: seq<string>, t: string)
    requires Lists(parentOf, children) && Acyclic(parentOf, height) && cs != []
    requires forall c :: c in cs ==> c in ChildrenOf(children, id)
    ensures var front, last := cs[..|cs| - 1], cs[|cs| - 1];
      last in cs && (t in BelowAll(parentOf, children, height, id, cs) <==>
        t in BelowAll(parentOf, children, height, id, front) || t in Below(parentOf, children, height, last))
  {
  }

  ghost predicate BelowOne(parentOf: Parents, children: Children, height: string -> nat, id: string, cs: seq<string>, t: string, i: nat)
    requires Lists(parentOf, children) && Acyclic(parentOf, height)
  {
    i < |cs| && cs[i] in ChildrenOf(children, id) && t in Below(parentOf, children, height, cs[i])
  }

  lemma {:induction false} BelowAllMember(parentOf: Parents, children: Children, height: string -> nat, id: string, cs: seq<string>, t: string)
    requires Lists(parentOf, children) && Acyclic(parentOf, height) && forall c :: c in cs ==> c in ChildrenOf(children, id)
    ensures t in BelowAll(parentOf, children, height, id, cs) <==>
      exists i: nat :: BelowOne(parentOf, children, height, id, cs, t, i)
    decreases |cs|
  {
    if cs != [] {
      var n, front := |cs| - 1, cs[..|cs| - 1];
      BelowAllMember(parentOf, children, height, id, front, t);
      LastBelow(parentOf, children, height, id, cs, t);
      if exists i: nat :: BelowOne(parentOf, children, height, id, front, t, i) {
        var i: nat :| BelowOne(parentOf, children, height, id, front, t, i);
        assert BelowOne(parentOf, children, height, id, cs, t, i);
      }
      if t in Below(parentOf, children, height, cs[n]) {
        assert BelowOne(parentOf, children, height, id, cs, t, n);
      }
      if exists i: nat :: BelowOne(parentOf, children, height, id, cs, t, i) {
        var i: nat :| BelowOne(parentOf, children, height, id, cs, t, i);
        assert i < n ==> BelowOne(parentOf, children, height, id, front, t, i);
      }
    }
  }

  lemma {:induction false} BelowDescends(parentOf: Parents, children: Children, height: string -> nat, id: string, t: string)
    requires Lists(parentOf, children) && Acyclic(parentOf, height) && t in Below(parentOf, children, height, id)
    ensures Descends(parentOf, t, id)
    decreases height(id)
  {
    if t == id {
      assert Up(parentOf, t, 0) == Some(id);
    } else {
      var cs := ChildrenOf(children, id);
      BelowAllMember(parentOf, children, height, id, cs, t);
      var i: nat :| BelowOne(parentOf, children, height, id, cs, t, i);
      ChildLower(parentOf, children, height, id, cs[i]);
      BelowDescends(parentOf, children, height, cs[i], t);
      var n: nat :| Up(parentOf, t, n) == Some(cs[i]);
      assert Up(parentOf, t, n + 1) == Some(id);
    }
  }

  lemma {:induction false} DescendsBelow(parentOf: Parents, children: Children, height: string -> nat, id: string, t: string, n: nat)
    requires Lists(parentOf, children) && Acyclic(parentOf, height) && Up(parentOf, t, n) == Some(id)
    ensures t in Below(parentOf, children, height, id)
    decreases n
  {
    if n > 0 {
      var c := Up(parentOf, t, n - 1).value;
      DescendsBelow(parentOf, children, height, c, t, n - 1);
      var cs := ChildrenOf(children, id);
      assert ListedRight(parentOf, children, id, c);
      var i :| 0 <= i < |cs| && cs[i] == c;
      assert BelowOne(parentOf, children, height, id, cs, t, i);
      BelowAllMember(parentOf, children, height, id, cs, t);
    }
  }

  /** A task is listed below exactly the tasks its chain of parents leads to. */
  lemma BelowExact(parentOf: Parents, children: Children, height: string -> nat, id: string, t: string)
    requires Lists(parentOf, children) && Acyclic(parentOf, height)
    ensures t in Below(parentOf, children, height, id) <==> Descends(parentOf, t, id)
  {
    if t in Below(parentOf, children, height, id) {
      BelowDescends(parentOf, children, height, id, t);
    }
    if n: nat :| Up(parentOf, t, n) == Some(id) {
      DescendsBelow(parentOf, children, height, id, t, n);
    }
  }

  /** A task is below at most one of two siblings. */
  lemma OneSibling(parentOf: Parents, height: string -> nat, t: string, a: string, b: string)
    requires Acyclic(parentOf, height) && a in parentOf && b in parentOf && parentOf[a] == parentOf[b]
    requires Descends(parentOf, t, a) && Descends(parentOf, t, b)
    ensures a == b
  {
    var m: nat :| Up(parentOf, t, m) == Some(a);
    var n: nat :| Up(parentOf, t, n) == Some(b);
    if m < n {
      SiblingAbove(parentOf, height, t, a, b, m, n);
    } else if n < m {
      SiblingAbove(parentOf, height, t, b, a, n, m);
    }
  }

  lemma SiblingAbove(parentOf: Parents, height: string -> nat, t: string, a: string, b: string, m: nat, n: nat)
    requires Acyclic(parentOf, height) && a in parentOf && b in parentOf && parentOf[a] == parentOf[b]
    requires m < n && Up(parentOf, t, m) == Some(a)
    ensures Up(parentOf, t, n) != Some(b)
  {
    UpCompose(parentOf, t, m + 1, n - m - 1);
    if Up(parentOf, t, n).Some? {
      UpRises(parentOf, height, parentOf[a], n - m - 1);
      assert Falls(parentOf, height, b);
    }
  }

  lemma {:induction false} BelowDistinct(parentOf: Parents, children: Children, height: string -> nat, id: string)
    requires Lists(parentOf, children) && Acyclic(parentOf, height)
    ensures Distinct(Below(parentOf, children, height, id))
    decreases height(id), 1, 0
  {
    var cs := ChildrenOf(children, id);
    assert ListedOnce(children, id);
    BelowAllDistinct(parentOf, children, height, id, cs);
    var rest := BelowAll(parentOf, children, height, id, cs);
    BelowAllMember(parentOf, children, height, id, cs, id);
    forall i | 0 <= i < |cs|
      ensures id !in Below(parentOf, children, height, cs[i])
    {
      BelowExact(parentOf, children, height, cs[i], id);
      assert cs[i] in cs;
      ChildLower(parentOf, children, height, id, cs[i]);
      if n: nat :| Up(parentOf, id, n) == Some(cs[i]) {
        UpRises(parentOf, height, id, n);
      }
    }
    assert id !in rest;
  }

  lemma {:induction false} BelowAllDistinct(parentOf: Parents, children: Children, height: string -> nat, id: string, cs: seq<string>)
    requires Lists(parentOf, children) && Acyclic(parentOf, height)
    requires Distinct(cs) && forall c :: c in cs ==> c in ChildrenOf(children, id)
    ensures Distinct(BelowAll(parentOf, children, height, id, cs))
    decreases height(id), 0, |cs|
  {
    if cs != [] {
      var front, last := cs[..|cs| - 1], cs[|cs| - 1];
      assert last in cs;
      ChildLower(parentOf, children, height, id, last);
      BelowAllDistinct(parentOf, children, height, id, front);
      BelowDistinct(parentOf, children, height, last);
      var a, b := BelowAll(parentOf, children, height, id, front), Below(parentOf, children, height, last);
      forall t | t in a
        ensures t !in b
      {
        SiblingsApart(parentOf, children, height, id, front, last, t);
      }
      DistinctAppend(a, b);
    }
  }

  lemma SiblingsApart(parentOf: Parents, children: Children, height: string -> nat, id: string, cs: seq<string>, last: string, t: string)
    requires Lists(parentOf, children) && Acyclic(parentOf, height)
    requires last in ChildrenOf(children, id) && last !in cs && forall c :: c in cs ==> c in ChildrenOf(children, id)
    requires t in BelowAll(parentOf, children, height, id, cs)
    ensures t !in Below(parentOf, children, height, last)
  {
    BelowAllMember(parentOf, children, height, id, cs, t);
    var i: nat :| BelowOne(parentOf, children, height, id, cs, t, i);
    ChildLower(parentOf, children, height, id, cs[i]);
    ChildLower(parentOf, children, height, id, last);
    BelowExact(parentOf, children, height, cs[i], t);
    BelowExact(parentOf, children, height, last, t);
    if Descends(parentOf, t, last) {
      OneSibling(parentOf, height, t, cs[i], last);
    }
  }

  lemma DistinctAppend<T>(a: seq<T>, b: seq<T>)
    requires Distinct(a) && Distinct(b) && forall t :: t in a ==> t !in b
    ensures Distinct(a + b)
  {
    var all := a + b;
    forall i, j | 0 <= i < j < |all|
      ensures all[i] != all[j]
    {
      if i < |a| <= j { assert all[i] in a && all[j] in b; }
    }
  }

  // ----- Subtree cost -----

  function OwnOf(records: seq<Usage>): string -> Cost
  {
    id => Own(records, id)
  }

  /** The specification: own costs summed over the task and everything below it. */
  ghost function Subtree(records: seq<Usage>, parentOf: Parents, children: Children, height: string -> nat, id: string): Cost
    requires Lists(parentOf, children) && Acyclic(parentOf, height)
  {
    Fold(Costs(), OwnOf(records), Below(parentOf, children, height, id))
  }

  lemma {:induction false} FoldAppend<E, S(!new)>(m: Monoid<S>, share: E -> S, a: seq<E>, b: seq<E>)
    requires Lawful(m)
    ensures Fold(m, share, a + b) == m.plus(Fold(m, share, a), Fold(m, share, b))
  {
    if b == [] {
      assert a + b == a;
      assert Neutral(m, Fold(m, share, a));
    } else {
      var front, last := b[..|b| - 1], b[|b| - 1];
      FoldAppend(m, share, a, front);
      assert a + b == (a + front) + [last];
      FoldPush(m, share, a + front, last);
      assert Associates(m, Fold(m, share, a), Fold(m, share, front), share(last));
    }
  }

  /** What has been added up after the first k children. */
  ghost function Partial(records: seq<Usage>, parentOf: Parents, children: Children, height: string -> nat, id: string, k: nat): Cost
    requires Lists(parentOf, children) && Acyclic(parentOf, height) && k <= |ChildrenOf(children, id)|
  {
    Fold(Costs(), OwnOf(records), [id] + BelowAll(parentOf, children, height, id, ChildrenOf(children, id)[..k]))
  }

  /** Each ancestor's total is its own cost and its children's totals. */
  lemma PartialPush(records: seq<Usage>, parentOf: Parents, children: Children, height: string -> nat, id: string, k: nat)
    requires Lists(parentOf, children) && Acyclic(parentOf, height) && k < |ChildrenOf(children, id)|
    ensures var c := ChildrenOf(children, id)[k];
      Partial(records, parentOf, children, height, id, k + 1) ==
      Plus(Partial(records, parentOf, children, height, id, k), Subtree(records, parentOf, children, height, c))
  {
    CostsLawful();
    var cs := ChildrenOf(children, id);
    assert cs[..k + 1][..k] == cs[..k];
    var a, b := BelowAll(parentOf, children, height, id, cs[..k]), Below(parentOf, children, height, cs[k]);
    assert [id] + (a + b) == ([id] + a) + b;
    FoldAppend(Costs(), OwnOf(records), [id] + a, b);
  }

  lemma PartialStarts(records: seq<Usage>, parentOf: Parents, children: Children, height: string -> nat, id: string)
    requires Lists(parentOf, children) && Acyclic(parentOf, height)
    ensures Partial(records, parentOf, children, height, id, 0) == Own(records, id)
  {
    CostsLawful();
    FoldOne(Costs(), OwnOf(records), id);
    assert ChildrenOf(children, id)[..0] == [] && [id] + [] == [id];
  }

  lemma PartialEnds(records: seq<Usage>, parentOf: Parents, children: Children, height: string -> nat, id: string)
    requires Lists(parentOf, children) && Acyclic(parentOf, height)
    ensures Partial(records, parentOf, children, height, id, |ChildrenOf(children, id)|) == Subtree(records, parentOf, children, height, id)
  {
    var cs := ChildrenOf(children, id);
    assert cs[..|cs|] == cs;
  }

  // ----- The walk -----

  datatype TaskCost = TaskCost(own: real, subtree: Cost)

  function CostIn(own: map<string, Cost>, id: string): Cost
  {
    if id in own then own[id] else NO_COST
  }

  ghost predicate OwnAt(records: seq<Usage>, own: map<string, Cost>, id: string)
  {
    CostIn(own, id) == Own(records, id)
  }

  /** The own costs are those of the records. */
  ghost predicate OwnRight(records: seq<Usage>, own: map<string, Cost>)
  {
    forall id {:trigger OwnAt(records, own, id)} :: OwnAt(records, own, id)
  }

  ghost predicate RightAt(records: seq<Usage>, parentOf: Parents, children: Children, height: string -> nat, result: map<string, TaskCost>, k: string)
    requires Lists(parentOf, children) && Acyclic(parentOf, height)
  {
    k in result ==>
      result[k].own == Own(records, k).usd && result[k].subtree == Subtree(records, parentOf, children, height, k)
  }

  /** What is memoised is right. */
  ghost predicate AllRight(records: seq<Usage>, parentOf: Parents, children: Children, height: string -> nat, result: map<string, TaskCost>)
    requires Lists(parentOf, children) && Acyclic(parentOf, height)
  {
    forall k {:trigger RightAt(records, parentOf, children, height, result, k)} :: RightAt(records, parentOf, children, height, result, k)
  }

  lemma OneMoreRight(records: seq<Usage>, parentOf: Parents, children: Children, height: string -> nat, result: map<string, TaskCost>, id: string, cost: TaskCost)
    requires Lists(parentOf, children) && Acyclic(parentOf, height)
    requires AllRight(records, parentOf, children, height, result)
    requires cost.own == Own(records, id).usd && cost.subtree == Subtree(records, parentOf, children, height, id)
    ensures AllRight(records, parentOf, children, height, result[id := cost])
  {
    forall k {:trigger RightAt(records, parentOf, children, height, result[id := cost], k)}
      ensures RightAt(records, parentOf, children, height, result[id := cost], k)
    {
      assert RightAt(records, parentOf, children, height, result, k);
    }
  }

  class Walk {
    const own: map<string, Cost>
    const parentOf: Parents
    const children: Children
    var result: map<string, TaskCost>
    var inProgress: set<string>

    constructor (own: map<string, Cost>, parentOf: Parents, children: Children)
      ensures this.own == own && this.parentOf == parentOf && this.children == children
      ensures result == map[] && inProgress == {}
    {
      this.own, this.parentOf, this.children := own, parentOf, children;
      result, inProgress := map[], {};
    }

    ghost predicate Memoised(records: seq<Usage>, height: string -> nat)
      reads this
      requires Lists(parentOf, children) && Acyclic(parentOf, height)
    {
      OwnRight(records, own) && AllRight(records, parentOf, children, height, result)
    }

    /** The tasks under way are above the task at hand. */
    ghost predicate Above(height: string -> nat, id: string)
      reads this
    {
      forall k :: k in inProgress ==> height(k) > height(id)
    }

    /** The walk over an acyclic map. The guard against cycles never fires. */
    method SubtreeOf(id: string, ghost records: seq<Usage>, ghost height: string -> nat) returns (total: Cost)
      requires Lists(parentOf, children) && Acyclic(parentOf, height) && Memoised(records, height) && Above(height, id)
      modifies this
      ensures Memoised(records, height) && inProgress == old(inProgress)
      ensures total == Subtree(records, parentOf, children, height, id)
      ensures id in result && old(result.Keys) <= result.Keys <= old(result.Keys) + parentOf.Keys + {id}
      decreases height(id), 2
    {
      if id in result {
        assert RightAt(records, parentOf, children, height, result, id);
        return result[id].subtree;
      }
      if id in inProgress {
        return NO_COST;
      }
      inProgress := inProgress + {id};
      total := AddChildren(id, records, height);
      PartialEnds(records, parentOf, children, height, id);
      inProgress := inProgress - {id};
      assert OwnAt(records, own, id);
      OneMoreRight(records, parentOf, children, height, result, id, TaskCost(CostIn(own, id).usd, total));
      result := result[id := TaskCost(CostIn(own, id).usd, total)];
    }

    /** The task's own cost and, one after the other, its children's. */
    method AddChildren(id: string, ghost records: seq<Usage>, ghost height: string -> nat) returns (total: Cost)
      requires Lists(parentOf, children) && Acyclic(parentOf, height) && Memoised(records, height)
      requires forall k :: k in inProgress ==> height(k) >= height(id)
      modifies this
      ensures Memoised(records, height) && inProgress == old(inProgress)
      ensures old(result.Keys) <= result.Keys <= old(result.Keys) + parentOf.Keys
      ensures total == Partial(records, parentOf, children, height, id, |ChildrenOf(children, id)|)
      decreases height(id), 1
    {
      total := CostIn(own, id);
      assert OwnAt(records, own, id);
      PartialStarts(records, parentOf, children, height, id);
      for k := 0 to |ChildrenOf(children, id)|
        invariant inProgress == old(inProgress) && Memoised(records, height)
        invariant old(result.Keys) <= result.Keys <= old(result.Keys) + parentOf.Keys
        invariant total == Partial(records, parentOf, children, height, id, k)
      {
        total := AddChild(id, records, height, k, total);
      }
    }

    method AddChild(id: string, ghost records: seq<Usage>, ghost height: string -> nat, k: nat, before: Cost) returns (total: Cost)
      requires Lists(parentOf, children) && Acyclic(parentOf, height) && Memoised(records, height)
      requires forall t :: t in inProgress ==> height(t) >= height(id)
      requires k < |ChildrenOf(children, id)| && before == Partial(records, parentOf, children, height, id, k)
      modifies this
      ensures Memoised(records, height) && inProgress == old(inProgress)
      ensures old(result.Keys) <= result.Keys <= old(result.Keys) + parentOf.Keys
      ensures total == Partial(records, parentOf, children, height, id, k + 1)
      decreases height(id), 0
    {
      var child := ChildrenOf(children, id)[k];
      ChildLower(parentOf, children, height, id, child);
      PartialPush(records, parentOf, children, height, id, k);
      assert Above(height, child);
      var c := SubtreeOf(child, records, height);
      total := Plus(before, c);
    }

    /** The same walk over any parent map, cyclic ones included, ends: each level takes one more task under way. */
    method SubtreeOfAny(id: string, ids: set<string>) returns (total: Cost)
      requires id in ids && forall p, c :: c in ChildrenOf(children, p) ==> c in ids
      modifies this
      ensures inProgress == old(inProgress)
      decreases ids - inProgress
    {
      if id in result {
        return result[id].subtree;
      }
      if id in inProgress {
        return NO_COST;
      }
      ghost var before := inProgress;
      inProgress := inProgress + {id};
      total := CostIn(own, id);
      var cs := ChildrenOf(children, id);
      for k := 0 to |cs|
        invariant inProgress == before + {id}
      {
        assert cs[k] in ChildrenOf(children, id);
        var c := SubtreeOfAny(cs[k], ids);
        total := Plus(total, c);
      }
      inProgress := inProgress - {id};
      assert inProgress == before;
      result := result[id := TaskCost(CostIn(own, id).usd, total)];
    }
  }

  // ----- The loops around the walk -----

  /** The tasks that have records of their own. */
  function Recorded(records: seq<Usage>): set<string>
  {
    set r | r in records && r.taskID != "" :: r.taskID
  }

  function TaskIDs(records: seq<Usage>, parentOf: Parents): set<string>
  {
    Recorded(records) + parentOf.Keys
  }

  lemma OwnPush(records: seq<Usage>, r: Usage, id: string)
    ensures Own(records + [r], id) == Plus(Own(records, id), OwnShare(id)(r))
  {
    FoldPush(Costs(), OwnShare(id), records, r);
  }

  method OwnCosts(records: seq<Usage>) returns (own: map<string, Cost>)
    ensures OwnRight(records, own) && own.Keys == Recorded(records)
  {
    own := map[];
    for i := 0 to |records|
      invariant OwnRight(records[..i], own) && own.Keys == Recorded(records[..i])
    {
      var r := records[i];
      ghost var before := own;
      if r.taskID != "" {
        own := own[r.taskID := Plus(CostIn(own, r.taskID), Cost(r.cost, !r.metered))];
      }
      assert records[..i + 1] == records[..i] + [r];
      forall id {:trigger OwnAt(records[..i + 1], own, id)}
        ensures OwnAt(records[..i + 1], own, id)
      {
        assert OwnAt(records[..i], before, id);
        OwnPush(records[..i], r, id);
      }
      RecordedPush(records[..i], r);
    }
    assert records[..|records|] == records;
  }

  lemma RecordedPush(records: seq<Usage>, r: Usage)
    ensures Recorded(records + [r]) == Recorded(records) + (if r.taskID != "" then {r.taskID} else {})
  {
    assert forall q :: q in records + [r] <==> q in records || q == r;
  }

  /** The part of the parent map whose tasks have been visited. */
  function Visited(parentOf: Parents, rest: set<string>): Parents
  {
    map c | c in parentOf && c !in rest :: parentOf[c]
  }

  method ChildLists(parentOf: Parents) returns (children: Children)
    ensures Lists(parentOf, children)
  {
    children := map[];
    var rest := parentOf.Keys;
    while rest != {}
      invariant rest <= parentOf.Keys && Lists(Visited(parentOf, rest), children)
      decreases |rest|
    {
      var id :| id in rest;
      var parent := parentOf[id];
      ghost var was := Visited(parentOf, rest);
      ListedAppend(was, children, id, parent);
      children := children[parent := ChildrenOf(children, parent) + [id]];
      rest := rest - {id};
      assert Visited(parentOf, rest) == was[id := parent];
    }
    assert Visited(parentOf, {}) == parentOf;
  }

  lemma ListedAppend(parentOf: Parents, children: Children, id: string, parent: string)
    requires Lists(parentOf, children) && id !in parentOf
    ensures Lists(parentOf[id := parent], children[parent := ChildrenOf(children, parent) + [id]])
  {
    var p, cs := parentOf[id := parent], children[parent := ChildrenOf(children, parent) + [id]];
    forall q {:trigger ListedOnce(cs, q)}
      ensures ListedOnce(cs, q)
    {
      assert ListedOnce(children, q) && ListedRight(parentOf, children, q, id);
    }
    forall q, c {:trigger ListedRight(p, cs, q, c)}
      ensures ListedRight(p, cs, q, c)
    {
      assert ListedRight(parentOf, children, q, c);
    }
  }

  /** The whole computation, over maps in any order: each task with a record or a parent gets its own cost and the total
      of its subtree. */
  method ComputeTaskCosts(records: seq<Usage>, parentOf: Parents, ghost height: string -> nat) returns (result: map<string, TaskCost>, ghost children: Children)
    requires Acyclic(parentOf, height)
    ensures Lists(parentOf, children)
    ensures result.Keys == TaskIDs(records, parentOf)
    ensures forall k :: k in result ==>
      result[k] == TaskCost(Own(records, k).usd, Subtree(records, parentOf, children, height, k))
  {
    var own := OwnCosts(records);
    var lists := ChildLists(parentOf);
    children := lists;
    result := WalkAll(own, parentOf, lists, records, height);
    AllRightMeans(records, parentOf, children, height, result);
  }

  method WalkAll(own: map<string, Cost>, parentOf: Parents, children: Children, ghost records: seq<Usage>, ghost height: string -> nat)
    returns (result: map<string, TaskCost>)
    requires Lists(parentOf, children) && Acyclic(parentOf, height) && OwnRight(records, own)
    ensures result.Keys == own.Keys + parentOf.Keys && AllRight(records, parentOf, children, height, result)
  {
    var w := new Walk(own, parentOf, children);
    var rest := own.Keys + parentOf.Keys;
    ghost var ids := rest;
    while rest != {}
      invariant w.own == own && w.parentOf == parentOf && w.children == children
      invariant w.inProgress == {} && w.Memoised(records, height)
      invariant rest <= ids && ids - rest <= w.result.Keys <= ids
      decreases |rest|
    {
      var id :| id in rest;
      var _ := w.SubtreeOf(id, records, height);
      rest := rest - {id};
    }
    result := w.result;
  }

  lemma AllRightMeans(records: seq<Usage>, parentOf: Parents, children: Children, height: string -> nat, result: map<string, TaskCost>)
    requires Lists(parentOf, children) && Acyclic(parentOf, height) && AllRight(records, parentOf, children, height, result)
    ensures forall k :: k in result ==>
      result[k] == TaskCost(Own(records, k).usd, Subtree(records, parentOf, children, height, k))
  {
    forall k | k in result
      ensures result[k] == TaskCost(Own(records, k).usd, Subtree(records, parentOf, children, height, k))
    {
      assert RightAt(records, parentOf, children, height, result, k);
    }
  }

  // ----- All tasks -----

  /** Main result: whatever the order of the child lists, a subtree total counts exactly the tasks whose chain of parents
      leads to the task, each once. */
  lemma SubtreeCountsDescendantsOnce(parentOf: Parents, children: Children, height: string -> nat, id: string)
    requires Lists(parentOf, children) && Acyclic(parentOf, height)
    ensures Distinct(Below(parentOf, children, height, id))
    ensures forall t :: t in Below(parentOf, children, height, id) <==> Descends(parentOf, t, id)
  {
    BelowDistinct(parentOf, children, height, id);
    forall t
      ensures t in Below(parentOf, children, height, id) <==> Descends(parentOf, t, id)
    {
      BelowExact(parentOf, children, height, id, t);
    }
  }

  /** The top of a task's chain of parents. */
  lemma {:induction false} TopExists(parentOf: Parents, height: string -> nat, t: string, max: nat) returns (n: nat)
    requires Acyclic(parentOf, height) && forall c :: c in parentOf ==> height(c) <= max
    ensures Up(parentOf, t, n).Some? && Up(parentOf, t, n).value !in parentOf
    decreases if t in parentOf then max + 1 - height(t) else 0
  {
    if t !in parentOf {
      n := 0;
    } else {
      assert Falls(parentOf, height, t);
      var k := TopExists(parentOf, height, parentOf[t], max);
      n := k + 1;
      UpCompose(parentOf, t, 1, k);
      assert Up(parentOf, t, 0) == Some(t);
      assert Up(parentOf, t, 1) == Some(parentOf[t]);
    }
  }

  /** Every name is below exactly one name that has no parent. */
  lemma UnparentedPartition(parentOf: Parents, children: Children, height: string -> nat, max: nat, t: string)
    requires Lists(parentOf, children) && Acyclic(parentOf, height) && forall c :: c in parentOf ==> height(c) <= max
    ensures exists top :: top !in parentOf && t in Below(parentOf, children, height, top)
    ensures forall a, b :: a !in parentOf && b !in parentOf && t in Below(parentOf, children, height, a) && t in Below(parentOf, children, height, b) ==> a == b
  {
    var n := TopExists(parentOf, height, t, max);
    var top := Up(parentOf, t, n).value;
    BelowExact(parentOf, children, height, top, t);
    forall a | a !in parentOf && t in Below(parentOf, children, height, a)
      ensures a == top
    {
      BelowExact(parentOf, children, height, a, t);
      var k: nat :| Up(parentOf, t, k) == Some(a);
      if k < n { UpCompose(parentOf, t, k, n - k); AboveTop(parentOf, a, n - k); }
      if n < k { UpCompose(parentOf, t, n, k - n); AboveTop(parentOf, top, k - n); }
    }
  }

  lemma {:induction false} AboveTop(parentOf: Parents, top: string, k: nat)
    requires top !in parentOf && k > 0
    ensures Up(parentOf, top, k).None?
  {
    if k > 1 { AboveTop(parentOf, top, k - 1); } else { assert Up(parentOf, top, 0) == Some(top); }
  }

  // ----- The totals of the tops -----

  lemma {:induction false} FoldWithoutOne<E, S(!new)>(m: Monoid<S>, share: E -> S, es: seq<E>, i: nat)
    requires Lawful(m) && i < |es|
    ensures Fold(m, share, es) == m.plus(Fold(m, share, es[..i] + es[i + 1..]), share(es[i]))
  {
    FoldAppend(m, share, es[..i + 1], es[i + 1..]);
    FoldAppend(m, share, es[..i], es[i + 1..]);
    assert es == es[..i + 1] + es[i + 1..] && es[..i + 1] == es[..i] + [es[i]];
    FoldPush(m, share, es[..i], es[i]);
    Swap(m, Fold(m, share, es[..i]), share(es[i]), Fold(m, share, es[i + 1..]));
  }

  /** Two listings of the same elements, each once, fold to the same value. */
  lemma {:induction false} FoldSameMembers<E, S(!new)>(m: Monoid<S>, share: E -> S, a: seq<E>, b: seq<E>)
    requires Lawful(m) && Distinct(a) && Distinct(b) && forall t :: t in a <==> t in b
    ensures Fold(m, share, a) == Fold(m, share, b)
    decreases |a|
  {
    if a == [] {
      assert forall i :: 0 <= i < |b| ==> b[i] in a;
    } else {
      var n := |a| - 1;
      assert a[n] in a && a[n] in b;
      var i :| 0 <= i < |b| && b[i] == a[n];
      var rest := b[..i] + b[i + 1..];
      forall t
        ensures t in a[..n] <==> t in rest
      {
        if t in a[..n] {
          assert t in a && t in b;
          var j :| 0 <= j < |b| && b[j] == t;
          assert j < i ==> rest[j] == t;
          assert j > i ==> rest[j - 1] == t;
        }
        if t in rest {
          assert t in b && t != b[i];
          var j :| 0 <= j < |a| && a[j] == t;
          assert a[..n][j] == t;
        }
      }
      FoldSameMembers(m, share, a[..n], rest);
      FoldWithoutOne(m, share, b, i);
    }
  }

  /** The top each task belongs to. */
  ghost function TopOf(parentOf: Parents, children: Children, height: string -> nat, max: nat): string -> string
    requires Lists(parentOf, children) && Acyclic(parentOf, height) && forall c :: c in parentOf ==> height(c) <= max
  {
    t =>
      UnparentedPartition(parentOf, children, height, max, t);
      var top :| top !in parentOf && t in Below(parentOf, children, height, top);
      top
  }

  lemma UnparentedTotalsAddUp(records: seq<Usage>, parentOf: Parents, children: Children, height: string -> nat, max: nat, ids: seq<string>, tops: seq<string>)
    requires Lists(parentOf, children) && Acyclic(parentOf, height) && forall c :: c in parentOf ==> height(c) <= max
    requires Distinct(ids) && (forall c :: c in parentOf ==> c in ids)
    requires Distinct(tops) && (forall a :: a in tops ==> a !in parentOf && a in ids)
    requires forall i :: 0 <= i < |ids| ==> TopOf(parentOf, children, height, max)(ids[i]) in tops
    ensures Total(Costs(), TopTotals(records, parentOf, children, height, tops)) == Fold(Costs(), OwnOf(records), ids)
  {
    CostsLawful();
    var key := TopOf(parentOf, children, height, max);
    var sums := TopTotals(records, parentOf, children, height, tops);
    forall i | 0 <= i < |tops|
      ensures sums[i] == Part(Costs(), OwnOf(records), ids, key, tops[i])
    {
      TopPart(records, parentOf, children, height, max, ids, tops[i]);
    }
    TotalOfParts(Costs(), OwnOf(records), ids, key, tops, sums);
    PartitionSum(Costs(), OwnOf(records), ids, key, tops);
  }

  ghost function TopTotals(records: seq<Usage>, parentOf: Parents, children: Children, height: string -> nat, tops: seq<string>): seq<Cost>
    requires Lists(parentOf, children) && Acyclic(parentOf, height)
  {
    seq(|tops|, i requires 0 <= i < |tops| => Subtree(records, parentOf, children, height, tops[i]))
  }

  lemma {:induction false} KeepDistinct<E>(es: seq<E>, p: E -> bool)
    requires Distinct(es)
    ensures Distinct(Keep(es, p)) && forall t :: t in Keep(es, p) <==> t in es && p(t)
  {
    if es != [] {
      var front, last := es[..|es| - 1], es[|es| - 1];
      KeepDistinct(front, p);
      assert es == front + [last];
      assert last !in front;
    }
  }

  lemma TopPart(records: seq<Usage>, parentOf: Parents, children: Children, height: string -> nat, max: nat, ids: seq<string>, top: string)
    requires Lists(parentOf, children) && Acyclic(parentOf, height) && forall c :: c in parentOf ==> height(c) <= max
    requires Distinct(ids) && (forall c :: c in parentOf ==> c in ids) && top !in parentOf && top in ids
    ensures Subtree(records, parentOf, children, height, top)
      == Part(Costs(), OwnOf(records), ids, TopOf(parentOf, children, height, max), top)
  {
    CostsLawful();
    var key := TopOf(parentOf, children, height, max);
    var below, kept := Below(parentOf, children, height, top), Keep(ids, HasKey(key, top));
    BelowDistinct(parentOf, children, height, top);
    KeepDistinct(ids, HasKey(key, top));
    forall t
      ensures t in below <==> t in kept
    {
      UnparentedPartition(parentOf, children, height, max, t);
      if t in below {
        BelowExact(parentOf, children, height, top, t);
        var n: nat :| Up(parentOf, t, n) == Some(top);
        InTree(parentOf, t, top, n);
      }
    }
    FoldSameMembers(Costs(), OwnOf(records), below, kept);
  }

  lemma {:induction false} InTree(parentOf: Parents, t: string, top: string, n: nat)
    requires Up(parentOf, t, n) == Some(top)
    ensures t == top || t in parentOf
    decreases n
  {
    if n > 0 {
      assert Up(parentOf, t, n - 1).Some?;
      if n > 1 {
        InTree(parentOf, t, Up(parentOf, t, n - 1).value, n - 1);
        assert Up(parentOf, t, n - 1).value in parentOf;
      } else {
        assert Up(parentOf, t, 0) == Some(t);
      }
    }
  }

  // ----- Top-level tasks -----

  /** A task is at the top when it has no parent among the tasks: it is absent from the parent map, or mapped to the
      empty string or to another name that is not a task. */
  predicate IsTop(parentOf: Parents, ids: set<string>, a: string)
  {
    a in ids && (a !in parentOf || parentOf[a] !in ids)
  }

  /** With no task named by the empty string and no parent that is unknown, the top-level tasks are the absent ones and
      the ones mapped to the empty string. */
  lemma TopLevelTasks(parentOf: Parents, ids: set<string>, a: string)
    requires "" !in ids && a in ids
    requires forall c :: c in parentOf && parentOf[c] != "" ==> parentOf[c] in ids
    ensures IsTop(parentOf, ids, a) <==> a !in parentOf || parentOf[a] == ""
  {
  }

  /** The parent map between tasks. */
  function Within(parentOf: Parents, ids: set<string>): Parents
  {
    map c | c in parentOf && parentOf[c] in ids :: parentOf[c]
  }

  function ChildrenWithin(children: Children, ids: set<string>): Children
  {
    map p | p in children && p in ids :: children[p]
  }

  lemma WithinLists(parentOf: Parents, children: Children, height: string -> nat, ids: set<string>)
    requires Lists(parentOf, children) && Acyclic(parentOf, height)
    ensures Lists(Within(parentOf, ids), ChildrenWithin(children, ids)) && Acyclic(Within(parentOf, ids), height)
  {
    var p, cs := Within(parentOf, ids), ChildrenWithin(children, ids);
    forall q {:trigger ListedOnce(cs, q)}
      ensures ListedOnce(cs, q)
    {
      assert ListedOnce(children, q);
    }
    forall q, c {:trigger ListedRight(p, cs, q, c)}
      ensures ListedRight(p, cs, q, c)
    {
      assert ListedRight(parentOf, children, q, c);
    }
    forall c {:trigger Falls(p, height, c)}
      ensures Falls(p, height, c)
    {
      assert Falls(parentOf, height, c);
    }
  }

  /** Below a task nothing changes. */
  lemma {:induction false} BelowWithin(parentOf: Parents, children: Children, height: string -> nat, ids: set<string>, id: string)
    requires Lists(parentOf, children) && Acyclic(parentOf, height)
    requires Lists(Within(parentOf, ids), ChildrenWithin(children, ids)) && Acyclic(Within(parentOf, ids), height)
    requires parentOf.Keys <= ids && id in ids
    ensures Below(Within(parentOf, ids), ChildrenWithin(children, ids), height, id) == Below(parentOf, children, height, id)
    decreases height(id), 1, 0
  {
    assert ChildrenOf(ChildrenWithin(children, ids), id) == ChildrenOf(children, id);
    BelowAllWithin(parentOf, children, height, ids, id, ChildrenOf(children, id));
  }

  lemma {:induction false} BelowAllWithin(parentOf: Parents, children: Children, height: string -> nat, ids: set<string>, id: string, cs: seq<string>)
    requires Lists(parentOf, children) && Acyclic(parentOf, height)
    requires Lists(Within(parentOf, ids), ChildrenWithin(children, ids)) && Acyclic(Within(parentOf, ids), height)
    requires parentOf.Keys <= ids && id in ids && forall c :: c in cs ==> c in ChildrenOf(children, id)
    ensures forall c :: c in cs ==> c in ChildrenOf(ChildrenWithin(children, ids), id)
    ensures BelowAll(Within(parentOf, ids), ChildrenWithin(children, ids), height, id, cs) == BelowAll(parentOf, children, height, id, cs)
    decreases height(id), 0, |cs|
  {
    assert ChildrenOf(ChildrenWithin(children, ids), id) == ChildrenOf(children, id);
    if cs != [] {
      var last := cs[|cs| - 1];
      assert last in cs;
      ChildLower(parentOf, children, height, id, last);
      BelowAllWithin(parentOf, children, height, ids, id, cs[..|cs| - 1]);
      BelowWithin(parentOf, children, height, ids, last);
    }
  }

  /** The chain of parents between tasks stays among the tasks. */
  lemma {:induction false} UpWithin(parentOf: Parents, ids: set<string>, t: string, n: nat)
    requires t in ids
    ensures Up(Within(parentOf, ids), t, n).Some? ==> Up(Within(parentOf, ids), t, n).value in ids
  {
    if n > 0 { UpWithin(parentOf, ids, t, n - 1); }
  }

  /** The subtrees of the top-level tasks share no task and leave out none. */
  lemma TopsPartition(parentOf: Parents, children: Children, height: string -> nat, max: nat, ids: set<string>, t: string)
    requires Lists(parentOf, children) && Acyclic(parentOf, height) && forall c :: c in parentOf ==> height(c) <= max
    requires parentOf.Keys <= ids && t in ids
    ensures exists top :: IsTop(parentOf, ids, top) && t in Below(parentOf, children, height, top)
    ensures forall a, b ::
      (IsTop(parentOf, ids, a) && IsTop(parentOf, ids, b)
       && t in Below(parentOf, children, height, a) && t in Below(parentOf, children, height, b)) ==> a == b
  {
    var p, cs := Within(parentOf, ids), ChildrenWithin(children, ids);
    WithinLists(parentOf, children, height, ids);
    UnparentedPartition(p, cs, height, max, t);
    var top :| top !in p && t in Below(p, cs, height, top);
    BelowExact(p, cs, height, top, t);
    var n: nat :| Up(p, t, n) == Some(top);
    UpWithin(parentOf, ids, t, n);
    BelowWithin(parentOf, children, height, ids, top);
    assert IsTop(parentOf, ids, top);
    forall a | IsTop(parentOf, ids, a) && t in Below(parentOf, children, height, a)
      ensures a == top
    {
      BelowWithin(parentOf, children, height, ids, a);
      assert a !in p && t in Below(p, cs, height, a);
    }
  }

  /** Main result: the subtree totals of the top-level tasks add up to the own costs of all tasks, whether a task is
      marked as top-level by its absence from the parent map or by the empty string. */
  lemma TopTotalsAddUp(records: seq<Usage>, parentOf: Parents, children: Children, height: string -> nat, max: nat, ids: seq<string>, tops: seq<string>)
    requires Lists(parentOf, children) && Acyclic(parentOf, height) && forall c :: c in parentOf ==> height(c) <= max
    requires Distinct(ids) && forall c :: c in parentOf ==> c in ids
    requires Distinct(tops) && forall a :: a in tops <==> IsTop(parentOf, Members(ids), a)
    ensures Total(Costs(), TopTotals(records, parentOf, children, height, tops)) == Fold(Costs(), OwnOf(records), ids)
  {
    var all := Members(ids);
    var p, cs := Within(parentOf, all), ChildrenWithin(children, all);
    WithinLists(parentOf, children, height, all);
    forall i | 0 <= i < |ids|
      ensures TopOf(p, cs, height, max)(ids[i]) in tops
    {
      ReachesTop(parentOf, children, height, max, all, ids[i]);
    }
    UnparentedTotalsAddUp(records, p, cs, height, max, ids, tops);
    SameTotals(records, parentOf, children, height, all, tops);
  }

  /** A chain of parents among the tasks ends at a top-level task. */
  lemma ReachesTop(parentOf: Parents, children: Children, height: string -> nat, max: nat, ids: set<string>, t: string)
    requires Lists(parentOf, children) && Acyclic(parentOf, height) && forall c :: c in parentOf ==> height(c) <= max
    requires Lists(Within(parentOf, ids), ChildrenWithin(children, ids)) && Acyclic(Within(parentOf, ids), height)
    requires t in ids
    ensures IsTop(parentOf, ids, TopOf(Within(parentOf, ids), ChildrenWithin(children, ids), height, max)(t))
  {
    var p, cs := Within(parentOf, ids), ChildrenWithin(children, ids);
    UnparentedPartition(p, cs, height, max, t);
    var top := TopOf(p, cs, height, max)(t);
    BelowExact(p, cs, height, top, t);
    var n: nat :| Up(p, t, n) == Some(top);
    UpWithin(parentOf, ids, t, n);
  }

  lemma SameTotals(records: seq<Usage>, parentOf: Parents, children: Children, height: string -> nat, ids: set<string>, tops: seq<string>)
    requires Lists(parentOf, children) && Acyclic(parentOf, height)
    requires Lists(Within(parentOf, ids), ChildrenWithin(children, ids)) && Acyclic(Within(parentOf, ids), height)
    requires parentOf.Keys <= ids && forall a :: a in tops ==> IsTop(parentOf, ids, a)
    ensures TopTotals(records, Within(parentOf, ids), ChildrenWithin(children, ids), height, tops)
      == TopTotals(records, parentOf, children, height, tops)
  {
    var p, cs := Within(parentOf, ids), ChildrenWithin(children, ids);
    forall i | 0 <= i < |tops|
      ensures TopTotals(records, p, cs, height, tops)[i] == TopTotals(records, parentOf, children, height, tops)[i]
    {
      assert tops[i] in tops;
      BelowWithin(parentOf, children, height, ids, tops[i]);
    }
  }

  function Members(ids: seq<string>): set<string>
  {
    set id | id in ids
  }

  // ----- The costs behind the totals -----

  function RecordCost(): Usage -> Cost
  {
    (r: Usage) => Cost(r.cost, !r.metered)
  }

  function TaskOf(): Usage -> string
  {
    (r: Usage) => r.taskID
  }

  function HasTask(): Usage -> bool
  {
    (r: Usage) => r.taskID != ""
  }

  function OfSomeTask(records: seq<Usage>): seq<Usage>
  {
    Keep(records, HasTask())
  }

  lemma OwnIsPart(records: seq<Usage>, id: string)
    requires id != ""
    ensures Own(records, id) == Part(Costs(), RecordCost(), OfSomeTask(records), TaskOf(), id)
  {
    CostsLawful();
    FoldWithout(Costs(), OwnShare(id), records, HasTask());
    FoldIsPart(Costs(), RecordCost(), OwnShare(id), OfSomeTask(records), TaskOf(), id);
  }

  lemma {:induction false} OwnsAreParts(records: seq<Usage>, ids: seq<string>)
    requires "" !in ids
    ensures Fold(Costs(), OwnOf(records), ids) == ByKey(Costs(), RecordCost(), OfSomeTask(records), TaskOf(), ids)
  {
    if ids != [] {
      var front, last := ids[..|ids| - 1], ids[|ids| - 1];
      OwnsAreParts(records, front);
      OwnIsPart(records, last);
    }
  }

  /** The own costs of all tasks are the costs of the records that name a task, each counted once, and they are incomplete if
      one of these is. */
  lemma OwnCostsAddUp(records: seq<Usage>, ids: seq<string>)
    requires Distinct(ids) && "" !in ids
    requires forall i :: 0 <= i < |records| && records[i].taskID != "" ==> records[i].taskID in ids
    ensures Fold(Costs(), OwnOf(records), ids) == Fold(Costs(), RecordCost(), OfSomeTask(records))
  {
    CostsLawful();
    OwnsAreParts(records, ids);
    KeepMembers(records, HasTask(), (r: Usage) => r.taskID in ids);
    PartitionSum(Costs(), RecordCost(), OfSomeTask(records), TaskOf(), ids);
  }

  /** Main result: the subtree totals of the top-level tasks are the costs of all records that name a task. */
  lemma TopTotalsAreTheRecords(records: seq<Usage>, parentOf: Parents, children: Children, height: string -> nat, max: nat, ids: seq<string>, tops: seq<string>)
    requires Lists(parentOf, children) && Acyclic(parentOf, height) && forall c :: c in parentOf ==> height(c) <= max
    requires Distinct(ids) && "" !in ids && forall c :: c in parentOf ==> c in ids
    requires forall i :: 0 <= i < |records| && records[i].taskID != "" ==> records[i].taskID in ids
    requires Distinct(tops) && forall a :: a in tops <==> IsTop(parentOf, Members(ids), a)
    ensures Total(Costs(), TopTotals(records, parentOf, children, height, tops)) == Fold(Costs(), RecordCost(), OfSomeTask(records))
  {
    TopTotalsAddUp(records, parentOf, children, height, max, ids, tops);
    OwnCostsAddUp(records, ids);
  }
}
