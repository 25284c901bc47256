/**
 * The `groupedTodos` reduce: the list partitioned by period label. The
 * JavaScript object it builds is modelled as a list of groups in the order
 * their keys were first inserted. The object starts as `{}`, which inherits
 * the properties of `Object.prototype`; reading such a name before the reduce
 * has stored it yields a function or an object, and spreading that throws.
 */
module Grouping {
  import opened Wrappers
  import opened Todos

  /** One entry `[period]: items` of the grouped record. */
  datatype Group = Group(period: string, items: seq<Todo>)

  /** The keys of the grouped record, in insertion order. */
  function Keys(gs: seq<Group>): (r: seq<string>)
    ensures |r| == |gs| && forall i :: 0 <= i < |gs| ==> r[i] == gs[i].period
  {
    if gs == [] then [] else [gs[0].period] + Keys(gs[1..])
  }

  /** The period labels of a list, in order. */
  function Periods(s: seq<Todo>): (r: seq<string>)
    ensures |r| == |s| && forall i :: 0 <= i < |s| ==> r[i] == s[i].period
  {
    seq(|s|, i requires 0 <= i < |s| => s[i].period)
  }

  /** No key occurs twice. */
  predicate DistinctKeys(gs: seq<Group>)
  {
    forall i, j :: 0 <= i < j < |gs| ==> gs[i].period != gs[j].period
  }

  /** The items stored as the own property `k`, or none; the inherited names are handled by `ReduceStep`. */
  function Lookup(gs: seq<Group>, k: string): (r: seq<Todo>)
    ensures k !in Keys(gs) ==> r == []
  {
    if gs == [] then []
    else if gs[0].period == k then gs[0].items
    else Lookup(gs[1..], k)
  }

  /** The sum of the group sizes. */
  function TotalSize(gs: seq<Group>): nat
  {
    if gs == [] then 0 else |gs[0].items| + TotalSize(gs[1..])
  }

  /** The records of `s` whose period is `k`, as often as `s` has them and in their order. */
  function InPeriod(s: seq<Todo>, k: string): (r: seq<Todo>)
    ensures forall t :: t in r ==> t in s && t.period == k
    ensures forall t: Todo :: t.period == k ==> multiset(r)[t] == multiset(s)[t]
    ensures IsSubsequence(r, s)
    ensures r == [] <==> k !in Periods(s)
  {
    if s == [] then []
    else
      var p, x := s[..|s| - 1], s[|s| - 1];
      assert s == p + [x];
      assert Periods(s) == Periods(p) + [x.period];
      var w := InPeriod(p, k);
      if x.period != k then w
      else
        assert (w + [x])[..|w|] == w;
        w + [x]
  }

  /** One step of the reduce on a key that is an own property or absent: `{ ...groups, [todo.period]: [...group, todo] }`. */
  function AddToGroups(gs: seq<Group>, t: Todo): (r: seq<Group>)
    ensures |gs| <= |r| <= |gs| + 1
  {
    if gs == [] then [Group(t.period, [t])]
    else if gs[0].period == t.period then [gs[0].(items := gs[0].items + [t])] + gs[1..]
    else [gs[0]] + AddToGroups(gs[1..], t)
  }

  /** The reduce as a left fold of `AddToGroups`, for lists whose periods are not inherited names. */
  function GroupByPeriod(s: seq<Todo>): (r: seq<Group>)
    ensures |r| <= |s|
  {
    if s == [] then [] else AddToGroups(GroupByPeriod(s[..|s| - 1]), s[|s| - 1])
  }

  /** One reduce step appends `t` under its own key and leaves every other key's items alone. */
  lemma {:induction false} AddToGroupsLookup(gs: seq<Group>, t: Todo, k: string)
    ensures Lookup(AddToGroups(gs, t), k) == Lookup(gs, k) + if k == t.period then [t] else []
  {
    if gs != [] && gs[0].period != t.period {
      AddToGroupsLookup(gs[1..], t, k);
    }
  }

  /** One reduce step keeps the key order, adding `t.period` at the end when it is new. */
  lemma {:induction false} AddToGroupsKeys(gs: seq<Group>, t: Todo)
    ensures Keys(AddToGroups(gs, t)) == if t.period in Keys(gs) then Keys(gs) else Keys(gs) + [t.period]
  {
    if gs != [] && gs[0].period != t.period {
      AddToGroupsKeys(gs[1..], t);
      assert AddToGroups(gs, t)[1..] == AddToGroups(gs[1..], t);
    }
  }

  /** One reduce step adds exactly one item in all. */
  lemma {:induction false} AddToGroupsSize(gs: seq<Group>, t: Todo)
    ensures TotalSize(AddToGroups(gs, t)) == TotalSize(gs) + 1
  {
    if gs != [] {
      if gs[0].period == t.period {
        assert AddToGroups(gs, t)[1..] == gs[1..];
      } else {
        AddToGroupsSize(gs[1..], t);
        assert AddToGroups(gs, t)[1..] == AddToGroups(gs[1..], t);
      }
    }
  }

  /** With distinct keys, looking up a group's own key yields its items. */
  lemma {:induction false} LookupAt(gs: seq<Group>, i: int)
    requires DistinctKeys(gs) && 0 <= i < |gs|
    ensures Lookup(gs, gs[i].period) == gs[i].items
  {
    if i > 0 {
      assert gs[0].period != gs[i].period;
      LookupAt(gs[1..], i - 1);
    }
  }

  /** Adding a key that is not yet present keeps the keys distinct. */
  lemma DistinctKeysAppend(gs: seq<Group>, gs': seq<Group>, k: string)
    requires DistinctKeys(gs) && k !in Keys(gs) && Keys(gs') == Keys(gs) + [k]
    ensures DistinctKeys(gs')
  {
  }

  /**
   * The grouping is a partition of the list by period: each key occurs once, the
   * keys are exactly the periods that occur, the items under key `k` are exactly
   * the records of that period in their original order, and the group sizes add
   * up to the length of the list.
   */
  lemma {:induction false} GroupByPeriodIsPartition(s: seq<Todo>)
    ensures DistinctKeys(GroupByPeriod(s))
    ensures forall k :: k in Keys(GroupByPeriod(s)) <==> k in Periods(s)
    ensures forall k :: Lookup(GroupByPeriod(s), k) == InPeriod(s, k)
    ensures TotalSize(GroupByPeriod(s)) == |s|
  {
    if s != [] {
      var p, x := s[..|s| - 1], s[|s| - 1];
      assert s == p + [x];
      assert Periods(s) == Periods(p) + [x.period];
      GroupByPeriodIsPartition(p);
      var g := GroupByPeriod(p);
      AddToGroupsKeys(g, x);
      AddToGroupsSize(g, x);
      forall k ensures Lookup(GroupByPeriod(s), k) == InPeriod(s, k) {
        AddToGroupsLookup(g, x, k);
      }
      if x.period !in Keys(g) {
        DistinctKeysAppend(g, GroupByPeriod(s), x.period);
      }
    }
  }

  /** Every group holds exactly the records of its period, in their original order, and none is empty. */
  lemma GroupItemsArePeriodRecords(s: seq<Todo>, i: int)
    requires 0 <= i < |GroupByPeriod(s)|
    ensures GroupByPeriod(s)[i].items == InPeriod(s, GroupByPeriod(s)[i].period)
    ensures GroupByPeriod(s)[i].items != []
  {
    var gs := GroupByPeriod(s);
    GroupByPeriodIsPartition(s);
    LookupAt(gs, i);
    assert Keys(gs)[i] == gs[i].period;
  }

  /** A record lies in a group exactly when the group is that of its period. */
  lemma RecordInOwnGroupOnly(s: seq<Todo>, i: int, t: Todo)
    requires 0 <= i < |GroupByPeriod(s)| && t in s
    ensures t in GroupByPeriod(s)[i].items <==> t.period == GroupByPeriod(s)[i].period
  {
    GroupItemsArePeriodRecords(s, i);
    var k := GroupByPeriod(s)[i].period;
    if t.period == k {
      assert multiset(InPeriod(s, k))[t] == multiset(s)[t] > 0;
    }
  }

  /** Where `k` first occurs in `ps`. */
  function FirstIndex(ps: seq<string>, k: string): (n: nat)
    requires k in ps
    ensures n < |ps| && ps[n] == k && k !in ps[..n]
  {
    if ps[0] == k then 0
    else
      var n := FirstIndex(ps[1..], k);
      assert ps[..n + 1] == [ps[0]] + ps[1..][..n];
      n + 1
  }

  /** An occurrence added at the end does not move a first occurrence. */
  lemma {:induction false} FirstIndexAppend(ps: seq<string>, q: string, k: string)
    requires k in ps
    ensures FirstIndex(ps + [q], k) == FirstIndex(ps, k)
  {
    if ps[0] != k {
      assert (ps + [q])[1..] == ps[1..] + [q];
      FirstIndexAppend(ps[1..], q, k);
    }
  }

  /** The groups come in the order in which their periods first occur in the list. */
  lemma {:induction false} GroupsInFirstOccurrenceOrder(s: seq<Todo>, i: int, j: int)
    requires 0 <= i < j < |GroupByPeriod(s)|
    ensures GroupByPeriod(s)[i].period in Periods(s) && GroupByPeriod(s)[j].period in Periods(s)
    ensures FirstIndex(Periods(s), GroupByPeriod(s)[i].period) < FirstIndex(Periods(s), GroupByPeriod(s)[j].period)
  {
    var gs := GroupByPeriod(s);
    var p, x := s[..|s| - 1], s[|s| - 1];
    assert s == p + [x];
    assert Periods(s) == Periods(p) + [x.period];
    var g := GroupByPeriod(p);
    AddToGroupsKeys(g, x);
    var ki, kj := gs[i].period, gs[j].period;
    assert Keys(gs)[i] == ki && Keys(gs)[j] == kj;
    if j < |g| {
      assert Keys(g)[i] == ki && Keys(g)[j] == kj;
      GroupsInFirstOccurrenceOrder(p, i, j);
      FirstIndexAppend(Periods(p), x.period, ki);
      FirstIndexAppend(Periods(p), x.period, kj);
    } else {
      GroupByPeriodIsPartition(p);
      assert kj == x.period && x.period !in Periods(p);
      assert Keys(g)[i] == ki && ki in Periods(p);
      FirstIndexAppend(Periods(p), x.period, ki);
      assert FirstIndex(Periods(s), kj) == |p|;
    }
  }

  /** The period labels "1주차", "1주차", "2주차" make two groups, the first holding both "1주차" records in order. */
  lemma GroupingExample(a: Todo, b: Todo, c: Todo)
    requires a.period == "1주차" && b.period == "1주차" && c.period == "2주차"
    ensures GroupByPeriod([a, b, c]) == [Group("1주차", [a, b]), Group("2주차", [c])]
  {
    assert [a, b, c][..2] == [a, b];
    assert [a, b][..1] == [a];
    assert GroupByPeriod([a]) == [Group("1주차", [a])];
    assert AddToGroups([Group("1주차", [a])], b) == [Group("1주차", [a] + [b])] + [];
    assert [a] + [b] == [a, b];
    assert GroupByPeriod([a, b]) == AddToGroups(GroupByPeriod([a]), b);
    assert GroupByPeriod([a, b]) == [Group("1주차", [a, b])];
    assert AddToGroups([Group("1주차", [a, b])], c) == [Group("1주차", [a, b])] + [Group("2주차", [c])];
  }

  /** The property names a plain object inherits from `Object.prototype`. */
  predicate Inherited(k: string)
  {
    k in {"constructor", "__proto__", "toString", "toLocaleString", "valueOf",
          "hasOwnProperty", "isPrototypeOf", "propertyIsEnumerable",
          "__defineGetter__", "__defineSetter__", "__lookupGetter__", "__lookupSetter__"}
  }

  /** Some record's period is an inherited property name. */
  predicate HasInheritedPeriod(s: seq<Todo>)
  {
    exists i :: 0 <= i < |s| && Inherited(s[i].period)
  }

  /**
   * The reducer callback with its failure: `groups[todo.period] || []` on a name that is
   * neither stored nor inherited gives `[]`; on an inherited name it gives a function or
   * the prototype object, and `[...group, todo]` throws (`None`).
   */
  function ReduceStep(acc: Option<seq<Group>>, t: Todo): (r: Option<seq<Group>>)
    ensures r.Some? <==> acc.Some? && (t.period in Keys(acc.value) || !Inherited(t.period))
    ensures r.Some? ==> t.period in Keys(r.value) && |r.value| <= |acc.value| + 1
  {
    match acc
    case None => None
    case Some(gs) =>
      if t.period !in Keys(gs) && Inherited(t.period) then None
      else
        AddToGroupsKeys(gs, t);
        Some(AddToGroups(gs, t))
  }

  /** `todos.reduce(..., {})` as the source runs it: `None` when the reduce throws. */
  function GroupTodos(s: seq<Todo>): (r: Option<seq<Group>>)
    ensures r.Some? ==> |r.value| <= |s|
  {
    if s == [] then Some([]) else ReduceStep(GroupTodos(s[..|s| - 1]), s[|s| - 1])
  }

  /** The reduce throws exactly when some period is an inherited name, and otherwise yields `GroupByPeriod`. */
  lemma {:induction false} GroupTodosOutcome(s: seq<Todo>)
    ensures GroupTodos(s) == if HasInheritedPeriod(s) then None else Some(GroupByPeriod(s))
  {
    if s != [] {
      var p, x := s[..|s| - 1], s[|s| - 1];
      assert s == p + [x];
      assert forall i :: 0 <= i < |p| ==> p[i] == s[i];
      GroupTodosOutcome(p);
      if !HasInheritedPeriod(p) {
        GroupByPeriodIsPartition(p);
        if x.period in Keys(GroupByPeriod(p)) {
          assert x.period in Periods(p);
          var i :| 0 <= i < |p| && Periods(p)[i] == x.period;
          assert !Inherited(p[i].period);
        }
        assert HasInheritedPeriod(s) <==> Inherited(x.period);
      }
    }
  }

  /** A single record with period "toString" makes the reduce throw. */
  lemma InheritedPeriodThrows()
    ensures GroupTodos([Todo(1, "toString", "a", false, None)]) == None
  {
    var s := [Todo(1, "toString", "a", false, None)];
    assert s[..0] == [];
  }
}
