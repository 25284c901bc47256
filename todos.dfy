/**
 * The records of the to-do application and the pure list transforms its
 * event handlers apply: the edit and toggle `map`s, the delete `filter`,
 * and the display-name rule.
 */
module Todos {
  import opened Wrappers

  /** A to-do record. `id` comes from the clock at creation; `author` is optional. */
  datatype Todo = Todo(id: int, period: string, text: string, completed: bool, author: Option<string>)

  /** The user profile edited in the profile dialog. */
  datatype UserProfile = UserProfile(name: string, isAnonymous: bool)

  const AnonymousName: string := "익명 사용자"
  const NoName: string := "이름 없음"

  /** `getDisplayName`: a fixed placeholder when anonymous, else the name or a "no name" placeholder. */
  function DisplayName(p: UserProfile): (r: string)
    ensures r != ""
    ensures p.isAnonymous ==> r == AnonymousName
    ensures !p.isAnonymous && p.name != "" ==> r == p.name
    ensures !p.isAnonymous && p.name == "" ==> r == NoName
  {
    if p.isAnonymous then AnonymousName
    else if p.name != "" then p.name
    else NoName
  }

  /** When anonymous, the stored name has no influence on the display name. */
  lemma AnonymousIgnoresName(p: UserProfile, name: string)
    requires p.isAnonymous
    ensures DisplayName(p.(name := name)) == DisplayName(p) == AnonymousName
  {
  }

  /** The identifiers of a list, in order. */
  function Ids(s: seq<Todo>): (r: seq<int>)
    ensures |r| == |s| && forall i :: 0 <= i < |s| ==> r[i] == s[i].id
  {
    seq(|s|, i requires 0 <= i < |s| => s[i].id)
  }

  /** No two records of the list share an identifier. */
  predicate UniqueIds(s: seq<Todo>)
  {
    forall i, j :: 0 <= i < j < |s| ==> s[i].id != s[j].id
  }

  /** Appending keeps identifiers unique exactly when the new identifier is unused. */
  lemma {:induction false} UniqueIdsAppend(s: seq<Todo>, x: Todo)
    ensures UniqueIds(s + [x]) <==> UniqueIds(s) && x.id !in Ids(s)
  {
    var t := s + [x];
    if UniqueIds(t) {
      assert forall i, j :: 0 <= i < j < |s| ==> s[i] == t[i] && s[j] == t[j];
      assert forall i :: 0 <= i < |s| ==> Ids(s)[i] == t[i].id != t[|s|].id;
    }
    if UniqueIds(s) && x.id !in Ids(s) {
      forall i, j | 0 <= i < j < |t| ensures t[i].id != t[j].id {
        if j == |s| {
          assert Ids(s)[i] == t[i].id;
        } else {
          assert t[i] == s[i] && t[j] == s[j];
        }
      }
    }
  }

  /** `a` is `b` with some records left out, the rest in their original order. */
  ghost predicate IsSubsequence(a: seq<Todo>, b: seq<Todo>)
    decreases |b|
  {
    || a == []
    || (&& b != []
        && (|| (a[|a| - 1] == b[|b| - 1] && IsSubsequence(a[..|a| - 1], b[..|b| - 1]))
            || IsSubsequence(a, b[..|b| - 1])))
  }

  /** The record as changed by the edit branch of `handleAddTodo`. */
  function Edited(t: Todo, text: string, period: string): Todo
  {
    t.(text := text, period := period)
  }

  /**
   * `todos.map(todo => todo.id === editingId ? { ...todo, text: input, period } : todo)`:
   * the list keeps its length and order; every record whose id is `k` gets the new
   * text and period and keeps its id, completion flag and author; every other record
   * is unchanged.
   */
  function EditMatching(s: seq<Todo>, k: int, text: string, period: string): (r: seq<Todo>)
    ensures |r| == |s|
    ensures forall i :: 0 <= i < |s| && s[i].id == k ==>
      && r[i].id == s[i].id && r[i].completed == s[i].completed && r[i].author == s[i].author
      && r[i].text == text && r[i].period == period
    ensures forall i :: 0 <= i < |s| && s[i].id != k ==> r[i] == s[i]
  {
    if s == [] then []
    else [if s[0].id == k then Edited(s[0], text, period) else s[0]] + EditMatching(s[1..], k, text, period)
  }

  /** The edit keeps the identifier sequence, so it keeps identifiers unique. */
  lemma EditKeepsIds(s: seq<Todo>, k: int, text: string, period: string)
    ensures Ids(EditMatching(s, k, text, period)) == Ids(s)
    ensures UniqueIds(s) ==> UniqueIds(EditMatching(s, k, text, period))
  {
    var r := EditMatching(s, k, text, period);
    assert forall i :: 0 <= i < |s| ==> r[i].id == s[i].id;
  }

  /** An edit whose target id is absent leaves the list as it was. */
  lemma EditAbsentIsIdentity(s: seq<Todo>, k: int, text: string, period: string)
    requires k !in Ids(s)
    ensures EditMatching(s, k, text, period) == s
  {
  }

  /** The record with its completion flag flipped. */
  function Toggled(t: Todo): Todo
  {
    t.(completed := !t.completed)
  }

  /**
   * `todos.map(todo => todo.id === id ? { ...todo, completed: !todo.completed } : todo)`:
   * length and order are kept, every field but `completed` is kept, and `completed`
   * flips exactly on the records whose id is `id`.
   */
  function ToggleMatching(s: seq<Todo>, id: int): (r: seq<Todo>)
    ensures |r| == |s|
    ensures forall i :: 0 <= i < |s| ==>
      && r[i].id == s[i].id && r[i].period == s[i].period && r[i].text == s[i].text
      && r[i].author == s[i].author
      && (r[i].completed <==> (s[i].completed != (s[i].id == id)))
  {
    if s == [] then []
    else [if s[0].id == id then Toggled(s[0]) else s[0]] + ToggleMatching(s[1..], id)
  }

  /** Toggling the same id twice restores the original list. */
  lemma ToggleInvolution(s: seq<Todo>, id: int)
    ensures ToggleMatching(ToggleMatching(s, id), id) == s
  {
  }

  /** Toggle keeps the identifier sequence, so it keeps identifiers unique. */
  lemma ToggleKeepsIds(s: seq<Todo>, id: int)
    ensures Ids(ToggleMatching(s, id)) == Ids(s)
    ensures UniqueIds(s) ==> UniqueIds(ToggleMatching(s, id))
  {
    var r := ToggleMatching(s, id);
    assert forall i :: 0 <= i < |s| ==> r[i].id == s[i].id;
  }

  /** Toggling an id no record has leaves the list as it was. */
  lemma ToggleAbsentIsIdentity(s: seq<Todo>, id: int)
    requires id !in Ids(s)
    ensures ToggleMatching(s, id) == s
  {
  }

  /** How many records of the list have identifier `id`. */
  function CountId(s: seq<Todo>, id: int): (n: nat)
    ensures n <= |s|
    ensures n == 0 <==> id !in Ids(s)
  {
    if s == [] then 0
    else
      var p := s[..|s| - 1];
      assert Ids(s) == Ids(p) + [s[|s| - 1].id];
      CountId(p, id) + if s[|s| - 1].id == id then 1 else 0
  }

  /** In a list with unique identifiers, a present id occurs exactly once. */
  lemma {:induction false} CountIdUnique(s: seq<Todo>, id: int)
    requires UniqueIds(s) && id in Ids(s)
    ensures CountId(s, id) == 1
  {
    var p, x := s[..|s| - 1], s[|s| - 1];
    assert s == p + [x];
    UniqueIdsAppend(p, x);
    assert Ids(s) == Ids(p) + [x.id];
    if x.id != id {
      CountIdUnique(p, id);
    }
  }

  /**
   * `todos.filter(todo => todo.id !== id)`: the result holds no record with that id,
   * draws its records from the list, and is shorter by the number of records that
   * had the id. `WithoutKeepsOthersInOrder` adds that the other records are all kept,
   * in their order.
   */
  function Without(s: seq<Todo>, id: int): (r: seq<Todo>)
    ensures forall t :: t in r ==> t in s && t.id != id
    ensures |r| == |s| - CountId(s, id)
  {
    if s == [] then []
    else
      var p, x := s[..|s| - 1], s[|s| - 1];
      assert s == p + [x];
      if x.id == id then Without(p, id) else Without(p, id) + [x]
  }

  /** The delete keeps every record with another id as often as the list has it. */
  lemma {:induction false} WithoutKeepsOthers(s: seq<Todo>, id: int)
    ensures forall t: Todo :: t.id != id ==> multiset(Without(s, id))[t] == multiset(s)[t]
  {
    if s != [] {
      var p, x := s[..|s| - 1], s[|s| - 1];
      assert s == p + [x];
      WithoutKeepsOthers(p, id);
      assert multiset(s) == multiset(p) + multiset{x};
      if x.id != id {
        assert multiset(Without(s, id)) == multiset(Without(p, id)) + multiset{x};
      }
    }
  }

  /** The delete keeps the remaining records in their original order. */
  lemma {:induction false} WithoutKeepsOrder(s: seq<Todo>, id: int)
    ensures IsSubsequence(Without(s, id), s)
  {
    if s != [] {
      var p, x := s[..|s| - 1], s[|s| - 1];
      assert s == p + [x];
      WithoutKeepsOrder(p, id);
      var w := Without(p, id);
      if x.id != id {
        assert Without(s, id) == w + [x] && (w + [x])[..|w|] == w;
      }
    }
  }

  /** Deleting an id no record has is a no-op. */
  lemma {:induction false} DeleteAbsentIsIdentity(s: seq<Todo>, id: int)
    requires id !in Ids(s)
    ensures Without(s, id) == s
  {
    if s != [] {
      var p, x := s[..|s| - 1], s[|s| - 1];
      assert s == p + [x];
      assert Ids(s) == Ids(p) + [x.id];
      DeleteAbsentIsIdentity(p, id);
    }
  }

  /** With unique identifiers, deleting a present id removes exactly one record. */
  lemma {:induction false} DeleteUniqueDropsOne(s: seq<Todo>, id: int)
    requires UniqueIds(s) && id in Ids(s)
    ensures |Without(s, id)| == |s| - 1
  {
    CountIdUnique(s, id);
  }

  /** An id that no record of `p` has is not the id of any record drawn from `p`. */
  lemma IdsOfMembers(w: seq<Todo>, p: seq<Todo>, k: int)
    requires forall t :: t in w ==> t in p
    requires k !in Ids(p)
    ensures k !in Ids(w)
  {
    forall i | 0 <= i < |w| ensures Ids(w)[i] != k {
      assert w[i] in w;
      var j :| 0 <= j < |p| && p[j] == w[i];
      assert Ids(p)[j] == w[i].id;
    }
  }

  /** Deleting keeps identifiers unique. */
  lemma {:induction false} DeleteKeepsUniqueIds(s: seq<Todo>, id: int)
    requires UniqueIds(s)
    ensures UniqueIds(Without(s, id))
  {
    if s != [] {
      var p, x := s[..|s| - 1], s[|s| - 1];
      assert s == p + [x];
      UniqueIdsAppend(p, x);
      DeleteKeepsUniqueIds(p, id);
      var w := Without(p, id);
      if x.id != id {
        assert Without(s, id) == w + [x];
        IdsOfMembers(w, p, x.id);
        UniqueIdsAppend(w, x);
      }
    }
  }

  /** What `handleDeleteTodo` relies on, gathered in one place. */
  lemma DeleteSummary(s: seq<Todo>, id: int)
    ensures UniqueIds(s) ==> UniqueIds(Without(s, id))
    ensures UniqueIds(s) && id in Ids(s) ==> |Without(s, id)| == |s| - 1
    ensures id !in Ids(s) ==> Without(s, id) == s
  {
    if UniqueIds(s) {
      DeleteKeepsUniqueIds(s, id);
      if id in Ids(s) {
        DeleteUniqueDropsOne(s, id);
      }
    }
    if id !in Ids(s) {
      DeleteAbsentIsIdentity(s, id);
    }
  }
}
