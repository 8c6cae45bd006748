/** The renderer's extension points: seven fixed stages, each holding a list
    of callbacks ordered by priority. Callbacks are opaque identifiers. */
module Callbacks {

  /** The seven callback lists, in the order the frame runs them. */
  datatype Stage = PreGBuffer | PostGBuffer | PreLighting | PostLighting | Transparent | PostEffect | HUD

  type CallbackId = nat

  /** DSRenderer.PriorityCallback. */
  datatype PriorityCallback = PriorityCallback(callback: CallbackId, priority: int)

  /** Priority used by every AddCallback* when the caller gives none. */
  const DefaultPriority: int := 1000

  /** PriorityCallbackComp.Compare: a.priority.CompareTo(b.priority). */
  function Compare(a: PriorityCallback, b: PriorityCallback): (r: int)
    ensures r == -1 || r == 0 || r == 1
    ensures r < 0 <==> a.priority < b.priority
    ensures r == 0 <==> a.priority == b.priority
    ensures r > 0 <==> a.priority > b.priority
  {
    if a.priority < b.priority then -1 else if a.priority == b.priority then 0 else 1
  }

  /** The comparer is a total preorder: antisymmetric in sign and transitive. */
  lemma CompareIsTotalPreorder(a: PriorityCallback, b: PriorityCallback, c: PriorityCallback)
    ensures Compare(a, b) == -Compare(b, a)
    ensures Compare(a, b) <= 0 && Compare(b, c) <= 0 ==> Compare(a, c) <= 0
    ensures Compare(a, a) == 0
  {
  }

  /** Non-decreasing priority: no callback compares after a later one. */
  predicate SortedByPriority(s: seq<PriorityCallback>)
  {
    forall i, j :: 0 <= i < j < |s| ==> s[i].priority <= s[j].priority
  }

  /** Insert x into a list already sorted by priority. */
  function Insert(x: PriorityCallback, s: seq<PriorityCallback>): (r: seq<PriorityCallback>)
    requires SortedByPriority(s)
    ensures SortedByPriority(r)
    ensures multiset(r) == multiset(s) + multiset{x}
    ensures |r| == |s| + 1
    ensures r[0] == x || (s != [] && r[0] == s[0])
  {
    if s == [] then [x]
    else if Compare(x, s[0]) <= 0 then
      ConsKeepsSorted(x, s);
      [x] + s
    else
      TailKeepsSorted(s);
      var rest := Insert(x, s[1..]);
      assert s == [s[0]] + s[1..];
      assert 1 < |s| ==> s[0].priority <= s[1].priority;
      ConsKeepsSorted(s[0], rest);
      assert multiset([s[0]] + rest) == multiset{s[0]} + multiset(rest);
      assert multiset(s) == multiset{s[0]} + multiset(s[1..]);
      [s[0]] + rest
  }

  lemma ConsKeepsSorted(h: PriorityCallback, t: seq<PriorityCallback>)
    requires SortedByPriority(t) && (t != [] ==> h.priority <= t[0].priority)
    ensures SortedByPriority([h] + t)
  {
    var s := [h] + t;
    forall a, b | 0 <= a < b < |s| ensures s[a].priority <= s[b].priority {
      if a == 0 {
        assert s[b] == t[b - 1] && t[0].priority <= t[b - 1].priority;
      } else {
        assert s[a] == t[a - 1] && s[b] == t[b - 1];
      }
    }
  }

  /** List<PriorityCallback>.Sort with PriorityCallbackComp. The library
      promises an ordering by the comparer and a permutation of the list,
      nothing about the relative order of equal priorities. */
  function SortByPriority(s: seq<PriorityCallback>): (r: seq<PriorityCallback>)
    ensures SortedByPriority(r)
    ensures multiset(r) == multiset(s)
    ensures |r| == |s|
  {
    if s == [] then []
    else
      assert s == [s[0]] + s[1..];
      Insert(s[0], SortByPriority(s[1..]))
  }

  lemma RemoveOneKeepsSorted(s: seq<PriorityCallback>, j: nat)
    requires SortedByPriority(s) && j < |s|
    ensures SortedByPriority(s[..j] + s[j + 1..])
  {
    var s' := s[..j] + s[j + 1..];
    forall a, b | 0 <= a < b < |s'| ensures s'[a].priority <= s'[b].priority {
      var a' := if a < j then a else a + 1;
      var b' := if b < j then b else b + 1;
      assert s'[a] == s[a'] && s'[b] == s[b'];
    }
  }

  lemma TailKeepsSorted(s: seq<PriorityCallback>)
    requires SortedByPriority(s) && s != []
    ensures SortedByPriority(s[1..])
  {
    forall a, b | 0 <= a < b < |s| - 1 ensures s[1..][a].priority <= s[1..][b].priority {
      assert s[1..][a] == s[a + 1] && s[1..][b] == s[b + 1];
    }
  }

  lemma RemoveMatchingHeads(s: seq<PriorityCallback>, t: seq<PriorityCallback>, j: nat)
    requires multiset(s) == multiset(t) && j < |s| && 0 < |t| && s[j] == t[0]
    ensures multiset(s[..j] + s[j + 1..]) == multiset(t[1..])
  {
    var s', t' := s[..j] + s[j + 1..], t[1..];
    assert s == s[..j] + [s[j]] + s[j + 1..];
    assert multiset(s) == multiset(s[..j]) + multiset{s[j]} + multiset(s[j + 1..]);
    assert multiset(s') == multiset(s[..j]) + multiset(s[j + 1..]);
    assert t == [t[0]] + t';
    assert multiset(t) == multiset{t[0]} + multiset(t');
    forall e ensures multiset(s')[e] == multiset(t')[e] {
      assert multiset(s)[e] == multiset(s')[e] + multiset{s[j]}[e];
      assert multiset(t)[e] == multiset(t')[e] + multiset{t[0]}[e];
    }
  }

  /** A callback of a list is at some position of it, and both lists of a
      permutation have the same length. */
  lemma HeadsHaveEqualPriority(s: seq<PriorityCallback>, t: seq<PriorityCallback>) returns (j: nat)
    requires SortedByPriority(s) && SortedByPriority(t)
    requires multiset(s) == multiset(t) && s != []
    ensures |s| == |t| && j < |s| && s[j] == t[0]
    ensures s[0].priority == t[0].priority
  {
    assert |s| == |multiset(s)| == |multiset(t)| == |t|;
    assert s[0] in multiset(s);
    assert s[0] in t;
    var i :| 0 <= i < |t| && t[i] == s[0];
    assert t[0] in multiset(t);
    assert t[0] in s;
    j :| 0 <= j < |s| && s[j] == t[0];
    assert t[0].priority <= t[i].priority;
    assert s[0].priority <= s[j].priority;
  }

  /** Putting back a head of priority p at the front of s' and at position j of
      t' keeps two equal priority sequences equal, when s is sorted and
      everything before position j of s has priority p. */
  lemma ReinsertHead(s: seq<PriorityCallback>, t: seq<PriorityCallback>, j: nat)
    requires SortedByPriority(s) && 0 < |s| == |t| && j < |s|
    requires s[0].priority == t[0].priority == s[j].priority
    requires forall k :: 0 <= k < |s[..j] + s[j + 1..]| ==> (s[..j] + s[j + 1..])[k].priority == t[1..][k].priority
    ensures forall k :: 0 <= k < |s| ==> s[k].priority == t[k].priority
  {
    var s', t' := s[..j] + s[j + 1..], t[1..];
    forall k | 1 <= k < |s| ensures s[k].priority == t[k].priority {
      assert t[k] == t'[k - 1];
      assert s'[k - 1].priority == t'[k - 1].priority;
      if k <= j {
        assert s'[k - 1] == s[k - 1];
        assert s[0].priority <= s[k - 1].priority;
        assert s[k - 1].priority <= s[k].priority;
        assert s[k].priority <= s[j].priority;
      } else {
        assert s'[k - 1] == s[k];
      }
    }
  }

  /** Two lists sorted by priority that hold the same callbacks have the
      same priority at every position: only which of several equal-priority
      callbacks runs first is left open. */
  lemma {:induction false} SortedPermutationsAgreeOnPriorities(s: seq<PriorityCallback>, t: seq<PriorityCallback>)
    requires SortedByPriority(s) && SortedByPriority(t)
    requires multiset(s) == multiset(t)
    ensures |s| == |t|
    ensures forall k :: 0 <= k < |s| ==> s[k].priority == t[k].priority
    decreases |s|
  {
    if s == [] {
      assert |multiset(t)| == 0;
    } else {
      var j := HeadsHaveEqualPriority(s, t);
      var s', t' := s[..j] + s[j + 1..], t[1..];
      RemoveOneKeepsSorted(s, j);
      TailKeepsSorted(t);
      RemoveMatchingHeads(s, t, j);
      SortedPermutationsAgreeOnPriorities(s', t');
      assert |s'| == |s| - 1;
      ReinsertHead(s, t, j);
    }
  }
}
