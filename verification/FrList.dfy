/** The intrusive circular doubly linked list. A list is a head whose ring holds the head first and
    then the entries in order; the pointers live in the entries and are changed in place. */
module FrList {

  class Node {
    var next: Node
    var prev: Node

    /** FR_INIT_LIST_HEAD. */
    constructor ()
      ensures fresh(this) && IsRing([this])
    {
      next, prev := this, this;
    }
  }

  function After(i: nat, n: nat): nat {
    if i + 1 == n then 0 else i + 1
  }

  ghost predicate Distinct(s: seq<Node>) {
    forall i, j :: 0 <= i < j < |s| ==> s[i] != s[j]
  }

  /** The nodes of s form one closed ring, linked both ways, in this order. */
  ghost predicate IsRing(s: seq<Node>)
    reads s
  {
    && s != [] && Distinct(s)
    && forall i :: 0 <= i < |s| ==> s[i].next == s[After(i, |s|)] && s[After(i, |s|)].prev == s[i]
  }

  // ----- what a ring is

  /** The pointers determine the list: a head has only one ring. */
  lemma {:induction false} RingIsUnique(s: seq<Node>, t: seq<Node>)
    requires IsRing(s) && IsRing(t) && s[0] == t[0]
    ensures s == t
  {
    var n := if |s| <= |t| then |s| else |t|;
    SamePrefix(s, t, n);
    assert s[n - 1] == s[..n][n - 1] == t[..n][n - 1] == t[n - 1];
    assert s[After(n - 1, |s|)] == s[n - 1].next == t[After(n - 1, |t|)];
  }

  lemma {:induction false} SamePrefix(s: seq<Node>, t: seq<Node>, n: nat)
    requires IsRing(s) && IsRing(t) && s[0] == t[0]
    requires 1 <= n <= |s| && n <= |t|
    ensures s[..n] == t[..n]
  {
    if n > 1 {
      SamePrefix(s, t, n - 1);
      assert s[n - 2] == s[..n - 1][n - 2] == t[..n - 1][n - 2] == t[n - 2];
      assert s[n - 2].next == s[n - 1] && t[n - 2].next == t[n - 1];
    }
  }

  /** Any member of a ring may be taken for its head. */
  lemma Rotated(s: seq<Node>, i: nat)
    requires IsRing(s) && i < |s|
    ensures IsRing(s[i..] + s[..i])
  {
    var n := |s|;
    var t := s[i..] + s[..i];
    forall k | 0 <= k < n
      ensures t[k].next == t[After(k, n)] && t[After(k, n)].prev == t[k]
    {
      var j := if i + k < n then i + k else i + k - n;
      assert t[k] == s[j] && t[After(k, n)] == s[After(j, n)];
    }
  }

  /** A step forward and a step back, in either order, lead back to where one was. */
  lemma StepsCancel(s: seq<Node>, x: Node)
    requires IsRing(s) && x in s
    ensures x.next in s && x.prev in s && x.next.prev == x && x.prev.next == x
  {
    var i :| 0 <= i < |s| && s[i] == x;
    var j := if i == 0 then |s| - 1 else i - 1;
    assert After(j, |s|) == i;
    assert s[j].next == s[i];
  }

  // ----- changing a ring

  function Removed(s: seq<Node>, i: nat): seq<Node>
    requires i < |s|
  {
    s[..i] + s[i + 1..]
  }

  /** __fr_list_add, between the last node of s and its first. */
  method Link(entry: Node, prev: Node, next: Node, ghost s: seq<Node>)
    requires IsRing(s) && entry !in s
    requires prev == s[|s| - 1] && next == s[0]
    modifies entry, prev, next
    ensures IsRing(s + [entry])
  {
    next.prev := entry;
    entry.next := next;
    entry.prev := prev;
    prev.next := entry;
  }

  /** fr_list_add: the new entry becomes the first. */
  method Add(entry: Node, head: Node, ghost s: seq<Node>)
    requires IsRing(s) && head == s[0] && entry !in s
    modifies entry, head, head.next
    ensures IsRing([head, entry] + s[1..])
  {
    SeenFromBehind(s, 0);
    hide IsRing, Seen;
    Link(entry, head, head.next, Seen(s, 0));
    AddedFirst(s, entry);
  }

  lemma AddedFirst(s: seq<Node>, x: Node)
    requires s != [] && IsRing(Seen(s, 0) + [x])
    ensures IsRing([s[0], x] + s[1..])
  {
    var r := Seen(s, 0) + [x];
    Rotated(r, |s| - 1);
    hide IsRing;
    assert r[|s| - 1..] == [s[0], x] && r[..|s| - 1] == s[1..];
  }

  /** fr_list_add_tail: the new entry becomes the last. */
  method AddTail(entry: Node, head: Node, ghost s: seq<Node>)
    requires IsRing(s) && head == s[0] && entry !in s
    modifies entry, head, head.prev
    ensures IsRing(s + [entry])
  {
    assert s[|s| - 1].next == s[0];
    Link(entry, head.prev, head, s);
  }

  /** __fr_list_del for the last node of s. */
  method Unlink(prev: Node, next: Node, ghost s: seq<Node>)
    requires IsRing(s) && prev == s[|s| - 1].prev && next == s[|s| - 1].next
    modifies prev, next
    ensures IsRing(if |s| == 1 then s else s[..|s| - 1])
    ensures unchanged(s[|s| - 1])
  {
    ghost var n := |s|;
    assert next == s[0];
    assert n > 1 ==> s[n - 2].next == s[n - 1] && prev == s[n - 2] != s[n - 1];
    next.prev := prev;
    prev.next := next;
    if n > 1 {
      ghost var t := s[..n - 1];
      forall k | 0 <= k < n - 1
        ensures t[k].next == t[After(k, n - 1)] && t[After(k, n - 1)].prev == t[k]
      {
        assert t[k] == s[k] && (k < n - 2 ==> s[k].next == s[k + 1]);
      }
    }
  }

  /** fr_list_del: the entry leaves the ring and keeps its two pointers. */
  method Del(entry: Node, ghost s: seq<Node>, ghost i: nat)
    requires IsRing(s) && i < |s| && entry == s[i]
    modifies entry.prev, entry.next
    ensures |s| == 1 ==> IsRing(s)
    ensures |s| > 1 ==> IsRing(Removed(s, i))
    ensures unchanged(entry)
  {
    SeenFromBehind(s, i);
    hide IsRing, Removed, Seen;
    Unlink(entry.prev, entry.next, Seen(s, i));
    if |s| > 1 {
      RotatedBack(s, i);
    }
  }

  /** The ring s seen from behind s[i], which comes last. */
  ghost function Seen(s: seq<Node>, i: nat): (r: seq<Node>)
    requires i < |s|
    ensures |r| == |s| && r[|s| - 1] == s[i]
  {
    s[i + 1..] + s[..i + 1]
  }

  lemma SeenFromBehind(s: seq<Node>, i: nat)
    requires IsRing(s) && i < |s|
    ensures IsRing(Seen(s, i)) && (|s| == 1 ==> Seen(s, i) == s)
    ensures Seen(s, i)[0] == s[i].next && forall x :: x in Seen(s, i) ==> x in s
  {
    Rotated(s, After(i, |s|));
    assert Seen(s, i) == s[After(i, |s|)..] + s[..After(i, |s|)];
  }

  lemma RotatedBack(s: seq<Node>, i: nat)
    requires |s| > 1 && i < |s| && IsRing(Seen(s, i)[..|s| - 1])
    ensures IsRing(Removed(s, i))
  {
    var r := Seen(s, i)[..|s| - 1];
    assert r == s[i + 1..] + s[..i];
    if i == 0 {
      assert r == Removed(s, i);
    } else {
      Rotated(r, |s| - 1 - i);
      assert r[|s| - 1 - i..] + r[..|s| - 1 - i] == Removed(s, i);
    }
  }

  /** fr_list_del_init: the entry leaves the ring and becomes an empty list of its own. */
  method DelInit(entry: Node, ghost s: seq<Node>, ghost i: nat)
    requires IsRing(s) && i < |s| && entry == s[i]
    modifies entry, entry.prev, entry.next
    ensures IsRing([entry])
    ensures |s| > 1 ==> IsRing(Removed(s, i))
  {
    Del(entry, s, i);
    NotInRemoved(s, i);
    entry.next, entry.prev := entry, entry;
  }

  lemma NotInRemoved(s: seq<Node>, i: nat)
    requires Distinct(s) && i < |s|
    ensures s[i] !in Removed(s, i)
  {
    var t := Removed(s, i);
    forall k | 0 <= k < |t|
      ensures t[k] != s[i]
    {
      assert t[k] == s[if k < i then k else k + 1];
    }
  }

  method Empty(head: Node, ghost s: seq<Node>) returns (empty: bool)
    requires IsRing(s) && head == s[0]
    ensures empty <==> s[1..] == []
  {
    assert |s| > 1 ==> head.next == s[1];
    empty := head.next == head;
  }

  /** fr_list_splice: the entries of list go in front of those of head. The head of the emptied list
      is not touched and still points at its old entries. */
  method Splice(list: Node, head: Node, ghost l: seq<Node>, ghost s: seq<Node>)
    requires IsRing(l) && IsRing(s) && list == l[0] && head == s[0]
    requires forall x :: x in l ==> x !in s
    modifies head, head.next, list.next, list.prev
    ensures |l| == 1 ==> IsRing(l) && IsRing(s)
    ensures |l| > 1 ==> IsRing([head] + l[1..] + s[1..])
    ensures list.next == old(list.next) && list.prev == old(list.prev)
  {
    var first := list.next;
    assert first == l[After(0, |l|)] && l[|l| - 1].next == l[0] && head.next == s[After(0, |s|)];
    if first != list {
      var last := list.prev;
      var at := head.next;
      assert first == l[1] && last == l[|l| - 1] && at == s[After(0, |s|)];
      assert forall i :: 0 <= i < |l| ==> l[i] in l && l[i] !in s;
      first.prev := head;
      head.next := first;
      last.next := at;
      at.prev := last;
      forall i | 1 <= i < |l| - 1
        ensures l[i].next == l[i + 1] && l[i + 1].prev == l[i]
      {
        assert old(l[i].next) == l[After(i, |l|)] && old(l[i + 1].prev) == l[i];
      }
      forall i | 1 <= i < |s|
        ensures s[i].next == s[After(i, |s|)] && s[After(i, |s|)].prev == s[i]
      {
        assert old(s[i].next) == s[After(i, |s|)] && old(s[After(i, |s|)].prev) == s[i];
      }
      SplicedIsRing(l, s);
    }
  }

  /** The ring of s opened behind its head and the ring of l opened at its head, put together. */
  lemma SplicedIsRing(l: seq<Node>, s: seq<Node>)
    requires |l| > 1 && s != [] && Distinct(l) && Distinct(s) && forall x :: x in l ==> x !in s
    requires forall i :: 1 <= i < |l| - 1 ==> l[i].next == l[i + 1] && l[i + 1].prev == l[i]
    requires forall i :: 1 <= i < |s| ==> s[i].next == s[After(i, |s|)] && s[After(i, |s|)].prev == s[i]
    requires s[0].next == l[1] && l[1].prev == s[0]
    requires l[|l| - 1].next == s[After(0, |s|)] && s[After(0, |s|)].prev == l[|l| - 1]
    ensures IsRing([s[0]] + l[1..] + s[1..])
  {
    var (n, m, t) := (|l|, |s|, [s[0]] + l[1..] + s[1..]);
    forall k | 0 <= k < |t|
      ensures t[k].next == t[After(k, |t|)] && t[After(k, |t|)].prev == t[k]
    {
      if 1 <= k < n - 1 {
        assert t[k] == l[k] && t[k + 1] == l[k + 1];
      } else if k >= n {
        assert t[k] == s[k - n + 1] && t[After(k, |t|)] == s[After(k - n + 1, m)];
      }
    }
    forall j, k | 0 <= j < k < |t|
      ensures t[j] != t[k]
    {
      assert t[k] == if k < n then l[k] else s[k - n + 1];
      assert j == 0 || t[j] == if j < n then l[j] else s[j - n + 1];
      if j < n <= k {
        assert (j > 0 ==> l[j] in l) && s[k - n + 1] in s;
      } else if j == 0 {
        assert l[k] in l && s[0] in s;
      }
    }
  }

  // ----- iteration

  /** FR_LIST_FOR_EACH. */
  method ForEach(head: Node, ghost s: seq<Node>) returns (visited: seq<Node>)
    requires IsRing(s) && head == s[0]
    ensures visited == s[1..]
  {
    visited := [];
    var pos := head.next;
    ghost var i := After(0, |s|);
    while pos != head
      invariant i < |s| && pos == s[i] && |visited| == (if i == 0 then |s| else i) - 1
      invariant visited == s[1..|visited| + 1]
      decreases if i == 0 then 0 else |s| - i
    {
      visited := visited + [pos];
      pos := pos.next;
      i := After(i, |s|);
    }
  }

  /** FR_LIST_FOR_EACH_PREV. */
  method ForEachPrev(head: Node, ghost s: seq<Node>) returns (visited: seq<Node>)
    requires IsRing(s) && head == s[0]
    ensures |visited| == |s| - 1 && forall k :: 0 <= k < |visited| ==> visited[k] == s[|s| - 1 - k]
  {
    visited := [];
    assert s[|s| - 1].next == s[0];
    var pos := head.prev;
    ghost var i := |s| - 1;
    while pos != head
      invariant 0 <= i < |s| && pos == s[i] && |visited| == |s| - 1 - i
      invariant forall k :: 0 <= k < |visited| ==> visited[k] == s[|s| - 1 - k]
      decreases i
    {
      assert After(i - 1, |s|) == i && s[i - 1].next == s[i];
      visited := visited + [pos];
      pos := pos.prev;
      i := i - 1;
    }
  }

  /** The entries of s that are not in drop, in order. */
  function Kept(s: seq<Node>, drop: set<Node>): seq<Node> {
    if s == [] then []
    else
      var (front, x) := (Kept(s[..|s| - 1], drop), s[|s| - 1]);
      if x in drop then front else front + [x]
  }

  lemma KeptNext(s: seq<Node>, x: Node, drop: set<Node>)
    ensures Kept(s + [x], drop) == if x in drop then Kept(s, drop) else Kept(s, drop) + [x]
  {
    assert (s + [x])[..|s|] == s;
  }

  /** In the middle of a sweep over the ring s: what is kept so far, and the rest still to be visited. */
  ghost predicate Swept(s: seq<Node>, drop: set<Node>, init: bool, visited: seq<Node>, kept: seq<Node>, rest: seq<Node>)
    reads visited, kept, rest
  {
    && s != [] && s == [s[0]] + visited + rest && kept == [s[0]] + Kept(visited, drop)
    && IsRing(kept + rest) && (forall x :: x in kept + rest ==> x in s)
    && (forall x :: x in visited && x in drop ==> x !in kept + rest && (init ==> x.next == x.prev == x))
  }

  /** FR_LIST_FOR_EACH_SAFE with a body that takes the current entry out of the list when it is in
      drop, by fr_list_del or by fr_list_del_init: every entry is visited, in order, and those left
      are the ones not dropped. */
  method ForEachSafe(head: Node, drop: set<Node>, init: bool, ghost s: seq<Node>) returns (visited: seq<Node>)
    requires IsRing(s) && head == s[0]
    modifies s
    ensures visited == s[1..]
    ensures IsRing([head] + Kept(s[1..], drop))
    ensures init ==> forall x :: x in s[1..] && x in drop ==> x.next == x.prev == x
  {
    visited := [];
    var pos := head.next;
    var n := pos.next;
    ghost var (kept, rest) := ([head], s[1..]);
    SweepStarts(s, drop, init);
    while pos != head
      invariant Swept(s, drop, init, visited, kept, rest)
      invariant pos == (if rest == [] then head else rest[0]) && n == pos.next
      invariant rest == [] || pos != head
      decreases |rest|
    {
      hide Swept, IsRing;
      Around(s, drop, init, visited, kept, rest);
      kept := Turn(pos, drop, init, visited, kept, rest, s);
      visited := visited + [pos];
      rest := rest[1..];
      pos := n;
      n := pos.next;
    }
    assert visited == s[1..] && kept + rest == kept;
  }

  lemma SweepStarts(s: seq<Node>, drop: set<Node>, init: bool)
    requires IsRing(s)
    ensures Swept(s, drop, init, [], [s[0]], s[1..])
    ensures s[0].next == if |s| > 1 then s[1] else s[0]
    ensures |s| > 1 ==> s[1] != s[0]
  {
    assert [s[0]] + s[1..] == s;
  }

  /** The current entry is not among the others, and its neighbours are in the ring. */
  lemma Around(s: seq<Node>, drop: set<Node>, init: bool, visited: seq<Node>, kept: seq<Node>, rest: seq<Node>)
    requires Swept(s, drop, init, visited, kept, rest) && rest != []
    ensures rest[0] !in kept + rest[1..]
    ensures rest[0] in s && rest[0].prev in s && rest[0].next in s
    ensures rest[0].prev in kept + rest && rest[0].next in kept + rest
    ensures rest[0].next == if |rest| > 1 then rest[1] else s[0]
    ensures |rest| > 1 ==> rest[1] != s[0]
  {
    var (ring, k) := (kept + rest, |kept|);
    assert ring[k] == rest[0] && ring[0] == kept[0] && (|rest| > 1 ==> ring[k + 1] == rest[1]);
    assert Removed(ring, k) == kept + rest[1..];
    NotInRemoved(ring, k);
    StepsCancel(ring, rest[0]);
  }

  /** One turn of the sweep. */
  method Turn(pos: Node, drop: set<Node>, init: bool, ghost visited: seq<Node>, ghost kept: seq<Node>,
              ghost rest: seq<Node>, ghost s: seq<Node>) returns (ghost left: seq<Node>)
    requires rest != [] && pos == rest[0] && Swept(s, drop, init, visited, kept, rest)
    modifies if pos in drop then {pos, pos.prev, pos.next} else {}
    ensures Swept(s, drop, init, visited + [pos], left, rest[1..])
  {
    Around(s, drop, init, visited, kept, rest);
    left := if pos in drop then kept else kept + [pos];
    TurnSplits(s, drop, visited, kept, rest, left);
    hide IsRing, Kept;
    DropEntry(pos, drop, init, kept, rest);
  }

  /** What one turn does to the sequences. */
  lemma TurnSplits(s: seq<Node>, drop: set<Node>, visited: seq<Node>, kept: seq<Node>, rest: seq<Node>, left: seq<Node>)
    requires rest != [] && s != [] && s == [s[0]] + visited + rest && kept == [s[0]] + Kept(visited, drop)
    requires left == if rest[0] in drop then kept else kept + [rest[0]]
    ensures s == [s[0]] + (visited + [rest[0]]) + rest[1..]
    ensures left == [s[0]] + Kept(visited + [rest[0]], drop)
    ensures forall x :: x in left + rest[1..] ==> x in kept + rest
  {
    KeptNext(visited, rest[0], drop);
    hide Kept;
    var (x, r) := (rest[0], rest[1..]);
    assert rest == [x] + r;
    MoveOver([s[0]], visited, x, r);
    MoveOver([s[0]], Kept(visited, drop), x, []);
  }

  lemma MoveOver(a: seq<Node>, v: seq<Node>, x: Node, r: seq<Node>)
    ensures a + v + ([x] + r) == a + (v + [x]) + r
    ensures a + v + [x] == a + (v + [x])
  {
  }

  /** The body of the sweep, with kept in front of the current entry and rest from it on. */
  method DropEntry(pos: Node, drop: set<Node>, init: bool, ghost kept: seq<Node>, ghost rest: seq<Node>)
    requires rest != [] && pos == rest[0] && kept != [] && IsRing(kept + rest)
    modifies if pos in drop then {pos, pos.prev, pos.next} else {}
    ensures IsRing((if pos in drop then kept else kept + [pos]) + rest[1..])
    ensures init && pos in drop ==> pos.next == pos.prev == pos
  {
    ghost var (ring, k) := (kept + rest, |kept|);
    assert ring[k] == pos && Removed(ring, k) == kept + rest[1..];
    if pos in drop {
      if init {
        DelInit(pos, ring, k);
        assert [pos][0].next == pos && [pos][0].prev == pos;
      } else {
        Del(pos, ring, k);
      }
    } else {
      assert ring == kept + [pos] + rest[1..];
    }
  }
}
