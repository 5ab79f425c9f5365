/** The circular doubly linked list of kernel/bio.c, as link maps and the order they spell. Node 0 is bcache.head;
    the list runs head.next, head.next.next, ... back to head. */
module BufferList {

  const HEAD: nat := 0

  function InsertAt(s: seq<nat>, i: nat, x: nat): (r: seq<nat>)
    requires i < |s|
    ensures |r| == |s| + 1
    ensures forall k :: 0 <= k <= i ==> r[k] == s[k]
    ensures r[i + 1] == x
    ensures forall k :: i + 1 < k < |r| ==> r[k] == s[k - 1]
  {
    s[..i + 1] + [x] + s[i + 1..]
  }

  function RemoveAt(s: seq<nat>, j: nat): (r: seq<nat>)
    requires j < |s|
    ensures |r| == |s| - 1
    ensures forall k :: 0 <= k < j ==> r[k] == s[k]
    ensures forall k :: j <= k < |r| ==> r[k] == s[k + 1]
  {
    s[..j] + s[j + 1..]
  }

  function Succ(i: nat, n: nat): (j: nat)
    requires i < n
  {
    if i + 1 == n then 0 else i + 1
  }

  ghost predicate Distinct(s: seq<nat>) { forall i, j :: 0 <= i < j < |s| ==> s[i] != s[j] }

  /** next and prev link the nodes of the cycle, which starts at the head, in both directions. */
  ghost predicate Linked(next: map<nat, nat>, prev: map<nat, nat>, cycle: seq<nat>) {
    forall i :: 0 <= i < |cycle| ==>
      && cycle[i] in next && next[cycle[i]] == cycle[Succ(i, |cycle|)]
      && cycle[Succ(i, |cycle|)] in prev && prev[cycle[Succ(i, |cycle|)]] == cycle[i]
  }

  ghost predicate WellLinked(next: map<nat, nat>, prev: map<nat, nat>, cycle: seq<nat>) {
    |cycle| > 0 && cycle[0] == HEAD && Distinct(cycle) && Linked(next, prev, cycle)
  }

  lemma LinkedAt(next: map<nat, nat>, prev: map<nat, nat>, cycle: seq<nat>, i: nat)
    requires Linked(next, prev, cycle) && i < |cycle|
    ensures cycle[i] in next && next[cycle[i]] == cycle[Succ(i, |cycle|)]
    ensures cycle[Succ(i, |cycle|)] in prev && prev[cycle[Succ(i, |cycle|)]] == cycle[i]
  {}

  lemma DistinctAt(s: seq<nat>, i: nat, j: nat)
    requires Distinct(s) && i < |s| && j < |s| && i != j
    ensures s[i] != s[j]
  {}

  /** b->next->prev = b->prev; b->prev->next = b->next. */
  function UnlinkNext(next: map<nat, nat>, prev: map<nat, nat>, b: nat): (r: map<nat, nat>)
    requires b in next && b in prev
  {
    next[prev[b] := next[b]]
  }

  function UnlinkPrev(next: map<nat, nat>, prev: map<nat, nat>, b: nat): (r: map<nat, nat>)
    requires b in next && b in prev
  {
    prev[next[b] := prev[b]]
  }

  lemma UnlinkStep(next: map<nat, nat>, prev: map<nat, nat>, cycle: seq<nat>, j: nat, k: nat)
    requires Distinct(cycle) && Linked(next, prev, cycle) && 1 <= j < |cycle| && k < |cycle| - 1
    ensures cycle[j] in next && cycle[j] in prev
    ensures var r := RemoveAt(cycle, j);
      var next', prev' := UnlinkNext(next, prev, cycle[j]), UnlinkPrev(next, prev, cycle[j]);
      && r[k] in next' && next'[r[k]] == r[Succ(k, |r|)]
      && r[Succ(k, |r|)] in prev' && prev'[r[Succ(k, |r|)]] == r[k]
  {
    hide RemoveAt, Linked, Distinct;
    var n := |cycle|;
    LinkedAt(next, prev, cycle, j - 1);
    LinkedAt(next, prev, cycle, j);
    if k < j - 1 {
      LinkedAt(next, prev, cycle, k);
      DistinctAt(cycle, k, j - 1);
      DistinctAt(cycle, k + 1, Succ(j, n));
    } else if k >= j {
      LinkedAt(next, prev, cycle, k + 1);
      DistinctAt(cycle, k + 1, j - 1);
      DistinctAt(cycle, Succ(k + 1, n), Succ(j, n));
    }
  }

  lemma UnlinkDistinct(cycle: seq<nat>, j: nat)
    requires Distinct(cycle) && j < |cycle|
    ensures Distinct(RemoveAt(cycle, j))
  {
    var r := RemoveAt(cycle, j);
    forall i, k | 0 <= i < k < |r| ensures r[i] != r[k] {
      DistinctAt(cycle, if i < j then i else i + 1, if k < j then k else k + 1);
    }
  }

  lemma UnlinkLinked(next: map<nat, nat>, prev: map<nat, nat>, cycle: seq<nat>, j: nat)
    requires Distinct(cycle) && Linked(next, prev, cycle) && 1 <= j < |cycle|
    ensures cycle[j] in next && cycle[j] in prev
    ensures Linked(UnlinkNext(next, prev, cycle[j]), UnlinkPrev(next, prev, cycle[j]), RemoveAt(cycle, j))
  {
    hide RemoveAt, Distinct;
    LinkedAt(next, prev, cycle, j - 1);
    LinkedAt(next, prev, cycle, j);
    var r := RemoveAt(cycle, j);
    var next', prev' := UnlinkNext(next, prev, cycle[j]), UnlinkPrev(next, prev, cycle[j]);
    hide UnlinkNext, UnlinkPrev, Succ;
    forall k | 0 <= k < |r|
      ensures r[k] in next' && next'[r[k]] == r[Succ(k, |r|)] && r[Succ(k, |r|)] in prev' &&
        prev'[r[Succ(k, |r|)]] == r[k]
    {
      UnlinkStep(next, prev, cycle, j, k);
    }
  }

  lemma Unlink(next: map<nat, nat>, prev: map<nat, nat>, cycle: seq<nat>, j: nat)
    requires WellLinked(next, prev, cycle) && 1 <= j < |cycle|
    ensures cycle[j] in next && cycle[j] in prev
    ensures WellLinked(UnlinkNext(next, prev, cycle[j]), UnlinkPrev(next, prev, cycle[j]), RemoveAt(cycle, j))
  {
    hide Linked, Distinct, UnlinkNext, UnlinkPrev;
    UnlinkDistinct(cycle, j);
    UnlinkLinked(next, prev, cycle, j);
  }

  /** b->next = head.next; b->prev = head; head.next->prev = b; head.next = b. */
  function PushNext(next: map<nat, nat>, b: nat): (r: map<nat, nat>)
    requires HEAD in next
  {
    next[b := next[HEAD]][HEAD := b]
  }

  function PushPrev(next: map<nat, nat>, prev: map<nat, nat>, b: nat): (r: map<nat, nat>)
    requires HEAD in next
  {
    prev[b := HEAD][next[HEAD] := b]
  }

  lemma PushStep(next: map<nat, nat>, prev: map<nat, nat>, cycle: seq<nat>, b: nat, k: nat)
    requires WellLinked(next, prev, cycle) && b !in cycle && k <= |cycle|
    ensures HEAD in next
    ensures var r := InsertAt(cycle, 0, b);
      var next', prev' := PushNext(next, b), PushPrev(next, prev, b);
      && r[k] in next' && next'[r[k]] == r[Succ(k, |r|)]
      && r[Succ(k, |r|)] in prev' && prev'[r[Succ(k, |r|)]] == r[k]
  {
    hide InsertAt, Linked, Distinct;
    var n := |cycle|;
    LinkedAt(next, prev, cycle, 0);
    if k >= 2 {
      LinkedAt(next, prev, cycle, k - 1);
      DistinctAt(cycle, 0, k - 1);
      DistinctAt(cycle, Succ(k - 1, n), Succ(0, n));
    }
  }

  lemma Push(next: map<nat, nat>, prev: map<nat, nat>, cycle: seq<nat>, b: nat)
    requires WellLinked(next, prev, cycle) && b !in cycle
    ensures HEAD in next && WellLinked(PushNext(next, b), PushPrev(next, prev, b), InsertAt(cycle, 0, b))
  {
    hide InsertAt;
    LinkedAt(next, prev, cycle, 0);
    var r := InsertAt(cycle, 0, b);
    var next', prev' := PushNext(next, b), PushPrev(next, prev, b);
    forall i, k | 0 <= i < k < |r| ensures r[i] != r[k] {
      if i == 0 && k > 1 { DistinctAt(cycle, 0, k - 1); } else if i > 1 { DistinctAt(cycle, i - 1, k - 1); }
    }
    forall k | 0 <= k < |r|
      ensures r[k] in next' && next'[r[k]] == r[Succ(k, |r|)] && r[Succ(k, |r|)] in prev' &&
        prev'[r[Succ(k, |r|)]] == r[k]
    {
      PushStep(next, prev, cycle, b, k);
    }
  }
}
