/** The in-memory inode table (kernel/fs.c): at most one referenced entry per inode. */
module Itable {

  datatype Entry = Entry(dev: nat, inum: nat, ref: nat, valid: bool)

  ghost predicate For(e: Entry, dev: nat, inum: nat) { e.ref > 0 && e.dev == dev && e.inum == inum }

  ghost predicate Unique(t: seq<Entry>) {
    forall i, j :: 0 <= i < j < |t| && t[i].ref > 0 && t[j].ref > 0 ==> t[i].dev != t[j].dev || t[i].inum != t[j].inum
  }

  /** How many references there are to an inode: with unique entries, those of its one entry. */
  ghost function Count(t: seq<Entry>, dev: nat, inum: nat, k: nat): (n: nat)
    requires k <= |t|
  {
    if k == 0 then 0 else Count(t, dev, inum, k - 1) + (if For(t[k - 1], dev, inum) then t[k - 1].ref else 0)
  }

  ghost function Refs(t: seq<Entry>, dev: nat, inum: nat): nat { Count(t, dev, inum, |t|) }

  lemma {:induction false} CountChange(t: seq<Entry>, u: seq<Entry>, dev: nat, inum: nat, i: nat, k: nat)
    requires |t| == |u| && i < |t| && k <= |t| && forall j :: 0 <= j < |t| && j != i ==> u[j] == t[j]
    ensures Count(u, dev, inum, k) == Count(t, dev, inum, k) +
      (if i < k then (if For(u[i], dev, inum) then u[i].ref else 0) - (if For(t[i], dev, inum) then t[i].ref else 0)
        else 0)
    decreases k
  {
    if k > 0 { CountChange(t, u, dev, inum, i, k - 1); }
  }

  lemma {:induction false} NotThere(t: seq<Entry>, dev: nat, inum: nat, k: nat)
    requires k <= |t| && forall j :: 0 <= j < k ==> !For(t[j], dev, inum)
    ensures Count(t, dev, inum, k) == 0
    decreases k
  {
    if k > 0 { NotThere(t, dev, inum, k - 1); }
  }

  class Table {
    var t: seq<Entry>

    /** iget: the entry of the inode, one reference more; |t| stands for the panic when every entry is referenced. */
    method Iget(dev: nat, inum: nat) returns (k: nat)
      requires Unique(t)
      modifies this
      ensures Unique(t) && |t| == |old(t)| && k <= |t|
      ensures k == |t| <==> forall j :: 0 <= j < |old(t)| ==> old(t)[j].ref > 0 && !For(old(t)[j], dev, inum)
      ensures k == |t| ==> t == old(t)
      ensures k < |t| ==> For(t[k], dev, inum) && forall j :: 0 <= j < |t| && j != k ==> t[j] == old(t)[j]
      ensures k < |t| ==>
        if For(old(t)[k], dev, inum) then t[k] == old(t)[k].(ref := old(t)[k].ref + 1)
        else t[k] == Entry(dev, inum, 1, false)
      ensures k < |t| ==> Refs(t, dev, inum) == Refs(old(t), dev, inum) + 1
    {
      var empty: nat := |t|;
      var i: nat := 0;
      while i < |t|
        invariant i <= |t| && empty <= |t| && t == old(t) && (empty < |t| ==> empty < i && t[empty].ref == 0)
        invariant forall j :: 0 <= j < i ==> !For(t[j], dev, inum)
        invariant empty == |t| ==> forall j :: 0 <= j < i ==> t[j].ref > 0
      {
        if t[i].ref > 0 && t[i].dev == dev && t[i].inum == inum {
          t := t[i := t[i].(ref := t[i].ref + 1)];
          CountChange(old(t), t, dev, inum, i, |t|);
          return i;
        }
        if empty == |t| && t[i].ref == 0 { empty := i; }
        i := i + 1;
      }
      if empty == |t| { return |t|; }
      t := t[empty := Entry(dev, inum, 1, false)];
      CountChange(old(t), t, dev, inum, empty, |t|);
      return empty;
    }

    /** The end of iput: one reference less; the entry can be used for another inode when none is left. */
    method Drop(k: nat)
      requires Unique(t) && k < |t| && t[k].ref > 0
      modifies this
      ensures Unique(t) && t == old(t)[k := old(t)[k].(ref := old(t)[k].ref - 1)]
      ensures Refs(t, old(t)[k].dev, old(t)[k].inum) == Refs(old(t), old(t)[k].dev, old(t)[k].inum) - 1
    {
      t := t[k := t[k].(ref := t[k].ref - 1)];
      CountChange(old(t), t, old(t)[k].dev, old(t)[k].inum, k, |t|);
    }
  }
}
