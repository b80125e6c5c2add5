/** The JavaScript `Map` the sync route keys its drafts by (app/api/scrape/all/route.ts:36):
  * `set` replaces the value of a present key where it stands and appends a
  * new key at the end, and iteration follows insertion order. Its abstract
  * value is the sequence of `[key, draft]` entries. */
module ProjectMaps {
  import opened Types

  /** One `[slug, draft]` entry. */
  datatype Entry = Entry(key: string, draft: Project)

  function Keys(es: seq<Entry>): (r: seq<string>)
    ensures |r| == |es|
    ensures forall i :: 0 <= i < |es| ==> r[i] == es[i].key
  {
    seq(|es|, i requires 0 <= i < |es| => es[i].key)
  }

  predicate DistinctKeys(es: seq<Entry>) {
    forall i, j :: 0 <= i < j < |es| ==> es[i].key != es[j].key
  }

  /** The position of key `k`, looking from `from` on. */
  function IndexOf(es: seq<Entry>, k: string, from: nat): (r: Option<nat>)
    requires from <= |es|
    ensures r.Some? ==> from <= r.value < |es| && es[r.value].key == k
    ensures r.Some? ==> forall j :: from <= j < r.value ==> es[j].key != k
    ensures r.None? ==> forall j :: from <= j < |es| ==> es[j].key != k
    decreases |es| - from
  {
    if from == |es| then None
    else if es[from].key == k then Some(from)
    else IndexOf(es, k, from + 1)
  }

  /** `map.get(k)`. */
  function Lookup(es: seq<Entry>, k: string): (r: Option<Project>)
    ensures r.Some? <==> k in Keys(es)
  {
    match IndexOf(es, k, 0)
    case Some(i) => Some(es[i].draft)
    case None => None
  }

  /** `map.set(k, v)`: a present key keeps its place and gets the new value;
    * a new key goes at the end. */
  function SetEntry(es: seq<Entry>, k: string, v: Project): (r: seq<Entry>)
    ensures k in Keys(es) ==> Keys(r) == Keys(es)
    ensures k !in Keys(es) ==> Keys(r) == Keys(es) + [k]
    ensures k !in Keys(es) ==> r == es + [Entry(k, v)]
    ensures Lookup(r, k) == Some(v)
    ensures DistinctKeys(es) ==> DistinctKeys(r)
    ensures |es| <= |r| && forall j :: 0 <= j < |es| && es[j].key != k ==> r[j] == es[j]
  {
    match IndexOf(es, k, 0)
    case Some(i) =>
      var r := es[i := Entry(k, v)];
      assert Keys(r) == Keys(es);
      assert IndexOf(r, k, 0) == Some(i) by {
        assert forall j :: 0 <= j < i ==> r[j].key != k;
        IndexOfFirst(r, k, i);
      }
      r
    case None =>
      var r := es + [Entry(k, v)];
      assert Keys(r) == Keys(es) + [k];
      assert IndexOf(r, k, 0) == Some(|es|) by {
        IndexOfFirst(r, k, |es|);
      }
      r
  }

  /** Setting `k` leaves every other key's draft as it was. */
  lemma SetEntryOthers(es: seq<Entry>, k: string, v: Project, k': string)
    requires k' != k
    ensures Lookup(SetEntry(es, k, v), k') == Lookup(es, k')
  {
    var r := SetEntry(es, k, v);
    match IndexOf(es, k, 0)
    case Some(i) =>
      LookupAgree(es, r, k', i);
    case None =>
      LookupAgree(es, r, k', |es|);
  }

  lemma IndexOfFirst(es: seq<Entry>, k: string, i: nat)
    requires i < |es| && es[i].key == k
    requires forall j :: 0 <= j < i ==> es[j].key != k
    ensures IndexOf(es, k, 0) == Some(i)
  {
  }

  /** Two entry lists that differ only at position `i`, or by one entry
    * appended at `i`, and hold some other key there, agree on every other key. */
  lemma LookupAgree(es: seq<Entry>, r: seq<Entry>, k: string, i: nat)
    requires |r| == |es| || (|r| == |es| + 1 && i == |es|)
    requires i < |r| && r[i].key != k && (i < |es| ==> es[i].key != k)
    requires forall j :: 0 <= j < |es| && j != i ==> r[j] == es[j]
    ensures Lookup(r, k) == Lookup(es, k)
  {
    var a := IndexOf(es, k, 0);
    if a.Some? {
      IndexOfFirst(r, k, a.value);
    }
  }

  /** `map.set` of every entry of `ps`, in order. */
  function SetAll(es: seq<Entry>, ps: seq<Entry>): (r: seq<Entry>)
    ensures DistinctKeys(es) ==> DistinctKeys(r)
    ensures |r| <= |es| + |ps|
    decreases |ps|
  {
    if ps == [] then es
    else
      var n := |ps| - 1;
      SetEntry(SetAll(es, ps[..n]), ps[n].key, ps[n].draft)
  }

  /** Setting one more entry of `ps`. */
  lemma SetAllSnoc(es: seq<Entry>, ps: seq<Entry>, i: nat)
    requires i < |ps|
    ensures SetAll(es, ps[..i + 1]) == SetEntry(SetAll(es, ps[..i]), ps[i].key, ps[i].draft)
  {
    assert ps[..i + 1][..i] == ps[..i];
  }

  /** Replacing entry `i` of a list whose first `i` entries are already
    * those of `target` extends the finished prefix by one. */
  lemma SpliceStep(target: seq<Entry>, es: seq<Entry>, i: nat)
    requires |target| == |es| && i < |es|
    ensures (target[..i] + es[i..])[i := target[i]] == target[..i + 1] + es[i + 1..]
  {
  }

  /** The keys after setting `ps` are those before and those of `ps`. */
  lemma {:induction false} SetAllKeys(es: seq<Entry>, ps: seq<Entry>)
    ensures forall k :: k in Keys(SetAll(es, ps)) <==> k in Keys(es) || k in Keys(ps)
    decreases |ps|
  {
    if ps != [] {
      var n := |ps| - 1;
      var mid := SetAll(es, ps[..n]);
      SetAllKeys(es, ps[..n]);
      assert Keys(ps) == Keys(ps[..n]) + [ps[n].key];
      var r := SetEntry(mid, ps[n].key, ps[n].draft);
      assert Lookup(r, ps[n].key).Some?;
    }
  }

  /** A key is left with the draft of the last entry of `ps` that has it. */
  lemma {:induction false} SetAllLastWins(es: seq<Entry>, ps: seq<Entry>, i: nat)
    requires i < |ps|
    requires forall j :: i < j < |ps| ==> ps[j].key != ps[i].key
    ensures Lookup(SetAll(es, ps), ps[i].key) == Some(ps[i].draft)
    decreases |ps|
  {
    var n := |ps| - 1;
    var mid := SetAll(es, ps[..n]);
    assert SetAll(es, ps) == SetEntry(mid, ps[n].key, ps[n].draft);
    if i < n {
      assert ps[..n][i] == ps[i];
      assert forall j :: i < j < n ==> ps[..n][j] == ps[j];
      SetAllLastWins(es, ps[..n], i);
      SetEntryOthers(mid, ps[n].key, ps[n].draft, ps[i].key);
    }
  }

  /** The entries a key list and a key-to-draft map stand for. */
  function EntriesOf(keys: seq<string>, drafts: map<string, Project>): (es: seq<Entry>)
    requires forall k :: k in keys ==> k in drafts
    ensures |es| == |keys|
    ensures forall i :: 0 <= i < |keys| ==> es[i] == Entry(keys[i], drafts[keys[i]])
  {
    seq(|keys|, i requires 0 <= i < |keys| => Entry(keys[i], drafts[keys[i]]))
  }

  /** The `projectMap` object, updated in place by the sync. */
  class ProjectMap {
    var keys: seq<string>
    var drafts: map<string, Project>

    ghost predicate Valid()
      reads this
    {
      (forall i, j :: 0 <= i < j < |keys| ==> keys[i] != keys[j])
      && (forall k :: k in drafts <==> k in keys)
    }

    function Entries(): (es: seq<Entry>)
      reads this
      requires Valid()
      ensures DistinctKeys(es) && Keys(es) == keys
    {
      var es := EntriesOf(keys, drafts);
      assert Keys(es) == keys;
      es
    }

    /** `new Map()`. */
    constructor ()
      ensures Valid() && Entries() == []
    {
      keys := [];
      drafts := map[];
    }

    /** `projectMap.set(k, v)`. */
    method Set(k: string, v: Project)
      requires Valid()
      modifies this
      ensures Valid()
      ensures Entries() == SetEntry(old(Entries()), k, v)
    {
      ghost var es := Entries();
      if k !in drafts {
        keys := keys + [k];
      }
      drafts := drafts[k := v];
      ghost var r := SetEntry(es, k, v);
      assert |Entries()| == |r|;
      forall j | 0 <= j < |r| ensures Entries()[j] == r[j] {
        if j < |es| && es[j].key != k {
          assert r[j] == es[j];
        } else {
          assert Lookup(r, k) == Some(v);
          IndexOfFirst(r, k, j);
        }
      }
    }

    /** Writing fields of the draft stored at position `i`. */
    method Put(i: nat, v: Project)
      requires Valid() && i < |keys|
      modifies this
      ensures Valid() && keys == old(keys)
      ensures Entries() == old(Entries())[i := Entry(old(keys)[i], v)]
    {
      drafts := drafts[keys[i] := v];
    }
  }
}
