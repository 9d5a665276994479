/**
 * Repeated-capability selectors: resolving a name or a number against the
 * list of a driver's channel (or trigger source, ...) names, and the dict
 * built from such a list for faster lookups.
 */
module Selector {
  import opened Errors
  import opened Sequences

  /** What a caller passes as a selector: a Python int or a name. */
  datatype Key = IntKey(i: int) | NameKey(name: string)

  /** The table get_index consults: a list of names, or a dict to indices. */
  datatype Selectors = ListSel(items: seq<Key>) | DictSel(table: map<Key, int>)

  /** The error get_index raises for a key it cannot resolve. */
  function MissError(i: Key): (e: IviError)
    ensures e == SelectorRange || e == SelectorName
  {
    if i.IntKey? then SelectorRange else SelectorName
  }

  /** get_index (ivi/ivi.py): a dict is looked up; in a list, an element
      resolves to the position of its first occurrence, any other int in
      range to itself, and every other key is rejected. */
  function GetIndex(l: Selectors, i: Key): (r: Result<int>)
    ensures r.Err? ==> r.error == MissError(i)
    ensures l.ListSel? ==> (r.Ok? <==> i in l.items || (i.IntKey? && 0 <= i.i < |l.items|))
    ensures l.ListSel? && r.Ok? ==> 0 <= r.value < |l.items|
    ensures l.ListSel? && i in l.items ==>
      l.items[r.value] == i && forall j :: 0 <= j < r.value ==> l.items[j] != i
    ensures l.ListSel? && i !in l.items && r.Ok? ==> r == Ok(i.i)
    ensures l.DictSel? ==> (r.Ok? <==> i in l.table)
    ensures l.DictSel? && r.Ok? ==> r.value == l.table[i]
  {
    match l
    case DictSel(table) =>
      if i in table then Ok(table[i]) else Err(MissError(i))
    case ListSel(items) =>
      if i in items then Ok(FirstIndex(items, i))
      else if i.IntKey? then
        if i.i < 0 || i.i >= |items| then Err(SelectorRange) else Ok(i.i)
      else Err(SelectorName)
  }

  /** Key k is assigned at position j of the loop in get_index_dict: either as
      the element there or as the position itself. */
  predicate Hits(l: seq<Key>, j: int, k: Key)
    requires 0 <= j < |l|
  {
    l[j] == k || k == IntKey(j)
  }

  /** The dict get_index_dict returns, as a value: position by position,
      `d[l[i]] = i` and then `d[i] = i`, later positions overwriting. */
  function IndexDict(l: seq<Key>): map<Key, int>
  {
    if |l| == 0 then map[]
    else
      var n := |l| - 1;
      IndexDict(l[..n])[l[n] := n][IntKey(n) := n]
  }

  /** get_index_dict (ivi/ivi.py). */
  method GetIndexDict(l: seq<Key>) returns (d: map<Key, int>)
    ensures d == IndexDict(l)
  {
    d := map[];
    for i := 0 to |l|
      invariant d == IndexDict(l[..i])
    {
      assert l[..i + 1][..i] == l[..i];
      d := d[l[i] := i];
      d := d[IntKey(i) := i];
    }
    assert l[..|l|] == l;
  }

  /** What IndexDict holds: exactly the keys assigned somewhere in the loop,
      each mapped to the last position that assigned it. */
  lemma {:induction false} IndexDictContents(l: seq<Key>, k: Key)
    ensures k in IndexDict(l) <==> exists j :: 0 <= j < |l| && Hits(l, j, k)
    ensures k in IndexDict(l) ==> var v := IndexDict(l)[k];
      0 <= v < |l| && Hits(l, v, k) && forall j :: v < j < |l| ==> !Hits(l, j, k)
    decreases |l|
  {
    if |l| > 0 {
      var n := |l| - 1;
      var p := l[..n];
      IndexDictContents(p, k);
      assert forall j :: 0 <= j < n ==> (Hits(p, j, k) <==> Hits(l, j, k));
      if !Hits(l, n, k) && k in IndexDict(l) {
        var w :| 0 <= w < n && Hits(p, w, k);
        assert Hits(l, w, k);
      }
    }
  }

  /** Distinct names, the tables drivers pass. */
  predicate DistinctNames(l: seq<Key>) {
    (forall j :: 0 <= j < |l| ==> l[j].NameKey?)
    && forall j, m :: 0 <= j < m < |l| ==> l[j] != l[m]
  }

  /** For such a list the dict form answers every lookup exactly as the
      list form does. */
  lemma DictAgreesWithList(l: seq<Key>, i: Key)
    requires DistinctNames(l)
    ensures GetIndex(DictSel(IndexDict(l)), i) == GetIndex(ListSel(l), i)
  {
    if i in l {
      DictOnName(l, i);
    } else if i.IntKey? && 0 <= i.i < |l| {
      DictOnPosition(l, i.i);
    } else {
      DictMiss(l, i);
    }
  }

  lemma DictOnName(l: seq<Key>, i: Key)
    requires DistinctNames(l) && i in l
    ensures i in IndexDict(l) && IndexDict(l)[i] == FirstIndex(l, i)
  {
    IndexDictContents(l, i);
    assert Hits(l, FirstIndex(l, i), i);
  }

  lemma DictOnPosition(l: seq<Key>, n: nat)
    requires DistinctNames(l) && n < |l|
    ensures IntKey(n) in IndexDict(l) && IndexDict(l)[IntKey(n)] == n
  {
    IndexDictContents(l, IntKey(n));
    assert Hits(l, n, IntKey(n));
  }

  lemma DictMiss(l: seq<Key>, i: Key)
    requires DistinctNames(l) && i !in l && !(i.IntKey? && 0 <= i.i < |l|)
    ensures i !in IndexDict(l)
  {
    IndexDictContents(l, i);
  }

  /** With a repeated name the two forms part ways: the list answers with
      the first occurrence, the dict with the last. */
  lemma RepeatedNameDisagrees(a: string)
    ensures GetIndex(ListSel([NameKey(a), NameKey(a)]), NameKey(a)) == Ok(0)
    ensures GetIndex(DictSel(IndexDict([NameKey(a), NameKey(a)])), NameKey(a)) == Ok(1)
  {
    var l := [NameKey(a), NameKey(a)];
    IndexDictContents(l, NameKey(a));
  }
}
