/**
 A JavaScript plain object whose property values are strings (request
 headers, form fields), kept as its properties in insertion order. Property
 names are unique, which `WellFormed` states.
 */
module Records {
  import opened Wrappers

  type Entry = (string, string)
  type Record = seq<Entry>

  /** No property name occurs twice. */
  predicate WellFormed(r: Record) {
    forall i, j :: 0 <= i < j < |r| ==> r[i].0 != r[j].0
  }

  /** The value of property `k` (`r[k]`), or `None` when `r` has no such property. */
  function Lookup(r: Record, k: string): (v: Option<string>)
    ensures v.Some? ==> exists i :: 0 <= i < |r| && r[i] == (k, v.value)
    ensures v.None? <==> forall i :: 0 <= i < |r| ==> r[i].0 != k
  {
    if |r| == 0 then None
    else if r[0].0 == k then Some(r[0].1)
    else Lookup(r[1..], k)
  }

  /**
   The object literal `{...r, [k]: v}`: a property already named `k` keeps its
   place and takes the new value; otherwise `k` is appended last.
   */
  function Set(r: Record, k: string, v: string): (r': Record)
    requires WellFormed(r)
    ensures Lookup(r, k).None? ==> r' == r + [(k, v)]
    ensures Lookup(r, k).Some? ==>
      |r'| == |r| && forall i :: 0 <= i < |r| ==> r'[i] == (if r[i].0 == k then (k, v) else r[i])
  {
    if |r| == 0 then [(k, v)]
    else if r[0].0 == k then [(k, v)] + r[1..]
    else [r[0]] + Set(r[1..], k, v)
  }

  /** In a well-formed record, a value found at a position is the value `Lookup` reports. */
  lemma {:induction false} LookupAt(r: Record, i: int)
    requires WellFormed(r)
    requires 0 <= i < |r|
    ensures Lookup(r, r[i].0) == Some(r[i].1)
  {
    if i > 0 {
      assert r[0].0 != r[i].0;
      assert r[1..][i - 1] == r[i];
      LookupAt(r[1..], i - 1);
    }
  }

  /** `Set` keeps property names unique. */
  lemma SetWellFormed(r: Record, k: string, v: string)
    requires WellFormed(r)
    ensures WellFormed(Set(r, k, v))
  {
    var r' := Set(r, k, v);
    forall i, j | 0 <= i < j < |r'|
      ensures r'[i].0 != r'[j].0
    {
      assert r'[i].0 == r[i].0;
      if j < |r| {
        assert r'[j].0 == r[j].0;
      }
    }
  }

  /**
   `Set` keeps the record well formed, gives `k` the value `v`, and leaves every
   other property exactly as it was.
   */
  lemma SetProperties(r: Record, k: string, v: string)
    requires WellFormed(r)
    ensures WellFormed(Set(r, k, v))
    ensures Lookup(Set(r, k, v), k) == Some(v)
    ensures forall k' :: k' != k ==> Lookup(Set(r, k, v), k') == Lookup(r, k')
  {
    var r' := Set(r, k, v);
    SetWellFormed(r, k, v);
    if Lookup(r, k).Some? {
      var j :| 0 <= j < |r| && r[j].0 == k;
      assert r'[j] == (k, v);
      LookupAt(r', j);
    } else {
      assert r'[|r|] == (k, v);
      LookupAt(r', |r|);
    }
    forall k' | k' != k
      ensures Lookup(r', k') == Lookup(r, k')
    {
      SetLookupOther(r, k, v, k');
    }
  }

  lemma SetLookupOther(r: Record, k: string, v: string, k': string)
    requires WellFormed(r) && k' != k
    ensures Lookup(Set(r, k, v), k') == Lookup(r, k')
  {
    var r' := Set(r, k, v);
    SetWellFormed(r, k, v);
    if Lookup(r, k').Some? {
      var i :| 0 <= i < |r| && r[i] == (k', Lookup(r, k').value);
      assert r'[i] == r[i];
      LookupAt(r', i);
    } else {
      assert forall i :: 0 <= i < |r'| ==> r'[i].0 != k';
    }
  }
}
