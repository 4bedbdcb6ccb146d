/** A JavaScript plain object used as `Record<string, string>`: string keys
    mapped to string values, where `Object.keys`/`Object.values` list the
    entries in the order their keys were first added. Modelled as a sequence
    of entries whose keys are distinct. */
module Records {
  import opened Types

  type Record = seq<(string, string)>

  predicate Distinct(s: seq<string>) {
    forall i, j :: 0 <= i < j < |s| ==> s[i] != s[j]
  }

  /** `Object.keys(r)` */
  function Keys(r: Record): (ks: seq<string>)
    ensures |ks| == |r|
    ensures forall i :: 0 <= i < |r| ==> ks[i] == r[i].0
  {
    if r == [] then [] else [r[0].0] + Keys(r[1..])
  }

  /** `Object.values(r)` */
  function Values(r: Record): (vs: seq<string>)
    ensures |vs| == |r|
    ensures forall i :: 0 <= i < |r| ==> vs[i] == r[i].1
  {
    if r == [] then [] else [r[0].1] + Values(r[1..])
  }

  /** `r[k]`, None standing for `undefined`. */
  function Lookup(r: Record, k: string): (v: Option<string>)
    ensures v.Some? <==> k in Keys(r)
  {
    if r == [] then None
    else if r[0].0 == k then Some(r[0].1)
    else Lookup(r[1..], k)
  }

  /** `r[k] = v`: an existing key keeps its place and gets the new value; a
      new key goes at the end. No other key changes. */
  function Put(r: Record, k: string, v: string): (r': Record)
    ensures Lookup(r', k) == Some(v)
    ensures forall j :: j != k ==> Lookup(r', j) == Lookup(r, j)
  {
    if r == [] then [(k, v)]
    else if r[0].0 == k then [(k, v)] + r[1..]
    else [r[0]] + Put(r[1..], k, v)
  }

  /** Where `Put` leaves the keys: in place for an existing key, at the end
      for a new one. */
  lemma {:induction false} PutKeys(r: Record, k: string, v: string)
    ensures k in Keys(r) ==> Keys(Put(r, k, v)) == Keys(r)
    ensures k !in Keys(r) ==> Keys(Put(r, k, v)) == Keys(r) + [k]
  {
    if r != [] && r[0].0 != k {
      PutKeys(r[1..], k, v);
      assert Keys(r) == [r[0].0] + Keys(r[1..]);
      assert Keys(Put(r, k, v)) == [r[0].0] + Keys(Put(r[1..], k, v));
    }
  }

  /** `Put` keeps the keys distinct. */
  lemma PutDistinct(r: Record, k: string, v: string)
    requires Distinct(Keys(r))
    ensures Distinct(Keys(Put(r, k, v)))
  {
    PutKeys(r, k, v);
  }

  /** `delete r[k]`: the key is gone, every other key keeps its value and
      the remaining keys keep their order. */
  function Delete(r: Record, k: string): (r': Record)
    ensures Lookup(r', k) == None
    ensures forall j :: j != k ==> Lookup(r', j) == Lookup(r, j)
    ensures forall j :: j in Keys(r') <==> j in Keys(r) && j != k
    ensures |r'| <= |r|
    ensures k !in Keys(r) ==> r' == r
  {
    if r == [] then []
    else if r[0].0 == k then Delete(r[1..], k)
    else [r[0]] + Delete(r[1..], k)
  }

  /** In a record with distinct keys, the i-th value is the value of the i-th key. */
  lemma {:induction false} ValuesMatchKeys(r: Record, i: int)
    requires Distinct(Keys(r))
    requires 0 <= i < |r|
    ensures Lookup(r, Keys(r)[i]) == Some(Values(r)[i])
  {
    if i > 0 {
      assert Keys(r)[i] != Keys(r)[0];
      assert Keys(r[1..]) == Keys(r)[1..];
      ValuesMatchKeys(r[1..], i - 1);
    }
  }

  /** Deleting keeps the keys distinct. */
  lemma {:induction false} DeleteDistinct(r: Record, k: string)
    requires Distinct(Keys(r))
    ensures Distinct(Keys(Delete(r, k)))
  {
    if r != [] {
      assert Keys(r[1..]) == Keys(r)[1..];
      DeleteDistinct(r[1..], k);
      if r[0].0 != k {
        var d := Delete(r[1..], k);
        assert r[0].0 !in Keys(r[1..]);
        assert r[0].0 !in Keys(d);
        assert Keys([r[0]] + d) == [r[0].0] + Keys(d);
      }
    }
  }

  /** The fields of a list of validation errors, in order. */
  function Fields(errs: seq<ValidationError>): (fs: seq<string>)
    ensures |fs| == |errs|
    ensures forall i :: 0 <= i < |errs| ==> fs[i] == errs[i].field
  {
    if errs == [] then [] else Fields(errs[..|errs| - 1]) + [errs[|errs| - 1].field]
  }

  /** Each string once, in the order of first occurrence. */
  function FirstOccurrences(s: seq<string>): (r: seq<string>)
    ensures forall x :: x in r <==> x in s
    ensures Distinct(r)
  {
    if s == [] then []
    else
      var p := FirstOccurrences(s[..|s| - 1]);
      if s[|s| - 1] in p then p else p + [s[|s| - 1]]
  }

  /** The message of the last error about `field`, if any. */
  function LastMessage(errs: seq<ValidationError>, field: string): Option<string> {
    if errs == [] then None
    else if errs[|errs| - 1].field == field then Some(errs[|errs| - 1].message)
    else LastMessage(errs[..|errs| - 1], field)
  }

  /** The record that `errs.forEach(e => { rec[e.field] = e.message })`
      builds from an empty object. */
  function PutAll(errs: seq<ValidationError>): Record {
    if errs == [] then []
    else
      var last := errs[|errs| - 1];
      Put(PutAll(errs[..|errs| - 1]), last.field, last.message)
  }

  /** After the loop, each field holds the message of its last error. */
  lemma {:induction false} PutAllLookup(errs: seq<ValidationError>, field: string)
    ensures Lookup(PutAll(errs), field) == LastMessage(errs, field)
  {
    if errs != [] {
      PutAllLookup(errs[..|errs| - 1], field);
    }
  }

  /** After the loop, the keys are the fields in order of first occurrence. */
  lemma {:induction false} PutAllKeys(errs: seq<ValidationError>)
    ensures Keys(PutAll(errs)) == FirstOccurrences(Fields(errs))
  {
    if errs != [] {
      var init := errs[..|errs| - 1];
      PutAllKeys(init);
      PutKeys(PutAll(init), errs[|errs| - 1].field, errs[|errs| - 1].message);
      assert Fields(errs)[..|errs| - 1] == Fields(init);
    }
  }

  /** The loop the route handler and the form hook run over validation errors. */
  method CollectErrors(errs: seq<ValidationError>) returns (rec: Record)
    ensures rec == PutAll(errs)
    ensures forall field :: Lookup(rec, field) == LastMessage(errs, field)
    ensures Keys(rec) == FirstOccurrences(Fields(errs))
  {
    rec := [];
    for i := 0 to |errs|
      invariant rec == PutAll(errs[..i])
    {
      assert errs[..i + 1][..i] == errs[..i];
      rec := Put(rec, errs[i].field, errs[i].message);
    }
    assert errs[..|errs|] == errs;
    forall field ensures Lookup(rec, field) == LastMessage(errs, field) {
      PutAllLookup(errs, field);
    }
    PutAllKeys(errs);
  }
}
