/** The deep merge that lays a loaded configuration file over the built-in
    defaults (`_deep_update` in main.py). Dictionaries are values here: the
    merge returns the updated dictionary instead of changing it in place. */
module ConfigMerge {

  /** A JSON value as the configuration file holds it. */
  datatype Json =
    | JNull
    | JBool(b: bool)
    | JInt(i: int)
    | JStr(s: string)
    | JList(items: seq<Json>)
    | JObject(fields: map<string, Json>)

  /** The dictionary `d` after `_deep_update(d, u)`, key by key: a key only in
      `d` keeps its value; where both sides hold a dictionary they are merged;
      otherwise `u`'s value replaces whatever `d` had. */
  function Merged(d: map<string, Json>, u: map<string, Json>): map<string, Json>
    decreases JObject(u)
  {
    map k | k in d.Keys + u.Keys ::
      if k !in u then d[k]
      else if u[k].JObject? && k in d && d[k].JObject? then JObject(Merged(d[k].fields, u[k].fields))
      else u[k]
  }

  /** `_deep_update`: one pass over the keys of `u`, recursing into nested
      dictionaries that both sides hold. */
  method DeepUpdate(d: map<string, Json>, u: map<string, Json>) returns (r: map<string, Json>)
    ensures r == Merged(d, u)
    decreases JObject(u)
  {
    r := d;
    var pending := u.Keys;
    while pending != {}
      invariant pending <= u.Keys
      invariant r.Keys == d.Keys + (u.Keys - pending)
      invariant forall k :: k in r ==> r[k] == if k in u.Keys - pending then Merged(d, u)[k] else d[k]
      decreases pending
    {
      var k :| k in pending;
      var v := u[k];
      if v.JObject? && k in r && r[k].JObject? {
        var sub := DeepUpdate(r[k].fields, v.fields);
        r := r[k := JObject(sub)];
      } else {
        r := r[k := v];
      }
      pending := pending - {k};
    }
  }

  /** Every key of `u` is present in `r`, with `u`'s value, except that where
      both hold a dictionary the same is true one level down. */
  ghost predicate Covers(r: map<string, Json>, u: map<string, Json>)
    decreases JObject(u)
  {
    forall k :: k in u ==>
      k in r &&
      if u[k].JObject? && r[k].JObject? then Covers(r[k].fields, u[k].fields) else r[k] == u[k]
  }

  /** Every key of `d` is still present in `r`; a key `u` does not mention keeps
      its value, and where `u` merged into a nested dictionary the same is true
      one level down. */
  ghost predicate Preserves(r: map<string, Json>, d: map<string, Json>, u: map<string, Json>)
    decreases JObject(u)
  {
    forall k :: k in d ==>
      k in r &&
      (k !in u ==> r[k] == d[k]) &&
      (k in u && u[k].JObject? && d[k].JObject? ==>
        r[k].JObject? && Preserves(r[k].fields, d[k].fields, u[k].fields))
  }

  lemma {:induction false} CoversItself(u: map<string, Json>)
    ensures Covers(u, u)
    decreases JObject(u)
  {
    forall k | k in u && u[k].JObject? {
      CoversItself(u[k].fields);
    }
  }

  /** After the merge every setting of the loaded file is in force, at every
      depth. */
  lemma {:induction false} MergedCovers(d: map<string, Json>, u: map<string, Json>)
    ensures Covers(Merged(d, u), u)
    decreases JObject(u)
  {
    var r := Merged(d, u);
    forall k | k in u && u[k].JObject? && r[k].JObject?
      ensures Covers(r[k].fields, u[k].fields)
    {
      if k in d && d[k].JObject? {
        MergedCovers(d[k].fields, u[k].fields);
      } else {
        CoversItself(u[k].fields);
      }
    }
  }

  /** After the merge every default the loaded file does not mention is still
      there, unchanged, at every depth. */
  lemma {:induction false} MergedPreserves(d: map<string, Json>, u: map<string, Json>)
    ensures Preserves(Merged(d, u), d, u)
    decreases JObject(u)
  {
    var r := Merged(d, u);
    forall k | k in d && k in u && u[k].JObject? && d[k].JObject?
      ensures Preserves(r[k].fields, d[k].fields, u[k].fields)
    {
      MergedPreserves(d[k].fields, u[k].fields);
    }
  }

  /** Merging a dictionary into itself changes nothing. */
  lemma {:induction false} MergedSelf(x: map<string, Json>)
    ensures Merged(x, x) == x
    decreases JObject(x)
  {
    forall k | k in x && x[k].JObject?
      ensures Merged(x, x)[k] == x[k]
    {
      MergedSelf(x[k].fields);
    }
  }

  /** Loading the same file a second time changes nothing more. */
  lemma {:induction false} MergedIdempotent(d: map<string, Json>, u: map<string, Json>)
    ensures Merged(Merged(d, u), u) == Merged(d, u)
    decreases JObject(u)
  {
    var m := Merged(d, u);
    forall k | k in u && u[k].JObject? && k in m && m[k].JObject?
      ensures Merged(m, u)[k] == m[k]
    {
      if k in d && d[k].JObject? {
        MergedIdempotent(d[k].fields, u[k].fields);
      } else {
        MergedSelf(u[k].fields);
      }
    }
    assert forall k :: k in m ==> Merged(m, u)[k] == m[k];
  }
}
