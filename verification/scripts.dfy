/**
 * Script maps as JSON objects behave in the extension: an ordered list of
 * (name, command) pairs with distinct names, where iteration (`for...in`)
 * follows insertion order and object spread (`{...a, ...b}`) overwrites
 * existing keys in place and appends new keys at the end.
 */
module Scripts {
  import opened Wrappers

  datatype Script = Script(name: string, command: string)

  type ScriptMap = seq<Script>

  /** The names of a map, in iteration order. */
  function Names(m: ScriptMap): seq<string> {
    if m == [] then [] else [m[0].name] + Names(m[1..])
  }

  /** The key set of a map. */
  function Keys(m: ScriptMap): set<string> {
    if m == [] then {} else {m[0].name} + Keys(m[1..])
  }

  /** A JSON object never holds the same key twice. */
  predicate UniqueNames(m: ScriptMap) {
    forall i, j :: 0 <= i < j < |m| ==> m[i].name != m[j].name
  }

  /** `m[k]`: the command stored under `k`, if any. */
  function Lookup(m: ScriptMap, k: string): Option<string> {
    if m == [] then None
    else if m[0].name == k then Some(m[0].command)
    else Lookup(m[1..], k)
  }

  /** `m[k] = v` on a JSON object: an existing key keeps its place, a new key goes last. */
  function Put(m: ScriptMap, k: string, v: string): ScriptMap {
    if m == [] then [Script(k, v)]
    else if m[0].name == k then [Script(k, v)] + m[1..]
    else [m[0]] + Put(m[1..], k, v)
  }

  lemma {:induction false} KeysAreNames(m: ScriptMap)
    ensures Keys(m) == set i | 0 <= i < |m| :: m[i].name
  {
    if m != [] {
      KeysAreNames(m[1..]);
      var s := set i | 0 <= i < |m| :: m[i].name;
      forall x | x in s ensures x in Keys(m) {
        var i :| 0 <= i < |m| && m[i].name == x;
        if i > 0 { assert m[1..][i - 1].name == x; }
      }
      forall x | x in Keys(m[1..]) ensures x in s {
        var i :| 0 <= i < |m[1..]| && m[1..][i].name == x;
        assert m[i + 1].name == x;
      }
    }
  }

  /** A key is found exactly when it is present, and what is found is stored under it. */
  lemma {:induction false} LookupFinds(m: ScriptMap, k: string)
    ensures Lookup(m, k).Some? <==> k in Keys(m)
    ensures Lookup(m, k).Some? ==> Script(k, Lookup(m, k).value) in m
  {
    if m != [] && m[0].name != k {
      LookupFinds(m[1..], k);
    }
  }

  lemma {:induction false} UniqueTail(m: ScriptMap)
    requires m != [] && UniqueNames(m)
    ensures UniqueNames(m[1..]) && m[0].name !in Keys(m[1..])
  {
    KeysAreNames(m[1..]);
  }

  /** Assigning a key keeps the order of the existing keys and appends a new one. */
  lemma {:induction false} PutNames(m: ScriptMap, k: string, v: string)
    ensures k in Keys(m) ==> Names(Put(m, k, v)) == Names(m)
    ensures k !in Keys(m) ==> Names(Put(m, k, v)) == Names(m) + [k]
  {
    if m != [] && m[0].name != k {
      PutNames(m[1..], k, v);
    }
  }

  lemma {:induction false} PutKeys(m: ScriptMap, k: string, v: string)
    ensures Keys(Put(m, k, v)) == Keys(m) + {k}
  {
    if m != [] && m[0].name != k {
      PutKeys(m[1..], k, v);
      assert Put(m, k, v)[1..] == Put(m[1..], k, v);
    } else if m != [] {
      assert Put(m, k, v)[1..] == m[1..];
    }
  }

  lemma UniqueCons(x: Script, t: ScriptMap)
    requires UniqueNames(t) && x.name !in Keys(t)
    ensures UniqueNames([x] + t)
  {
    KeysAreNames(t);
    var m := [x] + t;
    forall i, j | 0 <= i < j < |m| ensures m[i].name != m[j].name {
      if i == 0 {
        assert m[j] == t[j - 1];
      } else {
        assert m[i] == t[i - 1] && m[j] == t[j - 1];
      }
    }
  }

  /** Assigning a key never creates a duplicate key. */
  lemma {:induction false} PutUnique(m: ScriptMap, k: string, v: string)
    requires UniqueNames(m)
    ensures UniqueNames(Put(m, k, v))
  {
    if m == [] {
    } else if m[0].name == k {
      UniqueTail(m);
      UniqueCons(Script(k, v), m[1..]);
    } else {
      UniqueTail(m);
      PutUnique(m[1..], k, v);
      PutKeys(m[1..], k, v);
      UniqueCons(m[0], Put(m[1..], k, v));
    }
  }

  /** After `m[k] = v`, `k` reads `v` and every other key reads as before. */
  lemma {:induction false} PutLookup(m: ScriptMap, k: string, v: string, j: string)
    ensures Lookup(Put(m, k, v), k) == Some(v)
    ensures j != k ==> Lookup(Put(m, k, v), j) == Lookup(m, j)
  {
    if m != [] && m[0].name != k {
      PutLookup(m[1..], k, v, j);
      assert Put(m, k, v)[1..] == Put(m[1..], k, v);
    } else if m != [] {
      assert Put(m, k, v)[1..] == m[1..];
    }
  }

  lemma AppendAssoc<T>(a: seq<T>, b: seq<T>, c: seq<T>)
    ensures a + b + c == a + (b + c)
  {
  }

  /** The keys of `b` that `ks` does not hold yet, in the order of `b`. */
  function Fresh(ks: set<string>, b: ScriptMap): seq<string> {
    if b == [] then []
    else (if b[0].name in ks then [] else [b[0].name]) + Fresh(ks, b[1..])
  }

  /** `{...a, ...b}`: the entries of `b` assigned onto `a` one after the other. */
  function Overlay(a: ScriptMap, b: ScriptMap): ScriptMap
    decreases |b|
  {
    if b == [] then a else Overlay(Put(a, b[0].name, b[0].command), b[1..])
  }

  /** The keys of a spread are the union of the keys of its operands. */
  lemma {:induction false} OverlayKeys(a: ScriptMap, b: ScriptMap)
    ensures Keys(Overlay(a, b)) == Keys(a) + Keys(b)
    decreases |b|
  {
    if b != [] {
      PutKeys(a, b[0].name, b[0].command);
      OverlayKeys(Put(a, b[0].name, b[0].command), b[1..]);
    }
  }

  /** On a key the operands share, the right operand of a spread wins. */
  lemma {:induction false} OverlayLookup(a: ScriptMap, b: ScriptMap, k: string)
    requires UniqueNames(b)
    ensures Lookup(Overlay(a, b), k) == if k in Keys(b) then Lookup(b, k) else Lookup(a, k)
    decreases |b|
  {
    if b != [] {
      UniqueTail(b);
      PutLookup(a, b[0].name, b[0].command, k);
      OverlayLookup(Put(a, b[0].name, b[0].command), b[1..], k);
    }
  }

  /** A spread never creates a duplicate key. */
  lemma {:induction false} OverlayUnique(a: ScriptMap, b: ScriptMap)
    requires UniqueNames(a)
    ensures UniqueNames(Overlay(a, b))
    decreases |b|
  {
    if b != [] {
      PutUnique(a, b[0].name, b[0].command);
      OverlayUnique(Put(a, b[0].name, b[0].command), b[1..]);
    }
  }

  lemma {:induction false} FreshIgnores(ks: set<string>, x: string, b: ScriptMap)
    requires x !in Keys(b)
    ensures Fresh(ks + {x}, b) == Fresh(ks, b)
  {
    if b != [] {
      FreshIgnores(ks, x, b[1..]);
    }
  }

  /**
   * The keys of a spread come in the order of the left operand, followed by
   * the right operand's new keys in their own order.
   */
  lemma {:induction false} OverlayNames(a: ScriptMap, b: ScriptMap)
    requires UniqueNames(b)
    ensures Names(Overlay(a, b)) == Names(a) + Fresh(Keys(a), b)
    decreases |b|
  {
    if b != [] {
      var x := b[0].name;
      var a1 := Put(a, x, b[0].command);
      var added := if x in Keys(a) then [] else [x];
      assert Names(a1) == Names(a) + added by {
        PutNames(a, x, b[0].command);
      }
      assert Fresh(Keys(a1), b[1..]) == Fresh(Keys(a), b[1..]) by {
        UniqueTail(b);
        PutKeys(a, x, b[0].command);
        FreshIgnores(Keys(a), x, b[1..]);
      }
      assert Names(Overlay(a1, b[1..])) == Names(a1) + Fresh(Keys(a1), b[1..]) by {
        UniqueTail(b);
        OverlayNames(a1, b[1..]);
      }
      assert Fresh(Keys(a), b) == added + Fresh(Keys(a), b[1..]);
      assert Overlay(a, b) == Overlay(a1, b[1..]);
      AppendAssoc(Names(a), added, Fresh(Keys(a), b[1..]));
      assert Names(a) + added + Fresh(Keys(a), b[1..]) == Names(a) + Fresh(Keys(a), b);
    }
  }

  lemma {:induction false} PutAppends(m: ScriptMap, k: string, v: string)
    requires k !in Keys(m)
    ensures Put(m, k, v) == m + [Script(k, v)]
  {
    if m != [] {
      PutAppends(m[1..], k, v);
    }
  }

  /** Spreading a map onto keys it does not share appends it unchanged. */
  lemma {:induction false} OverlayDisjoint(a: ScriptMap, b: ScriptMap)
    requires UniqueNames(b) && Keys(a) !! Keys(b)
    ensures Overlay(a, b) == a + b
    decreases |b|
  {
    if b != [] {
      UniqueTail(b);
      PutAppends(a, b[0].name, b[0].command);
      PutKeys(a, b[0].name, b[0].command);
      OverlayDisjoint(a + [b[0]], b[1..]);
      assert a + [b[0]] + b[1..] == a + b;
    }
  }

  /** The script map of an optional source; a source that failed contributes nothing. */
  function Source(o: Option<ScriptMap>): ScriptMap {
    o.GetOr([])
  }

  /**
   * The `scripts` variable of one refresh pass: start from `{}`, spread in
   * the manifest's scripts if the manifest loaded, then the sidecar's if it loaded.
   */
  function Merge(manifest: Option<ScriptMap>, sidecar: Option<ScriptMap>): ScriptMap {
    var s0: ScriptMap := [];
    var s1 := if manifest.Some? then Overlay(s0, manifest.value) else s0;
    if sidecar.Some? then Overlay(s1, sidecar.value) else s1
  }

  lemma MergeIsOverlay(manifest: Option<ScriptMap>, sidecar: Option<ScriptMap>)
    ensures Merge(manifest, sidecar) == Overlay(Overlay([], Source(manifest)), Source(sidecar))
  {
  }

  /** The merged key set is the union of both sources' key sets. */
  lemma MergeKeys(manifest: Option<ScriptMap>, sidecar: Option<ScriptMap>)
    ensures Keys(Merge(manifest, sidecar)) == Keys(Source(manifest)) + Keys(Source(sidecar))
  {
    MergeIsOverlay(manifest, sidecar);
    OverlayKeys([], Source(manifest));
    OverlayKeys(Overlay([], Source(manifest)), Source(sidecar));
  }

  /** On a shared name the sidecar's command wins; otherwise the manifest's is kept. */
  lemma MergeLookup(manifest: Option<ScriptMap>, sidecar: Option<ScriptMap>, k: string)
    requires UniqueNames(Source(manifest)) && UniqueNames(Source(sidecar))
    ensures Lookup(Merge(manifest, sidecar), k)
         == if k in Keys(Source(sidecar)) then Lookup(Source(sidecar), k) else Lookup(Source(manifest), k)
  {
    MergeIsOverlay(manifest, sidecar);
    OverlayDisjoint([], Source(manifest));
    assert [] + Source(manifest) == Source(manifest);
    OverlayLookup(Source(manifest), Source(sidecar), k);
  }

  /** Merged names: the manifest's in its order, then the sidecar's new names in theirs. */
  lemma MergeNames(manifest: Option<ScriptMap>, sidecar: Option<ScriptMap>)
    requires UniqueNames(Source(manifest)) && UniqueNames(Source(sidecar))
    ensures UniqueNames(Merge(manifest, sidecar))
    ensures Names(Merge(manifest, sidecar))
         == Names(Source(manifest)) + Fresh(Keys(Source(manifest)), Source(sidecar))
  {
    MergeIsOverlay(manifest, sidecar);
    OverlayDisjoint([], Source(manifest));
    assert [] + Source(manifest) == Source(manifest);
    OverlayNames(Source(manifest), Source(sidecar));
    OverlayUnique(Source(manifest), Source(sidecar));
  }

  lemma {:induction false} EmptyKeys(m: ScriptMap)
    ensures Keys(m) == {} <==> m == []
  {
    if m != [] {
      assert m[0].name in Keys(m);
    }
  }

  /** The merged map is empty exactly when neither source contributed a script. */
  lemma MergeEmpty(manifest: Option<ScriptMap>, sidecar: Option<ScriptMap>)
    ensures Merge(manifest, sidecar) == [] <==> Source(manifest) == [] && Source(sidecar) == []
  {
    MergeKeys(manifest, sidecar);
    EmptyKeys(Merge(manifest, sidecar));
    EmptyKeys(Source(manifest));
    EmptyKeys(Source(sidecar));
  }
}
