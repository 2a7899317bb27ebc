/** Values shared by every component: optional values, JSON documents and finite sums. */
module Common {
  datatype Option<+T> = None | Some(value: T)

  newtype Byte = x: int | 0 <= x < 256
  type Bytes = seq<Byte>
}

/** JSON documents as Go's `map[string]any` holds them, and the library that reads and prints them. */
module Json {
  import opened Common

  datatype Value =
    | Null
    | Bool(b: bool)
    | Num(n: real)
    | Str(s: string)
    | Arr(items: seq<Value>)
    | Obj(fields: map<string, Value>)

  type Object = map<string, Value>

  /** `encoding/json` is outside the model: `decode` is None where Unmarshal returns an error,
      `encode` is None where Marshal does. */
  datatype Codec = Codec(decode: Bytes -> Option<Object>, encode: Object -> Option<Bytes>)

  /** The comma-ok type assertion `o[key].(string)`; "" when it fails. */
  function StringAt(o: Object, key: string): string {
    if key in o && o[key].Str? then o[key].s else ""
  }

  /** The comma-ok type assertion `o[key].(float64)`; 0 when it fails. */
  function NumberAt(o: Object, key: string): real {
    if key in o && o[key].Num? then o[key].n else 0.0
  }

  /** The comma-ok type assertion `o[key].(map[string]any)`. */
  function ObjectAt(o: Object, key: string): Option<Object> {
    if key in o && o[key].Obj? then Some(o[key].fields) else None
  }
}

/** Sums over finite sets, independent of the order in which the elements are taken. */
module Sums {
  ghost function Sum<K(!new)>(s: set<K>, f: K -> int): int {
    if s == {} then 0 else
      var k :| k in s;
      f(k) + Sum(s - {k}, f)
  }

  lemma {:induction false} SumRemove<K(!new)>(s: set<K>, f: K -> int, k: K)
    requires k in s
    ensures Sum(s, f) == f(k) + Sum(s - {k}, f)
    decreases s
  {
    var c :| c in s && Sum(s, f) == f(c) + Sum(s - {c}, f);
    if c != k {
      SumRemove(s - {c}, f, k);
      SumRemove(s - {k}, f, c);
      assert s - {c} - {k} == s - {k} - {c};
    }
  }

  lemma {:induction false} SumCongruent<K(!new)>(s: set<K>, f: K -> int, g: K -> int)
    requires forall k :: k in s ==> f(k) == g(k)
    ensures Sum(s, f) == Sum(s, g)
    decreases s
  {
    if s != {} {
      var k :| k in s;
      SumRemove(s, f, k);
      SumRemove(s, g, k);
      SumCongruent(s - {k}, f, g);
    }
  }

  lemma {:induction false} SumNonNegative<K(!new)>(s: set<K>, f: K -> int)
    requires forall k :: k in s ==> 0 <= f(k)
    ensures 0 <= Sum(s, f)
    decreases s
  {
    if s != {} {
      var k :| k in s;
      SumRemove(s, f, k);
      SumNonNegative(s - {k}, f);
    }
  }
}

/** Lists made from other lists: one entry for each element that calls for one, in order. */
module Listings {
  /** The places of the wanted elements, ascending. */
  ghost predicate Places<R>(refs: seq<R>, wanted: R -> bool, at: seq<int>) {
    && (forall j :: 0 <= j < |at| ==> 0 <= at[j] < |refs|)
    && (forall j, k :: 0 <= j < k < |at| ==> at[j] < at[k])
    && (forall i :: 0 <= i < |refs| ==> (wanted(refs[i]) <==> i in at))
  }

  /** The list holds one entry for each wanted element, in order: the j-th entry stands for the j-th of them. */
  ghost predicate Mirrors<R, T>(refs: seq<R>, wanted: R -> bool, standsFor: (T, R) -> bool, list: seq<T>) {
    exists at: seq<int> :: Places(refs, wanted, at) && Stand(refs, at, standsFor, list)
  }

  /** Entry j stands for the element at place j. */
  ghost predicate Stand<R, T>(refs: seq<R>, at: seq<int>, standsFor: (T, R) -> bool, list: seq<T>) {
    && |at| == |list| && (forall j :: 0 <= j < |at| ==> 0 <= at[j] < |refs|)
    && forall j :: 0 <= j < |list| ==> standsFor(list[j], refs[at[j]])
  }

  lemma MirrorsNothing<R, T>(wanted: R -> bool, standsFor: (T, R) -> bool)
    ensures Mirrors([], wanted, standsFor, [])
  {
    assert Places([], wanted, []) && Stand([], [], standsFor, []);
  }

  lemma PlacesSkip<R>(refs: seq<R>, r: R, wanted: R -> bool, at: seq<int>)
    requires Places(refs, wanted, at) && !wanted(r)
    ensures Places(refs + [r], wanted, at)
  {
  }

  lemma PlacesAppend<R>(refs: seq<R>, r: R, wanted: R -> bool, at: seq<int>)
    requires Places(refs, wanted, at) && wanted(r)
    ensures Places(refs + [r], wanted, at + [|refs|])
  {
    var all, at' := refs + [r], at + [|refs|];
    forall i | 0 <= i < |all| ensures wanted(all[i]) <==> i in at' {
      assert i < |refs| ==> (wanted(refs[i]) <==> i in at);
      assert at'[|at|] == |refs|;
    }
  }

  lemma StandAppend<R, T>(refs: seq<R>, r: R, at: seq<int>, standsFor: (T, R) -> bool, list: seq<T>, t: T)
    requires Stand(refs, at, standsFor, list) && standsFor(t, r)
    ensures Stand(refs + [r], at + [|refs|], standsFor, list + [t])
  {
    var all, at', list' := refs + [r], at + [|refs|], list + [t];
    forall j | 0 <= j < |list'| ensures standsFor(list'[j], all[at'[j]]) {
      if j < |list| {
        assert list'[j] == list[j] && all[at'[j]] == refs[at[j]];
      } else {
        assert list'[j] == t && all[at'[j]] == r;
      }
    }
  }

  lemma StandSkip<R, T>(refs: seq<R>, r: R, at: seq<int>, standsFor: (T, R) -> bool, list: seq<T>)
    requires Stand(refs, at, standsFor, list)
    ensures Stand(refs + [r], at, standsFor, list)
  {
    var all := refs + [r];
    forall j | 0 <= j < |list| ensures standsFor(list[j], all[at[j]]) {
      assert all[at[j]] == refs[at[j]];
    }
  }

  /** One element more: nothing, or one entry that stands for it. */
  lemma MirrorsSnoc<R, T>(
    refs: seq<R>, r: R, wanted: R -> bool, standsFor: (T, R) -> bool, list: seq<T>, more: seq<T>)
    requires Mirrors(refs, wanted, standsFor, list)
    requires if wanted(r) then |more| == 1 && standsFor(more[0], r) else more == []
    ensures Mirrors(refs + [r], wanted, standsFor, list + more)
  {
    var at: seq<int> :| Places(refs, wanted, at) && Stand(refs, at, standsFor, list);
    if wanted(r) {
      PlacesAppend(refs, r, wanted, at);
      StandAppend(refs, r, at, standsFor, list, more[0]);
      assert list + more == list + [more[0]];
    } else {
      PlacesSkip(refs, r, wanted, at);
      StandSkip(refs, r, at, standsFor, list);
      assert list + more == list;
    }
  }
}
