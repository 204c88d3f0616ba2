/**
 * The quote data the cache holds and returns (`OHLCDataFormat` in
 * src/dataCache.ts): a JavaScript object from date strings to bars. An
 * object's keys are kept in insertion order, so it is modelled as the
 * sequence of its entries in that order, with no key twice.
 */
module Series {
  import opened Wrappers
  import opened StringOrder

  /** One bar (`OHLCWithVolume`): prices, volume and the precomputed indicators. */
  datatype Quote = Quote(
    close: real, high: real, low: real, open: real, volume: real,
    ema20: real, ema50: real, ema100: real, ema200: real,
    atr: real, stochK: real, stochD: real)

  type Entry = (string, Quote)

  /** The entries of an `OHLCDataFormat` object, in the order `Object.keys` lists them. */
  type Series = seq<Entry>

  /** `Object.keys(s)`. */
  function Keys(s: Series): (ks: seq<string>)
    ensures |ks| == |s|
  {
    if s == [] then [] else [s[0].0] + Keys(s[1..])
  }

  /** Key `i` is the key of entry `i`. */
  lemma {:induction false} KeysAt(s: Series, i: int)
    requires 0 <= i < |s|
    ensures Keys(s)[i] == s[i].0
  {
    if i > 0 {
      KeysAt(s[1..], i - 1);
    }
  }

  /** A key is listed exactly when some entry has it. */
  lemma {:induction false} InKeys(s: Series, k: string)
    ensures k in Keys(s) <==> exists i :: 0 <= i < |s| && s[i].0 == k
  {
    if s != [] {
      InKeys(s[1..], k);
      if s[0].0 != k && exists i :: 0 <= i < |s| && s[i].0 == k {
        var i :| 0 <= i < |s| && s[i].0 == k;
        assert s[1..][i - 1].0 == k;
      }
    }
  }

  /** What every JavaScript object satisfies: no key occurs twice. */
  predicate UniqueKeys(s: Series)
  {
    forall i, j :: 0 <= i < j < |s| ==> s[i].0 != s[j].0
  }

  /** `s[k]`: the value stored under key `k`, if any. */
  function Get(s: Series, k: string): (r: Option<Quote>)
    ensures r.Some? <==> k in Keys(s)
    ensures r.Some? ==> (k, r.value) in s
  {
    if s == [] then None
    else if s[0].0 == k then Some(s[0].1)
    else Get(s[1..], k)
  }

  /** In an object, reading the key of an entry gives that entry's value. */
  lemma {:induction false} GetEntry(s: Series, i: int)
    requires UniqueKeys(s) && 0 <= i < |s|
    ensures Get(s, s[i].0) == Some(s[i].1)
  {
    if i > 0 {
      GetEntry(s[1..], i - 1);
    }
  }

  /** The key at position `i` of the reversed key list is the key of entry `|s| - 1 - i`. */
  lemma {:induction false} ReversedKeyAt(s: Series, i: int)
    requires 0 <= i < |s|
    ensures Reverse(Keys(s))[i] == s[|s| - 1 - i].0
  {
    if i < |s| - 1 {
      ReversedKeyAt(s[1..], i);
    }
  }

  /** `s[k] = v`: overwrite the value of an existing key in place, or add the key at the end. */
  function Put(s: Series, k: string, v: Quote): (r: Series)
    ensures k !in Keys(s) ==> r == s + [(k, v)]
  {
    if s == [] then [(k, v)]
    else if s[0].0 == k then [(k, v)] + s[1..]
    else [s[0]] + Put(s[1..], k, v)
  }

  /** Overwriting an existing key keeps the keys and their order. */
  lemma {:induction false} PutExistingKeys(s: Series, k: string, v: Quote)
    requires k in Keys(s)
    ensures Keys(Put(s, k, v)) == Keys(s)
  {
    if s[0].0 != k {
      PutExistingKeys(s[1..], k, v);
    }
  }

  /** After `s[k] = v`, reading `k` gives `v` and reading any other key gives what it gave before. */
  lemma {:induction false} PutGet(s: Series, k: string, v: Quote, k': string)
    ensures Get(Put(s, k, v), k') == if k' == k then Some(v) else Get(s, k')
  {
    if s != [] && s[0].0 != k {
      PutGet(s[1..], k, v, k');
    }
  }

  /** `Array.prototype.reverse` on a list. */
  function Reverse<T>(s: seq<T>): (r: seq<T>)
    ensures |r| == |s|
  {
    if s == [] then [] else Reverse(s[1..]) + [s[0]]
  }

  /** Position `i` of the reversed list holds position `|s| - 1 - i` of the list. */
  lemma {:induction false} ReverseAt<T>(s: seq<T>, i: int)
    requires 0 <= i < |s|
    ensures Reverse(s)[i] == s[|s| - 1 - i]
  {
    if i < |s| - 1 {
      ReverseAt(s[1..], i);
    }
  }

  lemma {:induction false} ReverseConcat<T>(a: seq<T>, b: seq<T>)
    ensures Reverse(a + b) == Reverse(b) + Reverse(a)
  {
    if a == [] {
      assert a + b == b;
    } else {
      assert (a + b)[1..] == a[1..] + b;
      ReverseConcat(a[1..], b);
    }
  }

  lemma {:induction false} ReverseReverse<T>(s: seq<T>)
    ensures Reverse(Reverse(s)) == s
  {
    if s != [] {
      ReverseConcat(Reverse(s[1..]), [s[0]]);
      ReverseReverse(s[1..]);
    }
  }

  lemma {:induction false} ReverseMembership<T>(s: seq<T>, x: T)
    ensures x in Reverse(s) <==> x in s
  {
    if s != [] {
      ReverseMembership(s[1..], x);
      assert s == [s[0]] + s[1..];
    }
  }

  // ---------------------------------------------------------------------
  // The range filter of getDailyData, as a specification.
  // ---------------------------------------------------------------------

  /** The entries whose key is `>= dateFrom` under string order, in their original order. */
  function KeepFrom(s: Series, dateFrom: string): (r: Series)
    ensures |r| <= |s|
  {
    if s == [] then []
    else (if AtLeast(s[0].0, dateFrom) then [s[0]] else []) + KeepFrom(s[1..], dateFrom)
  }

  /**
   * What `getDailyData` returns from the cached object `s`: the entries with
   * key `>= dateFrom`, inserted while walking the keys from last to first.
   */
  function RangeFilter(s: Series, dateFrom: string): (r: Series)
    ensures |r| <= |s|
  {
    Reverse(KeepFrom(s, dateFrom))
  }

  lemma {:induction false} KeepFromMembership(s: Series, dateFrom: string, e: Entry)
    ensures e in KeepFrom(s, dateFrom) <==> e in s && AtLeast(e.0, dateFrom)
  {
    if s != [] {
      KeepFromMembership(s[1..], dateFrom, e);
      assert s == [s[0]] + s[1..];
    }
  }

  lemma {:induction false} KeepFromConcat(a: Series, b: Series, dateFrom: string)
    ensures KeepFrom(a + b, dateFrom) == KeepFrom(a, dateFrom) + KeepFrom(b, dateFrom)
  {
    if a != [] {
      assert (a + b)[1..] == a[1..] + b;
      KeepFromConcat(a[1..], b, dateFrom);
    } else {
      assert a + b == b;
    }
  }

  lemma {:induction false} KeepFromUnique(s: Series, dateFrom: string)
    requires UniqueKeys(s)
    ensures UniqueKeys(KeepFrom(s, dateFrom))
  {
    if s != [] {
      KeepFromUnique(s[1..], dateFrom);
      var rest := KeepFrom(s[1..], dateFrom);
      forall e | e in rest
        ensures e.0 != s[0].0
      {
        KeepFromMembership(s[1..], dateFrom, e);
      }
    }
  }

  lemma {:induction false} KeepFromIdempotent(s: Series, dateFrom: string)
    ensures KeepFrom(KeepFrom(s, dateFrom), dateFrom) == KeepFrom(s, dateFrom)
  {
    if s != [] {
      KeepFromIdempotent(s[1..], dateFrom);
      var head := if AtLeast(s[0].0, dateFrom) then [s[0]] else [];
      KeepFromConcat(head, KeepFrom(s[1..], dateFrom), dateFrom);
      assert KeepFrom(head, dateFrom) == head;
    }
  }

  /** Keeping the entries of a reversed object is reversing the kept entries. */
  lemma {:induction false} KeepFromReverse(s: Series, dateFrom: string)
    ensures KeepFrom(Reverse(s), dateFrom) == Reverse(KeepFrom(s, dateFrom))
  {
    if s != [] {
      KeepFromReverse(s[1..], dateFrom);
      var head := if AtLeast(s[0].0, dateFrom) then [s[0]] else [];
      KeepFromConcat(Reverse(s[1..]), [s[0]], dateFrom);
      assert KeepFrom([s[0]], dateFrom) == head;
      ReverseConcat(head, KeepFrom(s[1..], dateFrom));
      assert Reverse(head) == head;
    }
  }

  // ---------------------------------------------------------------------
  // What the filter promises.
  // ---------------------------------------------------------------------

  /** An entry is returned exactly when it is cached and its key is `>= dateFrom`; its record is the cached one. */
  lemma RangeFilterMembership(s: Series, dateFrom: string, e: Entry)
    ensures e in RangeFilter(s, dateFrom) <==> e in s && AtLeast(e.0, dateFrom)
  {
    ReverseMembership(KeepFrom(s, dateFrom), e);
    KeepFromMembership(s, dateFrom, e);
  }

  /** A key is returned exactly when it is cached and `>= dateFrom` (the bound is inclusive). */
  lemma RangeFilterKeys(s: Series, dateFrom: string, k: string)
    ensures k in Keys(RangeFilter(s, dateFrom)) <==> k in Keys(s) && AtLeast(k, dateFrom)
  {
    var r := RangeFilter(s, dateFrom);
    InKeys(r, k);
    InKeys(s, k);
    if k in Keys(r) {
      var i :| 0 <= i < |r| && r[i].0 == k;
      RangeFilterMembership(s, dateFrom, r[i]);
      var j :| 0 <= j < |s| && s[j] == r[i];
    }
    if k in Keys(s) && AtLeast(k, dateFrom) {
      var j :| 0 <= j < |s| && s[j].0 == k;
      RangeFilterMembership(s, dateFrom, s[j]);
      var i :| 0 <= i < |r| && r[i] == s[j];
    }
  }

  /** The result is again an object: no key twice. */
  lemma RangeFilterUnique(s: Series, dateFrom: string)
    requires UniqueKeys(s)
    ensures UniqueKeys(RangeFilter(s, dateFrom))
  {
    KeepFromUnique(s, dateFrom);
    var kept := KeepFrom(s, dateFrom);
    var r := RangeFilter(s, dateFrom);
    forall i, j | 0 <= i < j < |r|
      ensures r[i].0 != r[j].0
    {
      ReverseAt(kept, i);
      ReverseAt(kept, j);
    }
  }

  /**
   * The result lists the entries in the reverse of their cached order: the
   * kept entries of a later part of the object come before those of an
   * earlier part.
   */
  lemma RangeFilterReversesOrder(a: Series, b: Series, dateFrom: string)
    ensures RangeFilter(a + b, dateFrom) == RangeFilter(b, dateFrom) + RangeFilter(a, dateFrom)
  {
    KeepFromConcat(a, b, dateFrom);
    ReverseConcat(KeepFrom(a, dateFrom), KeepFrom(b, dateFrom));
  }

  /**
   * Filtering a filtered result with the same cutoff keeps every entry: the
   * entries come back in cached order, so the key set is the same.
   */
  lemma RangeFilterIdempotent(s: Series, dateFrom: string)
    ensures RangeFilter(RangeFilter(s, dateFrom), dateFrom) == KeepFrom(s, dateFrom)
    ensures forall e :: e in RangeFilter(RangeFilter(s, dateFrom), dateFrom) <==> e in RangeFilter(s, dateFrom)
  {
    KeepFromReverse(KeepFrom(s, dateFrom), dateFrom);
    KeepFromIdempotent(s, dateFrom);
    ReverseReverse(KeepFrom(s, dateFrom));
    forall e
      ensures e in KeepFrom(s, dateFrom) <==> e in RangeFilter(s, dateFrom)
    {
      ReverseMembership(KeepFrom(s, dateFrom), e);
    }
  }

  /** A later cutoff keeps a subset of what an earlier cutoff keeps. */
  lemma RangeFilterMonotone(s: Series, earlier: string, later: string, e: Entry)
    requires AtLeast(later, earlier)
    requires e in RangeFilter(s, later)
    ensures e in RangeFilter(s, earlier)
  {
    RangeFilterMembership(s, later, e);
    AtLeastTransitive(e.0, later, earlier);
    RangeFilterMembership(s, earlier, e);
  }
}
