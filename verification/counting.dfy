/** `Series.value_counts()` and the sorts applied to its result: a table of
    (value, number of occurrences) entries, one per distinct value. */
module Counting {
  import opened Text

  /** One entry of a frequency table: a value and how often it occurs. */
  datatype Entry = Entry(key: string, count: nat)

  /** The orders the summary sorts frequency tables by: `sort_index()`,
      `sort_values()` and `sort_values(ascending=False)`. */
  datatype Order = KeyAscending | CountAscending | CountDescending

  predicate NoDup(s: seq<string>)
  {
    forall i, j :: 0 <= i < j < |s| ==> s[i] != s[j]
  }

  function Keys(t: seq<Entry>): (r: seq<string>)
    ensures |r| == |t|
    ensures forall i :: 0 <= i < |t| ==> r[i] == t[i].key
  {
    if t == [] then [] else [t[0].key] + Keys(t[1..])
  }

  function SumCounts(t: seq<Entry>): nat
  {
    if t == [] then 0 else t[0].count + SumCounts(t[1..])
  }

  /** `t` is the frequency table of `col`: one entry per distinct value of
      `col`, none for anything else, each with that value's exact number of
      occurrences. */
  predicate IsCountTable(col: seq<string>, t: seq<Entry>)
  {
    && NoDup(Keys(t))
    && (forall i :: 0 <= i < |t| ==> t[i].key in col && t[i].count == multiset(col)[t[i].key])
    && (forall v :: v in col ==> v in Keys(t))
  }

  /** The distinct values of `col` in order of first occurrence. */
  function Distinct(col: seq<string>): (r: seq<string>)
    ensures forall v :: v in r <==> v in col
    ensures NoDup(r)
  {
    if col == [] then []
    else
      var d := Distinct(col[..|col| - 1]);
      var x := col[|col| - 1];
      assert col == col[..|col| - 1] + [x];
      if x in d then d else d + [x]
  }

  /** One entry per value of `keys`, counted in `col`. */
  function Pairs(keys: seq<string>, col: seq<string>): (r: seq<Entry>)
    ensures |r| == |keys|
    ensures forall i :: 0 <= i < |keys| ==> r[i] == Entry(keys[i], multiset(col)[keys[i]])
  {
    if keys == [] then [] else [Entry(keys[0], multiset(col)[keys[0]])] + Pairs(keys[1..], col)
  }

  /** The unsorted frequency table of `col`. */
  function Tally(col: seq<string>): seq<Entry>
  {
    Pairs(Distinct(col), col)
  }

  lemma {:induction false} PairsSnocValue(keys: seq<string>, p: seq<string>, x: string)
    requires NoDup(keys)
    ensures SumCounts(Pairs(keys, p + [x])) == SumCounts(Pairs(keys, p)) + (if x in keys then 1 else 0)
  {
    if keys != [] {
      assert NoDup(keys[1..]) by {
        forall i, j | 0 <= i < j < |keys| - 1 ensures keys[1..][i] != keys[1..][j] {
          assert keys[1..][i] == keys[i + 1] && keys[1..][j] == keys[j + 1];
        }
      }
      PairsSnocValue(keys[1..], p, x);
      assert x in keys <==> x == keys[0] || x in keys[1..];
      assert x == keys[0] ==> x !in keys[1..];
    }
  }

  lemma {:induction false} PairsSnocKey(keys: seq<string>, col: seq<string>, x: string)
    ensures SumCounts(Pairs(keys + [x], col)) == SumCounts(Pairs(keys, col)) + multiset(col)[x]
  {
    if keys == [] {
      assert Pairs([x], col) == [Entry(x, multiset(col)[x])];
    } else {
      assert (keys + [x])[1..] == keys[1..] + [x];
      PairsSnocKey(keys[1..], col, x);
    }
  }

  /** The tally is the frequency table of `col`, and its counts add up to
      the number of values in `col`. */
  lemma {:induction false} TallyIsCountTable(col: seq<string>)
    ensures IsCountTable(col, Tally(col))
    ensures SumCounts(Tally(col)) == |col|
  {
    var t := Tally(col);
    assert Keys(t) == Distinct(col);
    if col != [] {
      var p, x := col[..|col| - 1], col[|col| - 1];
      assert col == p + [x];
      var d := Distinct(p);
      TallyIsCountTable(p);
      PairsSnocValue(d, p, x);
      if x !in d {
        PairsSnocKey(d, col, x);
        assert multiset(p)[x] == 0;
      }
    }
  }

  predicate Le(o: Order, a: Entry, b: Entry)
  {
    match o
    case KeyAscending => StrLe(a.key, b.key)
    case CountAscending => a.count <= b.count
    case CountDescending => a.count >= b.count
  }

  lemma LeTotal(o: Order, a: Entry, b: Entry)
    ensures Le(o, a, b) || Le(o, b, a)
  {
    if o == KeyAscending {
      StrLeTotal(a.key, b.key);
    }
  }

  lemma LeTransitive(o: Order, a: Entry, b: Entry, c: Entry)
    requires Le(o, a, b) && Le(o, b, c)
    ensures Le(o, a, c)
  {
    if o == KeyAscending {
      StrLeTransitive(a.key, b.key, c.key);
    }
  }

  predicate Sorted(o: Order, t: seq<Entry>)
  {
    forall i, j :: 0 <= i < j < |t| ==> Le(o, t[i], t[j])
  }

  /** Insertion of one entry into a sorted table. */
  function Insert(o: Order, x: Entry, t: seq<Entry>): seq<Entry>
  {
    if t == [] then [x]
    else if Le(o, x, t[0]) then [x] + t
    else [t[0]] + Insert(o, x, t[1..])
  }

  /** A sort of a frequency table; among entries that tie under `o` it
      fixes one order, which is one of the orders pandas may produce. */
  function Sort(o: Order, t: seq<Entry>): seq<Entry>
  {
    if t == [] then [] else Insert(o, t[0], Sort(o, t[1..]))
  }

  lemma {:induction false} InsertPermutes(o: Order, x: Entry, t: seq<Entry>)
    ensures multiset(Insert(o, x, t)) == multiset(t) + multiset{x}
    ensures SumCounts(Insert(o, x, t)) == SumCounts(t) + x.count
  {
    if t != [] && !Le(o, x, t[0]) {
      InsertPermutes(o, x, t[1..]);
      assert t == [t[0]] + t[1..];
    }
  }

  lemma NoDupCons(k: string, s: seq<string>)
    ensures NoDup([k] + s) <==> k !in s && NoDup(s)
  {
    var r := [k] + s;
    if k !in s && NoDup(s) {
      forall i, j | 0 <= i < j < |r| ensures r[i] != r[j] {
        assert r[j] == s[j - 1];
        if i > 0 { assert r[i] == s[i - 1]; }
      }
    }
    if NoDup(r) {
      forall i, j | 0 <= i < j < |s| ensures s[i] != s[j] {
        assert s[i] == r[i + 1] && s[j] == r[j + 1];
      }
      forall j | 0 <= j < |s| ensures s[j] != k {
        assert r[0] != r[j + 1];
      }
    }
  }

  lemma KeysCons(e: Entry, t: seq<Entry>)
    ensures Keys([e] + t) == [e.key] + Keys(t)
  {
  }

  lemma {:induction false} InsertKeySet(o: Order, x: Entry, t: seq<Entry>)
    ensures forall k :: k in Keys(Insert(o, x, t)) <==> k == x.key || k in Keys(t)
  {
    if t != [] {
      assert t == [t[0]] + t[1..];
      KeysCons(t[0], t[1..]);
      if Le(o, x, t[0]) {
        KeysCons(x, t);
      } else {
        InsertKeySet(o, x, t[1..]);
        KeysCons(t[0], Insert(o, x, t[1..]));
      }
    }
  }

  lemma {:induction false} InsertNoDup(o: Order, x: Entry, t: seq<Entry>)
    requires NoDup(Keys(t)) && x.key !in Keys(t)
    ensures NoDup(Keys(Insert(o, x, t)))
  {
    if t == [] {
      assert Keys([x]) == [x.key];
    } else {
      assert t == [t[0]] + t[1..];
      KeysCons(t[0], t[1..]);
      NoDupCons(t[0].key, Keys(t[1..]));
      if Le(o, x, t[0]) {
        KeysCons(x, t);
        NoDupCons(x.key, Keys(t));
      } else {
        InsertNoDup(o, x, t[1..]);
        InsertKeySet(o, x, t[1..]);
        KeysCons(t[0], Insert(o, x, t[1..]));
        NoDupCons(t[0].key, Keys(Insert(o, x, t[1..])));
      }
    }
  }

  lemma SortedCons(o: Order, h: Entry, t: seq<Entry>)
    requires Sorted(o, t)
    requires forall j :: 0 <= j < |t| ==> Le(o, h, t[j])
    ensures Sorted(o, [h] + t)
  {
  }

  lemma {:induction false} InsertSorted(o: Order, x: Entry, t: seq<Entry>)
    requires Sorted(o, t)
    ensures Sorted(o, Insert(o, x, t))
  {
    if t == [] {
    } else if Le(o, x, t[0]) {
      forall j | 0 <= j < |t| ensures Le(o, x, t[j]) {
        if j > 0 { LeTransitive(o, x, t[0], t[j]); }
      }
      SortedCons(o, x, t);
    } else {
      var rest := Insert(o, x, t[1..]);
      InsertSorted(o, x, t[1..]);
      InsertPermutes(o, x, t[1..]);
      LeTotal(o, x, t[0]);
      forall j | 0 <= j < |rest| ensures Le(o, t[0], rest[j]) {
        assert rest[j] in multiset(rest);
        if rest[j] != x {
          assert rest[j] in multiset(t[1..]);
          var k :| 0 <= k < |t[1..]| && t[1..][k] == rest[j];
          assert t[1..][k] == t[k + 1];
        }
      }
      assert Sorted(o, t[1..]) by {
        forall i, j | 0 <= i < j < |t| - 1 ensures Le(o, t[1..][i], t[1..][j]) {
          assert t[1..][i] == t[i + 1] && t[1..][j] == t[j + 1];
        }
      }
      SortedCons(o, t[0], rest);
    }
  }

  lemma {:induction false} SortPermutes(o: Order, t: seq<Entry>)
    ensures multiset(Sort(o, t)) == multiset(t)
    ensures SumCounts(Sort(o, t)) == SumCounts(t)
  {
    if t != [] {
      SortPermutes(o, t[1..]);
      InsertPermutes(o, t[0], Sort(o, t[1..]));
      assert t == [t[0]] + t[1..];
    }
  }

  lemma {:induction false} SortKeys(o: Order, t: seq<Entry>)
    ensures forall k :: k in Keys(Sort(o, t)) <==> k in Keys(t)
    ensures NoDup(Keys(t)) ==> NoDup(Keys(Sort(o, t)))
  {
    if t != [] {
      SortKeys(o, t[1..]);
      InsertKeySet(o, t[0], Sort(o, t[1..]));
      assert t == [t[0]] + t[1..];
      KeysCons(t[0], t[1..]);
      if NoDup(Keys(t)) {
        NoDupCons(t[0].key, Keys(t[1..]));
        InsertNoDup(o, t[0], Sort(o, t[1..]));
      }
    }
  }

  lemma {:induction false} SortSorted(o: Order, t: seq<Entry>)
    ensures Sorted(o, Sort(o, t))
  {
    if t != [] {
      SortSorted(o, t[1..]);
      InsertSorted(o, t[0], Sort(o, t[1..]));
    }
  }

  /** Sorting yields a sorted permutation of the table with the same keys
      and the same total count. */
  lemma SortFacts(o: Order, t: seq<Entry>)
    ensures multiset(Sort(o, t)) == multiset(t)
    ensures |Sort(o, t)| == |t|
    ensures Sorted(o, Sort(o, t))
    ensures SumCounts(Sort(o, t)) == SumCounts(t)
    ensures forall k :: k in Keys(Sort(o, t)) <==> k in Keys(t)
    ensures NoDup(Keys(t)) ==> NoDup(Keys(Sort(o, t)))
  {
    SortPermutes(o, t);
    SortKeys(o, t);
    SortSorted(o, t);
    assert |multiset(Sort(o, t))| == |multiset(t)|;
  }

  /** Sorting a frequency table keeps it the frequency table of the same
      column. */
  lemma SortKeepsCountTable(o: Order, col: seq<string>, t: seq<Entry>)
    requires IsCountTable(col, t)
    ensures IsCountTable(col, Sort(o, t))
    ensures Sorted(o, Sort(o, t))
    ensures SumCounts(Sort(o, t)) == SumCounts(t)
  {
    SortFacts(o, t);
    var s := Sort(o, t);
    forall i | 0 <= i < |s| ensures s[i].key in col && s[i].count == multiset(col)[s[i].key] {
      assert s[i] in multiset(t);
      var j :| 0 <= j < |t| && t[j] == s[i];
    }
  }

  /** `col.value_counts()`: the frequency table of `col`, by descending
      count. */
  function ValueCounts(col: seq<string>): (r: seq<Entry>)
    ensures IsCountTable(col, r)
    ensures Sorted(CountDescending, r)
    ensures SumCounts(r) == |col|
  {
    TallyIsCountTable(col);
    SortKeepsCountTable(CountDescending, col, Tally(col));
    Sort(CountDescending, Tally(col))
  }

  /** The first `n` entries of a frequency table sorted by descending count
      keep their exact counts and their order; when nothing is cut off,
      every value is listed. */
  lemma LeadingEntries(col: seq<string>, t: seq<Entry>, n: nat)
    requires IsCountTable(col, t) && Sorted(CountDescending, t)
    requires n <= |t|
    ensures NoDup(Keys(t[..n]))
    ensures forall i :: 0 <= i < n ==> t[..n][i].key in col && t[..n][i].count == multiset(col)[t[..n][i].key]
    ensures Sorted(CountDescending, t[..n])
    ensures n == |t| ==> forall v :: v in col ==> v in Keys(t[..n])
  {
    assert Keys(t[..n]) == Keys(t)[..n];
    if n == |t| {
      assert t[..n] == t;
    }
  }

  /** They are the `n` most frequent values: no value left out occurs more
      often than one kept. */
  lemma LeadingEntriesAreMostFrequent(col: seq<string>, t: seq<Entry>, n: nat)
    requires IsCountTable(col, t) && Sorted(CountDescending, t)
    requires n <= |t|
    ensures forall v, i :: v in col && v !in Keys(t[..n]) && 0 <= i < n ==> multiset(col)[v] <= t[i].count
  {
    assert Keys(t[..n]) == Keys(t)[..n];
    forall v, i | v in col && v !in Keys(t[..n]) && 0 <= i < n ensures multiset(col)[v] <= t[i].count {
      assert v in Keys(t);
      var m :| 0 <= m < |t| && Keys(t)[m] == v;
      assert m >= n;
      assert Le(CountDescending, t[i], t[m]);
    }
  }
}
