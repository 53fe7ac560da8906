/** The peak records and the stable descending sorts the script applies to
    them: first by fold enrichment, then by -log10(pvalue). */
module Sorting {
  /** One MACS2 peak, with the nine columns of the input table. The score
      columns are integers standing for the parsed numbers; pvalue and
      qvalue hold -log10(pvalue) and -log10(qvalue). */
  datatype Peak = Peak(
    chr: seq<char>,
    start: int,
    end: int,
    length: int,
    absSummit: int,
    pileup: int,
    pvalue: int,
    foldEnrichment: int,
    qvalue: int)

  /** The two columns the script sorts on. */
  datatype SortKey = FoldEnrichment | PValue

  function Key(p: Peak, k: SortKey): int {
    match k
    case FoldEnrichment => p.foldEnrichment
    case PValue => p.pvalue
  }

  /** Non-increasing in the key. */
  predicate SortedBy(k: SortKey, s: seq<Peak>) {
    forall i, j :: 0 <= i < j < |s| ==> Key(s[i], k) >= Key(s[j], k)
  }

  /** Insert x in front of the first element whose key is not larger. */
  function InsertBy(k: SortKey, x: Peak, s: seq<Peak>): seq<Peak> {
    if s == [] then [x]
    else if Key(s[0], k) <= Key(x, k) then [x] + s
    else [s[0]] + InsertBy(k, x, s[1..])
  }

  /** Insertion adds exactly the new peak. */
  lemma {:induction false} InsertByPermutes(k: SortKey, x: Peak, s: seq<Peak>)
    ensures multiset(InsertBy(k, x, s)) == multiset(s) + multiset{x}
  {
    if s != [] && Key(s[0], k) > Key(x, k) {
      assert s == [s[0]] + s[1..];
      InsertByPermutes(k, x, s[1..]);
    }
  }

  /** The inserted list starts with x or with the old head. */
  lemma InsertByHead(k: SortKey, x: Peak, s: seq<Peak>)
    ensures |InsertBy(k, x, s)| == |s| + 1
    ensures InsertBy(k, x, s)[0] == x || (s != [] && InsertBy(k, x, s)[0] == s[0])
  {
    if s != [] && Key(s[0], k) > Key(x, k) {
      InsertByHead(k, x, s[1..]);
    }
  }

  /** A sorted list stays sorted behind a head no smaller than its first element. */
  lemma ConsSorted(k: SortKey, a: Peak, t: seq<Peak>)
    requires SortedBy(k, t) && (t != [] ==> Key(a, k) >= Key(t[0], k))
    ensures SortedBy(k, [a] + t)
  {
    var r := [a] + t;
    forall i, j | 0 <= i < j < |r| ensures Key(r[i], k) >= Key(r[j], k) {
      if i > 0 {
        assert r[i] == t[i - 1] && r[j] == t[j - 1];
      } else {
        assert r[j] == t[j - 1];
        assert Key(t[0], k) >= Key(t[j - 1], k);
      }
    }
  }

  lemma {:induction false} InsertBySorted(k: SortKey, x: Peak, s: seq<Peak>)
    requires SortedBy(k, s)
    ensures SortedBy(k, InsertBy(k, x, s))
  {
    if s != [] && Key(s[0], k) > Key(x, k) {
      var t := InsertBy(k, x, s[1..]);
      InsertBySorted(k, x, s[1..]);
      InsertByHead(k, x, s[1..]);
      assert Key(s[0], k) >= Key(t[0], k);
      ConsSorted(k, s[0], t);
    }
  }

  /** One pass of TabFile.sort(sort_func, reverse=True), taken to be a
      stable sort in descending key order, as sorted(key=..., reverse=True)
      is: elements with equal keys keep their order. */
  function SortBy(k: SortKey, s: seq<Peak>): (r: seq<Peak>)
    ensures multiset(r) == multiset(s)
    ensures SortedBy(k, r)
  {
    if s == [] then []
    else
      assert s == [s[0]] + s[1..];
      InsertBySorted(k, s[0], SortBy(k, s[1..]));
      InsertByPermutes(k, s[0], SortBy(k, s[1..]));
      InsertBy(k, s[0], SortBy(k, s[1..]))
  }

  /** The peaks of s whose key k is v, in their order in s. */
  function WithKey(k: SortKey, v: int, s: seq<Peak>): seq<Peak> {
    if s == [] then []
    else KeyedBy(k, v, s[0]) + WithKey(k, v, s[1..])
  }

  /** The peak itself when its key k is v, nothing otherwise. */
  function KeyedBy(k: SortKey, v: int, x: Peak): seq<Peak> {
    if Key(x, k) == v then [x] else []
  }

  lemma WithKeyCons(k: SortKey, v: int, h: Peak, t: seq<Peak>)
    ensures WithKey(k, v, [h] + t) == KeyedBy(k, v, h) + WithKey(k, v, t)
  {
    assert ([h] + t)[0] == h && ([h] + t)[1..] == t;
  }

  /** Inserting by one key puts the new peak in front of the peaks with its
      key and moves no other peak past one with an equal key. */
  lemma {:induction false} WithKeyInsert(k: SortKey, v: int, x: Peak, u: seq<Peak>)
    ensures WithKey(k, v, InsertBy(k, x, u)) == KeyedBy(k, v, x) + WithKey(k, v, u)
  {
    if u == [] {
      WithKeyCons(k, v, x, []);
    } else if Key(u[0], k) <= Key(x, k) {
      WithKeyCons(k, v, x, u);
    } else {
      var h, u' := u[0], u[1..];
      var t := InsertBy(k, x, u');
      assert InsertBy(k, x, u) == [h] + t;
      assert u == [h] + u';
      WithKeyInsert(k, v, x, u');
      WithKeyInsertStep(k, v, x, h, u', t);
    }
  }

  /** A peak with a larger key that stays in front of x does not change
      the order of the peaks with key v. */
  lemma WithKeyInsertStep(k: SortKey, v: int, x: Peak, h: Peak, u: seq<Peak>, t: seq<Peak>)
    requires Key(h, k) > Key(x, k)
    requires WithKey(k, v, t) == KeyedBy(k, v, x) + WithKey(k, v, u)
    ensures WithKey(k, v, [h] + t) == KeyedBy(k, v, x) + WithKey(k, v, [h] + u)
  {
    WithKeyCons(k, v, h, t);
    WithKeyCons(k, v, h, u);
    assert KeyedBy(k, v, h) == [] || KeyedBy(k, v, x) == [];
  }

  /** One pass is stable: peaks with equal keys keep their input order. */
  lemma {:induction false} SortByStable(k: SortKey, v: int, s: seq<Peak>)
    ensures WithKey(k, v, SortBy(k, s)) == WithKey(k, v, s)
  {
    if s != [] {
      var t := s[1..];
      var r := SortBy(k, t);
      assert SortBy(k, s) == InsertBy(k, s[0], r);
      SortByStable(k, v, t);
      WithKeyInsert(k, v, s[0], r);
      assert s == [s[0]] + t;
      WithKeyCons(k, v, s[0], t);
    }
  }

  /** y comes no earlier than x in the combined order: pvalue descending,
      then fold enrichment descending. */
  predicate NotAbove(y: Peak, x: Peak) {
    y.pvalue < x.pvalue || (y.pvalue == x.pvalue && y.foldEnrichment <= x.foldEnrichment)
  }

  predicate SortedByBoth(s: seq<Peak>) {
    forall i, j :: 0 <= i < j < |s| ==> NotAbove(s[j], s[i])
  }

  function InsertByBoth(x: Peak, s: seq<Peak>): seq<Peak> {
    if s == [] then [x]
    else if NotAbove(s[0], x) then [x] + s
    else [s[0]] + InsertByBoth(x, s[1..])
  }

  /** Insertion by the pair adds exactly the new peak. */
  lemma {:induction false} InsertByBothPermutes(x: Peak, s: seq<Peak>)
    ensures multiset(InsertByBoth(x, s)) == multiset(s) + multiset{x}
  {
    if s != [] && !NotAbove(s[0], x) {
      assert s == [s[0]] + s[1..];
      InsertByBothPermutes(x, s[1..]);
    }
  }

  lemma InsertByBothHead(x: Peak, s: seq<Peak>)
    ensures |InsertByBoth(x, s)| == |s| + 1
    ensures InsertByBoth(x, s)[0] == x || (s != [] && InsertByBoth(x, s)[0] == s[0])
  {
    if s != [] && !NotAbove(s[0], x) {
      InsertByBothHead(x, s[1..]);
    }
  }

  lemma ConsSortedByBoth(a: Peak, t: seq<Peak>)
    requires SortedByBoth(t) && (t != [] ==> NotAbove(t[0], a))
    ensures SortedByBoth([a] + t)
  {
    var r := [a] + t;
    forall i, j | 0 <= i < j < |r| ensures NotAbove(r[j], r[i]) {
      if i > 0 {
        assert r[i] == t[i - 1] && r[j] == t[j - 1];
      } else {
        assert r[j] == t[j - 1];
        assert NotAbove(t[j - 1], t[0]);
      }
    }
  }

  lemma {:induction false} InsertByBothSorted(x: Peak, s: seq<Peak>)
    requires SortedByBoth(s)
    ensures SortedByBoth(InsertByBoth(x, s))
  {
    if s != [] && !NotAbove(s[0], x) {
      var t := InsertByBoth(x, s[1..]);
      InsertByBothSorted(x, s[1..]);
      InsertByBothHead(x, s[1..]);
      assert NotAbove(t[0], s[0]);
      ConsSortedByBoth(s[0], t);
    }
  }

  /** The single stable sort on the combined key (pvalue, fold enrichment),
      both descending, ties kept in input order. */
  function SortByBoth(s: seq<Peak>): (r: seq<Peak>)
    ensures multiset(r) == multiset(s)
    ensures SortedByBoth(r)
  {
    if s == [] then []
    else
      assert s == [s[0]] + s[1..];
      InsertByBothSorted(s[0], SortByBoth(s[1..]));
      InsertByBothPermutes(s[0], SortByBoth(s[1..]));
      InsertByBoth(s[0], SortByBoth(s[1..]))
  }

  /** The two passes the script makes: fold enrichment, then pvalue. */
  function TwoPassSort(s: seq<Peak>): seq<Peak> {
    SortBy(PValue, SortBy(FoldEnrichment, s))
  }

  /** Against elements with no larger fold enrichment, inserting by pvalue
      and inserting by the combined key agree. */
  lemma {:induction false} InsertLowerEnrichment(x: Peak, u: seq<Peak>)
    requires forall i :: 0 <= i < |u| ==> u[i].foldEnrichment <= x.foldEnrichment
    ensures InsertBy(PValue, x, u) == InsertByBoth(x, u)
  {
    if u != [] && u[0].pvalue > x.pvalue {
      InsertLowerEnrichment(x, u[1..]);
    }
  }

  /** Inserting a by pvalue and x by the combined key commute when a has the
      larger fold enrichment. */
  lemma {:induction false} InsertionsCommute(a: Peak, x: Peak, u: seq<Peak>)
    requires a.foldEnrichment > x.foldEnrichment
    ensures InsertBy(PValue, a, InsertByBoth(x, u)) == InsertByBoth(x, InsertBy(PValue, a, u))
  {
    if u == [] {
      assert [a][1..] == [] && [x][1..] == [];
    } else {
      var h, u' := u[0], u[1..];
      assert u == [h] + u';
      if NotAbove(h, x) {
        assert InsertByBoth(x, u) == [x] + u;
        if x.pvalue <= a.pvalue {
          assert InsertBy(PValue, a, u) == [a] + u;
          assert ([a] + u)[1..] == u;
          assert ([a] + ([x] + u)) == InsertBy(PValue, a, [x] + u);
        } else {
          var i := InsertBy(PValue, a, u);
          InsertByHead(PValue, a, u);
          assert ([x] + u)[1..] == u;
          assert InsertByBoth(x, i) == [x] + i;
        }
      } else {
        var b' := InsertByBoth(x, u');
        assert InsertByBoth(x, u) == [h] + b';
        if h.pvalue <= a.pvalue {
          assert InsertBy(PValue, a, [h] + b') == [a] + ([h] + b');
          assert InsertBy(PValue, a, u) == [a] + u;
          assert ([a] + u)[1..] == u;
        } else {
          var i' := InsertBy(PValue, a, u');
          assert InsertBy(PValue, a, u) == [h] + i';
          assert ([h] + b')[1..] == b';
          assert ([h] + i')[1..] == i';
          InsertionsCommute(a, x, u');
        }
      }
    }
  }

  /** Sorting by pvalue after an insertion by fold enrichment is an
      insertion by the combined key after sorting by pvalue. */
  lemma {:induction false} SortAfterInsert(x: Peak, t: seq<Peak>)
    requires SortedBy(FoldEnrichment, t)
    ensures SortBy(PValue, InsertBy(FoldEnrichment, x, t)) == InsertByBoth(x, SortBy(PValue, t))
  {
    if t == [] {
    } else if t[0].foldEnrichment <= x.foldEnrichment {
      var u := SortBy(PValue, t);
      assert [x] + t == InsertBy(FoldEnrichment, x, t);
      assert ([x] + t)[1..] == t;
      forall i | 0 <= i < |u| ensures u[i].foldEnrichment <= x.foldEnrichment {
        assert u[i] in multiset(t);
      }
      InsertLowerEnrichment(x, u);
    } else {
      var t' := t[1..];
      var w := InsertBy(FoldEnrichment, x, t');
      assert InsertBy(FoldEnrichment, x, t) == [t[0]] + w;
      assert ([t[0]] + w)[1..] == w;
      SortAfterInsert(x, t');
      InsertionsCommute(t[0], x, SortBy(PValue, t'));
    }
  }

  /** The two stable passes equal one stable sort on (pvalue, fold
      enrichment), both descending, ties in input order. */
  lemma {:induction false} TwoPassIsCombinedSort(s: seq<Peak>)
    ensures TwoPassSort(s) == SortByBoth(s)
  {
    if s != [] {
      TwoPassIsCombinedSort(s[1..]);
      SortAfterInsert(s[0], SortBy(FoldEnrichment, s[1..]));
    }
  }

  /** The rows of s that are equal to (p, f) on both sort keys, in order. */
  function WithKeys(s: seq<Peak>, p: int, f: int): seq<Peak> {
    if s == [] then []
    else KeyedAs(s[0], p, f) + WithKeys(s[1..], p, f)
  }

  /** The peak itself when it carries the keys p and f, nothing otherwise. */
  function KeyedAs(x: Peak, p: int, f: int): seq<Peak> {
    if x.pvalue == p && x.foldEnrichment == f then [x] else []
  }

  lemma WithKeysCons(h: Peak, t: seq<Peak>, p: int, f: int)
    ensures WithKeys([h] + t, p, f) == KeyedAs(h, p, f) + WithKeys(t, p, f)
  {
    assert ([h] + t)[0] == h && ([h] + t)[1..] == t;
  }

  lemma {:induction false} WithKeysInsert(x: Peak, u: seq<Peak>, p: int, f: int)
    ensures WithKeys(InsertByBoth(x, u), p, f) == KeyedAs(x, p, f) + WithKeys(u, p, f)
  {
    if u == [] {
      WithKeysCons(x, [], p, f);
    } else if NotAbove(u[0], x) {
      WithKeysCons(x, u, p, f);
    } else {
      var t := InsertByBoth(x, u[1..]);
      assert u == [u[0]] + u[1..];
      WithKeysCons(u[0], t, p, f);
      WithKeysCons(u[0], u[1..], p, f);
      WithKeysInsert(x, u[1..], p, f);
      assert KeyedAs(u[0], p, f) == [] || KeyedAs(x, p, f) == [];
    }
  }

  /** Stability: rows equal on both keys come out in their input order. */
  lemma {:induction false} SortByBothStable(s: seq<Peak>, p: int, f: int)
    ensures WithKeys(SortByBoth(s), p, f) == WithKeys(s, p, f)
  {
    if s != [] {
      SortByBothStable(s[1..], p, f);
      WithKeysInsert(s[0], SortByBoth(s[1..]), p, f);
    }
  }

  /** What the script's sort promises: the result is a permutation of the
      rows, non-increasing in pvalue, non-increasing in fold enrichment
      among equal pvalues, and rows equal on both keys keep input order. */
  lemma TwoPassSortCorrect(s: seq<Peak>)
    ensures multiset(TwoPassSort(s)) == multiset(s)
    ensures forall i, j :: 0 <= i < j < |TwoPassSort(s)| ==>
              TwoPassSort(s)[i].pvalue >= TwoPassSort(s)[j].pvalue
    ensures forall i, j :: 0 <= i < j < |TwoPassSort(s)| && TwoPassSort(s)[i].pvalue == TwoPassSort(s)[j].pvalue ==>
              TwoPassSort(s)[i].foldEnrichment >= TwoPassSort(s)[j].foldEnrichment
    ensures forall p, f :: WithKeys(TwoPassSort(s), p, f) == WithKeys(s, p, f)
  {
    TwoPassIsCombinedSort(s);
    forall p, f ensures WithKeys(TwoPassSort(s), p, f) == WithKeys(s, p, f) {
      SortByBothStable(s, p, f);
    }
  }

  /** A list already in the combined order is left as it is. */
  lemma {:induction false} SortByBothOfSorted(s: seq<Peak>)
    requires SortedByBoth(s)
    ensures SortByBoth(s) == s
  {
    if s != [] {
      var t := s[1..];
      assert forall i :: 0 <= i < |t| ==> t[i] == s[i + 1];
      SortByBothOfSorted(t);
      if t != [] {
        assert NotAbove(t[0], s[0]);
      }
      assert s == [s[0]] + t;
    }
  }

  /** Sorting the sorted table again changes nothing. */
  lemma TwoPassIdempotent(s: seq<Peak>)
    ensures TwoPassSort(TwoPassSort(s)) == TwoPassSort(s)
  {
    TwoPassIsCombinedSort(s);
    TwoPassIsCombinedSort(TwoPassSort(s));
    SortByBothOfSorted(SortByBoth(s));
  }

  /** The tie-break example: equal pvalues, fold enrichment 5 before 1. */
  lemma TieBreakExample()
    ensures TwoPassSort([Peak("chr1", 100, 200, 100, 150, 10, 2, 1, 1),
                         Peak("chr1", 300, 400, 100, 350, 20, 2, 5, 1)])
         == [Peak("chr1", 300, 400, 100, 350, 20, 2, 5, 1),
             Peak("chr1", 100, 200, 100, 150, 10, 2, 1, 1)]
  {
  }
}
