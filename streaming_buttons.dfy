/**
 * The streaming-provider buttons (components/StreamingButtons.tsx): providers
 * are sorted by offer type (subscription, free, rent, buy, anything else),
 * de-duplicated by case-insensitive name keeping the first, and rendered as
 * one button each with a brand colour, a type label, a link and a display name.
 */
module StreamingButtons {
  import opened Wrappers
  import opened Text

  /** The fields of a streaming offer that the component reads (`type` is `kind` here). */
  datatype Provider = Provider(name: string, kind: string, url: Option<string>, logoUrl: Option<string>, providerId: int)

  // ---------------------------------------------------------------------------
  // Priority order and the stable sort (components/StreamingButtons.tsx:112-115)

  type Priority = p: nat | p < 5

  /** `order[type] ?? 4` with `order = { subscription: 0, free: 1, rent: 2, buy: 3 }`. */
  function PriorityOf(kind: string): Priority {
    if kind == "subscription" then 0
    else if kind == "free" then 1
    else if kind == "rent" then 2
    else if kind == "buy" then 3
    else 4
  }

  function Pri(p: Provider): Priority {
    PriorityOf(p.kind)
  }

  predicate SortedByPriority(s: seq<Provider>) {
    forall i, j :: 0 <= i < j < |s| ==> Pri(s[i]) <= Pri(s[j])
  }

  /** The providers of one priority, in input order. */
  function Band(s: seq<Provider>, q: Priority): (r: seq<Provider>)
    ensures forall x :: x in r <==> x in s && Pri(x) == q
    ensures forall x :: x in r ==> Pri(x) == q
  {
    if s == [] then [] else (if Pri(s[0]) == q then [s[0]] else []) + Band(s[1..], q)
  }

  /** The providers of priority at least `q`, in input order. */
  function AtLeast(s: seq<Provider>, q: nat): seq<Provider> {
    if s == [] then [] else (if Pri(s[0]) >= q then [s[0]] else []) + AtLeast(s[1..], q)
  }

  /** The bands `q`, `q + 1`, ..., 4 one after another. */
  function Chain(s: seq<Provider>, q: nat): seq<Provider>
    decreases 5 - q
  {
    if q >= 5 then [] else Band(s, q) + Chain(s, q + 1)
  }

  /**
   * `[...providers].sort((a, b) => priority(a) - priority(b))`. The sort is
   * stable (section 22.1.3.27 of ECMAScript 2019), and a stable sort on a key
   * with five values is the five bands concatenated; `SortIsStableSort` proves
   * the three properties that determine a stable sort.
   */
  function SortByPriority(s: seq<Provider>): seq<Provider> {
    Chain(s, 0)
  }

  lemma {:induction false} AtLeastSplit(s: seq<Provider>, q: Priority)
    ensures multiset(AtLeast(s, q)) == multiset(Band(s, q)) + multiset(AtLeast(s, q + 1))
  {
    if s != [] {
      AtLeastSplit(s[1..], q);
    }
  }

  lemma {:induction false} AtLeastBounds(s: seq<Provider>)
    ensures AtLeast(s, 0) == s && AtLeast(s, 5) == []
  {
    if s != [] {
      AtLeastBounds(s[1..]);
    }
  }

  lemma SortedConcat(a: seq<Provider>, b: seq<Provider>, q: Priority)
    requires forall x :: x in a ==> Pri(x) == q
    requires forall x :: x in b ==> Pri(x) > q
    requires SortedByPriority(b)
    ensures SortedByPriority(a + b)
  {
    forall i, j | 0 <= i < j < |a + b| ensures Pri((a + b)[i]) <= Pri((a + b)[j]) {
      if j < |a| {
        assert (a + b)[i] == a[i] && (a + b)[j] == a[j];
      } else if i < |a| {
        assert (a + b)[i] == a[i] && (a + b)[j] == b[j - |a|];
      } else {
        assert (a + b)[i] == b[i - |a|] && (a + b)[j] == b[j - |a|];
      }
    }
  }

  lemma {:induction false} ChainFacts(s: seq<Provider>, q: nat)
    requires q <= 5
    ensures multiset(Chain(s, q)) == multiset(AtLeast(s, q))
    ensures SortedByPriority(Chain(s, q))
    ensures forall x :: x in Chain(s, q) ==> Pri(x) >= q
    decreases 5 - q
  {
    if q == 5 {
      AtLeastBounds(s);
    } else {
      ChainFacts(s, q + 1);
      AtLeastSplit(s, q);
      var a, b := Band(s, q), Chain(s, q + 1);
      assert Chain(s, q) == a + b;
      SortedConcat(a, b, q);
      assert forall x :: x in a + b ==> x in a || x in b;
    }
  }

  lemma {:induction false} BandAppend(a: seq<Provider>, b: seq<Provider>, q: Priority)
    ensures Band(a + b, q) == Band(a, q) + Band(b, q)
  {
    if a == [] {
      assert a + b == b;
    } else {
      assert (a + b)[0] == a[0] && (a + b)[1..] == a[1..] + b;
      BandAppend(a[1..], b, q);
    }
  }

  lemma {:induction false} BandOfBand(s: seq<Provider>, q0: Priority, q: Priority)
    ensures Band(Band(s, q0), q) == if q0 == q then Band(s, q) else []
  {
    if s != [] {
      BandOfBand(s[1..], q0, q);
      if Pri(s[0]) == q0 {
        assert Band(s, q0) == [s[0]] + Band(s[1..], q0);
        BandAppend([s[0]], Band(s[1..], q0), q);
        assert Band([s[0]], q) == if q0 == q then [s[0]] else [];
      } else {
        assert Band(s, q0) == Band(s[1..], q0);
      }
      if q0 == q {
        assert Band(s, q) == (if Pri(s[0]) == q then [s[0]] else []) + Band(s[1..], q);
      }
    }
  }

  lemma {:induction false} BandOfChain(s: seq<Provider>, q0: nat, q: Priority)
    ensures Band(Chain(s, q0), q) == if q0 <= q then Band(s, q) else []
    decreases 5 - q0
  {
    if q0 < 5 {
      BandOfChain(s, q0 + 1, q);
      BandAppend(Band(s, q0), Chain(s, q0 + 1), q);
      BandOfBand(s, q0, q);
    }
  }

  /**
   * The sort gives a permutation of its input, ordered by priority, in which
   * the providers of each priority keep their input order (stability).
   */
  lemma SortIsStableSort(s: seq<Provider>)
    ensures multiset(SortByPriority(s)) == multiset(s)
    ensures SortedByPriority(SortByPriority(s))
    ensures forall q: Priority :: Band(SortByPriority(s), q) == Band(s, q)
  {
    ChainFacts(s, 0);
    AtLeastBounds(s);
    forall q: Priority ensures Band(SortByPriority(s), q) == Band(s, q) {
      BandOfChain(s, 0, q);
    }
  }

  // ---------------------------------------------------------------------------
  // De-duplication by case-insensitive name (components/StreamingButtons.tsx:108-123)

  function Key(p: Provider): string {
    ToLower(p.name)
  }

  function Keys(s: seq<Provider>): set<string> {
    set x | x in s :: Key(x)
  }

  predicate NoDuplicateNames(s: seq<Provider>) {
    forall i, j :: 0 <= i < j < |s| ==> Key(s[i]) != Key(s[j])
  }

  /** Keep a provider only when no earlier kept one has the same lower-cased name. */
  function FirstByName(s: seq<Provider>): seq<Provider>
    decreases |s|
  {
    if s == [] then []
    else
      var kept := FirstByName(s[..|s| - 1]);
      var last := s[|s| - 1];
      if Key(last) in Keys(kept) then kept else kept + [last]
  }

  /** The first provider of `s` with lower-cased name `k`. */
  function FirstWith(s: seq<Provider>, k: string): (r: Option<Provider>)
    ensures r.Some? ==> r.value in s && Key(r.value) == k
    ensures r.None? <==> forall x :: x in s ==> Key(x) != k
  {
    if s == [] then None else if Key(s[0]) == k then Some(s[0]) else FirstWith(s[1..], k)
  }

  lemma {:induction false} FirstWithIndex(s: seq<Provider>, k: string)
    requires FirstWith(s, k).Some?
    ensures exists m :: 0 <= m < |s| && s[m] == FirstWith(s, k).value &&
                        (forall i :: 0 <= i < m ==> Key(s[i]) != k)
  {
    if Key(s[0]) != k {
      FirstWithIndex(s[1..], k);
      var m :| 0 <= m < |s[1..]| && s[1..][m] == FirstWith(s[1..], k).value &&
        forall i :: 0 <= i < m ==> Key(s[1..][i]) != k;
      assert s[m + 1] == FirstWith(s, k).value;
      assert forall i :: 0 <= i < m + 1 ==> Key(s[i]) != k by {
        forall i | 0 <= i < m + 1 ensures Key(s[i]) != k {
          if i > 0 { assert s[i] == s[1..][i - 1]; }
        }
      }
    }
  }

  lemma {:induction false} FirstWithAppend(a: seq<Provider>, b: seq<Provider>, k: string)
    ensures FirstWith(a + b, k) == if FirstWith(a, k).Some? then FirstWith(a, k) else FirstWith(b, k)
  {
    if a == [] {
      assert a + b == b;
    } else {
      assert (a + b)[0] == a[0] && (a + b)[1..] == a[1..] + b;
      FirstWithAppend(a[1..], b, k);
    }
  }

  lemma {:induction false} FirstByNameKeys(s: seq<Provider>)
    ensures forall u :: u in FirstByName(s) ==> u in s
    ensures Keys(FirstByName(s)) == Keys(s)
    decreases |s|
  {
    if s != [] {
      var init, last := s[..|s| - 1], s[|s| - 1];
      assert s == init + [last];
      FirstByNameKeys(init);
      assert Keys(s) == Keys(init) + {Key(last)};
      var kept := FirstByName(init);
      if Key(last) !in Keys(kept) {
        assert Keys(kept + [last]) == Keys(kept) + {Key(last)};
      }
    }
  }

  lemma {:induction false} FirstByNameUnique(s: seq<Provider>)
    ensures NoDuplicateNames(FirstByName(s))
    decreases |s|
  {
    if s != [] {
      var init, last := s[..|s| - 1], s[|s| - 1];
      FirstByNameUnique(init);
      var kept := FirstByName(init);
      if Key(last) !in Keys(kept) {
        var r := kept + [last];
        forall i, j | 0 <= i < j < |r| ensures Key(r[i]) != Key(r[j]) {
          assert r[i] == kept[i];
          if j == |kept| {
            assert r[i] in kept;
          } else {
            assert r[j] == kept[j];
          }
        }
      }
    }
  }

  lemma {:induction false} FirstByNameFirst(s: seq<Provider>)
    ensures forall u :: u in FirstByName(s) ==> FirstWith(s, Key(u)) == Some(u)
    decreases |s|
  {
    if s != [] {
      var init, last := s[..|s| - 1], s[|s| - 1];
      assert s == init + [last];
      FirstByNameFirst(init);
      FirstByNameKeys(init);
      var kept := FirstByName(init);
      forall u | u in FirstByName(s) ensures FirstWith(s, Key(u)) == Some(u) {
        FirstWithAppend(init, [last], Key(u));
        if u !in kept {
          assert u == last;
          assert Key(u) !in Keys(init);
        }
      }
    }
  }

  lemma {:induction false} FirstByNameSorted(s: seq<Provider>)
    requires SortedByPriority(s)
    ensures SortedByPriority(FirstByName(s))
    decreases |s|
  {
    if s != [] {
      var init, last := s[..|s| - 1], s[|s| - 1];
      assert SortedByPriority(init) by {
        forall i, j | 0 <= i < j < |init| ensures Pri(init[i]) <= Pri(init[j]) {
          assert init[i] == s[i] && init[j] == s[j];
        }
      }
      FirstByNameSorted(init);
      FirstByNameKeys(init);
      var kept := FirstByName(init);
      if Key(last) !in Keys(kept) {
        forall x | x in kept ensures Pri(x) <= Pri(last) {
          var i :| 0 <= i < |init| && init[i] == x;
          assert s[i] == x;
        }
        var r := kept + [last];
        forall i, j | 0 <= i < j < |r| ensures Pri(r[i]) <= Pri(r[j]) {
          assert r[i] == kept[i];
          assert r[i] in kept;
          if j < |kept| {
            assert r[j] == kept[j];
          }
        }
      }
    }
  }

  // ---------------------------------------------------------------------------
  // Which provider is kept for a name

  lemma {:induction false} BandFirst(s: seq<Provider>, q: Priority, k: string)
    requires FirstWith(Band(s, q), k).Some?
    ensures exists j :: 0 <= j < |s| && s[j] == FirstWith(Band(s, q), k).value &&
                        (forall i :: 0 <= i < j ==> !(Key(s[i]) == k && Pri(s[i]) == q))
  {
    var v := FirstWith(Band(s, q), k).value;
    if Pri(s[0]) == q && Key(s[0]) == k {
      assert Band(s, q) == [s[0]] + Band(s[1..], q);
      assert v == s[0];
    } else {
      if Pri(s[0]) == q {
        assert Band(s, q) == [s[0]] + Band(s[1..], q);
        assert Band(s, q)[1..] == Band(s[1..], q);
      } else {
        assert Band(s, q) == Band(s[1..], q);
      }
      BandFirst(s[1..], q, k);
      var j :| 0 <= j < |s[1..]| && s[1..][j] == v &&
        forall i :: 0 <= i < j ==> !(Key(s[1..][i]) == k && Pri(s[1..][i]) == q);
      assert s[j + 1] == v;
      forall i | 0 <= i < j + 1 ensures !(Key(s[i]) == k && Pri(s[i]) == q) {
        if i > 0 { assert s[i] == s[1..][i - 1]; }
      }
    }
  }

  lemma {:induction false} ChainFirst(s: seq<Provider>, q0: nat, q: Priority, k: string)
    requires q0 <= q
    requires forall x :: x in s && Key(x) == k ==> Pri(x) >= q
    requires exists x :: x in s && Key(x) == k && Pri(x) == q
    ensures FirstWith(Chain(s, q0), k) == FirstWith(Band(s, q), k)
    decreases 5 - q0
  {
    FirstWithAppend(Band(s, q0), Chain(s, q0 + 1), k);
    if q0 < q {
      ChainFirst(s, q0 + 1, q, k);
    }
  }

  /**
   * `u` is, among the input providers with its lower-cased name, one of the
   * lowest priority, and the earliest in the input among those.
   */
  predicate IsPreferred(providers: seq<Provider>, u: Provider) {
    exists j :: 0 <= j < |providers| && providers[j] == u &&
      forall i :: 0 <= i < |providers| && Key(providers[i]) == Key(u) ==>
        Pri(u) < Pri(providers[i]) || (Pri(u) == Pri(providers[i]) && j <= i)
  }

  /** In a list sorted by priority, the first provider of a name has the lowest priority of that name. */
  lemma FirstInSortedIsLowest(t: seq<Provider>, u: Provider)
    requires SortedByPriority(t)
    requires FirstWith(t, Key(u)) == Some(u)
    ensures forall x :: x in t && Key(x) == Key(u) ==> Pri(x) >= Pri(u)
  {
    FirstWithIndex(t, Key(u));
    var m :| 0 <= m < |t| && t[m] == u && forall i :: 0 <= i < m ==> Key(t[i]) != Key(u);
    forall x | x in t && Key(x) == Key(u) ensures Pri(x) >= Pri(u) {
      var ix :| 0 <= ix < |t| && t[ix] == x;
      assert m <= ix;
    }
  }

  lemma SortPermutes(providers: seq<Provider>)
    ensures multiset(SortByPriority(providers)) == multiset(providers)
    ensures SortedByPriority(SortByPriority(providers))
    ensures forall x :: x in SortByPriority(providers) <==> x in providers
  {
    ChainFacts(providers, 0);
    AtLeastBounds(providers);
    var t := SortByPriority(providers);
    forall x ensures x in t <==> x in providers {
      assert x in t <==> x in multiset(t);
      assert x in providers <==> x in multiset(providers);
    }
  }

  /** A kept provider has the lowest priority of its name, and is an input provider. */
  lemma KeptIsLowest(providers: seq<Provider>, u: Provider)
    requires u in FirstByName(SortByPriority(providers))
    ensures u in providers
    ensures forall x :: x in providers && Key(x) == Key(u) ==> Pri(x) >= Pri(u)
  {
    var t := SortByPriority(providers);
    SortPermutes(providers);
    FirstByNameFirst(t);
    FirstInSortedIsLowest(t, u);
  }

  lemma PreferredFromBand(providers: seq<Provider>, u: Provider)
    requires FirstWith(Band(providers, Pri(u)), Key(u)) == Some(u)
    requires forall x :: x in providers && Key(x) == Key(u) ==> Pri(x) >= Pri(u)
    ensures IsPreferred(providers, u)
  {
    BandFirst(providers, Pri(u), Key(u));
    var j :| 0 <= j < |providers| && providers[j] == u &&
      forall i :: 0 <= i < j ==> !(Key(providers[i]) == Key(u) && Pri(providers[i]) == Pri(u));
    forall i | 0 <= i < |providers| && Key(providers[i]) == Key(u)
      ensures Pri(u) < Pri(providers[i]) || (Pri(u) == Pri(providers[i]) && j <= i)
    {
      assert providers[i] in providers;
    }
  }

  lemma PreferredKept(providers: seq<Provider>, u: Provider)
    requires u in FirstByName(SortByPriority(providers))
    ensures IsPreferred(providers, u)
  {
    KeptIsLowest(providers, u);
    FirstByNameFirst(SortByPriority(providers));
    ChainFirst(providers, 0, Pri(u), Key(u));
    PreferredFromBand(providers, u);
  }

  /**
   * The providers shown, one per name: the sort followed by the
   * first-occurrence loop over a set of seen lower-cased names.
   */
  method UniqueProviders(providers: seq<Provider>) returns (unique: seq<Provider>)
    ensures unique == FirstByName(SortByPriority(providers))
    ensures NoDuplicateNames(unique)
    ensures Keys(unique) == Keys(providers)
    ensures forall u :: u in unique ==> u in providers && IsPreferred(providers, u)
    ensures SortedByPriority(unique)
    ensures |unique| <= |providers|
  {
    var sorted := SortByPriority(providers);
    var seen: set<string> := {};
    unique := [];
    for i := 0 to |sorted|
      invariant unique == FirstByName(sorted[..i])
      invariant seen == Keys(unique)
    {
      assert sorted[..i + 1][..i] == sorted[..i];
      var key := ToLower(sorted[i].name);
      if key !in seen {
        seen := seen + {key};
        unique := unique + [sorted[i]];
      }
    }
    assert sorted[..|sorted|] == sorted;
    KeptProperties(providers);
  }

  lemma KeptProperties(providers: seq<Provider>)
    ensures var unique := FirstByName(SortByPriority(providers));
      NoDuplicateNames(unique) && Keys(unique) == Keys(providers) &&
      (forall u :: u in unique ==> u in providers && IsPreferred(providers, u)) &&
      SortedByPriority(unique) && |unique| <= |providers|
  {
    var sorted := SortByPriority(providers);
    var unique := FirstByName(sorted);
    SortPermutes(providers);
    FirstByNameKeys(sorted);
    FirstByNameUnique(sorted);
    FirstByNameSorted(sorted);
    assert Keys(sorted) == Keys(providers);
    forall u | u in unique ensures u in providers && IsPreferred(providers, u) {
      KeptIsLowest(providers, u);
      PreferredKept(providers, u);
    }
    KeysBound(unique, providers);
  }

  /** A list without repeated names is no longer than any list with the same names. */
  lemma KeysBound(unique: seq<Provider>, providers: seq<Provider>)
    requires NoDuplicateNames(unique) && Keys(unique) == Keys(providers)
    ensures |unique| <= |providers|
  {
    var ks := set i | 0 <= i < |unique| :: Key(unique[i]);
    assert ks == Keys(unique);
    SizeOfImage(unique);
    ImageBound(providers);
  }

  lemma {:induction false} SizeOfImage(s: seq<Provider>)
    requires NoDuplicateNames(s)
    ensures |Keys(s)| == |s|
    decreases |s|
  {
    if s != [] {
      var init := s[..|s| - 1];
      assert s == init + [s[|s| - 1]];
      assert NoDuplicateNames(init);
      SizeOfImage(init);
      assert Keys(s) == Keys(init) + {Key(s[|s| - 1])};
      assert Key(s[|s| - 1]) !in Keys(init);
    }
  }

  lemma {:induction false} ImageBound(s: seq<Provider>)
    ensures |Keys(s)| <= |s|
    decreases |s|
  {
    if s != [] {
      var init := s[..|s| - 1];
      assert s == init + [s[|s| - 1]];
      ImageBound(init);
      assert Keys(s) == Keys(init) + {Key(s[|s| - 1])};
    }
  }

  const NetflixSubscription := Provider("Netflix", "subscription", None, None, 8)
  const NetflixRent := Provider("netflix", "rent", None, None, 8)

  lemma ExampleSort()
    ensures SortByPriority([NetflixRent, NetflixSubscription]) == [NetflixSubscription, NetflixRent]
  {
    var a, b := NetflixSubscription, NetflixRent;
    var s := [b, a];
    assert Pri(a) == 0 && Pri(b) == 2;
    assert s[1..] == [a] && [a][1..] == [];
    assert s[0] == b && [a][0] == a;
    var empty: seq<Provider> := [];
    forall q: Priority ensures Band(s, q) == (if q == 2 then [b] else []) + (if q == 0 then [a] else []) {
      assert Band(empty, q) == [];
      assert Band([a], q) == (if q == 0 then [a] else []) + Band(empty, q);
      assert Band(s, q) == (if q == 2 then [b] else []) + Band([a], q);
    }
    assert Chain(s, 4) == [];
    assert Chain(s, 3) == [];
    assert Chain(s, 2) == [b];
    assert Chain(s, 1) == [b];
  }

  lemma ExampleSortSubscriptionFirst()
    ensures SortByPriority([NetflixSubscription, NetflixRent]) == [NetflixSubscription, NetflixRent]
  {
    var a, b := NetflixSubscription, NetflixRent;
    var s := [a, b];
    assert Pri(a) == 0 && Pri(b) == 2;
    assert s[1..] == [b] && [b][1..] == [];
    assert s[0] == a && [b][0] == b;
    var empty: seq<Provider> := [];
    forall q: Priority ensures Band(s, q) == (if q == 0 then [a] else []) + (if q == 2 then [b] else []) {
      assert Band(empty, q) == [];
      assert Band([b], q) == (if q == 2 then [b] else []) + Band(empty, q);
      assert Band(s, q) == (if q == 0 then [a] else []) + Band([b], q);
    }
    assert Chain(s, 4) == [];
    assert Chain(s, 3) == [];
    assert Chain(s, 2) == [b];
    assert Chain(s, 1) == [b];
  }

  /** Of two providers with the same lower-cased name only the first is kept. */
  lemma SameNameKeepsFirst(a: Provider, b: Provider)
    requires Key(a) == Key(b)
    ensures FirstByName([a, b]) == [a]
  {
    var none: seq<Provider> := [];
    assert [a, b][..1] == [a];
    assert [a][..0] == none;
    assert FirstByName([a]) == none + [a];
    assert Key(b) in Keys([a]);
  }

  /** Netflix by subscription wins over netflix to rent, whatever their input order. */
  lemma SubscriptionBeatsRent()
    ensures FirstByName(SortByPriority([NetflixRent, NetflixSubscription])) == [NetflixSubscription]
    ensures FirstByName(SortByPriority([NetflixSubscription, NetflixRent])) == [NetflixSubscription]
  {
    assert Key(NetflixSubscription) == "netflix" == Key(NetflixRent);
    assert FirstByName(SortByPriority([NetflixRent, NetflixSubscription])) == [NetflixSubscription] by {
      ExampleSort();
      SameNameKeepsFirst(NetflixSubscription, NetflixRent);
    }
    assert FirstByName(SortByPriority([NetflixSubscription, NetflixRent])) == [NetflixSubscription] by {
      ExampleSortSubscriptionFirst();
      SameNameKeepsFirst(NetflixSubscription, NetflixRent);
    }
  }

  // ---------------------------------------------------------------------------
  // Brand colours (components/StreamingButtons.tsx:15-64)

  /** `SERVICE_COLORS`, in the order `Object.entries` lists it. */
  const ServiceColors: seq<(string, string)> := [
    ("netflix", "#E50914"),
    ("amazon prime video", "#00A8E1"),
    ("prime video", "#00A8E1"),
    ("amazon video", "#00A8E1"),
    ("disney+", "#113CCF"),
    ("disney plus", "#113CCF"),
    ("hulu", "#1CE783"),
    ("max", "#741DDA"),
    ("hbo max", "#741DDA"),
    ("apple tv+", "#000000"),
    ("apple tv", "#000000"),
    ("apple tv store", "#000000"),
    ("peacock", "#FDB927"),
    ("peacock premium", "#FDB927"),
    ("paramount+", "#0064FF"),
    ("paramount plus", "#0064FF"),
    ("youtube", "#FF0000"),
    ("youtube premium", "#FF0000"),
    ("tubi", "#FA382F"),
    ("tubi tv", "#FA382F"),
    ("pluto tv", "#2E236C"),
    ("vudu", "#35BEE8"),
    ("fandango at home", "#35BEE8"),
    ("google play", "#4285F4"),
    ("google play movies", "#4285F4"),
    ("itunes", "#FB5BC5"),
    ("crunchyroll", "#F47521"),
    ("shudder", "#C31432"),
    ("mubi", "#2C2C2C"),
    ("starz", "#000000"),
    ("showtime", "#B71818"),
    ("mgm+", "#D4AF37"),
    ("amc+", "#20232A"),
    ("freevee", "#36C2B4"),
    ("kanopy", "#2D9CDB")
  ]

  /** The purple used when no key matches. */
  const DefaultColor := "#6366F1"

  /** An own property of the table: the colour listed for exactly `key`. */
  function Lookup(table: seq<(string, string)>, key: string): (r: Option<string>)
    ensures r.None? <==> forall c :: (key, c) !in table
    ensures r.Some? ==> (key, r.value) in table
  {
    if table == [] then None
    else if table[0].0 == key then Some(table[0].1)
    else
      assert forall c :: (key, c) in table <==> (key, c) in table[1..] by {
        assert table == [table[0]] + table[1..];
      }
      Lookup(table[1..], key)
  }

  /** The partial-match test of the loop: either key contains the other. */
  predicate PartialMatch(key: string, colorKey: string) {
    Includes(key, colorKey) || Includes(colorKey, key)
  }

  /** The colour of the first entry (in table order) that matches `key` partially. */
  function FirstPartial(table: seq<(string, string)>, key: string): (r: Option<string>)
    ensures r.None? <==> forall i :: 0 <= i < |table| ==> !PartialMatch(key, table[i].0)
    ensures r.Some? ==> exists i :: 0 <= i < |table| && table[i].1 == r.value &&
                          PartialMatch(key, table[i].0) &&
                          (forall j :: 0 <= j < i ==> !PartialMatch(key, table[j].0))
  {
    if table == [] then None
    else if PartialMatch(key, table[0].0) then Some(table[0].1)
    else
      var r := FirstPartial(table[1..], key);
      assert r.Some? ==> exists i :: 0 <= i < |table| && table[i].1 == r.value &&
                          PartialMatch(key, table[i].0) &&
                          (forall j :: 0 <= j < i ==> !PartialMatch(key, table[j].0)) by {
        if r.Some? {
          var i :| 0 <= i < |table[1..]| && table[1..][i].1 == r.value &&
            PartialMatch(key, table[1..][i].0) &&
            (forall j :: 0 <= j < i ==> !PartialMatch(key, table[1..][j].0));
          assert table[i + 1] == table[1..][i];
          forall j | 0 <= j < i + 1 ensures !PartialMatch(key, table[j].0) {
            if j > 0 { assert table[j] == table[1..][j - 1]; }
          }
        }
      }
      assert r.None? ==> forall i :: 0 <= i < |table| ==> !PartialMatch(key, table[i].0) by {
        if r.None? {
          forall i | 0 <= i < |table| ensures !PartialMatch(key, table[i].0) {
            if i > 0 { assert table[i] == table[1..][i - 1]; }
          }
        }
      }
      r
  }

  /**
   * Every colour in the table is a non-empty string, so an exact hit is
   * truthy. Kept apart so that no other proof unfolds the whole table.
   */
  lemma ColorsNonEmpty()
    ensures forall e :: e in ServiceColors ==> e.1 != ""
  {
  }

  /**
   * The colour `table` gives a lower-cased key: the exact entry when it is
   * truthy, else the first partial match, else the default.
   */
  function ColorFor(table: seq<(string, string)>, key: string): string {
    var exact := Lookup(table, key);
    if Truthy(exact) then exact.value else FirstPartial(table, key).GetOr(DefaultColor)
  }

  /** `getServiceColor`, for a table that holds only its listed keys. */
  function ServiceColor(name: string): string {
    ColorFor(ServiceColors, ToLower(name))
  }

  /** The three rules of `getServiceColor`, for any table whose colours are non-empty. */
  lemma ColorForRules(table: seq<(string, string)>, key: string)
    requires forall e :: e in table ==> e.1 != ""
    ensures var color := ColorFor(table, key);
      ((exists c :: (key, c) in table) ==> (key, color) in table) &&
      ((forall c :: (key, c) !in table) && (exists i :: 0 <= i < |table| && PartialMatch(key, table[i].0)) ==>
        exists i :: 0 <= i < |table| && table[i].1 == color && PartialMatch(key, table[i].0) &&
          (forall j :: 0 <= j < i ==> !PartialMatch(key, table[j].0))) &&
      ((forall c :: (key, c) !in table) && (forall i :: 0 <= i < |table| ==> !PartialMatch(key, table[i].0)) ==>
        color == DefaultColor)
  {
  }

  lemma ColorForIsListed(table: seq<(string, string)>, key: string)
    ensures ColorFor(table, key) == DefaultColor || exists e :: e in table && e.1 == ColorFor(table, key)
  {
    if Truthy(Lookup(table, key)) {
      assert (key, ColorFor(table, key)) in table;
    } else if FirstPartial(table, key).Some? {
      var i :| 0 <= i < |table| && table[i].1 == ColorFor(table, key);
      assert table[i] in table;
    }
  }

  lemma ServiceColorRules(name: string)
    ensures var key, color := ToLower(name), ServiceColor(name);
      ((exists c :: (key, c) in ServiceColors) ==> (key, color) in ServiceColors) &&
      ((forall c :: (key, c) !in ServiceColors) && (exists i :: 0 <= i < |ServiceColors| && PartialMatch(key, ServiceColors[i].0)) ==>
        exists i :: 0 <= i < |ServiceColors| && ServiceColors[i].1 == color && PartialMatch(key, ServiceColors[i].0) &&
          (forall j :: 0 <= j < i ==> !PartialMatch(key, ServiceColors[j].0))) &&
      ((forall c :: (key, c) !in ServiceColors) && (forall i :: 0 <= i < |ServiceColors| ==> !PartialMatch(key, ServiceColors[i].0)) ==>
        color == DefaultColor)
  {
    ColorsNonEmpty();
    ColorForRules(ServiceColors, ToLower(name));
  }

  /**
   * The loop of `getServiceColor`: the entries in table order, returning the
   * colour of the first whose key contains `key` or is contained in it.
   */
  method PartialFromTable(table: seq<(string, string)>, key: string) returns (r: Option<string>)
    ensures r == FirstPartial(table, key)
  {
    for i := 0 to |table|
      invariant forall j :: 0 <= j < i ==> !PartialMatch(key, table[j].0)
    {
      var (colorKey, c) := table[i];
      if Includes(key, colorKey) || Includes(colorKey, key) {
        FirstPartialAt(table, key, i);
        return Some(c);
      }
    }
    return None;
  }

  /**
   * The body of `getServiceColor` over a colour table: the exact lookup,
   * then the loop over the entries, then the default.
   */
  method ColorFromTable(table: seq<(string, string)>, name: string) returns (color: string)
    ensures color == ColorFor(table, ToLower(name))
    ensures color == DefaultColor || exists e :: e in table && e.1 == color
  {
    var key := ToLower(name);
    var exact := Lookup(table, key);
    if exact.Some? && exact.value != "" {
      color := exact.value;
    } else {
      var partial := PartialFromTable(table, key);
      color := partial.GetOr(DefaultColor);
    }
    ColorForIsListed(table, key);
  }

  /** `getServiceColor(name)` on `SERVICE_COLORS`. */
  method GetServiceColor(name: string) returns (color: string)
    ensures color == ServiceColor(name)
    ensures color == DefaultColor || exists e :: e in ServiceColors && e.1 == color
  {
    color := ColorFromTable(ServiceColors, name);
  }

  lemma {:induction false} FirstPartialAt(table: seq<(string, string)>, key: string, i: nat)
    requires i < |table| && PartialMatch(key, table[i].0)
    requires forall j :: 0 <= j < i ==> !PartialMatch(key, table[j].0)
    ensures FirstPartial(table, key) == Some(table[i].1)
  {
    if i > 0 {
      assert !PartialMatch(key, table[0].0);
      forall j | 0 <= j < i - 1 ensures !PartialMatch(key, table[1..][j].0) {
        assert table[1..][j] == table[j + 1];
      }
      FirstPartialAt(table[1..], key, i - 1);
    }
  }

  /** Without an exact key the colour is the first partial match's, or the default. */
  lemma ColorForWithoutKey(table: seq<(string, string)>, key: string)
    requires forall c :: (key, c) !in table
    ensures ColorFor(table, key) == FirstPartial(table, key).GetOr(DefaultColor)
  {
  }

  /** The empty key is not one of the table's keys (kept apart for the same reason). */
  lemma EmptyKeyIsNoKey(key: string)
    requires key == ""
    ensures forall c :: (key, c) !in ServiceColors
  {
  }

  lemma EmptyKeyMatchesNetflix(key: string)
    requires key == ""
    ensures FirstPartial(ServiceColors, key) == Some("#E50914")
  {
    assert Includes("netflix", key) by {
      assert OccursAt("netflix", key, 0);
    }
    assert ServiceColors[0] == ("netflix", "#E50914");
    FirstPartialAt(ServiceColors, key, 0);
  }

  lemma EmptyKeyColor(key: string)
    requires key == ""
    ensures ColorFor(ServiceColors, key) == "#E50914"
  {
    EmptyKeyIsNoKey(key);
    ColorForWithoutKey(ServiceColors, key);
    EmptyKeyMatchesNetflix(key);
  }

  /** The empty name is no key but is contained in the first key, so it gets Netflix red. */
  lemma EmptyNameIsNetflixRed(name: string)
    requires name == ""
    ensures ServiceColor(name) == "#E50914"
  {
    EmptyKeyColor(ToLower(name));
  }

  // ---------------------------------------------------------------------------
  // The lookup as written: `SERVICE_COLORS[key]` on a plain object literal

  /** What a property read on the object literal yields. */
  datatype JsValue = Str(s: string) | Undefined | InheritedMember(name: string)

  /**
   * Names that a plain object inherits from `Object.prototype` and that are
   * already lower-case, so a lower-cased provider name can reach them.
   */
  const InheritedKeys: set<string> := {"constructor", "__proto__"}

  function PropertyAsWritten(key: string): (r: JsValue)
    ensures r.Str? <==> exists c :: (key, c) in ServiceColors
  {
    match Lookup(ServiceColors, key)
    case Some(c) => Str(c)
    case None => if key in InheritedKeys then InheritedMember(key) else Undefined
  }

  predicate JsTruthy(v: JsValue) {
    match v
    case Str(s) => s != ""
    case Undefined => false
    case InheritedMember(_) => true
  }

  /** `getServiceColor` as written: an inherited member is truthy and is returned. */
  function ServiceColorAsWritten(name: string): JsValue {
    var key := ToLower(name);
    var exact := PropertyAsWritten(key);
    if JsTruthy(exact) then exact else Str(FirstPartial(ServiceColors, key).GetOr(DefaultColor))
  }

  lemma ConstructorKeyIsInherited(key: string)
    requires key == "constructor"
    ensures PropertyAsWritten(key) == InheritedMember("constructor")
  {
    ConstructorIsNoKey(key);
    assert Lookup(ServiceColors, key) == None;
    assert key in InheritedKeys;
  }

  /** "constructor" is not one of the table's own keys (kept apart so the table unfolds only here). */
  lemma ConstructorIsNoKey(key: string)
    requires key == "constructor"
    ensures forall c :: (key, c) !in ServiceColors
  {
  }

  /** A provider named "Constructor" gets the `Object` function, not a colour. */
  lemma ConstructorNameGetsNoColor(name: string)
    requires name == "Constructor"
    ensures ServiceColorAsWritten(name) == InheritedMember("constructor")
    ensures !ServiceColorAsWritten(name).Str?
  {
    var key := ToLower(name);
    assert key == "constructor";
    ConstructorKeyIsInherited(key);
  }

  /** For every other name the written lookup agrees with the own-key lookup. */
  lemma AsWrittenAgreesElsewhere(name: string)
    requires ToLower(name) !in InheritedKeys
    ensures ServiceColorAsWritten(name) == Str(ServiceColor(name))
  {
  }

  // ---------------------------------------------------------------------------
  // Labels, links and names (components/StreamingButtons.tsx:66-74, 126-129, 144, 165)

  /** `getTypeLabel`. */
  function TypeLabel(kind: string): (r: string)
    ensures r in {"", "Rent", "Buy", "Free"}
  {
    if kind == "subscription" then ""
    else if kind == "rent" then "Rent"
    else if kind == "buy" then "Buy"
    else if kind == "free" then "Free"
    else ""
  }

  /** A label is shown exactly for the offers that rank between subscription and the rest. */
  lemma LabelledIffMiddlePriority(kind: string)
    ensures TypeLabel(kind) != "" <==> 1 <= PriorityOf(kind) <= 3
  {
  }

  /** `provider.url || justWatchUrl || '#'`. */
  function LinkHref(url: Option<string>, justWatchUrl: Option<string>): string {
    if Truthy(url) then url.value else if Truthy(justWatchUrl) then justWatchUrl.value else "#"
  }

  /** The click handler cancels navigation when neither link is truthy. */
  predicate PreventsDefault(url: Option<string>, justWatchUrl: Option<string>) {
    !(Truthy(url) || Truthy(justWatchUrl))
  }

  /** A cancelled click is on the "#" placeholder; any other goes to a non-empty given link, the provider's first. */
  lemma LinkCases(url: Option<string>, justWatchUrl: Option<string>)
    ensures PreventsDefault(url, justWatchUrl) ==> LinkHref(url, justWatchUrl) == "#"
    ensures !PreventsDefault(url, justWatchUrl) ==>
      LinkHref(url, justWatchUrl) != "" &&
      (Some(LinkHref(url, justWatchUrl)) == url || Some(LinkHref(url, justWatchUrl)) == justWatchUrl)
    ensures Truthy(url) ==> Some(LinkHref(url, justWatchUrl)) == url
  {
  }

  /** `name.replace(' Plus', '+').replace(' Premium', '+')`. */
  function DisplayName(name: string): string {
    ReplaceFirst(ReplaceFirst(name, " Plus", "+"), " Premium", "+")
  }

  /** The display name is never longer, and is the name itself when neither suffix word occurs. */
  lemma DisplayNameShortens(name: string)
    ensures |DisplayName(name)| <= |name|
    ensures !Includes(name, " Plus") && !Includes(name, " Premium") ==> DisplayName(name) == name
  {
  }

  predicate NoSpace(word: string) {
    forall i :: 0 <= i < |word| ==> word[i] != ' '
  }

  /** A pattern does not occur at `j` when one of its characters differs there. */
  lemma Mismatch(s: string, pat: string, j: nat, k: nat)
    requires k < |pat|
    requires j + |pat| <= |s| ==> s[j + k] != pat[k]
    ensures !OccursAt(s, pat, j)
  {
    if j + |pat| <= |s| {
      assert s[j..j + |pat|][k] == s[j + k];
    }
  }

  /** A pattern that starts with a space first occurs, after a word without spaces, right behind the word. */
  lemma IndexAfterWord(word: string, rest: string, pat: string)
    requires NoSpace(word) && |pat| > 0 && pat[0] == ' '
    ensures forall j :: 0 <= j < |word| ==> !OccursAt(word + rest, pat, j)
  {
    forall j | 0 <= j < |word| ensures !OccursAt(word + rest, pat, j) {
      assert (word + rest)[j] == word[j];
      Mismatch(word + rest, pat, j, 0);
    }
  }

  lemma ReplaceAfterWord(word: string, pat: string, rep: string)
    requires NoSpace(word) && |pat| > 0 && pat[0] == ' '
    ensures ReplaceFirst(word + pat, pat, rep) == word + rep
  {
    IndexAfterWord(word, pat, pat);
    assert OccursAt(word + pat, pat, |word|);
    assert IndexOf(word + pat, pat) == Some(|word|);
  }

  lemma NotInWord(word: string, pat: string)
    requires NoSpace(word) && |pat| > 0 && pat[0] == ' '
    ensures IndexOf(word, pat).None?
  {
    var e: string := [];
    assert word + e == word;
    IndexAfterWord(word, e, pat);
  }

  /** "Disney Plus" shows as "Disney+" and "Peacock Premium" as "Peacock+". */
  lemma DisplayNameOfSuffixedWord(word: string)
    requires NoSpace(word)
    ensures DisplayName(word + " Plus") == word + "+"
    ensures DisplayName(word + " Premium") == word + "+"
  {
    ReplaceAfterWord(word, " Plus", "+");
    ReplaceAfterWord(word, " Premium", "+");
    assert NoSpace(word + "+");
    NotInWord(word + "+", " Premium");
    var s := word + " Premium";
    IndexAfterWord(word, " Premium", " Plus");
    forall j | |word| <= j <= |s| ensures !OccursAt(s, " Plus", j) {
      if j == |word| {
        assert s[j + 2] == 'r';
        Mismatch(s, " Plus", j, 2);
      } else if j <= |word| + 3 {
        var m := j - |word|;
        assert s[j] == " Premium"[m];
        assert m == 1 || m == 2 || m == 3;
        assert " Premium"[1] == 'P' && " Premium"[2] == 'r' && " Premium"[3] == 'e';
        Mismatch(s, " Plus", j, 0);
      } else {
        Mismatch(s, " Plus", j, 0);
      }
    }
    assert IndexOf(s, " Plus").None?;
  }

  // ---------------------------------------------------------------------------
  // The rendered component (components/StreamingButtons.tsx:76-191)

  datatype Button = Button(href: string, preventsDefault: bool, color: string, name: string,
                           typeLabel: string, logo: Option<string>)

  datatype View =
    | Skeleton(placeholders: nat)
    | NoOptions(tryAgain: bool)
    | ButtonRow(buttons: seq<Button>, justWatch: Option<string>)

  function ButtonFor(p: Provider, justWatchUrl: Option<string>): Button {
    Button(LinkHref(p.url, justWatchUrl), PreventsDefault(p.url, justWatchUrl), ServiceColor(p.name),
           DisplayName(p.name), TypeLabel(p.kind), if Truthy(p.logoUrl) then p.logoUrl else None)
  }

  /**
   * The component: four placeholders while loading, the empty message (with
   * "Try again" when a refresh callback is given) for no providers, otherwise
   * one button per kept provider and the JustWatch link when it is truthy.
   */
  method Render(providers: seq<Provider>, loading: bool, hasRefresh: bool, justWatchUrl: Option<string>)
    returns (view: View)
    ensures loading ==> view == Skeleton(4)
    ensures !loading && providers == [] ==> view == NoOptions(hasRefresh)
    ensures !loading && providers != [] ==>
      var unique := FirstByName(SortByPriority(providers));
      view.ButtonRow? && |view.buttons| == |unique| &&
      (forall i :: 0 <= i < |unique| ==> view.buttons[i] == ButtonFor(unique[i], justWatchUrl)) &&
      (view.justWatch.Some? <==> Truthy(justWatchUrl)) &&
      (view.justWatch.Some? ==> view.justWatch == justWatchUrl)
    ensures !loading && providers != [] ==> 1 <= |view.buttons| <= |providers|
  {
    if loading {
      return Skeleton(4);
    }
    if |providers| == 0 {
      return NoOptions(hasRefresh);
    }
    var unique := UniqueProviders(providers);
    assert providers[0] in providers;
    assert ToLower(providers[0].name) in Keys(unique);
    var buttons := seq(|unique|, i requires 0 <= i < |unique| => ButtonFor(unique[i], justWatchUrl));
    view := ButtonRow(buttons, if Truthy(justWatchUrl) then justWatchUrl else None);
  }
}
