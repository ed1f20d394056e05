/**
 * The marketplace page's list: the verified/community counters and the list
 * the user sees after the verification filter, the text search and the sort.
 */
module Marketplace {
  import opened Strings
  import opened Sequences
  import opened Models

  /** The three counters above the list. */
  datatype Stats = Stats(total: nat, verified: nat, community: nat)

  datatype FilterMode = All | VerifiedOnly | CommunityOnly

  datatype SortMode = ByName | ByVersion

  predicate IsVerified(item: Integration) {
    item.verified
  }

  predicate IsCommunity(item: Integration) {
    !item.verified
  }

  /** The counters: community is computed as what is left after the verified ones. */
  function ComputeStats(items: seq<Integration>): (s: Stats)
    ensures s.total == |items|
    ensures s.verified + s.community == s.total
    ensures s.verified == Count(items, IsVerified)
  {
    var v := Count(items, IsVerified);
    Stats(|items|, v, |items| - v)
  }

  /** The community counter is exactly the number of unverified integrations. */
  lemma CommunityCountsUnverified(items: seq<Integration>)
    ensures ComputeStats(items).community == Count(items, IsCommunity)
  {
    CountSplits(items, IsVerified, IsCommunity);
  }

  /** The search text as matched: trimmed the JavaScript way and lowercased. */
  function Query(query: string): (q: string)
    ensures |q| == |JsTrim(query)|
  {
    ToLower(JsTrim(query))
  }

  /** A blank query is the empty search text. */
  lemma QueryEmptyIffBlank(query: string)
    ensures Query(query) == "" <==> JsTrim(query) == ""
  {
  }

  predicate NonEmpty(s: string) {
    s != ""
  }

  /** The fields searched, in order. */
  function SearchedFields(item: Integration): seq<string> {
    [item.name, item.description, item.publisher, item.id]
  }

  /** The text searched: the searched fields, empty ones dropped, joined by spaces, lowercased. */
  function Haystack(item: Integration): string {
    ToLower(Join(Filter(SearchedFields(item), NonEmpty), " "))
  }

  /** The verification filter. */
  predicate PassesMode(mode: FilterMode, item: Integration) {
    match mode
    case All => true
    case VerifiedOnly => item.verified
    case CommunityOnly => !item.verified
  }

  /** The text filter: with the empty search text every item passes. */
  predicate PassesQuery(q: string, item: Integration) {
    q == "" || Contains(Haystack(item), q)
  }

  /** The sort comparator as an ordering: ascending by name, or descending by version. */
  function Before(sort: SortMode, nameLe: (string, string) -> bool, versionLe: (string, string) -> bool)
    : (Integration, Integration) -> bool
  {
    match sort
    case ByName => (a: Integration, b: Integration) => nameLe(a.name, b.name)
    case ByVersion => (a: Integration, b: Integration) => versionLe(b.version, a.version)
  }

  /** The verification filter applied to the list. */
  function ByMode(items: seq<Integration>, mode: FilterMode): seq<Integration> {
    Filter(items, x => PassesMode(mode, x))
  }

  /** The text filter applied to the list, skipped for the empty search text. */
  function ByQuery(items: seq<Integration>, q: string): seq<Integration> {
    if q != "" then Filter(items, x => PassesQuery(q, x)) else items
  }

  /**
   * The list shown. nameLe and versionLe stand for the locale-aware string
   * comparison (plain, and numeric for versions); the sort is stable and works
   * on a copy, so the input is left as it is.
   */
  function Filtered(items: seq<Integration>, query: string, mode: FilterMode, sort: SortMode,
                    nameLe: (string, string) -> bool, versionLe: (string, string) -> bool)
    : seq<Integration>
  {
    Sort(ByQuery(ByMode(items, mode), Query(query)), Before(sort, nameLe, versionLe))
  }

  /** Whether an item is shown: it passes the verification filter and the text filter. */
  predicate Shown(query: string, mode: FilterMode, item: Integration) {
    PassesMode(mode, item) && PassesQuery(Query(query), item)
  }

  /** The two filter stages together keep exactly the items shown, in input order. */
  lemma StagesKeepShown(items: seq<Integration>, query: string, mode: FilterMode)
    ensures ByQuery(ByMode(items, mode), Query(query)) == Filter(items, x => Shown(query, mode, x))
  {
    var q := Query(query);
    var m := x => PassesMode(mode, x);
    var shown := x => Shown(query, mode, x);
    if q != "" {
      FilterFilter(items, m, x => PassesQuery(q, x), shown);
    } else {
      FilterSame(items, m, shown);
    }
  }

  /**
   * The list is exactly the items shown, each as often as in the input: a
   * reordering of the input's shown items.
   */
  lemma FilteredIsPermutationOfShown(items: seq<Integration>, query: string, mode: FilterMode, sort: SortMode,
                                     nameLe: (string, string) -> bool, versionLe: (string, string) -> bool)
    ensures multiset(Filtered(items, query, mode, sort, nameLe, versionLe))
         == multiset(Filter(items, x => Shown(query, mode, x)))
  {
    StagesKeepShown(items, query, mode);
  }

  /** An item is in the list exactly when it is in the input and shown. */
  lemma FilteredMembers(items: seq<Integration>, query: string, mode: FilterMode, sort: SortMode,
                        nameLe: (string, string) -> bool, versionLe: (string, string) -> bool, x: Integration)
    ensures x in Filtered(items, query, mode, sort, nameLe, versionLe) <==> x in items && Shown(query, mode, x)
  {
    FilteredIsPermutationOfShown(items, query, mode, sort, nameLe, versionLe);
    var r := Filtered(items, query, mode, sort, nameLe, versionLe);
    var shown := Filter(items, y => Shown(query, mode, y));
    assert x in r <==> x in multiset(r);
    assert x in shown <==> x in multiset(shown);
  }

  /** With the "all" filter and a blank query the list is the whole input, reordered. */
  lemma BlankQueryShowsAll(items: seq<Integration>, query: string, sort: SortMode,
                           nameLe: (string, string) -> bool, versionLe: (string, string) -> bool)
    requires JsTrim(query) == ""
    ensures multiset(Filtered(items, query, All, sort, nameLe, versionLe)) == multiset(items)
  {
    FilteredIsPermutationOfShown(items, query, All, sort, nameLe, versionLe);
    assert Query(query) == "";
    FilterAll(items, x => Shown(query, All, x));
  }

  /** When the comparisons are total preorders, so is the comparator of either sort. */
  lemma BeforeIsTotalPreorder(sort: SortMode, nameLe: (string, string) -> bool, versionLe: (string, string) -> bool)
    requires TotalPreorder(nameLe) && TotalPreorder(versionLe)
    ensures TotalPreorder(Before(sort, nameLe, versionLe))
  {
    var le := Before(sort, nameLe, versionLe);
    match sort
    case ByName =>
      forall x, y, z | le(x, y) && le(y, z) ensures le(x, z) {
        assert nameLe(x.name, y.name) && nameLe(y.name, z.name);
      }
      forall x, y ensures le(x, y) || le(y, x) {
        assert nameLe(x.name, y.name) || nameLe(y.name, x.name);
      }
    case ByVersion =>
      forall x, y, z | le(x, y) && le(y, z) ensures le(x, z) {
        assert versionLe(z.version, y.version) && versionLe(y.version, x.version);
      }
      forall x, y ensures le(x, y) || le(y, x) {
        assert versionLe(x.version, y.version) || versionLe(y.version, x.version);
      }
  }

  /** The list is in ascending name order, or in descending version order. */
  lemma FilteredIsSorted(items: seq<Integration>, query: string, mode: FilterMode, sort: SortMode,
                         nameLe: (string, string) -> bool, versionLe: (string, string) -> bool)
    requires TotalPreorder(nameLe) && TotalPreorder(versionLe)
    ensures var r := Filtered(items, query, mode, sort, nameLe, versionLe);
      && (sort == ByName ==> forall i, j :: 0 <= i < j < |r| ==> nameLe(r[i].name, r[j].name))
      && (sort == ByVersion ==> forall i, j :: 0 <= i < j < |r| ==> versionLe(r[j].version, r[i].version))
  {
    var r := Filtered(items, query, mode, sort, nameLe, versionLe);
    var le := Before(sort, nameLe, versionLe);
    BeforeIsTotalPreorder(sort, nameLe, versionLe);
    SortSorted(ByQuery(ByMode(items, mode), Query(query)), le);
    assert Sorted(r, le);
  }

  /** Text found in a string is found in any string that starts with it. */
  lemma {:induction false} ContainsInLonger(a: string, b: string, sub: string)
    requires Contains(a, sub) && a <= b
    ensures Contains(b, sub)
  {
    if !(sub <= a) {
      ContainsInLonger(a[1..], b[1..], sub);
    }
  }

  /** A non-empty first field, lowercased, starts the lowercased join of the non-empty fields. */
  lemma FirstFieldStarts(fields: seq<string>)
    requires fields != [] && fields[0] != ""
    ensures ToLower(fields[0]) <= ToLower(Join(Filter(fields, NonEmpty), " "))
  {
    assert fields == [fields[0]] + fields[1..];
    FilterCons(fields[0], fields[1..], NonEmpty);
    var kept := Filter(fields, NonEmpty);
    JoinStartsWith(kept, " ");
    ToLowerPrefix(fields[0], Join(kept, " "));
  }

  /** The lowercased name, when not empty, starts the text searched. */
  lemma NameStartsHaystack(item: Integration)
    requires item.name != ""
    ensures ToLower(item.name) <= Haystack(item)
  {
    FirstFieldStarts(SearchedFields(item));
  }

  /** The name is searched: a search text found in the lowercased name shows the item. */
  lemma NameIsSearched(q: string, item: Integration)
    requires Contains(ToLower(item.name), q)
    ensures PassesQuery(q, item)
  {
    if q != "" {
      NameStartsHaystack(item);
      ContainsInLonger(ToLower(item.name), Haystack(item), q);
    }
  }
}
