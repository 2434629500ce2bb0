/** The list editor of src/app/cards/page.tsx: the saved and the edited
    wishlist and trade list, toggling under the trade-rarity rule, change
    detection, the save diff, discarding, and the catalogue's search filter and
    rarity menu. */
module CardsPage {
  import opened Types
  import opened Strings
  import opened Api
  import CardView

  /** ALLOWED_TRADE_RARITIES. */
  const AllowedTradeRarities: set<string> := {"C", "U", "R", "RR", "AR"}

  /** The page's constant and the card tile's list describe the same rarities. */
  lemma SameTradeRule(rarityCode: string)
    ensures rarityCode in AllowedTradeRarities <==> CardView.IsTradeable(rarityCode)
  {
  }

  datatype Tab = WishlistTab | TradeListTab

  // ---------------------------------------------------------------------------
  // Set operations behind the editor

  /** The selection after one toggle: `id` is added when absent, removed when present. */
  function Flip(s: set<string>, id: string): (r: set<string>)
    ensures id in r <==> id !in s
    ensures r - {id} == s - {id}
  {
    if id in s then s - {id} else s + {id}
  }

  lemma FlipTwice(s: set<string>, id: string)
    ensures Flip(Flip(s, id), id) == s
  {
  }

  /** The page's test for one list: the sizes differ, or some saved id is no
      longer selected, or some selected id was not saved. */
  predicate ListChanged(initial: set<string>, selection: set<string>) {
    || |initial| != |selection|
    || (exists id :: id in initial && id !in selection)
    || (exists id :: id in selection && id !in initial)
  }

  /** The page's test is exactly set inequality. */
  lemma ListChangedIff(initial: set<string>, selection: set<string>)
    ensures ListChanged(initial, selection) <==> initial != selection
  {
    if initial != selection {
      if initial <= selection {
        assert exists id :: id in selection && id !in initial;
      }
    }
  }

  datatype Diff = Diff(toAdd: set<string>, toRemove: set<string>)

  /** What a save sends for one list: selected ids that were not saved, and
      saved ids that are no longer selected. */
  function ComputeDiff(initial: set<string>, selection: set<string>): Diff {
    Diff(selection - initial, initial - selection)
  }

  /** Applying the diff to the saved list gives the selection, and nothing is
      both added and removed; the diff is empty exactly when nothing changed. */
  lemma DiffRoundTrip(initial: set<string>, selection: set<string>)
    ensures var d := ComputeDiff(initial, selection);
      && d.toAdd !! d.toRemove
      && d.toAdd !! initial && d.toRemove <= initial
      && (initial - d.toRemove) + d.toAdd == selection
      && (d.toAdd == {} && d.toRemove == {} <==> !ListChanged(initial, selection))
  {
    ListChangedIff(initial, selection);
  }

  /** `[...xs].filter((id) => !exclude.has(id))`: the members of xs outside
      exclude, each once, in the set's iteration order. */
  method SpreadFilter(xs: set<string>, exclude: set<string>) returns (r: seq<string>)
    ensures forall id :: id in r <==> id in xs && id !in exclude
    ensures NoDuplicates(r)
  {
    r := [];
    var rest := xs;
    while rest != {}
      invariant rest <= xs
      invariant forall id :: id in r <==> id in xs - rest && id !in exclude
      invariant NoDuplicates(r)
      decreases rest
    {
      var id :| id in rest;
      if id !in exclude {
        r := r + [id];
      }
      rest := rest - {id};
    }
  }

  // ---------------------------------------------------------------------------
  // The catalogue filter

  /** The filter callback: the lower-cased name contains the lower-cased query,
      and the rarity filter is empty or equals the card's rarity code. */
  predicate Keeps(card: Card, query: string, rarityFilter: string) {
    Contains(Lower(card.name), Lower(query)) && (rarityFilter == "" || card.rarityCode == rarityFilter)
  }

  function FilterCards(cards: seq<Card>, query: string, rarityFilter: string): seq<Card> {
    if cards == [] then []
    else if Keeps(cards[0], query, rarityFilter) then [cards[0]] + FilterCards(cards[1..], query, rarityFilter)
    else FilterCards(cards[1..], query, rarityFilter)
  }

  /** `filteredCards`: nothing before the catalogue has loaded. */
  function FilteredCards(allCards: Option<seq<Card>>, query: string, rarityFilter: string): seq<Card> {
    if allCards.None? then [] else FilterCards(allCards.value, query, rarityFilter)
  }

  /** `sub` is `s` with some elements left out, the rest in the same order. */
  predicate IsSubsequence<T(==)>(sub: seq<T>, s: seq<T>)
    decreases |s|
  {
    if sub == [] then true
    else if s == [] then false
    else (sub[0] == s[0] && IsSubsequence(sub[1..], s[1..])) || IsSubsequence(sub, s[1..])
  }

  /** The filtered list keeps the catalogue's order, a card is in it exactly
      when it is in the catalogue and passes the filter, and a card that passes
      occurs in it as often as in the catalogue. */
  lemma {:induction false} FilterSpec(cards: seq<Card>, query: string, rarityFilter: string)
    ensures IsSubsequence(FilterCards(cards, query, rarityFilter), cards)
    ensures forall c :: c in FilterCards(cards, query, rarityFilter) <==> c in cards && Keeps(c, query, rarityFilter)
    ensures forall c ::
      multiset(FilterCards(cards, query, rarityFilter))[c] == if Keeps(c, query, rarityFilter) then multiset(cards)[c] else 0
  {
    if cards != [] {
      FilterSpec(cards[1..], query, rarityFilter);
      var rest := FilterCards(cards[1..], query, rarityFilter);
      assert cards == [cards[0]] + cards[1..];
      if Keeps(cards[0], query, rarityFilter) {
        assert ([cards[0]] + rest)[1..] == rest;
      } else if rest != [] {
        SubsequenceSkip(rest, cards);
      }
      forall c ensures c in cards <==> c == cards[0] || c in cards[1..] {
      }
    }
  }

  lemma SubsequenceSkip<T>(sub: seq<T>, s: seq<T>)
    requires s != [] && IsSubsequence(sub, s[1..])
    ensures IsSubsequence(sub, s)
  {
  }

  /** An empty query and no rarity filter keep the whole catalogue. */
  lemma {:induction false} FilterKeepsAll(cards: seq<Card>)
    ensures FilterCards(cards, "", "") == cards
  {
    if cards != [] {
      assert Lower("") == "";
      ContainsEmpty(Lower(cards[0].name));
      FilterKeepsAll(cards[1..]);
    }
  }

  // ---------------------------------------------------------------------------
  // The rarity menu

  /** `[...new Set(xs)]`: first occurrences, in order. */
  function Distinct(xs: seq<string>): (r: seq<string>)
    ensures NoDuplicates(r)
    ensures forall x :: x in r <==> x in xs
  {
    if xs == [] then []
    else
      var d := Distinct(xs[..|xs| - 1]);
      assert forall x :: x in xs <==> x in xs[..|xs| - 1] || x == xs[|xs| - 1] by {
        assert xs == xs[..|xs| - 1] + [xs[|xs| - 1]];
      }
      if xs[|xs| - 1] in d then d else d + [xs[|xs| - 1]]
  }

  predicate Sorted(s: seq<string>) {
    forall i, j :: 0 <= i < j < |s| ==> NoLater(s[i], s[j])
  }

  /** Insertion into a sorted list, the reference behaviour of `Array.prototype.sort`. */
  function Insert(x: string, s: seq<string>): seq<string> {
    if s == [] || NoLater(x, s[0]) then [x] + s else [s[0]] + Insert(x, s[1..])
  }

  /** `.sort()` with the default comparison. Any correct sort yields the same
      list, since a sorted permutation under a total order is unique. */
  function Sort(xs: seq<string>): seq<string> {
    if xs == [] then [] else Insert(xs[0], Sort(xs[1..]))
  }

  lemma {:induction false} InsertPermutes(x: string, s: seq<string>)
    ensures multiset(Insert(x, s)) == multiset(s) + multiset{x}
  {
    if s != [] && !NoLater(x, s[0]) {
      InsertPermutes(x, s[1..]);
      assert s == [s[0]] + s[1..];
    }
  }

  lemma {:induction false} InsertSorted(x: string, s: seq<string>)
    requires Sorted(s)
    ensures Sorted(Insert(x, s))
  {
    if s == [] {
    } else if NoLater(x, s[0]) {
      var r := [x] + s;
      forall i, j | 0 <= i < j < |r| ensures NoLater(r[i], r[j]) {
        if i == 0 && j > 1 {
          NoLaterTransitive(x, s[0], s[j - 1]);
        }
      }
    } else {
      var t := Insert(x, s[1..]);
      InsertSorted(x, s[1..]);
      InsertPermutes(x, s[1..]);
      NoLaterTotal(x, s[0]);
      var r := [s[0]] + t;
      forall k | 0 <= k < |t| ensures NoLater(s[0], t[k]) {
        assert t[k] in multiset(t);
        if t[k] != x {
          assert t[k] in s[1..];
          var m :| 0 <= m < |s[1..]| && s[1..][m] == t[k];
          assert s[m + 1] == t[k];
        }
      }
      forall i, j | 0 <= i < j < |r| ensures NoLater(r[i], r[j]) {
        if i > 0 {
          assert r[i] == t[i - 1] && r[j] == t[j - 1];
        }
      }
    }
  }

  lemma {:induction false} SortSpec(xs: seq<string>)
    ensures Sorted(Sort(xs))
    ensures multiset(Sort(xs)) == multiset(xs)
  {
    if xs != [] {
      SortSpec(xs[1..]);
      InsertSorted(xs[0], Sort(xs[1..]));
      InsertPermutes(xs[0], Sort(xs[1..]));
      assert xs == [xs[0]] + xs[1..];
    }
  }

  lemma {:induction false} InsertKeepsDistinct(x: string, s: seq<string>)
    requires NoDuplicates(s) && x !in s
    ensures NoDuplicates(Insert(x, s))
  {
    if s != [] && !NoLater(x, s[0]) {
      var t := Insert(x, s[1..]);
      InsertKeepsDistinct(x, s[1..]);
      InsertPermutes(x, s[1..]);
      forall k | 0 <= k < |t| ensures t[k] != s[0] {
        assert t[k] in multiset(s[1..]) + multiset{x};
        if t[k] != x {
          assert t[k] in s[1..];
          var m :| 0 <= m < |s[1..]| && s[1..][m] == t[k];
          assert s[m + 1] == t[k];
        }
      }
      var r := [s[0]] + t;
      forall i, j | 0 <= i < j < |r| ensures r[i] != r[j] {
        if i > 0 {
          assert r[i] == t[i - 1] && r[j] == t[j - 1];
        } else {
          assert r[j] in t;
        }
      }
    }
  }

  lemma {:induction false} SortKeepsDistinct(xs: seq<string>)
    requires NoDuplicates(xs)
    ensures NoDuplicates(Sort(xs))
  {
    if xs != [] {
      SortKeepsDistinct(xs[1..]);
      SortSpec(xs[1..]);
      var sorted := Sort(xs[1..]);
      forall k | 0 <= k < |sorted| ensures sorted[k] != xs[0] {
        assert sorted[k] in multiset(xs[1..]);
        var m :| 0 <= m < |xs[1..]| && xs[1..][m] == sorted[k];
        assert xs[m + 1] == sorted[k];
      }
      InsertKeepsDistinct(xs[0], Sort(xs[1..]));
    }
  }

  /** The first element of a sorted list comes no later than any of its elements. */
  lemma SortedHeadFirst(a: seq<string>, x: string)
    requires Sorted(a) && x in a
    ensures NoLater(a[0], x)
  {
    var j :| 0 <= j < |a| && a[j] == x;
    if j == 0 {
      NoLaterReflexive(x);
    }
  }

  lemma SortedTail(a: seq<string>)
    requires Sorted(a) && a != []
    ensures Sorted(a[1..])
  {
    forall i, j | 0 <= i < j < |a[1..]| ensures NoLater(a[1..][i], a[1..][j]) {
      assert a[1..][i] == a[i + 1] && a[1..][j] == a[j + 1];
    }
  }

  lemma TailMultiset(a: seq<string>)
    requires a != []
    ensures multiset(a[1..]) == multiset(a) - multiset{a[0]}
  {
    assert a == [a[0]] + a[1..];
  }

  /** Two sorted lists with the same elements are equal, so any correct sort
      gives the list Sort gives. */
  lemma {:induction false} SortedPermutationUnique(a: seq<string>, b: seq<string>)
    requires Sorted(a) && Sorted(b) && multiset(a) == multiset(b)
    ensures a == b
  {
    if a != [] && b != [] {
      assert a[0] in multiset(b) && b[0] in multiset(a);
      SortedHeadFirst(a, b[0]);
      SortedHeadFirst(b, a[0]);
      NoLaterAntisymmetric(a[0], b[0]);
      TailMultiset(a);
      TailMultiset(b);
      SortedTail(a);
      SortedTail(b);
      SortedPermutationUnique(a[1..], b[1..]);
      assert a == [a[0]] + a[1..] && b == [b[0]] + b[1..];
    } else {
      assert |a| == |multiset(a)| == |multiset(b)| == |b|;
    }
  }

  function RarityCodes(cards: seq<Card>): (codes: seq<string>)
    ensures |codes| == |cards|
    ensures forall i :: 0 <= i < |cards| ==> codes[i] == cards[i].rarityCode
  {
    seq(|cards|, i requires 0 <= i < |cards| => cards[i].rarityCode)
  }

  /** `rarities`: the distinct rarity codes of the catalogue, sorted. */
  function Rarities(allCards: Option<seq<Card>>): seq<string> {
    if allCards.None? then [] else Sort(Distinct(RarityCodes(allCards.value)))
  }

  /** The rarity menu is sorted, lists no code twice, and lists exactly the
      codes that occur in the catalogue. */
  lemma RaritiesSpec(cards: seq<Card>)
    ensures var r := Rarities(Some(cards));
      && Sorted(r)
      && NoDuplicates(r)
      && forall code :: code in r <==> exists i :: 0 <= i < |cards| && cards[i].rarityCode == code
  {
    var d := Distinct(RarityCodes(cards));
    SortSpec(d);
    SortKeepsDistinct(d);
    forall code ensures code in Sort(d) <==> code in d {
      assert code in Sort(d) <==> code in multiset(Sort(d));
    }
  }

  // ---------------------------------------------------------------------------
  // The editor's state

  /** The toast the save shows once both requests have answered. */
  datatype SaveToast = ListsUpdated | CouldNotSave

  /** A save succeeds, and the user's lists are fetched again, only when both
      requests answered with a 2xx status. */
  function SaveOutcome(wishlistOk: bool, tradeListOk: bool): (toast: SaveToast)
    ensures toast == ListsUpdated <==> wishlistOk && tradeListOk
  {
    if !wishlistOk || !tradeListOk then CouldNotSave else ListsUpdated
  }

  class SelectionEditor {
    var activeTab: Tab
    var initialWishlist: set<string>
    var initialTradeList: set<string>
    var wishlistSelection: set<string>
    var tradeListSelection: set<string>

    constructor ()
      ensures activeTab == WishlistTab
      ensures initialWishlist == initialTradeList == wishlistSelection == tradeListSelection == {}
    {
      activeTab := WishlistTab;
      initialWishlist, initialTradeList := {}, {};
      wishlistSelection, tradeListSelection := {}, {};
    }

    /** The effect that runs when the user's saved lists arrive. */
    method LoadUserData(userData: Option<UserData>)
      modifies this
      ensures activeTab == old(activeTab)
      ensures userData.None? ==>
        && initialWishlist == old(initialWishlist) && wishlistSelection == old(wishlistSelection)
        && initialTradeList == old(initialTradeList) && tradeListSelection == old(tradeListSelection)
      ensures userData.Some? ==>
        && (forall id :: id in initialWishlist <==> id in userData.value.wishlist)
        && (forall id :: id in initialTradeList <==> id in userData.value.tradeList)
        && wishlistSelection == initialWishlist
        && tradeListSelection == initialTradeList
    {
      if userData.Some? {
        var wSet := set id | id in userData.value.wishlist;
        var tSet := set id | id in userData.value.tradeList;
        initialWishlist := wSet;
        wishlistSelection := wSet;
        initialTradeList := tSet;
        tradeListSelection := tSet;
      }
    }

    method SetActiveTab(tab: Tab)
      modifies this`activeTab
      ensures activeTab == tab
    {
      activeTab := tab;
    }

    /** handleToggleCard; `rejected` is the "cannot be traded" toast. */
    method ToggleCard(card: Card) returns (rejected: bool)
      modifies this`wishlistSelection, this`tradeListSelection
      ensures rejected <==> activeTab == TradeListTab && card.rarityCode !in AllowedTradeRarities
      ensures rejected ==>
        wishlistSelection == old(wishlistSelection) && tradeListSelection == old(tradeListSelection)
      ensures !rejected && activeTab == TradeListTab ==>
        tradeListSelection == Flip(old(tradeListSelection), card.id) && wishlistSelection == old(wishlistSelection)
      ensures !rejected && activeTab == WishlistTab ==>
        wishlistSelection == Flip(old(wishlistSelection), card.id) && tradeListSelection == old(tradeListSelection)
    {
      var isTradeTab := activeTab == TradeListTab;
      var currentSet := if isTradeTab then tradeListSelection else wishlistSelection;
      if isTradeTab && card.rarityCode !in AllowedTradeRarities {
        return true;
      }
      var newSet := currentSet;
      if card.id in newSet {
        newSet := newSet - {card.id};
      } else {
        newSet := newSet + {card.id};
      }
      if isTradeTab {
        tradeListSelection := newSet;
      } else {
        wishlistSelection := newSet;
      }
      rejected := false;
    }

    /** Toggling the same card twice leaves both selections as they were. */
    method ToggleCardTwice(card: Card)
      modifies this`wishlistSelection, this`tradeListSelection
      ensures wishlistSelection == old(wishlistSelection) && tradeListSelection == old(tradeListSelection)
    {
      var _ := ToggleCard(card);
      var _ := ToggleCard(card);
      FlipTwice(old(wishlistSelection), card.id);
      FlipTwice(old(tradeListSelection), card.id);
    }

    /** hasChanges: one of the two selections differs from what was saved. */
    function HasChanges(): (changed: bool)
      reads this
      ensures changed <==> wishlistSelection != initialWishlist || tradeListSelection != initialTradeList
    {
      ListChangedIff(initialWishlist, wishlistSelection);
      ListChangedIff(initialTradeList, tradeListSelection);
      ListChanged(initialWishlist, wishlistSelection) || ListChanged(initialTradeList, tradeListSelection)
    }

    /** handleSaveChanges: the bodies of the wishlist and the trade-list batch requests. */
    method SaveChanges() returns (wishlistBody: ListDiffRequest, tradeListBody: ListDiffRequest)
      ensures forall id :: id in wishlistBody.toAdd <==> id in ComputeDiff(initialWishlist, wishlistSelection).toAdd
      ensures forall id :: id in wishlistBody.toRemove <==> id in ComputeDiff(initialWishlist, wishlistSelection).toRemove
      ensures forall id :: id in tradeListBody.toAdd <==> id in ComputeDiff(initialTradeList, tradeListSelection).toAdd
      ensures forall id :: id in tradeListBody.toRemove <==> id in ComputeDiff(initialTradeList, tradeListSelection).toRemove
      ensures NoDuplicates(wishlistBody.toAdd) && NoDuplicates(wishlistBody.toRemove)
      ensures NoDuplicates(tradeListBody.toAdd) && NoDuplicates(tradeListBody.toRemove)
    {
      var wishlistToAdd := SpreadFilter(wishlistSelection, initialWishlist);
      var wishlistToRemove := SpreadFilter(initialWishlist, wishlistSelection);
      var tradeListToAdd := SpreadFilter(tradeListSelection, initialTradeList);
      var tradeListToRemove := SpreadFilter(initialTradeList, tradeListSelection);
      wishlistBody := ListDiffRequest(wishlistToAdd, wishlistToRemove);
      tradeListBody := ListDiffRequest(tradeListToAdd, tradeListToRemove);
    }

    /** handleDiscardChanges. */
    method DiscardChanges()
      modifies this`wishlistSelection, this`tradeListSelection
      ensures wishlistSelection == initialWishlist && tradeListSelection == initialTradeList
      ensures !HasChanges()
    {
      wishlistSelection := initialWishlist;
      tradeListSelection := initialTradeList;
    }
  }
}
