/** The card tile of components/card.tsx: which rarities may go on a trade
    list, when a tile is disabled, when a click reaches the page, and how the
    tile is drawn. */
module CardView {
  import opened Types

  /** TRADEABLE_RARITIES, in the order the component lists them. */
  const TradeableRarities: seq<string> := ["C", "U", "R", "RR", "AR"]

  datatype ActiveList = Wishlist | Tradelist

  predicate IsTradeable(rarityCode: string) {
    rarityCode in TradeableRarities
  }

  /** A tile is disabled on the trade list when its rarity is not tradeable. */
  predicate IsDisabled(activeList: ActiveList, rarityCode: string) {
    activeList == Tradelist && !IsTradeable(rarityCode)
  }

  lemma TradeableIff(rarityCode: string)
    ensures IsTradeable(rarityCode) <==>
      rarityCode == "C" || rarityCode == "U" || rarityCode == "R" || rarityCode == "RR" || rarityCode == "AR"
  {
  }

  lemma DisabledIff(activeList: ActiveList, rarityCode: string)
    ensures !IsDisabled(Wishlist, rarityCode)
    ensures IsDisabled(activeList, rarityCode) <==>
      activeList == Tradelist && rarityCode !in {"C", "U", "R", "RR", "AR"}
  {
  }

  /** The calls `handleToggle` makes to `onToggle`, in order. */
  function ToggleCalls(card: RawCard, activeList: ActiveList): (calls: seq<RawCard>)
    ensures calls == [] <==> IsDisabled(activeList, card.rarityCode)
    ensures calls != [] ==> calls == [card]
  {
    if IsDisabled(activeList, card.rarityCode) then [] else [card]
  }

  /** What the tile shows. */
  datatype Appearance = Appearance(
    title: string,
    grayscale: bool,            // the image is drawn in grey
    selectedBorder: bool,       // highlighted border and scale
    notAllowedCursor: bool,     // dimmed, not-allowed cursor
    notTradeableOverlay: bool)  // the "Not Tradeable" overlay

  const NotTradeableNote := " - This rarity cannot be added to your trade list."

  function BaseTitle(card: RawCard): string {
    card.cardLabel.eng + " (" + card.rarity + ")"
  }

  function Render(card: RawCard, isSelected: bool, activeList: ActiveList): (view: Appearance)
    ensures view.grayscale <==> !isSelected && !IsDisabled(activeList, card.rarityCode)
    ensures view.title == BaseTitle(card) + NotTradeableNote <==> IsDisabled(activeList, card.rarityCode)
    ensures view.title == BaseTitle(card) <==> !IsDisabled(activeList, card.rarityCode)
    ensures view.selectedBorder == isSelected
    ensures view.notAllowedCursor == view.notTradeableOverlay == IsDisabled(activeList, card.rarityCode)
  {
    var disabled := IsDisabled(activeList, card.rarityCode);
    assert BaseTitle(card) != BaseTitle(card) + NotTradeableNote by {
      assert |BaseTitle(card) + NotTradeableNote| > |BaseTitle(card)|;
    }
    Appearance(
      if disabled then BaseTitle(card) + NotTradeableNote else BaseTitle(card),
      !isSelected && !disabled,
      isSelected,
      disabled,
      disabled)
  }
}
