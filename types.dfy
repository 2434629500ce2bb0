/** Records exchanged between the catalogue, the pages and the API routes
    (src/lib/types.ts). Fields the source calls `set` and `label` are `setCode` and `cardLabel`
    here, because both are Dafny keywords. */
module Types {

  datatype Option<T> = None | Some(value: T)

  datatype Label = Label(slug: string, eng: string)

  /** One record of the catalogue's cards.json. components/card.tsx declares the
      same shape again as CardData. */
  datatype RawCard = RawCard(
    setCode: string,
    number: nat,
    rarity: string,
    rarityCode: string,
    imageName: string,
    cardLabel: Label,
    packs: seq<string>)

  /** One record of the catalogue's sets.json. */
  datatype SetData = SetData(
    code: string,
    releaseDate: string,
    count: Option<nat>,
    labelEn: string,
    packs: seq<string>)

  /** A catalogue card enriched for the application; `id` is the composite key. */
  datatype Card = Card(
    id: string,
    setCode: string,
    number: nat,
    rarityCode: string,
    imageName: string,
    name: string,
    rarityFullName: string,
    setName: string)

  /** The lists returned by /api/user/me (the profile is not used by the model). */
  datatype UserData = UserData(wishlist: seq<string>, tradeList: seq<string>)
}
