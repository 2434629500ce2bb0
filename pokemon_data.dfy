/** The catalogue loader of src/hooks/usePokemonData.ts: the day-long cache
    test, the enrichment of raw cards with their composite id and display names,
    and the loading/data/error state the hook keeps. Local storage, the clock
    and the three downloads are parameters. */
module PokemonData {
  import opened Types
  import opened Strings

  /** CACHE_DURATION: 24 hours in milliseconds. */
  const CacheDuration: int := 24 * 60 * 60 * 1000

  /** The cached catalogue is still used: `Date.now() - cache.timestamp < CACHE_DURATION`. */
  predicate IsFresh(now: int, timestamp: int) {
    now - timestamp < CacheDuration
  }

  lemma FreshnessWindow(now: int, timestamp: int, earlier: int)
    ensures IsFresh(now, timestamp) <==> now < timestamp + 86_400_000
    ensures !IsFresh(timestamp + 86_400_000, timestamp)
    ensures IsFresh(now, timestamp) && earlier <= now ==> IsFresh(earlier, timestamp)
  {
  }

  // ---------------------------------------------------------------------------
  // Composite card id

  /** `${card.set}-${card.number}`. */
  function MakeId(setCode: string, number: nat): string {
    setCode + "-" + Decimal(number)
  }

  function LastIndexOf(s: string, c: char): (k: Option<nat>)
    ensures k.Some? ==> k.value < |s| && s[k.value] == c && forall j :: k.value < j < |s| ==> s[j] != c
    ensures k.None? ==> forall j :: 0 <= j < |s| ==> s[j] != c
  {
    if |s| == 0 then None
    else if s[|s| - 1] == c then Some(|s| - 1)
    else LastIndexOf(s[..|s| - 1], c)
  }

  /** Splits an id at its last '-' into the set code and the card number. */
  function ParseId(id: string): Option<(string, nat)> {
    match LastIndexOf(id, '-')
    case None => None
    case Some(k) =>
      var digits := id[k + 1..];
      if |digits| > 0 && AllDigits(digits) then Some((id[..k], ParseDecimal(digits))) else None
  }

  /** The id determines the set code and the number, even for set codes that
      contain '-' themselves, because the number part never does. */
  lemma IdRoundTrip(setCode: string, number: nat)
    ensures ParseId(MakeId(setCode, number)) == Some((setCode, number))
  {
    var id := MakeId(setCode, number);
    var d := Decimal(number);
    var n := |setCode|;
    assert id[n] == '-';
    assert forall j :: n < j < |id| ==> id[j] == d[j - n - 1];
    var k := LastIndexOf(id, '-');
    assert k == Some(n);
    assert id[n + 1..] == d && id[..n] == setCode;
    DecimalRoundTrip(number);
  }

  lemma IdInjective(setA: string, numberA: nat, setB: string, numberB: nat)
    requires MakeId(setA, numberA) == MakeId(setB, numberB)
    ensures setA == setB && numberA == numberB
  {
    IdRoundTrip(setA, numberA);
    IdRoundTrip(setB, numberB);
  }

  // ---------------------------------------------------------------------------
  // Enrichment

  /** No later entry of `sets` has the code of entry i. */
  predicate LastWithCode(sets: seq<SetData>, i: int)
    requires 0 <= i < |sets|
  {
    forall j :: i < j < |sets| ==> sets[j].code != sets[i].code
  }

  /** `new Map(sets.map((s) => [s.code, s.label.en]))`: a later entry for the
      same code replaces an earlier one. */
  function SetsMap(sets: seq<SetData>): map<string, string> {
    if sets == [] then map[]
    else
      var last := sets[|sets| - 1];
      SetsMap(sets[..|sets| - 1])[last.code := last.labelEn]
  }

  /** The map has an entry exactly for the codes that occur in `sets`. */
  lemma {:induction false} SetsMapKeys(sets: seq<SetData>, code: string)
    ensures code in SetsMap(sets) <==> exists i :: 0 <= i < |sets| && sets[i].code == code
  {
    if sets != [] {
      var init := sets[..|sets| - 1];
      SetsMapKeys(init, code);
      if code != sets[|sets| - 1].code {
        if exists i :: 0 <= i < |sets| && sets[i].code == code {
          var i :| 0 <= i < |sets| && sets[i].code == code;
          assert init[i] == sets[i];
        }
        if code in SetsMap(init) {
          var i :| 0 <= i < |init| && init[i].code == code;
          assert sets[i] == init[i];
        }
      }
    }
  }

  /** Where a set code occurs several times, the last entry's label wins. */
  lemma {:induction false} SetsMapLastWins(sets: seq<SetData>, i: int)
    requires 0 <= i < |sets| && LastWithCode(sets, i)
    ensures sets[i].code in SetsMap(sets) && SetsMap(sets)[sets[i].code] == sets[i].labelEn
  {
    if i < |sets| - 1 {
      var init := sets[..|sets| - 1];
      assert init[i] == sets[i];
      assert LastWithCode(init, i) by {
        forall j | i < j < |init| ensures init[j].code != init[i].code {
          assert init[j] == sets[j];
        }
      }
      SetsMapLastWins(init, i);
    }
  }

  /** `m.get(key) || fallback`: a missing or empty entry falls back. */
  function LookupOr(m: map<string, string>, key: string, fallback: string): string {
    if key in m && m[key] != "" then m[key] else fallback
  }

  function EnrichCard(raw: RawCard, setsMap: map<string, string>, raritiesMap: map<string, string>): Card {
    Card(
      MakeId(raw.setCode, raw.number),
      raw.setCode,
      raw.number,
      raw.rarityCode,
      raw.imageName,
      raw.cardLabel.eng,
      LookupOr(raritiesMap, raw.rarityCode, raw.rarity),
      LookupOr(setsMap, raw.setCode, raw.setCode))
  }

  /** The enriched catalogue: one card per raw card, in the same order. */
  function Enrich(rawCards: seq<RawCard>, sets: seq<SetData>, rarities: map<string, string>): (cards: seq<Card>)
    ensures |cards| == |rawCards|
    ensures forall i :: 0 <= i < |rawCards| ==>
      var raw, card := rawCards[i], cards[i];
      && card.id == MakeId(raw.setCode, raw.number)
      && card.setCode == raw.setCode && card.number == raw.number
      && card.rarityCode == raw.rarityCode && card.imageName == raw.imageName
      && card.name == raw.cardLabel.eng
  {
    var setsMap := SetsMap(sets);
    seq(|rawCards|, i requires 0 <= i < |rawCards| => EnrichCard(rawCards[i], setsMap, rarities))
  }

  /** The full rarity name is the rarity map's entry when it is present and
      non-empty, and the card's own `rarity` otherwise. */
  lemma RarityFullName(rawCards: seq<RawCard>, sets: seq<SetData>, rarities: map<string, string>, i: int)
    requires 0 <= i < |rawCards|
    ensures var code := rawCards[i].rarityCode;
      Enrich(rawCards, sets, rarities)[i].rarityFullName ==
        if code in rarities && rarities[code] != "" then rarities[code] else rawCards[i].rarity
  {
  }

  /** The set name is the label of the LAST sets entry with the card's set code
      when there is one and it is non-empty, and the set code otherwise. */
  lemma SetNameLastWins(rawCards: seq<RawCard>, sets: seq<SetData>, rarities: map<string, string>, i: int)
    requires 0 <= i < |rawCards|
    ensures var code := rawCards[i].setCode;
      var name := Enrich(rawCards, sets, rarities)[i].setName;
      && ((forall j :: 0 <= j < |sets| ==> sets[j].code != code) ==> name == code)
      && (forall j :: 0 <= j < |sets| && sets[j].code == code && LastWithCode(sets, j) ==>
            name == if sets[j].labelEn != "" then sets[j].labelEn else code)
  {
    var code := rawCards[i].setCode;
    SetsMapKeys(sets, code);
    forall j | 0 <= j < |sets| && sets[j].code == code && LastWithCode(sets, j)
      ensures Enrich(rawCards, sets, rarities)[i].setName == if sets[j].labelEn != "" then sets[j].labelEn else code
    {
      SetsMapLastWins(sets, j);
    }
  }

  /** Distinct (set, number) pairs give distinct ids, so the id is a key. */
  lemma EnrichedIdsDistinct(rawCards: seq<RawCard>, sets: seq<SetData>, rarities: map<string, string>, i: int, j: int)
    requires 0 <= i < |rawCards| && 0 <= j < |rawCards|
    requires rawCards[i].setCode != rawCards[j].setCode || rawCards[i].number != rawCards[j].number
    ensures Enrich(rawCards, sets, rarities)[i].id != Enrich(rawCards, sets, rarities)[j].id
  {
    var cards := Enrich(rawCards, sets, rarities);
    if cards[i].id == cards[j].id {
      IdInjective(rawCards[i].setCode, rawCards[i].number, rawCards[j].setCode, rawCards[j].number);
    }
  }

  // ---------------------------------------------------------------------------
  // The hook's state and fetchData

  /** What the cache read finds: nothing (absent or empty); a read that throws
      before the freshness test, with the thrown message (text that does not
      parse, or the text `null`, whose `timestamp` cannot be read); or a parsed
      entry (whose timestamp may be missing, which makes it stale). */
  datatype CacheRead =
    | NoEntry
    | Unparseable(message: string)
    | Entry(timestamp: Option<int>, data: seq<Card>)

  datatype CacheEntry = CacheEntry(timestamp: int, data: seq<Card>)

  /** What is thrown: an Error with its message, or some other value. */
  datatype Thrown = ErrorObject(message: string) | NonError

  /** How the three downloads end. */
  datatype NetworkOutcome =
    | ResponsesNotOk
    | Threw(thrown: Thrown)
    | Loaded(rawCards: seq<RawCard>, sets: seq<SetData>, rarities: map<string, string>)

  const FetchFailedMessage := "Failed to fetch Pokémon data from GitHub."
  const UnknownErrorMessage := "An unknown error occurred"

  function ThrownMessage(t: Thrown): string {
    match t
    case ErrorObject(message) => message
    case NonError => UnknownErrorMessage
  }

  /** The cache entry is used: it parsed, has a timestamp, and is fresh
      (a missing timestamp makes the comparison false). */
  predicate CacheHit(now: int, cache: CacheRead) {
    cache.Entry? && cache.timestamp.Some? && IsFresh(now, cache.timestamp.value)
  }

  class Hook {
    var data: Option<seq<Card>>
    var isLoading: bool
    var error: Option<string>

    constructor ()
      ensures data == None && isLoading && error == None
    {
      data, isLoading, error := None, true, None;
    }

    /** fetchData. `now` is the clock at the cache test, `writeTime` the clock when
        the new cache entry is written, `cacheWrite` what writing it throws, if
        anything (a full storage quota, say); `fetched` says whether the downloads
        were started and `stored` is what is written to local storage. */
    method FetchData(now: int, cache: CacheRead, network: NetworkOutcome, writeTime: int, cacheWrite: Option<Thrown>)
      returns (fetched: bool, stored: Option<CacheEntry>)
      modifies this
      ensures !isLoading
      ensures fetched <==> !CacheHit(now, cache) && !cache.Unparseable?
      ensures CacheHit(now, cache) ==>
        data == Some(cache.data) && error == old(error) && stored == None
      ensures cache.Unparseable? ==>
        data == old(data) && error == Some(cache.message) && stored == None
      ensures fetched && network.Loaded? ==>
        var cards := Enrich(network.rawCards, network.sets, network.rarities);
        && data == Some(cards)
        && (cacheWrite.None? ==> error == old(error) && stored == Some(CacheEntry(writeTime, cards)))
        && (cacheWrite.Some? ==> error == Some(ThrownMessage(cacheWrite.value)) && stored == None)
      ensures fetched && network.ResponsesNotOk? ==>
        data == old(data) && error == Some(FetchFailedMessage) && stored == None
      ensures fetched && network.Threw? ==>
        data == old(data) && error == Some(ThrownMessage(network.thrown)) && stored == None
    {
      isLoading := true;
      fetched, stored := false, None;
      // The body of the try block; `thrown` is what reaches the catch block.
      var thrown: Option<Thrown> := None;
      var done := false;
      match cache {
        case NoEntry =>
        case Unparseable(message) =>
          thrown := Some(ErrorObject(message));
        case Entry(timestamp, cached) =>
          if timestamp.Some? && IsFresh(now, timestamp.value) {
            data := Some(cached);
            isLoading := false;
            done := true;
          }
      }
      if !done && thrown.None? {
        fetched := true;
        match network {
          case ResponsesNotOk =>
            thrown := Some(ErrorObject(FetchFailedMessage));
          case Threw(t) =>
            thrown := Some(t);
          case Loaded(rawCards, sets, rarities) =>
            var cards := Enrich(rawCards, sets, rarities);
            data := Some(cards);
            if cacheWrite.Some? {
              thrown := cacheWrite;
            } else {
              stored := Some(CacheEntry(writeTime, cards));
            }
        }
      }
      if thrown.Some? {
        error := Some(ThrownMessage(thrown.value));
      }
      // finally
      isLoading := false;
    }
  }
}
