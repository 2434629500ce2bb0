# poketrade list editor, sign-up and catalogue logic in Dafny

This project models the decision-making code of poketrade, a web application
where players of Pokémon TCG Pocket keep a wishlist and a trade list of cards.
It covers:

- the list editor page (`src/app/cards/page.tsx`). The editor holds the saved
  and the edited wishlist and trade list. It toggles cards under the
  trade-rarity rule, detects changes, computes the add/remove diff it saves,
  and discards edits. It also filters the catalogue and builds the rarity menu;
- the card tile (`components/card.tsx`): which rarities are tradeable, when a
  tile is disabled, and how it is drawn;
- the catalogue hook (`src/hooks/usePokemonData.ts`): the 24-hour cache test,
  the enrichment of raw catalogue records, and the loading/data/error state;
- the sign-up endpoint (`src/app/api/auth/signup/route.ts`) and the sign-up
  form (`src/components/auth/SignupForm.tsx`);
- the trade-list batch endpoint
  (`src/app/api/user/tradelist/batch-update/route.ts`).

Pure code is written as functions and lemmas. Code that updates state in place
is written as classes with methods:

- the editor's four selection sets (`CardsPage.SelectionEditor`);
- the hook's state (`PokemonData.Hook`);
- the form's loading flag (`SignupForm.Form`).

Everything outside the program is a parameter:

- the clock (`now`, `writeTime`);
- what local storage holds (`CacheRead`) and what writing it throws (`cacheWrite`);
- how the three downloads end (`NetworkOutcome`);
- the e-mail check (`isEmail`);
- the identity provider's answer to a sign-up (`signUp`);
- the store's answer to each insert or delete (`execute`);
- how the form's request ends: an answer, or a rejection (`Reply`).

The batch endpoint returns the store operations it issues, as a plan.

Files: `strings.dfy` (decimal text, join, substring, ASCII lower-casing,
code-point order, which agrees with `sort()` on ASCII), `types.dfy` (the records of `src/lib/types.ts`), `api.dfy`
(response bodies and the flattened validation error), `card_view.dfy`,
`pokemon_data.dfy`, `cards_page.dfy`, `signup_route.dfy`, `batch_update.dfy`,
`signup_form.dfy`.

The source field `set` is named `setCode`, and `label` is named `cardLabel`,
because `set` and `label` are Dafny keywords.

## Model

| member | source | states |
|---|---|---|
| `Strings.Decimal` | src/hooks/usePokemonData.ts:62 | the text of a card number is a non-empty string of decimal digits with no leading zero |
| `Strings.DecimalRoundTrip` | src/hooks/usePokemonData.ts:62 | reading the decimal text of a number back gives the number |
| `Strings.JoinEmptyIff` | src/components/auth/SignupForm.tsx:52 | joining with a non-empty separator gives "" exactly when there are no parts or a single empty part |
| `Strings.ContainsEmpty` | src/app/cards/page.tsx:69-71 | every name contains the empty query |
| `Strings.Lower` | src/app/cards/page.tsx:69-71 | lower-casing keeps the length and maps each character on its own (ASCII letters only) |
| `Strings.NoLaterReflexive` | src/app/cards/page.tsx:81 | the sort order is reflexive |
| `Strings.NoLaterTotal` | src/app/cards/page.tsx:81 | any two strings are comparable in the sort order |
| `Strings.NoLaterAntisymmetric` | src/app/cards/page.tsx:81 | strings that each sort no later than the other are equal |
| `Strings.NoLaterTransitive` | src/app/cards/page.tsx:81 | the sort order is transitive |
| `Api.FieldEntry` | src/app/api/auth/signup/route.ts:27-31 | a field appears in the flattened error exactly when it has messages |
| `CardView.TradeableIff` | components/card.tsx:32-38 | a rarity is tradeable exactly when it is one of C, U, R, RR, AR |
| `CardView.DisabledIff` | components/card.tsx:41 | a tile is disabled exactly when the trade list is active and the rarity is not tradeable; never on the wishlist |
| `CardView.ToggleCalls` | components/card.tsx:43-47 | a click calls onToggle once with the card when the tile is enabled, and never when it is disabled |
| `CardView.Render` | components/card.tsx:52-94 | the image is grey exactly when the card is neither selected nor disabled; the title carries the "cannot be added to your trade list" note exactly when disabled; the overlay and not-allowed cursor appear exactly when disabled |
| `PokemonData.FreshnessWindow` | src/hooks/usePokemonData.ts:7-35 | the cache is used exactly when now is less than timestamp + 86,400,000; the comparison is strict, and a fresh entry is also fresh at any earlier time |
| `PokemonData.IdRoundTrip` | src/hooks/usePokemonData.ts:62 | the set code and number can be read back from the id by splitting at its last '-', even when the set code itself contains '-' |
| `PokemonData.IdInjective` | src/hooks/usePokemonData.ts:62 | different (set, number) pairs get different ids |
| `PokemonData.SetsMapKeys` | src/hooks/usePokemonData.ts:58 | the sets map has an entry exactly for the set codes in sets.json |
| `PokemonData.SetsMapLastWins` | src/hooks/usePokemonData.ts:58 | when a set code occurs several times, the map holds the label of its last occurrence |
| `PokemonData.Enrich` | src/hooks/usePokemonData.ts:61-70 | one enriched card per raw card, in the same order; id is set + "-" + number; set, number, rarityCode and imageName are copied; name is label.eng |
| `PokemonData.RarityFullName` | src/hooks/usePokemonData.ts:59-68 | rarityFullName is the rarity map's entry when present and non-empty, else the raw rarity |
| `PokemonData.SetNameLastWins` | src/hooks/usePokemonData.ts:58-69 | setName is the last matching set's label when it is non-empty, and the set code when the label is empty or the code is unknown |
| `PokemonData.EnrichedIdsDistinct` | src/hooks/usePokemonData.ts:61-62 | cards that differ in set or number get different ids |
| `PokemonData.Hook.constructor` | src/hooks/usePokemonData.ts:23-25 | the hook starts with no data, no error, and loading on |
| `PokemonData.Hook.FetchData` | src/hooks/usePokemonData.ts:28-86 | loading is off on every path. A fresh cache entry is used without downloading. A cache read that throws (unparseable text, or `null`) sets the error and downloads nothing. Otherwise the downloads run. On success the enriched cards become the data; they are cached when the cache write succeeds, and when that write throws the error is set as well. A bad status or a throw sets the error and keeps the old data |
| `CardsPage.SameTradeRule` | src/app/cards/page.tsx:14 | the page's tradeable set equals the card tile's list |
| `CardsPage.Flip` | src/app/cards/page.tsx:95-100 | a toggle flips the card id's membership and changes nothing else |
| `CardsPage.FlipTwice` | src/app/cards/page.tsx:95-100 | toggling the same id twice restores the set |
| `CardsPage.ListChangedIff` | src/app/cards/page.tsx:104-113 | the size-and-membership test for one list is exactly set inequality |
| `CardsPage.DiffRoundTrip` | src/app/cards/page.tsx:122-133 | the ids to add and to remove are disjoint, and (initial minus removed) plus added equals the selection; the diff is empty exactly when the list did not change |
| `CardsPage.SpreadFilter` | src/app/cards/page.tsx:122-133 | filtering a spread set gives, once each, exactly the members outside the excluded set |
| `CardsPage.FilterSpec` | src/app/cards/page.tsx:66-77 | the filtered cards are a subsequence of the catalogue, in order; a card is kept exactly when its lower-cased name contains the lower-cased query and the filter is empty or equals its rarity code; a kept card occurs as often as in the catalogue |
| `CardsPage.FilterKeepsAll` | src/app/cards/page.tsx:66-77 | an empty query with no rarity filter keeps the whole catalogue |
| `CardsPage.Distinct` | src/app/cards/page.tsx:81 | the spread of a Set has no duplicates and holds exactly the input's values |
| `CardsPage.InsertPermutes` | src/app/cards/page.tsx:81 | inserting into a list adds exactly that one element |
| `CardsPage.InsertSorted` | src/app/cards/page.tsx:81 | inserting into a sorted list keeps it sorted |
| `CardsPage.SortSpec` | src/app/cards/page.tsx:81 | the sort's result is sorted and a permutation of its input |
| `CardsPage.InsertKeepsDistinct` | src/app/cards/page.tsx:81 | inserting a new element into a duplicate-free list keeps it duplicate-free |
| `CardsPage.SortKeepsDistinct` | src/app/cards/page.tsx:81 | sorting a duplicate-free list keeps it duplicate-free |
| `CardsPage.SortedPermutationUnique` | src/app/cards/page.tsx:81 | two sorted lists with the same elements are equal, so any correct sort gives the same rarity menu |
| `CardsPage.RaritiesSpec` | src/app/cards/page.tsx:79-83 | the rarity menu is sorted, duplicate-free, and lists exactly the rarity codes in the catalogue |
| `CardsPage.SaveOutcome` | src/app/cards/page.tsx:152-164 | the save reports success exactly when both batch requests answered ok |
| `CardsPage.SelectionEditor.constructor` | src/app/cards/page.tsx:32-47 | the editor starts on the wishlist tab with all four sets empty |
| `CardsPage.SelectionEditor.LoadUserData` | src/app/cards/page.tsx:49-58 | when user data arrives, each saved set and its selection both become the set of the returned ids; without data nothing changes |
| `CardsPage.SelectionEditor.SetActiveTab` | src/app/cards/page.tsx:194-200 | switching tabs sets the active tab |
| `CardsPage.SelectionEditor.ToggleCard` | src/app/cards/page.tsx:85-102 | on the trade tab a card of a non-tradeable rarity is rejected and both selections stay; otherwise the active tab's selection is flipped at the card id and the other selection stays |
| `CardsPage.SelectionEditor.ToggleCardTwice` | src/app/cards/page.tsx:85-102 | toggling one card twice leaves both selections as they were |
| `CardsPage.SelectionEditor.HasChanges` | src/app/cards/page.tsx:104-119 | hasChanges is true exactly when either selection differs from its saved set |
| `CardsPage.SelectionEditor.SaveChanges` | src/app/cards/page.tsx:121-151 | each request's toAdd holds exactly the selected ids that were not saved, and toRemove exactly the saved ids no longer selected, with no duplicates |
| `CardsPage.SelectionEditor.DiscardChanges` | src/app/cards/page.tsx:167-170 | after discarding, each selection equals its saved set and hasChanges is false |
| `SignupRoute.ValidFriendIdSplits` | src/app/api/auth/signup/route.ts:17-19 | an accepted friend id is four four-digit groups joined by '-' |
| `SignupRoute.GroupsMakeValidFriendId` | src/app/api/auth/signup/route.ts:17-19 | four four-digit groups joined by '-' form an accepted friend id |
| `SignupRoute.FriendIdGroups` | src/app/api/auth/signup/route.ts:17-19 | a friend id is accepted exactly when it is four groups of four digits joined by '-' |
| `SignupRoute.EmailIssues` | src/app/api/auth/signup/route.ts:7 | the e-mail field has no messages exactly when it is present and well formed |
| `SignupRoute.PasswordIssues` | src/app/api/auth/signup/route.ts:8 | the password has no messages exactly when it is present with at least 8 characters |
| `SignupRoute.UsernameIssues` | src/app/api/auth/signup/route.ts:9-16 | the username has no messages exactly when it is present, 3 to 20 characters long, and made only of letters, digits and '_' |
| `SignupRoute.FriendIdIssues` | src/app/api/auth/signup/route.ts:17-19 | the friend id has no messages exactly when it is present and matches the pattern |
| `SignupRoute.Validate` | src/app/api/auth/signup/route.ts:6-20 | the body is accepted exactly when it is an object whose four fields all pass, and the accepted data are its fields unchanged |
| `SignupRoute.AcceptedDataMeetsRules` | src/app/api/auth/signup/route.ts:6-20 | accepted data have a password of length at least 8, a username of 3..20 characters of [A-Za-z0-9_], a 19-character friend id and a well-formed e-mail |
| `SignupRoute.RejectionHasMessages` | src/app/api/auth/signup/route.ts:27-33 | a rejection carries at least one message, and none is empty |
| `SignupRoute.FieldValuesNonEmpty` | src/app/api/auth/signup/route.ts:27-33 | the messages of well-formed field entries, flattened, are non-empty and contain no empty message |
| `SignupRoute.Post` | src/app/api/auth/signup/route.ts:22-59 | an invalid body gets 400 with the flattened errors and no sign-up call; otherwise sign-up is called with e-mail, password and metadata username/friend_id unchanged, and the answer is 400 with the provider's message or 201 |
| `SignupRoute.PostStatus` | src/app/api/auth/signup/route.ts:27-58 | a sign-up call is made exactly when the body is valid; the status is 201 exactly when that call succeeds, and 400 otherwise |
| `TradeListBatchUpdate.ListIssues` | src/app/api/user/tradelist/batch-update/route.ts:7-10 | a list has no messages exactly when it is present with at most 500 ids |
| `TradeListBatchUpdate.Validate` | src/app/api/user/tradelist/batch-update/route.ts:7-10 | the body is accepted exactly when both lists are present with at most 500 ids each, and passes them unchanged |
| `TradeListBatchUpdate.Records` | src/app/api/user/tradelist/batch-update/route.ts:39-42 | one insert record per id of toAdd, in order, each with the session's user id and that id |
| `TradeListBatchUpdate.PlanOf` | src/app/api/user/tradelist/batch-update/route.ts:36-53 | an insert comes first exactly when toAdd is non-empty; a delete scoped to the user and the removed ids comes last exactly when toRemove is non-empty |
| `TradeListBatchUpdate.PlanOperations` | src/app/api/user/tradelist/batch-update/route.ts:36-53 | the conditional pushes build exactly that plan |
| `TradeListBatchUpdate.ErrorMessages` | src/app/api/user/tradelist/batch-update/route.ts:56 | there are no error messages exactly when every operation succeeded |
| `TradeListBatchUpdate.FoldErrors` | src/app/api/user/tradelist/batch-update/route.ts:56-59 | the folded error is absent exactly when every operation succeeded |
| `TradeListBatchUpdate.Post` | src/app/api/user/tradelist/batch-update/route.ts:12-69 | no session gives 401 with no store call, before validation; an invalid body gives 400 with no store call; otherwise the plan is issued, and the answer is 200 when no operation failed and 500 with the folded messages when one did |
| `TradeListBatchUpdate.InsertsEveryId` | src/app/api/user/tradelist/batch-update/route.ts:32-43 | every id of toAdd is inserted with the user's id, whatever its rarity |
| `TradeListBatchUpdate.EmptyBatchSucceeds` | src/app/api/user/tradelist/batch-update/route.ts:36-63 | two empty lists plan no operation and succeed |
| `TradeListBatchUpdate.BothFailJoined` | src/app/api/user/tradelist/batch-update/route.ts:56-58 | when both operations fail, the message is the insert's message, ", ", then the delete's |
| `TradeListBatchUpdate.OneFailureAlone` | src/app/api/user/tradelist/batch-update/route.ts:56-58 | when exactly one operation fails, its message is the whole message |
| `TradeListBatchUpdate.OnlyFailureMessage` | src/app/api/user/tradelist/batch-update/route.ts:56 | with one failure, the collected messages are that failure's message alone |
| `TradeListBatchUpdate.OverBoundRefused` | src/app/api/user/tradelist/batch-update/route.ts:7-10 | a list of more than 500 ids is refused with a field error |
| `TradeListBatchUpdate.EditorRequestAccepted` | src/app/api/user/tradelist/batch-update/route.ts:24-32 | an editor request with at most 500 ids each way is accepted unchanged |
| `SignupForm.ErrorToast` | src/components/auth/SignupForm.tsx:42-57 | an object error shows its form errors then all field errors, joined by new lines, or the fallback when there are none or one empty message; a string error shows itself, or the generic text when it is empty; a missing error shows the generic text |
| `SignupForm.RefusalsShown` | src/components/auth/SignupForm.tsx:42-57 | every validation refusal of the endpoint is shown as all its messages, never the fallback or an empty text; a refused sign-up is shown as the provider's message |
| `SignupForm.RequestForwarded` | src/components/auth/SignupForm.tsx:28-34 | an accepted request's username and friend id reach the sign-up call unchanged as username and friend_id |
| `SignupForm.Form.constructor` | src/components/auth/SignupForm.tsx:10-15 | the form starts with empty fields and loading off |
| `SignupForm.Form.HandleSubmit` | src/components/auth/SignupForm.tsx:17-60 | when the passwords differ, an error is shown, nothing is sent and loading is untouched. Otherwise exactly username, e-mail, password, confirmation and friend id are sent with loading on. On an answer loading is off afterwards; success shows a toast and goes to /dashboard, and failure shows the error toast. On a rejection (the request fails, or a failed answer's body is not JSON) loading stays on, no toast is shown and nothing is navigated |

## Left out

- Network and storage calls are parameters, not modelled: fetch, SWR's mutate,
  local storage, and the Supabase auth, select, insert and delete calls.
  src/utils/supabase/admin.ts and the environment it reads are not part of this model.
- The concurrency of Promise.all is not modelled. The batch endpoint's operations
  are a sequential plan and their results come back in plan order. A rejected
  promise (a thrown store call) is not modelled; only error results are.
- The trade-match engine is not modelled. No file of the repository implements it.
- The JSON parsing of request bodies is not modelled. A body that is not JSON
  fails the endpoint before validation, and that path is left out.
- Wrongly typed fields are merged with missing ones (`None`).
- The validation library's own message texts ("Required", "Invalid email", the
  min/max texts, "Expected object") are written as constants. How the library
  words them is not part of this model.
- E-mail well-formedness is a predicate passed in (`isEmail`).
- String lengths count Unicode scalar values. JavaScript counts UTF-16 code units,
  so the two can differ outside the Basic Multilingual Plane.
- `CardsPage.Keeps`: `toLowerCase` is modelled for ASCII letters only; other
  characters are left unchanged.
- `CardsPage.Sort`: `sort()` compares UTF-16 code units; the model compares
  Unicode scalar values. The two orders agree on the ASCII rarity codes.
- `CardsPage.SpreadFilter`: JavaScript iterates a Set in insertion order. The
  model picks elements in an unspecified order, so only the contents and the
  absence of duplicates of toAdd/toRemove are stated, not their order.
- `CardsPage.SelectionEditor.SaveChanges` computes the two request bodies. The
  wishlist batch endpoint it posts to is not part of this model, and SWR's
  refetch after a save is left out.
- Toast notifications are modelled only as returned values: `rejected` in
  ToggleCard, `SaveOutcome`, and the form's `Toast`. The hook's error toast is
  left out.
- The login page, the login form and endpoint, src/app/api/user/me/route.ts,
  the auth context, and pure rendering components are left out; they make no
  decision beyond what is modelled above.
- The card number is a natural number. The catalogue gives it as a JSON number;
  fractional or negative numbers are not modelled.
- `PokemonData.Hook.FetchData` stores the thrown error's message, not the Error
  object. Cached text `null` parses to null, and reading its timestamp throws a
  TypeError; the model gives that read as `Unparseable` with the TypeError's
  message. Any other cached value that is not an object has no timestamp, so it
  is stale (`Entry` with no timestamp). JSON.stringify of the new entry is
  assumed not to throw.
