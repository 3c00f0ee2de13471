# Team picker games and roster: a Dafny model

This project models the logic of a small team web application. It has three
client screens and one HTTP endpoint:

- **Map game** (`src/components/MapGame.tsx`). The roster is fetched once and
  frozen into a pool of the members whose status is exactly `"active"`.
  - Each draw picks one member not drawn yet and gives it a pin coordinate.
  - Once the reverse geocoder answers, the pick is labelled with a country
    name, falling back to `"Unknown Location"`.
  - Reset forgets the draw history.
- **Emoji game** (`src/components/EmojiGame.tsx`). The same draw without
  replacement. Each draw also shows a question and six answers: the first six
  of a shuffle of one of three fixed fifteen-answer themes.
- **Roster screen** (`src/components/TeamMembers.tsx`). It keeps a local copy
  of the roster. The copy changes only after a request succeeds: append on
  add, replace by id on a status toggle, filter by id on delete, empty on
  delete-all. Each failure leaves the list alone and shows that operation's
  message.
- **`/api/team` endpoint** (`src/app/api/team/route.ts`).
  - GET lists the roster newest first.
  - POST creates a member after an ordered chain of early returns: 401
    without a session, 400 when a field is missing, 400 for a bad status,
    then 201.

A step that is random in the application is an argument of the model:
- the index of the drawn candidate;
- the theme key;
- the shuffle, given as a permutation of the indices 0–14.

Network requests and the session lookup become arguments that carry their
outcome. The `Option`s hold a fetched roster, a server reply or a stored row
stamp, and small datatypes distinguish a non-ok reply from a thrown error.

Modules, one file each:

| file | module | contents |
|---|---|---|
| `wrappers.dfy` | `Wrappers` | `Option` |
| `collections.dfy` | `Collections` | sequences without repetitions, their sizes and multisets, index permutations |
| `roster.dfy` | `Roster` | the `Member` record, the `"active"` filter |
| `draw.dfy` | `Draw` | draw without replacement by id, shared by both games, and its counting lemmas |
| `map_game.dfy` | `MapGame` | the country fallback, the labelling of the history, the `MapSession` class |
| `emoji_game.dfy` | `EmojiGame` | the theme table, the prompt draw, the `EmojiSession` class |
| `team_members.dfy` | `TeamMembers` | the list edits and the `Panel` class for the roster screen |
| `team_route.dfy` | `TeamRoute` | `Post` and `Get` of the team endpoint |

The two game screens and the roster screen are classes.
- Their fields are the component's state variables.
- Each handler is a method that states the whole new state.
- Both games keep the invariant that the picked ids are pairwise distinct ids
  of pool members.

The pure parts are functions with lemmas: the filters, the map-by-id, the
country fallback, the prompt draw, the endpoint's decision chain and its
ordering.

`MapGame.ThreeMemberSession`, `MapGame.DrawThree` and
`MapGame.ExhaustedThenReset` are client methods that drive one session through
a fixed sequence of calls on a roster of three active members with unique
ids:
1. three draws give three different members;
2. a fourth draw, and a repeated fifth, report that everybody has been picked
   and keep the history;
3. after a reset a draw succeeds again.

## Model

| member | source | states |
|---|---|---|
| Roster.ActiveOnly | src/components/MapGame.tsx:67 | a member is in the pool exactly when it was fetched and its status is `"active"`; the pool is never longer than the fetched list |
| Roster.ActiveOnlyAppend | src/components/EmojiGame.tsx:91 | the filter distributes over concatenation, so the pool keeps the fetched order |
| Roster.ActiveOnlyAllActive | src/components/MapGame.tsx:67 | a fetched list of active members is its own pool |
| Roster.ActiveOnlyNoneActive | src/components/EmojiGame.tsx:91 | a fetched list without active members gives an empty pool |
| Draw.Available | src/components/MapGame.tsx:128-130 | a pool member is a candidate exactly when its id is not among the picked ids; there are never more candidates than pool members |
| Draw.NothingTakenAllAvailable | src/components/MapGame.tsx:158-162 | with nothing picked, the candidates are the whole pool in order |
| Draw.DrawKeepsInvariant | src/components/MapGame.tsx:138-148 | appending the drawn candidate's id keeps the picked ids pairwise distinct and all of them ids of pool members |
| Draw.AvailableSize | src/components/EmojiGame.tsx:118-120 | over a pool with unique ids, the number of candidates is the pool size minus the number of distinct picked ids that belong to the pool |
| Draw.AvailableCount | src/components/MapGame.tsx:127-156 | in a session over N unique ids, at most N members have been picked, and each pick removed exactly one candidate |
| Draw.ExhaustedIff | src/components/MapGame.tsx:132-136 | the candidates run out exactly when all N members of the pool have been picked |
| Draw.PickDisabled | src/components/MapGame.tsx:182 | the draw button is disabled while loading or when the pool is empty (the same rule as EmojiGame.tsx:152); its consequences are the lemmas below |
| Draw.EnabledFreshDrawSucceeds | src/components/MapGame.tsx:182 | the draw button is disabled when the pool is empty; an enabled button on a fresh session always finds a candidate |
| MapGame.CountryName | src/components/MapGame.tsx:88-93 | the label is the reported country when it is present and non-empty; for a non-ok reply, a thrown error, or a missing or empty country it is `"Unknown Location"`; it is never empty |
| MapGame.WithCountry | src/components/MapGame.tsx:108-112 | labelling keeps the history's length; every entry with the member's id gets the country and stops loading; every other entry is unchanged |
| MapGame.WithCountryKeepsIds | src/components/MapGame.tsx:108-112 | labelling never changes which members were drawn or their order |
| MapGame.WithCountryLastWins | src/components/MapGame.tsx:108-112 | when two labels arrive for the same member, the later one is what remains |
| MapGame.MapSession.constructor | src/components/MapGame.tsx:61-75 | after the roster fetch the pool is the active members and the history is empty; a failed fetch leaves an empty pool and the load-failure message |
| MapGame.MapSession.Pick | src/components/MapGame.tsx:127-156 | with no candidates: the history is kept, the current pick is cleared and the "all picked" message shown, and a repeated draw gives the same result; otherwise the chosen candidate is appended with its pin, unlabelled and loading, and becomes the current pick; the pick is a pool member not drawn before; with unique pool ids a draw succeeds exactly when fewer than N members have been drawn |
| MapGame.MapSession.Reset | src/components/MapGame.tsx:158-162 | the history, current pick and error are cleared, the pool is kept, and the whole pool is a candidate again |
| MapGame.MapSession.SetCountry | src/components/MapGame.tsx:106-112 | the history becomes its version labelled with the country name derived from the geocoding reply; every entry of that member then carries a non-empty country and is no longer loading; the pool, current pick and error are unchanged |
| MapGame.MapSession.FreshDrawEnabled | src/components/MapGame.tsx:182 | in a session with nothing drawn, an enabled draw button always finds a candidate, and an empty pool always disables the button |
| EmojiGame.Theme | src/components/EmojiGame.tsx:11-72 | each of the three themes has exactly fifteen answers |
| EmojiGame.AnimalsGlyphsDistinct | src/components/EmojiGame.tsx:12-31 | the animal glyphs are pairwise different, except for the two lions |
| EmojiGame.TransportGlyphsDistinct | src/components/EmojiGame.tsx:32-51 | the transport glyphs are pairwise different |
| EmojiGame.SportsGlyphsDistinct | src/components/EmojiGame.tsx:52-71 | the sport glyphs are pairwise different |
| EmojiGame.LionCaptionsDiffer | src/components/EmojiGame.tsx:15-27 | the two lion answers have different captions |
| EmojiGame.AnimalsDistinct | src/components/EmojiGame.tsx:12-31 | no two animal answers are the same record |
| EmojiGame.TransportDistinct | src/components/EmojiGame.tsx:32-51 | no two transport answers are the same record |
| EmojiGame.SportsDistinct | src/components/EmojiGame.tsx:52-71 | no two sport answers are the same record |
| EmojiGame.ThemeDistinct | src/components/EmojiGame.tsx:11-72 | in every theme, no two answers are the same record |
| EmojiGame.AnimalsShareAGlyph | src/components/EmojiGame.tsx:15-27 | distinct glyphs are not guaranteed: two different animal answers share a glyph |
| EmojiGame.Shuffled | src/components/EmojiGame.tsx:110 | the theme rearranged by an index permutation: position k holds the theme's answer at `perm[k]`; its meaning is stated by ShuffledIsPermutation |
| EmojiGame.ShuffledIsPermutation | src/components/EmojiGame.tsx:110 | rearranging a theme by an index permutation gives a permutation of it, still without repetitions |
| EmojiGame.FirstShown | src/components/EmojiGame.tsx:113 | the first six answers of the shuffle; its meaning is stated by FirstShownFromTheme |
| EmojiGame.FirstShownFromTheme | src/components/EmojiGame.tsx:110-113 | the six answers shown are distinct and form a sub-multiset of the theme |
| EmojiGame.PromptFrom | src/components/EmojiGame.tsx:111-114 | a theme's question with its first six shuffled answers; GetRandomEmojis and TablePrompt state what it yields |
| EmojiGame.GetRandomEmojis | src/components/EmojiGame.tsx:105-114 | the prompt carries the chosen theme's question and exactly six answers; they are the first six of a permutation of that theme, pairwise different, and a sub-multiset of it |
| EmojiGame.ThemeTable | src/components/EmojiGame.tsx:11-72 | the table of the three themes by key; ThemeTableHoldsThemes states that each key selects its theme |
| EmojiGame.ThemeTableHoldsThemes | src/components/EmojiGame.tsx:106-108 | every theme key is in the table and selects its theme |
| EmojiGame.TablePrompt | src/components/EmojiGame.tsx:105-114 | a session holding the theme table draws exactly the prompt GetRandomEmojis describes |
| EmojiGame.EmojiSession.constructor | src/components/EmojiGame.tsx:85-99 | after the roster fetch the pool is the active members, nothing is picked or shown, the theme table is in place and every theme can be drawn from; a failed fetch leaves an empty pool and the load-failure message |
| EmojiGame.EmojiSession.Pick | src/components/EmojiGame.tsx:117-136 | with no candidates: the history is kept, the pick and the prompt are cleared and the "all picked" message shown; otherwise the chosen candidate is appended, becomes the current pick, and a prompt from the chosen theme is shown; the pick is a pool member not drawn before; with unique pool ids a draw succeeds exactly when fewer than N members have been drawn |
| EmojiGame.EmojiSession.FreshDrawEnabled | src/components/EmojiGame.tsx:152 | in a session with nothing drawn, an enabled draw button always finds a candidate, and an empty pool always disables the button |
| EmojiGame.EmojiSession.Reset | src/components/EmojiGame.tsx:138-143 | the history, pick, prompt and error are cleared, the pool is kept, and the whole pool is a candidate again |
| TeamMembers.Toggled | src/components/TeamMembers.tsx:76 | the requested status is `"inactive"` exactly when the current one is `"active"`, otherwise `"active"` |
| TeamMembers.ToggleInvolution | src/components/TeamMembers.tsx:76 | on the two statuses the store accepts, toggling twice gives the status back |
| TeamMembers.Appended | src/components/TeamMembers.tsx:58 | a successful add puts the created record at the end and leaves every earlier entry as it was |
| TeamMembers.Replaced | src/components/TeamMembers.tsx:88-92 | a successful status update keeps the length, replaces exactly the entries with the id and leaves the others unchanged |
| TeamMembers.ReplacedKeepsIds | src/components/TeamMembers.tsx:88-92 | when the returned record has the same id, every id stays in place |
| TeamMembers.ReplacedThenRemoved | src/components/TeamMembers.tsx:88-92 | a status update changes nothing among the entries with other ids |
| TeamMembers.Removed | src/components/TeamMembers.tsx:111 | after a successful delete a record remains exactly when it was there and has a different id |
| TeamMembers.RemovedAppend | src/components/TeamMembers.tsx:111 | deleting distributes over concatenation, so the survivors keep their order |
| TeamMembers.RemovedAbsent | src/components/TeamMembers.tsx:111 | deleting an id that nobody has changes nothing |
| TeamMembers.AddThenDelete | src/components/TeamMembers.tsx:58 | adding a record with a fresh id and then deleting that id gives the list back |
| TeamMembers.AddError | src/components/TeamMembers.tsx:54-67 | a refused add shows the server's non-empty error, or else the fixed add-failure message; a thrown add shows the thrown message; a refused add never shows an empty banner |
| TeamMembers.Panel.constructor | src/components/TeamMembers.tsx:19-33 | a successful fetch shows the fetched list with the error cleared; a failed fetch shows an empty list and the load-failure message |
| TeamMembers.Panel.AddMember | src/components/TeamMembers.tsx:39-71 | on success the list gains the created record at the end and the error is cleared; otherwise the list is unchanged and the add error is shown |
| TeamMembers.Panel.ToggleStatus | src/components/TeamMembers.tsx:73-100 | the requested status is the toggled one; on success the list is the replaced list with the error cleared; on failure the list is unchanged and the update-failure message is shown |
| TeamMembers.Panel.DeleteMember | src/components/TeamMembers.tsx:102-119 | on success the list loses exactly the entries with the id and the error is cleared; on failure the list is unchanged and the delete-failure message is shown |
| TeamMembers.Panel.DeleteAllMembers | src/components/TeamMembers.tsx:121-142 | a declined confirmation changes nothing; on success the list is empty and the error cleared; on failure the list is unchanged and the delete-all message is shown |
| TeamRoute.Post | src/app/api/team/route.ts:32-71 | the status is one of 201, 400, 401 and 500, and it is 401 exactly without a session; an unparsable body gives 500 "Error creating team member"; a missing or empty name or status gives 400 "Name and status are required"; a status other than `"active"` or `"inactive"` gives 400 "Status must be either 'active' or 'inactive'"; a failed insert gives 500 "Error creating team member"; only a 201 carries a record |
| TeamRoute.PostUnauthorizedFirst | src/app/api/team/route.ts:34-38 | without a session the answer is the same 401, whatever the body and whatever the store would do |
| TeamRoute.PostCreatedIff | src/app/api/team/route.ts:42-63 | 201 happens exactly for a signed-in request whose name and status are both present and non-empty, whose status is allowed, and whose insert succeeded; the created record has exactly the given name and status and the store's id and timestamp |
| TeamRoute.PostBadStatusIff | src/app/api/team/route.ts:42-54 | the bad-status 400 happens exactly when a signed-in request has both fields and a status other than `"active"` or `"inactive"`, so a missing status never gets it |
| TeamRoute.Insert | src/app/api/team/route.ts:15-19 | inserting a row into a newest-first list keeps it newest first and adds exactly that row |
| TeamRoute.SortNewestFirst | src/app/api/team/route.ts:15-19 | the listed rows are newest first by creation time and are exactly the stored rows |
| TeamRoute.Get | src/app/api/team/route.ts:7-29 | 401 without a session; 500 "Error fetching team members" when the store fails; otherwise 200 with the stored rows, newest first |

## Left out

- Coordinate generation (MapGame.tsx:97-104) uses floating-point random numbers. A pin is an opaque `Coordinates` argument of `Pick`.
- Leaflet, the marker icon, map centring and all JSX are presentation only.
- Uniformity of the random choices is not modelled. The candidate index, theme key and shuffle are arguments. The shuffle is any permutation of the fifteen positions, since the comparator sort at EmojiGame.tsx:110 only guarantees a rearrangement.
- Fetch I/O, headers and the reverse-geocoding URL are not modelled. Each request is reduced to its outcome: `Option` for the roster fetch, the update and the store, `bool` for the deletes, `GeocodeReply` and `AddReply` for the replies whose contents matter.
- The guard `currentPick?.id === memberId` and the current-pick update at MapGame.tsx:113-115 depend on when React renders. `MapSession.SetCountry` labels only the history and leaves the current pick as it is. The guard reads `currentPick` as it was before the draw that started the lookup, so it does not match a newly drawn member.
- The order in which lookups for different draws finish is not modelled. The model applies each `SetCountry` when it is called.
- The `loading` and `isMounted` flags, the add-form state (`showAddForm`, `newMemberName`) and the console logging are not modelled. `Draw.PickDisabled` takes `loading` as an argument.
- `EmojiGame.EmojiSession.Reset` requires the session invariant, which includes the theme table. The other resets establish their invariant from nothing.
- The theme table: the component reads the module-level table directly, but the model's session holds it in the immutable field `themes`. The constructor sets that field to `ThemeTable()`, and `TablePrompt` shows that the prompts are those of `GetRandomEmojis`.
- The table is stored by column: a glyph function and a caption function per theme, in table order. `Theme` joins them into the component's records.
- `Member.createdAt` is an integer timestamp. The client types it as a date string and the store orders by a date. Both orders are by time.
- Rows with equal timestamps: the model places them in an arbitrary but fixed order, and the store's order for them is not specified.
- Non-string JSON values for `name` or `status` are not modelled; a field is absent or a string. Such values include numbers, `null` and a JSON `null` body that makes the destructuring throw.
- A session lookup that throws is not modelled. It would give the route's 500 answer, and the model's session lookup is a plain boolean.
- `TeamMembers.AddError`: an `err` that is not an `Error` is not modelled. The component treats it as the fixed add-failure message, and the model's thrown case always carries a message.
- Ownership scoping is not modelled: GET and POST neither filter nor set an owner.
- These files are not part of this model: `src/lib/auth.config.ts`, `src/app/api/team/delete-all/route.ts`, `src/app/api/team/[id]/route.ts`, `src/app/api/auth/[...nextauth]/route.ts`, the pages, the layout and `ecosystem.config.js`. Each is a foreign call, routing or configuration. The roster screen reaches the delete-all and per-id routes only as an ok/failed outcome.
