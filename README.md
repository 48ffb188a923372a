# uniView front-end logic, modelled in Dafny

uniView is a university-review web front-end. A grid of university logos leads to per-university review pages, and a dialog lets visitors suggest a school. Almost everything is rendering. This project models the three parts that hold logic:

- **The university directory client** (`Universities`). `fetchAllUniversities` is a read-through cache. It keeps the full university list and its capture time in the browser's local store, under the keys `universities` and `universitiesTimestamp`. A snapshot younger than five minutes is returned as is. Otherwise the remote store is queried, and on success both keys are overwritten. `fetchUniversity` searches the cached list for an acronym without regard to case. If nothing matches, it falls back to a remote point query. The `initialData` lookup of `useUniversities` searches the query client's cached list the same way. The local store is a `map` field of the class `DirectoryCache`, and both fetches are methods on it.
- **The dynamic frame layout** (`FrameLayout`). Nine frames sit on a 3x3 grid of 4x4 cells. `calculatePosition` gives the grid arithmetic, and the render loop derives the row and column. The hovered row and column get `hoverSize` and the other two share what remains of 12. `getTransformOrigin` maps positions to CSS anchors. The frame list is updated on hover and on property edits. `toggleCleanInterface` flips the interface flag. The static `initialFrames` table is modelled too. The component's state is the class `Layout`.
- **The suggestion form** (`SuggestionBox`). `handleInputChange` edits one field. `handleSubmit` rejects a blank school name, sends one insert and then either resets and closes the form or keeps it for a retry. The form state is the class `SuggestionForm`.

`Ascii` holds `toLowerCase`, `toUpperCase` and `trim` for ASCII. `Wrappers` holds `Option` and `Result`.

Remote calls, the clock and the insert outcome are method parameters. Each fetch method returns `sent`, the query it issued, or `None` when it made no remote call. JSON serialisation and `parseInt` are exact round trips, so the local store holds values (`Rows`, `Millis`) rather than text.

`fetchUniversity` reads the cached snapshot whatever its age (hooks/use-universities.tsx:48-55); `CachedMatchIgnoresTimestamp` states that.

## Model

| member | source | states |
|---|---|---|
| `Ascii.ToLower` | hooks/use-universities.tsx:52 | same length; each upper-case letter becomes the lower-case letter 32 code points above it; every other character is kept, so no upper-case letter is left |
| `Ascii.LowerEqualIff` | hooks/use-universities.tsx:52 | two strings are equal after lower-casing exactly when they have the same length and agree character by character up to letter case |
| `Ascii.ToUpper` | hooks/use-universities.tsx:61 | same length; each lower-case letter becomes the upper-case letter 32 code points below it; every other character is kept, so no lower-case letter is left |
| `Ascii.LowerOfUpper` | hooks/use-universities.tsx:52-61 | lower-casing an upper-cased string gives the same as lower-casing the original, so a case-insensitive compare does not depend on the case the query was typed in |
| `Ascii.LowerIdempotent` | hooks/use-universities.tsx:52 | lower-casing twice equals lower-casing once |
| `Ascii.LeadingSpaces` | components/suggestion-box.tsx:36 | the count of leading white space: every counted character is white space, and the next character is not |
| `Ascii.TrailingSpaces` | components/suggestion-box.tsx:36 | the same at the end of the string |
| `Ascii.Trim` | components/suggestion-box.tsx:36 | the result is the contiguous middle of the input that starts after its leading white space; everything cut off on either side is white space; a non-empty result neither starts nor ends with white space |
| `Ascii.TrimEmptyIffBlank` | components/suggestion-box.tsx:36 | a string trims to empty exactly when every character is white space (both directions) |
| `Universities.IsFresh` | hooks/use-universities.tsx:25-27 | a fresh hit needs both keys present and a stored timestamp with now < timestamp + 300000; `RefreshedFreshUntil` and `StaleAtThreshold` give the converse and the boundary |
| `Universities.SameAcronym` | hooks/use-universities.tsx:52 | a row matches the query exactly when the acronyms have equal length and each character is equal up to letter case |
| `Universities.Refreshed` | hooks/use-universities.tsx:40-41 | after a refresh the snapshot is the new rows and the timestamp is the write time; the two keys are added; every other key keeps its value; a well-typed store stays well-typed |
| `Universities.FirstMatch` | hooks/use-universities.tsx:51-53 | an index at most the length; no earlier row matches under lower-case comparison; the row at the index, if any, matches |
| `Universities.Find` | hooks/use-universities.tsx:51-53 | finds something exactly when some row matches case-insensitively; what it finds is a row of the list that matches |
| `Universities.FindIsFirst` | hooks/use-universities.tsx:51-53 | the found record is the FIRST matching row: every row before it has another acronym |
| `Universities.FirstMatchIgnoresCase` | hooks/use-universities.tsx:52 | two queries equal after lower-casing stop the search at the same index |
| `Universities.FindIgnoresCase` | hooks/use-universities.tsx:51-53 | two queries equal after lower-casing find the same record |
| `Universities.FindUpperCaseQuery` | hooks/use-universities.tsx:51-61 | searching a list of rows with the upper-cased acronym finds the same record as searching with the acronym as typed (the search is insensitive to the case change of line 61) |
| `Universities.FindUnique` | hooks/use-universities.tsx:51-53 | when acronyms are unique up to case, the lookup returns THE record whose acronym matches |
| `Universities.CachedMatch` | hooks/use-universities.tsx:48-55 | a cached hit is a record of the stored snapshot that matches the query; a miss means there is no snapshot or no row of it matches |
| `Universities.LookupIgnoresCase` | hooks/use-universities.tsx:48-61 | two acronyms equal up to case find the same cached record and, on a miss, send the same point query for the upper-cased acronym; with `FetchUniversity`'s contract, both casings give the same result for the same remote answer |
| `Ascii.UpperOfLowerEqual` | hooks/use-universities.tsx:61 | strings equal after lower-casing are also equal after upper-casing |
| `Universities.CachedMatchIgnoresTimestamp` | hooks/use-universities.tsx:48-55 | the cached lookup of `fetchUniversity` is unaffected by any value stored under the timestamp key |
| `Universities.RefreshedFreshUntil` | hooks/use-universities.tsx:25-27 | a snapshot refreshed at time t serves a later call at `now` exactly when now < t + 300000 |
| `Universities.StaleAtThreshold` | hooks/use-universities.tsx:26-27 | freshness is strict: at an age of exactly 300000 ms the snapshot is stale |
| `Universities.InitialData` | hooks/use-universities.tsx:83-91 | nothing when the acronym is absent or empty or when the query cache holds nothing; anything returned is a cached record matching case-insensitively; if some cached record matches, something is returned |
| `Universities.DirectoryCache.constructor` | hooks/use-universities.tsx:21-22 | the client starts on a given well-typed local store |
| `Universities.DirectoryCache.FetchAllUniversities` | hooks/use-universities.tsx:20-44 | fresh hit: the snapshot is returned, no query is sent and the store is unchanged; otherwise one full-collection query is sent and its answer is returned; on error the store is unchanged, stale entry included; on success both keys are replaced with the rows and the write time |
| `Universities.DirectoryCache.FetchUniversity` | hooks/use-universities.tsx:46-66 | a cached case-insensitive match is returned with no query sent; otherwise one point query for the upper-cased acronym is sent and its answer (one row, none, or the error) is returned; the store is never written |
| `FrameLayout.TruncRem` | components/DynamicFrameLayout.tsx:188 | JavaScript's `%`: the dividend is the quotient rounded toward zero times the divisor plus the remainder; the remainder lies in [0, d) for a non-negative dividend and in (-d, 0] for a negative one |
| `FrameLayout.CalculatePosition` | components/DynamicFrameLayout.tsx:186-196 | every frame is a 4x4 cell; a non-negative index gives x in {0, 4, 8} and a non-negative multiple of 4 for y; a negative index (JavaScript's truncating `%`, flooring division) gives x in {-8, -4, 0} and a negative y |
| `FrameLayout.CellOf` | components/DynamicFrameLayout.tsx:332-333 | the render loop's row and column are the floor of y / 4 and x / 4: the point lies inside the 4-wide cell they name |
| `FrameLayout.CalculatePositionOnGrid` | components/DynamicFrameLayout.tsx:186-196 | for indices 0..8, x and y are in {0, 4, 8}; the derived cell is (i div 3, i mod 3), lies on the grid, and its row-major index is i again |
| `FrameLayout.CalculatePositionInjective` | components/DynamicFrameLayout.tsx:186-196 | distinct indices in 0..8 get distinct positions |
| `FrameLayout.TrackSizes` | components/DynamicFrameLayout.tsx:199-217 | three weights, one per track; their values are stated by `TrackSizesShareTwelve` and `TrackSizesOffGrid` |
| `FrameLayout.RowSizes` | components/DynamicFrameLayout.tsx:198-207 | nothing hovered gives three rows of 4; a hovered row r in 0..2 weighs hoverSize, the other two (12 - hoverSize)/2 each, and the three sum to 12 |
| `FrameLayout.ColSizes` | components/DynamicFrameLayout.tsx:209-218 | the same for columns: three columns of 4 without a hover; the hovered column c in 0..2 weighs hoverSize, the others share the rest, and the three sum to 12 |
| `FrameLayout.TrackSizesShareTwelve` | components/DynamicFrameLayout.tsx:199-217 | no hover gives three weights of 4; with track t in 0..2 hovered, t weighs hoverSize and each other track (12 - hoverSize)/2; either way the weights sum to 12 |
| `FrameLayout.TrackSizesOffGrid` | components/DynamicFrameLayout.tsx:202-206 | a hovered index outside 0..2 matches no track, so all three get the non-hovered weight |
| `FrameLayout.HoveredTrackWidest` | components/DynamicFrameLayout.tsx:293-300 | over the slider range 4..8 the hovered track is never narrower than another, and every weight lies in [2, 8] |
| `FrameLayout.TransformOrigin` | components/DynamicFrameLayout.tsx:220-224 | the vertical word is top, center or bottom; the horizontal word is left, center or right |
| `FrameLayout.TransformOriginFollowsCell` | components/DynamicFrameLayout.tsx:220-224 | a frame at cell i grows from the grid edge it sits on: rows 0/1/2 give top/center/bottom, columns 0/1/2 give left/center/right |
| `FrameLayout.OriginCssFollowsCell` | components/DynamicFrameLayout.tsx:220-224 | for each of the nine frame positions, the CSS origin text is the row's word (top/center/bottom), a space and the column's word (left/center/right) |
| `FrameLayout.WithProperty` | components/DynamicFrameLayout.tsx:233 | the chosen numeric property takes the value; the other numeric properties and every non-numeric field are kept |
| `FrameLayout.SetFrameProperty` | components/DynamicFrameLayout.tsx:226-236 | same length and order; frames with another id are unchanged; in frames with the id only property p changes, to v |
| `FrameLayout.HoverFrames` | components/DynamicFrameLayout.tsx:252-257 | same length and order; `isHovered` is true exactly on frames with the id; no other field changes |
| `FrameLayout.HoverMarksOne` | components/DynamicFrameLayout.tsx:249-258 | with distinct ids, hovering frame k's id marks frame k and no other frame |
| `FrameLayout.TilesCoversEveryCell` | components/DynamicFrameLayout.tsx:332-333 | under the layout invariant, each cell of the 3x3 grid is covered by exactly one frame's derived (row, col) |
| `FrameLayout.TilesDistinctCells` | components/DynamicFrameLayout.tsx:332-333 | under the layout invariant, each derived cell is on the grid and no two frames share one |
| `FrameLayout.HoverKeepsTiling` | components/DynamicFrameLayout.tsx:249-258 | a hover update preserves the layout invariant |
| `FrameLayout.SetPropertyKeepsTiling` | components/DynamicFrameLayout.tsx:226-236 | a property update preserves the layout invariant |
| `FrameLayout.InitialFrames` | components/DynamicFrameLayout.tsx:40-167 | nine frames; frame i has id i+1, is not hovered and has a 4x4 default cell |
| `FrameLayout.InitialFramesTile` | components/DynamicFrameLayout.tsx:40-167 | nine frames; frame i has id i+1 (so ids 1..9 are distinct), sits at `calculatePosition(i)` and is not hovered; the table satisfies the layout invariant |
| `FrameLayout.InitialAcronymsDistinct` | components/DynamicFrameLayout.tsx:40-167 | the nine acronyms are pairwise distinct |
| `FrameLayout.HoverFromRenderSharesTwelve` | components/DynamicFrameLayout.tsx:331-347 | the hover the render loop issues for a frame gives row and column weights that each sum to 12, with the frame's own row and column at hoverSize |
| `FrameLayout.Layout.constructor` | components/DynamicFrameLayout.tsx:170-179 | initial state: `initialFrames`, nothing hovered, hover size 6, gap 4, controls hidden, clean interface on; the invariant holds |
| `FrameLayout.Layout.HandleFrameHover` | components/DynamicFrameLayout.tsx:249-258 | records the hover; frames become the hover update of the old frames; the invariant is kept and every other field is unchanged |
| `FrameLayout.Layout.HandleFrameLeave` | components/DynamicFrameLayout.tsx:348 | clears the hover, which brings the three equal weights back |
| `FrameLayout.Layout.UpdateFrameProperty` | components/DynamicFrameLayout.tsx:226-236 | frames become the property update of the old frames, and the invariant is kept |
| `FrameLayout.Layout.ToggleControls` | components/DynamicFrameLayout.tsx:238-240 | flips `showControls` |
| `FrameLayout.Layout.ToggleCleanInterface` | components/DynamicFrameLayout.tsx:242-247 | flips `cleanInterface`; going from false to true also hides the controls; going from true to false leaves `showControls` as it was |
| `FrameLayout.Layout.SetHoverSize` | components/DynamicFrameLayout.tsx:299 | the slider sets the hover size |
| `SuggestionBox.WithField` | components/suggestion-box.tsx:28-31 | the named field takes the new value and the other three fields keep theirs |
| `SuggestionBox.WithFieldRoundTrip` | components/suggestion-box.tsx:28-31 | typing a field's current value changes nothing; typing the old value back undoes an edit |
| `SuggestionBox.NameIsBlank` | components/suggestion-box.tsx:36 | the validation rejects a name exactly when it is empty or white space only (both directions) |
| `SuggestionBox.ResetFormIsBlank` | components/suggestion-box.tsx:66-71 | the reset form has four empty fields and a blank name, so an immediate resubmission is rejected locally |
| `SuggestionBox.SuggestionForm.constructor` | components/suggestion-box.tsx:18-26 | starts with four empty fields, not submitting, dialog closed |
| `SuggestionBox.SuggestionForm.SetOpen` | components/suggestion-box.tsx:87 | the dialog sets its own open state |
| `SuggestionBox.SuggestionForm.HandleInputChange` | components/suggestion-box.tsx:28-31 | only the named field of `formData` changes; `isSubmitting` and `open` are untouched |
| `SuggestionBox.SuggestionForm.HandleSubmit` | components/suggestion-box.tsx:33-84 | a blank name sends nothing and changes no state; otherwise exactly one insert carries the four current fields; on success the form is empty and closed; on failure `formData` and `open` are kept; after a validated submission `isSubmitting` is false |

## Left out

- React Query is not modelled: the `QueryClient` stale and cache times, `useQuery`, `prefetchQuery`, and how `useUniversities` picks `data`, `loading` and `error`. These are library semantics. Only the `initialData` lookup is modelled, with the query cache as a parameter.
- The remote store is not modelled. Each query or insert is an opaque answer passed in. How it filters or orders rows is not modelled, including the name ordering of the full query and the `eq` filter. The point query's `maybeSingle` answer is modelled by its type: the answer is at most one row (`Option<University>`) or an error.
- `universities` and `universitiesTimestamp` are modelled as holding what this client writes (`DirectoryCache.Valid`). Unparsable text in those keys is not modelled.
- `University` carries all six fields. The full-collection query selects only `id`, `acronym`, `name` and `picture` (hooks/use-universities.tsx:34), while the point query selects every column (line 60); the model does not tell projected rows from full ones.
- `DirectoryCache.FetchAllUniversities`: the two clock reads are separate parameters (`now` for the age check, `later` for the stamp). Their order is not constrained.
- Asynchrony is not modelled. Each handler runs as one atomic step, so edits typed while an insert is pending, and two fetches racing on a cold cache, are out.
- `Ascii.ToLower`, `Ascii.ToUpper`, `Ascii.Trim`: ASCII only. There is no Unicode case mapping, and only ASCII white space is trimmed.
- `FrameLayout.UpdateFrameProperty`: the property is one of the three numeric fields the frame controls edit. Writing a number into another key of `Frame`, which TypeScript would allow, is not modelled.
- `FrameLayout.RowSizes`, `FrameLayout.ColSizes`: the weights are exact reals, not the `"Nfr"` strings. JavaScript floating point is not modelled.
- `SuggestionBox.SuggestionForm.HandleInputChange`: the input id is one of the four form fields. An id outside them, which would add a key to the record, is not modelled.
- Rendering, animation, routing (`handleFrameClick`), toasts beyond the notice returned by `HandleSubmit`, console logging, dialogs and fonts are not modelled. The gap size is only stored, and the `showFrames` flag is never changed by the component, so neither is modelled further.
- No review listing, review submission with rating checks, or pagination logic appears in the modelled files, so none is modelled. The review pages, the search bar, `FrameComponent`, the error and not-found views, and the `use-fetch-uni` / `use-fetch-all-universities` hooks (one remote call plus loading flags) are not part of this model.
