# Re-Museum in Dafny

Re-Museum is a small web app for a personal "museum" of everyday objects people keep instead of
throwing away. You photograph an object. An AI service (Gemini) names it, files it in an
exhibition hall and suggests "remuse" (upcycling) plans. You earn eco points for collecting
objects and for remusing them. Stickers cut from the photos can be arranged on a canvas and
exported.

This project models the logic of that app, file by file, and proves what each part promises:

| module | file | models |
|---|---|---|
| `Types` | `types.dfy` | the records of `types.ts`: items, stickers, halls, tools, guide lists, the category and difficulty enums |
| `Lists` | `lists.dfy` | `Array.prototype.filter` and counting, with their basic laws |
| `Text` | `text.dfy` | the JavaScript string operations the components use: `trim`, ASCII `toLowerCase`, `includes`, an ordered "first matching rule" classifier, `toString` of a natural number and `padStart` |
| `App` | `app.dfy` | `App.tsx`: seed items and halls, the eco-points total, and the handlers that update the shared lists (a class `AppState`) |
| `Gallery` | `gallery.dfy` | `Gallery.tsx`: the per-hall item counts, the items inside a hall, zero-padded counters, and the lobby's create-hall form (a class `Lobby`) |
| `CuratorOffice` | `curator_office.dfy` | `CuratorOffice.tsx`: icon choice from a tool name, achievements, level and points, the 16-slot tool cabinet (a class `Toolkit`) |
| `CollectionGuide` | `collection_guide.dfy` | `CollectionGuide.tsx`: three badge lists, the picker that offers unused items, the badge total (a class `Picker`) |
| `StickerLibrary` | `sticker_library.dfy` | `StickerLibrary.tsx`: filtering, the nine-sticker selection, the collage grid layout, the bring-to-front drag, the print sheet and the social-media card (a class `Library`) |
| `GeminiService` | `gemini_service.dfy` | `services/geminiService.ts`: error classification, category normalisation, the sticker URL pick, the default drama text, and the in-place black-background removal over an RGBA byte array |
| `Onboarding` | `onboarding.dfy` | `Onboarding.tsx`: the four-slide tour, moved by buttons and swipes (a class `Tour`) |
| `IdeaGenerator` | `idea_generator.dfy` | `IdeaGenerator.tsx`: difficulty bars, the first plan shown, and the guarded "mark as complete" button |
| `MilestoneCelebration` | `milestone_celebration.dfy` | `MilestoneCelebration.tsx`: the milestone table and the confetti colours |

React state that a component updates is a Dafny `class` whose fields are the state variables.
Each handler is a `method` whose `ensures` states the whole new state. Derived values and
pure helpers are functions. Lemmas state the properties the components depend on.

Four computations are loops in the source, and stay loops here:
- the pixel loop of `removeBlackBackground` works in place on an `array<byte>`;
- the `for … break` search for the first inline image part (`GeminiService.PickStickerUrl`);
- the `categoryCounts` `reduce` of the gallery (`Gallery.CategoryCounts`);
- the drama-text `reduce` builds its lines character by character (`StickerLibrary.DramaLines`).

Each loop is proved equal to a specification function, and the properties are proved about that
function.

Some inputs come from outside the program: the clock (`Date.now()`), random choices (the
shuffle), fresh ids (`crypto.randomUUID()`) and picked files. Each is a parameter of the
operation that uses it.

## Model

| member | source | states |
|---|---|---|
| Types.CategoryNames | types.ts:2-9 | the six enum values, in declaration order, one per category |
| Types.CategoryNameInjective | types.ts:2-9 | different categories have different Chinese labels |
| Lists.Filter | components/Gallery.tsx:59 | a filter never returns more elements than it was given |
| Lists.FilterMembers | components/Gallery.tsx:59 | the filter keeps exactly the elements that pass the test |
| Lists.FilterAppend | components/Gallery.tsx:59 | filtering works piece by piece, so the survivors keep their order |
| Lists.FilterKeepsAll | components/CuratorOffice.tsx:244-246 | a list whose elements all pass comes back unchanged |
| Lists.CountWhereAppend | components/CuratorOffice.tsx:205 | counting over a concatenation adds the two counts |
| Lists.CountWhereUnion | components/Gallery.tsx:25-28 | two tests that never both pass count, together, what their disjunction counts |
| Lists.CountWherePositive | components/CuratorOffice.tsx:126 | the count is positive exactly when some element passes |
| Text.Lower | components/CuratorOffice.tsx:216 | lowercasing keeps the length |
| Text.LowerKeepsLowercase | components/CuratorOffice.tsx:216 | a string with no capital letter is its own lowercase |
| Text.LowerIdempotent | services/geminiService.ts:42 | lowercasing twice is lowercasing once |
| Text.TrimStartShape | components/CuratorOffice.tsx:216 | the result is a suffix of the input; what was cut is all whitespace; the result does not start with whitespace |
| Text.TrimEndShape | components/CuratorOffice.tsx:216 | the result is a prefix of the input; what was cut is all whitespace; the result does not end with whitespace |
| Text.TrimShape | components/Gallery.tsx:40 | `trim()` returns a slice of the input framed by whitespace only, and a non-empty result neither starts nor ends with whitespace |
| Text.TrimKeepsTrimmed | components/Gallery.tsx:40 | a string with no surrounding whitespace is its own trim |
| Text.TrimEmptyIffBlank | components/Gallery.tsx:40 | `!s.trim()` holds exactly for the strings made only of whitespace |
| Text.LowerTrim | components/CuratorOffice.tsx:216 | trimming and lowercasing commute |
| Text.ContainsMeans | components/CuratorOffice.tsx:217-223 | the recursive `includes` search holds exactly when the key occurs at some position |
| Text.AbsentCharExcludes | components/CuratorOffice.tsx:217-223 | a key holding a character the string lacks does not occur in it |
| Text.ContainsSlice | components/CuratorOffice.tsx:218-219 | every piece of a key that occurs also occurs |
| Text.KeysNeedAbsentChars | components/CuratorOffice.tsx:217-223 | no key of a group occurs when each key has a character the string lacks |
| Text.FirstRule | services/geminiService.ts:45-153 | the chosen rule matches and no earlier rule does; the result is none exactly when no rule matches |
| Text.ClassifyFallback | services/geminiService.ts:163-168 | when no rule yields the fallback, the fallback is returned exactly when no rule matches |
| Text.FirstRuleExactly | services/geminiService.ts:45-153 | rule i decides exactly when it matches and none of the earlier rules does |
| Text.NatToString | components/Gallery.tsx:75 | `toString` gives at least one decimal digit, with no leading zero unless the number is 0 |
| Text.NatToStringRoundTrip | components/Gallery.tsx:75 | the digits read back as the number |
| Text.PadStartShape | components/Gallery.tsx:75 | `padStart` gives the wider of the string and the width; the original string is at the end and fill characters come before it |
| Text.ZeroPaddedKeepsValue | components/Gallery.tsx:170 | a zero-padded counter is all digits, at least `width` long, and still denotes the number |
| Text.ZeroPaddedWide | components/Gallery.tsx:170 | numbers already `width` digits wide are not padded |
| Text.Take | components/StickerLibrary.tsx:370 | `slice(0, n)` is the prefix of length min(n, length) |
| App.InitialHalls | App.tsx:86-91 | there is one built-in hall per category |
| App.CategoryIndex | App.tsx:86-91 | every category has its position in `Object.values(ItemCategory)` |
| App.CategoryAt | App.tsx:86-91 | the position of the i-th category is i |
| App.InitialHallsInEnumOrder | App.tsx:86-91 | hall i is keyed and named by the i-th category's label, has that category's cover, and is not custom |
| App.InitialHallIdsDistinct | App.tsx:86-91 | no two built-in halls share an id |
| App.InitialHallsCoverCategories | App.tsx:86-91 | every category's hall is in the list |
| App.EcoPointsAgree | App.tsx:128-136 | the header's total is 5 per item plus 10 per remused item, the same figure the curator's office shows |
| App.EcoPointsPointwise | App.tsx:128-136 | raising items' points one by one never lowers the total |
| App.MockEcoPoints | App.tsx:15-68 | the three seed items, one of them remused, are worth 25 points |
| App.MarkRemused | App.tsx:155-159 | no item is added or removed |
| App.MarkRemusedTouchesOnlyStatus | App.tsx:155-159 | items with the id become 'remused' and nothing else about them changes; other items are untouched |
| App.MarkRemusedIdempotent | App.tsx:155-159 | completing the same remuse twice is the same as once |
| App.MarkRemusedKeepsPoints | App.tsx:155-159 | completing a remuse never costs points |
| App.EcoPointsPrepend | App.tsx:138-140 | a new item at the top adds its own points to the total |
| App.DeleteStickerRemovesExactly | App.tsx:146-148 | exactly the stickers with the id are removed |
| App.AppendToGuideTouchesOneList | App.tsx:171-176 | the chosen guide list gains the id at its end; the other two lists are unchanged |
| App.AppState.constructor | App.tsx:99-109 | the app opens with the seed items, the built-in halls, no stickers and an empty guide |
| App.AppState.AddItem | App.tsx:138-140 | the new item goes first; the total grows by its points; nothing else changes |
| App.AppState.StickerCreated | App.tsx:142-144 | the new sticker goes first; nothing else changes |
| App.AppState.DeleteSticker | App.tsx:146-148 | the stickers with the id go, the rest keep their order; nothing else changes |
| App.AppState.CompleteRemuse | App.tsx:155-159 | the matching items are marked remused and points never drop; nothing else changes |
| App.AppState.AddHall | App.tsx:161-169 | a custom hall keyed by its name is appended, even if one with that id exists; the built-in halls stay at the front |
| App.AppState.UpdateGuide | App.tsx:171-176 | the id is appended to the chosen guide list only |
| Gallery.CountsOfCounts | components/Gallery.tsx:25-28 | the count table holds exactly the categories in use, each with its number of items, and an unused category reads as 0 |
| Gallery.SumCountsCountsAny | components/Gallery.tsx:137-138 | over distinct hall ids, the counts shown add up to the number of items in those halls |
| Gallery.CountsSumToLength | components/Gallery.tsx:137-138 | when every item sits in one of distinct halls, the lobby's counts add up to the collection size |
| Gallery.CategoryCounts | components/Gallery.tsx:25-28 | the reduce loop builds the count table |
| Gallery.HallItemsMatchLobby | components/Gallery.tsx:59 | a hall shows exactly its own items, as many as the lobby counted, and the empty notice appears exactly when no item is filed there |
| Gallery.HallItemsKeepOrder | components/Gallery.tsx:59 | a hall's items keep their collection order |
| Gallery.FindHall | components/Gallery.tsx:58 | the result is the first hall with the id (no earlier hall has it); none exactly when no hall has it |
| Gallery.HallTitle | components/Gallery.tsx:72 | the title is the name of the first hall with that id, or the id itself when that name is empty or no hall has the id |
| Gallery.CountersKeepValue | components/Gallery.tsx:75 | the hall counter has at least 2 digits, the lobby counter "No." and at least 3, both still denote the count, and wide numbers are written out in full |
| Gallery.Lobby.constructor | components/Gallery.tsx:15-21 | the lobby opens with no hall entered, the modal closed and an empty form |
| Gallery.Lobby.EnterHall | components/Gallery.tsx:30-36 | after the click the hall is entered; the form is untouched |
| Gallery.Lobby.BackToLobby | components/Gallery.tsx:65 | the back arrow leaves the hall |
| Gallery.Lobby.SetShowAddModal | components/Gallery.tsx:181 | opens or closes the create-hall modal and changes nothing else |
| Gallery.Lobby.SetNewHallName | components/Gallery.tsx:214 | the typed name is stored and nothing else changes |
| Gallery.Lobby.UploadImage | components/Gallery.tsx:48-54 | a picked file's object URL becomes the cover; no file leaves it as it was |
| Gallery.Lobby.CreateHall | components/Gallery.tsx:38-46 | with a non-blank name and a cover, the trimmed name and the cover are handed on and the form is reset and closed; otherwise nothing changes |
| Gallery.CreatedHallNameTrimmed | components/Gallery.tsx:40-41 | a hall name handed on is non-empty and has no surrounding whitespace |
| CuratorOffice.IconKeyOfPlainName | components/CuratorOffice.tsx:216 | a name with no surrounding whitespace and no capitals is matched as it is |
| CuratorOffice.DetermineIconType | components/CuratorOffice.tsx:215-225 | the icon is 'other' exactly when no keyword of any test occurs in the trimmed, lowercased name |
| CuratorOffice.IconFirstMatch | components/CuratorOffice.tsx:217-223 | a test decides the icon when one of its keywords occurs and no earlier test's does |
| CuratorOffice.IconIgnoresCaseAndPadding | components/CuratorOffice.tsx:216 | names that agree once trimmed and lowercased get the same icon |
| CuratorOffice.TapeBeforeGlue | components/CuratorOffice.tsx:218-219 | a name holding "胶带" (and no scissors keyword) is tape, although it also holds the glue keyword |
| CuratorOffice.ScrewdriverBeforeKnife | components/CuratorOffice.tsx:220-223 | a name holding "螺丝刀" (and none of the first three tests' keywords) is a screwdriver, although it also holds the knife keyword |
| CuratorOffice.PlainNameIcon | components/CuratorOffice.tsx:217-223 | for a name with no surrounding whitespace and no capitals, the first test with a matching keyword decides |
| CuratorOffice.TapeName | components/CuratorOffice.tsx:218-219 | '胶带' holds a glue keyword and gets 'tape' |
| CuratorOffice.ScrewdriverName | components/CuratorOffice.tsx:220-223 | '螺丝刀' holds a knife keyword and gets 'screwdriver' |
| CuratorOffice.UnmatchedNameIsOther | components/CuratorOffice.tsx:224 | a name with no keyword ('锤子') falls through to 'other' |
| CuratorOffice.RemusedCount | components/CuratorOffice.tsx:205 | the remused count is at most the number of items |
| CuratorOffice.CreatorMeansRemused | components/CuratorOffice.tsx:133 | the 'creator' badge is unlocked exactly when at least one item is remused |
| CuratorOffice.AchievementChains | components/CuratorOffice.tsx:120-156 | guardian implies hoarder implies beginner, and master implies creator implies beginner |
| CuratorOffice.AchievementsStayUnlocked | components/CuratorOffice.tsx:120-156 | collecting another item never locks an achievement again |
| CuratorOffice.Level | components/CuratorOffice.tsx:328 | the level is at least 1 and goes up by one for every five items |
| CuratorOffice.EcoPoints | components/CuratorOffice.tsx:526 | points lie between 5 and 15 per item and are a multiple of 5 |
| CuratorOffice.FillerCount | components/CuratorOffice.tsx:318 | below 11 tools the fillers bring the kit to 11 cells |
| CuratorOffice.CellCountShape | components/CuratorOffice.tsx:305-318 | up to 11 tools fill exactly 12 cells; from 11 to 15 tools there is one cell per tool plus the add slot; from 16 tools on, one cell per tool |
| CuratorOffice.SlotLabelNumbersFromOne | components/CuratorOffice.tsx:300 | the label is "SLOT-" followed by at least two digits that denote idx + 1 |
| CuratorOffice.Toolkit.constructor | components/CuratorOffice.tsx:207-212 | the kit starts with the default tools, an empty name, the default colour and the modal closed |
| CuratorOffice.Toolkit.OpenAddToolModal | components/CuratorOffice.tsx:305-307 | the modal opens only while fewer than 16 tools are held |
| CuratorOffice.Toolkit.CloseAddToolModal | components/CuratorOffice.tsx:339 | the modal closes and nothing else changes |
| CuratorOffice.Toolkit.SetNewToolName | components/CuratorOffice.tsx:207-212 | the typed name is stored and nothing else changes |
| CuratorOffice.Toolkit.SetNewToolColor | components/CuratorOffice.tsx:207-212 | the chosen colour is stored and nothing else changes |
| CuratorOffice.Toolkit.AddTool | components/CuratorOffice.tsx:227-242 | a blank name changes nothing; otherwise one tool with the typed name, its derived icon and the chosen colour is appended, and the form is reset and closed; the 16-tool cap is kept |
| CuratorOffice.Toolkit.DeleteTool | components/CuratorOffice.tsx:244-246 | every tool with the id goes and the others keep their order |
| CuratorOffice.DeleteToolRemovesExactly | components/CuratorOffice.tsx:244-246 | after a delete no tool has the id and every other tool is still there |
| CuratorOffice.DeleteAbsentToolKeepsList | components/CuratorOffice.tsx:244-246 | deleting an id that no tool has leaves the list as it was |
| CuratorOffice.DefaultIconsAgree | components/CuratorOffice.tsx:182-189 | each default tool's stored icon is the one its name would be given |
| CuratorOffice.DefaultToolIcon | components/CuratorOffice.tsx:182-189 | the same, for the default tool at one position |
| CollectionGuide.Elements | components/CollectionGuide.tsx:69-73 | `new Set(list)` holds exactly the list's entries |
| CollectionGuide.AllUsedIds | components/CollectionGuide.tsx:69-73 | an id is used exactly when it is on one of the three lists |
| CollectionGuide.BadgeTotal | components/CollectionGuide.tsx:98 | the badge total counts every entry of the three lists |
| CollectionGuide.CandidatesExactly | components/CollectionGuide.tsx:158-167 | the picker offers exactly the items on no list, and shows its empty notice exactly when every item is on a list |
| CollectionGuide.EmptyGuideNoDuplicates | App.tsx:99-109 | the empty starting guide has no duplicate ids |
| CollectionGuide.AppendAddsOneBadge | App.tsx:171-176 | adding to one list adds exactly one copy of the id to the badges |
| CollectionGuide.PickKeepsNoDuplicates | components/CollectionGuide.tsx:167-173 | adding an item the picker offers keeps the lists free of duplicates, and the total grows by one |
| CollectionGuide.DistinctElements | components/CollectionGuide.tsx:69-73 | a list without repeats has as many distinct ids as entries |
| CollectionGuide.BadgeTotalCountsUsedIds | components/CollectionGuide.tsx:98 | without duplicates, the badge total is the number of distinct items on the lists |
| CollectionGuide.FindItem | components/CollectionGuide.tsx:23 | the result is the first item with the id (no earlier item has it); none exactly when no item has it |
| CollectionGuide.FilledItems | components/CollectionGuide.tsx:23 | there is one slot per id that names an item, and slot k shows the item found for the k-th such id, in list order |
| CollectionGuide.FilledItemsInOrder | components/CollectionGuide.tsx:23 | when every id names an item, slot k shows the item found for the k-th id |
| CollectionGuide.FilledItemsDropsMissing | components/CollectionGuide.tsx:23 | ids with no matching item are dropped: the list shows the same slots as its resolved ids alone, and none when no id resolves |
| CollectionGuide.Picker.constructor | components/CollectionGuide.tsx:66 | the picker starts closed |
| CollectionGuide.Picker.Open | components/CollectionGuide.tsx:113-133 | a section's ADD slot opens the picker for that list |
| CollectionGuide.Picker.Close | components/CollectionGuide.tsx:150 | the close button closes the picker |
| CollectionGuide.Picker.AddItem | components/CollectionGuide.tsx:75-80 | with a list open, the pick is sent to that list and the picker closes; with none open, nothing is sent |
| StickerLibrary.FilterOptions | components/StickerLibrary.tsx:148 | the chips are 'ALL' followed by the six category labels, none of them 'ALL' |
| StickerLibrary.FilteredStickersShown | components/StickerLibrary.tsx:149-151 | 'ALL' shows every sticker; any other chip shows exactly that category's stickers, in order |
| StickerLibrary.CeilSqrt | components/StickerLibrary.tsx:191 | the smallest c with c² ≥ count |
| StickerLibrary.CeilDiv | components/StickerLibrary.tsx:192 | the smallest q with d·q ≥ n |
| StickerLibrary.GridFits | components/StickerLibrary.tsx:191-192 | the grid has at least one column, room for every sticker, no empty row, and is never taller than wide |
| StickerLibrary.CellInGrid | components/StickerLibrary.tsx:207-208 | cell i is column i mod cols of row i div cols, inside the grid |
| StickerLibrary.BaseScale | components/StickerLibrary.tsx:198-202 | the base scale is one of 1.0, 0.9, 0.75, 0.65, 0.55 |
| StickerLibrary.BaseScaleNonIncreasing | components/StickerLibrary.tsx:198-202 | more stickers never get a larger base scale |
| StickerLibrary.InstancePrefix | components/StickerLibrary.tsx:220 | the id prefix ends in '-' |
| StickerLibrary.GenerateLayout | components/StickerLibrary.tsx:181-230 | one layout item per sticker |
| StickerLibrary.LayoutStickers | components/StickerLibrary.tsx:242-245 | the stickers of a layout, one per item, in order |
| StickerLibrary.LayoutCells | components/StickerLibrary.tsx:205-208 | the layout holds the shuffled stickers in order, each in its own grid cell |
| StickerLibrary.LayoutCellsDistinct | components/StickerLibrary.tsx:207-208 | no two stickers share a cell |
| StickerLibrary.EmptyLayout | components/StickerLibrary.tsx:183-186 | an empty selection lays out nothing |
| StickerLibrary.LayoutLayers | components/StickerLibrary.tsx:226 | a fresh layout's layers are exactly 1 to count |
| StickerLibrary.DashSuffixedDiffer | components/StickerLibrary.tsx:220 | ids ending in '-' and different indices differ, whatever comes before |
| StickerLibrary.LayoutWellFormed | components/StickerLibrary.tsx:220-226 | a fresh layout has distinct instance ids and distinct layers |
| StickerLibrary.MaxZ | components/StickerLibrary.tsx:563 | the maximum layer is present and no item is above it |
| StickerLibrary.BringToFrontLifts | components/StickerLibrary.tsx:562-566 | only the grabbed item changes, and only its layer, which lands one above the highest layer |
| StickerLibrary.BringToFrontKeepsLayersDistinct | components/StickerLibrary.tsx:562-566 | with distinct ids, layers stay distinct after a lift |
| StickerLibrary.Library.constructor | components/StickerLibrary.tsx:125-146 | the library opens on 'ALL', with no selection, the canvas closed and no drag |
| StickerLibrary.Library.SetFilter | components/StickerLibrary.tsx:129 | a chip sets the filter and nothing else |
| StickerLibrary.Library.ToggleSelectionMode | components/StickerLibrary.tsx:155-163 | the mode flips; leaving selection mode drops the whole selection |
| StickerLibrary.Library.SelectSticker | components/StickerLibrary.tsx:165-177 | a selected id is dropped; an unselected one is added while fewer than nine are selected, otherwise the alert is raised and nothing changes |
| StickerLibrary.Library.EnterCanvasMode | components/StickerLibrary.tsx:232-240 | opens the canvas in the mode chosen; the collage lays out a shuffle of the selected stickers |
| StickerLibrary.Library.ReLayout | components/StickerLibrary.tsx:242-245 | the stickers already on the canvas are laid out again from a new shuffle |
| StickerLibrary.Library.ToggleCustomMode | components/StickerLibrary.tsx:888 | the custom-layout button flips the mode |
| StickerLibrary.Library.PointerDown | components/StickerLibrary.tsx:556-568 | outside custom mode nothing happens; inside it the item is grabbed and brought to the front |
| StickerLibrary.Library.PointerUp | components/StickerLibrary.tsx:588-590 | the drag ends |
| StickerLibrary.Library.CloseCanvas | components/StickerLibrary.tsx:642 | back to the library grid; nothing else changes |
| StickerLibrary.SelectionCap | components/StickerLibrary.tsx:170 | a selection built by toggling alone never passes nine |
| StickerLibrary.PrintGridFits | components/StickerLibrary.tsx:489-490 | the print sheet has one to three columns, room for every sticker and no empty row |
| StickerLibrary.PrintCaption | components/StickerLibrary.tsx:532-534 | captions of up to 24 characters are kept; longer ones keep their first 24 characters and gain '…' |
| StickerLibrary.XhsStickers | components/StickerLibrary.tsx:370 | at most the first four selected stickers, all of them when there are four or fewer |
| StickerLibrary.XhsSlots | components/StickerLibrary.tsx:374-393 | each template branch prepares one to four positions |
| StickerLibrary.XhsDrawnBounds | components/StickerLibrary.tsx:374-395 | at most four stickers are drawn, at least one of a non-empty selection; the four-cell grid draws every sticker kept, the single layout exactly one |
| StickerLibrary.ChunksSnoc | components/StickerLibrary.tsx:421-426 | a new character opens a new line when the last one is full, otherwise it joins the last line |
| StickerLibrary.DramaLines | components/StickerLibrary.tsx:421-426 | the character-by-character reduce cuts the text into consecutive 20-character lines |
| StickerLibrary.ChunksConcat | components/StickerLibrary.tsx:421-426 | putting the lines back together gives the text |
| StickerLibrary.ChunkLengths | components/StickerLibrary.tsx:421-426 | every line has 1 to 20 characters, and all but the last have exactly 20 |
| StickerLibrary.DrawnDramaLinesShape | components/StickerLibrary.tsx:427 | at most two lines are drawn, and together they are the first 40 characters |
| GeminiService.Truncate | services/geminiService.ts:166 | messages of up to 100 characters are kept; longer ones become their first 100 characters plus "..." |
| GeminiService.ClassifyError | services/geminiService.ts:40-169 | the category is UNKNOWN exactly when no keyword group matches the lowercased message, and then the message is the truncated original |
| GeminiService.ClassifyFirstMatch | services/geminiService.ts:45-153 | a group decides exactly when one of its keywords occurs and no earlier group's does |
| GeminiService.NetworkCauses | services/geminiService.ts:45-56 | connection, authentication and server failures all report NETWORK, told apart only by their titles |
| GeminiService.OutcomeIsNetwork | services/geminiService.ts:98-153 | the groups that report NETWORK are the first, fourth and seventh |
| GeminiService.NetworkTitlesDistinct | services/geminiService.ts:98-153 | the three NETWORK titles differ |
| GeminiService.ClassifyIgnoresCase | services/geminiService.ts:42 | messages equal up to case get the same error, except the fallback, which quotes the original spelling |
| GeminiService.TimeoutIsNetwork | services/geminiService.ts:50 | a message mentioning a timeout is a network failure whatever else it says |
| GeminiService.TimeoutBeforeRateLimit | services/geminiService.ts:50-67 | "Timeout 429" names a rate limit too, yet is reported as a network failure |
| GeminiService.NoResponseIsImageQuality | services/geminiService.ts:237 | the error thrown on an empty answer is reported as an image-recognition problem |
| GeminiService.NormalizeCategory | services/geminiService.ts:241-252 | the category is always an enum value: the model's own when it is one, otherwise '其他' |
| GeminiService.NormalizeCategoryIdempotent | services/geminiService.ts:241-252 | normalising twice is normalising once |
| GeminiService.NormalizeCategoryKeepsEnum | services/geminiService.ts:241-252 | every enum value survives as itself |
| GeminiService.SquaredBrightness | services/geminiService.ts:321 | r² + g² + b² is at most 3·255² |
| GeminiService.LargestReached | services/geminiService.ts:326 | the search result is within bounds and reached |
| GeminiService.RemoveBlackBackground | services/geminiService.ts:318-330 | the in-place loop leaves the buffer equal to the pass function applied to its old contents |
| GeminiService.RewriteAlpha | services/geminiService.ts:320-328 | one loop step rewrites only the alpha byte of pixel i |
| GeminiService.AlphaPassTail | services/geminiService.ts:318 | the bytes of an incomplete last pixel are left as they are |
| GeminiService.NewAlphaStable | services/geminiService.ts:323-328 | a pixel's new alpha does not depend on its old alpha once set |
| GeminiService.AlphaPassKeepsColour | services/geminiService.ts:318-330 | red, green and blue bytes are never changed |
| GeminiService.AlphaPassBands | services/geminiService.ts:323-328 | a pixel within the threshold becomes transparent, one in the feather band gets the rounded ratio, a brighter one keeps its alpha |
| GeminiService.AlphaPassPixel | services/geminiService.ts:319-328 | a pixel's colour is kept and its alpha recomputed from that colour |
| GeminiService.AlphaPassIdempotent | services/geminiService.ts:301-330 | removing the background twice is removing it once |
| GeminiService.LargestReachedExact | services/geminiService.ts:326 | a value in range is reached exactly when it is at most the search result |
| GeminiService.LargestReachedMonotone | services/geminiService.ts:326 | a brighter pixel reaches at least the same value |
| GeminiService.FeatherBelow256 | services/geminiService.ts:326 | in the feather band the rounded ratio stays below 256 |
| GeminiService.FeatherLowerHalf | services/geminiService.ts:326 | the integer alpha is at most one half below the real ratio |
| GeminiService.FeatherUpperHalf | services/geminiService.ts:326 | the real ratio is less than one half below the next value up |
| GeminiService.FeatherAlphaIsRound | services/geminiService.ts:321-326 | the integer alpha is `Math.round((√(r²+g²+b²) − threshold)/feather·255)` |
| GeminiService.NewAlphaMonotone | services/geminiService.ts:323-326 | in the two lower bands a brighter pixel never gets a smaller alpha |
| GeminiService.FeatherTopIsOpaque | services/geminiService.ts:325-326 | at the top of the feather band the alpha is 255 |
| GeminiService.FirstInline | services/geminiService.ts:375-380 | the position of the first part that carries inline data, or none when no part does |
| GeminiService.InlineUrl | services/geminiService.ts:377 | the URL is a PNG data URL |
| GeminiService.StickerUrl | services/geminiService.ts:373-387 | the sticker URL is never empty |
| GeminiService.PickStickerUrl | services/geminiService.ts:373-387 | the `for … break` search followed by the fallback computes the sticker URL |
| GeminiService.StickerUrlCases | services/geminiService.ts:373-387 | with an inline image, the PNG URL of the first part that has one; otherwise the JPEG URL of the photo |
| GeminiService.DramaText | services/geminiService.ts:371 | the model's text when given and non-empty, otherwise the default line; never empty |
| GeminiService.DramaTextStable | services/geminiService.ts:371 | the chosen text fed back in is kept |
| Onboarding.Start | components/Onboarding.tsx:45-48 | the tour starts on the first slide, not exiting |
| Onboarding.Next | components/Onboarding.tsx:50-56 | NEXT moves forward one slide, or from the last slide begins the exit |
| Onboarding.Prev | components/Onboarding.tsx:58-62 | back one slide, except on the first |
| Onboarding.SwipeGesture | components/Onboarding.tsx:68-75 | more than 50 px leftwards goes forward, more than 50 px rightwards goes back, anything shorter is ignored |
| Onboarding.StepInRange | components/Onboarding.tsx:50-75 | every input keeps the index on a slide and moves it by at most one |
| Onboarding.RunInRange | components/Onboarding.tsx:50-75 | whatever inputs arrive, the index stays on a slide |
| Onboarding.ExitIsFinal | components/Onboarding.tsx:77-80 | once the exit has begun it is never undone |
| Onboarding.CompletionRules | components/Onboarding.tsx:50-89 | NEXT ends the tour only from the last slide, SKIP ends it from any slide, going back or a short touch never ends it |
| Onboarding.NextWalksToEnd | components/Onboarding.tsx:50-56 | k presses of NEXT walk k slides forward while staying within the tour |
| Onboarding.Presses | components/Onboarding.tsx:50-56 | k presses of NEXT, nothing else |
| Onboarding.ButtonLabel | components/Onboarding.tsx:148 | the button reads START JOURNEY exactly on the last slide, NEXT elsewhere |
| Onboarding.Tour.constructor | components/Onboarding.tsx:45-48 | the tour opens on slide 0, not exiting |
| Onboarding.Tour.HandleNext | components/Onboarding.tsx:50-56 | the screen moves as NEXT says; completion is scheduled exactly on the last slide |
| Onboarding.Tour.HandlePrev | components/Onboarding.tsx:58-62 | the screen moves back as PREV says |
| Onboarding.Tour.HandleComplete | components/Onboarding.tsx:77-80 | the exit begins and completion is scheduled, on every call |
| Onboarding.Tour.HandleTouchStart | components/Onboarding.tsx:64-66 | the touch start is remembered and the screen is unchanged |
| Onboarding.Tour.HandleTouchEnd | components/Onboarding.tsx:68-75 | the screen moves as the swipe says; completion is scheduled exactly by a forward swipe on the last slide |
| IdeaGenerator.Stars | components/IdeaGenerator.tsx:13-17 | one to three stars |
| IdeaGenerator.StarsRank | components/IdeaGenerator.tsx:13-17 | different difficulties get different stars, and harder plans get strictly more |
| IdeaGenerator.Bars | components/IdeaGenerator.tsx:20-23 | three bars |
| IdeaGenerator.BarsShowStars | components/IdeaGenerator.tsx:20-23 | exactly `stars` bars are lit, and they are the leftmost ones |
| IdeaGenerator.InitialIdea | components/IdeaGenerator.tsx:31 | the first plan, or none exactly when there are no plans |
| IdeaGenerator.CompleteClick | components/IdeaGenerator.tsx:37-50 | a remused item is left alone; otherwise the celebration starts and completion is requested for this item |
| IdeaGenerator.SecondClickIgnored | App.tsx:155-159 | once the request is applied, the list holds the same item marked remused, and a viewer opened on it ignores the button |
| IdeaGenerator.CompletionEarnsTen | components/IdeaGenerator.tsx:78 | with unique ids, completing a raw item earns exactly the 10 points that the celebration announces |
| IdeaGenerator.ClickAsWritten | App.tsx:226-231 | as written, the viewer keeps the item it was opened with while the app's list is updated |
| IdeaGenerator.AsWrittenSecondClickCelebrates | components/IdeaGenerator.tsx:34-44 | as written, a second click celebrates and requests completion again, while the total does not move |
| IdeaGenerator.Click | components/IdeaGenerator.tsx:34-35 | corrected: after a request the viewer shows the item as the updated list holds it |
| IdeaGenerator.SecondClickDoesNothing | components/IdeaGenerator.tsx:34-44 | corrected: the first click earns exactly ten points, and a second click does nothing |
| MilestoneCelebration.MilestoneCounts | components/MilestoneCelebration.tsx:10-19 | a count is a milestone exactly when it is 1, 3, 5, 10, 20 or 50 |
| MilestoneCelebration.Lookup | components/MilestoneCelebration.tsx:24 | the table entry exists exactly for a milestone |
| MilestoneCelebration.Confetti | components/MilestoneCelebration.tsx:53 | thirty pieces |
| MilestoneCelebration.ConfettiCycles | components/MilestoneCelebration.tsx:53-57 | piece i takes colour i mod 6: the palette repeats every six pieces, and neighbouring pieces never share a colour |
| MilestoneCelebration.Render | components/MilestoneCelebration.tsx:24-39 | nothing is shown unless the count is a milestone; otherwise its entry, the item's name and thirty confetti pieces |

## Left out

- Network calls to the AI service (`analyzeImage`, `generateSticker`, `generateRemuseIdeas`) are not modelled. What the program does with their results is: the category normalisation, the sticker URL choice, the drama text, error classification and background removal.
- Image loading, canvas drawing, `toDataURL` and downloads are left out. So are the pointer-move drag, whose percentage coordinates are floating point. The print-sheet and social-card geometry is modelled only as counts of columns, rows and drawn stickers.
- Floating point: `Math.sqrt`/`Math.round` in background removal are modelled exactly with integers. `Math.ceil(Math.sqrt(n))` and `Math.ceil(n / d)` are modelled exactly as integer functions. The scale factors are written as percentages.
- Randomness is not modelled. The shuffle in `generateRandomLayout` is a parameter, required to be a permutation of the stickers. The position jitter, rotation, scale variation, confetti positions and celebration particles are left out.
- `Date.now()` is the parameter `now`, and `crypto.randomUUID()` is the parameter `id`. Fresh object URLs are an optional string parameter.
- Timers are left out: the 400 ms hall animation, the 500 ms onboarding fade, the 2 s celebration and the milestone overlay's auto-dismiss. Each handler is modelled as its state just after the timer fires, and what it hands on.
- `localStorage`, the launch screen, the scanner page and the profile/navigation views are not modelled.
- JavaScript strings are UTF-16. `length`, `slice` and `split('')` count code units, while Dafny counts characters. Texts outside the Basic Multilingual Plane (some emoji) would have different lengths.
- `toLowerCase` is modelled on ASCII letters only. `trim` removes the usual WhiteSpace and LineTerminator characters.
- `classifyError` receives `error.message` or `String(error)`. The model takes that string as its input and does not model the conversion.
- Gallery: `categoryCounts` is built on a plain object, where inherited keys such as "constructor" would read as functions. It is modelled as a clean map.
- Gallery: `if (selectedHallId)` treats an empty hall id as "no hall selected". The model keeps the selection as an option and does not reproduce that empty-string case.
- App: the fallback cover in `INITIAL_HALLS` cannot be reached, because every category has a cover, so it is not modelled.
- StickerLibrary: the `canvasRef.current` null checks are not modelled. The canvas is taken as mounted.
- StickerLibrary.PrintCaption: the `if (dramaText)` guard around the caption is not modelled. An empty text gives an empty caption either way.
- IdeaGenerator: the item label built with `item.id.split('-')[0].toUpperCase()` and the clicks that pick another plan (`selectedIdea`) are not modelled.
- Onboarding: `isExiting` does not block further input, as in the source. The model keeps that behaviour: SKIP during the fade schedules completion again.
- MilestoneCelebration: counts are integers. Fractional counts cannot occur.
- The lemmas about fixed names (`TapeName`, `ScrewdriverName`, `UnmatchedNameIsOther`, the default-tool lemmas, `TimeoutBeforeRateLimit`, `NoResponseIsImageQuality`, `MockEcoPoints`) are stated for a parameter that must equal the literal. They cover that one input only.

## Findings

| source | as written | input that shows it | evidently intended | confidence | as-written member | corrected member |
|---|---|---|---|---|---|---|
| components/IdeaGenerator.tsx:34-44 with App.tsx:226-231 | The plan viewer receives `selectedItem`, the snapshot taken when the item was opened. `handleCompleteRemuse` updates only the item list, so `isCompleted` stays false after completion. The button stays enabled, and another click replays the "+10 PTS" celebration and requests the completion again. | Open a raw item and click "mark as complete" twice. The second click celebrates again, while the points stay the same. | The comment says completion counts "either from props or just now": after one click the viewer should show the item as remused and ignore the button. | not executed | IdeaGenerator.AsWrittenSecondClickCelebrates | IdeaGenerator.SecondClickDoesNothing |
