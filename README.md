# Shop catalog storefront — a verified model of its core

The storefront lets a seller set up a shop (name, description, banner and a product grid of 3, 4 or 5
columns), edit its products and export the shop as a printable PDF catalog. Visitors browse a public
directory of shops with a search box, and accounts are made and reset on a sign-up and a
password-reset page. This project models the parts of that system that compute something:

- `catalog_layout.dfy` (`CatalogLayout`) and `pdf_export.dfy` (`PdfExport`) model the catalog export.
  The first holds the page geometry, the product grid with its page breaks, the banner step, the footer
  pass, the file name and the snapshot tiling, as pure functions with lemmas. The second holds the
  imperative export over a jsPDF-like document (`document.dfy`, `Document.PdfDoc`). Each of its
  methods is proved to build exactly the pages the layout functions describe.
- `utils.dfy` (`Utils`) models `slugify`, `truncateText`, `getInitials` and `isValidEmail`. It also
  models `debounce` and `throttle`, as state machines with `call` and timer events and as classes
  over that state.
- `records.dfy` (`Records`) holds the `Shop` and `Product` records, the partial updates spread over
  them, and the merge. `shop_db.dfy` (`ShopDb`) models the record-store client:
  - the tables are an in-memory `Store` class;
  - every request it would send is appended to a log;
  - a backend failure is an argument of the call;
  - the storage paths, the listing query and the reorder payload are pure functions;
  - `autoSave.debounce` is its own class.
- `product_grid.dfy`, `setup_wizard.dfy`, `shop_page.dfy`, `shops_search.dfy`, `signup.dfy` and
  `reset_password.dfy` model the UI handlers of the product grid, the three-step setup wizard, the shop
  page, the shop search, the sign-up page and the reset-password page. Component state is a class
  whose methods are the handlers, and what a handler hands to a callback is its result or a recorded
  field. `auth_client.dfy` (`AuthClient`) stands for the authentication service those two pages call.
- `strings.dfy` (`Strings`) gives the JavaScript string operations the core uses: ASCII case
  mapping, the `\s` class, `split`, `join`, `includes`, `trim` and decimal printing.

## Model

| member | source | states |
|---|---|---|
| Records.MergeShop | components/shop-page.tsx:43-45 | defines the object spread `{ ...shop, ...updates }`, which is also the row `updateShop` leaves; its contract is stated by MergeShopOverridesPresentFields, MergeShopNoChanges, MergeShopIdempotent and MergeShopTwice |
| Records.MergeShopOverridesPresentFields | components/shop-page.tsx:43-45 | the merged shop takes every field present in the update, keeps every absent one, and never changes id or timestamps |
| Records.MergeShopNoChanges | components/shop-page.tsx:43-45 | an empty update leaves the shop unchanged |
| Records.MergeShopIdempotent | components/shop-page.tsx:43-45 | applying the same update twice is applying it once |
| Records.MergeShopTwice | components/shop-page.tsx:43-45 | two successive merges equal one merge of the combined update, the later one winning |
| Records.MergeProduct | lib/shop-db.ts:211-230 | defines the row `updateProduct` leaves: the patch's present fields over the old row; its contract is stated by MergeProductOverridesPresentFields, MergeProductNoChanges and ProductGrid.ImagePatchChangesOnlyImage |
| Records.MergeProductOverridesPresentFields | lib/shop-db.ts:211-230 | the updated product takes every field present in the patch and keeps every other field, its id and timestamps included |
| Records.MergeProductNoChanges | lib/shop-db.ts:211-230 | an empty patch leaves the product unchanged |
| Strings.Lower | app/shops/page.tsx:47-48 | defines `toLowerCase()` character by character, keeping the length; its contract is stated by ToLowerChar, LowerIdempotent, LowerConcat and ShopsSearch.LowerOfUpper |
| Strings.LowerIdempotent | app/shops/page.tsx:47-48 | lowercasing twice is lowercasing once |
| Strings.LowerConcat | app/shops/page.tsx:47-48 | lowercasing works piece by piece over a concatenation |
| Strings.ToLowerChar | app/shops/page.tsx:47-48 | `toLowerCase` on one character: an upper-case letter maps to its lower-case letter; every other character is kept |
| Strings.Upper | lib/utils.ts:97 | defines `toUpperCase()` character by character, keeping the length; its contract is stated by ToUpperChar and ShopsSearch.LowerOfUpper |
| Strings.ToUpperChar | lib/utils.ts:97 | `toUpperCase` on one character: a lower-case letter maps to its upper-case letter; every other character is kept |
| Strings.Includes | app/shops/page.tsx:47-48 | defines `includes`; its contract is stated by IncludesIffOccurs |
| Strings.IncludesIffOccurs | app/shops/page.tsx:47-48 | `includes` holds exactly when the term occurs at some position of the text |
| Strings.Trim | components/shop-setup-wizard.tsx:109 | defines `trim()` as `trimEnd(trimStart(s))`; its contract is stated by TrimNonEmptyIffNotAllSpace |
| Strings.TrimNonEmptyIffNotAllSpace | components/shop-setup-wizard.tsx:109 | `trim()` leaves something exactly when the text is not all white space |
| Strings.Split | lib/shop-db.ts:281 | defines `split(sep)` for one character, with at least one piece; its contract is stated by SplitPiecesHaveNoSeparator, JoinSplit, SplitAtSeparator and ShopDb.FileExtensionSpec |
| Strings.SplitPiecesHaveNoSeparator | lib/shop-db.ts:281 | no piece of `split(sep)` contains the separator |
| Strings.Join | lib/shop-db.ts:308-309 | defines `join(sep)` for one character; its contract is stated by JoinSplit and ShopDb.DeletePathOfUrl |
| Strings.JoinSplit | lib/shop-db.ts:308-309 | joining the pieces of a split with the same separator gives back the text |
| Strings.SplitAtSeparator | lib/shop-db.ts:308 | splitting `a + sep + b` gives the pieces of `a` followed by those of `b` |
| Strings.NatToString | lib/shop-db.ts:282 | the decimal form of a timestamp is non-empty, all digits, has no leading zero, and denotes exactly that number |
| Strings.NatToStringInjective | lib/shop-db.ts:282 | different timestamps print differently |
| Strings.AnyCharIffExists | app/auth/signup/page.tsx:29-44 | a character-class regex test holds exactly when some character of the text is in the class |
| Utils.Slugify | lib/utils.ts:23-28 | defines `slugify`; its contract is stated by SlugifyIsPerCharacter, SpaceBecomesDash, SlugAlphabet and SlugifyIdempotent |
| Utils.SlugifyIsPerCharacter | lib/utils.ts:23-28 | the three chained steps of `slugify` act character by character: each character maps on its own to a dash, a lower-case word character or nothing |
| Utils.SpaceBecomesDash | lib/utils.ts:26 | every space becomes exactly one `-` between the slugs of the text on either side |
| Utils.SlugByCharConcat | lib/utils.ts:23-28 | the slug of a concatenation is the concatenation of the slugs |
| Utils.SlugAlphabet | lib/utils.ts:23-28 | a slug holds only lower-case letters, digits, `_` and `-` |
| Utils.SlugifyIdempotent | lib/utils.ts:23-28 | slugifying a slug changes nothing |
| Utils.TruncateText | lib/utils.ts:87-90 | a text that fits is returned unchanged; a longer one becomes its first `maxLength` characters (none when the bound is negative) followed by `...`, so its length is that count plus 3 |
| Utils.Take | lib/utils.ts:98 | `substring(0, n)` is the prefix of length `min(n, length)` |
| Utils.GetInitials | lib/utils.ts:92-99 | defines `getInitials`; its contract is stated by FirstCharsAreWordStarts and InitialsAreWordStarts |
| Utils.FirstCharsAreWordStarts | lib/utils.ts:93-96 | the first characters of the space-separated words, joined, are exactly the characters that begin a non-empty word, in order |
| Utils.InitialsAreWordStarts | lib/utils.ts:92-99 | the initials are the first two of the upper-cased word starts, so they are at most 2 characters long |
| Utils.IsValidEmail | lib/utils.ts:82-85 | defines the email regex test; its contract is stated by IsValidEmailIffConditions |
| Utils.IsValidEmailIffConditions | lib/utils.ts:82-85 | an address is valid exactly when it has one `@` and no white space, a non-empty local part, and a `.` in the domain that is neither its first nor its last character |
| Utils.DebounceCall | lib/utils.ts:36-38 | defines one call of the debounced wrapper as a state step; its contract is stated by BurstKeepsLastCall, BurstThenFireRunsOnce and Debouncer.Call |
| Utils.DebounceFire | lib/utils.ts:38 | defines the expiry of the debounce timer; its contract is stated by BurstThenFireRunsOnce and Debouncer.Fire |
| Utils.BurstKeepsLastCall | lib/utils.ts:30-40 | after a burst of calls only the last call's arguments are scheduled and nothing has run |
| Utils.BurstThenFireRunsOnce | lib/utils.ts:30-40 | a burst followed by the timer runs the function exactly once, with the last call's arguments |
| Utils.Debouncer.constructor | lib/utils.ts:33-34 | a fresh debounced function has no timer and has run nothing |
| Utils.Debouncer.Call | lib/utils.ts:36-39 | a call replaces any scheduled call with its own arguments |
| Utils.Debouncer.Fire | lib/utils.ts:38 | the timer runs the scheduled call, if any, once, and clears it |
| Utils.ThrottleCall | lib/utils.ts:48-53 | defines one call of the throttled wrapper as a state step; its contract is stated by CallsInWindowDropped, BurstRunsFirstOnly, CallAfterWindowRuns and Throttler.Call |
| Utils.ThrottleExpire | lib/utils.ts:52 | defines the expiry of the throttle window; its contract is stated by CallAfterWindowRuns and Throttler.Expire |
| Utils.CallsInWindowDropped | lib/utils.ts:48-54 | calls while the window is open change nothing: they are dropped, not deferred |
| Utils.BurstRunsFirstOnly | lib/utils.ts:48-53 | from a closed window a burst runs the first call at once and drops the rest |
| Utils.CallAfterWindowRuns | lib/utils.ts:52 | once the window closes the next call runs |
| Utils.Throttler.constructor | lib/utils.ts:46 | a fresh throttled function has a closed window and has run nothing |
| Utils.Throttler.Call | lib/utils.ts:48-54 | a call runs exactly when the window is closed, and then opens it |
| Utils.Throttler.Expire | lib/utils.ts:52 | the timer closes the window |
| ShopDb.IndexOf | lib/shop-db.ts:46-50 | `.eq('id', …)` on either table (also lines 217-222 for products): the row found has that key, and no row has it when none is found |
| ShopDb.ShopsOfUser | lib/shop-db.ts:66-70 | a shop is selected for a user exactly when it is in the table and owned by that user |
| ShopDb.NoRowOfUser | lib/shop-db.ts:66-70 | a user who owns no row gets an empty selection |
| ShopDb.OnlyRowOfUser | lib/shop-db.ts:66-70 | a user who owns one row and no other gets exactly that row |
| ShopDb.SingleUserShop | lib/shop-db.ts:66-77 | in a table with unique ids, `.single()` over a user's rows gives the user's shop when the user owns exactly one row, and nothing when the user owns several |
| ShopDb.SortByPosition | lib/shop-db.ts:158 | defines `.order('position', { ascending: true })`; its contract is stated by SortByPositionCorrect |
| ShopDb.InsertByPositionSorted | lib/shop-db.ts:158 | inserting a row into a list ordered by position keeps it ordered |
| ShopDb.InsertByPositionPermutes | lib/shop-db.ts:158 | the insertion adds exactly that row and loses none |
| ShopDb.SortByPositionCorrect | lib/shop-db.ts:158 | the ordering yields an ascending-position permutation of its input |
| ShopDb.ActiveOfShopMembers | lib/shop-db.ts:156-157 | a row is selected exactly when it belongs to the shop and is active |
| ShopDb.ActiveListing | lib/shop-db.ts:153-158 | defines the result of both product listings; its contract is stated by ActiveListingSpec and InactiveNeverListed |
| ShopDb.ActiveListingSpec | lib/shop-db.ts:153-158 | a listing is in ascending position order and holds exactly the active rows of the shop, each as often as in the table |
| ShopDb.InactiveNeverListed | lib/shop-db.ts:157 | an inactive product is never listed |
| ShopDb.ApplyPositions | lib/shop-db.ts:259-261 | defines the upsert's effect on the table; its contract is stated by ApplyPositionsTouchesOnlyPositions, ApplyPositionsUnnamedRow and ApplyPositionsKeepsIds |
| ShopDb.ApplyPositionsTouchesOnlyPositions | lib/shop-db.ts:259-261 | the reorder keeps every row in its place with every field but its position |
| ShopDb.ApplyPositionsUnnamedRow | lib/shop-db.ts:259-261 | a row no record names keeps its position |
| ShopDb.ApplyPositionsKeepsIds | lib/shop-db.ts:259-261 | the reorder keeps the ids unique |
| ShopDb.FileExtension | lib/shop-db.ts:281 | defines `file.name.split('.').pop()`; its contract is stated by FileExtensionSpec |
| ShopDb.FileExtensionSpec | lib/shop-db.ts:281 | the extension holds no `.`; it is the whole name when there is no `.`, and otherwise the name is a stem, a `.` and the extension |
| ShopDb.UploadPath | lib/shop-db.ts:282 | defines the storage path `${userId}/${Date.now()}.${fileExt}`; its contract is stated by UploadPathsDiffer and DeleteFindsUploadPath |
| ShopDb.DigitsBeforeDot | lib/shop-db.ts:282 | a digit string followed by `.` is determined by the whole text |
| ShopDb.UploadPathsDiffer | lib/shop-db.ts:282 | uploads by one user at different times get different paths |
| ShopDb.DeletePath | lib/shop-db.ts:308-309 | defines `url.split('/').slice(-2).join('/')`; its contract is stated by DeletePathOfUrl and DeleteFindsUploadPath |
| ShopDb.DeletePathOfUrl | lib/shop-db.ts:308-309 | a URL ending in `/dir/leaf`, with no `/` inside either, yields the path `dir/leaf` |
| ShopDb.DeleteFindsUploadPath | lib/shop-db.ts:281-309 | the path removed for an uploaded file's public URL is the path the upload stored |
| ShopDb.RemoveAtIndex | lib/shop-db.ts:130-133 | deleting the row with a key from a table of unique keys keeps exactly the rows with another key, and the keys stay unique |
| ShopDb.Store.constructor | lib/shop-db.ts:38 | an empty store that has sent nothing |
| ShopDb.Store.GetShopById | lib/shop-db.ts:40-58 | not configured: null and no request; otherwise the one select is sent and the row with that id comes back, null when there is none or the backend fails |
| ShopDb.Store.GetUserShop | lib/shop-db.ts:60-78 | not configured: null and no request; otherwise the select is sent, and the user's shop comes back when there is exactly one, null otherwise |
| ShopDb.Store.CreateShop | lib/shop-db.ts:81-99 | not configured: null, no request and no new row; otherwise the insert is sent, and on success the row with the given fields, the new id and equal timestamps is appended and returned |
| ShopDb.Store.UpdateShop | lib/shop-db.ts:102-121 | not configured: null, no request and no change; otherwise the update is sent, and on success only the named row is replaced by its merge with the update, which is returned |
| ShopDb.Store.DeleteShop | lib/shop-db.ts:124-141 | true exactly when configured and the backend answers; then the table keeps exactly the rows with another id; not configured: no request |
| ShopDb.Store.GetShopProductsPublic | lib/shop-db.ts:147-166 | not configured: `[]` and no request; otherwise the listing query is sent and its result is the active listing of the shop |
| ShopDb.Store.GetShopProducts | lib/shop-db.ts:168-187 | the same query and the same result as the public listing |
| ShopDb.Store.CreateProduct | lib/shop-db.ts:190-208 | not configured: null, no request and no new row; otherwise the insert is sent, and on success the row with the given fields, the new id and equal timestamps is appended and returned |
| ShopDb.Store.UpdateProduct | lib/shop-db.ts:211-230 | not configured: null, no request and no change; otherwise the update is sent, and on success only the named row is replaced by its merge with the update |
| ShopDb.Store.DeleteProduct | lib/shop-db.ts:233-250 | true exactly when configured and the backend answers; then the table keeps exactly the rows with another id; not configured: no request |
| ShopDb.Store.ReorderProducts | lib/shop-db.ts:253-269 | true exactly when configured and the backend answers; the upsert sent carries the `{id, position}` records as given, in order, and on success the positions they name are applied, every row keeping its place and every other field |
| ShopDb.Store.UploadImage | lib/shop-db.ts:275-298 | not configured: null and no request; otherwise the upload to `userId/now.ext` is sent, and on success the object is stored and its public URL returned |
| ShopDb.Store.DeleteImage | lib/shop-db.ts:301-321 | true exactly when configured and the backend answers; the removal sent names the last two URL segments, and that object is gone on success |
| ShopDb.Store.SaveShop | lib/shop-db.ts:336-342 | a no-op when not configured; otherwise exactly one update of the shop is sent, and the shop's row becomes its merge with the data, while an outage or an unknown id leaves the table as it was |
| ShopDb.Store.SaveProduct | lib/shop-db.ts:345-351 | a no-op when not configured; otherwise exactly one update of the product is sent, and the product's row becomes its merge with the data, while an outage or an unknown id leaves the table as it was |
| ShopDb.UploadThenDelete | lib/shop-db.ts:275-321 | deleting by the URL an upload returned removes the object the upload stored |
| ShopDb.AutoSaveDebouncer.constructor | lib/shop-db.ts:327-328 | no timer and nothing saved |
| ShopDb.AutoSaveDebouncer.Call | lib/shop-db.ts:329-331 | a call clears the previous timer and schedules its own arguments, as `debounce` in `lib/utils.ts` does |
| ShopDb.AutoSaveDebouncer.Fire | lib/shop-db.ts:331 | the timer runs the scheduled save once, as `debounce` in `lib/utils.ts` does |
| Document.AppendLast | lib/pdf-export.ts:40 | drawing on the last page adds the item at its end and leaves every other page alone |
| Document.FlattenAppendLast | lib/pdf-export.ts:40 | a drawn item comes last in the document's reading order |
| Document.FlattenNewPage | lib/pdf-export.ts:113 | a new page adds nothing to the reading order |
| Document.PdfDoc.constructor | lib/pdf-export.ts:24-28 | a new document has one empty page, which is current |
| Document.PdfDoc.AddPage | lib/pdf-export.ts:90 | a new empty page is added at the end and becomes current |
| Document.PdfDoc.SetPage | lib/pdf-export.ts:179 | page `n`, counted from 1, becomes current and nothing else changes |
| Document.PdfDoc.Draw | lib/pdf-export.ts:40 | the item goes onto the end of the current page |
| CatalogLayout.PageOrientation | lib/pdf-export.ts:30-31 | portrait pages are taller than wide, landscape pages wider than tall, and both sides are at least 200 mm |
| CatalogLayout.ProductWidth | lib/pdf-export.ts:101 | defines the cell width per column count; its contract is stated by ProductWidthFormula and ProductWidthFillsContent |
| CatalogLayout.ProductHeight | lib/pdf-export.ts:102 | defines the card height, 80 with images and 40 without; its contract is stated by CardFitsEveryPage |
| CatalogLayout.ProductWidthFormula | lib/pdf-export.ts:101 | the cell width is `(contentWidth - (cols - 1) * 10) / cols` |
| CatalogLayout.OffsetIsProduct | lib/pdf-export.ts:108-109 | the offset of column or row `n` is `n` times the pitch |
| CatalogLayout.OffsetMonotone | lib/pdf-export.ts:108-109 | offsets never decrease with the index |
| CatalogLayout.ProductWidthFillsContent | lib/pdf-export.ts:32-33 | `cols` cells and `cols - 1` gaps fill the content width, so the last column ends exactly on the right margin |
| CatalogLayout.CardFitsEveryPage | lib/pdf-export.ts:102 | on every page format and orientation a card, 80 or 40 high, fits between the two margins |
| CatalogLayout.CursorAt | lib/pdf-export.ts:104-172 | defines the grid cursor before product `i`; its contract is stated by AdvanceStep, ColumnInRange, ColumnIsIndexModCols, BreakOnlyAtFirstColumn and CursorYAtLeastMargin |
| CatalogLayout.CardFor | lib/pdf-export.ts:108-165 | defines the card drawn for a product at a cursor; its contract is stated by PlacedFits and CardInsideMargins |
| CatalogLayout.GridPages | lib/pdf-export.ts:107-173 | defines the pages the grid loop leaves; its contract is stated by GridPagesStep, GridPageCount, CardsOf and GridCardsInOrder |
| CatalogLayout.AdvanceStep | lib/pdf-export.ts:104-172 | an overflow resets the cursor to the top margin, column 0 and row 0; the column then advances by one and wraps to 0 after the last column, and the row grows by one exactly at the wrap |
| CatalogLayout.ColumnInRange | lib/pdf-export.ts:104-172 | the column always stays below the column count |
| CatalogLayout.PlacedFits | lib/pdf-export.ts:112-119 | a card drawn after any page break never crosses the bottom margin |
| CatalogLayout.BreakOnlyAtFirstColumn | lib/pdf-export.ts:108-117 | when a card fits between the margins a page break happens only at column 0, so the `x` computed before the break is already column 0's |
| CatalogLayout.ColumnIsIndexModCols | lib/pdf-export.ts:104-172 | under the same condition product `i` lands in column `i mod cols` |
| CatalogLayout.ModSuccessor | lib/pdf-export.ts:168-171 | the successor of `i mod cols` is one more, or 0 at the wrap |
| CatalogLayout.CardInsideMargins | lib/pdf-export.ts:107-119 | every card lies inside the four margins of its page |
| CatalogLayout.CursorYAtLeastMargin | lib/pdf-export.ts:114 | the grid's top never rises above the top margin |
| CatalogLayout.GridPagesStep | lib/pdf-export.ts:107-119 | one more product adds a page exactly when its row would overflow, then its card on the last page |
| CatalogLayout.GridPageCount | lib/pdf-export.ts:107-117 | the grid adds one page per product that would cross the bottom margin |
| CatalogLayout.CardsOf | lib/pdf-export.ts:107-173 | one card per product |
| CatalogLayout.GridCardsInOrder | lib/pdf-export.ts:107-173 | the grid adds exactly one card per product, in list order, after what was there |
| CatalogLayout.BannerStepSpec | lib/pdf-export.ts:53-84 | a skipped or failed banner leaves pages and cursor alone; a drawn one adds a page exactly when it would cross the bottom margin and moves the cursor 55 below where it was drawn |
| CatalogLayout.Footers | lib/pdf-export.ts:177-187 | defines the footer pass; its contract is stated by FootersNumberEveryPage |
| CatalogLayout.FootersNumberEveryPage | lib/pdf-export.ts:177-187 | every page keeps its content and gains, last, the footer "Page i of N" with N the final page count |
| CatalogLayout.HeaderPages | lib/pdf-export.ts:37-84 | title, description and banner take one page, or two when a drawn banner would cross the bottom margin, and hold no product item |
| CatalogLayout.ProductsPageCount | lib/pdf-export.ts:86-174 | the products section adds a page when the heading would cross the margin and one per grid break, and nothing without products |
| CatalogLayout.CatalogPages | lib/pdf-export.ts:13-195 | defines the pages of `exportShop`; its contract is stated by HeaderPages, ProductsPageCount, CatalogPageCount, NoProductsNoProductItems and CatalogCardsInOrder |
| CatalogLayout.CatalogPageCount | lib/pdf-export.ts:13-195 | the final page count, which the footers report, from the banner break, the heading break and the grid breaks |
| CatalogLayout.NoProductsNoProductItems | lib/pdf-export.ts:87 | with no products there is neither a "Products" heading nor a card |
| CatalogLayout.CatalogCardsInOrder | lib/pdf-export.ts:86-174 | with products the body reads as the header, the heading, then one card per product in list order |
| CatalogLayout.HeadingFlatten | lib/pdf-export.ts:89-97 | the heading step adds just the heading to the reading order |
| CatalogLayout.ReplaceNonAlnum | lib/pdf-export.ts:190 | the replacement is one character for one |
| CatalogLayout.CatalogSlug | lib/pdf-export.ts:190 | defines the slug both PDF file names start with; its contract is stated by CatalogSlugSpec and ShopPage.PreviewAndCatalogShareSlug |
| CatalogLayout.CatalogSlugSpec | lib/pdf-export.ts:190 | the slug has the name's length; letters are lowercased, digits kept and every other character becomes `_` |
| CatalogLayout.CatalogFileName | lib/pdf-export.ts:190 | defines the catalog file name; its contract is stated by CatalogSlugSpec and CatalogFileNameExample |
| CatalogLayout.CatalogFileNameExample | lib/pdf-export.ts:190 | "My Shop! 123" gives `my_shop__123_catalog.pdf` |
| CatalogLayout.SnapshotHeight | lib/pdf-export.ts:217 | the scaled image height is never negative |
| CatalogLayout.TilePages | lib/pdf-export.ts:215-230 | defines the pages of `exportCurrentView`; its contract is stated by TileCountCoversImage, EveryBandOnOnePage and ExactMultipleAddsBlankPage |
| CatalogLayout.TileCount | lib/pdf-export.ts:222-230 | defines the number of pages the tiling loop makes; its contract is stated by TileCountCoversImage and ExactMultipleAddsBlankPage |
| CatalogLayout.TileOffset | lib/pdf-export.ts:220-227 | defines the image offset on each page; its contract is stated by TileCountCoversImage and EveryBandOnOnePage |
| CatalogLayout.TileCountCoversImage | lib/pdf-export.ts:222-230 | the last page starts within the image and the next page would start below it, so the loop stops once the image is covered |
| CatalogLayout.EveryBandOnOnePage | lib/pdf-export.ts:222-230 | every band of the image falls on exactly one page |
| CatalogLayout.ExactMultipleAddsBlankPage | lib/pdf-export.ts:225-230 | a height that is an exact multiple of 295 gets one page more than it needs, and that page stays blank |
| PdfExport.LayOutGrid | lib/pdf-export.ts:104-173 | the product loop builds exactly the grid pages of the layout, the last page current |
| PdfExport.PlaceProduct | lib/pdf-export.ts:108-172 | one iteration: a page break when the card would overflow, the card drawn at the placed cursor, and the cursor advanced |
| PdfExport.AddFooters | lib/pdf-export.ts:177-187 | the footer pass adds the footers of the layout to every page |
| PdfExport.DrawTitle | lib/pdf-export.ts:35-50 | the title and the description, drawn as the layout describes, with the cursor after them |
| PdfExport.DrawBanner | lib/pdf-export.ts:52-84 | the banner step, drawn as the layout describes |
| PdfExport.DrawProducts | lib/pdf-export.ts:86-174 | the products section, drawn as the layout describes |
| PdfExport.ExportShop | lib/pdf-export.ts:13-195 | a new document holding exactly the catalog pages, saved under the catalog file name |
| PdfExport.ExportCurrentView | lib/pdf-export.ts:198-237 | no document when the element is missing; otherwise a new document holding the tiled pages of the scaled image, under the given name |
| PdfExport.TileImage | lib/pdf-export.ts:215-230 | the tiling loop draws exactly the tiled pages: one per 295 of height, the image moved up by one page each time |
| ProductGrid.ReplaceById | components/product-grid.tsx:380-382 | defines `products.map(p => p.id === updated.id ? updated : p)`; its contract is stated by ReplaceByIdSpec and ReplaceByIdIdempotent |
| ProductGrid.ReplaceByIdSpec | components/product-grid.tsx:380-382 | the update keeps length and order, replacing every entry with the updated id and keeping every other one |
| ProductGrid.ReplaceByIdIdempotent | components/product-grid.tsx:380-382 | replacing twice is replacing once |
| ProductGrid.RemoveById | components/product-grid.tsx:396 | defines `products.filter(p => p.id !== id)`; its contract is stated by RemoveByIdMembers, RemoveByIdConcat, RemoveAbsentId and AddThenDelete |
| ProductGrid.RemoveByIdMembers | components/product-grid.tsx:396 | the deletion keeps exactly the entries with another id |
| ProductGrid.RemoveByIdConcat | components/product-grid.tsx:396 | the deletion works piece by piece, so it keeps the relative order of what it keeps |
| ProductGrid.RemoveAbsentId | components/product-grid.tsx:396 | deleting an absent id leaves the list as it is |
| ProductGrid.AddThenDelete | components/product-grid.tsx:387-399 | deleting a just-added product with a new id gives back the list |
| ProductGrid.HandleProductUpdate | components/product-grid.tsx:378-385 | the callback gets a list only when there is one, of the same length, with each entry of the updated id replaced and the rest kept |
| ProductGrid.HandleProductAdd | components/product-grid.tsx:387-391 | the callback gets, only when there is one, the old list followed by the new product |
| ProductGrid.HandleProductDelete | components/product-grid.tsx:393-399 | the delete call is always made; the callback gets a list exactly when there is one and the store reports success, and that list is the old one without the id, order kept; after a successful delete the table holds exactly the rows with another id, otherwise it is unchanged |
| ProductGrid.AddProductForm.constructor | components/product-grid.tsx:271-277 | a closed form with an empty name and description and price 0 |
| ProductGrid.AddProductForm.Payload | components/product-grid.tsx:282-289 | the insert carries the shop's id, the entered name, description and price, no image, and is active |
| ProductGrid.AddProductForm.Open | components/product-grid.tsx:354 | the form opens |
| ProductGrid.AddProductForm.Edit | components/product-grid.tsx:310-328 | the inputs set name, description and price |
| ProductGrid.AddProductForm.Cancel | components/product-grid.tsx:342-344 | the form closes and is cleared |
| ProductGrid.AddProductForm.HandleAdd | components/product-grid.tsx:279-296 | with an empty name or a price of at most 0 no call is made and nothing changes; otherwise the insert of the payload is sent, and a product is created exactly when the store is configured, up, and the new id is free; the created row, with the shop id, the form's values, no image, position `now` and active, is appended to the table, which is otherwise unchanged, and the form is then cleared and closed |
| ProductGrid.ProductCardState.constructor | components/product-grid.tsx:34-41 | not editing, not uploading, and the edit fields show the product (a missing description as `''`) |
| ProductGrid.ProductCardState.ReceiveProduct | components/product-grid.tsx:467-469 | a re-render under the same key replaces the `product` prop and keeps the card's editing state |
| ProductGrid.ProductCardState.StartEdit | components/product-grid.tsx:236 | edit mode starts |
| ProductGrid.ProductCardState.Edit | components/product-grid.tsx:184-202 | the inputs set the edit fields |
| ProductGrid.ProductCardState.Cancel | components/product-grid.tsx:215-221 | edit mode ends and the edit fields show the current `product` prop again, which after a keyed re-render is the row the last save or image change returned |
| ProductGrid.ProductCardState.EditPatch | components/product-grid.tsx:74 | the update carries the edited name, description and price and no other field |
| ProductGrid.ProductCardState.HandleSave | components/product-grid.tsx:73-79 | the update of the edit fields is sent when configured; when the store is up and has the row, the row returned and stored is the old row merged with the three edited fields, otherwise nothing comes back and the table is unchanged; edit mode ends only when the row comes back |
| ProductGrid.ImagePatch | components/product-grid.tsx:89 | the patch sets the image URL and no other field |
| ProductGrid.ImagePatchChangesOnlyImage | components/product-grid.tsx:89 | the image update changes the row's image URL and no other field |
| ProductGrid.ProductCardState.HandleImageChange | components/product-grid.tsx:81-99 | no file or no configuration: nothing is sent and nothing changes; otherwise the upload is sent first and stores the object when it succeeds; only then is the update with the public URL sent, and the row returned and stored is the old row with that image URL, while a failed step leaves the table as it was and returns nothing; uploading is off at the end |
| ProductGrid.RerenderCard | components/product-grid.tsx:467-474 | the card keyed by a product id receives the row of the new list with that id, and a card whose row is gone is left as it is |
| ProductGrid.ReplacedRowReachesCard | components/product-grid.tsx:378-383 | in the list `handleProductUpdate` hands on, the card's key finds exactly the row it passed to `onUpdate` |
| SetupWizard.StepValid | components/shop-setup-wizard.tsx:106-116 | step 0 is valid exactly when the trimmed name is non-empty, steps 1 and 2 always, any other step never |
| SetupWizard.CompleteGuardDoesNotTrim | components/shop-setup-wizard.tsx:83-109 | a name of one space passes the completion guard but not step 0 |
| SetupWizard.Wizard.constructor | components/shop-setup-wizard.tsx:22-30 | step 0, not creating, empty name, description and banner URL, height 200 and 3 columns |
| SetupWizard.Wizard.IsStepValid | components/shop-setup-wizard.tsx:407-417 | the current step is valid exactly when it is one of the three steps and, on step 0, the name is not blank |
| SetupWizard.Wizard.HandleNext | components/shop-setup-wizard.tsx:70-74 | the step grows by one unless it is the last, and stays in 0..2 |
| SetupWizard.Wizard.HandlePrevious | components/shop-setup-wizard.tsx:76-80 | the step drops by one unless it is the first, and stays in 0..2 |
| SetupWizard.Wizard.ClickNext | components/shop-setup-wizard.tsx:395-396 | Next moves on only from a valid step, so no step past the first is reached with a blank name |
| SetupWizard.Wizard.ClickPrevious | components/shop-setup-wizard.tsx:355-356 | Previous moves back one step and does nothing on step 0 |
| SetupWizard.Wizard.SetName | components/shop-setup-wizard.tsx:174 | the name input sets the name only |
| SetupWizard.Wizard.SetDescription | components/shop-setup-wizard.tsx:186 | the description input sets the description only |
| SetupWizard.Wizard.SetBannerHeight | components/shop-setup-wizard.tsx:251 | the slider sets the height only |
| SetupWizard.Wizard.SetGridColumns | components/shop-setup-wizard.tsx:297-300 | a column button sets the column count only |
| SetupWizard.Wizard.DropBanner | components/shop-setup-wizard.tsx:55-67 | no file or no configuration: nothing is sent and nothing changes; otherwise the upload of the first file is sent, and when it succeeds the object is stored and the banner URL becomes its public URL, while a failed upload keeps both the URL and the stored objects |
| SetupWizard.Wizard.Payload | components/shop-setup-wizard.tsx:87-94 | the new shop is the user id with the wizard's name, description, banner URL, height and columns |
| SetupWizard.Wizard.HandleComplete | components/shop-setup-wizard.tsx:82-104 | an empty name sends nothing and changes nothing; otherwise the insert of the payload is sent when configured, creating is off afterwards, a shop is created exactly when the store is configured, up and the new id is free, and the created row, carrying every value the wizard holds, is appended to the table, which is otherwise unchanged |
| SetupWizard.Wizard.ClickComplete | components/shop-setup-wizard.tsx:376-378 | the button does nothing while creating; otherwise it creates the shop as `handleComplete` does, appending the created row to the table, and a shop created through the buttons never has a blank name |
| ShopPage.BannerPatch | components/shop-page.tsx:65-67 | the update touches only the banner URL |
| ShopPage.HeightPatch | components/shop-page.tsx:69-71 | the update touches only the banner height |
| ShopPage.ColumnsPatch | components/shop-page.tsx:73-75 | the update touches only the column count |
| ShopPage.SingleFieldPatches | components/shop-page.tsx:65-75 | each single-field handler changes its own field of the shop and keeps every other one |
| ShopPage.PreviewFileName | components/shop-page.tsx:98 | the preview name is one character per name character followed by `_preview.pdf` |
| ShopPage.PreviewAndCatalogShareSlug | components/shop-page.tsx:98 | the preview and the catalog file names start with the same slug |
| ShopPage.ShopPageState.constructor | components/shop-page.tsx:34-41 | the page shows the given shop and products, not exporting, not editing, with an idle saver waiting 1000 ms |
| ShopPage.ShopPageState.HandleShopUpdate | components/shop-page.tsx:43-55 | the shop becomes its merge with the update; the merged shop is forwarded when there is a callback; an auto-save of the original id with the update alone is requested only when editable |
| ShopPage.ShopPageState.FireAutoSave | components/shop-page.tsx:40-54 | when the debounced saver's timer fires, the last scheduled `saveShop` runs once with the id and the updates it was given: its update is sent when configured, and the shop's row becomes its merge with those updates unless the store is down or lacks the row; with nothing scheduled the store is untouched |
| ShopPage.ShopPageState.HandleProductsUpdate | components/shop-page.tsx:57-63 | the list is replaced wholesale and the same list is forwarded when there is a callback |
| ShopPage.ShopPageState.HandleBannerUpdate | components/shop-page.tsx:65-67 | only the banner URL changes, forwarded and auto-saved as any update |
| ShopPage.ShopPageState.HandleBannerHeightChange | components/shop-page.tsx:69-71 | only the banner height changes, forwarded and auto-saved as any update |
| ShopPage.ShopPageState.HandleGridColumnsChange | components/shop-page.tsx:73-75 | only the column count changes, forwarded and auto-saved as any update |
| ShopPage.ShopPageState.ToggleEditMode | components/shop-page.tsx:117 | the edit mode flips |
| ShopPage.ShopPageState.HandleExportPDF | components/shop-page.tsx:77-91 | the catalog of the shown shop and products on A4 portrait pages with images, under the catalog name; not exporting afterwards |
| ShopPage.ShopPageState.HandleExportCurrentView | components/shop-page.tsx:93-106 | nothing when the element is missing, otherwise the tiled snapshot under the preview name; not exporting afterwards |
| ShopsSearch.Matches | app/shops/page.tsx:46-49 | defines the filter's test for one shop; its contract is stated by FilterShopsMembers, SameLowerSameListing and TermCaseIgnored |
| ShopsSearch.FilterShops | app/shops/page.tsx:46 | the filter only removes shops |
| ShopsSearch.FilterShopsMembers | app/shops/page.tsx:46-49 | a shop is listed exactly when it is in the directory and its lowercased name, or its non-empty lowercased description, contains the lowercased term |
| ShopsSearch.FilterShopsConcat | app/shops/page.tsx:46 | the filter works piece by piece, so the listing keeps the directory's order |
| ShopsSearch.EmptyTermKeepsAll | app/shops/page.tsx:46-49 | an empty term lists every shop |
| ShopsSearch.SameLowerSameListing | app/shops/page.tsx:47-48 | terms equal once lowercased list the same shops |
| ShopsSearch.LowerOfUpper | app/shops/page.tsx:47-48 | upper-casing a term does not change its lowercase form |
| ShopsSearch.TermCaseIgnored | app/shops/page.tsx:47-48 | the search ignores the letter case of the term |
| ShopsSearch.EmptyStateTitle | app/shops/page.tsx:152-153 | "No shops found" exactly when a term is set, "No shops yet" exactly when not |
| ShopsSearch.EmptyStateHint | app/shops/page.tsx:155-158 | the hint to adjust the search shows exactly when a term is set |
| AuthClient.Auth.constructor | app/auth/signup/page.tsx:80-82 | no call made yet |
| AuthClient.Auth.SignUpUser | app/auth/signup/page.tsx:84-90 | records one sign-up call with the form's email, password and full name, and passes on the service's answer |
| AuthClient.Auth.SignInWith | app/auth/signup/page.tsx:107-108 | records one provider sign-in call and passes on the answer |
| AuthClient.Auth.UpdateUserPassword | app/auth/reset-password/page.tsx:77-78 | records one password update call and passes on the answer |
| AuthClient.MessageOr | app/auth/signup/page.tsx:91-92 | the error's own message when it has one, the page's fallback otherwise |
| Signup.ValidatePassword | app/auth/signup/page.tsx:29-44 | each flag holds exactly when the password has that property; valid exactly when at least 8 long with an upper-case letter, a lower-case letter and a digit, the special character not required |
| Signup.SpecialCharNotRequired | app/auth/signup/page.tsx:36-43 | `Abcdefg1` is valid without a special character |
| Signup.ShortPasswordsInvalid | app/auth/signup/page.tsx:38 | no password shorter than 8 is valid |
| Signup.FirstSignupError | app/auth/signup/page.tsx:61-77 | no error exactly when all three checks pass; otherwise the message of the first failing check in the order email, password rule, confirmation |
| Signup.EmailCheckedFirst | app/auth/signup/page.tsx:61-65 | an empty email is reported whatever the passwords are |
| Signup.MismatchHintPredictsError | app/auth/signup/page.tsx:355-356 | once email and password pass, the hint under a filled-in confirmation shows exactly when submitting reports the mismatch |
| Signup.SignupForm.constructor | app/auth/signup/page.tsx:17-27 | empty fields, not loading, no error, no success |
| Signup.SignupForm.SubmitDisabled | app/auth/signup/page.tsx:382 | disabled exactly when loading, shorter than 8, or missing an upper-case letter, a lower-case letter or a digit; a mismatch alone does not disable it |
| Signup.SignupForm.Edit | app/auth/signup/page.tsx:48-53 | the inputs set the four fields |
| Signup.SignupForm.HandleEmailSignup | app/auth/signup/page.tsx:55-96 | a failing check sets its message and makes no call; with all checks passed and no service the not-configured message is set; otherwise exactly one sign-up call is made, success on no error, else the error's message or the fallback; never loading at the end |
| Signup.SignupForm.HandleGoogleSignup | app/auth/signup/page.tsx:98-113 | no service: the not-configured message and no call; otherwise one Google sign-in call, loading kept on after success and off with the error's message after a failure |
| ResetPassword.ValidatePassword | app/auth/reset-password/page.tsx:42-55 | each flag holds exactly when the password has that property, and valid exactly when all four hold |
| ResetPassword.SameRuleAsSignup | app/auth/reset-password/page.tsx:42-55 | the reset page accepts exactly the passwords the sign-up page accepts, flag by flag |
| ResetPassword.FirstResetError | app/auth/reset-password/page.tsx:64-74 | no error exactly when the rule passes and the confirmation matches; otherwise the first failure's message, the rule first |
| ResetPassword.ScreenOf | app/auth/reset-password/page.tsx:93-140 | the invalid-link screen exactly when the link is not valid and there is no success, the success screen exactly on success |
| ResetPassword.ResetForm.constructor | app/auth/reset-password/page.tsx:18-25 | empty fields, not loading, no error, no success, link not yet valid |
| ResetPassword.ResetForm.CheckTokens | app/auth/reset-password/page.tsx:30-40 | both tokens present and non-empty make the link valid; otherwise the invalid-link message is set |
| ResetPassword.ResetForm.SubmitDisabled | app/auth/reset-password/page.tsx:306 | disabled exactly when loading or a submit check would fail |
| ResetPassword.ResetForm.Edit | app/auth/reset-password/page.tsx:224-283 | the inputs set the two fields |
| ResetPassword.ResetForm.CurrentScreen | app/auth/reset-password/page.tsx:93-140 | the invalid-link screen exactly when the link is not valid and no reset succeeded, the success screen exactly after success, and the form otherwise |
| ResetPassword.ResetForm.HandleResetPassword | app/auth/reset-password/page.tsx:59-91 | a failing check sets its message and makes no call; otherwise exactly one update call, success on no error, else the error's message or the fallback; never loading at the end |

## Left out

- Network I/O: every backend, storage and authentication call is an in-memory `Store` or `Auth` object. A backend failure is an `outage` or `reply` argument, and `isSupabaseConfigured()` is fixed when the object is made. `lib/supabase.ts` is not part of this model.
- Exceptions thrown by backend calls and caught by the pages are not modelled apart from the error results they produce.
- Rendering: fonts, colours and pixels are not modelled. `pdf.text`, `pdf.addImage` and the `Products` heading are items recorded on pages.
- Foreign calls in the export: `splitTextToSize` is an uninterpreted line count of a text at a width and font size (12 for shop descriptions and product names, 10 for product descriptions), and image loading a boolean outcome, both in `CatalogLayout.Environment`. `html2canvas` is the canvas size it returns.
- PdfExport.ExportCurrentView: a canvas of width 0 and positive height is excluded by a precondition. On it the source's image height is infinite, so its tiling loop (lib/pdf-export.ts:225-230) never ends. A 0×0 canvas gives a height that is not a number, and the source then writes one page; the precondition excludes that input too.
- ShopPage.ShopPageState.HandleExportCurrentView: carries the same precondition on the captured canvas, for the same reason.
- Floating point: geometry and prices are exact reals. `toFixed(2)` price text is not modelled.
- Clocks: `Date.now()` is a parameter, and `new Date().toLocaleDateString()` is a date string parameter.
- Real timers: `setTimeout` and `clearTimeout` are explicit call and fire events. The debounce wait and the throttle limit are kept but not interpreted as time.
- ShopPage.ShopPageState.FireAutoSave: the source recreates the debounced savers on every render (components/shop-page.tsx:40-41), so each render's new saver leaves the earlier timer running and every `handleShopUpdate` patch reaches `saveShop`. The model has one saver for the page's lifetime, so only the last patch of a burst is saved. For example, a banner-height change and then a column change within one second are both saved by the source, but only the column change by the model.
- The shop page's `debouncedSaveProduct` (components/shop-page.tsx:41) is created but never called, so nothing in the model calls `ShopDb.Store.SaveProduct` either.
- In the wizard, the editor's `setShopData({ ...shopData, … })` closures may see an old `shopData`. The model updates one field in place.
- Text: case mapping and white space are ASCII and JavaScript's fixed `\s` set. There is no Unicode case mapping.
- Text is a sequence of Unicode scalar values, while JavaScript's `length`, `substring`, `charAt` and regular expressions without the `u` flag work on UTF-16 code units. The two agree on text without characters outside the Basic Multilingual Plane. Each character outside it counts once here and twice in the source. For example, `"Abcde1😀"` has length 8 in the source and 7 here. The members below state their contracts in scalar values:
- Utils.TruncateText: the length limit and the cut position count scalar values, not UTF-16 code units, so the model never splits a surrogate pair.
- Utils.Take: `substring` is taken in scalar values, not UTF-16 code units.
- Utils.GetInitials: `charAt(0)` and `substring(0, 2)` take scalar values, not UTF-16 code units.
- Utils.InitialsAreWordStarts: the first character of a word is a scalar value, not a UTF-16 code unit.
- Signup.ValidatePassword: the 8-character minimum counts scalar values, not UTF-16 code units.
- Signup.ShortPasswordsInvalid: "shorter than 8" counts scalar values, not UTF-16 code units.
- Signup.SignupForm.SubmitDisabled: the length test counts scalar values, not UTF-16 code units.
- ResetPassword.ValidatePassword: the 8-character minimum counts scalar values, not UTF-16 code units.
- CatalogLayout.ReplaceNonAlnum: a character outside the Basic Multilingual Plane becomes one `_`, where the source's regular expression writes one `_` per code unit.
- CatalogLayout.CatalogSlugSpec: the same one-`_`-per-scalar-value difference as ReplaceNonAlnum.
- ShopPage.PreviewFileName: the same one-`_`-per-scalar-value difference as ReplaceNonAlnum.
- `generateId`, `copyToClipboard`, `cn`, `formatDate` and `formatTime`, which wrap randomness, the DOM, a library and `Intl`.
- ShopDb.Store.ReorderProducts: a record whose id has no row is not inserted, although an upsert would insert it. No caller in the repository passes ids to this function, so nothing there shows which ids it receives.
- Ties in position: the backend's order of rows with equal position is unspecified. The model keeps their table order.
- Patches do not carry `id`, `created_at` or `updated_at`. The handlers never send them.
- ResetPassword.ResetForm.HandleResetPassword: the redirect to the login page two seconds after success is not modelled.
- Signup.SignupForm.HandleEmailSignup: the rendering of the success screen is not modelled, only the `success` flag.
- The shops directory loader (`useEffect` in app/shops/page.tsx:15-44) and the alerts shown when an export fails are I/O.
- Banner height limits exist only as attributes of the range inputs and are not enforced, so the model accepts any height.
- Product card drop zone: `onDrop` (components/product-grid.tsx:51-70) runs the same steps as `handleImageChange` and is modelled by `ProductGrid.ProductCardState.HandleImageChange`.
- The delete button's wiring to `onDelete` is presentation. The deletion itself is `ProductGrid.HandleProductDelete`.
- Presentational, routing and configuration files: header, banner, landing, layout, login, forgot-password, callback, dashboard and the Next.js configs.
