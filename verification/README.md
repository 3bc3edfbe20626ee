# Perfume scraper and Shopify automation — a verified model

The system gathers product data for perfumes and cosmetics and pushes it to a
Shopify store. A Python scraper (`product_scraper.py`) does several jobs:

- it reads a Google search response, turning each organic result into a bundle
  of descriptions, images, price texts and "NN ml" formats;
- it merges the bundles of a search into one product record with price
  statistics and the most common size;
- it walks a product page through a cascade of CSS selectors to find its size
  variants and their prices.

It also parses the user's "Brand:" / product-line input, normalises product
names, picks unique file names and reads Italian-style price texts.

A Shopify wrapper (`shopify_handler.py`) handles products:

- it creates products;
- it merges scraped variants into existing products by title;
- it lists products that have a variant without a price.

The Electron front end (`renderer.js`) and the automation driver
(`shopify_automation.py`) parse the same brand/product input. The driver then
decides whether an existing product needs scraping and builds the variants
payload for a new product from the sizes the user picked.

The model is one Dafny module per concern:

- `Text`: Python and JavaScript string primitives: `strip`, `split`, `lower`,
  whitespace-separated words, decimal rendering.
- `PriceText`: the two price readers, `_parse_price` and the regex in
  `cerca_prodotto`.
- `Scanners`: the `findall` semantics of the price and format regexes, and the
  Google variant regex.
- `SiteConfig`: the domain lookup.
- `SearchNormalizer`: the SerpAPI result normaliser.
- `Aggregator`: `cerca_prodotto`.
- `Cascade`: `_extract_dynamic_variants`.
- `UserInput`: `_normalize_text`, `parse_user_input`, `_get_unique_filename`.
- `Catalog`: the Shopify product objects and the handler.
- `BrandInput`: the shared brand grouping, used by `Renderer` and `Automation`.

Code that changes things step by step becomes methods with loops, proved
against a function that states the result. Shopify products, which the source
updates in place, are a class. Page, HTTP and image services are oracles passed
as parameters:

- the `Page` record of the selector cascade;
- the `fetch` function for images;
- the `hasImages` flag for a product's images;
- the `scraped` value for `scrape_product`.

## Model

| member | source | states |
|---|---|---|
| PriceText.ParsePrice | product_scraper.py:1590-1598 | the price reader gives an amount exactly when the text, reduced to digits, periods and commas with every comma read as a period, is a numeral `float()` accepts; the amount is never negative, and otherwise the result is None rather than an exception |
| PriceText.FloatOfNumeral | product_scraper.py:1596 | `float()` on the cleaned text is defined exactly on digit strings with at most one period and at least one digit |
| PriceText.KeepPriceChars | product_scraper.py:1594 | the cleaned text holds only digits, periods and commas |
| PriceText.ParsePriceItalian | product_scraper.py:1590-1598 | an Italian price "units,cc €" reads back as units + cc/100 |
| PriceText.ParsePriceExampleComma | product_scraper.py:1594-1596 | "12,50 €" reads as 12.5 |
| PriceText.ParsePriceThousands | product_scraper.py:1594-1597 | a price with a thousands period and a decimal comma ("a.b,c €") is rejected, because two periods remain |
| PriceText.ParsePriceExampleThousands | product_scraper.py:1594-1597 | "1.234,50 €" gives None |
| PriceText.ParsePriceSeparatorInsensitive | product_scraper.py:1594-1595 | turning commas into periods beforehand never changes the result |
| PriceText.FirstNumberIsLeftmost | product_scraper.py:846 | the aggregator's number search returns the number that starts at the leftmost digit |
| PriceText.FirstNumberFrom | product_scraper.py:846 | the number search finds a number exactly when a digit remains, and the number is never negative |
| PriceText.AggregatorPriceDefined | product_scraper.py:843-848 | the aggregator finds an amount in a price text exactly when the text has a digit |
| PriceText.AggregatorPrice | product_scraper.py:843-848 | an amount the aggregator reads from a price text is never negative |
| PriceText.AggregatorPriceThousands | product_scraper.py:843-848 | for "a.b,c €" the aggregator reads the number a.b, where the price reader gives None |
| PriceText.AggregatorPriceExampleThousands | product_scraper.py:843-848 | "1.234,50 €" reads as 1.234 in the aggregator |
| PriceText.AggregatorPriceItalian | product_scraper.py:843-848 | on a well-formed Italian price the aggregator and the price reader agree |
| Scanners.MatchAt | product_scraper.py:512-513 | a match of the price or format pattern starts at a digit and ends inside the text |
| Scanners.ScanSpans | product_scraper.py:512-513 | `findall` reports matches in order, without overlaps, each one the pattern's match at its start |
| Scanners.ScanComplete | product_scraper.py:512-513 | every position where the pattern matches lies inside a reported match |
| Scanners.FindAllTexts | product_scraper.py:512-514 | the texts returned are the slices of the reported matches |
| Scanners.ExtractPriceAndFormat | product_scraper.py:511-514 | every price text found gives the aggregator an amount, and every format found gives it a size |
| Scanners.EuroPriceInsideNumber | product_scraper.py:512 | the price pattern has no leading word boundary: in "1234,50 €" the match starts at the second digit |
| Scanners.ShortFormatIsFormat | product_scraper.py:513-520 | a 2-3 digit format match is also the 1-4 digit format match at the same place |
| Scanners.ExtractFormats | product_scraper.py:516-522 | the formats found in all texts, without duplicates; a format is listed exactly when some text contains it |
| Text.Distinct | product_scraper.py:600-601 | `list(set(...))` gives the same members without duplicates |
| Scanners.FormatSizeReadBack | product_scraper.py:857-859 | every format the scanner reports is read back by the aggregator as the value of its leading digits |
| Scanners.SizeOfFormat | product_scraper.py:857-859 | a size is read from a format only when it mentions "ml" in any case |
| Scanners.PriceTextHasAmount | product_scraper.py:843-848 | every price text the price pattern finds gives the aggregator an amount |
| Scanners.SearchShortMlFrom | product_scraper.py:1381 | the size read from a Google variant title is below 10000 |
| Scanners.GoogleSize | product_scraper.py:1381-1383 | the size read from a Google variant title is below 10000 |
| Scanners.GoogleSizeExample | product_scraper.py:1381-1383 | "12345ml" gives size 2345, because the pattern takes the last four digits |
| Scanners.ExtractGoogleVariants | product_scraper.py:1366-1393 | a failed element query or a failed read of any element gives the empty list; otherwise at most one variant per element, every element with a title and a price text gives its variant, and every variant comes from such an element |
| Scanners.GoogleVariants | product_scraper.py:1366-1393 | the loop returns what `ExtractGoogleVariants` states, ending with the empty list at the first element it cannot read |
| Scanners.GoogleVariantsComplete | product_scraper.py:1377-1390 | at most one variant per element, and every element with a title and a price text gives its variant |
| Scanners.GoogleVariantsSound | product_scraper.py:1377-1390 | every variant comes from a usable element |
| SiteConfig.Netloc | product_scraper.py:260 | the network location contains no delimiter ('/', '?', '#') |
| SiteConfig.Domain | product_scraper.py:260 | the domain looked up contains no delimiter ('/', '?', '#') |
| SiteConfig.GetSiteConfig | product_scraper.py:258-261 | a profile is found exactly when the URL's domain can be parsed, and it is always the default profile |
| SiteConfig.NetlocOfHttps | product_scraper.py:260 | for "https://host/path" the network location is the host |
| SiteConfig.DomainOfHttps | product_scraper.py:260 | the domain is the host with every "www." removed |
| SiteConfig.WwwRemoved | product_scraper.py:260 | a leading "www." is dropped from a host that has no other |
| SiteConfig.WwwMayRemain | product_scraper.py:260 | removing "www." is one pass: "wwwww.w." becomes "www." |
| SearchNormalizer.Normalize | product_scraper.py:537-606 | one bundle per organic result, in order, each built from that result and the response's knowledge graph |
| SearchNormalizer.NormalizeHit | product_scraper.py:549-604 | a bundle holds the result's title, its non-empty description candidates in order, its price texts and formats each once, its thumbnail, and the main images only when it has no thumbnail |
| SearchNormalizer.CollectPrices | product_scraper.py:563-587 | collects the snippet's euro amounts, then the detected prices of both rich-snippet parts, then the extensions with '€', repetitions included |
| SearchNormalizer.CollectFormats | product_scraper.py:564-595 | a format is collected exactly when it is among the result's format candidates |
| SearchNormalizer.CollectDescriptions | product_scraper.py:552-593 | the candidates are the snippet and the title, present or not, then the knowledge-graph text when non-empty, then the description and name fields when present |
| SearchNormalizer.DetectedPriceTexts | product_scraper.py:575-580 | one rich-snippet part adds its price with " €", its original price with " €", then its price with its currency, each only when present |
| SearchNormalizer.ExtensionPriceTexts | product_scraper.py:583-586 | the extensions that contain '€' are added in order |
| SearchNormalizer.ExtensionFormatTexts | product_scraper.py:583-588 | a format is collected exactly when it is found in an extension that mentions "ml" |
| SearchNormalizer.FieldFormatTexts | product_scraper.py:590-593 | a format is collected exactly when it is found in the description or name field, when that field is present |
| SearchNormalizer.NonEmptyMembers | product_scraper.py:599 | the description filter keeps exactly the non-empty texts |
| SearchNormalizer.DescriptionsInOrder | product_scraper.py:540-556 | with every field present, descriptions are snippet, title, knowledge-graph text, description, name |
| SearchNormalizer.DescriptionsSkipEmpty | product_scraper.py:552-556 | missing snippet and title contribute no description |
| SearchNormalizer.PriceSources | product_scraper.py:563-587 | a price text is a euro amount found in the snippet, a detected price, original price or price with currency of either rich-snippet part, or an extension that contains '€' |
| SearchNormalizer.DetectedPriceListed | product_scraper.py:573-581 | a detected price is listed with " €", also with its currency, and an original price with " €" |
| SearchNormalizer.OriginalPriceAlone | product_scraper.py:578-581 | with only an original price, that price alone is listed |
| SearchNormalizer.FormatSources | product_scraper.py:567-595 | a format is found in the snippet (either pattern), the title, an extension mentioning "ml", or the description or name field |
| SearchNormalizer.ThumbnailHidesMainImages | product_scraper.py:559-603 | a result with a thumbnail contributes that thumbnail and no knowledge-graph images |
| Aggregator.QueryParts | product_scraper.py:807-809 | brand is the first word of the query; with one word the product is "unknown", with more its words are the query's other words, and with none both are "unknown" |
| Aggregator.QueryBrand | product_scraper.py:808 | the brand is one word: non-empty and without whitespace |
| Aggregator.QueryProduct | product_scraper.py:809 | the product name is non-empty and has no surrounding whitespace |
| Aggregator.BlankQuery | product_scraper.py:807-809 | a blank query gives brand and product "unknown" |
| Aggregator.GatherConcat | product_scraper.py:812-837 | gathering a field over two result lists is gathering each and concatenating |
| Aggregator.GatherMembers | product_scraper.py:812-837 | an item is gathered exactly when some bundle holds it in that field |
| Aggregator.JoinAppend | product_scraper.py:864 | joining one more description appends it after a single space |
| Aggregator.FetchAllLength | product_scraper.py:823-827 | at most one image per requested URL, and exactly one each when every fetch succeeds |
| Aggregator.PriceAmountsEmpty | product_scraper.py:840-850 | no amounts are read exactly when no price text has a digit |
| Aggregator.PriceAmountsNonNegative | product_scraper.py:840-850 | every amount read is non-negative |
| Aggregator.Min | product_scraper.py:876 | the minimum is one of the amounts and at most each of them |
| Aggregator.Max | product_scraper.py:876 | the maximum is one of the amounts and at least each of them |
| Aggregator.Mean | product_scraper.py:874 | the mean lies between the minimum and the maximum |
| Aggregator.SingleValueStats | product_scraper.py:874-876 | one amount is its own mean, minimum and maximum |
| Aggregator.Mode | product_scraper.py:878 | the common size is one of the sizes, occurs at least as often as any size, and no size first seen earlier occurs as often |
| Aggregator.ModeTie | product_scraper.py:878 | on a tie the size seen first wins |
| Aggregator.SearchProduct | product_scraper.py:800-897 | no record exactly when the search found nothing; otherwise every field of the record is the gathered, joined or computed value, and the image URLs requested are the gathered ones, each once |
| Aggregator.GatherField | product_scraper.py:812-837 | each gathering loop concatenates one field of every bundle |
| Aggregator.FetchImages | product_scraper.py:823-827 | the image loop keeps the successful fetches, numbered from 1 in URL order |
| Aggregator.ReadAmounts | product_scraper.py:840-850 | the amount loop reads one amount per price text that has a digit |
| Aggregator.ReadSizes | product_scraper.py:853-861 | the size loop reads one size per format in which `(\d+)\s*ml` matches, in order, and skips the others |
| Cascade.ExtractDynamicVariants | product_scraper.py:263-451 | the variants and the selectors tried are those of the data phase, the site phase and the fallback, in that order |
| Cascade.ExtractVariants | product_scraper.py:263-451 | every variant found, by any phase, has a non-empty size |
| Cascade.DataPhase | product_scraper.py:287-347 | the data-attribute selectors are tried in order until one yields a variant |
| Cascade.GenericPhase | product_scraper.py:350-422 | the site profile's selectors are tried in order until one yields a variant |
| Cascade.VisitElements | product_scraper.py:295-340 | the elements of a selector are read in order, each adding its variant or stopping the selector |
| Cascade.VisitOne | product_scraper.py:296-337 | one element gives a variant when its text is read and non-empty, with the first price the probes find |
| Cascade.ProbePrices | product_scraper.py:314-336 | the price selectors are probed in order: a timeout or a missing element passes on to the next, any other error gives the element up, and the first shown text that the price parser accepts gives the price |
| Cascade.Fallback | product_scraper.py:425-445 | the fallback tries the site's price selectors, then the data-* ones, and keeps the readable texts that mention "ml" and parse; a text that cannot be read ends that selector's element loop |
| Cascade.ReadPrices | product_scraper.py:430-442 | the element loop of one fallback selector gives a variant for each readable text that mentions "ml" and parses, in order, and stops at the first text that cannot be read |
| Cascade.ProbeFindsFirst | product_scraper.py:314-336 | a price comes from the first shown selector, and every earlier selector was passed over |
| Cascade.VisitElementsGrows | product_scraper.py:295-340 | the element loop only appends, at most one variant per element, each with a non-empty size; an abandoned selector adds nothing |
| Cascade.RecordedSizeNonEmpty | product_scraper.py:297-299 | a recorded variant has a non-empty size read from the element's text |
| Cascade.UnreadFirstElementAbandons | product_scraper.py:297-340 | when no text was read before, an unreadable first element abandons the rest of the selector |
| Cascade.UnreadLaterElementSkipped | product_scraper.py:297-340 | once a text was read, an unreadable element is only skipped |
| Cascade.DataPhaseShape | product_scraper.py:287-347 | the data phase tries only data-attribute selectors and returns exactly when it found a variant |
| Cascade.GenericPhaseShape | product_scraper.py:355-422 | the site phase tries a prefix of its selectors and stops right after the first that yields a variant |
| Cascade.ReadPricesMentionMl | product_scraper.py:430-442 | every fallback variant's size mentions "ml" |
| Cascade.NotLoadedGivesNothing | product_scraper.py:263-451 | a page that fails to load gives no variant and no selector tried |
| Cascade.DataVariantsReturnedFirst | product_scraper.py:342-343 | when the data phase finds variants, exactly those are returned and no other selector is tried |
| Cascade.UrlErrorGivesNothing | product_scraper.py:350-451 | when the domain cannot be parsed and the data phase found nothing, the result is empty |
| Cascade.GenericVariantsSkipFallback | product_scraper.py:350-425 | when the site's variant selectors give a variant, those variants and the selectors tried so far are the result, and no fallback selector was tried |
| Cascade.FallbackAfterEverySiteSelector | product_scraper.py:263-425 | a fallback selector is tried only when the page loaded, the data phase did not return, the site profile was found, and every one of its variant selectors was tried in order without giving a variant |
| UserInput.NormalizeText | product_scraper.py:705-724 | the text is lower-cased, split into words and each word capitalised unless it is a stop word |
| UserInput.NormalizeWords | product_scraper.py:717-722 | the word loop normalises every word in order |
| UserInput.NormalWordShape | product_scraper.py:717-722 | a stop word stays as it is, and another word gets an upper-case first letter with the rest unchanged |
| UserInput.NormalizeIdempotent | product_scraper.py:705-724 | normalising a normalised name changes nothing |
| Text.SplitWordsOfJoin | product_scraper.py:714-724 | joining words with spaces and splitting again gives the words back |
| UserInput.Normalized | product_scraper.py:705-724 | a normalised name has no surrounding whitespace, and its words are those of the stripped, lower-cased text with only their case changed |
| UserInput.ParseUserInput | product_scraper.py:726-760 | the entries are the brand/product pairs of the input, normalised |
| UserInput.GroupLines | product_scraper.py:735-758 | the line loop pairs each product line with the last brand header before it |
| UserInput.Flush | product_scraper.py:738-758 | the pending products are emitted with their brand, normalised |
| UserInput.ReadLines | product_scraper.py:733 | the lines are the stripped non-empty lines of the input |
| UserInput.InputLinesAreClean | product_scraper.py:733 | every kept line is non-empty, stripped and has no newline |
| UserInput.BlockEntries | product_scraper.py:735-758 | a header followed by product lines gives one entry per product, under that header's brand |
| UserInput.NoHeaderNoEntries | product_scraper.py:748 | product lines before any header are dropped |
| UserInput.Entries | product_scraper.py:735-758 | there are at most as many entries as lines; every entry has a brand, and its product is one of the lines |
| UserInput.CandidateInjective | product_scraper.py:611-613 | distinct counters give distinct file names |
| UserInput.UniqueFilename | product_scraper.py:608-615 | the name returned is not taken, and every candidate before it is |
| Catalog.NewVariant | shopify_handler.py:106-113 | a new variant has the data's title and price, the data's SKU or the empty one, and store-managed inventory starting at zero |
| Catalog.NewVariants | shopify_handler.py:104-115 | one new variant per variant data, in order |
| Catalog.Product.constructor | shopify_handler.py:96-102 | a new product has the given fields, the fixed product type and draft status |
| Catalog.Product.Update | shopify_handler.py:122-155 | each field given replaces the old one, and variants given are merged by title; nothing else changes |
| Catalog.Product.MergeVariants | shopify_handler.py:135-149 | the variants become the merge of the old ones with the data; other fields unchanged |
| Catalog.CreateProduct | shopify_handler.py:93-120 | no product exactly when title, vendor or tags are missing; otherwise a draft product with the data and its variants |
| Catalog.BuildVariants | shopify_handler.py:104-115 | the variant loop builds one variant per data entry |
| Catalog.NewVariantsMatch | shopify_handler.py:104-115 | the k-th new variant is built from the k-th data entry |
| Catalog.MergeKeepsExisting | shopify_handler.py:135-149 | merging never removes or reorders an existing variant and keeps its title and inventory settings, though its price and SKU may change; it adds at most one variant per data entry, each appended with store-managed inventory at zero |
| Catalog.MergeOneSlots | shopify_handler.py:137-149 | one merge step keeps every existing variant in its place with its title and inventory settings, appends at most the new variant built from the data, and adds exactly the data's title to the titles |
| Catalog.MergeOneFinds | shopify_handler.py:137-149 | after one merge step, the first variant with the data's title carries the data's price |
| Catalog.FirstWithTitle | shopify_handler.py:137 | the variant found is the first with the title; none is found only when no variant has it |
| Catalog.MergeTitles | shopify_handler.py:135-149 | the titles after a merge are the old titles plus the data's titles |
| Catalog.MergeKeepsTitlesUnique | shopify_handler.py:135-149 | merging keeps the variant titles unique |
| Catalog.LastPriceWins | shopify_handler.py:136-149 | after a merge, the variant of a title carries the price of the last data entry with that title |
| Catalog.HasMissingPriceExactly | shopify_handler.py:178-181 | when every price is readable, a product is flagged exactly when a variant has no price or a zero price |
| Catalog.HasMissingPrice | shopify_handler.py:178-181 | a product is flagged only when a variant has a missing price, the check fails only when a price cannot be read, and an unflagged product has every price readable and present |
| Catalog.WithoutPrices | shopify_handler.py:177-185 | the listing fails exactly when the check fails for some product |
| Catalog.GetProductsWithoutPrices | shopify_handler.py:171-187 | the filter keeps the flagged products in order, or fails when a price cannot be read |
| Catalog.NoneStaysNone | shopify_handler.py:177-187 | once a price cannot be read the whole listing fails |
| Catalog.WithoutPricesKeeps | shopify_handler.py:177-185 | a successful listing holds exactly the products with a missing price, in order |
| BrandInput.Classify | renderer.js:134-141 | a line is a header when it ends with ':'; a product line is non-empty and does not |
| BrandInput.GroupValid | renderer.js:133-143 | the grouping keeps the brand order without duplicates and in step with the brand map |
| BrandInput.LastHeader | renderer.js:137-141 | the last header line of the input, if any |
| BrandInput.RunSnoc | renderer.js:139-141 | a new product line extends the run after the last header |
| BrandInput.GroupMeans | renderer.js:133-143 | each brand is listed once, in order of first header, and holds the product lines after its last header, up to the next header |
| BrandInput.StepMeans | renderer.js:134-142 | one line keeps that reading true |
| BrandInput.NoHeaderNoBrands | renderer.js:140-141 | input without headers gives no brands |
| BrandInput.RunIsProducts | renderer.js:141 | every product listed under a brand is a product line of the input |
| BrandInput.ApplyLine | renderer.js:134-142 | one pass of the line loop keeps the grouping valid |
| BrandInput.GroupLines | renderer.js:133-143 | the line loop computes the grouping of the classified lines |
| Renderer.ParseInput | renderer.js:128-146 | the front end's brands are the grouping of the input lines, with JavaScript whitespace; order has no duplicates and matches the keys |
| Automation.ProcessInputParse | shopify_automation.py:137-149 | the driver's brands are the grouping of the stripped input's lines, with Python whitespace; order has no duplicates and matches the keys |
| Automation.UpdateExistingProduct | shopify_automation.py:177-198 | scrapes exactly when description, a price or images are missing; the update fills only what was missing and leaves the product unchanged otherwise |
| Automation.ImagesAloneNeverUpdate | shopify_automation.py:183-198 | missing images alone trigger a scrape but never an update |
| Automation.UpdateRequest | shopify_automation.py:186-194 | an update asks for the description exactly when it was missing and the scrape has a non-empty one, and for the variants likewise; it carries the scraped values, asks for nothing else, and is not sent empty |
| Automation.UpdateFillsWhatWasMissing | shopify_automation.py:186-197 | a description the update fills is non-empty, and variants it fills leave the product with at least one variant |
| Automation.BuildPayload | shopify_automation.py:524-530 | one variant entry per picked size, in order |
| Automation.Payload | shopify_automation.py:524-530 | one entry per picked size, the k-th built from the k-th |
| Automation.CreateVariants | shopify_automation.py:512-548 | an empty or missing selection is rejected; otherwise the picked variants are merged into the existing product or a new draft product is created with them |
| Automation.CreatedVariants | shopify_automation.py:541-547 | the created product's variants carry the picked labels, prices and SKUs |
| Automation.DistinctLabelsDistinctSkus | shopify_automation.py:529 | picked sizes with different labels get different SKUs |
| Automation.UpdatedHasPickedTitles | shopify_automation.py:524-546 | after the merge, every picked label is a variant title of the product |

## Left out

- Regular expressions: `\d`, `\w` and `\b` cover ASCII only, as does case-insensitive matching of "ml"; `lower`/`capitalize` change ASCII letters only. Python's Unicode digit and word classes are not part of this model. `\s`, `strip` and `split` follow Python's Unicode whitespace set.
- Amounts are exact reals. Float rounding and the rendering of numbers in `detected_extensions` are not modelled.
- `urlparse` is modelled for scheme, network location and delimiters only. Its NFKC checks are not modelled. Only a network location with exactly one of '[' and ']' is the `ValueError`; a bracketed host is accepted without the validation newer Pythons perform.
- The browser: DOM queries, waits, clicks, `select_option` and timeouts become a `Page` oracle that says which elements exist, what text they show and what a price selector shows after a click.
- Shopify and HTTP I/O become values and oracles:
  - `save`, `find` and sessions are not modelled;
  - `add_product_images` is not modelled, and a product's images are a `hasImages` flag;
  - image download and processing with PIL are a `fetch` oracle;
  - the SerpAPI request is not modelled; the model starts from the decoded response.
- Not part of this model:
  - the settings manager;
  - the user interface code in `main.js`, `index.js` and `settings.js`;
  - `analyze_product`;
  - `time.sleep`;
  - the site-specific extractors other than `_extract_google_variants`;
  - `scrape_product`, which is a parameter.
- The automation driver calls `ShopifyHandler` with arguments that do not match its constructor. The model takes a product object instead.
- Ordering: `list(set(...))` in the image and format collection has an order the language leaves open. The model keeps the first occurrence of each item and proves no duplicates and the same members, not a particular order. Object keys in `parseInput` are modelled in insertion order; JavaScript lists integer-like keys first.
- `skip_price` and `skip_variant` of `cerca_prodotto` are not modelled. `_create_shopify_product` is not modelled, and neither is the `shopify_product` field it fills in the record (product_scraper.py:867-880).
- Error paths left out:
  - the `KeyError` for variant data that lacks a title or price key;
  - exceptions raised by `update_product` after some fields were assigned;
  - handler exceptions that the automation driver turns into error lines.
- Variant objects are values. Aliasing between the product's variant list and objects held elsewhere is not modelled.
- Automation.UpdateExistingProduct: a price is "falsy" when it is absent or zero. The distinction between the string "0" and the number 0 is not modelled. A JSON null is treated as absent.
- Renderer.ParseInput and Automation.ProcessInputParse: the front end splits the raw input, while the driver strips the whole input first. The model states each separately and does not prove them equivalent.
- PriceText.ParsePrice: "1.234,50 €" gives None, while the aggregator's regex reads the same text as 1.234; neither reader yields 1234.50.
- Automation.CreateVariants: a JSON null title becomes "" rather than None, so the title None and the SKU "{title}-None" are not modelled. Sizes are text, so a numeric `size_ml` of 0, which is falsy and makes the SKU fall back to the title, is not modelled either.
