# Festival of Work exhibitor scraper — extraction core in Dafny

This project models the extraction logic of the exhibitor scraper (`src/lib/Scraper.ts`):

- **Listing page** (`processListPage`): walk the `gdlr-frame` containers in document order, keep the truthy
  `href` of each container's first anchor, and add one to the instance counter `itemsWithNoUrl` for every
  container without any anchor. A container whose first anchor has a null or empty `href` adds neither.
- **Detail page** (`parseName`, `getChildLink`): the name is the text of the first `gdlr-page-title`
  element, or `""`; each link is the `href` of the first anchor inside the first `portfolio-clients` /
  `portfolio-website` element, or `""`. When that element exists but holds no anchor, the source reads
  `getAttribute` of `undefined` and faults; the model returns `Failure(NoAnchorInRegion(className))` there.
- **Record assembly** (the synchronous body of `getCompanyDetails`): build a `Company` from the three
  extractions and append it to the `companies` field; on a fault nothing is appended.

Files:

- `Wrappers.dfy`: `Option` (JavaScript `null`/`undefined`) and `Result` (a value or a fault).
- `Dom.dfy`: what the scraper sees of a parsed page. A `Document` is its elements in document order. An
  `Element` keeps its classes, its `textContent` and its descendant anchors in order. An `Anchor` keeps its
  `href` attribute. `getElementsByClassName` is an in-order filter, and `[0]` of it is `FirstByClass`.
- `Scraper.dfy`: the pure extraction functions with their lemmas, and the class `Scraper` with the
  fields `itemsWithNoUrl` and `companies` and the methods `ProcessListPage` and `GetCompanyDetails`.

A defensive `getChildLink` would return `""` for a region without an anchor. Line 129 instead dereferences
the missing anchor, and the model exposes that fault as a `Failure` result.

## Model

| member | source | states |
|---|---|---|
| Dom.ElementsByClassName | src/lib/Scraper.ts:45 | the matches are elements of the document carrying the class, and every element carrying it is among them |
| Dom.ElementsByClassNameHead | src/lib/Scraper.ts:111 | the match list is empty exactly when no element has the class; otherwise its first item is the element at the first index with the class |
| Dom.FirstByClass | src/lib/Scraper.ts:126 | `getElementsByClassName(c)[0]` is absent exactly when no element has class `c`, and otherwise is the first element with `c` in document order |
| Scraper.ListItems | src/lib/Scraper.ts:45 | the listing's containers are elements of the page carrying `gdlr-frame`, and every such element is among them |
| Scraper.NoAnchorCount | src/lib/Scraper.ts:60-62 | the counter increase is at most the number of containers |
| Scraper.NoAnchorCountExtremes | src/lib/Scraper.ts:50-62 | the counter increase is zero exactly when every container has an anchor, and equals the container count exactly when none has one |
| Scraper.ListUrls | src/lib/Scraper.ts:48-58 | at most one URL per container, and no URL is empty |
| Scraper.ListUrlsAppend | src/lib/Scraper.ts:48-58 | the URLs of two container lists in sequence are the URLs of the first followed by those of the second: each container is handled on its own, in order |
| Scraper.NoAnchorCountAppend | src/lib/Scraper.ts:60-62 | the anchorless count of two container lists in sequence is the sum of their counts |
| Scraper.ListingStep | src/lib/Scraper.ts:49-62 | one more container extends the URLs by what it yields and the counter by one exactly when it has no anchor |
| Scraper.UrlPositionsSound | src/lib/Scraper.ts:48-58 | the k-th URL is the truthy first-anchor `href` of the container at the k-th URL position: no other strings appear |
| Scraper.UrlPositionsIncreasing | src/lib/Scraper.ts:48 | URL positions are strictly increasing container indices, so URLs come out in container order |
| Scraper.UrlPositionsComplete | src/lib/Scraper.ts:52-58 | every container whose first anchor has a non-empty `href` is among the URL positions: none is dropped |
| Scraper.ListingPartition | src/lib/Scraper.ts:48-63 | every container is exactly one of URL-yielding, anchorless, or first-anchor-without-`href`; URLs plus the counter increase never exceed the number of containers |
| Scraper.OnlyFirstAnchorMatters | src/lib/Scraper.ts:50-62 | listings whose containers agree on their first anchors yield the same URLs and the same anchorless count, whatever later anchors hold |
| Scraper.NoAnchorCountIsCardinality | src/lib/Scraper.ts:52-62 | the counter increase equals the number of container positions with no anchor at all |
| Scraper.FullyLinkedListing | src/lib/Scraper.ts:48-63 | when each container has exactly one anchor with a non-empty `href`, the URLs are those hrefs, one per container, and the counter does not move |
| Scraper.AcmeListingExample | src/lib/Scraper.ts:42-66 | a listing with one linked and one bare container yields `["/exhibitor/acme"]` and counts one anchorless entry |
| Scraper.AcmeDetailExample | src/lib/Scraper.ts:110-137 | a detail page with title, e-mail and website regions yields "Acme Co", the `mailto:` link and the website link |
| Scraper.ParseName | src/lib/Scraper.ts:110-118 | a non-empty result is the text of the first `gdlr-page-title` element; `""` means there is no such element or its text is null or empty |
| Scraper.GetChildLink | src/lib/Scraper.ts:125-137 | faults exactly when the first element with the class holds no anchor; `""` when no element has the class or the first anchor's `href` is null or empty; the first anchor's `href` whenever it is non-empty, and a non-empty result is always that `href` |
| Scraper.Scraper.constructor | src/lib/Scraper.ts:16-17 | a new scraper has counted no anchorless entries and holds no companies |
| Scraper.Scraper.ProcessListPage | src/lib/Scraper.ts:42-66 | returns the URLs of the listing's containers (as `ListUrls`) and adds the anchorless count to the counter without resetting it; `companies` is untouched |
| Scraper.Scraper.GetCompanyDetails | src/lib/Scraper.ts:85-104 | succeeds exactly when neither link region faults; then appends exactly one `Company(ParseName, e-mail link, website link)` after the earlier entries; on a fault appends nothing and reports the e-mail region's fault first |

## Left out

- Fetching pages (`getContent` in `processSite` and `getCompanyDetails`): network I/O. `./GetContent` is not part of this model. Each method takes the already-parsed `Document` as a parameter, so a failed fetch, and `html.toString()` on a missing body, are not modelled.
- JSDOM parsing and the query internals: a foreign library. They are replaced by the abstract `Document`, `Element` and `Anchor` values. An anchor is kept only as its `href`, so the model cannot express an anchor that itself carries one of the queried classes.
- `processCompanyUrls` and `Promise.all`: concurrent fan-out. The order in which `companies` fills depends on fetch completion order, and one faulting page rejects the whole `Promise.all`.
- `exportDataToCSV`: it delegates to `csv-stringify` and `fs.writeFile` (a foreign library plus I/O), and its callbacks only log.
- `processSite` orchestration, `console.log` diagnostics, and the `url` and `outputFile` fields, which only those use.
- `itemsWithNoUrl` is a JavaScript number (a double). The model uses an unbounded `nat` and ignores loss of precision above 2^53 increments.
- `Company` is an object in the source. It is pushed by reference and also returned, but nothing mutates it after the push. The model treats it as a value.
