# Blog front end: layout, incremental loading, pagination and cards

This project models the core of a Next.js blog front end that renders posts from a WordPress
REST backend. It covers seven parts:

- **Masonry column pattern.** `getColSpan` maps a post's position in the grid to a column class
  through a ten-row table. Past the table it repeats a three-cell row.
- **Incremental loader.** The `BlogGrid` component holds the posts, the page cursor and a loading
  flag. When its sentinel element scrolls into view, it fetches the next page of nine posts and
  appends it.
- **Pagination strip.** It shows page 1, the last page and the pages next to the current one.
  It adds previous/next links, ellipses over gaps, and marks the active page.
- **Card data.** Each post is turned into a card: a featured image with a placeholder fallback,
  the first category term or "Uncategorized", a `/blog/<slug>` link, and the excerpt with HTML
  tags removed. The blog card, the related-posts list and the top-posts slider share this.
- **Top-posts slider.** It shows the first five posts one at a time. Its arrows move cyclically,
  its dots jump to a slide, and hovering an arrow pauses autoplay.
- **Category tiles.** The first eight categories, each tinted from an eight-colour palette.
- **"All Posts" route.** It reads `?page=` with JavaScript's `parseInt`, fetches twelve posts,
  renders the grid with infinite loading off, and builds the pagination links back into
  `/category?page=N`.

Modules, one per source file:

- `Wrappers` and `Posts` hold the shared records.
- `BlogCard`, `RelatedPosts`, `TopPostsSlider`, `BlogGrid`, `PaginationControls`,
  `CountrySelector` and `CategoryPage` model the components.

The stateful parts are classes. `TopPostsSlider.Slider` and `BlogGrid.Grid` have fields that the
component's `useState` hooks hold. The slider's arrow methods (`NextSlide`, `PrevSlide`) and the
grid's methods state their new state through a pure step function (`NextIndex`, `Intersect`,
`Complete`, `Sync`), and the lemmas are about those functions. `GoToSlide`, `MouseEnter` and
`MouseLeave` state their new state directly: `GoToSlide` sets the index and stops auto-play, and
the mouse handlers keep the index and only stop or restart auto-play.

Three behaviours of the code are worth stating plainly:

- The grid appends each loaded batch as delivered. It does not skip posts whose id is already
  shown (`BlogGrid.NoDeduplication`).
- New server-rendered posts replace the list but keep the page cursor and the loading flag.
  The cursor is not reset to 1 (`BlogGrid.Sync`).
- Past the table, the layout repeats the fixed row `[1, 1, 1]`, as the comments at
  components/blog-grid.tsx:105 and :129 say. The table's last row is `[1, 1, 1]` too, so the
  layout past the table continues that last row (`BlogGrid.RepeatsPastTable`).

## Model

| member | source | states |
|---|---|---|
| BlogCard.FeaturedImage | components/blog-card.tsx:12-26 | The image URL is never empty. It is the embedded media URL whenever that URL is present and non-empty. Anything other than the placeholder comes from the embedded media. A missing or empty URL gives "/placeholder.svg". |
| BlogCard.FindCategory | components/blog-card.tsx:14 | `find` on the first term group returns the index of the first term whose taxonomy is "category". No earlier term has that taxonomy. None means no term has it. |
| BlogCard.PrimaryCategory | components/blog-card.tsx:14 | The primary category is the first "category" term of the first term group: no term before it has that taxonomy. It is absent exactly when there is no embedded data, no term group, or no category term in the first group. |
| BlogCard.CategoryLabel | components/blog-card.tsx:34 | The badge is never empty. It is the primary category's name when that name is non-empty. It is "Uncategorized" when there is no primary category. Any other badge text is the category's name. |
| BlogCard.StripTags | components/blog-card.tsx:65 | `replace(/<[^>]*>/g, '')` never lengthens the text and adds no character that was not in it. With `StripTagsKeepsPlainPrefix`, `StripTagsDropsLeadingTag` and `StripTagsFixesTagFree` it is fixed on every string: text around tags is kept in order and only the tags go. |
| BlogCard.StripTagsKeepsPlainPrefix | components/blog-card.tsx:65 | Text before the first '<' is kept unchanged, in front of what the rest strips to. |
| BlogCard.StripTagsDropsLeadingTag | components/blog-card.tsx:65 | A '<' followed by a run without '>' and then a '>' is removed as one tag, up to the first '>', and stripping carries on after it. |
| BlogCard.StripTagsLeavesNoTag | components/blog-card.tsx:65 | After stripping, no '<' is followed later by a '>': no tag remains. |
| BlogCard.StripTagsFixesTagFree | components/blog-card.tsx:65 | Text without any '<' … '>' pair is left unchanged. |
| BlogCard.StripTagsIdempotent | components/blog-card.tsx:65 | Stripping twice gives the same text as stripping once. |
| BlogCard.StripTagsKeepsPlainText | components/blog-card.tsx:65 | Text without '<' passes through unchanged. |
| BlogCard.CardOf | components/blog-card.tsx:12-65 | The card links to "/blog/" followed by the slug. It shows the featured image and the category badge, both non-empty. It shows the post's title unchanged, and the stripped excerpt, no longer than the original and with no tag left in it. |
| RelatedPosts.RelatedCards | components/related-posts.tsx:12-61 | Nothing is rendered exactly when the list is empty. Otherwise there is one card per post, in order, each the card of its post. |
| RelatedPosts.RelatedIgnoresCurrentSlug | components/related-posts.tsx:12-23 | The rendering is the same whatever `currentSlug` is given. |
| RelatedPosts.CurrentPostNotFiltered | components/related-posts.tsx:23-34 | If the current post is in the list, a card linking to it is still rendered. |
| CountrySelector.TileOf | components/country-selector.tsx:36-59 | The tile's colour is a palette entry, entry `index` itself for the first eight positions. A description is shown exactly when it is non-empty, and then it is the category's description. |
| CountrySelector.Tiles | components/country-selector.tsx:35-36 | There are min(n, 8) tiles. Tile i is the tile of category i at position i. |
| CountrySelector.PaletteDistinct | components/country-selector.tsx:7-16 | The eight palette gradients are pairwise different. |
| CountrySelector.TileColoursDistinct | components/country-selector.tsx:35-36 | No two shown tiles share a colour. |
| CountrySelector.TileLinks | components/country-selector.tsx:36-53 | Tile i links to "/category/" followed by category i's slug, shows its name, and takes palette entry i. |
| TopPostsSlider.SliderPosts | components/top-posts-slider.tsx:17 | `slice(0, 5)`: the first min(n, 5) posts, as a prefix of the list. |
| TopPostsSlider.NextIndex | components/top-posts-slider.tsx:34-35 | `(prev + 1) % n` stays in range. It is i + 1 below the last slide and 0 from the last slide. |
| TopPostsSlider.PrevIndex | components/top-posts-slider.tsx:39-40 | `(prev - 1 + n) % n` stays in range. It is i - 1 above the first slide and n - 1 from the first slide. |
| TopPostsSlider.PrevAfterNext | components/top-posts-slider.tsx:34-42 | "Previous" undoes "next". |
| TopPostsSlider.NextAfterPrev | components/top-posts-slider.tsx:34-42 | "Next" undoes "previous". |
| TopPostsSlider.NextTimesAdvances | components/top-posts-slider.tsx:34-35 | Up to n presses of "next" advance the index by the number of presses, wrapping past the last slide at most once. |
| TopPostsSlider.FullTurnIsIdentity | components/top-posts-slider.tsx:34-35 | n presses of "next" on n slides return to the starting slide. |
| TopPostsSlider.Slider.constructor | components/top-posts-slider.tsx:13-17 | The first render holds the first five posts, shows slide 0, and has autoplay on. |
| TopPostsSlider.Slider.NextSlide | components/top-posts-slider.tsx:34-37 | The index becomes `NextIndex` of the old index and autoplay stops. |
| TopPostsSlider.Slider.PrevSlide | components/top-posts-slider.tsx:39-42 | The index becomes `PrevIndex` of the old index and autoplay stops. |
| TopPostsSlider.Slider.GoToSlide | components/top-posts-slider.tsx:29-32 | A dot sets the index to its slide and stops autoplay. |
| TopPostsSlider.Slider.MouseEnter | components/top-posts-slider.tsx:93 | Hovering an arrow pauses autoplay and keeps the slide. |
| TopPostsSlider.Slider.MouseLeave | components/top-posts-slider.tsx:94 | Leaving an arrow resumes autoplay and keeps the slide. |
| TopPostsSlider.Slider.CurrentSlide | components/top-posts-slider.tsx:44-85 | Nothing is shown exactly when there are no slides. Otherwise the shown card is the card of the current post. |
| TopPostsSlider.NextThenPrevious | components/top-posts-slider.tsx:34-42 | Pressing "next" then "previous" brings back the same slide and card. |
| BlogGrid.CellsValue | components/blog-grid.tsx:106-117 | The pattern table, flattened, is the exact 30-cell sequence of widths. |
| BlogGrid.TableHasThirtyCells | components/blog-grid.tsx:106-117 | The table has 30 cells. |
| BlogGrid.WideExactlyAt | components/blog-grid.tsx:104-133 | A post gets "md:col-span-2" exactly at positions 0, 1, 8 and 18. Every other position gets "md:col-span-1". |
| BlogGrid.RepeatsPastTable | components/blog-grid.tsx:129-132 | Past the table the class follows the final row cyclically, has period 3, and is always "md:col-span-1". |
| BlogGrid.GetColSpan | components/blog-grid.tsx:104-133 | The loop over the table returns the class of the flattened table cell at the index. Past the table it returns the final-row class. |
| BlogGrid.CategoryFilter | components/blog-grid.tsx:43-46 | A `category` filter is sent exactly when the category id is truthy, and then it is that id. |
| BlogGrid.Intersect | components/blog-grid.tsx:37-88 | A request is issued exactly when the guard holds: infinite loading enabled, intersecting, not loading, a truthy total, and page below it. The request asks for page + 1 with 9 posts and the category filter, and the state turns to loading for page + 1. Otherwise the state is unchanged. |
| BlogGrid.Complete | components/blog-grid.tsx:50-60 | A success appends the batch to the current posts and moves the cursor to the requested page. A failure keeps posts and cursor. Loading ends either way. |
| BlogGrid.Sync | components/blog-grid.tsx:26-28 | New server posts replace the list. Cursor and loading flag are kept. |
| BlogGrid.SuccessfulLoad | components/blog-grid.tsx:37-61 | After one successful load the old posts stay in front, the batch follows as delivered, the cursor advances by one, and loading ends. |
| BlogGrid.NoDeduplication | components/blog-grid.tsx:50-54 | A batch whose posts are all already shown still grows the list by its full length. |
| BlogGrid.RunKeepsCursorBounded | components/blog-grid.tsx:20-102 | Over any run of events the cursor never decreases and stays consistent with the running load. It never passes the total page count when it started within it. |
| BlogGrid.ExhaustedNeverLoads | components/blog-grid.tsx:80-93 | Once the cursor reaches the total, no intersection issues a request. |
| BlogGrid.NoOverlappingLoads | components/blog-grid.tsx:80-88 | While a load runs, intersections issue nothing. |
| BlogGrid.Grid.constructor | components/blog-grid.tsx:20-22 | The first render holds the server posts, page 1, and not loading. |
| BlogGrid.Grid.OnIntersection | components/blog-grid.tsx:37-88 | The observer callback's new state and request are those of `Intersect`. |
| BlogGrid.Grid.CompleteLoad | components/blog-grid.tsx:50-60 | The settled load's new state is that of `Complete`, and the cursor does not decrease. |
| BlogGrid.Grid.ReceiveProps | components/blog-grid.tsx:26-28 | A re-render with new props gives the state of `Sync`. |
| PaginationControls.PagesToShow | components/pagination-controls.tsx:26-31 | The shown pages are strictly increasing. A page is shown exactly when it is in 1..total and is 1, the last page, or within one of the current page. |
| PaginationControls.PageEntries | components/pagination-controls.tsx:43-56 | One link per shown page. |
| PaginationControls.Controls | components/pagination-controls.tsx:24-64 | Nothing is rendered exactly when totalPages <= 1. |
| PaginationControls.AtMostFivePages | components/pagination-controls.tsx:26-31 | At most five page numbers are shown. |
| PaginationControls.ControlsLayout | components/pagination-controls.tsx:37-64 | "Previous" comes first exactly when current > 1 and links to current - 1. "Next" comes last exactly when current < total and links to current + 1. Everything between is a page link, and the linked pages are the shown pages in order. |
| PaginationControls.ControlOrigin | components/pagination-controls.tsx:37-64 | Every page link is the entry of the shown page at its position, offset by the "previous" link. |
| PaginationControls.PageLinkTargets | components/pagination-controls.tsx:43-56 | Every page link is for a page in 1..total and links to `buildHref` of that page. It is active exactly when it is the current page. |
| PaginationControls.OneActiveLink | components/pagination-controls.tsx:43-56 | Some link is active exactly when the current page is in 1..total, and at most one link is active. |
| PaginationControls.EllipsisMarksHiddenPages | components/pagination-controls.tsx:43-56 | An ellipsis precedes a shown page exactly when some hidden page lies between it and the previous shown page. It precedes only current - 1 or the last page. |
| PaginationControls.ShownForFiveOfTen | components/pagination-controls.tsx:26-31 | On page 5 of 10 the pages shown are 1, 4, 5, 6, 10. |
| PaginationControls.FiveOfTen | components/pagination-controls.tsx:37-64 | The full strip on page 5 of 10: previous, 1, ellipsis 4, 5 active, 6, ellipsis 10, next. |
| PaginationControls.EdgePages | components/pagination-controls.tsx:24-64 | A single page renders nothing. The first page has no "previous" and the last page has no "next". |
| CategoryPage.TrimStart | app/category/page.tsx:14 | The trimmed string is a suffix of the input that does not start with white space. |
| CategoryPage.TrimStartDropsSpace | app/category/page.tsx:14 | Every character `TrimStart` drops is white space, so the trimmed string is the input less its leading white space. |
| CategoryPage.DigitPrefix | app/category/page.tsx:14 | The digit run is a prefix of the input, all digits, and maximal. |
| CategoryPage.TrimStartSkipsSpace | app/category/page.tsx:14 | Leading white space of any length leaves the same trimmed string as none. |
| CategoryPage.ParseIntSkipsSpace | app/category/page.tsx:14 | `parseInt` of white space followed by s is `parseInt` of s. |
| CategoryPage.DigitPrefixOfRun | app/category/page.tsx:14 | A digit run followed by a non-digit (or nothing) is exactly the digit prefix of the whole. |
| CategoryPage.ParseIntDigits | app/category/page.tsx:14 | `parseInt` of a non-empty digit run followed by a non-digit is the value of the run; the rest is ignored. |
| CategoryPage.ParseIntMinus | app/category/page.tsx:14 | `parseInt` of a minus sign followed by a string whose unsigned reading is v is -v. |
| CategoryPage.ParseIntNegative | app/category/page.tsx:14 | `parseInt` of "-", a non-empty digit run and a rest not starting with a digit is minus the value of the run. |
| CategoryPage.ParsePage | app/category/page.tsx:14 | The page is never 0. A missing parameter, or one whose `parseInt` is NaN or 0, gives page 1. Any other parse is passed through unclamped, negatives included. |
| CategoryPage.Decimal | app/category/page.tsx:41-45 | `String(n)` is a non-empty run of digits without leading zero, denoting n. |
| CategoryPage.ParseIntDecimal | app/category/page.tsx:14-45 | `parseInt(String(n), 10)` is n. |
| CategoryPage.BuildHref | app/category/page.tsx:41-45 | Pages up to 1 link to "/category". Pages above 1 link to "/category?page=" followed by the page number. |
| CategoryPage.LinkRoundTrip | app/category/page.tsx:14-45 | Reading back the parameter `buildHref(p)` sets gives p for p > 1, and 1 otherwise. |
| CategoryPage.PageLinksNavigateToTheirPage | app/category/page.tsx:38-46 | Every page link of the route's strip leads to a URL that reads back as the page it shows. |
| CategoryPage.ParsePageAbsent | app/category/page.tsx:14 | A missing or empty parameter gives page 1. |
| CategoryPage.ParsePageZero | app/category/page.tsx:14 | "0" parses to 0, which is falsy, so the page is 1. |
| CategoryPage.ParsePageNotANumber | app/category/page.tsx:14 | "abc" parses to NaN, so the page is 1. |
| CategoryPage.ParsePageSkipsSpace | app/category/page.tsx:14 | " 7" gives page 7. |
| CategoryPage.ParsePageIgnoresTrailing | app/category/page.tsx:14 | "2abc" gives page 2. |
| CategoryPage.ParsePageNegative | app/category/page.tsx:14 | "-3" gives page -3: nothing bounds the page from below. |
| CategoryPage.AllPostsPage | app/category/page.tsx:8-46 | The route fetches the parsed page with 12 posts and no category. The grid gets the fetched posts and total with infinite loading off. The strip gets the same page and total with the route's `buildHref`. |
| CategoryPage.AllPostsGridNeverLoads | app/category/page.tsx:36 | The route's grid never issues a continuation request. |

## Left out

- The fetch client (`getPostsPaginated`, `getAllCategories`) is left out. Its results are parameters: a batch or failure for the grid, a function from request to envelope for the route, and a list for the category tiles.
- The browser's `IntersectionObserver` is left out. Its callbacks are the `intersecting` argument. The threshold, the root margin and the null check on the sentinel ref are not modelled.
- The grid's async load is split into two events: start (`OnIntersection`) and settle (`CompleteLoad`). React's batching, effect re-subscription and the exact timing of renders are not modelled.
- BlogGrid.Grid.ReceiveProps: the sync effect runs when the `posts` array reference changes. The model applies it on every new set of props, because array identity has no counterpart here.
- The slider's five-second autoplay timer (`setInterval`) is left out, because a clock is outside the model. Its tick would be the same step as `NextIndex`.
- TopPostsSlider.Slider: modelled for one fixed `posts` list. The source recomputes the five slides from the `posts` prop on every render without resetting the index. A re-render with a shorter list is not modelled: it would leave the index out of range.
- TopPostsSlider.Slider.NextSlide: requires at least one slide, because the arrow buttons are only rendered then. With no slides, JavaScript's `% 0` would set the index to NaN.
- TopPostsSlider.Slider.PrevSlide: requires at least one slide, for the same reason.
- The dots' active styling and all CSS class names other than the column spans are left out.
- The post date and its `toLocaleDateString` formatting in the blog card are left out. Locale formatting is outside the model.
- The blog card's `featured` flag only changes CSS classes and is left out.
- `console.log` / `console.error` output is left out.
- CategoryPage.ParseInt: the result is the exact integer of the digit run. JavaScript's `parseInt` returns a double, which rounds numbers above 2^53. The model does not capture that rounding.
- CategoryPage.Decimal: covers `String(p)` only for natural numbers, which is all `buildHref` reaches with p > 1. JavaScript prints numbers from 1e21 up in exponent notation and rounds those above 2^53, so `Decimal` and `CategoryPage.LinkRoundTrip` match the source only for pages below 2^53.
- URL encoding of `URLSearchParams` is not modelled, because page numbers contain only digits.
- The category route variant (app/category/[slug]/page.tsx), the blog post page, the home page, the header, footer, share buttons and the generic `ui/pagination` primitives are not part of this model.
- Server configuration (`next.config.ts`, `instrumentation.ts`, `lib/configure-undici.ts`) is not part of this model.
