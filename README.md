# Zaujain catalogue: gallery state machine, display rules and backend query logic

Zaujain is a catalogue of wedding-invitation card designs. It has a React front end and a
Django REST backend. Almost all of it is markup, styling, animation and HTTP plumbing. This
project models the parts that have logic and proves properties of them in Dafny:

- **The product gallery** (`frontend/src/App.jsx`, module `Gallery`). `ProductPageLayout`
  keeps the modal session `{isOpen, images, initialIndex}`. `ImageCarouselModal` keeps
  `currentIndex` and moves it with circular next/previous arithmetic, from buttons and
  from the arrow and Escape keys. The two React state holders are joined into one class,
  `Gallery.GalleryController`, with the fields `isOpen`, `images` and `currentIndex`. Each
  of its methods is proved against a function on the value type `Session`: `OpenSession`,
  `NextSession`, `PrevSession`, `Dispatch` (the key handler) and `CardClick` (the card's
  click guard). The lemmas about those functions carry the properties:
  - next and previous are inverses and wrap at both ends;
  - pressing either arrow once per photo comes back to the starting photo;
  - a card without photos never opens the gallery;
  - every reachable open session points at one of its photos;
  - a closed gallery ignores every key.
- **Card and footer display rules** (`frontend/src/App.jsx`, module `Storefront`): the cover
  image, the image-count badge, the 100-character description preview and the digits-only
  WhatsApp number.
- **Product list filters and the site configuration** (`backend/app/views.py`, module
  `Views`). `get_queryset` is a function over the product table. The featured-flag test
  is characterised exactly. `SiteConfigurationViewSet.list` is a method on a class that
  holds the configuration table.
- **Model-level defaults** (`backend/app/models.py`, module `Models`): `Category.save`
  fills in a blank slug, `Product.get_cover_image` returns the first image or `None`, and
  `Meta.ordering` puts the newest product first.

Module `Sequences` holds the order-preserving `Filter` used by both query filters and by the
digit filter. It also holds the `IsSubsequence` relation and the lemmas about both: filter
results are subsequences, elements are kept with their multiplicity, filtering is
idempotent, it distributes over concatenation, and two filters compose into one. Module
`Wrappers` holds `Option`.

Modelling decisions:
- A database table is a sequence of rows in primary-key order. `objects.first()` on a model
  without `ordering` is the row with the lowest key, which is the head of the sequence.
- `slugify` is passed to `Category.Save` as a function parameter, so nothing is assumed
  about it.
- `created_at` is an integer timestamp. `Meta.ordering` is modelled by a stable insertion
  sort (`Models.OrderedByNewest`). Django leaves the order of equal timestamps to the
  database. The model keeps table order, and the lemmas only use "newest first" and "same
  multiset".
- JavaScript `%` truncates, while Dafny's is Euclidean. In `nextImage` and `prevImage` both
  operands are never negative, and there the two agree.
- One might expect opening the gallery to require a non-empty image list and an index in
  range. The code's `openModal` checks nothing (App.jsx:251), so `GalleryController.Open`
  takes any arguments. Its contract says the new session is valid exactly when the index is
  in range. The only caller, the card click, always meets that condition (`CardClick`).
- Conceptually the gallery has one current index. The code keeps `initialIndex` in the
  page and `currentIndex` in the modal (App.jsx:29), and the modal is created fresh at every
  open. The model joins them into one field. This behaves like the code for every click
  that can happen: while the gallery is open, the fixed backdrop (App.jsx:42) covers the
  cards, so a card is clicked only while the gallery is closed. The model also defines a
  click on an open session, and there it resets the index to 0. The code would keep the
  mounted modal's own index instead, so from that unreachable state the two differ.
- The configuration table keeps its primary keys in increasing order, all below the key
  the next insert gets (`ConfigurationStore.Valid`). That is what makes the head of the
  sequence the row `objects.first()` returns, and it makes every created key fresh.

## Model

| member | source | states |
|---|---|---|
| Sequences.Filter | backend/app/views.py:25 | the order-preserving filter behind both `.filter()` steps and the digit-deleting `replace`: its result is no longer than the input, and holds only elements of the input that pass the test |
| Gallery.NextIndex | frontend/src/App.jsx:39 | for `n` photos, an index in `[0, n)` goes to an index in `[0, n)`: the next one, or 0 from the last |
| Gallery.PrevIndex | frontend/src/App.jsx:40 | an index in `[0, n)` goes to an index in `[0, n)`: the previous one, or `n-1` from 0 |
| Gallery.NextSession | frontend/src/App.jsx:39 | stepping forward keeps the gallery open on the same photos with a valid index |
| Gallery.PrevSession | frontend/src/App.jsx:40 | stepping back keeps the gallery open on the same photos with a valid index |
| Gallery.NextPrevInverse | frontend/src/App.jsx:39-40 | previous undoes next and next undoes previous, for every valid open session |
| Gallery.Wraparound | frontend/src/App.jsx:39-40 | next from the last photo gives index 0; previous from the first gives the last index |
| Gallery.OpenSession | frontend/src/App.jsx:251 | `openModal(images, i)` installs an open session on `images` at `i`, valid exactly when `0 <= i < \|images\|` |
| Gallery.CurrentImage | frontend/src/App.jsx:256 | a photo is shown exactly while the gallery is open, and it is one of the session's photos |
| Gallery.Dispatch | frontend/src/App.jsx:31-35 | ArrowRight steps forward, ArrowLeft back, Escape closes; any other key, or any key while closed, changes nothing; validity is preserved |
| Gallery.CardClick | frontend/src/App.jsx:71 | a card with photos opens the gallery on them at index 0; a card without photos leaves the state unchanged; every session opened from a card is non-empty and valid |
| Gallery.Run | frontend/src/App.jsx:30-38 | any sequence of key presses keeps the session valid, and never opens or changes the photos of a session |
| Gallery.RunSteps | frontend/src/App.jsx:30-38 | after several key presses, the last key acts on the state the earlier ones left |
| Gallery.ArrowsCancel | frontend/src/App.jsx:32-33 | right then left, or left then right, returns to the same session |
| Gallery.RunRight | frontend/src/App.jsx:39 | `k` right arrows advance the index by `k` modulo the number of photos |
| Gallery.RunLeft | frontend/src/App.jsx:40 | `k` left arrows move the index back by `k` modulo the number of photos |
| Gallery.FullCircleRight | frontend/src/App.jsx:39 | as many right arrows as there are photos return to the starting session |
| Gallery.FullCircleLeft | frontend/src/App.jsx:40 | as many left arrows as there are photos return to the starting session |
| Gallery.ClosedIgnoresKeys | frontend/src/App.jsx:256 | from the closed session no key sequence opens the gallery or changes the state |
| Gallery.CloseIdempotent | frontend/src/App.jsx:252 | Escape twice equals Escape once, and Escape on an open gallery gives the closed, empty session |
| Gallery.CoverIsFirstShown | frontend/src/App.jsx:65-71 | clicking a card with photos shows first the photo used as its cover |
| Gallery.ThreePhotoWalkthrough | frontend/src/App.jsx:29-40 | photos A, B, C: the click shows A, two right arrows show C, a third wraps to A, and Escape leaves nothing shown |
| Gallery.GalleryController.constructor | frontend/src/App.jsx:250 | the page starts with the closed session `{false, [], 0}` |
| Gallery.GalleryController.Open | frontend/src/App.jsx:251 | the state becomes `OpenSession(images, index)`; the invariant holds exactly when the index is in range |
| Gallery.GalleryController.Close | frontend/src/App.jsx:252 | the state becomes `{false, [], 0}` from any state, so closing twice equals closing once |
| Gallery.GalleryController.Next | frontend/src/App.jsx:39 | the state becomes `NextSession` of the old state |
| Gallery.GalleryController.Prev | frontend/src/App.jsx:40 | the state becomes `PrevSession` of the old state |
| Gallery.GalleryController.HandleKey | frontend/src/App.jsx:31-35 | the state becomes `Dispatch(old state, key)` and the invariant is kept |
| Gallery.GalleryController.ClickCard | frontend/src/App.jsx:71 | the state becomes `CardClick(old state, product)` |
| Gallery.Walkthrough | frontend/src/App.jsx:29-40 | driven through the controller's methods, the three-photo walkthrough shows A after the wrap and nothing after Escape |
| Storefront.HasImages | frontend/src/App.jsx:71 | the guard `product.images && product.images.length > 0`: a product whose image list is missing or empty fails it |
| Storefront.IsAsciiDigit | frontend/src/App.jsx:187 | the character class `[0-9]`: exactly the ten characters "0123456789" |
| Storefront.CoverImage | frontend/src/App.jsx:65 | the cover is the first image's URL when the product has images, otherwise the fixed placeholder |
| Storefront.CountBadge | frontend/src/App.jsx:75-77 | the badge appears exactly when the product has more than one image, and shows their number |
| Storefront.BadgeHasCover | frontend/src/App.jsx:65-75 | a card with a badge has a real cover, not the placeholder |
| Storefront.DescriptionPreview | frontend/src/App.jsx:83 | no description gives ""; up to 100 characters are shown whole; a longer one gives its first 100 characters followed by "..." |
| Storefront.DescriptionPreviewBounds | frontend/src/App.jsx:83 | the preview has at most 103 characters and starts with the first `min(100, len)` characters of the description |
| Storefront.WhatsAppNumber | frontend/src/App.jsx:187 | the link number has only the characters 0-9, and a missing number gives "" |
| Storefront.WhatsAppNumberKeepsDigits | frontend/src/App.jsx:187 | the link number is a subsequence of the configured number, with every digit kept as often as it occurs and every other character removed |
| Storefront.WhatsAppNumberOfDigits | frontend/src/App.jsx:187 | a digits-only number is used unchanged, and filtering is idempotent |
| Storefront.WhatsAppNumberConcat | frontend/src/App.jsx:187 | the filter distributes over concatenation, so separators between digit groups do not matter |
| Views.Lower | backend/app/views.py:28 | lower-casing keeps the length and lower-cases each character |
| Views.FeaturedFlagSpellings | backend/app/views.py:28 | the featured filter is switched on exactly by "1" and by "true" in any mix of letter cases |
| Views.FeaturedFlagExamples | backend/app/views.py:27-29 | "true", "TRUE", "True" and "1" switch the filter on; "false", "yes", "0", "" and " true" do not |
| Views.FeaturedFlagSet | backend/app/views.py:28 | the featured test `is_featured.lower() in ['true', '1']`; a value that passes has length 4 or 1 |
| Views.FeaturedRequested | backend/app/views.py:27-28 | the featured filter is requested only when the parameter is present (`is not None`) and reads as true |
| Views.InRequestedCategory | backend/app/views.py:23-24 | without a `category` parameter every product passes; with one, exactly the products whose category slug equals it |
| Views.GetQueryset | backend/app/views.py:20-31 | every listed product is in the table and matches the request's filters |
| Views.ByCategory | backend/app/views.py:23-25 | with a `category` parameter, every product kept is in that category |
| Views.ByFeatured | backend/app/views.py:27-29 | when `featured` reads as true, every product kept is featured |
| Views.ByCategoryIsFilter | backend/app/views.py:23-25 | the category step is the filter "in the requested category, if any" |
| Views.ByFeaturedIsFilter | backend/app/views.py:27-29 | the featured step is the filter "featured, if requested" |
| Views.FilterKeepsNewestFirst | backend/app/models.py:43 | filtering a newest-first list keeps it newest first |
| Views.GetQuerysetIsFilter | backend/app/views.py:20-31 | the two filters combine into one filter by the conjunction `Matches` over the ordered table |
| Views.GetQuerysetSpec | backend/app/views.py:20-31 | the result is an order-preserving subsequence of the ordered table, newest first, holding each matching product as often as the table does and no other |
| Views.NoFiltersListsAll | backend/app/views.py:21-31 | without `category` and without a true `featured`, every product is listed in default order |
| Views.CategoryFilters | backend/app/views.py:23-25 | with a `category` parameter, even an empty one, a product is listed if and only if it is in the table, has that slug and passes the featured test |
| Views.FeaturedIgnoredUnlessTrue | backend/app/views.py:27-29 | a `featured` value that does not read as true lists the same products as no `featured` parameter |
| Views.ListOutcome | backend/app/views.py:6-11 | an existing first row is returned and the table is unchanged; on an empty table exactly one default row, named "Zaujain Nikah Point", is created and returned |
| Views.ListIsStable | backend/app/views.py:7-9 | a second `list` returns the same configuration and creates nothing |
| Views.ConfigurationStore.First | backend/app/views.py:7 | on a table whose keys are in order, `first()` is `None` exactly when the table is empty, and otherwise a row of the table whose key is the lowest |
| Views.ConfigurationStore.Create | backend/app/views.py:9 | `create()` appends one default row whose key no existing row has, and keeps the keys in order |
| Views.ConfigurationStore.List | backend/app/views.py:6-11 | the answer and the new table are `ListOutcome` of the old table, the key counter advances only when a row was created, and the keys stay in order |
| Views.ListTwice | backend/app/views.py:6-11 | two requests in a row answer with the same configuration, and the table then holds it first |
| Models.DefaultConfiguration | backend/app/models.py:7-14 | a created configuration has site name "Zaujain Nikah Point", no logo and blank contact fields |
| Models.Category.Save | backend/app/models.py:26-28 | the name is kept; the slug becomes `SavedSlug` of the old slug |
| Models.SavedSlug | backend/app/models.py:27 | a blank slug becomes `slugify(name)`; a non-blank slug is kept unchanged |
| Models.SaveIdempotent | backend/app/models.py:26-28 | saving a category twice gives the slug that saving once gives |
| Models.GetCoverImage | backend/app/models.py:40-42 | `None` exactly when the product has no images, otherwise the first image's URL |
| Models.NewestFirst | backend/app/models.py:43 | `ordering = ['-created_at']`: no product comes after one that is older, so neighbouring products are in non-increasing `created_at` order |
| Models.InsertByNewest | backend/app/models.py:43 | inserting into a newest-first list keeps it newest first and adds exactly the one product |
| Models.OrderedByNewest | backend/app/models.py:43 | the default ordering is newest `created_at` first and is a permutation of the table |

## Left out

- Rendering, Tailwind classes, framer-motion animations and `AnimatePresence` are presentation only.
- Adding and removing the keydown listener, and re-adding it on every index change, is DOM event plumbing. The model has a single handler. It acts while the gallery is open and does nothing while it is closed.
- The close affordances of the modal are left out: the backdrop click, the close button and the inner `stopPropagation`. They are DOM event plumbing, and what they trigger is `Close`.
- The header dropdown's click-outside handling and the mobile menu are DOM event state.
- `ScrollToTop` is DOM event plumbing.
- The image `onError` fallback is left out because the model has no image loading.
- The axios fetches, with their error and loading handling, are network I/O.
- Routing is declarative framework configuration: `BrowserRouter`, `Routes` and `backend/backend/urls.py`.
- `backend/app/serializers.py` is left out. Its field lists mean `list` is modelled as returning the configuration row itself, not its serialised form.
- `backend/app/admin.py` is left out. It holds declarative admin settings and a one-line `count() == 0` permission check.
- Persisting a row (`super().save()`) and the internals of the ORM are not modelled. Tables are sequences.
- The file-cleanup signal receivers are left out. They only delete files from the filesystem.
- The footer's `new Date().getFullYear()` depends on the clock.
- Requests are modelled one at a time. `SiteConfigurationViewSet.list` reads `first()` and then calls `create()` (views.py:7-9) with no transaction or lock. So two concurrent first requests on an empty table can each create a row and answer with different configurations. "Exactly one default row" and "creates nothing" (`ListOutcome`, `ListIsStable`, `ConfigurationStore.List`, `ListTwice`) hold only for requests served one after the other.
- Gallery.CardClick: a click on an open session resets the index to 0, where the mounted modal would keep its own index. Such a click cannot happen while the backdrop covers the cards (App.jsx:42).
- Views.Lower: lower-cases the ASCII letters only. Python's `str.lower` also lower-cases other Unicode letters. The model treats those as unchanged.
- `FeaturedFlagSpellings` relies on the ASCII-only `Lower`. It would differ from Python only if some non-ASCII character lower-cased to one of `t`, `r`, `u`, `e` or `1`.
- Storefront.DescriptionPreview: counts characters of `seq<char>`. JavaScript's `substring` counts UTF-16 code units, so the two can differ on text outside the Basic Multilingual Plane.
- Models.OrderedByNewest: fixes one order for products with equal `created_at`. Django leaves that order to the database.
