# Dog photo gallery — a Dafny model of its core

The gallery is a single-page React application. A signed-in user keeps a
collection of dog photos. Each photo has a title, an optional description,
one of five categories and a favourite flag. The page shows:

- the collection, narrowed by a search box, a row of category tabs (with
  counts) and a "favourites only" toggle;
- an upload dialog, which takes an image file, suggests a title from the
  file name and hands a cleaned-up record to the gallery.

This project models that core in Dafny and proves what it promises.

| file | module | models |
|---|---|---|
| `photo_types.dfy` | `PhotoTypes` | the photo record, the upload request, the category union (`src/types/photo.ts`) |
| `text.dfy` | `Text` | the JavaScript string built-ins the core calls: `trim`, `toLowerCase`/`toUpperCase`, `includes`, `startsWith` |
| `seqs.dfy` | `Seqs` | `Array.prototype.filter` and the subsequence order it respects |
| `gallery.dfy` | `Gallery` | `filteredPhotos`, the tab table, the three collection handlers, and the page state as the class `PhotoGallery` (`src/App.tsx`) |
| `upload_modal.dfy` | `UploadModal` | the file intake, the suggested title, the submit guard, the payload, and the form state as the class `UploadForm` (`src/components/PhotoUploadModal.tsx`) |
| `seed_data.dfy`, `text_search.dfy` | `SeedData`, `TextSearch` | the four sample photos loaded after sign-in, and what the tabs, toggle and search show for them |

The view is modelled as three filter passes, exactly as the source runs
them: search, then tab, then favourites toggle. It is proved equal to a
single filter by an independent predicate, `Visible`. Every other property
of the view follows from that equality. The two React components' state
becomes two classes. Their handlers are methods whose `ensures` give the
whole new state in terms of the pure functions the lemmas are about.

Four behaviours of the code shape the model:

- The tab bar only ever sets one of seven values, but the selected tab is
  held as a free string (`useState<string>`, src/App.tsx:18). A tab string
  that names nothing shows an empty view (`FilteredPhotosUnknownTab`).
- The query is trimmed only to decide whether to search at all
  (src/App.tsx:92). The match itself uses the query as typed, lower-cased
  but not trimmed (src/App.tsx:94-95).
- A new photo's id is the clock reading `Date.now()` (src/App.tsx:119),
  and nothing checks it against the ids already in the collection. Toggling
  flips every photo with the id, and deleting removes every photo with the
  id. Deleting an upload restores the collection when no older photo has
  the same id (`DeleteUndoesUpload`), and not when one does
  (`DeleteAfterUploadLosesNamesake`).
- Toggling a favourite copies the photo with only `isFavorite` changed
  (src/App.tsx:132), so `updatedAt` keeps its upload-time value.

## Model

| member | source | states |
|---|---|---|
| PhotoTypes.AllCategories | src/types/photo.ts:7 | the category union has exactly five distinct values |
| PhotoTypes.CategoryIsListed | src/types/photo.ts:7 | every category value is one of the five listed |
| PhotoTypes.ParseCategory | src/types/photo.ts:7 | a string is recognised exactly when it is some category's literal, and then it names that category |
| PhotoTypes.CategoryNameRoundTrip | src/types/photo.ts:7 | parsing a category's literal gives the category back; no two categories share a literal |
| PhotoTypes.FavoriteToggled | src/App.tsx:131-133 | the spread copy flips `isFavorite` and keeps every other field |
| PhotoTypes.FavoriteToggledTwice | src/App.tsx:131-133 | flipping a photo twice gives the photo back |
| Text.LeadingWhitespace | src/App.tsx:92 | the count of leading characters that `trim` removes: all whitespace, then a non-whitespace character or the end |
| Text.TrailingWhitespace | src/App.tsx:92 | the count of trailing characters that `trim` removes, symmetrically |
| Text.TrimEmptyIff | src/App.tsx:92 | `s.trim()` is empty exactly when every character of `s` is whitespace; this is the truthiness test on the trimmed query and title |
| Text.TrimIsTrimmed | src/components/PhotoUploadModal.tsx:81-82 | a trimmed string has no whitespace at either end, and trimming again changes nothing |
| Text.ToLower | src/App.tsx:94-95 | `toLowerCase` keeps the length and lower-cases character by character |
| Text.ToLowerIdempotent | src/App.tsx:94-95 | lower-casing twice is lower-casing once |
| Text.Includes | src/App.tsx:94-95 | `includes` is true exactly when the substring occurs at some index |
| Text.StartsWith | src/components/PhotoUploadModal.tsx:37 | `startsWith` is true exactly when the string is the prefix followed by some rest, which is also an occurrence of the prefix at index 0 |
| Seqs.Filter | src/App.tsx:93-110 | `filter` never lengthens its input, and everything it keeps passes the test |
| Seqs.FilterIsSubsequence | src/App.tsx:93-110 | `filter` keeps elements in their original order |
| Seqs.FilterMembers | src/App.tsx:93-110 | an element is kept exactly when it is in the input and passes the test |
| Seqs.FilterTwice | src/App.tsx:93-110 | two consecutive filters are one filter by the conjunction |
| Seqs.FilterSameCondition | src/App.tsx:104 | filters whose tests agree on the input give the same result |
| Seqs.FilterAppend | src/App.tsx:93-110 | filtering a concatenation filters each part |
| Seqs.FilterMultiset | src/App.tsx:139 | `filter` keeps every copy of an accepted element and no copy of a rejected one |
| Seqs.FilterKeepsAll | src/App.tsx:139 | when every element passes, `filter` returns its input |
| Seqs.FilterKeepsNone | src/App.tsx:104 | when no element passes, `filter` returns the empty list |
| Seqs.SubsequenceTransitive | src/App.tsx:88-114 | narrowing a narrowed list stays inside the original |
| Seqs.SubsequenceMembers | src/App.tsx:88-114 | a subsequence holds nothing its original does not |
| Gallery.MatchesQuery | src/App.tsx:93-96 | predicate with no contract of its own: the lower-cased query as typed occurs in the lower-cased title or present description; `FilteredPhotosSearch` states what it guarantees of the view |
| Gallery.SearchPass | src/App.tsx:92-97 | no contract of its own; characterised by `SearchPassIsFilter` |
| Gallery.CategoryPass | src/App.tsx:100-106 | no contract of its own; characterised by `CategoryPassIsFilter` |
| Gallery.FavoritesPass | src/App.tsx:109-111 | no contract of its own; characterised by `FavoritesPassIsFilter` |
| Gallery.FilteredPhotos | src/App.tsx:88-114 | no contract of its own; characterised by `FilteredPhotosIsOneFilter` and the lemmas that follow from it |
| Gallery.NewPhoto | src/App.tsx:117-123 | no contract of its own; its fields are stated by `Upload` |
| Gallery.ToggleFavorite | src/App.tsx:129-135 | no contract of its own; characterised by `ToggleFavoriteEffect`, `ToggleFavoriteTwice` and `ToggleFavoriteAbsent` |
| Gallery.DeletePhoto | src/App.tsx:139 | no contract of its own; characterised by `DeletePhotoEffect` |
| PhotoTypes.CategoryName | src/types/photo.ts:7 | no contract of its own: the run-time literal of each category, the strings src/App.tsx:104 compares against; characterised by `ParseCategory` and `CategoryNameRoundTrip` |
| Gallery.FavoriteCount | src/App.tsx:144 | no contract of its own: the `photos.filter(p => p.isFavorite).length` count; bounded by `CategoryCountsSum` and tied to the favourites tab by `TabCountIsShown` |
| Gallery.CategoryCount | src/App.tsx:145-149 | no contract of its own: the per-category `filter(...).length` counts; they sum to the total by `CategoryCountsSum` and equal what each tab shows by `TabCountIsShown` |
| Text.Trim | src/App.tsx:92 | no contract of its own; characterised by `TrimEmptyIff` and `TrimIsTrimmed` |
| UploadModal.IsImageType | src/components/PhotoUploadModal.tsx:37 | predicate with no contract of its own: the MIME type starts with "image/", by `StartsWith` |
| UploadModal.AutoTitle | src/components/PhotoUploadModal.tsx:46-48 | no contract of its own; `StripExtension` and `Capitalize` state its two steps, and `HandleFileSelect` uses it |
| Gallery.SearchPassIsFilter | src/App.tsx:92-97 | the search pass keeps the photos that match the query in title or present description, or all of them when the trimmed query is empty |
| Gallery.CategoryPassIsFilter | src/App.tsx:100-106 | the tab pass keeps all photos for "all", the favourites for "favorites", and otherwise the photos whose category literal equals the tab value |
| Gallery.FavoritesPassIsFilter | src/App.tsx:109-111 | the toggle pass keeps the favourites when on and everything when off |
| Gallery.FilteredPhotosIsOneFilter | src/App.tsx:88-114 | the three passes in sequence equal one filter by `Visible` |
| Gallery.FilteredPhotosSubsequence | src/App.tsx:88-114 | the view keeps the collection's order, and a photo is shown exactly when it is in the collection and passes every active control |
| Gallery.FilteredPhotosNoFilter | src/App.tsx:88-114 | a blank query, the "all" tab and the toggle off show the whole collection in order |
| Gallery.FilteredPhotosVisible | src/App.tsx:88-114 | every shown photo passes every active control |
| Gallery.FilteredPhotosSearch | src/App.tsx:92-97 | with a non-blank query, the lower-cased query as typed occurs in each shown photo's lower-cased title or present description |
| Gallery.FilteredPhotosFavorites | src/App.tsx:101-102 | the favourites tab, or the favourites toggle, shows only favourites |
| Gallery.FilteredPhotosCategory | src/App.tsx:103-104 | a category's tab shows only photos of that category |
| Gallery.FilteredPhotosUnknownTab | src/App.tsx:100-106 | a tab value that names no tab shows nothing |
| Gallery.CategoryTabs | src/App.tsx:142-150 | the tab table has seven entries |
| Gallery.CategoryCountsSum | src/App.tsx:145-149 | the five category counts add up to the collection size, and the favourites count is at most the collection size |
| Gallery.BlankSearchShowsTab | src/App.tsx:88-114 | with any all-whitespace query and the toggle off, the view is the tab pass of the collection |
| Gallery.TabCountIsShown | src/App.tsx:142-150 | each tab's count is the number of photos that tab shows with any all-whitespace query and the toggle off |
| Gallery.CategoryTabsCounts | src/App.tsx:142-150 | the tab values are "all", "favorites" and the five category literals; "all" counts the collection and equals the sum of the category counts; every count is what its tab shows with any all-whitespace query and the toggle off |
| Gallery.Upload | src/App.tsx:116-126 | the new photo comes first, carries the form's fields plus the given id, owner and timestamps, and the old collection follows unchanged |
| Gallery.ToggleFavoriteEffect | src/App.tsx:128-136 | toggling keeps length and order, flips `isFavorite` exactly on the photos with the id, and changes no other field |
| Gallery.ToggleFavoriteTwice | src/App.tsx:128-136 | toggling the same id twice restores the collection |
| Gallery.ToggleFavoriteAbsent | src/App.tsx:128-136 | toggling an id no photo has changes nothing |
| Gallery.DeletePhotoEffect | src/App.tsx:138-140 | deleting keeps, in order, exactly the photos with a different id, each as many times as the collection holds it, and no copy of a photo with the id; it changes nothing when no photo has the id |
| Gallery.DeleteUndoesUpload | src/App.tsx:116-140 | deleting a just-uploaded photo by its id restores the collection when no older photo has that id |
| Gallery.DeleteAfterUploadLosesNamesake | src/App.tsx:116-140 | when an older photo shares the new id, deleting by that id removes it as well, so the collection is not restored |
| Gallery.UploadShownFirst | src/App.tsx:88-126 | after an upload, the view is the new photo (if it passes the controls) followed by the old view |
| Gallery.PhotoGallery.constructor | src/App.tsx:16-22 | the page starts with no photos, a blank query, the "all" tab and the toggle off |
| Gallery.PhotoGallery.SetPhotos | src/App.tsx:83 | loading replaces the collection and leaves the controls alone |
| Gallery.PhotoGallery.HandleUpload | src/App.tsx:116-126 | the collection becomes `Upload` of the old one; the view gains the new photo at the front when it passes the controls |
| Gallery.PhotoGallery.HandleToggleFavorite | src/App.tsx:128-136 | the collection becomes `ToggleFavorite` of the old one; the controls are unchanged |
| Gallery.PhotoGallery.HandleDeletePhoto | src/App.tsx:138-140 | the collection becomes `DeletePhoto` of the old one; the view is a subsequence of the old collection, and nothing with the id remains in view |
| Gallery.PhotoGallery.SetSearchQuery | src/App.tsx:230 | only the query changes |
| Gallery.PhotoGallery.SetSelectedCategory | src/App.tsx:254 | only the tab changes |
| Gallery.PhotoGallery.ToggleShowFavoritesOnly | src/App.tsx:200 | only the toggle flips |
| UploadModal.ExtensionMatchUnique | src/components/PhotoUploadModal.tsx:47 | the extension pattern can match at no more than one index |
| UploadModal.PlainSuffixLength | src/components/PhotoUploadModal.tsx:47 | the longest suffix without '/' or '.', bounded by a separator or the start |
| UploadModal.StripExtension | src/components/PhotoUploadModal.tsx:47 | where the pattern matches at `i`, the result is the name up to `i`; with no match, the name is unchanged |
| UploadModal.Capitalize | src/components/PhotoUploadModal.tsx:48 | the suggested title differs from the name only in case (both lower-case to the same string) and never starts with a lower-case letter; the length is kept and only the first character can change |
| UploadModal.StripExtensionLastOnly | src/components/PhotoUploadModal.tsx:47 | only the last extension is removed ("a.b.jpg" gives "a.b") |
| UploadModal.StripExtensionTrailingDot | src/components/PhotoUploadModal.tsx:47 | a trailing dot is not an extension ("file." is kept) |
| UploadModal.StripExtensionDotFile | src/components/PhotoUploadModal.tsx:47-48 | a name that is only an extension gives an empty name and an empty suggested title |
| UploadModal.StripExtensionDirectoryDot | src/components/PhotoUploadModal.tsx:47 | a dot before a '/' does not start an extension |
| UploadModal.AutoTitleExample | src/components/PhotoUploadModal.tsx:46-48 | "golden retriever.png" suggests "Golden retriever" |
| UploadModal.SubmitGuard | src/components/PhotoUploadModal.tsx:73 | submission goes ahead exactly when a file is selected and the title is not all whitespace |
| UploadModal.SubmitEnabled | src/components/PhotoUploadModal.tsx:235 | the submit button is enabled exactly when a file is selected, the title is not blank and no upload is running; it is enabled only if the guard holds |
| UploadModal.UploadPayload | src/components/PhotoUploadModal.tsx:80-86 | the title is trimmed; the description is absent exactly when it is blank, and otherwise trimmed; the category and locator are passed through; the photo is never a favourite |
| UploadModal.UploadPayloadClean | src/components/PhotoUploadModal.tsx:73-86 | a payload that passed the guard has a non-empty title and, if present, a non-empty description, neither with whitespace at either end |
| UploadModal.UploadForm.constructor | src/components/PhotoUploadModal.tsx:18-24 | the form starts reset, with no upload running |
| UploadModal.UploadForm.HandleFileSelect | src/components/PhotoUploadModal.tsx:36-51 | a non-image changes nothing; an image becomes the selected file and, only when the title is the empty string, sets the suggested title |
| UploadModal.UploadForm.PreviewLoaded | src/components/PhotoUploadModal.tsx:39-43 | the reader's data URL becomes the preview and nothing else changes |
| UploadModal.UploadForm.RemoveFile | src/components/PhotoUploadModal.tsx:150-153 | the file and preview are cleared, and the texts and category are kept |
| UploadModal.UploadForm.SetTitle | src/components/PhotoUploadModal.tsx:189 | only the title changes |
| UploadModal.UploadForm.SetDescription | src/components/PhotoUploadModal.tsx:200 | only the description changes |
| UploadModal.UploadForm.SetCategory | src/components/PhotoUploadModal.tsx:208 | only the category changes |
| UploadModal.UploadForm.ResetForm | src/components/PhotoUploadModal.tsx:102-109 | every field returns to its default; the upload flag is untouched |
| UploadModal.UploadForm.HandleSubmit | src/components/PhotoUploadModal.tsx:71-100 | a guarded-out submission sends nothing and changes nothing; otherwise it sends `UploadPayload` of the form; after success the form is reset, after failure the fields are kept; either way the upload flag ends cleared |
| SeedData.SamplePhotos | src/App.tsx:37-82 | the four sample photos with their titles, descriptions, locators, categories and favourite flags |
| SeedData.SampleFavoritesTab | src/App.tsx:37-114 | the favourites tab over the sample shows photos 1 and 3 |
| SeedData.SampleFavoritePuppies | src/App.tsx:37-114 | the puppy tab with the toggle on shows photo 1 |
| SeedData.SampleFavoriteAction | src/App.tsx:37-114 | the action tab with the toggle on shows nothing |
| SeedData.SampleTabCounts | src/App.tsx:37-150 | the sample's tab counts are 4, 2, 1, 1, 1, 1, 0 |
| SeedData.SampleBorderMatches | src/App.tsx:37-95 | the query "border" matches only the second sample photo, and it occurs in that photo's title |
| SeedData.SampleBorderSearch | src/App.tsx:37-114 | searching "border" over the sample shows photo 2 alone |
| TextSearch.NoFirstChar | src/App.tsx:94-95 | a text that lacks the query's first letter in both cases does not contain the query, case-insensitively |
| TextSearch.SkipPiece | src/App.tsx:94-95 | no match can start in a leading piece whose possible start is followed by the wrong character |

## Left out

- Rendering (JSX, styling, icons, the loading screen, the empty-state message and the grid/masonry `viewMode` switch) is not modelled. It computes nothing the core depends on.
- `src/components/PhotoCard.tsx` and `src/components/PhotoDetailModal.tsx` are not part of this model. They render a photo, keep image load and error flags, pick badge colours, format dates, open the detail view and (the detail view) download the image through the DOM. They change the collection only through `onToggleFavorite` and `onDelete`, which are the modelled toggle and delete handlers.
- Sign-in and `onAuthStateChanged` are external services. The signed-in user's id is a parameter, and the sample load is `SetPhotos` of `SamplePhotos`.
- The clock (`Date.now()`, `new Date().toISOString()`) and `URL.createObjectURL` are parameters: the id, the timestamps and the image locator.
- `FileReader` reads the file asynchronously. Its completion is the separate method `PreviewLoaded`, so any interleaving of the two steps can be expressed.
- `onUpload` is asynchronous. Its outcome is the boolean `uploadFails`, and `HandleSubmit` runs to completion in one step. The user cannot see the intermediate `isUploading == true` state in the model. `onClose()` after a successful upload (dialog visibility) is left out.
- `dragActive`, `handleDrag`, `handleDrop` and `handleFileInput` are left out. They track a highlight or unwrap the browser event and then call `handleFileSelect`, which is modelled. `ResetForm` therefore does not model `setDragActive(false)`.
- Text.ToLower: maps only 'A'..'Z'; JavaScript's full Unicode case mapping (which can change a string's length) is not modelled.
- UploadModal.Capitalize: upper-cases only 'a'..'z', for the same reason.
- Strings are sequences of Dafny characters. UTF-16 surrogate pairs are not modelled.
- Ids are not claimed unique, because the source does not enforce it. No lemma assumes a collection free of duplicates, except where its `requires` says so.

