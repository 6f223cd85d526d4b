/**
 * The gallery page's state logic (src/App.tsx): the visible photos derived
 * from the collection and the filter state, the tab counts, and the three
 * handlers that replace the collection.
 */
module Gallery {
  import opened PhotoTypes
  import opened Text
  import opened Seqs

  // ---------------------------------------------------------------------
  // Derivation of the visible photos
  // ---------------------------------------------------------------------

  /**
   * The search test: the lower-cased query occurs in the lower-cased title
   * or, when there is one, in the lower-cased description. The query is
   * used as typed; only the decision whether to search at all trims it.
   */
  predicate MatchesQuery(p: DogPhoto, searchQuery: string)
  {
    Includes(ToLower(p.title), ToLower(searchQuery)) ||
    (p.description.Some? && Includes(ToLower(p.description.value), ToLower(searchQuery)))
  }

  /** The search pass: a query that is not blank after trimming keeps only the matching photos. */
  function SearchPass(photos: seq<DogPhoto>, searchQuery: string): seq<DogPhoto>
  {
    if Trim(searchQuery) != "" then Filter(photos, (p: DogPhoto) => MatchesQuery(p, searchQuery))
    else photos
  }

  /** The category pass: any tab but "all" keeps the favourites or the photos of one category. */
  function CategoryPass(photos: seq<DogPhoto>, selectedCategory: string): seq<DogPhoto>
  {
    if selectedCategory != "all" then
      if selectedCategory == "favorites" then Filter(photos, (p: DogPhoto) => p.isFavorite)
      else Filter(photos, (p: DogPhoto) => CategoryName(p.category) == selectedCategory)
    else photos
  }

  /** The favourites-only pass, independent of the tab. */
  function FavoritesPass(photos: seq<DogPhoto>, showFavoritesOnly: bool): seq<DogPhoto>
  {
    if showFavoritesOnly then Filter(photos, (p: DogPhoto) => p.isFavorite) else photos
  }

  /**
   * The `filteredPhotos` memo: the three passes in turn, each narrowing the
   * output of the one before.
   */
  function FilteredPhotos(photos: seq<DogPhoto>, searchQuery: string, selectedCategory: string,
                          showFavoritesOnly: bool): seq<DogPhoto>
  {
    FavoritesPass(CategoryPass(SearchPass(photos, searchQuery), selectedCategory), showFavoritesOnly)
  }

  predicate PassesSearch(p: DogPhoto, searchQuery: string)
  {
    Trim(searchQuery) == "" || MatchesQuery(p, searchQuery)
  }

  /** What the category tabs let through: everything, the favourites, or one category by name. */
  predicate InTab(p: DogPhoto, selectedCategory: string)
  {
    selectedCategory == "all" ||
    (if selectedCategory == "favorites" then p.isFavorite
     else CategoryName(p.category) == selectedCategory)
  }

  predicate PassesFavorites(p: DogPhoto, showFavoritesOnly: bool)
  {
    !showFavoritesOnly || p.isFavorite
  }

  /** The reference condition: a photo is shown when it passes every active control at once. */
  predicate Visible(p: DogPhoto, searchQuery: string, selectedCategory: string, showFavoritesOnly: bool)
  {
    PassesSearch(p, searchQuery) && InTab(p, selectedCategory) && PassesFavorites(p, showFavoritesOnly)
  }

  lemma SearchPassIsFilter(photos: seq<DogPhoto>, q: string)
    ensures SearchPass(photos, q) == Filter(photos, (p: DogPhoto) => PassesSearch(p, q))
  {
    if Trim(q) != "" {
      FilterSameCondition(photos, (p: DogPhoto) => MatchesQuery(p, q), (p: DogPhoto) => PassesSearch(p, q));
    } else {
      FilterKeepsAll(photos, (p: DogPhoto) => PassesSearch(p, q));
    }
  }

  lemma CategoryPassIsFilter(photos: seq<DogPhoto>, sel: string)
    ensures CategoryPass(photos, sel) == Filter(photos, (p: DogPhoto) => InTab(p, sel))
  {
    if sel == "all" {
      FilterKeepsAll(photos, (p: DogPhoto) => InTab(p, sel));
    } else if sel == "favorites" {
      FilterSameCondition(photos, (p: DogPhoto) => p.isFavorite, (p: DogPhoto) => InTab(p, sel));
    } else {
      FilterSameCondition(photos, (p: DogPhoto) => CategoryName(p.category) == sel, (p: DogPhoto) => InTab(p, sel));
    }
  }

  lemma FavoritesPassIsFilter(photos: seq<DogPhoto>, fav: bool)
    ensures FavoritesPass(photos, fav) == Filter(photos, (p: DogPhoto) => PassesFavorites(p, fav))
  {
    if fav {
      FilterSameCondition(photos, (p: DogPhoto) => p.isFavorite, (p: DogPhoto) => PassesFavorites(p, fav));
    } else {
      FilterKeepsAll(photos, (p: DogPhoto) => PassesFavorites(p, fav));
    }
  }

  /** The three passes together are a single filter by `Visible`. */
  lemma FilteredPhotosIsOneFilter(photos: seq<DogPhoto>, q: string, sel: string, fav: bool)
    ensures FilteredPhotos(photos, q, sel, fav) == Filter(photos, (p: DogPhoto) => Visible(p, q, sel, fav))
  {
    var f1 := (p: DogPhoto) => PassesSearch(p, q);
    var f2 := (p: DogPhoto) => InTab(p, sel);
    var f3 := (p: DogPhoto) => PassesFavorites(p, fav);
    var f12 := (p: DogPhoto) => PassesSearch(p, q) && InTab(p, sel);
    SearchPassIsFilter(photos, q);
    var s1 := SearchPass(photos, q);
    CategoryPassIsFilter(s1, sel);
    FilterTwice(photos, f1, f2, f12);
    var s2 := CategoryPass(s1, sel);
    assert s2 == Filter(photos, f12);
    FavoritesPassIsFilter(s2, fav);
    FilterTwice(photos, f12, f3, (p: DogPhoto) => Visible(p, q, sel, fav));
  }

  /**
   * The visible photos are a subsequence of the collection (nothing is
   * added, nothing is reordered), and a photo is among them exactly when it
   * is in the collection and passes every active control.
   */
  lemma FilteredPhotosSubsequence(photos: seq<DogPhoto>, q: string, sel: string, fav: bool)
    ensures SubsequenceOf(FilteredPhotos(photos, q, sel, fav), photos)
    ensures forall p :: p in FilteredPhotos(photos, q, sel, fav) <==> p in photos && Visible(p, q, sel, fav)
  {
    FilteredPhotosIsOneFilter(photos, q, sel, fav);
    FilterIsSubsequence(photos, (p: DogPhoto) => Visible(p, q, sel, fav));
    FilterMembers(photos, (p: DogPhoto) => Visible(p, q, sel, fav));
  }

  /** With a blank query, the "all" tab and the favourites toggle off, every photo is shown in order. */
  lemma FilteredPhotosNoFilter(photos: seq<DogPhoto>, q: string)
    requires AllWhitespace(q)
    ensures FilteredPhotos(photos, q, "all", false) == photos
  {
    TrimEmptyIff(q);
  }

  /** Every shown photo passes every active control. */
  lemma FilteredPhotosVisible(photos: seq<DogPhoto>, q: string, sel: string, fav: bool)
    ensures var r := FilteredPhotos(photos, q, sel, fav);
      forall i :: 0 <= i < |r| ==> Visible(r[i], q, sel, fav)
  {
    FilteredPhotosIsOneFilter(photos, q, sel, fav);
  }

  /**
   * With a query that is not blank, the lower-cased query as typed (not
   * trimmed) occurs in every shown photo's lower-cased title or present
   * description.
   */
  lemma FilteredPhotosSearch(photos: seq<DogPhoto>, q: string, sel: string, fav: bool)
    requires !AllWhitespace(q)
    ensures var r := FilteredPhotos(photos, q, sel, fav);
      forall i :: 0 <= i < |r| ==>
        Includes(ToLower(r[i].title), ToLower(q)) ||
        (r[i].description.Some? && Includes(ToLower(r[i].description.value), ToLower(q)))
  {
    FilteredPhotosVisible(photos, q, sel, fav);
    TrimEmptyIff(q);
  }

  /** The favourites tab, or the favourites toggle, shows only favourites. */
  lemma FilteredPhotosFavorites(photos: seq<DogPhoto>, q: string, sel: string, fav: bool)
    requires sel == "favorites" || fav
    ensures var r := FilteredPhotos(photos, q, sel, fav);
      forall i :: 0 <= i < |r| ==> r[i].isFavorite
  {
    FilteredPhotosVisible(photos, q, sel, fav);
  }

  /** A category's tab shows only photos of that category. */
  lemma FilteredPhotosCategory(photos: seq<DogPhoto>, q: string, c: Category, fav: bool)
    ensures var r := FilteredPhotos(photos, q, CategoryName(c), fav);
      forall i :: 0 <= i < |r| ==> r[i].category == c
  {
    FilteredPhotosVisible(photos, q, CategoryName(c), fav);
    CategoryNameRoundTrip(c);
  }

  /** A tab value that is neither "all", "favorites" nor a category name shows nothing. */
  lemma FilteredPhotosUnknownTab(photos: seq<DogPhoto>, q: string, sel: string, fav: bool)
    requires sel != "all" && sel != "favorites" && ParseCategory(sel).None?
    ensures FilteredPhotos(photos, q, sel, fav) == []
  {
    FilteredPhotosIsOneFilter(photos, q, sel, fav);
    FilterKeepsNone(photos, (p: DogPhoto) => Visible(p, q, sel, fav));
  }

  // ---------------------------------------------------------------------
  // Tab counts
  // ---------------------------------------------------------------------

  /** One entry of the `categories` table that labels the tabs. */
  datatype TabEntry = TabEntry(value: string, caption: string, count: nat)

  function FavoriteCount(photos: seq<DogPhoto>): nat
  {
    |Filter(photos, (p: DogPhoto) => p.isFavorite)|
  }

  function CategoryCount(photos: seq<DogPhoto>, c: Category): nat
  {
    |Filter(photos, (p: DogPhoto) => p.category == c)|
  }

  /** The seven tab entries, counted over the whole collection (never over the filtered result). */
  function CategoryTabs(photos: seq<DogPhoto>): (tabs: seq<TabEntry>)
    ensures |tabs| == 7
  {
    [ TabEntry("all", "All Photos", |photos|),
      TabEntry("favorites", "Favorites", FavoriteCount(photos)),
      TabEntry("puppy", "Puppy", CategoryCount(photos, Puppy)),
      TabEntry("adult", "Adult", CategoryCount(photos, Adult)),
      TabEntry("action", "Action", CategoryCount(photos, Action)),
      TabEntry("portrait", "Portrait", CategoryCount(photos, Portrait)),
      TabEntry("uncategorized", "Uncategorized", CategoryCount(photos, Uncategorized)) ]
  }

  /** Every photo has exactly one category, so the five category counts add up to the total. */
  lemma {:induction false} CategoryCountsSum(photos: seq<DogPhoto>)
    ensures CategoryCount(photos, Puppy) + CategoryCount(photos, Adult) + CategoryCount(photos, Action) +
            CategoryCount(photos, Portrait) + CategoryCount(photos, Uncategorized) == |photos|
    ensures FavoriteCount(photos) <= |photos|
    decreases |photos|
  {
    if photos != [] {
      CategoryCountsSum(photos[1..]);
    }
  }

  /** With a blank search and the toggle off, the gallery shows the category pass of the collection. */
  lemma BlankSearchShowsTab(photos: seq<DogPhoto>, q: string, selectedCategory: string)
    requires AllWhitespace(q)
    ensures FilteredPhotos(photos, q, selectedCategory, false) == CategoryPass(photos, selectedCategory)
  {
    TrimEmptyIff(q);
  }

  /** The count on tab `i` is the number of photos that tab shows with a blank search and the toggle off. */
  lemma TabCountIsShown(photos: seq<DogPhoto>, q: string, i: int)
    requires AllWhitespace(q) && 0 <= i < 7
    ensures CategoryTabs(photos)[i].count == |FilteredPhotos(photos, q, CategoryTabs(photos)[i].value, false)|
  {
    var tabs := CategoryTabs(photos);
    BlankSearchShowsTab(photos, q, tabs[i].value);
    if 2 <= i {
      var c := AllCategories()[i - 2];
      assert tabs[i].value == CategoryName(c);
      CategoryNameRoundTrip(c);
      FilterSameCondition(photos, (p: DogPhoto) => p.category == c, (p: DogPhoto) => CategoryName(p.category) == CategoryName(c));
    }
  }

  /**
   * The tab table: "all" counts the collection, "favorites" the favourited
   * photos, each category tab its photos, the category counts sum to the
   * "all" count, and each count is the number of photos that tab shows when
   * the search is blank and the favourites toggle is off.
   */
  lemma CategoryTabsCounts(photos: seq<DogPhoto>)
    ensures var tabs := CategoryTabs(photos);
      tabs[0].value == "all" && tabs[0].count == |photos| &&
      tabs[1].value == "favorites" &&
      (forall i :: 2 <= i < 7 ==> tabs[i].value == CategoryName(AllCategories()[i - 2])) &&
      tabs[2].count + tabs[3].count + tabs[4].count + tabs[5].count + tabs[6].count == tabs[0].count &&
      forall q, i :: AllWhitespace(q) && 0 <= i < 7 ==> tabs[i].count == |FilteredPhotos(photos, q, tabs[i].value, false)|
  {
    CategoryCountsSum(photos);
    forall q, i | AllWhitespace(q) && 0 <= i < 7
      ensures CategoryTabs(photos)[i].count == |FilteredPhotos(photos, q, CategoryTabs(photos)[i].value, false)|
    {
      TabCountIsShown(photos, q, i);
    }
  }

  // ---------------------------------------------------------------------
  // The collection handlers, as functions of the previous collection
  // ---------------------------------------------------------------------

  /** The photo `handleUpload` builds: the form's fields plus the ones the gallery assigns. */
  function NewPhoto(data: PhotoData, id: string, userId: string, createdAt: string, updatedAt: string): DogPhoto
  {
    DogPhoto(id, userId, data.title, data.description, data.imageUrl, data.category,
             data.isFavorite, createdAt, updatedAt)
  }

  /** `handleUpload`: the new photo goes to the front. */
  function Upload(photos: seq<DogPhoto>, data: PhotoData, id: string, userId: string,
                  createdAt: string, updatedAt: string): (r: seq<DogPhoto>)
    ensures |r| == |photos| + 1 && r[1..] == photos
    ensures r[0].id == id && r[0].userId == userId
    ensures r[0].title == data.title && r[0].description == data.description
    ensures r[0].imageUrl == data.imageUrl && r[0].category == data.category
    ensures r[0].isFavorite == data.isFavorite
    ensures r[0].createdAt == createdAt && r[0].updatedAt == updatedAt
  {
    [NewPhoto(data, id, userId, createdAt, updatedAt)] + photos
  }

  /** `handleToggleFavorite`: flip the flag of every photo with the id. */
  function ToggleFavorite(photos: seq<DogPhoto>, id: string): seq<DogPhoto>
  {
    if photos == [] then []
    else [if photos[0].id == id then FavoriteToggled(photos[0]) else photos[0]] + ToggleFavorite(photos[1..], id)
  }

  /** `handleDeletePhoto`: keep the photos whose id differs. */
  function DeletePhoto(photos: seq<DogPhoto>, id: string): seq<DogPhoto>
  {
    Filter(photos, (p: DogPhoto) => p.id != id)
  }

  /**
   * Toggling keeps length and order, flips `isFavorite` exactly on the
   * photos with that id and changes no other field of any photo.
   */
  lemma {:induction false} ToggleFavoriteEffect(photos: seq<DogPhoto>, id: string)
    ensures var r := ToggleFavorite(photos, id);
      |r| == |photos| &&
      forall i :: 0 <= i < |photos| ==>
        r[i].isFavorite == (if photos[i].id == id then !photos[i].isFavorite else photos[i].isFavorite) &&
        r[i].(isFavorite := photos[i].isFavorite) == photos[i]
    decreases |photos|
  {
    if photos != [] {
      ToggleFavoriteEffect(photos[1..], id);
      var r := ToggleFavorite(photos, id);
      forall i | 1 <= i < |photos|
        ensures r[i] == ToggleFavorite(photos[1..], id)[i - 1] && photos[i] == photos[1..][i - 1]
      {
      }
    }
  }

  /** Toggling the same id twice restores the collection, whether or not the id is present. */
  lemma {:induction false} ToggleFavoriteTwice(photos: seq<DogPhoto>, id: string)
    ensures ToggleFavorite(ToggleFavorite(photos, id), id) == photos
    decreases |photos|
  {
    if photos != [] {
      ToggleFavoriteTwice(photos[1..], id);
      var once := ToggleFavorite(photos, id);
      assert once[1..] == ToggleFavorite(photos[1..], id);
    }
  }

  /** Toggling an id no photo carries changes nothing. */
  lemma {:induction false} ToggleFavoriteAbsent(photos: seq<DogPhoto>, id: string)
    requires forall i :: 0 <= i < |photos| ==> photos[i].id != id
    ensures ToggleFavorite(photos, id) == photos
    decreases |photos|
  {
    if photos != [] {
      ToggleFavoriteAbsent(photos[1..], id);
    }
  }

  /**
   * Deleting keeps, in order, exactly the photos whose id differs, each as
   * many times as the collection holds it, and no copy of a photo with the
   * id; with an id no photo carries it changes nothing.
   */
  lemma DeletePhotoEffect(photos: seq<DogPhoto>, id: string)
    ensures var r := DeletePhoto(photos, id);
      SubsequenceOf(r, photos) &&
      (forall p :: p in r <==> p in photos && p.id != id) &&
      (forall p :: multiset(r)[p] == if p.id != id then multiset(photos)[p] else 0) &&
      ((forall i :: 0 <= i < |photos| ==> photos[i].id != id) ==> r == photos)
  {
    FilterIsSubsequence(photos, (p: DogPhoto) => p.id != id);
    FilterMembers(photos, (p: DogPhoto) => p.id != id);
    FilterMultiset(photos, (p: DogPhoto) => p.id != id);
    if forall i :: 0 <= i < |photos| ==> photos[i].id != id {
      FilterKeepsAll(photos, (p: DogPhoto) => p.id != id);
    }
  }

  /**
   * Deleting a freshly uploaded photo by its id restores the collection,
   * provided no older photo shares that id (ids come from the clock and
   * are not guaranteed unique).
   */
  lemma DeleteUndoesUpload(photos: seq<DogPhoto>, data: PhotoData, id: string, userId: string,
                           createdAt: string, updatedAt: string)
    requires forall i :: 0 <= i < |photos| ==> photos[i].id != id
    ensures DeletePhoto(Upload(photos, data, id, userId, createdAt, updatedAt), id) == photos
  {
    var r := Upload(photos, data, id, userId, createdAt, updatedAt);
    assert r[1..] == photos;
    FilterKeepsAll(photos, (p: DogPhoto) => p.id != id);
  }

  /**
   * The converse: when an older photo shares the new id, deleting by that
   * id removes the older photo too, so the collection is not restored.
   */
  lemma DeleteAfterUploadLosesNamesake(photos: seq<DogPhoto>, data: PhotoData, id: string, userId: string,
                                       createdAt: string, updatedAt: string, k: int)
    requires 0 <= k < |photos| && photos[k].id == id
    ensures photos[k] !in DeletePhoto(Upload(photos, data, id, userId, createdAt, updatedAt), id)
    ensures DeletePhoto(Upload(photos, data, id, userId, createdAt, updatedAt), id) != photos
  {
    var r := Upload(photos, data, id, userId, createdAt, updatedAt);
    FilterMembers(r, (p: DogPhoto) => p.id != id);
  }

  /** An uploaded photo is shown first when it passes the active controls; the rest of the view is unchanged. */
  lemma UploadShownFirst(photos: seq<DogPhoto>, data: PhotoData, id: string, userId: string,
                         createdAt: string, updatedAt: string, q: string, sel: string, fav: bool)
    ensures var p := NewPhoto(data, id, userId, createdAt, updatedAt);
      FilteredPhotos(Upload(photos, data, id, userId, createdAt, updatedAt), q, sel, fav) ==
      (if Visible(p, q, sel, fav) then [p] else []) + FilteredPhotos(photos, q, sel, fav)
  {
    var r := Upload(photos, data, id, userId, createdAt, updatedAt);
    FilteredPhotosIsOneFilter(r, q, sel, fav);
    FilteredPhotosIsOneFilter(photos, q, sel, fav);
    assert r[1..] == photos;
  }

  // ---------------------------------------------------------------------
  // The page state
  // ---------------------------------------------------------------------

  /** The gallery page's state: the collection and the three filter controls. */
  class PhotoGallery {
    var photos: seq<DogPhoto>
    var searchQuery: string
    var selectedCategory: string
    var showFavoritesOnly: bool

    /** The initial state: no photos, blank search, the "all" tab, favourites toggle off. */
    constructor ()
      ensures photos == [] && searchQuery == "" && selectedCategory == "all" && !showFavoritesOnly
    {
      photos := [];
      searchQuery := "";
      selectedCategory := "all";
      showFavoritesOnly := false;
    }

    /** The photos on screen. */
    function Shown(): seq<DogPhoto>
      reads this
    {
      FilteredPhotos(photos, searchQuery, selectedCategory, showFavoritesOnly)
    }

    /** The collection is replaced wholesale (the signed-in user's photos are loaded). */
    method SetPhotos(loaded: seq<DogPhoto>)
      modifies this
      ensures photos == loaded
      ensures searchQuery == old(searchQuery) && selectedCategory == old(selectedCategory)
      ensures showFavoritesOnly == old(showFavoritesOnly)
    {
      photos := loaded;
    }

    /**
     * `handleUpload`: the new photo heads the collection, and it heads the
     * view when it passes the active controls; the rest of the view stays.
     */
    method HandleUpload(data: PhotoData, id: string, userId: string, createdAt: string, updatedAt: string)
      modifies this
      ensures photos == Upload(old(photos), data, id, userId, createdAt, updatedAt)
      ensures searchQuery == old(searchQuery) && selectedCategory == old(selectedCategory)
      ensures showFavoritesOnly == old(showFavoritesOnly)
      ensures var p := NewPhoto(data, id, userId, createdAt, updatedAt);
        Shown() == (if Visible(p, searchQuery, selectedCategory, showFavoritesOnly) then [p] else []) + old(Shown())
    {
      UploadShownFirst(photos, data, id, userId, createdAt, updatedAt, searchQuery, selectedCategory, showFavoritesOnly);
      photos := [NewPhoto(data, id, userId, createdAt, updatedAt)] + photos;
    }

    /** `handleToggleFavorite`: the collection as `ToggleFavorite` leaves it. */
    method HandleToggleFavorite(id: string)
      modifies this
      ensures photos == ToggleFavorite(old(photos), id)
      ensures searchQuery == old(searchQuery) && selectedCategory == old(selectedCategory)
      ensures showFavoritesOnly == old(showFavoritesOnly)
    {
      photos := ToggleFavorite(photos, id);
    }

    /**
     * `handleDeletePhoto`: the view afterwards is drawn, in order, from the
     * old collection, and no photo with the id is in the collection or on screen.
     */
    method HandleDeletePhoto(id: string)
      modifies this
      ensures photos == DeletePhoto(old(photos), id)
      ensures searchQuery == old(searchQuery) && selectedCategory == old(selectedCategory)
      ensures showFavoritesOnly == old(showFavoritesOnly)
      ensures SubsequenceOf(Shown(), old(photos))
      ensures forall p :: p in Shown() ==> p in old(photos) && p.id != id
    {
      var before := photos;
      DeletePhotoEffect(photos, id);
      photos := DeletePhoto(photos, id);
      FilteredPhotosSubsequence(photos, searchQuery, selectedCategory, showFavoritesOnly);
      SubsequenceTransitive(Shown(), photos, before);
      SubsequenceMembers(Shown(), before);
    }

    /** The search box's change handler. */
    method SetSearchQuery(q: string)
      modifies this
      ensures searchQuery == q && photos == old(photos)
      ensures selectedCategory == old(selectedCategory) && showFavoritesOnly == old(showFavoritesOnly)
    {
      searchQuery := q;
    }

    /** The tab bar's change handler. */
    method SetSelectedCategory(sel: string)
      modifies this
      ensures selectedCategory == sel && photos == old(photos)
      ensures searchQuery == old(searchQuery) && showFavoritesOnly == old(showFavoritesOnly)
    {
      selectedCategory := sel;
    }

    /** The favourites button flips the toggle. */
    method ToggleShowFavoritesOnly()
      modifies this
      ensures showFavoritesOnly == !old(showFavoritesOnly) && photos == old(photos)
      ensures searchQuery == old(searchQuery) && selectedCategory == old(selectedCategory)
    {
      showFavoritesOnly := !showFavoritesOnly;
    }
  }
}
