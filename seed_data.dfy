/**
 * The four sample photos the gallery shows after sign-in (src/App.tsx) and
 * what the filters and tabs make of them.
 */
module SeedData {
  import opened Wrappers
  import opened PhotoTypes
  import opened Text
  import opened Seqs
  import opened Gallery
  import opened TextSearch

  /**
   * The sample collection for user `userId`. The timestamps are computed
   * from the clock in the source and are parameters here.
   */
  function SamplePhotos(userId: string, created: seq<string>, updated: seq<string>): (ps: seq<DogPhoto>)
    requires |created| == 4 && |updated| == 4
    ensures |ps| == 4
  {
    [ DogPhoto("1", userId, "Golden Retriever Puppy",
               Some("Adorable golden retriever puppy playing in the garden"),
               "https://images.unsplash.com/photo-1552053831-71594a27632d?w=500&h=500&fit=crop",
               Puppy, true, created[0], updated[0]),
      DogPhoto("2", userId, "Border Collie in Action",
               Some("Border collie catching a frisbee at the park"),
               "https://images.unsplash.com/photo-1551717743-49959800b1f6?w=500&h=500&fit=crop",
               Action, false, created[1], updated[1]),
      DogPhoto("3", userId, "Labrador Portrait",
               Some("Beautiful portrait of a chocolate labrador"),
               "https://images.unsplash.com/photo-1518717758536-85ae29035b6d?w=500&h=500&fit=crop",
               Portrait, true, created[2], updated[2]),
      DogPhoto("4", userId, "German Shepherd",
               Some("Majestic German Shepherd standing in the field"),
               "https://images.unsplash.com/photo-1589941013453-ec89f33b5e95?w=500&h=500&fit=crop",
               Adult, false, created[3], updated[3]) ]
  }

  function Ids(ps: seq<DogPhoto>): (ids: seq<string>)
    ensures |ids| == |ps|
    ensures forall i :: 0 <= i < |ps| ==> ids[i] == ps[i].id
  {
    if ps == [] then [] else [ps[0].id] + Ids(ps[1..])
  }

  /** Filtering four photos, one at a time. */
  lemma FilterFour<T>(ps: seq<T>, keep: T -> bool)
    requires |ps| == 4
    ensures Filter(ps, keep) ==
      (if keep(ps[0]) then [ps[0]] else []) + (if keep(ps[1]) then [ps[1]] else []) +
      (if keep(ps[2]) then [ps[2]] else []) + (if keep(ps[3]) then [ps[3]] else [])
  {
    assert ps == [ps[0]] + [ps[1]] + [ps[2]] + [ps[3]];
    FilterAppend([ps[0]] + [ps[1]] + [ps[2]], [ps[3]], keep);
    FilterAppend([ps[0]] + [ps[1]], [ps[2]], keep);
    FilterAppend([ps[0]], [ps[1]], keep);
  }

  lemma CountFour(ps: seq<DogPhoto>, c: Category)
    requires |ps| == 4
    ensures CategoryCount(ps, c) ==
      (if ps[0].category == c then 1 else 0) + (if ps[1].category == c then 1 else 0) +
      (if ps[2].category == c then 1 else 0) + (if ps[3].category == c then 1 else 0)
  {
    FilterFour(ps, (p: DogPhoto) => p.category == c);
  }

  /** The favourites tab shows photos 1 and 3. */
  lemma SampleFavoritesTab(userId: string, created: seq<string>, updated: seq<string>)
    requires |created| == 4 && |updated| == 4
    ensures Ids(FilteredPhotos(SamplePhotos(userId, created, updated), "", "favorites", false)) == ["1", "3"]
  {
    var ps := SamplePhotos(userId, created, updated);
    FilteredPhotosIsOneFilter(ps, "", "favorites", false);
    FilterFour(ps, (p: DogPhoto) => Visible(p, "", "favorites", false));
    assert Trim("") == "";
  }

  /** The puppy tab with the favourites toggle on shows photo 1. */
  lemma SampleFavoritePuppies(userId: string, created: seq<string>, updated: seq<string>)
    requires |created| == 4 && |updated| == 4
    ensures Ids(FilteredPhotos(SamplePhotos(userId, created, updated), "", "puppy", true)) == ["1"]
  {
    var ps := SamplePhotos(userId, created, updated);
    FilteredPhotosIsOneFilter(ps, "", "puppy", true);
    FilterFour(ps, (p: DogPhoto) => Visible(p, "", "puppy", true));
    assert Trim("") == "";
  }

  /** The action tab with the favourites toggle on shows nothing: photo 2 is not a favourite. */
  lemma SampleFavoriteAction(userId: string, created: seq<string>, updated: seq<string>)
    requires |created| == 4 && |updated| == 4
    ensures FilteredPhotos(SamplePhotos(userId, created, updated), "", "action", true) == []
  {
    var ps := SamplePhotos(userId, created, updated);
    FilteredPhotosIsOneFilter(ps, "", "action", true);
    FilterFour(ps, (p: DogPhoto) => Visible(p, "", "action", true));
    assert Trim("") == "";
  }

  /** The tab counts of the sample collection. */
  lemma SampleTabCounts(userId: string, created: seq<string>, updated: seq<string>)
    requires |created| == 4 && |updated| == 4
    ensures var tabs := CategoryTabs(SamplePhotos(userId, created, updated));
      tabs[0].count == 4 && tabs[1].count == 2 && tabs[2].count == 1 && tabs[3].count == 1 &&
      tabs[4].count == 1 && tabs[5].count == 1 && tabs[6].count == 0
  {
    var ps := SamplePhotos(userId, created, updated);
    FilterFour(ps, (p: DogPhoto) => p.isFavorite);
    CountFour(ps, Puppy);
    CountFour(ps, Adult);
    CountFour(ps, Action);
    CountFour(ps, Portrait);
    CountFour(ps, Uncategorized);
  }

  /** Which sample photos the query "border" matches: only the second. */
  lemma SampleBorderMatches(userId: string, created: seq<string>, updated: seq<string>)
    requires |created| == 4 && |updated| == 4
    ensures var ps := SamplePhotos(userId, created, updated);
      Includes(ToLower(ps[1].title), "border") &&
      MatchesQuery(ps[1], "border") && !MatchesQuery(ps[0], "border") &&
      !MatchesQuery(ps[2], "border") && !MatchesQuery(ps[3], "border")
  {
    var ps := SamplePhotos(userId, created, updated);
    BorderLowered();
    BorderInPhoto2(ps[1].title);
    NoBInPlainTitles(ps[0].title, ps[3].title);
    BorderNotInPlainText(ps[0].title);
    BorderNotInDescription1(ps[0].description.value);
    BorderNotInTitle3(ps[2].title);
    BorderNotInDescription3(ps[2].description.value);
    BorderNotInPlainText(ps[3].title);
    BorderNotInDescription4(ps[3].description.value);
  }

  /** Searching for "border" shows only photo 2, whose title starts with "Border". */
  lemma SampleBorderSearch(userId: string, created: seq<string>, updated: seq<string>)
    requires |created| == 4 && |updated| == 4
    ensures Ids(FilteredPhotos(SamplePhotos(userId, created, updated), "border", "all", false)) == ["2"]
  {
    var ps := SamplePhotos(userId, created, updated);
    var q := "border";
    BorderLowered();
    SampleBorderMatches(userId, created, updated);
    FilteredPhotosIsOneFilter(ps, q, "all", false);
    FilterFour(ps, (p: DogPhoto) => Visible(p, q, "all", false));
  }
}
