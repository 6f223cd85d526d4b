/**
 * The photo record of the gallery and the values it is built from
 * (src/types/photo.ts).
 */
module PhotoTypes {
  import opened Wrappers

  /** The closed set of photo categories: the string-literal union of `DogPhoto.category`. */
  datatype Category = Puppy | Adult | Action | Portrait | Uncategorized

  /** Every category, in the order the upload form and the tab bar list them. */
  function AllCategories(): (cs: seq<Category>)
    ensures |cs| == 5
    ensures forall i, j :: 0 <= i < j < |cs| ==> cs[i] != cs[j]
  {
    [Puppy, Adult, Action, Portrait, Uncategorized]
  }

  /** A photo's category is always exactly one of the five listed values. */
  lemma CategoryIsListed(c: Category)
    ensures c in AllCategories()
  {
    var cs := AllCategories();
    match c
    case Puppy => assert cs[0] == c;
    case Adult => assert cs[1] == c;
    case Action => assert cs[2] == c;
    case Portrait => assert cs[3] == c;
    case Uncategorized => assert cs[4] == c;
  }

  /** The string literal that stands for a category at run time. */
  function CategoryName(c: Category): string
  {
    match c
    case Puppy => "puppy"
    case Adult => "adult"
    case Action => "action"
    case Portrait => "portrait"
    case Uncategorized => "uncategorized"
  }

  /** The category a string literal stands for, if it is one of the five. */
  function ParseCategory(s: string): (r: Option<Category>)
    ensures r.Some? ==> CategoryName(r.value) == s
    ensures r.None? ==> forall c: Category :: CategoryName(c) != s
  {
    if s == "puppy" then Some(Puppy)
    else if s == "adult" then Some(Adult)
    else if s == "action" then Some(Action)
    else if s == "portrait" then Some(Portrait)
    else if s == "uncategorized" then Some(Uncategorized)
    else None
  }

  /** A category's name determines the category: no two share a literal. */
  lemma CategoryNameRoundTrip(c: Category)
    ensures ParseCategory(CategoryName(c)) == Some(c)
    ensures forall d: Category :: CategoryName(d) == CategoryName(c) ==> d == c
  {
    match c
    case Puppy =>
    case Adult =>
    case Action =>
    case Portrait =>
    case Uncategorized =>
  }

  /**
   * A stored photo. `description` is the only optional field; every other
   * field is always present. Ids, user ids, locators and timestamps are
   * opaque strings to this model.
   */
  datatype DogPhoto = DogPhoto(
    id: string,
    userId: string,
    title: string,
    description: Option<string>,
    imageUrl: string,
    category: Category,
    isFavorite: bool,
    createdAt: string,
    updatedAt: string)

  /**
   * What the upload form hands over: a photo without the fields the gallery
   * assigns (`Omit<DogPhoto, 'id' | 'userId' | 'createdAt' | 'updatedAt'>`).
   */
  datatype PhotoData = PhotoData(
    title: string,
    description: Option<string>,
    imageUrl: string,
    category: Category,
    isFavorite: bool)

  /** A browser `File`, reduced to the two properties the core reads. */
  datatype File = File(name: string, mimeType: string)

  /** The upload request type; its category ranges over the same five values as a photo's. */
  datatype PhotoUpload = PhotoUpload(
    file: File,
    title: string,
    description: Option<string>,
    category: Category)

  /** The photo with its favourite flag flipped and every other field kept. */
  function FavoriteToggled(p: DogPhoto): (q: DogPhoto)
    ensures q.isFavorite == !p.isFavorite
    ensures q.id == p.id && q.userId == p.userId && q.title == p.title
    ensures q.description == p.description && q.imageUrl == p.imageUrl
    ensures q.category == p.category
    ensures q.createdAt == p.createdAt && q.updatedAt == p.updatedAt
  {
    p.(isFavorite := !p.isFavorite)
  }

  /** Flipping the favourite flag twice gives back the photo. */
  lemma FavoriteToggledTwice(p: DogPhoto)
    ensures FavoriteToggled(FavoriteToggled(p)) == p
  {
  }
}
