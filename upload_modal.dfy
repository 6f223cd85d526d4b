/**
 * The upload dialog's form (src/components/PhotoUploadModal.tsx): file
 * intake, the title derived from the file name, the submit guard and the
 * payload handed to the gallery.
 */
module UploadModal {
  import opened Wrappers
  import opened PhotoTypes
  import opened Text

  // ---------------------------------------------------------------------
  // File intake
  // ---------------------------------------------------------------------

  /** Only files whose MIME type starts with "image/" are taken. */
  predicate IsImageType(mimeType: string)
  {
    StartsWith(mimeType, "image/")
  }

  /**
   * The pattern `\.[^/.]+$` matches at index `i`: a dot, then one or more
   * characters that are neither '/' nor '.', up to the end of the name.
   */
  predicate ExtensionAt(name: string, i: int)
  {
    0 <= i < |name| - 1 && name[i] == '.' &&
    forall j :: i < j < |name| ==> name[j] != '/' && name[j] != '.'
  }

  /** The pattern can match at most once, so the first match is the only one. */
  lemma ExtensionMatchUnique(name: string, i: int, j: int)
    requires ExtensionAt(name, i) && ExtensionAt(name, j)
    ensures i == j
  {
  }

  /** The length of the longest suffix of `name` free of '/' and '.'. */
  function PlainSuffixLength(name: string): (n: nat)
    ensures n <= |name|
    ensures forall j :: |name| - n <= j < |name| ==> name[j] != '/' && name[j] != '.'
    ensures n < |name| ==> name[|name| - 1 - n] == '/' || name[|name| - 1 - n] == '.'
  {
    if name == [] || name[|name| - 1] == '/' || name[|name| - 1] == '.' then 0
    else 1 + PlainSuffixLength(name[..|name| - 1])
  }

  /**
   * `name.replace(/\.[^/.]+$/, '')`: drop the last extension, if there is
   * one. A trailing dot ("file.") and an extension after a '/' are kept; a
   * name that is only an extension (".bashrc") becomes empty.
   */
  function StripExtension(name: string): (r: string)
    ensures forall i :: ExtensionAt(name, i) ==> r == name[..i]
    ensures (forall i :: !ExtensionAt(name, i)) ==> r == name
  {
    var n := PlainSuffixLength(name);
    if 0 < n < |name| && name[|name| - 1 - n] == '.' then
      assert ExtensionAt(name, |name| - 1 - n);
      assert forall i :: ExtensionAt(name, i) ==> i == |name| - 1 - n by {
        forall i | ExtensionAt(name, i) ensures i == |name| - 1 - n {
          ExtensionMatchUnique(name, i, |name| - 1 - n);
        }
      }
      name[..|name| - 1 - n]
    else
      assert forall i :: !ExtensionAt(name, i) by {
        forall i ensures !ExtensionAt(name, i) {
          if n < |name| && 0 <= i < |name| - 1 - n {
            assert name[|name| - 1 - n] == '/' || name[|name| - 1 - n] == '.';
          }
        }
      }
      name
  }

  /** `name.charAt(0).toUpperCase() + name.slice(1)`, over ASCII letters. */
  function Capitalize(name: string): (r: string)
    ensures |r| == |name|
    ensures name != [] ==> r[0] == UpperChar(name[0]) && r[1..] == name[1..]
    ensures ToLower(r) == ToLower(name)
    ensures r == [] || !('a' <= r[0] <= 'z')
  {
    if name == [] then [] else [UpperChar(name[0])] + name[1..]
  }

  /** The title suggested for a selected file. */
  function AutoTitle(fileName: string): string
  {
    Capitalize(StripExtension(fileName))
  }

  /** Only the last extension goes: "a.b.jpg" becomes "a.b". */
  lemma StripExtensionLastOnly()
    ensures StripExtension("a.b.jpg") == "a.b"
  {
    assert ExtensionAt("a.b.jpg", 3);
  }

  /** A trailing dot is not an extension: "file." is kept whole. */
  lemma StripExtensionTrailingDot()
    ensures StripExtension("file.") == "file."
  {
    forall i ensures !ExtensionAt("file.", i) {
      if 0 <= i < 4 { assert "file."[4] == '.'; }
    }
  }

  /** A name that is only an extension becomes empty: ".bashrc" gives "", and so does its suggested title. */
  lemma StripExtensionDotFile()
    ensures StripExtension(".bashrc") == ""
    ensures AutoTitle(".bashrc") == ""
  {
    assert ExtensionAt(".bashrc", 0);
  }

  /** A dot before a '/' does not start an extension: "v1.2/photo" is kept whole. */
  lemma StripExtensionDirectoryDot()
    ensures StripExtension("v1.2/photo") == "v1.2/photo"
  {
    forall i ensures !ExtensionAt("v1.2/photo", i) {
      if 0 <= i < 4 { assert "v1.2/photo"[4] == '/'; }
      else if 4 <= i < 10 { assert "v1.2/photo"[i] != '.'; }
    }
  }

  /** The suggested title drops the extension and capitalises: "golden retriever.png" gives "Golden retriever". */
  lemma AutoTitleExample()
    ensures AutoTitle("golden retriever.png") == "Golden retriever"
  {
    assert ExtensionAt("golden retriever.png", 16);
    assert StripExtension("golden retriever.png") == "golden retriever";
  }

  // ---------------------------------------------------------------------
  // Submission
  // ---------------------------------------------------------------------

  /** `handleSubmit` proceeds only with a file and a title that is not blank. */
  function SubmitGuard(selectedFile: Option<File>, title: string): (ok: bool)
    ensures ok <==> selectedFile.Some? && !AllWhitespace(title)
  {
    TrimEmptyIff(title);
    selectedFile.Some? && Trim(title) != ""
  }

  /** The submit button is enabled: the guard holds and no upload is in progress. */
  function SubmitEnabled(selectedFile: Option<File>, title: string, isUploading: bool): (enabled: bool)
    ensures enabled <==> selectedFile.Some? && !AllWhitespace(title) && !isUploading
    ensures enabled ==> SubmitGuard(selectedFile, title)
  {
    TrimEmptyIff(title);
    selectedFile.Some? && Trim(title) != "" && !isUploading
  }

  /**
   * The fields handed to `onUpload`: the title trimmed, the description
   * trimmed or absent when it is blank, never a favourite.
   */
  function UploadPayload(title: string, description: string, category: Category, imageUrl: string): (d: PhotoData)
    ensures d.title == Trim(title) && d.imageUrl == imageUrl && d.category == category
    ensures !d.isFavorite
    ensures d.description.None? <==> AllWhitespace(description)
    ensures d.description.Some? ==> d.description.value == Trim(description)
  {
    TrimEmptyIff(description);
    var desc := Trim(description);
    PhotoData(Trim(title), if desc != "" then Some(desc) else None, imageUrl, category, false)
  }

  /**
   * A payload sent past the guard has a non-empty title and, if any, a
   * non-empty description, neither with whitespace at either end.
   */
  lemma UploadPayloadClean(selectedFile: Option<File>, title: string, description: string,
                           category: Category, imageUrl: string)
    requires SubmitGuard(selectedFile, title)
    ensures var d := UploadPayload(title, description, category, imageUrl);
      d.title != "" && Trim(d.title) == d.title &&
      (d.description.Some? ==> d.description.value != "" && Trim(d.description.value) == d.description.value)
  {
    TrimEmptyIff(title);
    TrimIsTrimmed(title);
    TrimIsTrimmed(description);
  }

  // ---------------------------------------------------------------------
  // The form state
  // ---------------------------------------------------------------------

  /** The dialog's form fields. */
  class UploadForm {
    var selectedFile: Option<File>
    var preview: Option<string>
    var title: string
    var description: string
    var category: Category
    var isUploading: bool

    /** The fields are at their defaults: no file, no preview, empty texts, uncategorized. */
    predicate IsReset()
      reads this`selectedFile, this`preview, this`title, this`description, this`category
    {
      selectedFile.None? && preview.None? && title == "" && description == "" && category == Uncategorized
    }

    constructor ()
      ensures IsReset() && !isUploading
    {
      selectedFile := None;
      preview := None;
      title := "";
      description := "";
      category := Uncategorized;
      isUploading := false;
    }

    /**
     * `handleFileSelect`: a file that is not an image changes nothing; an
     * image becomes the selected file and, when the title is still empty
     * (a blank but non-empty title is kept), names the photo.
     */
    method HandleFileSelect(file: File)
      modifies this
      ensures IsImageType(file.mimeType) ==> selectedFile == Some(file)
      ensures IsImageType(file.mimeType) ==>
        title == (if old(title) == "" then AutoTitle(file.name) else old(title))
      ensures !IsImageType(file.mimeType) ==> selectedFile == old(selectedFile) && title == old(title)
      ensures preview == old(preview) && description == old(description)
      ensures category == old(category) && isUploading == old(isUploading)
    {
      if IsImageType(file.mimeType) {
        selectedFile := Some(file);
        if title == "" {
          title := Capitalize(StripExtension(file.name));
        }
      }
    }

    /** The file reader has produced the preview's data URL. */
    method PreviewLoaded(dataUrl: string)
      modifies this
      ensures preview == Some(dataUrl)
      ensures selectedFile == old(selectedFile) && title == old(title) && description == old(description)
      ensures category == old(category) && isUploading == old(isUploading)
    {
      preview := Some(dataUrl);
    }

    /** The preview's remove button drops the file and its preview. */
    method RemoveFile()
      modifies this
      ensures selectedFile.None? && preview.None?
      ensures title == old(title) && description == old(description)
      ensures category == old(category) && isUploading == old(isUploading)
    {
      selectedFile := None;
      preview := None;
    }

    method SetTitle(t: string)
      modifies this
      ensures title == t
      ensures selectedFile == old(selectedFile) && preview == old(preview) && description == old(description)
      ensures category == old(category) && isUploading == old(isUploading)
    {
      title := t;
    }

    method SetDescription(d: string)
      modifies this
      ensures description == d
      ensures selectedFile == old(selectedFile) && preview == old(preview) && title == old(title)
      ensures category == old(category) && isUploading == old(isUploading)
    {
      description := d;
    }

    method SetCategory(c: Category)
      modifies this
      ensures category == c
      ensures selectedFile == old(selectedFile) && preview == old(preview) && title == old(title)
      ensures description == old(description) && isUploading == old(isUploading)
    {
      category := c;
    }

    /**
     * `resetForm`: every field back to its default; the upload flag is not
     * touched.
     */
    method ResetForm()
      modifies this
      ensures IsReset() && isUploading == old(isUploading)
    {
      selectedFile := None;
      preview := None;
      title := "";
      description := "";
      category := Uncategorized;
    }

    /**
     * `handleSubmit`. `objectUrl` is the locator created for the file and
     * `uploadFails` whether `onUpload` rejects. Returns the payload handed
     * to `onUpload`, or nothing when the guard stops the submission. A
     * stopped submission changes nothing; otherwise the upload flag ends
     * cleared, and the fields are reset after a successful upload and left
     * as they were after a failed one.
     */
    method HandleSubmit(objectUrl: string, uploadFails: bool) returns (sent: Option<PhotoData>)
      modifies this
      ensures sent == if SubmitGuard(old(selectedFile), old(title))
                      then Some(UploadPayload(old(title), old(description), old(category), objectUrl))
                      else None
      ensures sent.None? ==>
        selectedFile == old(selectedFile) && preview == old(preview) && title == old(title) &&
        description == old(description) && category == old(category) && isUploading == old(isUploading)
      ensures sent.Some? ==> !isUploading
      ensures sent.Some? && !uploadFails ==> IsReset()
      ensures sent.Some? && uploadFails ==>
        selectedFile == old(selectedFile) && preview == old(preview) && title == old(title) &&
        description == old(description) && category == old(category)
    {
      if !SubmitGuard(selectedFile, title) {
        return None;
      }
      isUploading := true;
      sent := Some(UploadPayload(title, description, category, objectUrl));
      if !uploadFails {
        selectedFile := None;
        preview := None;
        title := "";
        description := "";
        category := Uncategorized;
      }
      isUploading := false;
    }
  }
}
