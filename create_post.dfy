/** The new-post page: pick an image file, preview it, remove it, and share
    the post (a simulated upload). */
module CreatePost {
  import opened Wrappers
  import opened Text
  import opened Toasts

  /** A file from the picker: its name, its MIME type and the data URL the
      file reader produces for it. */
  datatype PickedFile = PickedFile(name: string, mimeType: string, dataUrl: string)

  const NotAnImage := "Please select an image file"
  const NoImage := "Please select an image"

  /** The picker's MIME guard. */
  predicate IsImage(f: PickedFile)
    ensures IsImage(f) <==> exists subtype :: f.mimeType == "image/" + subtype
  {
    if StartsWith(f.mimeType, "image/") then
      assert f.mimeType == "image/" + f.mimeType[6..];
      true
    else
      false
  }

  /** The guard is a case-sensitive prefix test on the MIME type. */
  lemma MimeGuardExamples()
    ensures IsImage(PickedFile("a.png", "image/png", "data:image/png;base64,"))
    ensures !IsImage(PickedFile("A.PNG", "IMAGE/PNG", "data:image/png;base64,"))
    ensures !IsImage(PickedFile("a.txt", "text/plain", "data:text/plain;base64,"))
    ensures !IsImage(PickedFile("a", "", ""))
  {
    assert "IMAGE/PNG"[0] != "image/"[0];
  }

  /** The value a browser gives a file input once a file is picked: a
      made-up directory followed by the file's name, never empty. */
  function FakePath(name: string): (v: string)
    ensures |v| > |name| && v[|v| - |name|..] == name
  {
    "C:\\fakepath\\" + name
  }

  /** A browser fires the input's change event only when a pick changes the
      input's value. */
  predicate FiresChange(inputValue: string, f: PickedFile)
  {
    FakePath(f.name) != inputValue
  }

  /** Picking the same file twice in a row fires no second change, while
      after the input's value is reset to "" the same pick fires again: the
      reason the remove button clears the input. */
  lemma ResetLetsSameFileFireAgain(f: PickedFile)
    ensures !FiresChange(FakePath(f.name), f)
    ensures FiresChange("", f)
  {
  }

  /** JavaScript truthiness of `selectedImage`: set and not "". */
  predicate HasImage(selected: Option<string>)
  {
    selected.Some? && selected.value != ""
  }

  class CreatePostPage {
    var selectedImage: Option<string>
    var caption: string
    var isPosting: bool
    /** The hidden file input's `value`. */
    var fileInputValue: string

    constructor ()
      ensures selectedImage.None? && caption == "" && !isPosting && fileInputValue == ""
    {
      selectedImage := None;
      caption := "";
      isPosting := false;
      fileInputValue := "";
    }

    method SetCaption(text: string)
      modifies this`caption
      ensures caption == text
    {
      caption := text;
    }

    /** A pick in the file dialog followed by the picker's change handler;
        the file reader's load is taken to complete at once. The browser
        sets the input's value to the picked file, or clears it when the
        dialog returns no file. No file leaves the preview alone; a file that
        is not an image is refused with a notice; an image becomes the
        preview. */
    method HandleImageSelect(file: Option<PickedFile>) returns (notice: Option<Toast>)
      modifies this`selectedImage, this`fileInputValue
      ensures fileInputValue == if file.Some? then FakePath(file.value.name) else ""
      ensures file.None? ==> selectedImage == old(selectedImage) && notice.None?
      ensures file.Some? && !IsImage(file.value) ==>
        selectedImage == old(selectedImage) && notice == Some(Failure(NotAnImage))
      ensures file.Some? && IsImage(file.value) ==>
        selectedImage == Some(file.value.dataUrl) && notice.None?
    {
      fileInputValue := if file.Some? then FakePath(file.value.name) else "";
      notice := None;
      if file.Some? {
        if !IsImage(file.value) {
          notice := Some(Failure(NotAnImage));
          return;
        }
        selectedImage := Some(file.value.dataUrl);
      }
    }

    method HandleRemoveImage()
      modifies this`selectedImage, this`fileInputValue
      ensures selectedImage.None? && fileInputValue == ""
    {
      selectedImage := None;
      fileInputValue := "";
    }

    /** The share button is disabled with no image or while posting. */
    predicate ShareDisabled()
      reads this
      ensures !ShareDisabled() <==> HasImage(selectedImage) && !isPosting
    {
      !HasImage(selectedImage) || isPosting
    }

    /** `handlePost` up to its simulated delay: without an image it reports
        an error and posting never starts. */
    method BeginPost() returns (err: Option<Toast>)
      modifies this`isPosting
      ensures !HasImage(selectedImage) ==> err == Some(Failure(NoImage)) && isPosting == old(isPosting)
      ensures HasImage(selectedImage) ==> err.None? && isPosting
    {
      if !HasImage(selectedImage) {
        return Some(Failure(NoImage));
      }
      isPosting := true;
      err := None;
    }

    /** `handlePost` after the delay. The caption is not sent anywhere. */
    method FinishPost() returns (notice: Toast, navigateTo: string)
      modifies this`isPosting
      ensures !isPosting && notice == Success("Post shared successfully!") && navigateTo == "/"
    {
      isPosting := false;
      notice := Success("Post shared successfully!");
      navigateTo := "/";
    }

    method HandlePost() returns (notice: Toast, navigateTo: Option<string>)
      modifies this`isPosting
      ensures !HasImage(selectedImage) ==>
        notice == Failure(NoImage) && navigateTo.None? && isPosting == old(isPosting)
      ensures HasImage(selectedImage) ==>
        notice == Success("Post shared successfully!") && navigateTo == Some("/") && !isPosting
    {
      var err := BeginPost();
      if err.Some? {
        return err.value, None;
      }
      var path;
      notice, path := FinishPost();
      navigateTo := Some(path);
    }
  }
}
