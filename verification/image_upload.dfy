/** `Avatar` and `HeaderImageUploader`: upload a chosen image to the
    `avatars` storage bucket under the user's folder, then point the
    profile at its public URL. The two differ only in the sub-folder and
    the profile column. */
module ImageUpload {
  import opened Results
  import opened Seqs

  datatype Kind = AvatarImage | HeaderImage

  /** The part of a chosen file the handler reads. */
  datatype ChosenFile = ChosenFile(name: string)

  /** The remote calls, in the order issued. */
  datatype Call =
    | Upload(bucket: string, path: string)
    | UpdateProfile(userId: string, column: string, url: string)

  datatype Failure = NoFileSelected | UploadFailed(uploadError: string) | UpdateFailed(updateError: string)

  /** The displayed image URL and the busy flag. */
  datatype State = State(url: Option<string>, uploading: bool)

  /** What a run of the handler did. */
  datatype Finished = Finished(state: State, calls: seq<Call>, failure: Option<Failure>)

  const Bucket: string := "avatars"
  const NoFileMessage: string := "You must select an image to upload."

  function FailureMessage(f: Failure): string
  {
    match f
    case NoFileSelected => NoFileMessage
    case UploadFailed(m) => m
    case UpdateFailed(m) => m
  }

  function Column(kind: Kind): string
  {
    match kind
    case AvatarImage => "avatar_url"
    case HeaderImage => "header_url"
  }

  /** `name.split('.').pop()`. */
  function Extension(name: string): string
  {
    Last(Split(name, '.'))
  }

  /** The extension is the text after the last `.`: the whole name when it
      has no `.`, and empty when it ends in one. */
  lemma ExtensionIsTextAfterLastDot(name: string)
    ensures var ext := Extension(name);
            && |ext| <= |name| && ext == name[|name| - |ext|..]
            && '.' !in ext
            && (|ext| == |name| <==> '.' !in name)
            && (|ext| < |name| ==> name[|name| - |ext| - 1] == '.')
  {
    LastSplitIsTail(name, '.');
    var ext := Extension(name);
    if |ext| == |name| {
      assert ext == name;
    }
  }

  /** Whatever precedes the last dot, the extension is what follows it. */
  lemma ExtensionAfterLastDot(stem: string, ext: string)
    requires '.' !in ext
    ensures Extension(stem + "." + ext) == ext
  {
    var n := stem + "." + ext;
    ExtensionIsTextAfterLastDot(n);
    var e := Extension(n);
    assert n[|stem|] == '.';
    assert ext == n[|n| - |ext|..];
  }

  /** A name with one dot: the text after it. */
  lemma ExtensionOfPhotoPng()
    ensures Extension("photo.png") == "png"
  {
    assert "photo.png" == "photo" + "." + "png";
    ExtensionAfterLastDot("photo", "png");
  }

  /** No dot: the whole name. A trailing dot: nothing. */
  lemma ExtensionWithoutDot()
    ensures Extension("README") == "README"
  {
    ExtensionIsTextAfterLastDot("README");
  }

  lemma ExtensionAfterTrailingDot()
    ensures Extension("name.") == ""
  {
    ExtensionIsTextAfterLastDot("name.");
  }

  /** The storage path for the random file-name stem `token`. */
  function StoragePath(kind: Kind, userId: string, token: string, ext: string): string
  {
    match kind
    case AvatarImage => userId + "/" + token + "." + ext
    case HeaderImage => userId + "/headers/" + token + "." + ext
  }

  /** Both paths sit in the user's folder, and a header path never equals
      the avatar path built from the same token and extension. */
  lemma PathsInUserFolder(userId: string, token: string, ext: string)
    ensures forall kind: Kind :: StoragePath(kind, userId, token, ext)[..|userId| + 1] == userId + "/"
    ensures StoragePath(HeaderImage, userId, token, ext) != StoragePath(AvatarImage, userId, token, ext)
  {
    assert |StoragePath(HeaderImage, userId, token, ext)| == |StoragePath(AvatarImage, userId, token, ext)| + 8;
  }

  /** The change handler. `files` is the input's file list (`None` when
      there is none); `token` stands for the `Math.random()` stem;
      `publicUrl` is the storage client's public URL for a path. */
  function HandleUpload(kind: Kind, s: State, userId: string, files: Option<seq<ChosenFile>>, token: string,
                        upload: Outcome<Unit>, publicUrl: string -> string, update: Outcome<Unit>): (r: Finished)
    ensures !r.state.uploading
    // No file: nothing is uploaded and the image stays.
    ensures files.None? || files.value == [] ==>
              r == Finished(s.(uploading := false), [], Some(NoFileSelected))
    // Otherwise the first call uploads the first file to the user's folder.
    ensures files.Some? && files.value != [] ==>
              var path := StoragePath(kind, userId, token, Extension(files.value[0].name));
              && |r.calls| >= 1 && r.calls[0] == Upload(Bucket, path)
              && (upload.Err? ==> r.calls == [Upload(Bucket, path)] && r.failure == Some(UploadFailed(upload.message)))
              && (upload.Ok? ==> r.calls == [Upload(Bucket, path), UpdateProfile(userId, Column(kind), publicUrl(path))])
              && (upload.Ok? && update.Err? ==> r.failure == Some(UpdateFailed(update.message)))
              && (upload.Ok? && update.Ok? ==> r.state.url == Some(publicUrl(path)) && r.failure == None)
    // The image changes only when both the upload and the update succeed.
    ensures r.failure.Some? ==> r.state.url == s.url
    ensures r.failure.None? <==> files.Some? && files.value != [] && upload.Ok? && update.Ok?
  {
    if files.None? || files.value == [] then
      Finished(s.(uploading := false), [], Some(NoFileSelected))
    else
      var path := StoragePath(kind, userId, token, Extension(files.value[0].name));
      var put := Upload(Bucket, path);
      match upload
      case Err(m) => Finished(s.(uploading := false), [put], Some(UploadFailed(m)))
      case Ok(_) =>
        var url := publicUrl(path);
        var calls := [put, UpdateProfile(userId, Column(kind), url)];
        match update
        case Err(m) => Finished(s.(uploading := false), calls, Some(UpdateFailed(m)))
        case Ok(_) => Finished(State(Some(url), false), calls, None)
  }
}
