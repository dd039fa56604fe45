/** The media classifier: the file-name suffix as Go's `filepath.Ext` takes it, looked up in `mediaTypes`. */
module Media {

  /** The only path separator of `filepath` on Unix. */
  const Separator: char := '/'

  /** The `mediaTypes` table; keys are compared case-sensitively. */
  const MediaTypes: map<string, string> := map[
    ".jpeg" := "image",
    ".jpg" := "image",
    ".gif" := "image",
    ".png" := "image",
    ".mov" := "video",
    ".mp4" := "video",
    ".avi" := "video",
    ".flv" := "video",
    ".wmv" := "video"
  ]

  const ImageSuffixes: set<string> := {".jpeg", ".jpg", ".gif", ".png"}
  const VideoSuffixes: set<string> := {".mov", ".mp4", ".avi", ".flv", ".wmv"}

  /** Some '/' lies after position `j` of `path`. */
  ghost predicate SeparatorAfter(path: string, j: nat)
  {
    exists k :: j < k < |path| && path[k] == Separator
  }

  /** `s` is the extension of `path`: empty when no '.' lies in the final path element,
      otherwise the suffix of `path` from the last '.' of that element. */
  ghost predicate IsExtension(path: string, s: string)
  {
    if s == [] then
      forall j :: 0 <= j < |path| && path[j] == '.' ==> SeparatorAfter(path, j)
    else
      |s| <= |path| && s == path[|path| - |s|..] && s[0] == '.' &&
      forall j :: 1 <= j < |s| ==> s[j] != '.' && s[j] != Separator
  }

  /** The scan of `filepath.Ext`: from index `i` down, stop at a separator (no extension)
      or return the suffix starting at the first '.' met. */
  function ExtScan(path: string, i: int): (r: string)
    requires -1 <= i < |path|
    ensures r == [] ==> forall j :: 0 <= j <= i && path[j] == '.' ==> exists k :: j < k <= i && path[k] == Separator
    ensures r != [] ==> |r| <= |path| && r == path[|path| - |r|..] && r[0] == '.' && |path| - |r| <= i
    ensures r != [] ==> forall j :: |path| - |r| < j <= i ==> path[j] != '.' && path[j] != Separator
    decreases i + 1
  {
    if i < 0 || path[i] == Separator then ""
    else if path[i] == '.' then path[i..]
    else ExtScan(path, i - 1)
  }

  /** `filepath.Ext(path)`. */
  function Ext(path: string): (r: string)
    ensures IsExtension(path, r)
  {
    var r := ExtScan(path, |path| - 1);
    if r == [] then
      assert forall j :: 0 <= j < |path| && path[j] == '.' ==> SeparatorAfter(path, j);
      r
    else
      assert forall j :: 1 <= j < |r| ==> r[j] == path[|path| - |r| + j];
      r
  }

  /** The characterisation of `Ext` admits one suffix only, so it is a complete reference for it. */
  lemma ExtensionUnique(path: string, s: string)
    requires IsExtension(path, s)
    ensures s == Ext(path)
  {
  }

  /** The table lookup with its "unknown" fallback. */
  function MediaKind(suffix: string): (kind: string)
    ensures kind == "image" <==> suffix in ImageSuffixes
    ensures kind == "video" <==> suffix in VideoSuffixes
    ensures kind == "unknown" <==> suffix !in MediaTypes
    ensures suffix in MediaTypes ==> kind == MediaTypes[suffix]
  {
    if suffix in MediaTypes then MediaTypes[suffix] else "unknown"
  }

  /** The media type `handlerPost` gives an attachment with file name `fileName`. */
  function Classify(fileName: string): (kind: string)
    ensures kind in {"image", "video", "unknown"}
    ensures kind == "image" <==> Ext(fileName) in ImageSuffixes
    ensures kind == "video" <==> Ext(fileName) in VideoSuffixes
  {
    MediaKind(Ext(fileName))
  }

  /** The lookup is case-sensitive, a name without a suffix is "unknown", and only the last
      suffix of the final path element counts. */
  lemma ClassifyExamples()
    ensures Classify("photo.JPG") == "unknown"
    ensures Classify("photo.jpg") == "image"
    ensures Classify("README") == "unknown"
    ensures Classify("photo.") == "unknown"
    ensures Classify("clip.jpg.mp4") == "video"
    ensures Classify("album.png/notes") == "unknown"
  {
    ExtensionUnique("photo.JPG", ".JPG");
    ExtensionUnique("photo.jpg", ".jpg");
    ExtensionUnique("photo.", ".");
    ExtensionUnique("clip.jpg.mp4", ".mp4");
    assert SeparatorAfter("album.png/notes", 5) by {
      assert "album.png/notes"[9] == Separator;
    }
    ExtensionUnique("album.png/notes", "");
  }
}
