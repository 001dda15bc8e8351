/** src/image_loader.py: choosing the question images of a directory and
    their MIME types.

    The file system is an input: the directory is missing, is a file rather
    than a directory, or lists its entry names in whatever order `iterdir`
    yields them; the image
    validator (`validate_image`, which catches every exception and answers
    False) and the byte reader are functions of the file's path. */
module Images {
  import opened Common
  import Config
  import Paths

  /** One loaded question: `(file_path.name, image_bytes, mime_type)`. */
  datatype Image = Image(filename: string, bytes: seq<bv8>, mimeType: string)

  /** What `exists()` and `iterdir` see: nothing at the path, a path that
      exists but is not a directory, or a directory and its entry names. */
  datatype Directory = Missing | NotADirectory | Present(entries: seq<string>)

  /** The text of the `NotADirectoryError` that `iterdir` raises on a path
      that exists but is not a directory. */
  function NotADirectoryMessage(directory: string): (m: string)
    ensures |m| == |directory| + 30 && m[29..|m| - 1] == directory && m[|m| - 1] == '\''
    ensures m != "Directory not found: " + directory
  {
    "[Errno 20] Not a directory: '" + directory + "'"
  }

  /** `path.suffix.lower() in SUPPORTED_FORMATS`. */
  predicate IsSupported(name: string)
  {
    Lower(Paths.Suffix(name)) in Config.SupportedFormats
  }

  /** The suffix table of `get_mime_type` (written out again, identically, in
      `get_image` and `process_session` of server.py), with its default. */
  function MimeForSuffix(suffix: string): string
  {
    var table := map[".jpg" := "image/jpeg", ".jpeg" := "image/jpeg", ".png" := "image/png",
                     ".gif" := "image/gif", ".webp" := "image/webp"];
    if suffix in table then table[suffix] else "image/jpeg"
  }

  /** `get_mime_type(path)`: the type of the lower-cased suffix; any other
      suffix, and a name without one, is taken as JPEG. */
  function MimeType(name: string): (m: string)
    ensures m in {"image/jpeg", "image/png", "image/gif", "image/webp"}
    ensures m == "image/png" <==> Lower(Paths.Suffix(name)) == ".png"
    ensures m == "image/gif" <==> Lower(Paths.Suffix(name)) == ".gif"
    ensures m == "image/webp" <==> Lower(Paths.Suffix(name)) == ".webp"
    ensures m == "image/jpeg" <==> Lower(Paths.Suffix(name)) !in {".png", ".gif", ".webp"}
  {
    MimeForSuffix(Lower(Paths.Suffix(name)))
  }

  /** The type does not depend on the case of the name. */
  lemma MimeTypeIgnoresCase(name: string)
    ensures MimeType(Lower(name)) == MimeType(name)
    ensures IsSupported(Lower(name)) == IsSupported(name)
  {
    Paths.SuffixLower(name);
    LowerIdempotent(Paths.Suffix(name));
  }

  /** What each supported extension maps to, in any case. */
  lemma MimeTypeOfExtension(stem: string, ext: string)
    requires stem != [] && ext != [] && '.' !in ext
    ensures Lower("." + ext) == ".jpg" || Lower("." + ext) == ".jpeg" ==> MimeType(stem + "." + ext) == "image/jpeg"
    ensures Lower("." + ext) == ".png" ==> MimeType(stem + "." + ext) == "image/png"
    ensures Lower("." + ext) == ".gif" ==> MimeType(stem + "." + ext) == "image/gif"
    ensures Lower("." + ext) == ".webp" ==> MimeType(stem + "." + ext) == "image/webp"
    ensures IsSupported(stem + "." + ext) <==> Lower("." + ext) in Config.SupportedFormats
  {
    Paths.SuffixOfStemAndExtension(stem, ext);
  }

  /** The entries `scan_directory` keeps: `sorted(iterdir())`, then the supported ones. */
  function Selected(entries: seq<string>): seq<string>
  {
    Filter(Paths.Sort(entries), IsSupported)
  }

  lemma {:induction false} FilterAscending(s: seq<string>, p: string -> bool)
    requires Paths.Ascending(s)
    ensures Paths.Ascending(Filter(s, p))
  {
    if s != [] {
      var init := s[..|s| - 1];
      var last := s[|s| - 1];
      assert Paths.Ascending(init);
      FilterAscending(init, p);
      var f := Filter(init, p);
      forall i | 0 <= i < |f| ensures Paths.Below(f[i], last) {
        FilterMembership(init, p, f[i]);
        var k :| 0 <= k < |init| && init[k] == f[i];
        assert s[k] == f[i];
      }
    }
  }

  /** `scan_directory` returns each supported entry exactly as often as the
      listing has it, none of the others, in ascending name order. */
  lemma SelectedExactly(entries: seq<string>, x: string)
    ensures multiset(Selected(entries))[x] == if IsSupported(x) then multiset(entries)[x] else 0
    ensures x in Selected(entries) <==> x in entries && IsSupported(x)
    ensures Paths.Ascending(Selected(entries))
  {
    FilterCounts(Paths.Sort(entries), IsSupported, x);
    FilterMembership(Paths.Sort(entries), IsSupported, x);
    assert x in Paths.Sort(entries) <==> x in multiset(Paths.Sort(entries));
    Paths.SortAscending(entries);
    FilterAscending(Paths.Sort(entries), IsSupported);
  }

  /** The image `load_all` builds for a scanned file. */
  function Load(directory: string, name: string, read: string -> seq<bv8>): Image
  {
    Image(name, read(Paths.Join(directory, name)), MimeType(name))
  }

  /** The scanned files that pass validation, in scan order. */
  function Validated(directory: string, files: seq<string>, valid: string -> bool): seq<string>
  {
    Filter(files, (name: string) => valid(Paths.Join(directory, name)))
  }

  /** The list `load_all` accumulates over the scanned files. */
  function LoadedImages(directory: string, files: seq<string>, valid: string -> bool,
                        read: string -> seq<bv8>): seq<Image>
  {
    if files == [] then []
    else
      var name := files[|files| - 1];
      LoadedImages(directory, files[..|files| - 1], valid, read)
      + (if valid(Paths.Join(directory, name)) then [Load(directory, name, read)] else [])
  }

  /** One more scanned file adds its image when it passes validation. */
  lemma LoadedStep(directory: string, files: seq<string>, i: nat, valid: string -> bool,
                   read: string -> seq<bv8>)
    requires i < |files|
    ensures LoadedImages(directory, files[..i + 1], valid, read)
            == LoadedImages(directory, files[..i], valid, read)
               + (if valid(Paths.Join(directory, files[i])) then [Load(directory, files[i], read)] else [])
  {
    assert files[..i + 1][..i] == files[..i];
  }

  /** `load_all` keeps exactly the files that pass validation, in scan
      order, each as (name, bytes, MIME type of the name). */
  lemma {:induction false} LoadedExactly(directory: string, files: seq<string>, valid: string -> bool,
                                         read: string -> seq<bv8>)
    ensures var kept := Validated(directory, files, valid);
      |LoadedImages(directory, files, valid, read)| == |kept|
      && forall k :: 0 <= k < |kept| ==> LoadedImages(directory, files, valid, read)[k] == Load(directory, kept[k], read)
  {
    if files != [] {
      LoadedExactly(directory, files[..|files| - 1], valid, read);
    }
  }

  class ImageLoader {
    const directory: string

    constructor (directory: string)
      ensures this.directory == directory
    {
      this.directory := directory;
    }

    /** `scan_directory()`: `FileNotFoundError` for a missing directory,
        `NotADirectoryError` from `iterdir` for a path that is not one,
        otherwise the supported entries in sorted order. */
    method ScanDirectory(dir: Directory) returns (r: Result<seq<string>, string>)
      ensures r.Failure? <==> !dir.Present?
      ensures dir.Missing? ==> r == Failure("Directory not found: " + directory)
      ensures dir.NotADirectory? ==> r == Failure(NotADirectoryMessage(directory))
      ensures r.Success? ==> r.value == Selected(dir.entries)
    {
      if dir.Missing? {
        return Failure("Directory not found: " + directory);
      }
      if dir.NotADirectory? {
        return Failure(NotADirectoryMessage(directory));
      }
      var sorted := Paths.Sort(dir.entries);
      var imageFiles: seq<string> := [];
      for i := 0 to |sorted|
        invariant imageFiles == Filter(sorted[..i], IsSupported)
      {
        assert sorted[..i + 1][..i] == sorted[..i];
        if IsSupported(sorted[i]) {
          imageFiles := imageFiles + [sorted[i]];
        }
      }
      assert sorted[..|sorted|] == sorted;
      r := Success(imageFiles);
    }

    /** `load_all()`: the scan's error propagates; otherwise every scanned
        file that passes validation, in scan order, with its bytes and type. */
    method LoadAll(dir: Directory, valid: string -> bool, read: string -> seq<bv8>) returns (r: Result<seq<Image>, string>)
      ensures r.Failure? <==> !dir.Present?
      ensures dir.Missing? ==> r == Failure("Directory not found: " + directory)
      ensures dir.NotADirectory? ==> r == Failure(NotADirectoryMessage(directory))
      ensures dir.Present? && Selected(dir.entries) == [] ==> r == Success([])
      ensures r.Success? ==> r.value == LoadedImages(directory, Selected(dir.entries), valid, read)
    {
      var scanned := ScanDirectory(dir);
      if scanned.Failure? {
        return Failure(scanned.error);
      }
      var imageFiles := scanned.value;
      if imageFiles == [] {
        return Success([]);
      }
      var loaded: seq<Image> := [];
      for i := 0 to |imageFiles|
        invariant loaded == LoadedImages(directory, imageFiles[..i], valid, read)
      {
        LoadedStep(directory, imageFiles, i, valid, read);
        var path := Paths.Join(directory, imageFiles[i]);
        if valid(path) {
          var bytes := read(path);
          var mimeType := MimeType(imageFiles[i]);
          loaded := loaded + [Image(imageFiles[i], bytes, mimeType)];
        }
      }
      assert imageFiles[..|imageFiles|] == imageFiles;
      r := Success(loaded);
    }
  }
}
