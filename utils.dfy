/** The path and listing helpers of utils.go: splitting a path into directory, stem and extension,
    mapping image stems to extensions, pairing label files with images by stem, the directory listing
    filter and the "first close error wins" helper. Directory listings and file contents are inputs. */
module Utils {
  import opened Common
  import opened Strings
  import Paths
  import IR

  // ----- splitPath -----

  /** The directory (without its trailing separator), the base name without extension, and the
      extension without its dot. */
  datatype PathParts = PathParts(dir: string, baseNoExt: string, ext: string)

  /** splitPath: an error when the final path element has no extension. */
  function SplitPath(path: string): Result<PathParts>
  {
    SplitElem(path, Paths.SplitDirFile(path))
  }

  /** splitPath on the directory part and the final element of path: the extension starts at the
      element's last dot (filepath.Ext of an element without separators, see ExtOfElem). */
  function SplitElem(path: string, split: (string, string)): Result<PathParts>
  {
    var d := Paths.LastIndex(split.1, '.');
    if d < 0 then Err(MissingExtension(path))
    else Ok(PathParts(TrimSuffix(split.0, [Paths.Sep]), split.1[..d], split.1[d + 1..]))
  }

  /** filepath.Ext of a single element starts at its last dot. */
  lemma ExtOfElem(file: string)
    requires Paths.Sep !in file
    ensures var d := Paths.LastIndex(file, '.');
            Paths.Ext(file) == if d < 0 then [] else file[d..]
  {
    Paths.LastIndexNone(file);
    assert Paths.SplitDirFile(file).1 == file;
  }

  /** splitPath fails exactly when the final element holds no dot. Otherwise the stem, a dot and the
      extension make up the final element, the extension holds no dot, and the directory part of the
      path is empty or the returned directory followed by one separator: the parts put back together
      give the path. */
  lemma SplitPathCorrect(path: string)
    ensures var file := Paths.SplitDirFile(path).1;
            SplitPath(path).Err? <==> '.' !in file
    ensures SplitPath(path).Err? ==> SplitPath(path).error == MissingExtension(path)
    ensures SplitPath(path).Ok? ==>
      var p := SplitPath(path).value;
      var split := Paths.SplitDirFile(path);
      && p.baseNoExt + "." + p.ext == split.1
      && '.' !in p.ext && Paths.Sep !in p.baseNoExt && Paths.Sep !in p.ext
      && (split.0 == [] || split.0 == p.dir + [Paths.Sep])
      && path == split.0 + p.baseNoExt + "." + p.ext
  {
    var split := Paths.SplitDirFile(path);
    SplitElemCorrect(path, split.0, split.1);
    if SplitPath(path).Ok? {
      var p := SplitPath(path).value;
      Reassemble(path, split.0, split.1, p.baseNoExt, p.ext);
    }
  }

  lemma Reassemble(path: string, dir: string, file: string, stem: string, ext: string)
    requires dir + file == path && stem + "." + ext == file
    ensures path == dir + stem + "." + ext
  {
  }

  /** SplitElemCorrect for a directory part and a final element without separators. */
  lemma SplitElemCorrect(path: string, dir: string, file: string)
    requires Paths.Sep !in file && (dir == [] || dir[|dir| - 1] == Paths.Sep)
    ensures SplitElem(path, (dir, file)).Err? <==> '.' !in file
    ensures SplitElem(path, (dir, file)).Err? ==> SplitElem(path, (dir, file)).error == MissingExtension(path)
    ensures SplitElem(path, (dir, file)).Ok? ==>
      var p := SplitElem(path, (dir, file)).value;
      && p.baseNoExt + "." + p.ext == file
      && '.' !in p.ext && Paths.Sep !in p.baseNoExt && Paths.Sep !in p.ext
      && (dir == [] || dir == p.dir + [Paths.Sep])
  {
    var d := Paths.LastIndex(file, '.');
    if '.' in file {
      var k :| 0 <= k < |file| && file[k] == '.';
      assert d >= k;
    }
    if d >= 0 {
      DotParts(file, d);
    }
    if dir != [] {
      assert dir == dir[..|dir| - 1] + [Paths.Sep];
    }
  }

  /** An element split at its last dot. */
  lemma DotParts(file: string, d: int)
    requires Paths.Sep !in file && d == Paths.LastIndex(file, '.') && d >= 0
    ensures file[..d] + "." + file[d + 1..] == file
    ensures '.' !in file[d + 1..] && Paths.Sep !in file[..d] && Paths.Sep !in file[d + 1..]
  {
    assert file == file[..d] + "." + file[d + 1..];
    NoSepIn(file, file[..d], "." + file[d + 1..]);
    NoSepIn("." + file[d + 1..], ".", file[d + 1..]);
    var tail := file[d + 1..];
    forall j | 0 <= j < |tail|
      ensures tail[j] != '.'
    {
      assert tail[j] == file[d + 1 + j];
    }
  }

  lemma NoSepIn(file: string, a: string, b: string)
    requires file == a + b && Paths.Sep !in file
    ensures Paths.Sep !in a && Paths.Sep !in b
  {
    assert forall j :: 0 <= j < |a| ==> a[j] == file[j];
    assert forall j :: 0 <= j < |b| ==> b[j] == file[|a| + j];
  }

  // ----- mapFileNamesToExtensions -----

  /** path has an extension and the given stem. */
  predicate HasStem(path: string, stem: string)
  {
    SplitPath(path).Ok? && SplitPath(path).value.baseNoExt == stem
  }

  /** The stem and extension of a path that has an extension. */
  function StemExt(): string -> Option<(string, string)>
  {
    (path: string) => match SplitPath(path)
      case Err(_) => None
      case Ok(p) => Some((p.baseNoExt, p.ext))
  }

  lemma StemExtApplies(path: string)
    ensures StemExt()(path) == match SplitPath(path)
      case Err(_) => None
      case Ok(p) => Some((p.baseNoExt, p.ext))
  {
  }

  /** The stem-to-extension map after the paths are entered in order. */
  function NameExts(paths: seq<string>): map<string, string>
  {
    MapFrom(paths, StemExt())
  }

  /** mapFileNamesToExtensions: paths without an extension are skipped. */
  method MapFileNamesToExtensions(filePaths: seq<string>) returns (mapping: map<string, string>)
    ensures mapping == NameExts(filePaths)
  {
    mapping := map[];
    for i := 0 to |filePaths|
      invariant mapping == MapFrom(filePaths[..i], StemExt())
    {
      MapFromStep(filePaths, i, StemExt());
      StemExtApplies(filePaths[i]);
      var r := SplitPath(filePaths[i]);
      if r.Err? {
        continue;
      }
      mapping := mapping[r.value.baseNoExt := r.value.ext];
    }
    assert filePaths[..|filePaths|] == filePaths;
  }

  /** A stem is mapped exactly when some path with an extension has it, and it is mapped to the
      extension of the last such path. */
  lemma NameExtsLast(paths: seq<string>, stem: string)
    ensures stem in NameExts(paths) <==> exists i :: 0 <= i < |paths| && HasStem(paths[i], stem)
    ensures stem in NameExts(paths) ==>
      exists i :: 0 <= i < |paths| && HasStem(paths[i], stem)
        && NameExts(paths)[stem] == SplitPath(paths[i]).value.ext
        && forall j :: i < j < |paths| ==> !HasStem(paths[j], stem)
  {
    MapFromLast(paths, StemExt(), stem);
    forall i | 0 <= i < |paths|
      ensures HasStem(paths[i], stem) <==> StemExt()(paths[i]).Some? && StemExt()(paths[i]).value.0 == stem
      ensures HasStem(paths[i], stem) ==> StemExt()(paths[i]).value.1 == SplitPath(paths[i]).value.ext
    {
      StemExtApplies(paths[i]);
    }
  }

  // ----- parseLabelsWithOneToOneImages -----

  /** Parses the label file at the first path for the image at the second one. */
  type LabelParser = (string, string) -> Result<IR.AnnotatedFile>

  /** The image of a label file: in imageDir, with the label file's stem and the extension the image
      listing maps that stem to. */
  function ImagePathFor(labelPath: string, names: map<string, string>, imageDir: string): Option<string>
  {
    match SplitPath(labelPath)
    case Err(_) => None
    case Ok(p) =>
      if p.baseNoExt in names then Some(Paths.JoinPath(imageDir, p.baseNoExt + "." + names[p.baseNoExt]))
      else None
  }

  /** The annotated file of one label file, or None when it is skipped. */
  function MatchLabel(names: map<string, string>, imageDir: string, parse: LabelParser)
    : string -> Option<IR.AnnotatedFile>
  {
    (labelPath: string) =>
      match ImagePathFor(labelPath, names, imageDir)
      case None => None
      case Some(imagePath) =>
        match parse(labelPath, imagePath)
        case Ok(f) => Some(f)
        case Err(_) => None
  }

  lemma MatchLabelApplies(names: map<string, string>, imageDir: string, parse: LabelParser, labelPath: string)
    ensures MatchLabel(names, imageDir, parse)(labelPath) ==
      match ImagePathFor(labelPath, names, imageDir)
      case None => None
      case Some(imagePath) =>
        match parse(labelPath, imagePath)
        case Ok(f) => Some(f)
        case Err(_) => None
  {
  }

  /** parseLabelsWithOneToOneImages over given listings of the label and image directories: label
      files without an extension, without an image of the same stem, or that fail to parse are
      skipped, and the others are kept in order. */
  method ParseLabelsWithOneToOneImages(labelFiles: seq<string>, imageFiles: seq<string>, imageDir: string,
                                       parse: LabelParser)
    returns (data: seq<IR.AnnotatedFile>)
    ensures data == FilterMap(labelFiles, MatchLabel(NameExts(imageFiles), imageDir, parse))
  {
    var imageNamesToExt := MapFileNamesToExtensions(imageFiles);
    data := ParseMatching(labelFiles, imageNamesToExt, imageDir, parse);
  }

  /** parseLabelsWithOneToOneImages as a whole: the label files ending with labelFileExt and every file
      of imageDir are listed (the error of the first directory that cannot be listed without error is
      returned), then matched and parsed. */
  method ParseLabelDirs(labelDir: Dir, labelFileExt: string, imageDir: Dir, parse: LabelParser)
    returns (r: Result<seq<IR.AnnotatedFile>>)
    ensures !Lists(labelDir) ==> r == Err(DirError(labelDir))
    ensures Lists(labelDir) && !Lists(imageDir) ==> r == Err(DirError(imageDir))
    ensures Lists(labelDir) && Lists(imageDir) ==>
      r == Ok(FilterMap(DirFiles(labelDir, labelFileExt), MatchLabel(NameExts(DirFiles(imageDir, "")), imageDir.path, parse)))
  {
    // Get the label file paths.
    var labelFiles, err := FilesByExtInDir(labelDir, labelFileExt);
    if err.Some? {
      return Err(err.value);
    }
    // Find the image files.
    var imageFiles, err2 := FilesByExtInDir(imageDir, "");
    if err2.Some? {
      return Err(err2.value);
    }
    var data := ParseLabelsWithOneToOneImages(labelFiles, imageFiles, imageDir.path, parse);
    return Ok(data);
  }

  /** The loop of parseLabelsWithOneToOneImages over the label files, given the image stems. */
  method ParseMatching(labelFiles: seq<string>, imageNamesToExt: map<string, string>, imageDir: string,
                       parse: LabelParser)
    returns (data: seq<IR.AnnotatedFile>)
    ensures data == FilterMap(labelFiles, MatchLabel(imageNamesToExt, imageDir, parse))
  {
    data := [];
    for i := 0 to |labelFiles|
      invariant data == FilterMap(labelFiles[..i], MatchLabel(imageNamesToExt, imageDir, parse))
    {
      FilterMapStep(labelFiles, i, MatchLabel(imageNamesToExt, imageDir, parse));
      var fileData := ParseLabel(labelFiles[i], imageNamesToExt, imageDir, parse);
      if fileData.Some? {
        data := data + [fileData.value];
      }
    }
    assert labelFiles[..|labelFiles|] == labelFiles;
  }

  /** One iteration of parseLabelsWithOneToOneImages: find the image of the label file, then parse. */
  method ParseLabel(labelPath: string, imageNamesToExt: map<string, string>, imageDir: string, parse: LabelParser)
    returns (fileData: Option<IR.AnnotatedFile>)
    ensures fileData == MatchLabel(imageNamesToExt, imageDir, parse)(labelPath)
  {
    MatchLabelApplies(imageNamesToExt, imageDir, parse, labelPath);
    // Find the corresponding image.
    var split := SplitPath(labelPath);
    if split.Err? {
      return None;
    }
    var baseNoExt := split.value.baseNoExt;
    if baseNoExt !in imageNamesToExt {
      return None;
    }
    var imagePath := Paths.JoinPath(imageDir, baseNoExt + "." + imageNamesToExt[baseNoExt]);
    // Parse the label file.
    var r := parse(labelPath, imagePath);
    if r.Err? {
      return None;
    }
    return Some(r.value);
  }

  /** The image chosen for a label file has the label file's stem: its final element is the stem, a
      dot and an extension of a listed image with that stem (when that makes a plain file name). */
  lemma ImagePathPaired(labelPath: string, imageFiles: seq<string>, imageDir: string)
    requires ImagePathFor(labelPath, NameExts(imageFiles), imageDir).Some?
    requires var stem := SplitPath(labelPath).value.baseNoExt;
             Paths.PlainName(stem + "." + NameExts(imageFiles)[stem])
    ensures var stem := SplitPath(labelPath).value.baseNoExt;
            var imagePath := ImagePathFor(labelPath, NameExts(imageFiles), imageDir).value;
            && SplitPath(imagePath).Ok? && SplitPath(imagePath).value.baseNoExt == stem
            && exists i :: 0 <= i < |imageFiles| && HasStem(imageFiles[i], stem)
                 && SplitPath(imagePath).value.ext == SplitPath(imageFiles[i]).value.ext
  {
    var stem := SplitPath(labelPath).value.baseNoExt;
    var names := NameExts(imageFiles);
    NameExtsLast(imageFiles, stem);
    var i :| 0 <= i < |imageFiles| && HasStem(imageFiles[i], stem)
      && names[stem] == SplitPath(imageFiles[i]).value.ext
      && forall j :: i < j < |imageFiles| ==> !HasStem(imageFiles[j], stem);
    SplitPathCorrect(imageFiles[i]);
    SplitOfJoin(imageDir, stem, names[stem]);
  }

  /** A directory joined with a plain name made of a stem, a dot and a dot-free extension splits back
      into that stem and extension. */
  lemma SplitOfJoin(dir: string, stem: string, ext: string)
    requires Paths.PlainName(stem + "." + ext) && '.' !in ext
    ensures var j := Paths.JoinPath(dir, stem + "." + ext);
            SplitPath(j).Ok? && SplitPath(j).value.baseNoExt == stem && SplitPath(j).value.ext == ext
  {
    var name := stem + "." + ext;
    var j := Paths.JoinPath(dir, name);
    Paths.JoinKeepsName(dir, name);
    StemOfName(name, stem, ext);
    SplitElemOfName(j, Paths.SplitDirFile(j), name, stem, ext);
  }

  lemma SplitElemOfName(path: string, split: (string, string), name: string, stem: string, ext: string)
    requires split.1 == name && Paths.LastIndex(name, '.') == |stem|
    requires name[..|stem|] == stem && name[|stem| + 1..] == ext
    ensures SplitElem(path, split).Ok? && SplitElem(path, split).value.baseNoExt == stem
    ensures SplitElem(path, split).value.ext == ext
  {
  }

  /** The last dot of a stem, a dot and a dot-free extension is the one between them. */
  lemma StemOfName(name: string, stem: string, ext: string)
    requires name == stem + "." + ext && '.' !in ext
    ensures Paths.LastIndex(name, '.') == |stem|
    ensures name[..|stem|] == stem && name[|stem| + 1..] == ext
  {
    assert name == stem + ['.'] + ext;
    Paths.LastIndexAt(stem, '.', ext);
  }

  // ----- filesByExtInDir -----

  /** A directory entry: its name and whether it is a regular file or a symbolic link. */
  datatype DirEntry = DirEntry(name: string, regular: bool, symlink: bool)

  /** The directory path with one trailing separator. */
  function WithSep(dirPath: string): string
  {
    if HasSuffix(dirPath, [Paths.Sep]) then dirPath else dirPath + [Paths.Sep]
  }

  /** The path of an entry that is listed: a regular file or a symlink whose name ends with ext. */
  function EntryPath(pathWithSep: string, ext: string): DirEntry -> Option<string>
  {
    (e: DirEntry) => if Listable(e, ext) then Some(pathWithSep + e.name) else None
  }

  lemma EntryPathApplies(pathWithSep: string, ext: string, e: DirEntry)
    ensures EntryPath(pathWithSep, ext)(e)
      == if Listable(e, ext) then Some(pathWithSep + e.name) else None
  {
  }

  /** A directory as filesByExtInDir meets it: its path, whether it is a directory that can be opened,
      the entries its reads return, and the error of closing it, if any. */
  datatype Dir = Dir(path: string, readable: bool, entries: seq<DirEntry>, closeErr: Option<Error>)

  /** The directory is listed without error: it opens, and it closes cleanly. */
  predicate Lists(dir: Dir)
  {
    dir.readable && dir.closeErr.None?
  }

  /** The error of a directory that is not listed without error. */
  function DirError(dir: Dir): Error
    requires !Lists(dir)
  {
    if !dir.readable then ReadFailed(dir.path) else dir.closeErr.value
  }

  /** The paths filesByExtInDir lists in a readable directory. */
  function DirFiles(dir: Dir, ext: string): seq<string>
  {
    FilterMap(dir.entries, EntryPath(WithSep(dir.path), ext))
  }

  /** filesByExtInDir: no files and an error when the directory cannot be opened; otherwise the listed
      paths in entry order, and the error of the deferred close, which replaces the nil the function
      returns. */
  method FilesByExtInDir(dir: Dir, ext: string) returns (files: seq<string>, err: Option<Error>)
    ensures !dir.readable ==> files == [] && err == Some(ReadFailed(dir.path))
    ensures dir.readable ==> files == DirFiles(dir, ext) && err == dir.closeErr
    ensures err.None? <==> Lists(dir)
    ensures err.Some? ==> err.value == DirError(dir)
  {
    if !dir.readable {
      return [], Some(ReadFailed(dir.path));
    }
    var slot := new ErrorSlot(None);
    var pathWithSep := dir.path;
    if !HasSuffix(dir.path, [Paths.Sep]) {
      pathWithSep := dir.path + [Paths.Sep];
    }
    files := ListEntries(pathWithSep, dir.entries, ext);
    // The deferred close runs after the function has returned a nil error.
    slot.CloseWithErrCheck(dir.closeErr);
    err := slot.err;
  }

  /** The loop of filesByExtInDir over the entries read from the directory. */
  method ListEntries(pathWithSep: string, entries: seq<DirEntry>, ext: string) returns (files: seq<string>)
    ensures files == FilterMap(entries, EntryPath(pathWithSep, ext))
  {
    files := [];
    for i := 0 to |entries|
      invariant files == FilterMap(entries[..i], EntryPath(pathWithSep, ext))
    {
      FilterMapStep(entries, i, EntryPath(pathWithSep, ext));
      var path := ListedPath(pathWithSep, entries[i], ext);
      if path.Some? {
        files := files + [path.value];
      }
    }
    assert entries[..|entries|] == entries;
  }

  /** The path of one entry when it is listed. */
  method ListedPath(pathWithSep: string, file: DirEntry, ext: string) returns (path: Option<string>)
    ensures path == EntryPath(pathWithSep, ext)(file)
  {
    EntryPathApplies(pathWithSep, ext, file);
    // Must be a regular file or a symlink and have the requested extension/suffix.
    if (!file.regular && !file.symlink) || !HasSuffix(file.name, ext) {
      return None;
    }
    return Some(pathWithSep + file.name);
  }

  /** A regular file or symlink whose name ends with ext. */
  predicate Listable(e: DirEntry, ext: string)
  {
    (e.regular || e.symlink) && HasSuffix(e.name, ext)
  }

  /** path is the directory with a separator followed by the name of a listable entry. */
  predicate ListedFrom(path: string, pathWithSep: string, entries: seq<DirEntry>, ext: string)
  {
    exists i :: 0 <= i < |entries| && path == pathWithSep + entries[i].name && Listable(entries[i], ext)
  }

  /** Every listed path is the directory with a separator followed by the name of a regular file or
      symlink ending with ext. */
  lemma FilesByExtSound(pathWithSep: string, entries: seq<DirEntry>, ext: string)
    ensures var files := FilterMap(entries, EntryPath(pathWithSep, ext));
            forall k :: 0 <= k < |files| ==> ListedFrom(files[k], pathWithSep, entries, ext)
  {
    var f := EntryPath(pathWithSep, ext);
    var files := FilterMap(entries, f);
    forall k | 0 <= k < |files|
      ensures ListedFrom(files[k], pathWithSep, entries, ext)
    {
      FilterMapFrom(entries, k, f);
      var i :| 0 <= i < |entries| && f(entries[i]) == Some(files[k]) && |FilterMap(entries[..i], f)| == k;
      EntryPathApplies(pathWithSep, ext, entries[i]);
      assert files[k] == pathWithSep + entries[i].name && Listable(entries[i], ext);
    }
  }

  /** Every regular file or symlink whose name ends with ext is listed, right after the paths of the
      entries before it. */
  lemma FilesByExtComplete(pathWithSep: string, entries: seq<DirEntry>, ext: string)
    ensures var files := FilterMap(entries, EntryPath(pathWithSep, ext));
            forall i :: 0 <= i < |entries| && Listable(entries[i], ext) ==>
              var r := |FilterMap(entries[..i], EntryPath(pathWithSep, ext))|;
              r < |files| && files[r] == pathWithSep + entries[i].name
  {
    var f := EntryPath(pathWithSep, ext);
    var files := FilterMap(entries, f);
    forall i | 0 <= i < |entries| && Listable(entries[i], ext)
      ensures var r := |FilterMap(entries[..i], f)|; r < |files| && files[r] == pathWithSep + entries[i].name
    {
      EntryPathApplies(pathWithSep, ext, entries[i]);
      FilterMapAt(entries, i, f);
    }
  }

  /** Every name ends with the empty suffix, so an empty ext lists every regular file and symlink. */
  lemma EmptySuffix(name: string)
    ensures HasSuffix(name, "")
  {
    assert name[|name|..] == [];
  }

  // ----- closeWithErrCheck -----

  /** The named error result of a function that closes a resource in a deferred call. */
  class ErrorSlot {
    var err: Option<Error>

    constructor (err: Option<Error>)
      ensures this.err == err
    {
      this.err := err;
    }

    /** closeWithErrCheck: a failed close is recorded only when no error is recorded yet. */
    method CloseWithErrCheck(closeErr: Option<Error>)
      modifies this
      ensures err == KeepFirst(old(err), closeErr)
    {
      if closeErr.Some? && err.None? {
        err := closeErr;
      }
    }
  }
}
