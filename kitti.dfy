/** The KITTI object-detection label format of kitti.go: one text line per annotation, with the label
    as token 0, the box as tokens 4 to 7 and an optional score as token 15. Reading and writing files
    are inputs; float parsing and formatting are function parameters. */
module Kitti {
  import opened Common
  import opened Strings
  import Paths
  import Utils
  import IR

  /** One annotation of a KITTI label file: x1, y1, x2, y2, the label and the optional score. */
  datatype KittiAnnotation = KittiAnnotation(coords: IR.Coords, name: string, score: real)

  /** The KITTI annotations of one image. */
  datatype KittiFile = KittiFile(annotations: seq<KittiAnnotation>, filePath: string)

  /** strconv.ParseFloat: the value of a token, or None when it does not parse. */
  type FloatParser = string -> Option<real>

  // ----- parseKittiAnnotation -----

  /** Tokens 4 to 7 (the box) all parse. */
  predicate CoordsParse(tokens: seq<string>, parse: FloatParser)
    requires |tokens| >= 8
  {
    forall j :: 4 <= j < 8 ==> parse(tokens[j]).Some?
  }

  /** The box read from tokens 4 to 7. */
  function CoordsOf(tokens: seq<string>, parse: FloatParser): IR.Coords
    requires |tokens| >= 8 && CoordsParse(tokens, parse)
  {
    [parse(tokens[4]).value, parse(tokens[5]).value, parse(tokens[6]).value, parse(tokens[7]).value]
  }

  /** The annotation a line describes: fewer than 8 space-separated tokens, a box token that does not
      parse, and (with at least 16 tokens) a score token that does not parse are errors; without a
      score token the score is 0. */
  function ParseAnnotation(line: string, parse: FloatParser): Result<KittiAnnotation>
  {
    var tokens := Split(line, ' ');
    if |tokens| < 8 then Err(InsufficientTokens(line))
    else if !CoordsParse(tokens, parse) then Err(UnexpectedValues(line))
    else if |tokens| >= 16 && parse(tokens[15]).None? then Err(UnexpectedScore(line))
    else Ok(KittiAnnotation(CoordsOf(tokens, parse), tokens[0], if |tokens| >= 16 then parse(tokens[15]).value else 0.0))
  }

  /** parseKittiAnnotation: the box tokens are parsed in order until one fails. */
  method ParseKittiAnnotation(line: string, parse: FloatParser) returns (r: Result<KittiAnnotation>)
    ensures r == ParseAnnotation(line, parse)
  {
    var tokens := Split(line, ' ');
    if |tokens| < 8 {
      return Err(InsufficientTokens(line));
    }
    var name := tokens[0];
    var coords: seq<real> := [0.0, 0.0, 0.0, 0.0];
    var parsed := true;
    var i := 4;
    while i < 8 && parsed
      invariant 4 <= i <= 8 && |coords| == 4
      invariant parsed ==> forall j :: 4 <= j < i ==> parse(tokens[j]).Some? && coords[j - 4] == parse(tokens[j]).value
      invariant !parsed ==> exists j :: 4 <= j < i && parse(tokens[j]).None?
    {
      var v := parse(tokens[i]);
      if v.None? {
        parsed := false;
      } else {
        coords := coords[i - 4 := v.value];
      }
      i := i + 1;
    }
    if !parsed {
      return Err(UnexpectedValues(line));
    }
    assert coords == CoordsOf(tokens, parse);
    // Parse the optional confidence score.
    var score := 0.0;
    if |tokens| >= 16 {
      var v := parse(tokens[15]);
      if v.None? {
        return Err(UnexpectedScore(line));
      }
      score := v.value;
    }
    return Ok(KittiAnnotation(coords, name, score));
  }

  /** The fields of the line WriteKitti writes for an annotation: the label, zero truncation,
      occlusion and alpha, the box, seven zero 3-D values and the score. */
  function LineTokens(k: KittiAnnotation, coordFmt: real -> string, scoreFmt: real -> string): seq<string>
  {
    [k.name, "0.0", "0", "0.0",
     coordFmt(k.coords[0]), coordFmt(k.coords[1]), coordFmt(k.coords[2]), coordFmt(k.coords[3]),
     "0.0", "0.0", "0.0", "0.0", "0.0", "0.0", "0.0",
     scoreFmt(k.score)]
  }

  /** The line WriteKitti writes for an annotation, without its line break. */
  function KittiLine(k: KittiAnnotation, coordFmt: real -> string, scoreFmt: real -> string): string
  {
    Join(LineTokens(k, coordFmt, scoreFmt), ' ')
  }

  /** A value written by fmt reads back as itself and holds no space. */
  predicate ReadsBack(x: real, fmt: real -> string, parse: FloatParser)
  {
    ' ' !in fmt(x) && parse(fmt(x)) == Some(x)
  }

  /** Writing an annotation as a line and parsing the line gives the annotation back, when the label
      holds no space and the numbers read back as written. */
  lemma LineRoundTrip(k: KittiAnnotation, coordFmt: real -> string, scoreFmt: real -> string, parse: FloatParser)
    requires ' ' !in k.name
    requires forall j :: 0 <= j < 4 ==> ReadsBack(k.coords[j], coordFmt, parse)
    requires ReadsBack(k.score, scoreFmt, parse)
    ensures ParseAnnotation(KittiLine(k, coordFmt, scoreFmt), parse) == Ok(k)
  {
    var tokens := LineTokens(k, coordFmt, scoreFmt);
    TokensNoSpace(k, coordFmt, scoreFmt);
    JoinSplit(tokens, ' ');
    TokensReadBack(k, coordFmt, scoreFmt, parse);
    ParseFullLine(KittiLine(k, coordFmt, scoreFmt), tokens, parse);
  }

  /** The box and score fields of a written line read back as the annotation's, when the numbers do. */
  lemma TokensReadBack(k: KittiAnnotation, coordFmt: real -> string, scoreFmt: real -> string, parse: FloatParser)
    requires forall j :: 0 <= j < 4 ==> ReadsBack(k.coords[j], coordFmt, parse)
    requires ReadsBack(k.score, scoreFmt, parse)
    ensures var tokens := LineTokens(k, coordFmt, scoreFmt);
            && CoordsParse(tokens, parse) && CoordsOf(tokens, parse) == k.coords && parse(tokens[15]) == Some(k.score)
  {
    assert ReadsBack(k.coords[0], coordFmt, parse) && ReadsBack(k.coords[1], coordFmt, parse);
    assert ReadsBack(k.coords[2], coordFmt, parse) && ReadsBack(k.coords[3], coordFmt, parse);
  }

  /** No field of a written line holds a space, when the label and the numbers hold none. */
  lemma TokensNoSpace(k: KittiAnnotation, coordFmt: real -> string, scoreFmt: real -> string)
    requires ' ' !in k.name && ' ' !in scoreFmt(k.score)
    requires forall j :: 0 <= j < 4 ==> ' ' !in coordFmt(k.coords[j])
    ensures forall p :: p in LineTokens(k, coordFmt, scoreFmt) ==> ' ' !in p
  {
    var tokens := LineTokens(k, coordFmt, scoreFmt);
    forall j | 0 <= j < |tokens|
      ensures ' ' !in tokens[j]
    {
      if 4 <= j < 8 {
        assert tokens[j] == coordFmt(k.coords[j - 4]);
      }
    }
  }

  /** A line of 16 fields whose box and score fields parse. */
  lemma ParseFullLine(line: string, tokens: seq<string>, parse: FloatParser)
    requires Split(line, ' ') == tokens && |tokens| == 16
    requires CoordsParse(tokens, parse) && parse(tokens[15]).Some?
    ensures ParseAnnotation(line, parse) == Ok(KittiAnnotation(CoordsOf(tokens, parse), tokens[0], parse(tokens[15]).value))
  {
  }

  /** Only tokens 0, 4 to 7 and 15 and whether there are 8 and 16 tokens matter: two lines that agree
      on those parse to the same annotation. */
  lemma ParseIgnoresOtherTokens(line1: string, line2: string, parse: FloatParser)
    requires var t1, t2 := Split(line1, ' '), Split(line2, ' ');
             && |t1| >= 8 && |t2| >= 8 && t1[0] == t2[0]
             && (forall j :: 4 <= j < 8 ==> t1[j] == t2[j])
             && (|t1| >= 16 <==> |t2| >= 16) && (|t1| >= 16 ==> t1[15] == t2[15])
    requires ParseAnnotation(line1, parse).Ok?
    ensures ParseAnnotation(line2, parse) == ParseAnnotation(line1, parse)
  {
    var t1, t2 := Split(line1, ' '), Split(line2, ' ');
    assert CoordsOf(t1, parse) == CoordsOf(t2, parse);
  }

  // ----- parseKittiAnnotations -----

  /** The intermediate annotation of a KITTI annotation: box and label, no attributes (the score is
      dropped). */
  function Bare(k: KittiAnnotation): IR.Annotation
  {
    IR.Annotation(map[], k.coords, k.name)
  }

  /** The annotation of one line, or None when the line is skipped. */
  function LineAnnotation(parse: FloatParser): string -> Option<IR.Annotation>
  {
    (line: string) => match ParseAnnotation(line, parse)
      case Ok(k) => Some(Bare(k))
      case Err(_) => None
  }

  lemma LineAnnotationApplies(parse: FloatParser, line: string)
    ensures LineAnnotation(parse)(line) == match ParseAnnotation(line, parse)
      case Ok(k) => Some(Bare(k))
      case Err(_) => None
  {
  }

  /** The annotations of the lines of a label file that parse, in line order. */
  method ParseLines(lines: seq<string>, parse: FloatParser) returns (annotations: seq<IR.Annotation>)
    ensures annotations == FilterMap(lines, LineAnnotation(parse))
  {
    annotations := [];
    for i := 0 to |lines|
      invariant annotations == FilterMap(lines[..i], LineAnnotation(parse))
    {
      FilterMapStep(lines, i, LineAnnotation(parse));
      LineAnnotationApplies(parse, lines[i]);
      var a := ParseKittiAnnotation(lines[i], parse);
      if a.Ok? {
        annotations := annotations + [Bare(a.value)];
      }
    }
    assert lines[..|lines|] == lines;
  }

  /** Every annotation read from a label file comes from a line that parses and has no attributes,
      and every line that parses gives an annotation, after those of the lines before it. */
  lemma LinesKept(lines: seq<string>, parse: FloatParser)
    ensures var anns := FilterMap(lines, LineAnnotation(parse));
            && (forall k :: 0 <= k < |anns| ==>
                 (anns[k].attributes == map[]
                  && exists i :: 0 <= i < |lines| && ParseAnnotation(lines[i], parse).Ok?
                       && anns[k] == Bare(ParseAnnotation(lines[i], parse).value)))
            && (forall i :: 0 <= i < |lines| && ParseAnnotation(lines[i], parse).Ok? ==>
                 var r := |FilterMap(lines[..i], LineAnnotation(parse))|;
                 r < |anns| && anns[r] == Bare(ParseAnnotation(lines[i], parse).value))
  {
    var f := LineAnnotation(parse);
    var anns := FilterMap(lines, f);
    forall k | 0 <= k < |anns|
      ensures anns[k].attributes == map[]
      ensures exists i :: 0 <= i < |lines| && ParseAnnotation(lines[i], parse).Ok?
                && anns[k] == Bare(ParseAnnotation(lines[i], parse).value)
    {
      FilterMapFrom(lines, k, f);
      var i :| 0 <= i < |lines| && f(lines[i]) == Some(anns[k]) && |FilterMap(lines[..i], f)| == k;
      LineAnnotationApplies(parse, lines[i]);
    }
    forall i | 0 <= i < |lines| && ParseAnnotation(lines[i], parse).Ok?
      ensures var r := |FilterMap(lines[..i], f)|; r < |anns| && anns[r] == Bare(ParseAnnotation(lines[i], parse).value)
    {
      LineAnnotationApplies(parse, lines[i]);
      FilterMapAt(lines, i, f);
    }
  }

  /** readLines: the lines of the file at a path, or None when it cannot be read. */
  type LineReader = string -> Option<seq<string>>

  /** The annotated file read from one label file: skipped when it cannot be read or has no image of
      the same stem. */
  function LabelFile(names: map<string, string>, imageDir: string, read: LineReader, parse: FloatParser)
    : string -> Option<IR.AnnotatedFile>
  {
    (path: string) =>
      match read(path)
      case None => None
      case Some(lines) =>
        match Utils.ImagePathFor(path, names, imageDir)
        case None => None
        case Some(imagePath) => Some(IR.AnnotatedFile(FilterMap(lines, LineAnnotation(parse)), imagePath))
  }

  lemma LabelFileApplies(names: map<string, string>, imageDir: string, read: LineReader, parse: FloatParser,
                         path: string)
    ensures LabelFile(names, imageDir, read, parse)(path) ==
      match read(path)
      case None => None
      case Some(lines) =>
        match Utils.ImagePathFor(path, names, imageDir)
        case None => None
        case Some(imagePath) => Some(IR.AnnotatedFile(FilterMap(lines, LineAnnotation(parse)), imagePath))
  {
  }

  /** One iteration of parseKittiAnnotations: read and parse the lines, then find the image. */
  method ParseLabelFile(path: string, imageNamesToExt: map<string, string>, imageDir: string, read: LineReader,
                        parse: FloatParser)
    returns (f: Option<IR.AnnotatedFile>)
    ensures f == LabelFile(imageNamesToExt, imageDir, read, parse)(path)
  {
    LabelFileApplies(imageNamesToExt, imageDir, read, parse, path);
    var lines := read(path);
    if lines.None? {
      return None;
    }
    var annotations := ParseLines(lines.value, parse);
    // Find the corresponding image.
    var split := Utils.SplitPath(path);
    if split.Err? {
      return None;
    }
    var baseNoExt := split.value.baseNoExt;
    if baseNoExt !in imageNamesToExt {
      return None;
    }
    var imagePath := Paths.JoinPath(imageDir, baseNoExt + "." + imageNamesToExt[baseNoExt]);
    return Some(IR.AnnotatedFile(annotations, imagePath));
  }

  /** parseKittiAnnotations over the listing of imageDir: an error when imageDir cannot be listed
      without error, otherwise the annotated files of the label files that are kept, in label-file
      order. */
  method ParseKittiAnnotations(labelFiles: seq<string>, imageDir: Utils.Dir, read: LineReader, parse: FloatParser)
    returns (r: Result<seq<IR.AnnotatedFile>>)
    ensures !Utils.Lists(imageDir) ==> r == Err(Utils.DirError(imageDir))
    ensures Utils.Lists(imageDir) ==>
      r == Ok(FilterMap(labelFiles, LabelFile(Utils.NameExts(Utils.DirFiles(imageDir, "")), imageDir.path, read, parse)))
  {
    var imageFiles, err := Utils.FilesByExtInDir(imageDir, "");
    if err.Some? {
      return Err(err.value);
    }
    var imageNamesToExt := Utils.MapFileNamesToExtensions(imageFiles);
    var data := ParseLabelFiles(labelFiles, imageNamesToExt, imageDir.path, read, parse);
    return Ok(data);
  }

  /** The loop of parseKittiAnnotations over the label files. */
  method ParseLabelFiles(labelFiles: seq<string>, imageNamesToExt: map<string, string>, imageDir: string,
                         read: LineReader, parse: FloatParser)
    returns (data: seq<IR.AnnotatedFile>)
    ensures data == FilterMap(labelFiles, LabelFile(imageNamesToExt, imageDir, read, parse))
  {
    data := [];
    for i := 0 to |labelFiles|
      invariant data == FilterMap(labelFiles[..i], LabelFile(imageNamesToExt, imageDir, read, parse))
    {
      FilterMapStep(labelFiles, i, LabelFile(imageNamesToExt, imageDir, read, parse));
      var f := ParseLabelFile(labelFiles[i], imageNamesToExt, imageDir, read, parse);
      if f.Some? {
        data := data + [f.value];
      }
    }
    assert labelFiles[..|labelFiles|] == labelFiles;
  }

  /** FromKitti: the ".txt" files of labelDir, parsed against the images of imageDir; the error of the
      first directory that cannot be listed without error. */
  method FromKitti(labelDir: Utils.Dir, imageDir: Utils.Dir, read: LineReader, parse: FloatParser)
    returns (r: Result<seq<IR.AnnotatedFile>>)
    ensures !Utils.Lists(labelDir) ==> r == Err(Utils.DirError(labelDir))
    ensures Utils.Lists(labelDir) && !Utils.Lists(imageDir) ==> r == Err(Utils.DirError(imageDir))
    ensures Utils.Lists(labelDir) && Utils.Lists(imageDir) ==>
      r == Ok(FilterMap(Utils.DirFiles(labelDir, ".txt"),
                        LabelFile(Utils.NameExts(Utils.DirFiles(imageDir, "")), imageDir.path, read, parse)))
  {
    var labelFiles, err := Utils.FilesByExtInDir(labelDir, ".txt");
    if err.Some? {
      return Err(err.value);
    }
    r := ParseKittiAnnotations(labelFiles, imageDir, read, parse);
  }

  // ----- ToKitti -----

  /** The float Confidence attribute, or 0 when there is none or it is not a float. */
  function Score(attributes: map<string, IR.Value>): real
  {
    if IR.Confidence in attributes && attributes[IR.Confidence].FloatValue? then attributes[IR.Confidence].f else 0.0
  }

  /** The KITTI annotation of an intermediate one. */
  function ToKittiAnnotation(a: IR.Annotation): KittiAnnotation
  {
    KittiAnnotation(a.coords, a.name, Score(a.attributes))
  }

  /** The per-file conversion of ToKitti: the annotation slice is allocated at full length and filled
      by index. */
  method ToKittiFile(f: IR.AnnotatedFile) returns (k: KittiFile)
    ensures k.filePath == f.filePath && |k.annotations| == |f.annotations|
    ensures forall j :: 0 <= j < |f.annotations| ==> k.annotations[j] == ToKittiAnnotation(f.annotations[j])
  {
    var n := |f.annotations|;
    var annotations := new KittiAnnotation[n](_ => KittiAnnotation([0.0, 0.0, 0.0, 0.0], "", 0.0));
    for i := 0 to n
      invariant forall j :: 0 <= j < i ==> annotations[j] == ToKittiAnnotation(f.annotations[j])
    {
      var a := f.annotations[i];
      var kittiLabel := KittiAnnotation(a.coords, a.name, 0.0);
      // Add the optional score.
      if IR.Confidence in a.attributes && a.attributes[IR.Confidence].FloatValue? {
        kittiLabel := kittiLabel.(score := a.attributes[IR.Confidence].f);
      }
      annotations[i] := kittiLabel;
    }
    return KittiFile(annotations[..], f.filePath);
  }

  /** ToKitti: one KITTI file per file, in order, each with one annotation per annotation, in order. */
  method ToKitti(data: seq<IR.AnnotatedFile>) returns (kittiData: seq<KittiFile>)
    ensures |kittiData| == |data|
    ensures forall i :: 0 <= i < |data| ==>
      && kittiData[i].filePath == data[i].filePath
      && |kittiData[i].annotations| == |data[i].annotations|
      && forall j :: 0 <= j < |data[i].annotations| ==>
           kittiData[i].annotations[j] == ToKittiAnnotation(data[i].annotations[j])
  {
    kittiData := [];
    for i := 0 to |data|
      invariant |kittiData| == i
      invariant forall m :: 0 <= m < i ==>
        && kittiData[m].filePath == data[m].filePath
        && |kittiData[m].annotations| == |data[m].annotations|
        && forall j :: 0 <= j < |data[m].annotations| ==>
             kittiData[m].annotations[j] == ToKittiAnnotation(data[m].annotations[j])
    {
      var k := ToKittiFile(data[i]);
      kittiData := kittiData + [k];
    }
  }

  /** Converting to KITTI and back keeps box and label and loses the attributes; the score carries a
      float confidence. */
  lemma ToKittiRoundTrip(a: IR.Annotation)
    ensures Bare(ToKittiAnnotation(a)) == a.(attributes := map[])
    ensures IR.Confidence in a.attributes && a.attributes[IR.Confidence].FloatValue? ==>
              ToKittiAnnotation(a).score == a.attributes[IR.Confidence].f
    ensures !(IR.Confidence in a.attributes && a.attributes[IR.Confidence].FloatValue?) ==>
              ToKittiAnnotation(a).score == 0.0
  {
  }

  // ----- WriteKitti -----

  /** The label file of an image: in dirPath, named after the image's stem with a ".txt" extension;
      an error for an image path without an extension. */
  function LabelPath(dirPath: string, imagePath: string): Result<string>
  {
    match Utils.SplitPath(imagePath)
    case Err(e) => Err(e)
    case Ok(p) => Ok(dirPath + [Paths.Sep] + p.baseNoExt + ".txt")
  }

  /** The label file splits back into dirPath, the image's stem and the extension "txt". */
  lemma LabelPathSplits(dirPath: string, imagePath: string)
    ensures Utils.SplitPath(imagePath).Err? <==> LabelPath(dirPath, imagePath).Err?
    ensures Utils.SplitPath(imagePath).Err? ==> LabelPath(dirPath, imagePath).error == MissingExtension(imagePath)
    ensures Utils.SplitPath(imagePath).Ok? ==>
      Utils.SplitPath(LabelPath(dirPath, imagePath).value)
        == Ok(Utils.PathParts(dirPath, Utils.SplitPath(imagePath).value.baseNoExt, "txt"))
  {
    Utils.SplitPathCorrect(imagePath);
    if Utils.SplitPath(imagePath).Ok? {
      var stem := Utils.SplitPath(imagePath).value.baseNoExt;
      LabelPathOfStem(dirPath, stem);
    }
  }

  lemma LabelPathOfStem(dirPath: string, stem: string)
    requires Paths.Sep !in stem
    ensures Utils.SplitPath(dirPath + [Paths.Sep] + stem + ".txt") == Ok(Utils.PathParts(dirPath, stem, "txt"))
  {
    var name := stem + ".txt";
    var path := dirPath + [Paths.Sep] + name;
    assert dirPath + [Paths.Sep] + stem + ".txt" == path;
    assert Paths.Sep !in name by {
      assert forall j :: 0 <= j < |stem| ==> name[j] == stem[j];
    }
    Paths.LastIndexAfter(dirPath, name);
    assert Paths.SplitDirFile(path) == (dirPath + [Paths.Sep], name);
    Utils.StemOfName(name, stem, "txt");
    assert HasSuffix(dirPath + [Paths.Sep], [Paths.Sep]);
    Utils.SplitElemOfName(path, (dirPath + [Paths.Sep], name), name, stem, "txt");
  }

  /** Whether creating, writing and closing the file at a path succeeds. */
  type FileWriter = string -> bool

  /** A label file written: its path and the annotations written to it, one KittiLine each. */
  datatype Written = Written(path: string, annotations: seq<KittiAnnotation>)

  /** The label file path of each image path (LabelPath in dirPath). */
  function LabelPathIn(dirPath: string): string -> Result<string>
  {
    (imagePath: string) => LabelPath(dirPath, imagePath)
  }

  lemma LabelPathInApplies(dirPath: string, imagePath: string)
    ensures LabelPathIn(dirPath)(imagePath) == LabelPath(dirPath, imagePath)
  {
  }

  /** written holds the label files, named by pathOf, of the first |written| files, in order. */
  predicate WroteFiles(pathOf: string -> Result<string>, data: seq<KittiFile>, written: seq<Written>)
  {
    && |written| <= |data|
    && forall i :: 0 <= i < |written| ==>
         && pathOf(data[i].filePath).Ok?
         && written[i] == Written(pathOf(data[i].filePath).value, data[i].annotations)
  }

  /** WriteKitti: an error when dirPath is not a directory; otherwise one label file per file, in
      order, stopping at the first file whose image path has no extension or whose label file cannot
      be written. */
  method WriteKitti(dirPath: string, isDir: bool, data: seq<KittiFile>, write: FileWriter)
    returns (written: seq<Written>, err: Option<Error>)
    ensures !isDir ==> written == [] && err == Some(ReadFailed(dirPath))
    ensures WroteFiles(LabelPathIn(dirPath), data, written)
    ensures isDir && err.None? ==> |written| == |data|
    ensures isDir && err.Some? ==>
      (|written| < |data|
       && var path := LabelPath(dirPath, data[|written|].filePath);
          if path.Err? then err == Some(path.error) else !write(path.value) && err == Some(CreateFailed(path.value)))
  {
    written := [];
    if !isDir {
      return [], Some(ReadFailed(dirPath));
    }
    for i := 0 to |data|
      invariant |written| == i
      invariant WroteFiles(LabelPathIn(dirPath), data, written)
    {
      // Use the image file name with .txt extension as label file name.
      LabelPathInApplies(dirPath, data[i].filePath);
      var filePath := LabelPath(dirPath, data[i].filePath);
      if filePath.Err? {
        return written, Some(filePath.error);
      }
      if !write(filePath.value) {
        return written, Some(CreateFailed(filePath.value));
      }
      var w := Written(filePath.value, data[i].annotations);
      WroteOneMore(LabelPathIn(dirPath), data, written, w);
      written := written + [w];
    }
    return written, None;
  }

  lemma WroteOneMore(pathOf: string -> Result<string>, data: seq<KittiFile>, written: seq<Written>, w: Written)
    requires WroteFiles(pathOf, data, written) && |written| < |data|
    requires var path := pathOf(data[|written|].filePath);
             path.Ok? && w == Written(path.value, data[|written|].annotations)
    ensures WroteFiles(pathOf, data, written + [w])
  {
  }
}
