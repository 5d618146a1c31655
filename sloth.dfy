/** The Sloth format of sloth.go: per image a list of rectangles given by their top-left corner and
    their size. Reading and writing the JSON file are outside the model; the conversions work on the
    decoded values. */
module Sloth {
  import IR

  /** One Sloth annotation: its class (the label), its shape type and the rectangle x, y, width,
      height. */
  datatype SlothAnnotation = SlothAnnotation(className: string, shapeType: string, x: real, y: real, width: real, height: real)

  /** The Sloth annotations of one image, with the file's class and path. */
  datatype SlothAnnotatedFile = SlothAnnotatedFile(annotations: seq<SlothAnnotation>, className: string, filePath: string)

  // ----- FromSloth -----

  /** The intermediate annotation of a Sloth one: the far corner is the near corner plus the size, the
      class is the label, and there are no attributes. */
  function FromSlothAnnotation(a: SlothAnnotation): IR.Annotation
  {
    IR.Annotation(map[], [a.x, a.y, a.x + a.width, a.y + a.height], a.className)
  }

  function FromSlothFile(s: SlothAnnotatedFile): IR.AnnotatedFile
  {
    IR.AnnotatedFile(seq(|s.annotations|, i requires 0 <= i < |s.annotations| => FromSlothAnnotation(s.annotations[i])),
                     s.filePath)
  }

  /** The conversion of one file: the annotation slice is allocated at full length and filled by index. */
  method ConvertSlothFile(s: SlothAnnotatedFile) returns (f: IR.AnnotatedFile)
    ensures f == FromSlothFile(s)
  {
    var n := |s.annotations|;
    var annotations := new IR.Annotation[n](_ => IR.Annotation(map[], [0.0, 0.0, 0.0, 0.0], ""));
    for i := 0 to n
      invariant forall j :: 0 <= j < i ==> annotations[j] == FromSlothAnnotation(s.annotations[j])
    {
      var a := s.annotations[i];
      var annotation := IR.Annotation(map[], [0.0, 0.0, 0.0, 0.0], a.className);
      annotation := annotation.(coords := [a.x, a.y, a.x + a.width, a.y + a.height]);
      annotations[i] := annotation;
    }
    f := IR.AnnotatedFile(annotations[..], s.filePath);
  }

  /** FromSloth on the decoded Sloth files: one annotated file per Sloth file, in order. */
  method FromSloth(slothData: seq<SlothAnnotatedFile>) returns (data: seq<IR.AnnotatedFile>)
    ensures data == seq(|slothData|, i requires 0 <= i < |slothData| => FromSlothFile(slothData[i]))
  {
    data := [];
    for i := 0 to |slothData|
      invariant data == seq(i, k requires 0 <= k < i => FromSlothFile(slothData[k]))
    {
      var fileData := ConvertSlothFile(slothData[i]);
      data := data + [fileData];
    }
  }

  // ----- ToSloth -----

  /** The Sloth annotation of an intermediate one: a "rect" at the first corner whose size is the
      difference of the corners. */
  function ToSlothAnnotation(a: IR.Annotation): SlothAnnotation
  {
    SlothAnnotation(a.name, "rect", a.coords[0], a.coords[1], a.coords[2] - a.coords[0], a.coords[3] - a.coords[1])
  }

  function ToSlothFile(f: IR.AnnotatedFile): SlothAnnotatedFile
  {
    SlothAnnotatedFile(seq(|f.annotations|, i requires 0 <= i < |f.annotations| => ToSlothAnnotation(f.annotations[i])),
                       "image", f.filePath)
  }

  /** The conversion of one file: the Sloth annotation slice is allocated at full length and filled by
      index. */
  method ConvertFile(f: IR.AnnotatedFile) returns (s: SlothAnnotatedFile)
    ensures s == ToSlothFile(f)
  {
    var n := |f.annotations|;
    var annotations := new SlothAnnotation[n](_ => SlothAnnotation("", "", 0.0, 0.0, 0.0, 0.0));
    for i := 0 to n
      invariant forall j :: 0 <= j < i ==> annotations[j] == ToSlothAnnotation(f.annotations[j])
    {
      var a := f.annotations[i];
      annotations[i] := SlothAnnotation(a.name, "rect", a.coords[0], a.coords[1],
                                        a.coords[2] - a.coords[0], a.coords[3] - a.coords[1]);
    }
    s := SlothAnnotatedFile(annotations[..], "image", f.filePath);
  }

  /** ToSloth: one Sloth file per annotated file, in order. */
  method ToSloth(data: seq<IR.AnnotatedFile>) returns (slothData: seq<SlothAnnotatedFile>)
    ensures slothData == seq(|data|, i requires 0 <= i < |data| => ToSlothFile(data[i]))
  {
    slothData := [];
    for i := 0 to |data|
      invariant slothData == seq(i, k requires 0 <= k < i => ToSlothFile(data[k]))
    {
      var slothFileData := ConvertFile(data[i]);
      slothData := slothData + [slothFileData];
    }
  }

  // ----- properties -----

  /** Both directions keep the files, their order and the number and order of their annotations; every
      exported file has class "image" and every exported annotation type "rect". */
  lemma ConversionShape(f: IR.AnnotatedFile, s: SlothAnnotatedFile)
    ensures ToSlothFile(f).filePath == f.filePath && ToSlothFile(f).className == "image"
    ensures |ToSlothFile(f).annotations| == |f.annotations|
    ensures forall i :: 0 <= i < |f.annotations| ==>
              ToSlothFile(f).annotations[i].shapeType == "rect"
              && ToSlothFile(f).annotations[i].className == f.annotations[i].name
    ensures FromSlothFile(s).filePath == s.filePath && |FromSlothFile(s).annotations| == |s.annotations|
    ensures forall i :: 0 <= i < |s.annotations| ==>
              FromSlothFile(s).annotations[i].name == s.annotations[i].className
              && FromSlothFile(s).annotations[i].attributes == map[]
  {
  }

  /** A file with its annotations' attributes removed. */
  function WithoutAttributes(f: IR.AnnotatedFile): IR.AnnotatedFile
  {
    f.(annotations := seq(|f.annotations|, i requires 0 <= i < |f.annotations| => f.annotations[i].(attributes := map[])))
  }

  /** Exporting to Sloth and reading back restores paths, labels and boxes exactly; only the attributes
      are lost. */
  lemma RoundTrip(f: IR.AnnotatedFile)
    ensures FromSlothFile(ToSlothFile(f)) == WithoutAttributes(f)
  {
    var g := FromSlothFile(ToSlothFile(f));
    forall i | 0 <= i < |f.annotations|
      ensures g.annotations[i] == f.annotations[i].(attributes := map[])
    {
      var c := f.annotations[i].coords;
      assert g.annotations[i].coords == [c[0], c[1], c[0] + (c[2] - c[0]), c[1] + (c[3] - c[1])];
      assert g.annotations[i].coords == c;
    }
  }

  /** Reading a Sloth file and exporting it again gives it back, when it has the classes and shape
      types the export writes. */
  lemma RoundTripFromSloth(s: SlothAnnotatedFile)
    requires s.className == "image"
    requires forall i :: 0 <= i < |s.annotations| ==> s.annotations[i].shapeType == "rect"
    ensures ToSlothFile(FromSlothFile(s)) == s
  {
    var t := ToSlothFile(FromSlothFile(s));
    forall i | 0 <= i < |s.annotations|
      ensures t.annotations[i] == s.annotations[i]
    {
      var a := s.annotations[i];
      assert t.annotations[i] == SlothAnnotation(a.className, "rect", a.x, a.y, (a.x + a.width) - a.x, (a.y + a.height) - a.y);
    }
  }

  /** The whole dataset: exporting and reading back keeps every file, in order, without attributes. */
  lemma {:induction false} DatasetRoundTrip(data: seq<IR.AnnotatedFile>)
    ensures var slothData := seq(|data|, i requires 0 <= i < |data| => ToSlothFile(data[i]));
            seq(|slothData|, i requires 0 <= i < |slothData| => FromSlothFile(slothData[i]))
              == seq(|data|, i requires 0 <= i < |data| => WithoutAttributes(data[i]))
  {
    forall i | 0 <= i < |data|
      ensures FromSlothFile(ToSlothFile(data[i])) == WithoutAttributes(data[i])
    {
      RoundTrip(data[i]);
    }
  }
}
