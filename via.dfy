/** The VGG Image Annotator (VIA) project format of via.go: per image a list of rectangular regions
    with string attributes, plus project-wide metadata describing the region attributes. Reading and
    writing the JSON project file are outside the model; float parsing and formatting are function
    parameters. */
module VIA {
  import opened Common
  import opened Strings
  import IR

  // ----- 32-bit integers -----

  const Two32: int := 0x1_0000_0000

  /** Go's int32. */
  type Int32 = x: int | -0x8000_0000 <= x < 0x8000_0000

  /** Two's complement wrap-around of an integer into int32, as int32 arithmetic does. */
  function Wrap32(x: int): (r: Int32)
    ensures (r - x) % Two32 == 0
    ensures -0x8000_0000 <= x < 0x8000_0000 ==> r == x
  {
    var m := x % Two32;
    if m >= 0x8000_0000 then m - Two32 else m
  }

  /** The integer part of x, rounded toward zero. */
  function Trunc(x: real): (n: int)
    ensures x >= 0.0 ==> n as real <= x < n as real + 1.0
    ensures x < 0.0 ==> n as real - 1.0 < x <= n as real
  {
    if x >= 0.0 then x.Floor else -((-x).Floor)
  }

  /** int32(x) for a float64 x: truncation toward zero (wrapped into range, see README). */
  function TruncToInt32(x: real): Int32
  {
    Wrap32(Trunc(x))
  }

  // ----- the VIA data -----

  /** The attribute key of the label in the region attributes. */
  const LabelAttribute: string := "Label"

  /** The shape of a region: its name ("rect") and x, y, width, height in whole pixels. */
  datatype VIAShape = VIAShape(name: string, x: Int32, y: Int32, width: Int32, height: Int32)

  /** A region of an image: its string attributes and its shape. */
  datatype VIARegionAnnotation = VIARegionAnnotation(attributes: map<string, string>, shape: VIAShape)

  /** The regions of one image, its file attributes, its path and its size in bytes. */
  datatype VIAAnnotatedFile = VIAAnnotatedFile(annotations: seq<VIARegionAnnotation>, attributes: map<string, string>,
                                               filePath: string, size: int)

  /** The metadata of an attribute: a "radio" or "dropdown" attribute with its options (each mapped to
      an empty description) and default options, or a "text" attribute. */
  datatype AttributeMeta =
    | OptionsAttribute(attrType: string, description: string, options: map<string, string>, defaultOptions: map<string, bool>)
    | TextAttribute(attrType: string, description: string, defaultValue: string)

  /** The attribute metadata of regions and of files. */
  datatype VIAAttributes = VIAAttributes(region: map<string, AttributeMeta>, file: map<string, AttributeMeta>)

  /** A VIA project: the attribute metadata and the files keyed by path. */
  datatype VIAProject = VIAProject(attributes: VIAAttributes, imageMetadata: map<string, VIAAnnotatedFile>)

  // ----- FromVIA -----

  /** strconv.ParseFloat: the value of a string, or None when it does not parse. */
  type FloatParser = string -> Option<real>

  /** The label of a region: its "Label" attribute, or "" without one. */
  function RegionLabel(attrs: map<string, string>): string
  {
    if LabelAttribute in attrs then attrs[LabelAttribute] else ""
  }

  /** The attribute kept for a region attribute other than the label: a Confidence that parses becomes
      a float, one that does not parse is dropped, and every other attribute stays a string. */
  predicate KeptOnImport(k: string, v: string, parse: FloatParser)
  {
    k != LabelAttribute && (k == IR.Confidence ==> parse(v).Some?)
  }

  function ImportedValue(k: string, v: string, parse: FloatParser): IR.Value
    requires KeptOnImport(k, v, parse)
  {
    if k == IR.Confidence then IR.FloatValue(parse(v).value) else IR.StringValue(v)
  }

  /** The intermediate attributes of a region's attributes. */
  function RegionAttributes(attrs: map<string, string>, parse: FloatParser): (r: map<string, IR.Value>)
    ensures LabelAttribute !in r && r.Keys <= attrs.Keys
    ensures forall k :: k in attrs && k != LabelAttribute && k != IR.Confidence ==> k in r && r[k] == IR.StringValue(attrs[k])
    ensures IR.Confidence in attrs ==>
              (IR.Confidence in r <==> parse(attrs[IR.Confidence]).Some?)
              && (IR.Confidence in r ==> r[IR.Confidence] == IR.FloatValue(parse(attrs[IR.Confidence]).value))
  {
    map k | k in attrs && KeptOnImport(k, attrs[k], parse) :: ImportedValue(k, attrs[k], parse)
  }

  /** The box of a shape: the far corner is the near one plus the size, added in int32. */
  function ShapeCoords(s: VIAShape): IR.Coords
  {
    [s.x as real, s.y as real, Wrap32(s.x + s.width) as real, Wrap32(s.y + s.height) as real]
  }

  /** The intermediate annotation of a region. */
  function FromRegion(a: VIARegionAnnotation, parse: FloatParser): IR.Annotation
  {
    IR.Annotation(RegionAttributes(a.attributes, parse), ShapeCoords(a.shape), RegionLabel(a.attributes))
  }

  function FromVIAFile(f: VIAAnnotatedFile, parse: FloatParser): IR.AnnotatedFile
  {
    IR.AnnotatedFile(seq(|f.annotations|, i requires 0 <= i < |f.annotations| => FromRegion(f.annotations[i], parse)),
                     f.filePath)
  }

  /** The conversion of one region: the attributes are visited in any order, the label is taken out
      and the Confidence parsed. */
  method ConvertRegion(a: VIARegionAnnotation, parse: FloatParser) returns (irObject: IR.Annotation)
    ensures irObject == FromRegion(a, parse)
  {
    var name := "";
    var attributes: map<string, IR.Value> := map[];
    var keys := a.attributes.Keys;
    while keys != {}
      invariant keys <= a.attributes.Keys
      invariant name == RegionLabel(a.attributes - keys)
      invariant attributes == RegionAttributes(a.attributes - keys, parse)
      decreases |keys|
    {
      var k :| k in keys;
      var v := a.attributes[k];
      RegionAttributesStep(a.attributes - keys, k, v, parse);
      assert a.attributes - (keys - {k}) == (a.attributes - keys)[k := v];
      if k == LabelAttribute {
        name := v;
      } else if k == IR.Confidence {
        var f := parse(v);
        if f.Some? {
          attributes := attributes[k := IR.FloatValue(f.value)];
        }
      } else {
        attributes := attributes[k := IR.StringValue(v)];
      }
      keys := keys - {k};
    }
    assert a.attributes - keys == a.attributes;
    irObject := IR.Annotation(attributes, ShapeCoords(a.shape), name);
  }

  lemma RegionAttributesStep(done: map<string, string>, k: string, v: string, parse: FloatParser)
    requires k !in done
    ensures RegionAttributes(done[k := v], parse)
         == if KeptOnImport(k, v, parse) then RegionAttributes(done, parse)[k := ImportedValue(k, v, parse)]
            else RegionAttributes(done, parse)
  {
  }

  /** The regions of one file, converted and appended in order. */
  method ConvertVIAFile(viaFile: VIAAnnotatedFile, parse: FloatParser) returns (irFile: IR.AnnotatedFile)
    ensures irFile == FromVIAFile(viaFile, parse)
  {
    var annotations: seq<IR.Annotation> := [];
    for i := 0 to |viaFile.annotations|
      invariant annotations == seq(i, k requires 0 <= k < i => FromRegion(viaFile.annotations[k], parse))
    {
      var irObject := ConvertRegion(viaFile.annotations[i], parse);
      annotations := annotations + [irObject];
    }
    irFile := IR.AnnotatedFile(annotations, viaFile.filePath);
  }

  /** FromVIA on a decoded project: one annotated file per image entry, in the order in which the
      entries are visited (Go leaves that order unspecified; it is given as order). */
  method FromVIA(viaData: VIAProject, order: seq<string>, parse: FloatParser) returns (irData: seq<IR.AnnotatedFile>)
    requires Enumerates(order, viaData.imageMetadata)
    ensures |irData| == |order| == |viaData.imageMetadata|
    ensures forall i :: 0 <= i < |order| ==> irData[i] == FromVIAFile(viaData.imageMetadata[order[i]], parse)
  {
    EnumeratesSize(order, viaData.imageMetadata);
    irData := [];
    for i := 0 to |order|
      invariant |irData| == i
      invariant forall m :: 0 <= m < i ==> irData[m] == FromVIAFile(viaData.imageMetadata[order[m]], parse)
    {
      var irFile := ConvertVIAFile(viaData.imageMetadata[order[i]], parse);
      irData := irData + [irFile];
    }
  }

  // ----- ToVIA -----

  /** The string a value is exported as: ints in decimal, floats by the given formatter, strings as
      they are; other kinds (string lists, booleans) are not exported. */
  function ExportValue(v: IR.Value, formatFloat: real -> string): (r: Option<string>)
    ensures r.Some? <==> v.IntValue? || v.FloatValue? || v.StringValue?
    ensures v.StringValue? ==> r == Some(v.s)
    ensures v.IntValue? ==> r == Some(IntToString(v.i))
    ensures v.FloatValue? ==> r == Some(formatFloat(v.f))
  {
    match v
    case IntValue(i) => Some(IntToString(i))
    case FloatValue(f) => Some(formatFloat(f))
    case StringValue(s) => Some(s)
    case _ => None
  }

  /** The exported attributes of an annotation. */
  function ExportedAttributes(attrs: map<string, IR.Value>, formatFloat: real -> string): (r: map<string, string>)
    ensures forall k :: k in r <==> k in attrs && !attrs[k].StringsValue? && !attrs[k].BoolValue?
    ensures forall k :: k in r && attrs[k].StringValue? ==> r[k] == attrs[k].s
    ensures forall k :: k in r && attrs[k].IntValue? ==> r[k] == IntToString(attrs[k].i)
    ensures forall k :: k in r && attrs[k].FloatValue? ==> r[k] == formatFloat(attrs[k].f)
  {
    map k | k in attrs && ExportValue(attrs[k], formatFloat).Some? :: ExportValue(attrs[k], formatFloat).value
  }

  /** The "rect" shape of a box: int32 truncations of the first corner and of the box's size. */
  function BoxShape(c: IR.Coords): VIAShape
  {
    VIAShape("rect", TruncToInt32(c[0]), TruncToInt32(c[1]), TruncToInt32(c[2] - c[0]), TruncToInt32(c[3] - c[1]))
  }

  /** The region of an annotation: the label as its "Label" attribute, then the exported attributes
      (which take precedence), and the box as a rectangle. */
  function ToRegion(a: IR.Annotation, formatFloat: real -> string): VIARegionAnnotation
  {
    VIARegionAnnotation(map[LabelAttribute := a.name] + ExportedAttributes(a.attributes, formatFloat), BoxShape(a.coords))
  }

  /** The VIA file of an annotated file: its regions in order and no file attributes. */
  function ToVIAFile(f: IR.AnnotatedFile, formatFloat: real -> string): VIAAnnotatedFile
  {
    VIAAnnotatedFile(seq(|f.annotations|, i requires 0 <= i < |f.annotations| => ToRegion(f.annotations[i], formatFloat)),
                     map[], f.filePath, 0)
  }

  /** The image metadata entry of a file: keyed by its path. */
  function FileEntry(formatFloat: real -> string): IR.AnnotatedFile -> Option<(string, VIAAnnotatedFile)>
  {
    (f: IR.AnnotatedFile) => Some((f.filePath, ToVIAFile(f, formatFloat)))
  }

  /** The metadata of a text attribute. */
  const TextMeta: AttributeMeta := TextAttribute("text", "", "")

  /** addAttrOption: option is added to the options attribute attrName of type attrType, which is
      created when missing; an entry of another kind or type is left as it is. */
  function AddAttrOption(attrs: map<string, AttributeMeta>, attrName: string, attrType: string, option: string)
    : (r: map<string, AttributeMeta>)
    ensures forall k :: k != attrName ==> (k in r <==> k in attrs) && (k in r ==> r[k] == attrs[k])
    ensures attrName in r
    ensures attrName in attrs && !(attrs[attrName].OptionsAttribute? && attrs[attrName].attrType == attrType) ==>
              r[attrName] == attrs[attrName]
    ensures attrName in attrs && attrs[attrName].OptionsAttribute? && attrs[attrName].attrType == attrType ==>
              r[attrName] == attrs[attrName].(options := attrs[attrName].options[option := ""])
    ensures attrName !in attrs ==> r[attrName] == OptionsAttribute(attrType, "", map[option := ""], map[])
  {
    if attrName in attrs then
      var a := attrs[attrName];
      if a.OptionsAttribute? && a.attrType == attrType then attrs[attrName := a.(options := a.options[option := ""])]
      else attrs
    else attrs[attrName := OptionsAttribute(attrType, "", map[option := ""], map[])]
  }

  /** The options map of a set of labels. */
  function LabelOptions(labels: set<string>): map<string, string>
  {
    map l | l in labels :: ""
  }

  /** The region attribute metadata after annotations with the given labels were exported, text
      says whether one of them had a Text attribute and confidence whether one had a Confidence. */
  function RegionMeta(labels: set<string>, text: bool, confidence: bool): map<string, AttributeMeta>
  {
    var m: map<string, AttributeMeta> := if confidence then map[IR.Confidence := TextMeta] else map[];
    var m := if text then m[IR.DetectedText := TextMeta] else m;
    if labels == {} then m else m[LabelAttribute := OptionsAttribute("radio", "", LabelOptions(labels), map[])]
  }

  /** All annotations of the files, file by file. */
  function AllAnnotations(data: seq<IR.AnnotatedFile>): seq<IR.Annotation>
  {
    if data == [] then [] else AllAnnotations(data[..|data| - 1]) + data[|data| - 1].annotations
  }

  function Labels(anns: seq<IR.Annotation>): set<string>
  {
    set a | a in anns :: a.name
  }

  /** Some annotation has an attribute named key. */
  predicate HasKey(anns: seq<IR.Annotation>, key: string)
  {
    exists a :: a in anns && key in a.attributes
  }

  /** The conversion of one annotation: the label attribute first, then the attributes that can be
      exported, visited in any order. */
  method ConvertAnnotation(a: IR.Annotation, formatFloat: real -> string) returns (viaObject: VIARegionAnnotation)
    ensures viaObject == ToRegion(a, formatFloat)
  {
    var attributes := map[LabelAttribute := a.name];
    var keys := a.attributes.Keys;
    while keys != {}
      invariant keys <= a.attributes.Keys
      invariant attributes == map[LabelAttribute := a.name] + ExportedAttributes(a.attributes - keys, formatFloat)
      decreases |keys|
    {
      var k :| k in keys;
      var v := a.attributes[k];
      assert a.attributes - (keys - {k}) == (a.attributes - keys)[k := v];
      ExportedStep(a.name, a.attributes - keys, k, v, formatFloat);
      match v {
        case IntValue(i) => attributes := attributes[k := IntToString(i)];
        case FloatValue(f) => attributes := attributes[k := formatFloat(f)];
        case StringValue(s) => attributes := attributes[k := s];
        case _ =>
      }
      keys := keys - {k};
    }
    assert a.attributes - keys == a.attributes;
    viaObject := VIARegionAnnotation(attributes, BoxShape(a.coords));
  }

  /** Visiting one more attribute k with value v: the attributes with the label in front grow by k
      exactly when v is exported. */
  lemma ExportedStep(name: string, done: map<string, IR.Value>, k: string, v: IR.Value, formatFloat: real -> string)
    requires k !in done
    ensures var before := map[LabelAttribute := name] + ExportedAttributes(done, formatFloat);
            map[LabelAttribute := name] + ExportedAttributes(done[k := v], formatFloat)
            == if ExportValue(v, formatFloat).Some? then before[k := ExportValue(v, formatFloat).value] else before
  {
    var e, e' := ExportedAttributes(done, formatFloat), ExportedAttributes(done[k := v], formatFloat);
    assert e' == if ExportValue(v, formatFloat).Some? then e[k := ExportValue(v, formatFloat).value] else e;
  }

  /** The metadata bookkeeping for one exported annotation: its label is added as an option of the
      "Label" attribute, and the Text and Confidence attributes are described the first time an
      annotation has them. */
  method RecordAttributeMeta(region: map<string, AttributeMeta>, haveTextAttr: bool, haveConfidenceAttr: bool,
                             a: IR.Annotation, ghost labels: set<string>)
    returns (region': map<string, AttributeMeta>, haveTextAttr': bool, haveConfidenceAttr': bool)
    requires region == RegionMeta(labels, haveTextAttr, haveConfidenceAttr)
    ensures haveTextAttr' == (haveTextAttr || IR.DetectedText in a.attributes)
    ensures haveConfidenceAttr' == (haveConfidenceAttr || IR.Confidence in a.attributes)
    ensures region' == RegionMeta(labels + {a.name}, haveTextAttr', haveConfidenceAttr')
  {
    haveTextAttr', haveConfidenceAttr' := haveTextAttr, haveConfidenceAttr;
    // Add the label value to the attribute metadata.
    AddLabelOption(labels, haveTextAttr, haveConfidenceAttr, a.name);
    region' := AddAttrOption(region, LabelAttribute, "radio", a.name);

    // Add attribute metadata for the detected text and the confidence when the annotation has them.
    if !haveTextAttr' {
      haveTextAttr' := IR.DetectedText in a.attributes;
      if haveTextAttr' {
        AddTextMeta(labels + {a.name}, haveConfidenceAttr');
        region' := region'[IR.DetectedText := TextMeta];
      }
    }
    if !haveConfidenceAttr' {
      haveConfidenceAttr' := IR.Confidence in a.attributes;
      if haveConfidenceAttr' {
        AddConfidenceMeta(labels + {a.name}, haveTextAttr');
        region' := region'[IR.Confidence := TextMeta];
      }
    }
  }

  /** ToVIA: every file becomes a VIA file keyed by its path (a later file with the same path
      replaces an earlier one); the region metadata lists the labels seen as options of a "Label"
      radio attribute, and Text and Confidence as text attributes when some annotation has them. */
  method ToVIA(irData: seq<IR.AnnotatedFile>, formatFloat: real -> string) returns (viaData: VIAProject)
    ensures viaData.attributes.file == map[]
    ensures viaData.imageMetadata == MapFrom(irData, FileEntry(formatFloat))
    ensures var anns := AllAnnotations(irData);
            viaData.attributes.region == RegionMeta(Labels(anns), HasKey(anns, IR.DetectedText), HasKey(anns, IR.Confidence))
  {
    var region: map<string, AttributeMeta> := map[];
    var imageMetadata: map<string, VIAAnnotatedFile> := map[];
    var haveTextAttr, haveConfidenceAttr := false, false;
    for i := 0 to |irData|
      invariant imageMetadata == MapFrom(irData[..i], FileEntry(formatFloat))
      invariant haveTextAttr == HasKey(AllAnnotations(irData[..i]), IR.DetectedText)
      invariant haveConfidenceAttr == HasKey(AllAnnotations(irData[..i]), IR.Confidence)
      invariant region == RegionMeta(Labels(AllAnnotations(irData[..i])), haveTextAttr, haveConfidenceAttr)
    {
      var irFile := irData[i];
      var annotations;
      annotations, region, haveTextAttr, haveConfidenceAttr :=
        ConvertAnnotations(irFile, formatFloat, region, haveTextAttr, haveConfidenceAttr, AllAnnotations(irData[..i]));
      assert irData[..i + 1][..i] == irData[..i];
      MapFromStep(irData, i, FileEntry(formatFloat));
      var viaFile := VIAAnnotatedFile(annotations, map[], irFile.filePath, 0);
      assert FileEntry(formatFloat)(irFile) == Some((irFile.filePath, viaFile));
      imageMetadata := imageMetadata[viaFile.filePath := viaFile];
    }
    assert irData[..|irData|] == irData;
    viaData := VIAProject(VIAAttributes(region, map[]), imageMetadata);
  }

  /** The annotation loop of ToVIA over one file: its regions in order, and the region metadata
      brought up to date with each annotation, after the annotations seen before. */
  method ConvertAnnotations(irFile: IR.AnnotatedFile, formatFloat: real -> string,
                            region: map<string, AttributeMeta>, haveTextAttr: bool, haveConfidenceAttr: bool,
                            ghost before: seq<IR.Annotation>)
    returns (annotations: seq<VIARegionAnnotation>, region': map<string, AttributeMeta>,
             haveTextAttr': bool, haveConfidenceAttr': bool)
    requires haveTextAttr == HasKey(before, IR.DetectedText) && haveConfidenceAttr == HasKey(before, IR.Confidence)
    requires region == RegionMeta(Labels(before), haveTextAttr, haveConfidenceAttr)
    ensures annotations == ToVIAFile(irFile, formatFloat).annotations
    ensures var seen := before + irFile.annotations;
            && haveTextAttr' == HasKey(seen, IR.DetectedText) && haveConfidenceAttr' == HasKey(seen, IR.Confidence)
            && region' == RegionMeta(Labels(seen), haveTextAttr', haveConfidenceAttr')
  {
    annotations, region', haveTextAttr', haveConfidenceAttr' := [], region, haveTextAttr, haveConfidenceAttr;
    assert before + irFile.annotations[..0] == before;
    for j := 0 to |irFile.annotations|
      invariant annotations == seq(j, k requires 0 <= k < j => ToRegion(irFile.annotations[k], formatFloat))
      invariant haveTextAttr' == HasKey(before + irFile.annotations[..j], IR.DetectedText)
      invariant haveConfidenceAttr' == HasKey(before + irFile.annotations[..j], IR.Confidence)
      invariant region' == RegionMeta(Labels(before + irFile.annotations[..j]), haveTextAttr', haveConfidenceAttr')
    {
      var a := irFile.annotations[j];
      ghost var seen := before + irFile.annotations[..j];
      assert before + irFile.annotations[..j + 1] == seen + [a];
      SeenOneMore(seen, a);
      var viaObject := ConvertAnnotation(a, formatFloat);
      region', haveTextAttr', haveConfidenceAttr' :=
        RecordAttributeMeta(region', haveTextAttr', haveConfidenceAttr', a, Labels(seen));
      RegionsGrow(irFile.annotations, j, formatFloat);
      annotations := annotations + [viaObject];
    }
    assert irFile.annotations[..|irFile.annotations|] == irFile.annotations;
  }

  /** The regions of the first j + 1 annotations: those of the first j and one more. */
  lemma RegionsGrow(anns: seq<IR.Annotation>, j: nat, formatFloat: real -> string)
    requires j < |anns|
    ensures seq(j + 1, k requires 0 <= k < j + 1 => ToRegion(anns[k], formatFloat))
         == seq(j, k requires 0 <= k < j => ToRegion(anns[k], formatFloat)) + [ToRegion(anns[j], formatFloat)]
  {
  }

  /** The labels and keys seen grow by those of one more annotation. */
  lemma SeenOneMore(seen: seq<IR.Annotation>, a: IR.Annotation)
    ensures Labels(seen + [a]) == Labels(seen) + {a.name}
    ensures HasKey(seen + [a], IR.DetectedText) == (HasKey(seen, IR.DetectedText) || IR.DetectedText in a.attributes)
    ensures HasKey(seen + [a], IR.Confidence) == (HasKey(seen, IR.Confidence) || IR.Confidence in a.attributes)
  {
    assert a in seen + [a];
    forall b | b in seen ensures b in seen + [a] { }
    forall b | b in seen + [a] ensures b in seen || b == a { }
  }

  lemma AddLabelOption(labels: set<string>, text: bool, confidence: bool, option: string)
    ensures AddAttrOption(RegionMeta(labels, text, confidence), LabelAttribute, "radio", option)
         == RegionMeta(labels + {option}, text, confidence)
  {
    if labels == {} {
      assert map[option := ""] == LabelOptions(labels + {option});
    } else {
      assert LabelOptions(labels)[option := ""] == LabelOptions(labels + {option});
    }
  }

  lemma AddTextMeta(labels: set<string>, confidence: bool)
    ensures RegionMeta(labels, false, confidence)[IR.DetectedText := TextMeta] == RegionMeta(labels, true, confidence)
  {
  }

  lemma AddConfidenceMeta(labels: set<string>, text: bool)
    ensures RegionMeta(labels, text, false)[IR.Confidence := TextMeta] == RegionMeta(labels, text, true)
  {
  }

  // ----- properties -----

  /** The region metadata holds a "Label" radio attribute exactly when some label was seen, whose
      options are exactly the labels seen, each with an empty description; Text and Confidence are
      described exactly when some annotation had them, and nothing else is described. */
  lemma RegionMetaFacts(labels: set<string>, text: bool, confidence: bool)
    ensures var r := RegionMeta(labels, text, confidence);
            && (LabelAttribute in r <==> labels != {})
            && (LabelAttribute in r ==>
                  && r[LabelAttribute].OptionsAttribute? && r[LabelAttribute].attrType == "radio"
                  && r[LabelAttribute].options.Keys == labels
                  && forall l :: l in labels ==> r[LabelAttribute].options[l] == "")
            && (IR.DetectedText in r <==> text) && (IR.DetectedText in r ==> r[IR.DetectedText] == TextMeta)
            && (IR.Confidence in r <==> confidence) && (IR.Confidence in r ==> r[IR.Confidence] == TextMeta)
            && r.Keys <= {LabelAttribute, IR.DetectedText, IR.Confidence}
  {
  }

  /** A box that VIA can hold: whole numbers whose corners and size fit in int32. */
  predicate WholeBox(c: IR.Coords)
  {
    && (forall i :: 0 <= i < 4 ==> c[i] == c[i].Floor as real && -0x8000_0000 as real <= c[i] < 0x8000_0000 as real)
    && -0x8000_0000 as real <= c[2] - c[0] < 0x8000_0000 as real
    && -0x8000_0000 as real <= c[3] - c[1] < 0x8000_0000 as real
  }

  /** Attributes that survive the export: no "Label" attribute, a Confidence that is a float whose
      formatted text parses back to it, and strings otherwise. */
  predicate PortableAttributes(attrs: map<string, IR.Value>, parse: FloatParser, formatFloat: real -> string)
  {
    && LabelAttribute !in attrs
    && (forall k :: k in attrs && k != IR.Confidence ==> attrs[k].StringValue?)
    && (IR.Confidence in attrs ==>
          attrs[IR.Confidence].FloatValue? && parse(formatFloat(attrs[IR.Confidence].f)) == Some(attrs[IR.Confidence].f))
  }

  /** Truncation gives back a whole number, and int32 wrap-around leaves one in range alone. */
  lemma WholeTrunc(n: int)
    requires -0x8000_0000 <= n < 0x8000_0000
    ensures TruncToInt32(n as real) == n
  {
    if n < 0 {
      assert (-(n as real)).Floor == -n;
    }
  }

  /** A whole box in int32 range survives the conversion to a VIA shape and back. */
  lemma BoxRoundTrip(c: IR.Coords)
    requires WholeBox(c)
    ensures ShapeCoords(BoxShape(c)) == c
  {
    var s := BoxShape(c);
    var x0, y0, x1, y1 := c[0].Floor, c[1].Floor, c[2].Floor, c[3].Floor;
    assert c[0] == x0 as real && c[1] == y0 as real && c[2] == x1 as real && c[3] == y1 as real;
    assert c[2] - c[0] == (x1 - x0) as real && c[3] - c[1] == (y1 - y0) as real;
    WholeTrunc(x0);
    WholeTrunc(y0);
    WholeTrunc(x1 - x0);
    WholeTrunc(y1 - y0);
    WrapCorner(s.x, s.width, c[2]);
    WrapCorner(s.y, s.height, c[3]);
  }

  /** Portable attributes survive the export to region attributes and the import back. */
  lemma AttributesRoundTrip(attrs: map<string, IR.Value>, name: string, parse: FloatParser, formatFloat: real -> string)
    requires PortableAttributes(attrs, parse, formatFloat)
    ensures var exported := map[LabelAttribute := name] + ExportedAttributes(attrs, formatFloat);
            RegionLabel(exported) == name && RegionAttributes(exported, parse) == attrs
  {
    var exported := map[LabelAttribute := name] + ExportedAttributes(attrs, formatFloat);
    var back := RegionAttributes(exported, parse);
    assert back.Keys == attrs.Keys;
    forall k | k in back
      ensures back[k] == attrs[k]
    {
    }
  }

  /** The far corner of a shape is the near one plus the size when that sum fits in int32. */
  lemma WrapCorner(x: Int32, size: Int32, corner: real)
    requires (x + size) as real == corner && -0x8000_0000 as real <= corner < 0x8000_0000 as real
    ensures Wrap32(x + size) as real == corner
  {
  }

  /** Exporting an annotation to a VIA region and reading it back gives it back when its box is whole
      and in int32 range and its attributes are portable. */
  lemma RegionRoundTrip(a: IR.Annotation, parse: FloatParser, formatFloat: real -> string)
    requires WholeBox(a.coords)
    requires PortableAttributes(a.attributes, parse, formatFloat)
    ensures FromRegion(ToRegion(a, formatFloat), parse) == a
  {
    BoxRoundTrip(a.coords);
    AttributesRoundTrip(a.attributes, a.name, parse, formatFloat);
  }

  /** Exporting a file and reading it back gives it back when every annotation round-trips. */
  lemma FileRoundTrip(f: IR.AnnotatedFile, parse: FloatParser, formatFloat: real -> string)
    requires forall i :: 0 <= i < |f.annotations| ==>
               WholeBox(f.annotations[i].coords) && PortableAttributes(f.annotations[i].attributes, parse, formatFloat)
    ensures FromVIAFile(ToVIAFile(f, formatFloat), parse) == f
  {
    var g := FromVIAFile(ToVIAFile(f, formatFloat), parse);
    forall i | 0 <= i < |f.annotations|
      ensures g.annotations[i] == f.annotations[i]
    {
      RegionRoundTrip(f.annotations[i], parse, formatFloat);
    }
  }

  /** The exported image metadata holds exactly the paths of the files, each with the export of the
      last file at that path. */
  lemma ImageMetadataLastWins(irData: seq<IR.AnnotatedFile>, formatFloat: real -> string, i: nat)
    requires i < |irData|
    requires forall j :: i < j < |irData| ==> irData[j].filePath != irData[i].filePath
    ensures var m := MapFrom(irData, FileEntry(formatFloat));
            irData[i].filePath in m && m[irData[i].filePath] == ToVIAFile(irData[i], formatFloat)
  {
    var e := FileEntry(formatFloat);
    var k := irData[i].filePath;
    assert e(irData[i]).Some? && e(irData[i]).value.0 == k;
    MapFromLast(irData, e, k);
    var i' :| 0 <= i' < |irData| && e(irData[i']).Some? && e(irData[i']).value.0 == k
      && MapFrom(irData, e)[k] == e(irData[i']).value.1
      && forall j :: i' < j < |irData| ==> !(e(irData[j]).Some? && e(irData[j]).value.0 == k);
    assert i' == i;
  }
}
