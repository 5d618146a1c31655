/** AWS Rekognition detect-labels results (aws_detect_labels.go): every instance of a detected label
    becomes one annotation. Reading and decoding the JSON label file and the image header are inputs. */
module AWSDetectLabels {
  import opened Common
  import opened AWSGeneral
  import Utils
  import IR

  /** An object instance of a label: its normalised box and its confidence in [0, 100]. */
  datatype AWSInstance = AWSInstance(boundingBox: AWSBoundingBox, confidence: real)

  /** A parent of a label in the label taxonomy. */
  datatype AWSParent = AWSParent(name: string)

  /** A detected label: its confidence in [0, 100], its instances, its name and its parents. */
  datatype AWSLabel = AWSLabel(confidence: real, instances: seq<AWSInstance>, name: string, parents: seq<AWSParent>)

  /** The detect-labels result for one image. */
  datatype AWSDLAnnotatedFile = AWSDLAnnotatedFile(annotations: seq<AWSLabel>, filePath: string, modelVersion: string)

  /** The parent names, in order. */
  function ParentNames(parents: seq<AWSParent>): (names: seq<string>)
    ensures |names| == |parents| && forall i :: 0 <= i < |parents| ==> names[i] == parents[i].name
  {
    seq(|parents|, i requires 0 <= i < |parents| => parents[i].name)
  }

  /** The annotation of one instance of label a: the label's name, its parents as the Ancestors
      attribute, the instance's confidence scaled to [0, 1] and its box in pixels. */
  function InstanceAnnotation(a: AWSLabel, inst: AWSInstance, img: ImageConfig): IR.Annotation
  {
    IR.Annotation(map[IR.AncestorLabels := IR.StringsValue(ParentNames(a.parents)),
                      IR.Confidence := IR.FloatValue(inst.confidence / 100.0)],
                  ImageCoords(inst.boundingBox, img), a.name)
  }

  /** The annotations of one label, one per instance, in instance order. */
  function LabelAnnotations(a: AWSLabel, img: ImageConfig): seq<IR.Annotation>
  {
    seq(|a.instances|, j requires 0 <= j < |a.instances| => InstanceAnnotation(a, a.instances[j], img))
  }

  /** The instances of the labels unrolled: label order, then instance order. */
  function Unroll(labels: seq<AWSLabel>, img: ImageConfig): seq<IR.Annotation>
  {
    if labels == [] then [] else Unroll(labels[..|labels| - 1], img) + LabelAnnotations(labels[|labels| - 1], img)
  }

  /** The number of instances of all labels. */
  function InstanceCount(labels: seq<AWSLabel>): nat
  {
    if labels == [] then 0 else InstanceCount(labels[..|labels| - 1]) + |labels[|labels| - 1].instances|
  }

  // ----- parseAWSDetectLabelsFile -----

  /** The decoded label file at a path, or the error reading or decoding it. */
  type LabelDecoder = string -> Result<AWSDLAnnotatedFile>

  /** decodeImageConfig: the pixel size of the image at a path, or the error reading it. */
  type ConfigDecoder = string -> Result<ImageConfig>

  /** parseAWSDetectLabelsFile as a label parser: the errors of decoding the label file and the image
      header are passed on; otherwise the file of the image holds the unrolled instances. */
  function DetectLabelsParser(decode: LabelDecoder, config: ConfigDecoder): Utils.LabelParser
  {
    (labelPath: string, imagePath: string) =>
      match decode(labelPath)
      case Err(e) => Err(e)
      case Ok(awsFileData) =>
        match config(imagePath)
        case Err(e) => Err(e)
        case Ok(img) => Ok(IR.AnnotatedFile(Unroll(awsFileData.annotations, img), imagePath))
  }

  lemma DetectLabelsParserApplies(decode: LabelDecoder, config: ConfigDecoder, labelPath: string, imagePath: string)
    ensures DetectLabelsParser(decode, config)(labelPath, imagePath) ==
      match decode(labelPath)
      case Err(e) => Err(e)
      case Ok(awsFileData) =>
        match config(imagePath)
        case Err(e) => Err(e)
        case Ok(img) => Ok(IR.AnnotatedFile(Unroll(awsFileData.annotations, img), imagePath))
  {
  }

  method ParseAWSDetectLabelsFile(labelPath: string, imagePath: string, decode: LabelDecoder, config: ConfigDecoder)
    returns (r: Result<IR.AnnotatedFile>)
    ensures r == DetectLabelsParser(decode, config)(labelPath, imagePath)
  {
    DetectLabelsParserApplies(decode, config, labelPath, imagePath);
    var awsFileData := decode(labelPath);
    if awsFileData.Err? {
      return Err(awsFileData.error);
    }
    // Get the image width and height.
    var img := config(imagePath);
    if img.Err? {
      return Err(img.error);
    }
    var annotations := UnrollInstances(awsFileData.value.annotations, img.value);
    return Ok(IR.AnnotatedFile(annotations, imagePath));
  }

  /** The conversion loop: the instances of each label are appended one by one. */
  method UnrollInstances(labels: seq<AWSLabel>, img: ImageConfig) returns (annotations: seq<IR.Annotation>)
    ensures annotations == Unroll(labels, img)
  {
    annotations := [];
    for k := 0 to |labels|
      invariant annotations == Unroll(labels[..k], img)
    {
      var a := labels[k];
      // Convert the parents attribute to a list of names.
      var ancestors := CopyParentNames(a.parents);
      // Only labels with instances yield annotations, one per instance.
      for m := 0 to |a.instances|
        invariant annotations == Unroll(labels[..k], img) + LabelAnnotations(a, img)[..m]
      {
        var inst := a.instances[m];
        var annotation := IR.Annotation(map[IR.AncestorLabels := IR.StringsValue(ancestors),
                                            IR.Confidence := IR.FloatValue(inst.confidence / 100.0)],
                                        ImageCoords(inst.boundingBox, img), a.name);
        assert LabelAnnotations(a, img)[..m + 1] == LabelAnnotations(a, img)[..m] + [annotation];
        annotations := annotations + [annotation];
      }
      assert labels[..k + 1][..k] == labels[..k];
      assert LabelAnnotations(a, img)[..|a.instances|] == LabelAnnotations(a, img);
    }
    assert labels[..|labels|] == labels;
  }

  /** The ancestors slice, allocated at full length and filled by index. */
  method CopyParentNames(parents: seq<AWSParent>) returns (names: seq<string>)
    ensures names == ParentNames(parents)
  {
    var ancestors := new string[|parents|];
    for i := 0 to |parents|
      invariant forall j :: 0 <= j < i ==> ancestors[j] == parents[j].name
    {
      ancestors[i] := parents[i].name;
    }
    names := ancestors[..];
  }

  /** FromAWSDetectLabels: the ".json" label files of labelDir, paired by stem with the images of
      imageDir and parsed as above. */
  method FromAWSDetectLabels(labelDir: Utils.Dir, imageDir: Utils.Dir, decode: LabelDecoder, config: ConfigDecoder)
    returns (r: Result<seq<IR.AnnotatedFile>>)
    ensures !Utils.Lists(labelDir) ==> r == Err(Utils.DirError(labelDir))
    ensures Utils.Lists(labelDir) && !Utils.Lists(imageDir) ==> r == Err(Utils.DirError(imageDir))
    ensures Utils.Lists(labelDir) && Utils.Lists(imageDir) ==>
      r == Ok(FilterMap(Utils.DirFiles(labelDir, ".json"),
                        Utils.MatchLabel(Utils.NameExts(Utils.DirFiles(imageDir, "")), imageDir.path, DetectLabelsParser(decode, config))))
  {
    r := Utils.ParseLabelDirs(labelDir, ".json", imageDir, DetectLabelsParser(decode, config));
  }

  // ----- properties -----

  /** One annotation per instance: labels without instances contribute nothing. */
  lemma {:induction false} UnrollCount(labels: seq<AWSLabel>, img: ImageConfig)
    ensures |Unroll(labels, img)| == InstanceCount(labels)
  {
    if labels != [] {
      UnrollCount(labels[..|labels| - 1], img);
    }
  }

  /** The annotations of a prefix of the labels are a prefix of the annotations. */
  lemma {:induction false} UnrollPrefix(labels: seq<AWSLabel>, k: nat, img: ImageConfig)
    requires k <= |labels|
    ensures Unroll(labels[..k], img) <= Unroll(labels, img)
    decreases |labels| - k
  {
    if k < |labels| {
      UnrollPrefix(labels, k + 1, img);
      assert labels[..k + 1][..k] == labels[..k];
    } else {
      assert labels[..k] == labels;
    }
  }

  /** Instance j of label i is annotation InstanceCount(labels[..i]) + j: output order is label order,
      then instance order. */
  lemma UnrollAt(labels: seq<AWSLabel>, i: nat, j: nat, img: ImageConfig)
    requires i < |labels| && j < |labels[i].instances|
    ensures InstanceCount(labels[..i]) + j < |Unroll(labels, img)|
    ensures Unroll(labels, img)[InstanceCount(labels[..i]) + j] == InstanceAnnotation(labels[i], labels[i].instances[j], img)
  {
    UnrollPrefix(labels, i + 1, img);
    assert labels[..i + 1][..i] == labels[..i];
    UnrollCount(labels[..i], img);
  }

  /** Every annotation is the annotation of some instance of some label. */
  lemma {:induction false} UnrollFrom(labels: seq<AWSLabel>, k: nat, img: ImageConfig)
    requires k < |Unroll(labels, img)|
    ensures exists i, j :: 0 <= i < |labels| && 0 <= j < |labels[i].instances|
              && Unroll(labels, img)[k] == InstanceAnnotation(labels[i], labels[i].instances[j], img)
  {
    var n := |labels| - 1;
    var init := labels[..n];
    if k < |Unroll(init, img)| {
      UnrollFrom(init, k, img);
      var i, j :| 0 <= i < |init| && 0 <= j < |init[i].instances|
        && Unroll(init, img)[k] == InstanceAnnotation(init[i], init[i].instances[j], img);
      assert labels[i] == init[i];
    } else {
      var j := k - |Unroll(init, img)|;
      assert Unroll(labels, img)[k] == InstanceAnnotation(labels[n], labels[n].instances[j], img);
    }
  }

  /** What each annotation holds: the label name, the parents' names in order as Ancestors, the
      instance confidence divided by 100, and the box scaled by the image width and height. */
  lemma InstanceAnnotationFields(a: AWSLabel, inst: AWSInstance, img: ImageConfig)
    ensures var ann := InstanceAnnotation(a, inst, img);
            && ann.name == a.name
            && ann.attributes.Keys == {IR.AncestorLabels, IR.Confidence}
            && ann.attributes[IR.Confidence] == IR.FloatValue(inst.confidence / 100.0)
            && ann.attributes[IR.AncestorLabels].StringsValue?
            && |ann.attributes[IR.AncestorLabels].l| == |a.parents|
            && (forall p :: 0 <= p < |a.parents| ==> ann.attributes[IR.AncestorLabels].l[p] == a.parents[p].name)
            && ann.coords == ImageCoords(inst.boundingBox, img)
  {
  }
}
