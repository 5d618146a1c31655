/** AWS Rekognition detect-text results (aws_detect_text.go): every text detection becomes one
    annotation whose label tells lines from words. Reading and decoding the JSON label file and the
    image header are inputs. */
module AWSDetectText {
  import opened Common
  import opened AWSGeneral
  import Utils
  import IR

  /** The geometry of a detection: its normalised box and polygon. */
  datatype AWSGeometry = AWSGeometry(boundingBox: AWSBoundingBox, polygon: seq<AWSPoint>)

  /** One text detection: confidence in [0, 100], the text, the geometry, its ID, its parent's ID
      (none for a line) and its type ("LINE" or "WORD"). */
  datatype AWSTextDetection =
    AWSTextDetection(confidence: real, detectedText: string, geometry: AWSGeometry, id: int, parentID: Option<int>, textType: string)

  /** The detect-text result for one image. */
  datatype AWSDTAnnotatedFile = AWSDTAnnotatedFile(annotations: seq<AWSTextDetection>, filePath: string)

  /** The label of a detection of the given type: "Text_Line", "Text_Word", or "Text" for any other
      type. */
  function TextLabel(textType: string): (name: string)
    ensures textType == "LINE" <==> name == "Text_Line"
    ensures textType == "WORD" <==> name == "Text_Word"
    ensures textType != "LINE" && textType != "WORD" <==> name == "Text"
  {
    if textType == "LINE" then "Text_Line" else if textType == "WORD" then "Text_Word" else "Text"
  }

  /** The annotation of a detection: the label of its type, its confidence scaled to [0, 1] and its
      text as attributes, and its box in pixels. */
  function DetectionAnnotation(a: AWSTextDetection, img: ImageConfig): IR.Annotation
  {
    IR.Annotation(map[IR.Confidence := IR.FloatValue(a.confidence / 100.0), IR.DetectedText := IR.StringValue(a.detectedText)],
                  ImageCoords(a.geometry.boundingBox, img), TextLabel(a.textType))
  }

  /** The annotations of the detections, one per detection, in order. */
  function Detections(detections: seq<AWSTextDetection>, img: ImageConfig): seq<IR.Annotation>
  {
    seq(|detections|, i requires 0 <= i < |detections| => DetectionAnnotation(detections[i], img))
  }

  // ----- parseAWSDetectTextFile -----

  /** The decoded label file at a path, or the error reading or decoding it. */
  type LabelDecoder = string -> Result<AWSDTAnnotatedFile>

  /** decodeImageConfig: the pixel size of the image at a path, or the error reading it. */
  type ConfigDecoder = string -> Result<ImageConfig>

  /** parseAWSDetectTextFile as a label parser: the errors of decoding the label file and the image
      header are passed on; otherwise the file of the image holds one annotation per detection. */
  function DetectTextParser(decode: LabelDecoder, config: ConfigDecoder): Utils.LabelParser
  {
    (labelPath: string, imagePath: string) =>
      match decode(labelPath)
      case Err(e) => Err(e)
      case Ok(awsFileData) =>
        match config(imagePath)
        case Err(e) => Err(e)
        case Ok(img) => Ok(IR.AnnotatedFile(Detections(awsFileData.annotations, img), imagePath))
  }

  lemma DetectTextParserApplies(decode: LabelDecoder, config: ConfigDecoder, labelPath: string, imagePath: string)
    ensures DetectTextParser(decode, config)(labelPath, imagePath) ==
      match decode(labelPath)
      case Err(e) => Err(e)
      case Ok(awsFileData) =>
        match config(imagePath)
        case Err(e) => Err(e)
        case Ok(img) => Ok(IR.AnnotatedFile(Detections(awsFileData.annotations, img), imagePath))
  {
  }

  method ParseAWSDetectTextFile(labelPath: string, imagePath: string, decode: LabelDecoder, config: ConfigDecoder)
    returns (r: Result<IR.AnnotatedFile>)
    ensures r == DetectTextParser(decode, config)(labelPath, imagePath)
  {
    DetectTextParserApplies(decode, config, labelPath, imagePath);
    var awsFileData := decode(labelPath);
    if awsFileData.Err? {
      return Err(awsFileData.error);
    }
    // Get the image width and height.
    var img := config(imagePath);
    if img.Err? {
      return Err(img.error);
    }
    var annotations := ConvertDetections(awsFileData.value.annotations, img.value);
    return Ok(IR.AnnotatedFile(annotations, imagePath));
  }

  /** The conversion loop: each detection is converted, relabelled by its type and appended. */
  method ConvertDetections(detections: seq<AWSTextDetection>, img: ImageConfig) returns (annotations: seq<IR.Annotation>)
    ensures |annotations| == |detections|
    ensures forall i :: 0 <= i < |detections| ==>
              && annotations[i].name == TextLabel(detections[i].textType)
              && annotations[i].attributes == map[IR.Confidence := IR.FloatValue(detections[i].confidence / 100.0),
                                                  IR.DetectedText := IR.StringValue(detections[i].detectedText)]
              && annotations[i].coords == ImageCoords(detections[i].geometry.boundingBox, img)
    ensures annotations == Detections(detections, img)
  {
    annotations := [];
    for i := 0 to |detections|
      invariant annotations == Detections(detections[..i], img)
    {
      var a := detections[i];
      var annotation := IR.Annotation(map[IR.Confidence := IR.FloatValue(a.confidence / 100.0),
                                          IR.DetectedText := IR.StringValue(a.detectedText)],
                                      ImageCoords(a.geometry.boundingBox, img), "Text");
      if a.textType == "LINE" {
        annotation := annotation.(name := "Text_Line");
      } else if a.textType == "WORD" {
        annotation := annotation.(name := "Text_Word");
      }
      assert annotation == DetectionAnnotation(a, img);
      assert Detections(detections[..i + 1], img) == Detections(detections[..i], img) + [annotation];
      annotations := annotations + [annotation];
    }
    assert detections[..|detections|] == detections;
  }

  /** FromAWSDetectText: the ".json" label files of labelDir, paired by stem with the images of
      imageDir and parsed as above. */
  method FromAWSDetectText(labelDir: Utils.Dir, imageDir: Utils.Dir, decode: LabelDecoder, config: ConfigDecoder)
    returns (r: Result<seq<IR.AnnotatedFile>>)
    ensures !Utils.Lists(labelDir) ==> r == Err(Utils.DirError(labelDir))
    ensures Utils.Lists(labelDir) && !Utils.Lists(imageDir) ==> r == Err(Utils.DirError(imageDir))
    ensures Utils.Lists(labelDir) && Utils.Lists(imageDir) ==>
      r == Ok(FilterMap(Utils.DirFiles(labelDir, ".json"),
                        Utils.MatchLabel(Utils.NameExts(Utils.DirFiles(imageDir, "")), imageDir.path, DetectTextParser(decode, config))))
  {
    r := Utils.ParseLabelDirs(labelDir, ".json", imageDir, DetectTextParser(decode, config));
  }
}
