# lblconv in Dafny

lblconv converts object-detection labels between annotation formats. These are KITTI label files, Sloth and
VGG Image Annotator (VIA) projects, AWS Rekognition detect-labels and detect-text results, and
TensorFlow TFRecord shards with their label map. Every format is read into one intermediate
representation: a list of annotated files, each an image path with its annotations. An annotation is a
label, box corners `x1, y1, x2, y2` and typed attributes. Pipeline stages then run over that
representation:

- label mapping;
- bounding-box scaling and aspect-ratio growth;
- filtering;
- image resizing and object cropping;
- dataset splitting.

This project models that core and proves what each stage promises.

Layout, one module per Go file, plus three shared modules:

- `common.dfy` (`Common`): `Option`, `Result`, the error kinds and the first-error-wins rule.
- `strings.dfy` (`Strings`), `paths.dfy` (`Paths`): the parts of Go's `strings`, `strconv` and
  `path/filepath` the code relies on (split, replace-all, lower-casing, integer formatting, `Base`,
  `Ext`, `Split`, `Join`, `Clean` on `/`-separated paths).
- `ir.dfy` (`IR`): annotations, box geometry, `scaleCoords`, `cropObjectsFromImage`, `MapLabels`,
  `TransformBboxes`, `Filter` with its swap-with-last deletion, the per-file work of `processImage`,
  the configuration checks of `ProcessImages`, and `Split`. The `AnnotatedFiles` slice, which its methods
  update in place, is the class `IR.Dataset`.
- `image_utils.dfy` (`ImageUtils`): the target size, orientation, filter choice and scale factors of
  `resizeImage`, and the encoder choice of `saveImage`. An image is its bounds rectangle.
- `utils.dfy` (`Utils`): `splitPath`, `mapFileNamesToExtensions`, the matching loop of
  `parseLabelsWithOneToOneImages`, the name test of `filesByExtInDir`, and `closeWithErrCheck`.
  The error variable that the last one overwrites is the class `Utils.ErrorSlot`.
- `kitti.dfy`, `sloth.dfy`, `via.dfy`, `aws_general.dfy`, `aws_detect_labels.dfy`,
  `aws_detect_text.dfy`: the format converters, with their round trips.
- `tfrecord.dfy` (`TFRecord`): label-ID assignment, loading and saving the label map, shard sizing and
  naming, and the write loop of `WriteCustomTFRecord`. The package-level label map and next ID are the
  class `TFRecord.LabelRegistry`.

Coordinates and other floating-point values are `real`, and `math.Round` rounds half away from zero.
Some values come from outside the code: file contents, decoded JSON, image bounds, parsed numbers,
random draws and Go's map iteration order. The model takes these as parameters.

## Model

| member | source | states |
|---|---|---|
| AWSGeneral.ImageCoords | aws_detect_labels.go:81-86 | the pixel box: the left/top ratios times the image width/height give the first corner, and the size ratios times the width/height give the box size |
| AWSDetectLabels.ParentNames | aws_detect_labels.go:67-71 | the ancestors list has one entry per parent, each that parent's name, in order |
| AWSDetectLabels.DetectLabelsParserApplies | aws_detect_labels.go:41-95 | the parser passes on the error of decoding the label file, then that of the image header; otherwise the image's file holds the unrolled instances |
| AWSDetectLabels.ParseAWSDetectLabelsFile | aws_detect_labels.go:41-95 | parseAWSDetectLabelsFile is the label parser above |
| AWSDetectLabels.UnrollInstances | aws_detect_labels.go:66-92 | the nested loop appends the instances' annotations label by label, instance by instance |
| AWSDetectLabels.CopyParentNames | aws_detect_labels.go:67-71 | the slice filled by index holds the parents' names in order |
| AWSDetectLabels.FromAWSDetectLabels | aws_detect_labels.go:35-37 | a label or image directory that cannot be opened, or whose close fails, gives that error (label directory first); otherwise every ".json" label file with an image of the same stem is parsed, in order |
| AWSDetectLabels.UnrollCount | aws_detect_labels.go:66-92 | one annotation per instance: labels without instances contribute nothing |
| AWSDetectLabels.UnrollPrefix | aws_detect_labels.go:66-92 | the annotations of a prefix of the labels are a prefix of the annotations |
| AWSDetectLabels.UnrollAt | aws_detect_labels.go:66-92 | instance j of label i is annotation InstanceCount(labels[..i]) + j: label order, then instance order |
| AWSDetectLabels.UnrollFrom | aws_detect_labels.go:66-92 | every annotation is the annotation of some instance of some label |
| AWSDetectLabels.InstanceAnnotationFields | aws_detect_labels.go:73-90 | each annotation has the label's name, exactly the attributes Ancestors (the parent names in order) and Confidence (the instance confidence / 100), and the scaled pixel box |
| AWSDetectText.TextLabel | aws_detect_text.go:80-86 | type "LINE" gives exactly "Text_Line", "WORD" exactly "Text_Word", and any other type exactly "Text" |
| AWSDetectText.DetectTextParserApplies | aws_detect_text.go:43-92 | the parser passes on the error of decoding the label file, then that of the image header; otherwise the image's file holds one annotation per detection |
| AWSDetectText.ParseAWSDetectTextFile | aws_detect_text.go:43-92 | parseAWSDetectTextFile is the label parser above |
| AWSDetectText.ConvertDetections | aws_detect_text.go:63-89 | one annotation per detection, in order: label by type, attributes exactly Confidence (confidence / 100) and DetectedText (the text), box scaled to pixels |
| AWSDetectText.FromAWSDetectText | aws_detect_text.go:34-36 | a label or image directory that cannot be opened, or whose close fails, gives that error (label directory first); otherwise every ".json" label file with an image of the same stem is parsed, in order |
| Common.KeepFirst | ir.go:476-481 | trySendError on a one-place channel: a full slot keeps its error, an empty one takes the new report |
| Common.FullSlotStays | ir.go:476-481 | once the slot holds an error, every later report is dropped |
| Common.FoldKeepsEarliest | ir.go:461-481 | starting empty, the slot stays empty exactly when no error was reported, and otherwise holds the earliest error reported |
| Common.FoldSlotSnoc | ir.go:476-481 | one more report folds onto the slot as KeepFirst |
| Common.OptSeq | kitti.go:56-89 | the contribution of one item has at most one element |
| Common.FilterMap | utils.go:113-135 | a "log and continue" loop yields at most one result per item |
| Common.FilterMapStep | utils.go:113-135 | one more item appends its result, if any |
| Common.FilterMapPrefix | utils.go:113-135 | the results of a prefix of the items are a prefix of the results |
| Common.FilterMapAt | kitti.go:56-89 | an item that succeeds contributes its value, after the values of the items before it |
| Common.FilterMapFrom | kitti.go:56-89 | every result comes from some item that succeeds, preceded by exactly the results of the earlier items |
| Common.MapFromStep | via.go:217 | assigning one more item's key in the loop updates the map at that key, or leaves it unchanged for a skipped item |
| Common.MapFromLast | via.go:217 | a key is in the map exactly when some item yields it, and it holds the value of the last such item |
| Common.EnumeratesSize | via.go:83 | a visiting order of a map's keys is as long as the map |
| Common.DistinctCount | via.go:83 | a repetition-free sequence holding exactly the elements of a set is as long as the set |
| ImageUtils.CanonRect | ir.go:90-92 | image.Rect orders the corners: min <= max on both axes, from the two given coordinates |
| ImageUtils.Intersect | ir.go:93 | Rectangle.Intersect contains exactly the pixels in both rectangles, and is the zero rectangle when empty |
| ImageUtils.Round | ir.go:90-92 | math.Round: within 1/2 of x, with halves rounded away from zero |
| ImageUtils.RoundDivIsRound | image_utils.go:38-40 | the integer rounded quotient equals math.Round of the exact quotient |
| ImageUtils.RoundDivNonneg | image_utils.go:38-40 | for a non-negative quotient, rounding is the floor of quotient + 1/2 |
| ImageUtils.FloorBetween | image_utils.go:38-40 | a value between n and n + 1 has floor n |
| ImageUtils.CastMul | image_utils.go:45 | integer products convert to real products |
| ImageUtils.MulMonotone | image_utils.go:38-40 | multiplying by a positive number keeps order |
| ImageUtils.ResizedBounds | image_utils.go:19-63 | the resized bounds start at the origin; the target longer side runs along the source's longer side (a square image counts as landscape) and the shorter along the shorter |
| ImageUtils.Rescale | image_utils.go:44-60 | the resized image has the bounds imaging.Resize gives for the requested size; the scale factors are the requested sides over the source's, computed from the request and not from the pixels produced; the downsampling filter is chosen exactly when the request has fewer pixels than the source |
| ImageUtils.ResampledBounds | image_utils.go:51-60 | imaging.Resize's output starts at the origin; it is empty for a negative side or when both sides are 0; it is exactly the requested size when both sides are positive; a side of 0 keeps the other side and is at least one pixel |
| ImageUtils.ResampledFollowsAspect | image_utils.go:51-60 | a requested side of 0 becomes the other side times the source's aspect ratio, rounded like math.Round, and at least 1 |
| ImageUtils.DerivedSides | image_utils.go:36-41 | with a source of at least one pixel each way and one positive requested side, the derived longer side is at least 1 and the shorter side is not negative |
| ImageUtils.DivAtLeast | image_utils.go:37-38 | a number at least q times d has a quotient by d of at least q |
| ImageUtils.MulLeInt | image_utils.go:37-38 | multiplying by a non-negative number keeps order |
| ImageUtils.ResizedHasPixels | image_utils.go:19-63 | when one requested side is positive, the resized image has at least one pixel in each direction |
| ImageUtils.ResizeSliverExample | image_utils.go:37-60 | a 300x1 image resized to a longer side of 100 becomes 100x1, although the derived shorter side rounds to 0 |
| ImageUtils.SliverResizes | image_utils.go:37-60 | resizing the 300x1 image to a longer side of 100 is the rescale to a requested 100x0 |
| ImageUtils.SliverRequested | image_utils.go:37-41 | the 300x1 image with longer side 100 and shorter side 0 requests 100x0 |
| ImageUtils.SliverResampled | image_utils.go:51-53 | imaging.Resize turns the 100x0 request for a 300x1 source into 100x1 |
| ImageUtils.SliverBounds | image_utils.go:51-53 | rescaling the 300x1 image to the requested 100x0 keeps one row of pixels |
| ImageUtils.SliverFilter | image_utils.go:43-49 | the 100x0 request has fewer pixels than the 300x1 source, so the downsampling filter is used |
| ImageUtils.SliverWidthScale | image_utils.go:52-55 | the width factor of the 300 to 100 rescale is 1/3 |
| ImageUtils.FlatScale | image_utils.go:52-55 | a request of height 0 gives a height factor of 0 |
| ImageUtils.Quotient | image_utils.go:54-59 | a quotient times its divisor is the dividend |
| ImageUtils.ResizeExample | image_utils.go:37-41 | a 200x100 image resized to a longer side of 100 with the shorter side derived becomes 100x50 |
| IR.ScaleCoords | ir.go:53-63 | scaleCoords multiplies every x coordinate by the width factor and every y coordinate by the height factor, leaving labels, attributes and the path untouched |
| IR.ScaleTwice | ir.go:53-63 | scaling twice is scaling once by the products of the factors |
| IR.ScaleBoxTwice | ir.go:53-63 | the same for one box |
| IR.MulAssoc | ir.go:53-63 | real multiplication is associative (the step ScaleBoxTwice needs) |
| IR.ScaleByOne | ir.go:53-63 | scaling by 1 on both axes changes nothing |
| IR.ScaledSizes | ir.go:53-63 | box width and height scale by the factors |
| IR.ParseRuleCorrect | ir.go:139-148 | a mapping parses exactly when it holds exactly one '='; the rule then reads back as old + "=" + new with no '=' in either part; otherwise the error names the mapping |
| IR.ParseRulesValues | ir.go:139-148 | all mappings parse exactly when each holds exactly one '='; there is then one rule per mapping, each reading back as its mapping |
| IR.ParseRulesFirstError | ir.go:139-148 | a failed parse names the first mapping without exactly one '=' |
| IR.MapLabelSnoc | ir.go:151-165 | applying one more rule replaces in the result of the earlier ones: the rules apply in order |
| IR.MapLabelIdentityRules | ir.go:151-165 | rules mapping a string to itself leave every label unchanged |
| IR.MapLabelAbsent | ir.go:151-165 | a label in which no rule's old string occurs is kept |
| IR.RewriteLabel | ir.go:155-160 | the rules are applied to a label in order, each replacing all occurrences |
| IR.Relabel | ir.go:152-163 | the labels of one file are rewritten in place, annotation by annotation |
| IR.TransformCoords | ir.go:183-218 | one box is scaled about its centre unless both factors are 1, then grown to the aspect ratio when it is positive |
| IR.ScaleBoxCorrect | ir.go:183-193 | scaling keeps the centre and multiplies width and height by the factors; factors of 1 change nothing |
| IR.GrowToAspectCorrect | ir.go:196-218 | growing keeps the centre and never shrinks a well-formed box; afterwards the box has exactly the requested aspect ratio when its height is not zero, and a zero-height box only grows vertically to width / ratio |
| IR.GrowWider | ir.go:207-211 | a too-narrow box is widened to the aspect ratio, keeping its centre and height |
| IR.GrowTaller | ir.go:212-216 | a too-wide box is heightened to the aspect ratio, keeping its centre and width |
| IR.GrowFlat | ir.go:200-216 | a zero-height box (ratio MaxFloat64) is grown vertically to width / ratio |
| IR.MulDiv | ir.go:196-218 | multiplying then dividing by a non-zero number gives the number back |
| IR.SwapDelete | ir.go:240-244 | deleteAnnotation shrinks the slice by one |
| IR.StableAppend | ir.go:261-344 | the order-preserving reference of a concatenation is the concatenation of the references |
| IR.CompactPermutes | ir.go:240-344 | swap-deletion scanning neither loses nor duplicates: the result is the scanned prefix plus, in some order, the kept values of the rest |
| IR.CompactDone | ir.go:261-344 | at the end of the scan everything is prefix |
| IR.DropCase | ir.go:240-244 | the permutation step for a dropped element |
| IR.KeepCase | ir.go:261-344 | the permutation step for a kept element |
| IR.DeleteKeepsStable | ir.go:240-244 | dropping by swap-deletion keeps the prefix and, up to order, the kept values of the rest |
| IR.KeepExtendsPrefix | ir.go:261-344 | keeping the element moves it into the prefix |
| IR.DropStep | ir.go:240-343 | after a drop the scan continues at the same index, on elements from the rest |
| IR.KeepStep | ir.go:261-344 | after a keep the scan continues at the next index |
| IR.StableMembers | ir.go:261-344 | the reference keeps exactly the values some element is kept as |
| IR.StableLength | ir.go:261-344 | the reference is no longer than the input, and as long when every element is kept |
| IR.CompactFixed | ir.go:261-344 | a scan keeping every element as itself changes nothing |
| IR.SwapDeleteTail | ir.go:240-244 | the elements left to scan after a swap-deletion come from those before it |
| IR.InList | ir.go:247-254 | inList is true exactly when the value occurs in the list |
| IR.CheckRequired | ir.go:313-323 | with no list value under a required key, the test passes exactly when every required key is present with a non-zero value |
| IR.RestrictAttributes | ir.go:326-332 | every attribute whose key is not listed is deleted, and the others are kept |
| IR.AnnotationPasses | ir.go:271-323 | an annotation is kept exactly when it passes the confidence, size, aspect, label and required-attribute tests, in that order |
| IR.FilterAnnotations | ir.go:267-333 | the annotation loop deletes failing annotations by moving the last one into their slot and examining it next, and restricts the attributes of kept ones |
| IR.KeptAnnotationsCorrect | ir.go:240-333 | one file's filtered annotations are exactly those that pass every test, each restricted to the listed attributes, once each and in some order, and no more than before |
| IR.FilterFilesCorrect | ir.go:261-344 | the filtered files are exactly the files that still have annotations or need none, each with its filtered annotations and path, once each in some order; without requireLabel no file is dropped |
| IR.ProjectScreened | ir.go:271-310 | restricting the attributes keeps the confidence, size, aspect and label tests passing and leaves only listed keys |
| IR.FilterOutputSound | ir.go:235-348 | every annotation left passes the confidence, size, aspect and label tests and holds only listed attributes; with requireLabel no file is left empty |
| IR.RequiredScanRestrict | ir.go:313-332 | restricting to a list containing the required keys keeps the required test passing |
| IR.ProjectedKept | ir.go:267-333 | a kept, restricted annotation is kept unchanged by a second pass |
| IR.FilteredFileFixed | ir.go:261-344 | a file as Filter leaves it passes a second pass unchanged, without panicking |
| IR.FilterIdempotent | ir.go:235-348 | when the attribute list keeps the required attributes, filtering twice equals filtering once, and the second pass cannot panic |
| IR.FilterNotIdempotentExample | ir.go:313-332 | without that provision a second pass removes more: an annotation kept for its required "Text" loses it to the list ["Confidence"] and then fails |
| IR.CollectMembers | ir.go:88-122 | the collected crops are exactly the present ones, at most one per annotation |
| IR.CropOne | ir.go:89-121 | one loop iteration yields the crop of annotation i, or nothing when its clipped box has no pixels |
| IR.CropObjectsFromImage | ir.go:75-125 | an image type without SubImage is an error; otherwise the crops of the annotations in order, skipping boxes that miss the image |
| IR.CropImageSound | ir.go:90-96 | a crop is the sub-image over the rounded, clipped box, which lies inside the image and has pixels |
| IR.CropFileSound | ir.go:98-118 | a crop's file is at the crop path and holds one annotation covering the whole crop, with the original's label, all its attributes and CropCoords of the box |
| IR.CropsUpToMembers | ir.go:88-122 | the crops are exactly those of annotations whose clipped box has pixels, at most one each |
| IR.CropsSized | ir.go:88-122 | every crop has pixels and carries one annotation |
| IR.CropPathInjective | ir.go:105-106 | different annotations of one file get different crop paths |
| IR.CropPathNamed | ir.go:105-106 | a crop path ends in a digit or the extension, so it names a file |
| IR.CropExampleRect | ir.go:90-94 | in a 10x10 image the box (12, 3.6)-(2.4, 8) is rounded, ordered and clipped to (2,4)-(10,8) |
| IR.CropExampleText | ir.go:102 | that rectangle is recorded as CropCoords "(2,4)(10,8)" |
| IR.CropPathParts | ir.go:105-106 | the i-th crop of stem + ext is saved as stem + "_" + i in at least two digits + ext |
| IR.ZeroPadTwo | ir.go:106 | the first crop's index is written "00" |
| IR.RunStepsFrom | ir.go:512-546 | the run from index i begins with the step on item i: a failure ends it, a success is followed by the rest |
| IR.RunStepsAdvance | ir.go:512-546 | one more image: a failure ends the run with its error, a success joins the images done |
| IR.ContinueOne | ir.go:512-546 | moving one image from the rest of the run to the images done |
| IR.FileRunApplies | ir.go:412-459 | the per-file run of the loop is processImage |
| IR.GatherSnoc | ir.go:412-459 | gathering one more file appends its crops' files (crop mode) or its update (or the file itself without one), its saved images, and keeps the first error |
| IR.GatherReplaces | ir.go:447-449 | outside crop mode, processing one more file replaces it in place by its update, when it has one |
| IR.ConsTail | ir.go:447-449 | a suffix is its first element followed by the rest |
| IR.GatherLength | ir.go:447-449 | outside crop mode every file keeps its place |
| IR.ProcessFiles | ir.go:412-464 | the loop of ProcessImages processes every file in order, replaces the metadata by its update or by its crops' files, collects the saved images and keeps the first error |
| IR.ProcessImage | ir.go:472-547 | processImage: a load failure is the error; in crop mode an image without SubImage is an error, otherwise the crops are processed; else the image itself |
| IR.SaveAll | ir.go:512-546 | the loop over the original image or its crops stops at the first image that cannot be saved |
| IR.RunItems | ir.go:512-546 | items are processed in order up to the first that fails |
| IR.SaveItem | ir.go:513-545 | one iteration resizes when enabled, saves under the output path, and updates the metadata |
| IR.GatherErr | ir.go:461-464 | the error slot after gathering is the fold of the files' errors in order |
| IR.ProcessErrorIsFirst | ir.go:461-464 | the error returned is that of the first file that fails, and there is none exactly when every file succeeds |
| IR.RunStepsPaired | ir.go:512-546 | a step pairing each saved image with metadata pointing at it pairs every image of the run |
| IR.ItemStepPaired | ir.go:527-540 | saving one image yields metadata that points at the saved file and keeps its annotations |
| IR.ProcessItemsPaired | ir.go:512-546 | each image saved for a file has its metadata, pointing at it, with the same number of annotations |
| IR.RunStepsSaved | ir.go:512-546 | every image a run saves was saved by the step of one of its items |
| IR.GatherSaved | ir.go:412-459 | every image gathered was saved while processing one of the files |
| IR.OutPathFormat | ir.go:527-530 | the output path of a named file carries the requested extension, so saveImage encodes as requested |
| IR.OutNamePlain | ir.go:527-529 | the output name is a plain file name with the requested extension |
| IR.StemNoSep | ir.go:527-529 | the stem of a named file holds no separator |
| IR.PrefixNoSep | ir.go:529 | a prefix of a separator-free string is separator-free |
| IR.PlainWithExt | ir.go:529 | stem + output extension is a plain name with that extension |
| IR.FormatShape | ir.go:394-402 | each output extension is a dot and three dot-free characters |
| IR.FormatEncoder | image_utils.go:95-100 | saveImage's choice for the output extension is the encoder asked for |
| IR.ItemStepFormat | ir.go:527-534 | one saved image of a named file is under the output path, with the requested extension and encoder |
| IR.ItemStepSaved | ir.go:527-534 | the saved image is under the output path, encoded as its extension selects |
| IR.CropsNamed | ir.go:105-106 | the crops' paths name files |
| IR.ProcessItemsFormat | ir.go:512-546 | every image saved for the items has the requested extension and encoder |
| IR.ProcessFileFormat | ir.go:472-547 | every image saved for one file has the requested extension and encoder (outside crop mode, when its path names a file) |
| IR.ProcessAllFormat | ir.go:412-459 | every image saved while processing the files has the requested extension and encoder |
| IR.FileExtensionFormat | ir.go:394-402 | "png" in any case gives ".png" and PNG; "jpg" and "jpeg" give ".jpg" and JPEG at the given quality |
| IR.ProcessImagesFormat | ir.go:356-467 | every image ProcessImages saves is encoded as the encoding option asks, under a path with the matching extension |
| IR.GatherCropPaired | ir.go:436-458 | in crop mode the gathered files pair one to one with the saved images, each with one annotation |
| IR.ProcessFileCropPaired | ir.go:493-546 | in crop mode each file yields the metadata of the crops it saved, paired with them |
| IR.ProcessAllCropped | ir.go:412-459 | in crop mode the metadata lists exactly the saved crops in order, each pointing at its image with one annotation, even when an error ended the run early |
| IR.GatherInPlace | ir.go:537-540 | outside crop mode each file keeps its place, becoming its update when it has one |
| IR.ProcessImagesConfigChecked | ir.go:356-403 | without resizing or cropping the files are returned unchanged with no error; an unknown down- or upsampling filter name or an encoding other than jpg, jpeg or png in any case returns that error, the files unchanged and nothing saved |
| IR.ProcessFileInPlace | ir.go:506-545 | outside crop mode a file gets an update exactly when it is processed without error; the update points at the output path and keeps every annotation |
| IR.RunStepsSingle | ir.go:506-545 | a run over one image is that image's step |
| IR.ItemStepOut | ir.go:527-540 | the metadata of a saved image points at the output path and keeps every annotation |
| IR.ProcessAllInPlace | ir.go:537-540 | outside crop mode the k-th file is updated to the output path with all its annotations when it succeeds, and left as it was when it fails |
| IR.UpdateInPlace | ir.go:537-540 | the entry replacing a file outside crop mode is its update on success, the file itself on failure |
| IR.Pick | ir.go:573-578 | the bucket of a draw is the first index whose cumulative split exceeds it; none when no split does |
| IR.PickFirst | ir.go:573-578 | any index whose split exceeds the draw while no earlier split does is the bucket Pick names |
| IR.PickInterval | ir.go:570-579 | with non-decreasing splits a draw r >= 0 lands in bucket i exactly when it lies in [splits[i-1], splits[i]) |
| IR.MergeUpdate | ir.go:575 | appending a file to one bucket adds it once to the buckets' multiset |
| IR.BucketsPartition | ir.go:570-579 | when every draw picks a bucket, the buckets hold each file exactly once |
| IR.BucketsSnoc | ir.go:571-578 | the last file joins the bucket its draw picks |
| IR.MergeEmpty | ir.go:554-562 | empty buckets hold nothing |
| IR.SplitIsPartition | ir.go:553-582 | a successful split has one dataset per split and places every file in exactly one dataset |
| IR.Dataset.constructor | ir.go:47-50 | a dataset holds the given files |
| IR.Dataset.MapLabels | ir.go:133-169 | an invalid mapping is reported before any label changes, leaving the files unchanged; otherwise every label of every file has the replacements applied in order |
| IR.Dataset.Filter | ir.go:235-348 | the files become FilterFiles of the old files (see FilterFilesCorrect and FilterOutputSound) |
| IR.Dataset.TransformBboxes | ir.go:177-221 | every box of every file is scaled about its centre and then grown to the aspect ratio |
| IR.Dataset.ProcessImages | ir.go:356-467 | the files, the images saved and the error are those of ProcessImagesResult: nothing happens without resizing or cropping; filter names and encoding are checked first; then every file is processed |
| IR.Dataset.Split | ir.go:553-582 | splits not ending at 100 are an error; otherwise one dataset per split, each file in the first dataset whose cumulative split exceeds its draw, in file order |
| IR.FirstAbove | ir.go:573-578 | with a last split of 100 and a draw in [0, 100) the inner loop stops at the bucket Pick names |
| IR.BucketSnoc | ir.go:571-578 | dealing one more file extends exactly the bucket its draw picks |
| IR.ParseRulesSnoc | ir.go:140-148 | parsing one more mapping keeps an earlier error, or appends its rule or reports its error |
| IR.ParseRulesPrefixErr | ir.go:140-148 | an error in a prefix of the mappings is the error of the whole list |
| Kitti.ParseKittiAnnotation | kitti.go:95-121 | the parse equals ParseAnnotation: fewer than 8 tokens is an error; label = token 0; box = tokens 4–7, the first unparseable one an error; with 16 or more tokens the score is token 15, unparseable an error; otherwise score 0 |
| Kitti.LineRoundTrip | kitti.go:95-173 | parsing the line WriteKitti writes for an annotation gives that annotation back, when its label holds no space and its numbers read back as formatted |
| Kitti.TokensReadBack | kitti.go:105-173 | the box tokens (4–7) and score token (15) of a written line parse to the annotation's box and score |
| Kitti.TokensNoSpace | kitti.go:98 | no field of a written line holds a space, so splitting on spaces recovers exactly the 16 written fields |
| Kitti.ParseFullLine | kitti.go:98-120 | a 16-token line whose box and score tokens parse yields the annotation of token 0, tokens 4–7 and token 15 |
| Kitti.ParseIgnoresOtherTokens | kitti.go:98-120 | only token 0, tokens 4–7, token 15 and the thresholds 8 and 16 matter: lines agreeing on those parse alike |
| Kitti.LineAnnotationApplies | kitti.go:66-72 | a line contributes the bare annotation (box and label, no attributes) of its parse, or nothing when it fails |
| Kitti.ParseLines | kitti.go:64-73 | the annotations of a label file are those of the lines that parse, in line order; failing lines are skipped |
| Kitti.LinesKept | kitti.go:64-73 | every kept annotation comes from a parsing line and has no attributes; every parsing line yields one, placed after those of earlier lines |
| Kitti.LabelFileApplies | kitti.go:56-88 | a label file is skipped when it cannot be read or has no image of the same stem; otherwise it yields its parsed annotations with the joined image path |
| Kitti.ParseLabelFile | kitti.go:57-88 | one loop iteration of parseKittiAnnotations yields LabelFile of the path |
| Kitti.ParseLabelFiles | kitti.go:55-91 | the result is the kept label files' annotated files, in label-file order |
| Kitti.ParseKittiAnnotations | kitti.go:46-92 | an image directory that cannot be opened, or whose close fails, gives that error; otherwise the label files are parsed against the stem→extension map of the listed images |
| Kitti.FromKitti | kitti.go:29-42 | a label or image directory that cannot be opened, or whose close fails, gives that error (label directory first); otherwise the ".txt" files of the label directory are parsed against the images |
| Kitti.ToKittiFile | kitti.go:128-142 | the exported file keeps the path and has one KITTI annotation per annotation, in order, each ToKittiAnnotation of it |
| Kitti.ToKitti | kitti.go:124-147 | one KITTI file per file, in order, each with one annotation per annotation, in order |
| Kitti.ToKittiRoundTrip | kitti.go:71-139 | exporting and re-importing an annotation keeps box and label and drops the attributes; the score is the float Confidence when present, otherwise 0 |
| Kitti.LabelPathSplits | kitti.go:159-163 | the label path is an error exactly when the image path has no extension; otherwise it splits back into the directory, the image's stem and "txt" |
| Kitti.LabelPathOfStem | kitti.go:156-163 | directory + separator + stem + ".txt" splits into that directory, stem and "txt" |
| Kitti.LabelPathInApplies | kitti.go:159-163 | the per-file label path function is LabelPath |
| Kitti.WriteKitti | kitti.go:150-185 | not a directory: error and nothing written; otherwise one label file per file in order, each holding that file's annotations; on error it stops at the first file whose path has no extension or whose file cannot be written, and reports that error |
| Kitti.WroteOneMore | kitti.go:157-182 | writing the next file's label file extends the written prefix by one |
| Sloth.ConvertSlothFile | sloth.go:43-57 | converting one decoded Sloth file yields exactly FromSlothFile of it: same path, one annotation per Sloth annotation in order, label from the class, far corner = corner + size |
| Sloth.FromSloth | sloth.go:29-61 | the decoded Sloth list becomes one annotated file per Sloth file, in order |
| Sloth.ConvertFile | sloth.go:66-83 | exporting one annotated file yields ToSlothFile of it: class "image", same path, one "rect" per annotation in order with size = far corner − near corner |
| Sloth.ToSloth | sloth.go:64-87 | one Sloth file per annotated file, in order |
| Sloth.ConversionShape | sloth.go:45-81 | both directions keep the path and the number and order of annotations; export writes class "image" and type "rect" and copies labels; import gives annotations with no attributes |
| Sloth.RoundTrip | sloth.go:49-80 | reading back an exported file restores path, labels and boxes exactly; only the attributes are lost |
| Sloth.RoundTripFromSloth | sloth.go:49-80 | a Sloth file with class "image" and only "rect" annotations is reproduced exactly by import followed by export |
| Sloth.DatasetRoundTrip | sloth.go:29-87 | over a whole dataset, ToSloth followed by FromSloth keeps every file in order, without attributes |
| Strings.Split | kitti.go:98 | strings.Split always yields at least one piece |
| Strings.SplitCount | ir.go:141 | Split yields one more piece than there are separators |
| Strings.SplitJoin | kitti.go:98 | joining the pieces with the separator gives the string back, and no piece holds the separator |
| Strings.SplitNoSep | ir.go:141 | a string without the separator is one piece |
| Strings.SplitAppend | kitti.go:98 | splitting at a separator splits the two sides independently |
| Strings.JoinSplit | kitti.go:98 | splitting the join of separator-free pieces gives the pieces back |
| Strings.JoinSnoc | kitti.go:171-173 | joining a list extended by one piece appends a separator and the piece |
| Strings.ReplaceSame | ir.go:158 | replacing a string by itself changes nothing |
| Strings.InterleaveEmpty | ir.go:158 | inserting "" at every position changes nothing |
| Strings.ReplaceAbsent | ir.go:158 | a non-empty pattern that does not occur leaves the string unchanged |
| Strings.TrimSuffix | utils.go:64 | with the suffix present the result followed by the suffix is the string; without it the string is unchanged |
| Strings.ToLower | image_utils.go:95 | lower-casing keeps the length |
| Strings.NatToString | tfrecord.go:130 | the decimal digits of n are at least one digit, and a single digit exactly when n < 10 |
| Strings.NatToStringRoundTrip | tfrecord.go:130 | reading back the decimal form of n gives n |
| Strings.ParseNatZeros | tfrecord.go:130 | a string of zeros reads as 0 |
| Strings.ParseNatLeadingZeros | tfrecord.go:130 | leading zeros do not change a decimal value |
| Strings.ZeroPadRoundTrip | tfrecord.go:130 | %0<width>d output has exactly max(width, digits) characters, all digits, and reads back as the number |
| Paths.LastIndex | utils.go:58 | the index of the last occurrence: in range or -1, pointing at the character, with none after it |
| Paths.SplitDirFile | utils.go:58 | filepath.Split: the two parts concatenate to the path, the file part holds no separator and the directory part is empty or ends in one |
| Paths.Ext | utils.go:59 | filepath.Ext is "" or a suffix of the path starting with its only dot and holding no separator |
| Paths.ExtSuffix | utils.go:59 | the final element from its last dot on is such a suffix |
| Paths.TrimTrailingSeps | ir.go:527 | the result is a prefix of the path that does not end in a separator |
| Paths.CleanElemsSnoc | kitti.go:86 | cleaning one more element is one more CleanStep |
| Paths.LastIndexAfter | kitti.go:86 | the last separator of dir + "/" + name is the one before name when name holds none |
| Paths.LastIndexNone | utils.go:58 | a name without a separator has none |
| Paths.CleanEndsWithName | utils.go:125 | cleaning dir + "/" + a plain name ends with that name, after a separator or alone |
| Paths.CleanElemsLast | utils.go:125 | a plain name after the directory stays the last cleaned element |
| Paths.AssembleLast | utils.go:125 | assembling elements that end with a name gives a path ending with that name |
| Paths.BaseExtOfLastElem | ir.go:527-528 | a path whose last element is a plain name has that name as Base and its extension as Ext |
| Paths.JoinKeepsName | ir.go:530 | filepath.Join of a directory and a plain file name keeps the name as Base, its extension as Ext and as the file part |
| Paths.LastIndexAt | utils.go:58-59 | the last c in a + c + b is the one between them when b holds none |
| Paths.ExtOfName | utils.go:59 | a single element made of a stem and a dot-extension has that extension |
| Paths.NamedBase | ir.go:527 | the base of a path that is not only separators is a single element |
| Paths.EndsInName | ir.go:527 | a path not ending in a separator is not only separators |
| TFRecord.Ratio32 | tfrecord.go:67-70 | float32 division by an image side is finite exactly for a non-zero side; by zero it is +Inf, -Inf or NaN as the coordinate is positive, negative or zero |
| TFRecord.RatioScales | tfrecord.go:67-70 | a finite ratio times the side gives the coordinate back |
| TFRecord.BoxColumn | tfrecord.go:60-70 | one entry per annotation, each coordinate k of its box divided by the image side |
| TFRecord.Names | tfrecord.go:64-71 | the class texts are the labels of the annotations, in order |
| TFRecord.AssignIDs | tfrecord.go:66-80 | one ID per label |
| TFRecord.AssignOneFacts | tfrecord.go:73-79 | one step from a valid map keeps it valid, enters the label with the ID it is given, keeps the other entries, and gives a new label the old next ID |
| TFRecord.AssignIDsFacts | tfrecord.go:66-80 | from a valid map every label gets the ID the final map holds for it; existing IDs never change; the map gains only the labels seen; new labels get IDs at or above next; the result is valid |
| TFRecord.AssignIDsKeeps | tfrecord.go:66-80 | validity, unchanged existing IDs and fresh IDs at or above next are preserved over the labels |
| TFRecord.AssignIDsLookup | tfrecord.go:66-80 | every label's ID is the one the final map holds for it |
| TFRecord.AssignIDsOrigin | tfrecord.go:76 | every label of the final map was in the map or among the labels |
| TFRecord.AssignIDsInjective | tfrecord.go:73-79 | assignment keeps the IDs of a valid map distinct |
| TFRecord.FirstInvalid | tfrecord.go:261-265 | the index of the first item without a name or with an ID <= 0, all items before it valid |
| TFRecord.MaxIDBounds | tfrecord.go:252-268 | the maximum is non-negative, no ID exceeds it, and it is one of the IDs when positive |
| TFRecord.LoadLabelMap | tfrecord.go:235-272 | a missing file and an unreadable one are told apart; the first invalid item is an error; otherwise every item is entered (later items win) with the largest ID |
| TFRecord.LoadedValid | tfrecord.go:259-271 | a loaded label map is valid with the next ID one past its largest |
| TFRecord.SaveError | tfrecord.go:217-227 | saving fails exactly when the file cannot be created or written |
| TFRecord.SaveLabelMap | tfrecord.go:205-228 | the items written list every entry of the map exactly once, and the error is that of creating or writing the file |
| TFRecord.ItemsOfDescribes | tfrecord.go:209-214 | the items of an enumeration of the keys describe the map |
| TFRecord.DescribesSize | tfrecord.go:208-214 | a description of a map has one item per entry |
| TFRecord.SaveLoadRoundTrip | tfrecord.go:205-272 | loading back the items saved for a map with non-empty names and positive IDs gives the map, with a maximum at least every ID |
| TFRecord.ShardCount | tfrecord.go:110-112 | a non-positive shard count becomes 1; a positive one is kept |
| TFRecord.ShardSize | tfrecord.go:134 | the shard size is at least 1 when there are files |
| TFRecord.ShardSizeFacts | tfrecord.go:134 | the shard size is n / ns rounded up: the least s with s * ns >= n |
| TFRecord.ShardIndexBound | tfrecord.go:134-141 | file i goes to shard i / shardSize, which is below ns: no more shards than asked are opened |
| TFRecord.ShardOf | tfrecord.go:138-141 | the shard of a file is one of the ns shards |
| TFRecord.ShardOfMonotone | tfrecord.go:138-141 | later files go to the same shard or a later one |
| TFRecord.DivMonotone | tfrecord.go:140-141 | integer division by a positive number keeps order |
| TFRecord.MulLe | tfrecord.go:134 | multiplying by a natural number keeps order |
| TFRecord.DivUnique | tfrecord.go:140-141 | the quotient of i by s is the q with q * s <= i < (q + 1) * s |
| TFRecord.ShardPathsDistinct | tfrecord.go:129-153 | with several shards, different shards have different paths |
| TFRecord.PadsDiffer | tfrecord.go:130 | different numbers are padded to 5 digits differently |
| TFRecord.MiddleDiffers | tfrecord.go:152 | strings that differ only in a middle part differ |
| TFRecord.ShardIndexStep | tfrecord.go:140-141 | the shard index advances by one exactly at multiples of the shard size |
| TFRecord.NextShard | tfrecord.go:140-153 | at file i a new shard opens exactly at a multiple of the shard size; the index is then i / shardSize and the path gets the -NNNNN-of-MMMMM suffix with more than one shard |
| TFRecord.StreamAt | tfrecord.go:138-177 | one more file: a shard that cannot be created stops the loop with an error; otherwise the file is emitted to its shard |
| TFRecord.LabelRegistry.constructor | tfrecord.go:30-33 | no label map is held and the next ID is 1 |
| TFRecord.LabelRegistry.EnsureLabelMap | tfrecord.go:114-127 | a held map is kept; otherwise the file is loaded (next ID one past its largest), a missing file starts an empty map with next ID 1, and another load error is returned with the state unchanged |
| TFRecord.LabelRegistry.ToTFRecord | tfrecord.go:36-93 | the image header and image read errors are returned with the labels unchanged; otherwise the feature map is built and new labels get the next IDs in the registry |
| TFRecord.LabelRegistry.PerLabelData | tfrecord.go:59-80 | each box column is the coordinate divided by the image side in float32, the classes are the labels, and the IDs are AssignIDs from the registry's map, which it leaves updated |
| TFRecord.LabelRegistry.WriteCustomTFRecord | tfrecord.go:102-184 | a label map load error is returned with nothing written; otherwise the write loop runs over every file and, unless a shard could not be created, the label map is saved with one item per entry and its save error returned |
| TFRecord.LabelRegistry.WriteExamples | tfrecord.go:133-177 | the write loop's records, label map, next ID and error are those of Stream over all files |
| TFRecord.LabelRegistry.WriteFile | tfrecord.go:139-176 | one pass: a shard that cannot be created ends the loop with an error; otherwise the file is written; only a stop carries an error |
| TFRecord.LabelRegistry.WriteExample | tfrecord.go:161-176 | a file that does not convert is skipped, a converted one is customised and written, and a failed write asks the loop to stop |
| TFRecord.LabelRegistry.WriteTFRecord | tfrecord.go:190-192 | WriteCustomTFRecord without a customiser: a label map that fails to load is returned as the error, writes nothing and keeps the registry; otherwise the records are the write loop's, the registry holds the loop's label map and next ID, and the label map is saved (and its save error returned) exactly when no shard failed |
| TFRecord.StreamStops | tfrecord.go:155-176 | once the loop has stopped, later files change nothing |
| TFRecord.SteppingShards | tfrecord.go:138-177 | each file adds at most one record, to shard i / shardSize under that shard's path |
| TFRecord.SteppingKeepsIDs | tfrecord.go:73-79 | each file keeps the label map valid and never changes an ID it holds |
| TFRecord.ConvertFileOk | tfrecord.go:38-47 | toTFRecord succeeds exactly when the image header decodes and the image can be read |
| TFRecord.SteppingWritesAll | tfrecord.go:138-177 | when every image reads, every shard is created and every write succeeds, each file adds one example on its shard and no error |
| TFRecord.StreamValid | tfrecord.go:138-177 | the loop keeps the label map valid and never changes an ID it already holds |
| TFRecord.StreamGrows | tfrecord.go:138-177 | file k - 1 adds at most one record, to its shard under that shard's path |
| TFRecord.LastShard | tfrecord.go:138-141 | the shard of the last file seen is one of the ns shards |
| TFRecord.StreamShards | tfrecord.go:138-177 | no example of the first k files goes past the shard of file k - 1 |
| TFRecord.StreamShardPaths | tfrecord.go:150-173 | every example is written under the path of its shard |
| TFRecord.StreamShardsOrdered | tfrecord.go:138-177 | the shards are filled in order: record shard indices never decrease |
| TFRecord.StreamShardsAdjacent | tfrecord.go:138-177 | each record's shard is at least that of the record before it |
| TFRecord.AppendBounded | tfrecord.go:173 | appending a record to a later shard keeps all records within that shard |
| TFRecord.AppendAdjacent | tfrecord.go:173 | appending to a shard no earlier than the last keeps neighbouring shards in order |
| TFRecord.ShardsSorted | tfrecord.go:138-177 | neighbour-wise non-decreasing shard indices are sorted |
| TFRecord.StreamAllWritten | tfrecord.go:138-177 | when every file is written, each of the first k files yields one example in order on shard i / shardSize, with no error |
| TFRecord.WrittenShards | tfrecord.go:133-177 | every example goes to an existing shard under that shard's path, and the shards are filled in order |
| TFRecord.WrittenIDs | tfrecord.go:133-177 | the loop keeps the label map valid and never renumbers a label |
| TFRecord.WrittenAll | tfrecord.go:133-177 | when everything succeeds, one example per file, in order, file i on shard i / shardSize, and no error |
| Utils.ExtOfElem | utils.go:59 | the extension of a single element starts at its last dot, or is empty without a dot |
| Utils.SplitPathCorrect | utils.go:57-69 | splitPath fails (naming the path) exactly when the final element has no dot; otherwise stem + "." + ext is the final element, ext has no dot, neither has a separator, and directory + separator + stem + "." + ext is the path |
| Utils.Reassemble | utils.go:57-69 | directory part and split final element put back together give the path |
| Utils.SplitElemCorrect | utils.go:58-68 | the same facts for a given directory part and final element |
| Utils.DotParts | utils.go:59-63 | an element split at its last dot gives a dot-free extension and separator-free parts |
| Utils.NoSepIn | utils.go:58 | the parts of a separator-free element are separator-free |
| Utils.StemExtApplies | utils.go:75-82 | each path contributes its stem and extension, or nothing when it has no extension |
| Utils.MapFileNamesToExtensions | utils.go:73-85 | the map equals entering the stems and extensions of the paths in order, skipping paths without an extension |
| Utils.NameExtsLast | utils.go:73-85 | a stem is mapped exactly when some path with an extension has it, and to the extension of the last such path |
| Utils.MatchLabelApplies | utils.go:113-135 | a label file is skipped when it has no extension or no image of its stem, or when its parse fails; otherwise it yields the parse |
| Utils.ParseLabelsWithOneToOneImages | utils.go:104-137 | the result is the kept label files' annotated files, in label-file order, against the stem→extension map of the images |
| Utils.ParseLabelDirs | utils.go:95-138 | a label or image directory that cannot be opened, or whose close fails, gives that error (label directory first); otherwise the label files with the given extension are matched against all listed images |
| Utils.ParseMatching | utils.go:113-135 | the loop keeps the matched and parsed label files, in order |
| Utils.ParseLabel | utils.go:114-134 | one iteration yields MatchLabel of the label path |
| Utils.ImagePathPaired | utils.go:115-125 | the image chosen for a label file has the label file's stem and the extension of a listed image with that stem |
| Utils.SplitOfJoin | utils.go:125 | a directory joined with stem + "." + ext splits back into that stem and extension |
| Utils.SplitElemOfName | utils.go:58-68 | an element whose last dot follows the stem splits into that stem and extension |
| Utils.StemOfName | utils.go:59 | the last dot of stem + "." + a dot-free extension is the one between them |
| Utils.EntryPathApplies | utils.go:40-45 | an entry is listed as directory-with-separator + name exactly when it is a regular file or symlink ending with ext |
| Utils.FilesByExtInDir | utils.go:16-53 | a directory that cannot be opened gives no files and an error naming it; otherwise the listed paths in entry order, and the error of the deferred close (closeWithErrCheck over the nil returned), so there is no error exactly when the directory opens and closes cleanly |
| Utils.ListEntries | utils.go:36-47 | the loop lists exactly the listable entries, in order |
| Utils.ListedPath | utils.go:40-45 | one entry's path, when it is listed |
| Utils.FilesByExtSound | utils.go:36-47 | every listed path is the directory with separator followed by the name of a regular file or symlink ending with ext |
| Utils.FilesByExtComplete | utils.go:36-47 | every regular file or symlink ending with ext is listed, after the paths of the entries before it |
| Utils.EmptySuffix | utils.go:42 | every name ends with "", so an empty ext lists every regular file and symlink |
| Utils.ErrorSlot.constructor | utils.go:177-182 | the slot starts with the function's error result (nil when FilesByExtInDir returns) |
| Utils.ErrorSlot.CloseWithErrCheck | utils.go:177-182 | a failed close is recorded only when no error is recorded yet (KeepFirst) |
| VIA.Wrap32 | via.go:113-176 | int32 arithmetic: the result is in int32 range, congruent to the input modulo 2^32, and equal to it when it already fits |
| VIA.Trunc | via.go:173-176 | Go's float-to-int conversion truncates toward zero: the result is the integer between 0 and x that is less than 1 away from x |
| VIA.RegionAttributes | via.go:93-110 | the imported attributes never hold "Label" and only hold keys of the region; every other non-Confidence attribute is kept as a string; Confidence is kept exactly when it parses, as that float |
| VIA.ConvertRegion | via.go:89-118 | converting one region, visiting its attributes in any order, gives FromRegion: label from "Label" (or ""), attributes as RegionAttributes, far corner = near corner + size in int32 |
| VIA.RegionAttributesStep | via.go:97-110 | visiting one more attribute adds exactly its imported value, or nothing when it is the label or an unparseable Confidence |
| VIA.ConvertVIAFile | via.go:85-119 | the regions of one image become its annotations, in order, with its path |
| VIA.FromVIA | via.go:69-124 | one annotated file per image entry, in the visiting order of the entries, each the conversion of that entry |
| VIA.ExportValue | via.go:181-195 | an attribute is exported exactly when it is an int (decimal), a float (formatted) or a string (as is) |
| VIA.ExportedAttributes | via.go:181-196 | the exported attributes are exactly those that are not string lists or booleans, strings unchanged, ints formatted with strconv.Itoa and floats formatted |
| VIA.AddAttrOption | via.go:137-159 | other entries are untouched; a missing attribute is created with the one option; an options attribute of the right type gains the option with an empty description; an entry of another kind or type is left unchanged |
| VIA.ConvertAnnotation | via.go:169-196 | converting one annotation gives ToRegion: the "Label" attribute plus the exported attributes (which override it) and the rectangle of int32 truncations of the corner and size |
| VIA.ExportedStep | via.go:181-196 | visiting one more attribute adds exactly its exported string, or nothing when it cannot be exported |
| VIA.RecordAttributeMeta | via.go:199-213 | after one annotation the label set gains its label, and the Text/Confidence flags become true once an annotation has those attributes; the region metadata is RegionMeta of those |
| VIA.ToVIA | via.go:127-221 | no file attributes; the image metadata maps each path to the export of the last file with that path; the region metadata is RegionMeta of all labels seen and whether any annotation had Text / Confidence |
| VIA.ConvertAnnotations | via.go:168-216 | the inner loop produces the file's regions in order and updates the label set and flags with that file's annotations |
| VIA.RegionsGrow | via.go:215 | appending one region to the regions of the first j annotations gives those of the first j + 1 |
| VIA.SeenOneMore | via.go:199-213 | one more annotation adds its label to the labels seen and sets the Text / Confidence flags if it has those keys |
| VIA.AddLabelOption | via.go:137-199 | adding a label option to the metadata of a label set gives the metadata of the set with that label |
| VIA.AddTextMeta | via.go:202-207 | describing Text as a text attribute sets the Text flag of the metadata |
| VIA.AddConfidenceMeta | via.go:208-213 | describing Confidence as a text attribute sets the Confidence flag of the metadata |
| VIA.RegionMetaFacts | via.go:137-213 | the metadata has a "Label" radio attribute exactly when some label was seen, whose options are exactly the labels, each with an empty description; Text / Confidence are text attributes exactly when seen; no other key |
| VIA.WholeTrunc | via.go:173-176 | truncating a whole number in int32 range gives it back |
| VIA.BoxRoundTrip | via.go:113-176 | a whole box within int32 range survives conversion to a VIA shape and back |
| VIA.AttributesRoundTrip | via.go:93-196 | portable attributes (no "Label", a float Confidence whose text parses back, strings otherwise) survive export and import, and the label is recovered |
| VIA.WrapCorner | via.go:115-116 | the int32 sum of corner and size is the far corner when that fits in int32 |
| VIA.RegionRoundTrip | via.go:89-196 | an annotation with a whole, in-range box and portable attributes survives ToRegion followed by FromRegion |
| VIA.FileRoundTrip | via.go:85-216 | a file whose annotations all round-trip survives export and import |
| VIA.ImageMetadataLastWins | via.go:217 | each path of the input is in the image metadata, holding the export of the last file with that path |

## Left out

- File-system and serialisation work is not modelled. This covers opening, creating, reading and writing files, directory listings, `readLines`, `readFile`, JSON marshalling and unmarshalling, protobuf text marshalling and `tfrecord.Write`. The model takes their results as inputs, or as success flags.
- `WriteSloth` and `WriteVIA` are not modelled, because they are pure serialisation.
- The line formatting of `WriteKitti` is not modelled. The label-file names are modelled.
- The image codec is not modelled. This covers decoding, `DecodeConfig`, the pixels of resampling, `SubImage` pixel sharing, and JPEG or PNG encoding. An image is its bounds, and a save is a recorded path and encoder. The size of the image `imaging.Resize` returns is modelled, by `ImageUtils.ResampledBounds`.
- The worker goroutines and channels of `ProcessImages` are not modelled. Files are processed one after another in file order. So the error kept is the first in file order, where Go keeps the first to arrive.
- Logging, the command-line programs under `cmd/` and the generated `protos` package are not modelled.
- IEEE floating-point rounding is not modelled; values are reals. This covers the float32 normalisation in `toTFRecord`, the `math.MaxFloat64` sentinel and the float arithmetic of the shard-size ceiling and the resize rounding. `TFRecord.Ratio32` keeps only the infinities and NaN of a division by a zero side.
- TFRecord.AssignIDs: label IDs are unbounded integers. Go's `int32` ID counter would wrap after 2^31 labels, and the model does not capture that.
- VIA.TruncToInt32: converting a float64 outside the `int32` range is implementation-defined in Go. The model wraps the truncated value modulo 2^32.
- Go's map iteration order is not modelled. `FromVIA` walks `ImageMetadata` and `saveTFRecordLabelMap` walks the label map. In both, the order is an input that lists every key once.
- The time-seeded random numbers of `Split` are an input sequence of draws in [0, 100).
- IR.Dataset.Filter: requires that no annotation reaching the required-attribute test holds a list value under a required key. On such a value Go's interface comparison panics.
- IR.Dataset.ProcessImages: when it resizes without cropping, it requires every decoded image to have at least one pixel. For a side of zero, Go's `resizeImage` divides by zero in float64. That gives infinite or NaN scale factors and coordinates, which reals cannot represent. Crop runs, and runs that do not resize, are modelled for every image, because crops always have pixels.
- IR.ProcessImage, IR.ProcessFiles and the lemmas about them carry the same precondition, for the same reason.
- Utils.FilesByExtInDir: a failed `os.Stat`, a path that is not a directory and a failed `os.Open` are one `readable` flag, with one error kind. The directory's entries are an input. A read error partway through the listing is only logged by Go and does not appear here.
- IR.Dataset.Split: requires that no dataset capacity is negative. A negative capacity makes Go's `make` panic.
- A panic raised by a TFRecord customiser, and its recovery in `WriteCustomTFRecord`, are not modelled.
- Error wrapping and message texts are not modelled. Errors are a closed datatype of kinds.
- Attribute values are a closed datatype: float, int, string, string list and bool. An `encoding.TextMarshaler` value, which `ToVIA` would export through `MarshalText`, has no case.
- `FromVIA` distinguishes a nil from an empty attribute map in Go; both are the empty map here.
- Kitti.WriteKitti: a failure to create, write or close one label file is one failed flag per path.
- The in-place per-file updates of `scaleCoords` and `processImage` take the file as a value and return it. The caller writes the result back into the dataset.
- Some loops are split into helpers:
  - the inner loop of `ToVIA` is `VIA.ConvertAnnotations`;
  - the write loop of `WriteCustomTFRecord` is `WriteExamples`, `WriteFile` and `WriteExample`, with a stop flag in place of the early return.
