/** The geometry types shared by the AWS Rekognition formats (aws_general.go), and the scaling of a
    normalised box to pixel coordinates that both AWS readers perform. */
module AWSGeneral {
  import IR

  /** An axis-aligned rectangle whose offsets and size are ratios of the image size. */
  datatype AWSBoundingBox = AWSBoundingBox(left: real, top: real, width: real, height: real)

  /** A point whose coordinates are ratios of the image size. */
  datatype AWSPoint = AWSPoint(x: real, y: real)

  /** The pixel size of an image, as image.DecodeConfig reports it. */
  datatype ImageConfig = ImageConfig(width: int, height: int)

  /** The box in pixel coordinates: horizontal ratios times the image width, vertical ones times the
      image height, so the top-left corner and the size are both scaled. */
  function ImageCoords(b: AWSBoundingBox, img: ImageConfig): (c: IR.Coords)
    ensures c[0] == b.left * img.width as real && c[1] == b.top * img.height as real
    ensures c[2] - c[0] == b.width * img.width as real
    ensures c[3] - c[1] == b.height * img.height as real
  {
    [b.left * img.width as real, b.top * img.height as real,
     (b.left + b.width) * img.width as real, (b.top + b.height) * img.height as real]
  }
}
