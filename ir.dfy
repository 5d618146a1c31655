/** The intermediate representation of ir.go: annotations, annotated files, and the in-place
    operations on a dataset of annotated files (label mapping, bounding-box transformation, filtering,
    image processing and random splitting). */
module IR {
  import opened Common
  import opened Strings
  import Paths
  import opened ImageUtils

  // Keys for known annotation attributes.
  const AncestorLabels: string := "Ancestors"  // ancestors in the label taxonomy, a list of strings
  const Confidence: string := "Confidence"     // a float in [0, 1]
  const CropCoords: string := "CropCoords"     // "(x1,y1)(x2,y2)" in the source image
  const DetectedText: string := "Text"         // text associated with the bounding box

  /** The dynamically typed attribute values the converters produce and consume. */
  datatype Value =
    | FloatValue(f: real)
    | StringValue(s: string)
    | StringsValue(l: seq<string>)
    | IntValue(i: int)
    | BoolValue(b: bool)

  /** Absolute x1, y1, x2, y2 offsets from the top-left corner. */
  type Coords = c: seq<real> | |c| == 4 witness [0.0, 0.0, 0.0, 0.0]

  datatype Annotation = Annotation(attributes: map<string, Value>, coords: Coords, name: string)

  datatype AnnotatedFile = AnnotatedFile(annotations: seq<Annotation>, filePath: string)

  function Width(a: Annotation): real { a.coords[2] - a.coords[0] }

  function Height(a: Annotation): real { a.coords[3] - a.coords[1] }

  /** math.MaxFloat64, the ratio used for a box of zero height. */
  const MaxFloat64: real := 179769313486231570814527423731704356798070567525844996598917476803157260780028538760589558632766878171540458953514382464234321326889464182768467546703537516986049910576551282076245490090389328944075868508455133942304583236903222948165808559332123348274797826204144723168738177180919299881250404026184124858368.0

  // ----- scaleCoords -----

  /** The factor applied to coordinate j: x coordinates (even j) by width, y coordinates by height. */
  function AxisFactor(j: nat, width: real, height: real): real
  {
    if j % 2 == 0 then width else height
  }

  function ScaleBoxBy(c: Coords, width: real, height: real): Coords
  {
    seq(4, j requires 0 <= j < 4 => c[j] * AxisFactor(j, width, height))
  }

  function ScaledFile(f: AnnotatedFile, width: real, height: real): AnnotatedFile
  {
    f.(annotations := seq(|f.annotations|, k requires 0 <= k < |f.annotations| =>
         f.annotations[k].(coords := ScaleBoxBy(f.annotations[k].coords, width, height))))
  }

  /** scaleCoords: every x coordinate is multiplied by width and every y coordinate by height; labels,
      attributes and the path are untouched. */
  method ScaleCoords(f: AnnotatedFile, width: real, height: real) returns (g: AnnotatedFile)
    ensures g == ScaledFile(f, width, height)
  {
    var anns := f.annotations;
    for i := 0 to |anns|
      invariant |anns| == |f.annotations|
      invariant forall k :: 0 <= k < i ==>
        anns[k] == f.annotations[k].(coords := ScaleBoxBy(f.annotations[k].coords, width, height))
      invariant forall k :: i <= k < |anns| ==> anns[k] == f.annotations[k]
    {
      var c: seq<real> := anns[i].coords;
      for j := 0 to 4
        invariant |c| == 4
        invariant forall m :: 0 <= m < j ==> c[m] == anns[i].coords[m] * AxisFactor(m, width, height)
        invariant forall m :: j <= m < 4 ==> c[m] == anns[i].coords[m]
      {
        c := c[j := c[j] * AxisFactor(j, width, height)];
      }
      assert forall m :: 0 <= m < 4 ==> c[m] == ScaleBoxBy(anns[i].coords, width, height)[m];
      assert c == ScaleBoxBy(anns[i].coords, width, height);
      anns := anns[i := anns[i].(coords := c)];
    }
    g := f.(annotations := anns);
  }

  /** Scaling twice is scaling once by the products of the factors. */
  lemma ScaleTwice(f: AnnotatedFile, w1: real, h1: real, w2: real, h2: real)
    ensures ScaledFile(ScaledFile(f, w1, h1), w2, h2) == ScaledFile(f, w1 * w2, h1 * h2)
  {
    var g := ScaledFile(ScaledFile(f, w1, h1), w2, h2);
    var h := ScaledFile(f, w1 * w2, h1 * h2);
    forall k | 0 <= k < |f.annotations|
      ensures g.annotations[k] == h.annotations[k]
    {
      ScaleBoxTwice(f.annotations[k].coords, w1, h1, w2, h2);
    }
    assert g.annotations == h.annotations && g.filePath == h.filePath;
  }

  lemma ScaleBoxTwice(c: Coords, w1: real, h1: real, w2: real, h2: real)
    ensures ScaleBoxBy(ScaleBoxBy(c, w1, h1), w2, h2) == ScaleBoxBy(c, w1 * w2, h1 * h2)
  {
    forall j | 0 <= j < 4
      ensures ScaleBoxBy(ScaleBoxBy(c, w1, h1), w2, h2)[j] == ScaleBoxBy(c, w1 * w2, h1 * h2)[j]
    {
      MulAssoc(c[j], AxisFactor(j, w1, h1), AxisFactor(j, w2, h2));
    }
  }

  lemma MulAssoc(a: real, b: real, c: real)
    ensures (a * b) * c == a * (b * c)
  {
  }

  /** Scaling by 1 on both axes changes nothing. */
  lemma ScaleByOne(f: AnnotatedFile)
    ensures ScaledFile(f, 1.0, 1.0) == f
  {
    var g := ScaledFile(f, 1.0, 1.0);
    forall k | 0 <= k < |f.annotations|
      ensures g.annotations[k] == f.annotations[k]
    {
      var c := f.annotations[k].coords;
      assert ScaleBoxBy(c, 1.0, 1.0) == c;
    }
  }

  /** Box sizes scale with the factors, so a box covering a whole w x h image covers the whole image
      after it is resized by Rescale's factors. */
  lemma ScaledSizes(a: Annotation, width: real, height: real)
    ensures Width(a.(coords := ScaleBoxBy(a.coords, width, height))) == Width(a) * width
    ensures Height(a.(coords := ScaleBoxBy(a.coords, width, height))) == Height(a) * height
  {
    var c := a.coords;
    var s := ScaleBoxBy(c, width, height);
    assert s[0] == c[0] * width && s[2] == c[2] * width && s[1] == c[1] * height && s[3] == c[3] * height;
    assert c[2] * width - c[0] * width == (c[2] - c[0]) * width;
    assert c[3] * height - c[1] * height == (c[3] - c[1]) * height;
  }

  // ----- MapLabels -----

  /** One label mapping old=new, with the old and new strings named pat and rep. */
  datatype Rule = Rule(pat: string, rep: string)

  /** A mapping must split at '=' into exactly two parts. */
  function ParseRule(mapping: string): Result<Rule>
  {
    var parts := Split(mapping, '=');
    if |parts| != 2 then Err(InvalidMapping(mapping)) else Ok(Rule(parts[0], parts[1]))
  }

  /** The rules of all mappings, or the error of the first invalid one. */
  function ParseRules(mappings: seq<string>): Result<seq<Rule>>
  {
    if mappings == [] then Ok([])
    else match ParseRule(mappings[0])
      case Err(e) => Err(e)
      case Ok(r) => match ParseRules(mappings[1..])
        case Err(e) => Err(e)
        case Ok(rs) => Ok([r] + rs)
  }

  /** One mapping parses exactly when it holds exactly one '='; the rule then reads back as the mapping,
      and otherwise the error names the mapping. */
  lemma ParseRuleCorrect(m: string)
    ensures ParseRule(m).Ok? <==> Count(m, '=') == 1
    ensures ParseRule(m).Ok? ==>
      var r := ParseRule(m).value;
      r.pat + "=" + r.rep == m && '=' !in r.pat && '=' !in r.rep
    ensures ParseRule(m).Err? ==> ParseRule(m).error == InvalidMapping(m)
  {
    SplitCount(m, '=');
    SplitJoin(m, '=');
    var parts := Split(m, '=');
    if |parts| == 2 {
      assert Join(parts, '=') == parts[0] + "=" + parts[1] by {
        assert parts[1..] == [parts[1]];
      }
      assert parts[0] in parts && parts[1] in parts;
    }
  }

  /** Parsing succeeds exactly when every mapping holds exactly one '=', and each rule then reads back
      as its mapping. */
  lemma {:induction false} ParseRulesValues(mappings: seq<string>)
    ensures ParseRules(mappings).Ok? <==> forall i :: 0 <= i < |mappings| ==> Count(mappings[i], '=') == 1
    ensures ParseRules(mappings).Ok? ==>
      var rules := ParseRules(mappings).value;
      && |rules| == |mappings|
      && forall i :: 0 <= i < |rules| ==>
           rules[i].pat + "=" + rules[i].rep == mappings[i] && '=' !in rules[i].pat && '=' !in rules[i].rep
  {
    if mappings != [] {
      ParseRuleCorrect(mappings[0]);
      ParseRulesValues(mappings[1..]);
      assert forall i :: 0 < i < |mappings| ==> mappings[i] == mappings[1..][i - 1];
    }
  }

  /** A failed parse names the first mapping without exactly one '='. */
  lemma {:induction false} ParseRulesFirstError(mappings: seq<string>)
    ensures ParseRules(mappings).Err? ==>
      exists i :: 0 <= i < |mappings| && ParseRules(mappings).error == InvalidMapping(mappings[i])
        && Count(mappings[i], '=') != 1 && forall j :: 0 <= j < i ==> Count(mappings[j], '=') == 1
  {
    if mappings != [] {
      ParseRuleCorrect(mappings[0]);
      if ParseRule(mappings[0]).Ok? {
        ParseRulesFirstError(mappings[1..]);
        if ParseRules(mappings[1..]).Err? {
          var i :| 0 <= i < |mappings[1..]| && ParseRules(mappings[1..]).error == InvalidMapping(mappings[1..][i])
            && Count(mappings[1..][i], '=') != 1 && forall j :: 0 <= j < i ==> Count(mappings[1..][j], '=') == 1;
          assert forall j :: 0 <= j < i + 1 ==> Count(mappings[j], '=') == 1 by {
            assert forall j :: 0 < j < i + 1 ==> mappings[j] == mappings[1..][j - 1];
          }
          assert ParseRules(mappings).error == InvalidMapping(mappings[i + 1]);
        }
      } else {
        assert ParseRules(mappings).error == InvalidMapping(mappings[0]);
      }
    }
  }

  /** The replacements applied in order to one label. */
  function MapLabel(name: string, rules: seq<Rule>): string
    decreases |rules|
  {
    if rules == [] then name else MapLabel(ReplaceAll(name, rules[0].pat, rules[0].rep), rules[1..])
  }

  /** Applying one more rule applies it to the result of the earlier ones. */
  lemma {:induction false} MapLabelSnoc(name: string, rules: seq<Rule>, r: Rule)
    ensures MapLabel(name, rules + [r]) == ReplaceAll(MapLabel(name, rules), r.pat, r.rep)
    decreases |rules|
  {
    if rules == [] {
      assert rules + [r] == [r];
    } else {
      assert (rules + [r])[1..] == rules[1..] + [r];
      MapLabelSnoc(ReplaceAll(name, rules[0].pat, rules[0].rep), rules[1..], r);
    }
  }

  /** Rules that map a string to itself leave every label as it is. */
  lemma {:induction false} MapLabelIdentityRules(name: string, rules: seq<Rule>)
    requires forall i :: 0 <= i < |rules| ==> rules[i].pat == rules[i].rep
    ensures MapLabel(name, rules) == name
    decreases |rules|
  {
    if rules != [] {
      ReplaceSame(name, rules[0].pat);
      MapLabelIdentityRules(name, rules[1..]);
    }
  }

  /** A label in which no rule's old string occurs, at the time that rule applies, is kept. */
  lemma {:induction false} MapLabelAbsent(name: string, rules: seq<Rule>)
    requires forall i :: 0 <= i < |rules| ==> rules[i].pat != [] && !Contains(name, rules[i].pat)
    ensures MapLabel(name, rules) == name
    decreases |rules|
  {
    if rules != [] {
      ReplaceAbsent(name, rules[0].pat, rules[0].rep);
      MapLabelAbsent(name, rules[1..]);
    }
  }

  /** The replacements applied in order, as one method over a label. */
  method RewriteLabel(name: string, rules: seq<Rule>) returns (l: string)
    ensures l == MapLabel(name, rules)
  {
    l := name;
    for i := 0 to |rules|
      invariant l == MapLabel(name, rules[..i])
    {
      MapLabelSnoc(name, rules[..i], rules[i]);
      assert rules[..i + 1] == rules[..i] + [rules[i]];
      l := ReplaceAll(l, rules[i].pat, rules[i].rep);
    }
    assert rules[..|rules|] == rules;
  }

  /** The labels of one file rewritten in place, annotation by annotation. */
  method Relabel(f: AnnotatedFile, rules: seq<Rule>) returns (g: AnnotatedFile)
    ensures g == RelabelFile(f, rules)
  {
    var anns := f.annotations;
    for k := 0 to |anns|
      invariant |anns| == |f.annotations|
      invariant forall j :: 0 <= j < k ==> anns[j] == f.annotations[j].(name := MapLabel(f.annotations[j].name, rules))
      invariant forall j :: k <= j < |anns| ==> anns[j] == f.annotations[j]
    {
      var l := RewriteLabel(anns[k].name, rules);
      anns := anns[k := anns[k].(name := l)];
    }
    g := f.(annotations := anns);
  }

  function RelabelFile(f: AnnotatedFile, rules: seq<Rule>): AnnotatedFile
  {
    f.(annotations := seq(|f.annotations|, k requires 0 <= k < |f.annotations| =>
         f.annotations[k].(name := MapLabel(f.annotations[k].name, rules))))
  }

  // ----- TransformBboxes -----

  /** Scale a box about its centre: the width is multiplied by scaleX and the height by scaleY. */
  function ScaleBox(c: Coords, scaleX: real, scaleY: real): Coords
  {
    var dx, dy := ScaleMargin(c[2] - c[0], scaleX), ScaleMargin(c[3] - c[1], scaleY);
    [c[0] - dx, c[1] - dy, c[2] + dx, c[3] + dy]
  }

  /** How far each edge moves out when a side of length len is scaled by scale. */
  function ScaleMargin(len: real, scale: real): real
  {
    (len * scale - len) * 0.5
  }

  /** Grow a box about its centre to the aspect ratio: wider when it is too narrow, taller when it is
      too wide; a box of zero height counts as infinitely wide. */
  function GrowToAspect(c: Coords, aspectRatio: real): Coords
    requires aspectRatio > 0.0
  {
    var w, h := c[2] - c[0], c[3] - c[1];
    var ratio := if h != 0.0 then w / h else MaxFloat64;
    if ratio < aspectRatio then
      var dx := WidenMargin(w, h, aspectRatio);
      [c[0] - dx, c[1], c[2] + dx, c[3]]
    else if ratio > aspectRatio then
      var dy := HeightenMargin(w, h, aspectRatio);
      [c[0], c[1] - dy, c[2], c[3] + dy]
    else c
  }

  /** How far each vertical edge moves out to reach the aspect ratio. */
  function WidenMargin(w: real, h: real, aspectRatio: real): real
  {
    (h * aspectRatio - w) * 0.5
  }

  /** How far each horizontal edge moves out to reach the aspect ratio. */
  function HeightenMargin(w: real, h: real, aspectRatio: real): real
    requires aspectRatio > 0.0
  {
    (w / aspectRatio - h) * 0.5
  }

  /** The transformation of one box: scaling (skipped when both factors are 1), then growing to the
      aspect ratio when it is positive. */
  function TransformBox(c: Coords, scaleX: real, scaleY: real, aspectRatio: real): Coords
  {
    var s := if scaleX != 1.0 || scaleY != 1.0 then ScaleBox(c, scaleX, scaleY) else c;
    if aspectRatio > 0.0 then GrowToAspect(s, aspectRatio) else s
  }

  /** One box as TransformBboxes rewrites it: scaled about its centre unless both factors are 1, then
      grown to the aspect ratio when one is given. */
  method TransformCoords(coords: Coords, scaleX: real, scaleY: real, aspectRatio: real) returns (c: Coords)
    ensures c == TransformBox(coords, scaleX, scaleY, aspectRatio)
  {
    c := coords;
    // Scale.
    if scaleX != 1.0 || scaleY != 1.0 {
      var w, h := c[2] - c[0], c[3] - c[1];
      var dx, dy := (w * scaleX - w) * 0.5, (h * scaleY - h) * 0.5;
      assert dx == ScaleMargin(w, scaleX) && dy == ScaleMargin(h, scaleY);
      c := [c[0] - dx, c[1] - dy, c[2] + dx, c[3] + dy];
    }
    assert c == if scaleX != 1.0 || scaleY != 1.0 then ScaleBox(coords, scaleX, scaleY) else coords;
    // Grow to match the desired aspect ratio.
    if aspectRatio > 0.0 {
      var w, h := c[2] - c[0], c[3] - c[1];
      var ratio := if h != 0.0 then w / h else MaxFloat64;
      if ratio < aspectRatio {
        var dx := (h * aspectRatio - w) * 0.5;
        assert dx == WidenMargin(w, h, aspectRatio);
        c := [c[0] - dx, c[1], c[2] + dx, c[3]];
      } else if ratio > aspectRatio {
        var dy := (w / aspectRatio - h) * 0.5;
        assert dy == HeightenMargin(w, h, aspectRatio);
        c := [c[0], c[1] - dy, c[2], c[3] + dy];
      }
    }
    assert c == TransformBox(coords, scaleX, scaleY, aspectRatio);
  }

  function TransformFile(f: AnnotatedFile, scaleX: real, scaleY: real, aspectRatio: real): AnnotatedFile
  {
    f.(annotations := seq(|f.annotations|, k requires 0 <= k < |f.annotations| =>
         f.annotations[k].(coords := TransformBox(f.annotations[k].coords, scaleX, scaleY, aspectRatio))))
  }

  /** Scaling keeps the centre and multiplies the width and height by the factors; factors of 1 change
      nothing, so skipping that case only saves work. */
  lemma ScaleBoxCorrect(c: Coords, scaleX: real, scaleY: real)
    ensures var s := ScaleBox(c, scaleX, scaleY);
            && s[0] + s[2] == c[0] + c[2] && s[1] + s[3] == c[1] + c[3]
            && s[2] - s[0] == (c[2] - c[0]) * scaleX && s[3] - s[1] == (c[3] - c[1]) * scaleY
    ensures ScaleBox(c, 1.0, 1.0) == c
  {
  }

  /** What growing to an aspect ratio guarantees for a well-formed box g grown from c. */
  predicate GrowthSound(c: Coords, g: Coords, aspectRatio: real)
    requires aspectRatio > 0.0
  {
    && g[0] + g[2] == c[0] + c[2] && g[1] + g[3] == c[1] + c[3]
    && g[2] - g[0] >= c[2] - c[0] && g[3] - g[1] >= c[3] - c[1]
    && (g[3] - g[1] != 0.0 ==> (g[2] - g[0]) / (g[3] - g[1]) == aspectRatio)
    && (c[3] - c[1] == 0.0 && aspectRatio != MaxFloat64 ==>
          g[0] == c[0] && g[2] == c[2] && g[3] - g[1] == (c[2] - c[0]) / aspectRatio)
  }

  /** Growing keeps the centre and never shrinks a well-formed box (the aspect ratio, a float64, is at
      most MaxFloat64). Afterwards the box has exactly the
      requested aspect ratio whenever its height is not zero; a box of zero height only grows
      vertically, to width / aspectRatio. */
  lemma GrowToAspectCorrect(c: Coords, aspectRatio: real)
    requires 0.0 < aspectRatio <= MaxFloat64 && c[0] <= c[2] && c[1] <= c[3]
    ensures GrowthSound(c, GrowToAspect(c, aspectRatio), aspectRatio)
  {
    var w, h := c[2] - c[0], c[3] - c[1];
    if h != 0.0 {
      var ratio := w / h;
      if ratio < aspectRatio {
        GrowWider(c, aspectRatio);
      } else if ratio > aspectRatio {
        GrowTaller(c, aspectRatio);
      } else {
        Quotient(ratio, w, h);
      }
    } else {
      GrowFlat(c, aspectRatio);
    }
  }

  lemma GrowWider(c: Coords, aspectRatio: real)
    requires aspectRatio > 0.0 && c[0] <= c[2] && c[1] < c[3]
    requires (c[2] - c[0]) / (c[3] - c[1]) < aspectRatio
    ensures GrowthSound(c, GrowToAspect(c, aspectRatio), aspectRatio)
  {
    var w, h := c[2] - c[0], c[3] - c[1];
    var ratio := w / h;
    Quotient(ratio, w, h);
    MulMonotone(ratio, aspectRatio, h);
    var g := GrowToAspect(c, aspectRatio);
    assert g[2] - g[0] == h * aspectRatio && g[3] - g[1] == h;
    MulDiv(aspectRatio, h);
  }

  lemma GrowTaller(c: Coords, aspectRatio: real)
    requires aspectRatio > 0.0 && c[0] <= c[2] && c[1] < c[3]
    requires (c[2] - c[0]) / (c[3] - c[1]) > aspectRatio
    ensures GrowthSound(c, GrowToAspect(c, aspectRatio), aspectRatio)
  {
    var w, h := c[2] - c[0], c[3] - c[1];
    var ratio := w / h;
    Quotient(ratio, w, h);
    MulMonotone(aspectRatio, ratio, h);
    var q := w / aspectRatio;
    Quotient(q, w, aspectRatio);
    if q <= h {
      MulMonotone(q, h, aspectRatio);
    }
    var g := GrowToAspect(c, aspectRatio);
    assert g[2] - g[0] == w && g[3] - g[1] == q;
    MulDiv(aspectRatio, q);
  }

  lemma GrowFlat(c: Coords, aspectRatio: real)
    requires 0.0 < aspectRatio <= MaxFloat64 && c[0] <= c[2] && c[1] == c[3]
    ensures GrowthSound(c, GrowToAspect(c, aspectRatio), aspectRatio)
  {
    var w := c[2] - c[0];
    var g := GrowToAspect(c, aspectRatio);
    if MaxFloat64 > aspectRatio {
      var q := w / aspectRatio;
      Quotient(q, w, aspectRatio);
      if q < 0.0 {
        MulMonotone(q, 0.0, aspectRatio);
      }
      assert HeightenMargin(w, 0.0, aspectRatio) == q * 0.5;
      assert g[2] - g[0] == w && g[3] - g[1] == q;
      if q != 0.0 {
        MulDiv(aspectRatio, q);
      }
    }
  }

  lemma MulDiv(a: real, b: real)
    requires b != 0.0
    ensures (b * a) / b == a && (a * b) / b == a
  {
  }

  // ----- Filter -----

  /** Go's deleteAnnotation (and the file deletion of Filter): the last element moves into slot i and
      the slice shrinks by one. */
  function SwapDelete<T>(s: seq<T>, i: nat): (r: seq<T>)
    requires i < |s|
    ensures |r| == |s| - 1
  {
    s[i := s[|s| - 1]][..|s| - 1]
  }

  /** The scan of Filter from index i on: step decides, for the element at i, to drop it (None), which
      moves the last element into slot i to be examined next, or to keep it as the given value. */
  function SwapCompact<T>(s: seq<T>, i: nat, step: T -> Option<T>): seq<T>
    requires i <= |s|
    decreases |s| - i
  {
    if i == |s| then s
    else match step(s[i])
      case None => SwapCompact(SwapDelete(s, i), i, step)
      case Some(y) => SwapCompact(s[i := y], i + 1, step)
  }

  /** The order-preserving reference: the kept values in their original order. */
  function Stable<T>(s: seq<T>, step: T -> Option<T>): seq<T>
  {
    if s == [] then []
    else (match step(s[0]) case None => [] case Some(y) => [y]) + Stable(s[1..], step)
  }

  lemma {:induction false} StableAppend<T>(a: seq<T>, b: seq<T>, step: T -> Option<T>)
    ensures Stable(a + b, step) == Stable(a, step) + Stable(b, step)
  {
    if a == [] {
      assert a + b == b;
    } else {
      assert (a + b)[0] == a[0] && (a + b)[1..] == a[1..] + b;
      StableAppend(a[1..], b, step);
    }
  }

  /** Swap-deletion reorders but neither loses nor duplicates: the scan from i yields the elements
      before i and, in some order, the kept values of the rest. */
  lemma {:induction false} CompactPermutes<T>(s: seq<T>, i: nat, step: T -> Option<T>)
    requires i <= |s|
    ensures multiset(SwapCompact(s, i, step)) == multiset(s[..i]) + multiset(Stable(s[i..], step))
    decreases |s| - i
  {
    if i < |s| {
      if step(s[i]).None? {
        CompactPermutes(SwapDelete(s, i), i, step);
        DropCase(s, i, step);
      } else {
        CompactPermutes(s[i := step(s[i]).value], i + 1, step);
        KeepCase(s, i, step);
      }
    } else {
      CompactDone(s, step);
    }
  }

  /** At the end of the scan, everything is prefix. */
  lemma CompactDone<T>(s: seq<T>, step: T -> Option<T>)
    ensures multiset(SwapCompact(s, |s|, step)) == multiset(s[..|s|]) + multiset(Stable(s[|s|..], step))
  {
    assert s[..|s|] == s && s[|s|..] == [];
  }

  /** The permutation step for an element that is dropped. */
  lemma DropCase<T>(s: seq<T>, i: nat, step: T -> Option<T>)
    requires i < |s| && step(s[i]).None?
    requires multiset(SwapCompact(SwapDelete(s, i), i, step))
          == multiset(SwapDelete(s, i)[..i]) + multiset(Stable(SwapDelete(s, i)[i..], step))
    ensures multiset(SwapCompact(s, i, step)) == multiset(s[..i]) + multiset(Stable(s[i..], step))
  {
    DeleteKeepsStable(s, i, step);
  }

  /** The permutation step for an element that is kept. */
  lemma KeepCase<T>(s: seq<T>, i: nat, step: T -> Option<T>)
    requires i < |s| && step(s[i]).Some?
    requires multiset(SwapCompact(s[i := step(s[i]).value], i + 1, step))
          == multiset(s[i := step(s[i]).value][..i + 1]) + multiset(Stable(s[i := step(s[i]).value][i + 1..], step))
    ensures multiset(SwapCompact(s, i, step)) == multiset(s[..i]) + multiset(Stable(s[i..], step))
  {
    KeepExtendsPrefix(s, i, step(s[i]).value, step);
  }

  /** Dropping the element at i by swap-deletion leaves the prefix and, up to order, the kept values
      of the rest. */
  lemma DeleteKeepsStable<T>(s: seq<T>, i: nat, step: T -> Option<T>)
    requires i < |s| && step(s[i]).None?
    ensures SwapDelete(s, i)[..i] == s[..i]
    ensures multiset(Stable(SwapDelete(s, i)[i..], step)) == multiset(Stable(s[i..], step))
  {
    var n := |s| - 1;
    var t := SwapDelete(s, i);
    assert s[i..] == [s[i]] + s[i + 1..];
    assert Stable(s[i..], step) == Stable(s[i + 1..], step);
    if i < n {
      assert t[i..] == [s[n]] + s[i + 1..n];
      assert s[i + 1..] == s[i + 1..n] + [s[n]];
      StableAppend([s[n]], s[i + 1..n], step);
      StableAppend(s[i + 1..n], [s[n]], step);
    } else {
      assert t[i..] == [] && s[i + 1..] == [];
    }
  }

  /** Keeping the element at i as y moves it into the prefix. */
  lemma KeepExtendsPrefix<T>(s: seq<T>, i: nat, y: T, step: T -> Option<T>)
    requires i < |s| && step(s[i]) == Some(y)
    ensures multiset(s[i := y][..i + 1]) + multiset(Stable(s[i := y][i + 1..], step))
         == multiset(s[..i]) + multiset(Stable(s[i..], step))
  {
    var t := s[i := y];
    assert t[..i + 1] == s[..i] + [y];
    assert t[i + 1..] == s[i + 1..];
    assert s[i..] == [s[i]] + s[i + 1..];
    assert Stable(s[i..], step) == [y] + Stable(s[i + 1..], step);
  }

  /** The scan step that drops the element at i. */
  lemma DropStep<T>(s: seq<T>, i: nat, step: T -> Option<T>)
    requires i < |s| && step(s[i]).None?
    ensures SwapCompact(SwapDelete(s, i), i, step) == SwapCompact(s, i, step)
    ensures forall x :: x in SwapDelete(s, i)[i..] ==> x in s[i..]
  {
    SwapDeleteTail(s, i);
  }

  /** The scan step that keeps the element at i as y. */
  lemma KeepStep<T>(s: seq<T>, i: nat, y: T, step: T -> Option<T>)
    requires i < |s| && step(s[i]) == Some(y)
    ensures SwapCompact(s[i := y], i + 1, step) == SwapCompact(s, i, step)
    ensures forall x :: x in s[i := y][i + 1..] ==> x in s[i..]
  {
    assert s[i := y][i + 1..] == s[i + 1..];
    assert forall x :: x in s[i + 1..] ==> x in s[i..];
  }

  /** The values Stable keeps are exactly those some element is kept as. */
  lemma {:induction false} StableMembers<T>(s: seq<T>, step: T -> Option<T>, y: T)
    ensures y in Stable(s, step) <==> exists x :: x in s && step(x) == Some(y)
  {
    if s != [] {
      StableMembers(s[1..], step, y);
      assert s == [s[0]] + s[1..];
      if exists x :: x in s && step(x) == Some(y) {
        var x :| x in s && step(x) == Some(y);
        if x != s[0] {
          assert x in s[1..];
        }
      }
    }
  }

  lemma {:induction false} StableLength<T>(s: seq<T>, step: T -> Option<T>)
    ensures |Stable(s, step)| <= |s|
    ensures (forall x :: x in s ==> step(x).Some?) ==> |Stable(s, step)| == |s|
  {
    if s != [] {
      StableLength(s[1..], step);
      assert forall x :: x in s[1..] ==> x in s;
    }
  }

  /** A scan in which every element is kept as itself changes nothing. */
  lemma {:induction false} CompactFixed<T>(s: seq<T>, i: nat, step: T -> Option<T>)
    requires i <= |s| && forall k :: i <= k < |s| ==> step(s[k]) == Some(s[k])
    ensures SwapCompact(s, i, step) == s
    decreases |s| - i
  {
    if i < |s| {
      assert s[i := s[i]] == s;
      CompactFixed(s, i + 1, step);
    }
  }

  /** The elements still to be scanned after a swap-deletion come from those before it. */
  lemma SwapDeleteTail<T>(s: seq<T>, i: nat)
    requires i < |s|
    ensures forall x :: x in SwapDelete(s, i)[i..] ==> x in s[i..]
  {
    var t := SwapDelete(s, i);
    forall x | x in t[i..]
      ensures x in s[i..]
    {
      var k :| i <= k < |t| && t[k] == x;
      if k == i {
        assert s[|s| - 1] == s[i..][|s| - 1 - i];
      } else {
        assert s[k] == s[i..][k - i];
      }
    }
  }

  /** The options of Filter. A zero minimum or maximum aspect ratio disables that bound. */
  datatype FilterConfig = FilterConfig(
    labelNames: seq<string>, attributes: seq<string>, requiredAttrs: seq<string>,
    minConfidence: real, requireLabel: bool,
    minBboxWidth: real, minBboxHeight: real, minAspectRatio: real, maxAspectRatio: real)

  /** An annotation without a float confidence passes. */
  predicate PassesConfidence(a: Annotation, cfg: FilterConfig)
  {
    !(Confidence in a.attributes && a.attributes[Confidence].FloatValue?
      && a.attributes[Confidence].f < cfg.minConfidence)
  }

  predicate PassesSize(a: Annotation, cfg: FilterConfig)
  {
    !(cfg.minBboxWidth > Width(a) || cfg.minBboxHeight > Height(a))
  }

  /** With either bound set, the height must be non-zero and width / height within the set bounds. */
  predicate PassesAspect(a: Annotation, cfg: FilterConfig)
  {
    (cfg.minAspectRatio == 0.0 && cfg.maxAspectRatio == 0.0) ||
    (Height(a) != 0.0
     && (cfg.minAspectRatio == 0.0 || Width(a) / Height(a) >= cfg.minAspectRatio)
     && (cfg.maxAspectRatio == 0.0 || Width(a) / Height(a) <= cfg.maxAspectRatio))
  }

  predicate PassesLabel(a: Annotation, cfg: FilterConfig)
  {
    |cfg.labelNames| == 0 || a.name in cfg.labelNames
  }

  /** The tests Filter makes before it looks at required attributes. */
  predicate Screened(a: Annotation, cfg: FilterConfig)
  {
    PassesConfidence(a, cfg) && PassesSize(a, cfg) && PassesAspect(a, cfg) && PassesLabel(a, cfg)
  }

  /** Go's zero value of the value's dynamic type; lists of strings have no comparable zero value. */
  predicate IsZero(v: Value)
    requires !v.StringsValue?
  {
    match v
    case FloatValue(f) => f == 0.0
    case StringValue(s) => s == ""
    case IntValue(i) => i == 0
    case BoolValue(b) => !b
  }

  /** The outcome of the required-attribute test; comparing a list value with its zero value panics. */
  datatype Scan = Pass | Fail | Panic

  /** The required-attribute test, key by key in order: a missing key or a zero value fails. */
  function RequiredScan(attrs: map<string, Value>, keys: seq<string>): Scan
  {
    if keys == [] then Pass
    else if keys[0] !in attrs then Fail
    else if attrs[keys[0]].StringsValue? then Panic
    else if IsZero(attrs[keys[0]]) then Fail
    else RequiredScan(attrs, keys[1..])
  }

  predicate Keep(a: Annotation, cfg: FilterConfig)
  {
    Screened(a, cfg) && RequiredScan(a.attributes, cfg.requiredAttrs) == Pass
  }

  /** The attributes whose keys are listed. */
  function Restrict(attrs: map<string, Value>, allowed: seq<string>): map<string, Value>
  {
    map k | k in attrs && k in allowed :: attrs[k]
  }

  /** A kept annotation loses the attributes not listed, when a list is given. */
  function Project(a: Annotation, cfg: FilterConfig): Annotation
  {
    if |cfg.attributes| == 0 then a else a.(attributes := Restrict(a.attributes, cfg.attributes))
  }

  function AnnotationStep(cfg: FilterConfig): Annotation -> Option<Annotation>
  {
    (a: Annotation) => if Keep(a, cfg) then Some(Project(a, cfg)) else None
  }

  /** The annotations of one file after filtering, in the order the swap-deletions leave them. */
  function KeptAnnotations(anns: seq<Annotation>, cfg: FilterConfig): seq<Annotation>
  {
    SwapCompact(anns, 0, AnnotationStep(cfg))
  }

  function FileStep(cfg: FilterConfig): AnnotatedFile -> Option<AnnotatedFile>
  {
    (f: AnnotatedFile) => var anns := KeptAnnotations(f.annotations, cfg);
         if cfg.requireLabel && |anns| == 0 then None else Some(f.(annotations := anns))
  }

  /** The files after filtering, in the order the swap-deletions leave them. */
  function FilterFiles(files: seq<AnnotatedFile>, cfg: FilterConfig): seq<AnnotatedFile>
  {
    SwapCompact(files, 0, FileStep(cfg))
  }

  /** No annotation that reaches the required-attribute test holds a list under a required key. */
  predicate NoPanic(files: seq<AnnotatedFile>, cfg: FilterConfig)
  {
    forall f :: f in files ==> AnnotationsNoPanic(f.annotations, cfg)
  }

  predicate AnnotationsNoPanic(anns: seq<Annotation>, cfg: FilterConfig)
  {
    forall a :: a in anns && Screened(a, cfg) ==> RequiredScan(a.attributes, cfg.requiredAttrs) != Panic
  }

  /** inList: whether v occurs in l. */
  method InList(v: string, l: seq<string>) returns (found: bool)
    ensures found <==> v in l
  {
    for i := 0 to |l|
      invariant v !in l[..i]
    {
      if l[i] == v {
        return true;
      }
    }
    assert l[..|l|] == l;
    return false;
  }

  /** The required-attribute test as Filter runs it. */
  method CheckRequired(attrs: map<string, Value>, keys: seq<string>) returns (ok: bool)
    requires RequiredScan(attrs, keys) != Panic
    ensures ok <==> RequiredScan(attrs, keys) == Pass
  {
    for i := 0 to |keys|
      invariant RequiredScan(attrs, keys[i..]) == RequiredScan(attrs, keys)
    {
      assert keys[i..][0] == keys[i] && keys[i..][1..] == keys[i + 1..];
      var k := keys[i];
      if k !in attrs || IsZero(attrs[k]) {
        return false;
      }
    }
    return true;
  }

  /** The attribute filter: every key that is not listed is deleted. */
  method RestrictAttributes(attrs: map<string, Value>, allowed: seq<string>) returns (r: map<string, Value>)
    ensures r == Restrict(attrs, allowed)
  {
    r := attrs;
    var keys := attrs.Keys;
    while keys != {}
      invariant keys <= attrs.Keys
      invariant forall k :: k in r <==> k in attrs && (k in keys || k in allowed)
      invariant forall k :: k in r ==> r[k] == attrs[k]
      decreases |keys|
    {
      var k :| k in keys;
      var listed := InList(k, allowed);
      if !listed {
        r := r - {k};
      }
      keys := keys - {k};
    }
  }

  /** The tests of Filter's annotation loop, in their order; false means the annotation is deleted. */
  method AnnotationPasses(a: Annotation, cfg: FilterConfig) returns (keep: bool)
    requires Screened(a, cfg) ==> RequiredScan(a.attributes, cfg.requiredAttrs) != Panic
    ensures keep <==> Keep(a, cfg)
  {
    // Filter by confidence; an annotation without a float confidence passes.
    if Confidence in a.attributes && a.attributes[Confidence].FloatValue?
       && a.attributes[Confidence].f < cfg.minConfidence {
      return false;
    }

    // Filter by bounding-box size.
    var width, height := Width(a), Height(a);
    if cfg.minBboxWidth > width || cfg.minBboxHeight > height {
      return false;
    }

    // Filter by bounding-box aspect ratio.
    if cfg.minAspectRatio != 0.0 || cfg.maxAspectRatio != 0.0 {
      if height == 0.0 {
        return false;
      }
      var ratio := width / height;
      if (cfg.minAspectRatio != 0.0 && ratio < cfg.minAspectRatio)
         || (cfg.maxAspectRatio != 0.0 && ratio > cfg.maxAspectRatio) {
        return false;
      }
    }

    // Filter by labels.
    if |cfg.labelNames| > 0 {
      var found := InList(a.name, cfg.labelNames);
      if !found {
        return false;
      }
    }

    // Filter by required attributes with non-zero values.
    if |cfg.requiredAttrs| > 0 {
      keep := CheckRequired(a.attributes, cfg.requiredAttrs);
      return;
    }
    return true;
  }

  /** The annotation loop of Filter over one file's annotations: a failing annotation is replaced by
      the last one, which is examined next; a kept one loses the attributes not listed. */
  method FilterAnnotations(anns: seq<Annotation>, cfg: FilterConfig) returns (kept: seq<Annotation>)
    requires AnnotationsNoPanic(anns, cfg)
    ensures kept == KeptAnnotations(anns, cfg)
  {
    kept := anns;
    var i := 0;
    while i < |kept|
      invariant 0 <= i <= |kept|
      invariant SwapCompact(kept, i, AnnotationStep(cfg)) == KeptAnnotations(anns, cfg)
      invariant forall a :: a in kept[i..] ==> a in anns
      decreases |kept| - i
    {
      var a := kept[i];
      assert a in kept[i..];
      var keep := AnnotationPasses(a, cfg);
      if !keep {
        DropStep(kept, i, AnnotationStep(cfg));
        kept := SwapDelete(kept, i);
      } else {
        var b := a;
        if |cfg.attributes| > 0 {
          var attrs := RestrictAttributes(a.attributes, cfg.attributes);
          b := a.(attributes := attrs);
        }
        KeepStep(kept, i, b, AnnotationStep(cfg));
        kept := kept[i := b];
        i := i + 1;
      }
    }
  }

  /** Filtering one file's annotations keeps exactly the annotations that pass every test, each
      reduced to the listed attributes, once each and in some order. */
  lemma KeptAnnotationsCorrect(anns: seq<Annotation>, cfg: FilterConfig)
    ensures multiset(KeptAnnotations(anns, cfg)) == multiset(Stable(anns, AnnotationStep(cfg)))
    ensures forall a :: a in KeptAnnotations(anns, cfg) <==> exists o :: o in anns && Keep(o, cfg) && a == Project(o, cfg)
    ensures |KeptAnnotations(anns, cfg)| <= |anns|
  {
    var step := AnnotationStep(cfg);
    CompactPermutes(anns, 0, step);
    assert anns[0..] == anns;
    StableLength(anns, step);
    forall a
      ensures a in KeptAnnotations(anns, cfg) <==> exists o :: o in anns && Keep(o, cfg) && a == Project(o, cfg)
    {
      StableMembers(anns, step, a);
      var k, t := KeptAnnotations(anns, cfg), Stable(anns, step);
      assert (a in k) == (a in multiset(k)) && (a in t) == (a in multiset(t));
    }
    assert |KeptAnnotations(anns, cfg)| == |multiset(KeptAnnotations(anns, cfg))|;
  }

  /** Filtering the files keeps exactly the files that still have annotations or need none, each with
      its filtered annotations and its path, once each and in some order; without requireLabel no file
      is dropped. */
  lemma FilterFilesCorrect(files: seq<AnnotatedFile>, cfg: FilterConfig)
    ensures multiset(FilterFiles(files, cfg)) == multiset(Stable(files, FileStep(cfg)))
    ensures forall g :: g in FilterFiles(files, cfg) <==>
      exists f :: f in files && g == f.(annotations := KeptAnnotations(f.annotations, cfg))
                  && !(cfg.requireLabel && |KeptAnnotations(f.annotations, cfg)| == 0)
    ensures |FilterFiles(files, cfg)| <= |files|
    ensures !cfg.requireLabel ==> |FilterFiles(files, cfg)| == |files|
  {
    var step := FileStep(cfg);
    CompactPermutes(files, 0, step);
    assert files[0..] == files;
    StableLength(files, step);
    forall g
      ensures g in FilterFiles(files, cfg) <==>
        exists f :: f in files && g == f.(annotations := KeptAnnotations(f.annotations, cfg))
                    && !(cfg.requireLabel && |KeptAnnotations(f.annotations, cfg)| == 0)
    {
      StableMembers(files, step, g);
      var k, t := FilterFiles(files, cfg), Stable(files, step);
      assert (g in k) == (g in multiset(k)) && (g in t) == (g in multiset(t));
    }
    assert |FilterFiles(files, cfg)| == |multiset(FilterFiles(files, cfg))|;
  }

  /** Projection keeps an annotation's box, name and the value of every attribute it keeps. */
  lemma ProjectScreened(o: Annotation, cfg: FilterConfig)
    requires Screened(o, cfg)
    ensures Screened(Project(o, cfg), cfg)
    ensures |cfg.attributes| > 0 ==> forall k :: k in Project(o, cfg).attributes ==> k in cfg.attributes
  {
  }

  /** Every annotation left by Filter passes the confidence, size, aspect and label tests and holds only
      listed attributes; with requireLabel no file is left without annotations. */
  lemma FilterOutputSound(files: seq<AnnotatedFile>, cfg: FilterConfig)
    ensures forall g :: g in FilterFiles(files, cfg) ==> (cfg.requireLabel ==> |g.annotations| > 0)
    ensures forall g, a :: g in FilterFiles(files, cfg) && a in g.annotations ==>
      Screened(a, cfg) && (|cfg.attributes| > 0 ==> forall k :: k in a.attributes ==> k in cfg.attributes)
  {
    FilterFilesCorrect(files, cfg);
    forall g, a | g in FilterFiles(files, cfg) && a in g.annotations
      ensures Screened(a, cfg) && (|cfg.attributes| > 0 ==> forall k :: k in a.attributes ==> k in cfg.attributes)
    {
      var f :| f in files && g == f.(annotations := KeptAnnotations(f.annotations, cfg));
      KeptAnnotationsCorrect(f.annotations, cfg);
      var o :| o in f.annotations && Keep(o, cfg) && a == Project(o, cfg);
      ProjectScreened(o, cfg);
    }
  }

  /** Every required attribute is among the attributes kept (or all attributes are kept). */
  predicate RequiredKept(cfg: FilterConfig)
  {
    |cfg.attributes| == 0 || forall k :: k in cfg.requiredAttrs ==> k in cfg.attributes
  }

  /** Restricting to a list that contains the required keys keeps the required-attribute test's result. */
  lemma {:induction false} RequiredScanRestrict(attrs: map<string, Value>, keys: seq<string>, allowed: seq<string>)
    requires RequiredScan(attrs, keys) == Pass
    requires forall k :: k in keys ==> k in allowed
    ensures RequiredScan(Restrict(attrs, allowed), keys) == Pass
  {
    if keys != [] {
      assert keys[0] in keys;
      assert forall k :: k in keys[1..] ==> k in keys;
      RequiredScanRestrict(attrs, keys[1..], allowed);
    }
  }

  /** A kept and projected annotation is kept unchanged by a second pass. */
  lemma ProjectedKept(o: Annotation, cfg: FilterConfig)
    requires Keep(o, cfg) && RequiredKept(cfg)
    ensures AnnotationStep(cfg)(Project(o, cfg)) == Some(Project(o, cfg))
  {
    var p := Project(o, cfg);
    ProjectScreened(o, cfg);
    if |cfg.attributes| > 0 {
      RequiredScanRestrict(o.attributes, cfg.requiredAttrs, cfg.attributes);
      assert Restrict(p.attributes, cfg.attributes) == p.attributes;
    }
  }

  /** A file as Filter leaves it passes a second pass unchanged. */
  lemma FilteredFileFixed(f: AnnotatedFile, cfg: FilterConfig)
    requires RequiredKept(cfg) && !(cfg.requireLabel && |KeptAnnotations(f.annotations, cfg)| == 0)
    ensures var g := f.(annotations := KeptAnnotations(f.annotations, cfg));
            FileStep(cfg)(g) == Some(g) && AnnotationsNoPanic(g.annotations, cfg)
  {
    var kept := KeptAnnotations(f.annotations, cfg);
    KeptAnnotationsCorrect(f.annotations, cfg);
    forall j | 0 <= j < |kept|
      ensures AnnotationStep(cfg)(kept[j]) == Some(kept[j])
    {
      assert kept[j] in kept;
      var o :| o in f.annotations && Keep(o, cfg) && kept[j] == Project(o, cfg);
      ProjectedKept(o, cfg);
    }
    CompactFixed(kept, 0, AnnotationStep(cfg));
  }

  /** Filtering a second time with the same options changes nothing, provided the attribute list keeps
      the required attributes; the second pass cannot panic. */
  lemma FilterIdempotent(files: seq<AnnotatedFile>, cfg: FilterConfig)
    requires RequiredKept(cfg)
    ensures NoPanic(FilterFiles(files, cfg), cfg)
    ensures FilterFiles(FilterFiles(files, cfg), cfg) == FilterFiles(files, cfg)
  {
    var out := FilterFiles(files, cfg);
    FilterFilesCorrect(files, cfg);
    forall k | 0 <= k < |out|
      ensures FileStep(cfg)(out[k]) == Some(out[k]) && AnnotationsNoPanic(out[k].annotations, cfg)
    {
      assert out[k] in out;
      var f :| f in files && out[k] == f.(annotations := KeptAnnotations(f.annotations, cfg))
                && !(cfg.requireLabel && |KeptAnnotations(f.annotations, cfg)| == 0);
      FilteredFileFixed(f, cfg);
    }
    CompactFixed(out, 0, FileStep(cfg));
  }

  /** Without that provision a second pass can remove more: an annotation kept for its required "Text"
      loses that attribute to the list ["Confidence"] and then fails the required test. */
  lemma FilterNotIdempotentExample()
    ensures var cfg := FilterConfig([], [Confidence], [DetectedText], 0.0, true, 0.0, 0.0, 0.0, 0.0);
            var files := [AnnotatedFile([Annotation(map[DetectedText := StringValue("x")], [0.0, 0.0, 1.0, 1.0], "a")], "f.jpg")];
            |FilterFiles(files, cfg)| == 1 && FilterFiles(FilterFiles(files, cfg), cfg) == []
  {
    var cfg := FilterConfig([], [Confidence], [DetectedText], 0.0, true, 0.0, 0.0, 0.0, 0.0);
    var a := Annotation(map[DetectedText := StringValue("x")], [0.0, 0.0, 1.0, 1.0], "a");
    var f := AnnotatedFile([a], "f.jpg");
    var p := a.(attributes := map[]);
    assert Restrict(a.attributes, cfg.attributes) == map[];
    assert Keep(a, cfg);
    assert AnnotationStep(cfg)(a) == Some(p);
    assert [a][0 := p] == [p];
    assert SwapCompact([p], 1, AnnotationStep(cfg)) == [p];
    assert KeptAnnotations([a], cfg) == [p];
    var g := f.(annotations := [p]);
    assert FileStep(cfg)(f) == Some(g);
    assert [f][0 := g] == [g];
    assert SwapCompact([g], 1, FileStep(cfg)) == [g];
    assert FilterFiles([f], cfg) == [g];
    assert !Keep(p, cfg);
    assert SwapDelete([p], 0) == [];
    assert SwapCompact([p], 0, AnnotationStep(cfg)) == SwapCompact([], 0, AnnotationStep(cfg));
    assert KeptAnnotations([p], cfg) == [];
    assert FileStep(cfg)(g) == None;
    assert SwapDelete([g], 0) == [];
    assert SwapCompact([g], 0, FileStep(cfg)) == SwapCompact([], 0, FileStep(cfg));
    assert FilterFiles(FilterFiles([f], cfg), cfg) == [];
  }

  // ----- cropObjectsFromImage -----

  /** The pixel rectangle of an annotation's box: the corners rounded to the nearest pixel, spanned in
      either order and clipped to the image bounds. */
  function CropRect(a: Annotation, bounds: Rect): Rect
  {
    Intersect(CanonRect(Round(a.coords[0]), Round(a.coords[1]), Round(a.coords[2]), Round(a.coords[3])), bounds)
  }

  /** The CropCoords attribute: "(minX,minY)(maxX,maxY)" in decimal. */
  function CropCoordsText(r: Rect): string
  {
    "(" + IntToString(r.minX) + "," + IntToString(r.minY) + ")(" + IntToString(r.maxX) + "," + IntToString(r.maxY) + ")"
  }

  /** The path of the crop of annotation i: "_" and i in at least two digits go before the extension. */
  function CropPath(path: string, i: nat): string
  {
    var ext := Paths.Ext(path);
    path[..|path| - |ext|] + "_" + ZeroPad(i, 2) + ext
  }

  /** An image to save together with its metadata. */
  datatype Item = Item(image: Image, file: AnnotatedFile)

  /** The file of the crop over r of annotation i: one annotation covering the whole crop, with the
      original's label and attributes plus CropCoords. */
  function CropFile(f: AnnotatedFile, i: nat, r: Rect): AnnotatedFile
    requires i < |f.annotations|
  {
    var a := f.annotations[i];
    AnnotatedFile([Annotation(a.attributes[CropCoords := StringValue(CropCoordsText(r))],
                              [0.0, 0.0, Dx(r) as real, Dy(r) as real], a.name)],
                  CropPath(f.filePath, i))
  }

  /** The crop of annotation i, or None when its clipped box has no pixels (or there is no such
      annotation). */
  function CropAt(f: AnnotatedFile, img: Image, i: nat): Option<Item>
  {
    if i >= |f.annotations| then None
    else
      var r := CropRect(f.annotations[i], img.bounds);
      if Empty(r) then None else Some(Item(SubImage(img, r), CropFile(f, i, r)))
  }

  function CropStep(f: AnnotatedFile, img: Image): nat -> Option<Item>
  {
    (i: nat) => CropAt(f, img, i)
  }

  /** The present values among g(0), ..., g(n - 1), in order. */
  function Collect<T>(n: nat, g: nat -> Option<T>): seq<T>
  {
    if n == 0 then [] else Collect(n - 1, g) + (match g(n - 1) case None => [] case Some(c) => [c])
  }

  /** Collect holds exactly the present values, at most one per index. */
  lemma {:induction false} CollectMembers<T>(n: nat, g: nat -> Option<T>)
    ensures |Collect(n, g)| <= n
    ensures forall c :: c in Collect(n, g) <==> exists i :: 0 <= i < n && g(i) == Some(c)
  {
    if n > 0 {
      CollectMembers(n - 1, g);
      var prev := Collect(n - 1, g);
      forall c
        ensures c in Collect(n, g) <==> exists i :: 0 <= i < n && g(i) == Some(c)
      {
        if c in prev {
          var i :| 0 <= i < n - 1 && g(i) == Some(c);
        }
      }
    }
  }

  /** The crops of the first n annotations, in order, skipping boxes that miss the image. */
  function CropsUpTo(f: AnnotatedFile, img: Image, n: nat): seq<Item>
  {
    Collect(n, CropStep(f, img))
  }

  /** cropObjectsFromImage: an error for an image type without SubImage, else the crops. */
  function CropObjects(f: AnnotatedFile, img: Image): Result<seq<Item>>
  {
    if !img.canCrop then Err(NoSubImage(f.filePath)) else Ok(CropsUpTo(f, img, |f.annotations|))
  }

  /** The body of cropObjectsFromImage's loop for annotation i. */
  method CropOne(f: AnnotatedFile, img: Image, i: nat) returns (c: Option<Item>)
    requires i < |f.annotations|
    ensures c == CropAt(f, img, i)
  {
    var a := f.annotations[i];
    // Clip the bounding box to the image bounds.
    var rect := CanonRect(Round(a.coords[0]), Round(a.coords[1]), Round(a.coords[2]), Round(a.coords[3]));
    rect := Intersect(rect, img.bounds);
    assert rect == CropRect(a, img.bounds);
    if Empty(rect) {
      return None;
    }
    var attrs := a.attributes[CropCoords := StringValue(CropCoordsText(rect))];
    var ext := Paths.Ext(f.filePath);
    var path := f.filePath[..|f.filePath| - |ext|] + "_" + ZeroPad(i, 2) + ext;
    assert path == CropPath(f.filePath, i);
    var fileData := AnnotatedFile([Annotation(attrs, [0.0, 0.0, Dx(rect) as real, Dy(rect) as real], a.name)], path);
    assert fileData == CropFile(f, i, rect);
    return Some(Item(SubImage(img, rect), fileData));
  }

  /** cropObjectsFromImage, annotation by annotation. */
  method CropObjectsFromImage(f: AnnotatedFile, img: Image) returns (r: Result<seq<Item>>)
    ensures r == CropObjects(f, img)
  {
    if !img.canCrop {
      return Err(NoSubImage(f.filePath));
    }
    var crops: seq<Item> := [];
    for i := 0 to |f.annotations|
      invariant crops == Collect(i, CropStep(f, img))
    {
      assert CropStep(f, img)(i) == CropAt(f, img, i);
      var c := CropOne(f, img, i);
      if c.Some? {
        crops := crops + [c.value];
      }
    }
    return Ok(crops);
  }

  /** The crop of one annotation is exactly its clipped box, which lies inside the image and has
      pixels. */
  lemma CropImageSound(f: AnnotatedFile, img: Image, i: nat)
    requires CropAt(f, img, i).Some?
    ensures var r := CropRect(f.annotations[i], img.bounds);
            var c := CropAt(f, img, i).value;
            && c.image == Image(r, img.canCrop) && Sized(c.image)
            && (forall x, y :: InRect(x, y, r) ==> InRect(x, y, img.bounds))
  {
    var r := CropRect(f.annotations[i], img.bounds);
    assert Intersect(r, img.bounds) == r;
  }

  /** The crop's metadata: one annotation covering the whole crop, with the original's label, every
      original attribute, and the box in CropCoords. */
  lemma CropFileSound(f: AnnotatedFile, img: Image, i: nat)
    requires CropAt(f, img, i).Some?
    ensures var r := CropRect(f.annotations[i], img.bounds);
            var g := CropAt(f, img, i).value.file;
            && g.filePath == CropPath(f.filePath, i)
            && |g.annotations| == 1
            && g.annotations[0].coords == [0.0, 0.0, Dx(r) as real, Dy(r) as real]
            && g.annotations[0].name == f.annotations[i].name
            && g.annotations[0].attributes == f.annotations[i].attributes[CropCoords := StringValue(CropCoordsText(r))]
  {
  }

  /** The crops are exactly those of the annotations whose clipped box has pixels, at most one each. */
  lemma CropsUpToMembers(f: AnnotatedFile, img: Image, n: nat)
    ensures |CropsUpTo(f, img, n)| <= n
    ensures forall c :: c in CropsUpTo(f, img, n) <==> exists i :: 0 <= i < n && CropAt(f, img, i) == Some(c)
  {
    var g := CropStep(f, img);
    CollectMembers(n, g);
    forall c
      ensures c in CropsUpTo(f, img, n) <==> exists i :: 0 <= i < n && CropAt(f, img, i) == Some(c)
    {
      if c in CropsUpTo(f, img, n) {
        var i :| 0 <= i < n && g(i) == Some(c);
        assert CropAt(f, img, i) == Some(c);
      } else {
        forall i | 0 <= i < n
          ensures CropAt(f, img, i) != Some(c)
        {
          assert g(i) == CropAt(f, img, i);
        }
      }
    }
  }

  /** Every crop has pixels and carries one annotation. */
  lemma CropsSized(f: AnnotatedFile, img: Image)
    ensures forall c :: c in CropsUpTo(f, img, |f.annotations|) ==> Sized(c.image) && |c.file.annotations| == 1
  {
    CropsUpToMembers(f, img, |f.annotations|);
    forall c | c in CropsUpTo(f, img, |f.annotations|)
      ensures Sized(c.image) && |c.file.annotations| == 1
    {
      var i :| 0 <= i < |f.annotations| && CropAt(f, img, i) == Some(c);
      CropImageSound(f, img, i);
      CropFileSound(f, img, i);
    }
  }

  /** Different annotations of one file get different crop paths. */
  lemma CropPathInjective(path: string, i: nat, j: nat)
    requires CropPath(path, i) == CropPath(path, j)
    ensures i == j
  {
    var ext := Paths.Ext(path);
    var pre := path[..|path| - |ext|] + "_";
    var zi, zj := ZeroPad(i, 2), ZeroPad(j, 2);
    assert pre + zi + ext == pre + zj + ext;
    assert |zi| == |zj|;
    assert zi == (pre + zi + ext)[|pre|..|pre| + |zi|];
    assert zj == (pre + zj + ext)[|pre|..|pre| + |zj|];
    ZeroPadRoundTrip(i, 2);
    ZeroPadRoundTrip(j, 2);
  }

  /** A crop path ends in a digit or in the extension, so it names a file. */
  lemma CropPathNamed(path: string, i: nat)
    ensures Paths.NamedPath(CropPath(path, i))
  {
    var ext := Paths.Ext(path);
    var p := CropPath(path, i);
    var z := ZeroPad(i, 2);
    ZeroPadRoundTrip(i, 2);
    if ext == [] {
      assert p[|p| - 1] == z[|z| - 1];
    } else {
      assert p[|p| - 1] == ext[|ext| - 1];
    }
    Paths.EndsInName(p);
  }

  /** The worked example, in three parts: in a 10x10 image, the box (12, 3.6)-(2.4, 8) is rounded,
      ordered and clipped to (2,4)-(10,8) ... */
  lemma CropExampleRect()
    ensures CropRect(Annotation(map[], [12.0, 3.6, 2.4, 8.0], "car"), Rect(0, 0, 10, 10)) == Rect(2, 4, 10, 8)
  {
    assert Round(12.0) == 12 && Round(3.6) == 4 && Round(2.4) == 2 && Round(8.0) == 8;
  }

  /** ... which is recorded as the CropCoords text "(2,4)(10,8)" ... */
  lemma CropExampleText()
    ensures CropCoordsText(Rect(2, 4, 10, 8)) == "(2,4)(10,8)"
  {
    assert IntToString(10) == "10" by {
      assert NatToString(10) == NatToString(1) + [DigitChar(0)];
    }
  }

  /** ... and the i-th crop of a file named stem + ext (say "img" + ".jpg") is saved as stem, an
      underscore, i in two or more digits, and ext ("img_00.jpg" for i = 0). */
  lemma CropPathParts(stem: string, ext: string, i: nat)
    requires Paths.Sep !in stem && Paths.Sep !in ext && |ext| > 0 && ext[0] == '.' && '.' !in ext[1..]
    ensures CropPath(stem + ext, i) == stem + "_" + ZeroPad(i, 2) + ext
  {
    Paths.ExtOfName(stem, ext);
    var path := stem + ext;
    var pre := path[..|path| - |Paths.Ext(path)|];
    assert pre == stem;
    assert CropPath(path, i) == pre + "_" + ZeroPad(i, 2) + Paths.Ext(path);
  }

  /** The first crop's index is written "00". */
  lemma ZeroPadTwo()
    ensures ZeroPad(0, 2) == "00"
  {
    assert NatToString(0) == "0";
    assert Zeros(1) == "0";
  }

  // ----- ProcessImages -----

  /** The file system as the model sees it: the image decoded from a path (None when it cannot be opened
      or decoded) and whether writing an encoded image to a path succeeds. */
  datatype Env = Env(load: string -> Option<Image>, saveOk: string -> bool)

  /** An image with at least one pixel, which resizing needs. */
  predicate Sized(img: Image)
  {
    Dx(img.bounds) > 0 && Dy(img.bounds) > 0
  }

  /** Every image the file system decodes has at least one pixel. */
  ghost predicate DecodesSized(env: Env)
  {
    forall p :: env.load(p).Some? ==> Sized(env.load(p).value)
  }

  /** Resizing divides by the sides of the image it resizes. Crops always have pixels, so only when the
      loaded images themselves are resized (resizing without cropping) must every decoded image have
      pixels; a side of zero would make Go's scale factors infinite or NaN. */
  ghost predicate LoadsResizable(env: Env, st: Settings)
  {
    st.resize && !st.crop ==> DecodesSized(env)
  }

  /** LoadsResizable for the arguments of ProcessImages. */
  ghost predicate OptionsResizable(env: Env, opts: ProcessOptions)
  {
    (opts.longerSide > 0 || opts.shorterSide > 0) && !opts.cropObjects ==> DecodesSized(env)
  }

  /** The arguments of ProcessImages. */
  datatype ProcessOptions = ProcessOptions(
    imageOutDir: string, longerSide: int, shorterSide: int,
    downsamplingFilter: string, upsamplingFilter: string, encoding: string, jpegQuality: int,
    cropObjects: bool)

  /** The validated settings that every image is processed with. */
  datatype Settings = Settings(
    outDir: string, fileExt: string, longerSide: int, shorterSide: int,
    down: Filter, up: Filter, jpegQuality: int, crop: bool, resize: bool)

  /** An image written by saveImage: its path, its pixels' bounds and its encoding. */
  datatype Saved = Saved(path: string, image: Image, encoding: Encoding)

  /** What processing one file yields: the images saved, the updated metadata of each, and an error. */
  datatype Outcome = Outcome(saved: seq<Saved>, out: seq<AnnotatedFile>, err: Option<Error>)

  /** The resampling filters by name; names are case-sensitive. */
  function ParseFilter(name: string): Option<Filter>
  {
    if name == "nearest" then Some(NearestNeighbor)
    else if name == "box" then Some(Box)
    else if name == "linear" then Some(Linear)
    else if name == "gaussian" then Some(Gaussian)
    else if name == "lanczos" then Some(Lanczos)
    else None
  }

  /** The output file extension of an encoding name, in any letter case. */
  function FileExtension(encoding: string): Option<string>
  {
    var e := ToLower(encoding);
    if e == "jpg" || e == "jpeg" then Some(".jpg") else if e == "png" then Some(".png") else None
  }

  /** The output path: the input's base name with its extension replaced by fileExt, inside outDir. */
  function OutPath(outDir: string, path: string, fileExt: string): string
  {
    Paths.JoinPath(outDir, OutName(path, fileExt))
  }

  /** The input's base name with its extension replaced by fileExt. */
  function OutName(path: string, fileExt: string): string
  {
    Stem(path) + fileExt
  }

  /** The input's base name without its extension. */
  function Stem(path: string): string
  {
    var inName := Paths.Base(path);
    var inExt := Paths.Ext(inName);
    inName[..|inName| - |inExt|]
  }

  predicate AllSized(items: seq<Item>)
  {
    forall it :: it in items ==> Sized(it.image)
  }

  /** Resizing (when enabled), saving and updating the metadata of one image. */
  function ItemStep(it: Item, st: Settings, env: Env): Result<(Saved, AnnotatedFile)>
    requires st.resize ==> Sized(it.image)
  {
    var outPath := OutPath(st.outDir, it.file.filePath, st.fileExt);
    if !env.saveOk(outPath) then Err(SaveFailed(outPath))
    else if st.resize then
      var r := ResizeImage(it.image, st.longerSide, st.shorterSide, st.down, st.up);
      Ok((Saved(outPath, r.image, SaveEncoding(outPath, st.jpegQuality)),
          ScaledFile(it.file.(filePath := outPath), r.scaleWidth, r.scaleHeight)))
    else
      Ok((Saved(outPath, it.image, SaveEncoding(outPath, st.jpegQuality)), it.file.(filePath := outPath)))
  }

  /** Items processed in order by step, up to the first that fails. */
  function RunSteps(items: seq<Item>, step: Item --> Result<(Saved, AnnotatedFile)>): Outcome
    requires forall it :: it in items ==> step.requires(it)
  {
    if items == [] then Outcome([], [], None)
    else match step(items[0])
      case Err(e) => Outcome([], [], Some(e))
      case Ok((s, d)) =>
        var rest := RunSteps(items[1..], step);
        Outcome([s] + rest.saved, [d] + rest.out, rest.err)
  }

  /** The run from index i begins with the step on items[i]. */
  lemma RunStepsFrom(items: seq<Item>, i: nat, step: Item --> Result<(Saved, AnnotatedFile)>)
    requires i < |items| && forall it :: it in items ==> step.requires(it)
    ensures items[i] in items
    ensures RunSteps(items[i..], step) ==
      match step(items[i])
      case Err(e) => Outcome([], [], Some(e))
      case Ok((s, d)) =>
        Outcome([s] + RunSteps(items[i + 1..], step).saved, [d] + RunSteps(items[i + 1..], step).out,
                RunSteps(items[i + 1..], step).err)
  {
    assert items[i..][0] == items[i] && items[i..][1..] == items[i + 1..];
  }

  /** The outcome of a run whose first images gave saved and out, followed by the run o of the rest. */
  function Continue(saved: seq<Saved>, out: seq<AnnotatedFile>, o: Outcome): Outcome
  {
    Outcome(saved + o.saved, out + o.out, o.err)
  }

  /** One more image processed: a failure ends the run, a success joins the images done. */
  lemma RunStepsAdvance(items: seq<Item>, i: nat, step: Item --> Result<(Saved, AnnotatedFile)>,
                        saved: seq<Saved>, out: seq<AnnotatedFile>)
    requires i < |items| && forall it :: it in items ==> step.requires(it)
    requires RunSteps(items, step) == Continue(saved, out, RunSteps(items[i..], step))
    ensures items[i] in items
    ensures step(items[i]).Err? ==> RunSteps(items, step) == Outcome(saved, out, Some(step(items[i]).error))
    ensures step(items[i]).Ok? ==>
      RunSteps(items, step) == Continue(saved + [step(items[i]).value.0], out + [step(items[i]).value.1],
                                        RunSteps(items[i + 1..], step))
  {
    RunStepsFrom(items, i, step);
    if step(items[i]).Ok? {
      ContinueOne(saved, out, step(items[i]).value.0, step(items[i]).value.1, RunSteps(items[i + 1..], step));
    }
  }

  /** Moving one image from the rest of a run to the images done. */
  lemma ContinueOne(saved: seq<Saved>, out: seq<AnnotatedFile>, s: Saved, d: AnnotatedFile, o: Outcome)
    ensures Continue(saved, out, Outcome([s] + o.saved, [d] + o.out, o.err))
         == Continue(saved + [s], out + [d], o)
  {
    assert saved + ([s] + o.saved) == saved + [s] + o.saved;
    assert out + ([d] + o.out) == out + [d] + o.out;
  }

  function ItemStepFn(st: Settings, env: Env): Item --> Result<(Saved, AnnotatedFile)>
  {
    (it: Item) requires st.resize ==> Sized(it.image) => ItemStep(it, st, env)
  }

  /** The images of one file processed in order, up to the first that cannot be saved. */
  function ProcessItems(items: seq<Item>, st: Settings, env: Env): Outcome
    requires st.resize ==> AllSized(items)
  {
    RunSteps(items, ItemStepFn(st, env))
  }

  /** processImage: load the image, crop it when asked, then process the image or its crops. */
  function ProcessFile(d: AnnotatedFile, st: Settings, env: Env): Outcome
    requires LoadsResizable(env, st)
  {
    match env.load(d.filePath)
    case None => Outcome([], [], Some(DecodeFailed(d.filePath)))
    case Some(img) =>
      if st.crop then
        match CropObjects(d, img)
        case Err(e) => Outcome([], [], Some(e))
        case Ok(crops) => CropsSized(d, img); ProcessItems(crops, st, env)
      else ProcessItems([Item(img, d)], st, env)
  }

  /** The result of ProcessImages: the new metadata, the images written and the error returned. */
  datatype Processed = Processed(files: seq<AnnotatedFile>, saved: seq<Saved>, err: Option<Error>)

  /** The files processed one after another by run: in crop mode the files of the crops replace all
      files, otherwise each file is replaced by its update when it has one; the error slot keeps the
      first error. */
  function Gather(files: seq<AnnotatedFile>, run: AnnotatedFile --> Outcome, crop: bool): Processed
    requires forall d :: d in files ==> run.requires(d)
  {
    if files == [] then Processed([], [], None)
    else
      var d := files[|files| - 1];
      assert forall x :: x in files[..|files| - 1] ==> x in files;
      var p := Gather(files[..|files| - 1], run, crop);
      var o := run(d);
      Processed(p.files + (if crop then o.out else if |o.out| == 1 then [o.out[0]] else [d]),
                p.saved + o.saved, KeepFirst(p.err, o.err))
  }

  function FileRun(st: Settings, env: Env): AnnotatedFile --> Outcome
  {
    (d: AnnotatedFile) requires LoadsResizable(env, st) => ProcessFile(d, st, env)
  }

  lemma FileRunApplies(st: Settings, env: Env, d: AnnotatedFile)
    requires LoadsResizable(env, st)
    ensures FileRun(st, env).requires(d) && FileRun(st, env)(d) == ProcessFile(d, st, env)
  {
  }

  /** Every file processed with the same settings. */
  function ProcessAll(files: seq<AnnotatedFile>, st: Settings, env: Env): Processed
    requires LoadsResizable(env, st)
  {
    Gather(files, FileRun(st, env), st.crop)
  }

  /** Gathering one more file. */
  lemma GatherSnoc(files: seq<AnnotatedFile>, i: nat, run: AnnotatedFile --> Outcome, crop: bool)
    requires i < |files| && forall d :: d in files ==> run.requires(d)
    ensures files[i] in files && forall d :: d in files[..i] ==> d in files
    ensures var p := Gather(files[..i], run, crop);
            var o := run(files[i]);
            Gather(files[..i + 1], run, crop)
              == Processed(p.files + (if crop then o.out else if |o.out| == 1 then [o.out[0]] else [files[i]]),
                           p.saved + o.saved, KeepFirst(p.err, o.err))
  {
    assert files[..i + 1][..i] == files[..i];
    assert forall d :: d in files[..i + 1] ==> d in files;
  }

  /** Outside crop mode, the gathered files followed by the files not yet processed: processing one
      more file replaces it in place by its update, when it has one. */
  lemma GatherReplaces(files: seq<AnnotatedFile>, i: nat, run: AnnotatedFile --> Outcome, data: seq<AnnotatedFile>)
    requires i < |files| && forall d :: d in files ==> run.requires(d)
    requires data == Gather(files[..i], run, false).files + files[i..]
    ensures files[i] in files && |data| > i && data[i] == files[i]
    ensures var o := run(files[i]);
            (if |o.out| == 1 then data[i := o.out[0]] else data)
              == Gather(files[..i + 1], run, false).files + files[i + 1..]
  {
    GatherSnoc(files, i, run, false);
    GatherLength(files[..i], run);
    ConsTail(files, i);
  }

  lemma ConsTail<T>(s: seq<T>, i: nat)
    requires i < |s|
    ensures s[i..] == [s[i]] + s[i + 1..]
  {
  }

  /** Outside crop mode every file keeps its place. */
  lemma {:induction false} GatherLength(files: seq<AnnotatedFile>, run: AnnotatedFile --> Outcome)
    requires forall d :: d in files ==> run.requires(d)
    ensures |Gather(files, run, false).files| == |files|
  {
    if files != [] {
      assert forall x :: x in files[..|files| - 1] ==> x in files;
      GatherLength(files[..|files| - 1], run);
    }
  }

  /** ProcessImages: nothing to do without resizing or cropping; otherwise the filter names and the
      encoding are checked in that order before any image is touched. */
  function ProcessImagesResult(files: seq<AnnotatedFile>, opts: ProcessOptions, env: Env): Processed
    requires OptionsResizable(env, opts)
  {
    var resize := opts.longerSide > 0 || opts.shorterSide > 0;
    if !resize && !opts.cropObjects then Processed(files, [], None)
    else if ParseFilter(opts.downsamplingFilter).None? then
      Processed(files, [], Some(UnknownFilter(opts.downsamplingFilter)))
    else if ParseFilter(opts.upsamplingFilter).None? then
      Processed(files, [], Some(UnknownFilter(opts.upsamplingFilter)))
    else if FileExtension(opts.encoding).None? then
      Processed(files, [], Some(UnsupportedEncoding(opts.encoding)))
    else
      ProcessAll(files, Settings(opts.imageOutDir, FileExtension(opts.encoding).value,
                                 opts.longerSide, opts.shorterSide,
                                 ParseFilter(opts.downsamplingFilter).value, ParseFilter(opts.upsamplingFilter).value,
                                 opts.jpegQuality, opts.cropObjects, resize), env)
  }

  /** The loop of ProcessImages: every file in order, the metadata of each replaced by its update (or by
      the files of its crops), the saved images collected and the first error kept. */
  method ProcessFiles(files: seq<AnnotatedFile>, st: Settings, env: Env) returns (p: Processed)
    requires LoadsResizable(env, st)
    ensures p == ProcessAll(files, st, env)
  {
    ghost var run := FileRun(st, env);
    var data := files;
    var croppedData: seq<AnnotatedFile> := [];
    var err: Option<Error> := None;
    var saved: seq<Saved> := [];
    for i := 0 to |files|
      invariant |data| == |files|
      invariant saved == Gather(files[..i], run, st.crop).saved
      invariant err == Gather(files[..i], run, st.crop).err
      invariant st.crop ==> croppedData == Gather(files[..i], run, st.crop).files && data == files
      invariant !st.crop ==> data == Gather(files[..i], run, st.crop).files + files[i..]
    {
      GatherSnoc(files, i, run, st.crop);
      if !st.crop {
        GatherReplaces(files, i, run, data);
      }
      var o := ProcessImage(data[i], st, env);
      FileRunApplies(st, env, files[i]);
      err := KeepFirst(err, o.err);
      saved := saved + o.saved;
      if st.crop {
        croppedData := croppedData + o.out;
      } else if |o.out| == 1 {
        data := data[i := o.out[0]];
      }
    }
    assert files[..|files|] == files;
    if st.crop {
      data := croppedData;
    }
    return Processed(data, saved, err);
  }

  /** processImage, image by image. */
  method ProcessImage(d: AnnotatedFile, st: Settings, env: Env) returns (o: Outcome)
    requires LoadsResizable(env, st)
    ensures o == ProcessFile(d, st, env)
  {
    // Read the image.
    var loaded := env.load(d.filePath);
    if loaded.None? {
      return Outcome([], [], Some(DecodeFailed(d.filePath)));
    }
    var img := loaded.value;

    // Crop labelled objects from the image if requested.
    var items: seq<Item>;
    if st.crop {
      var crops := CropObjectsFromImage(d, img);
      if crops.Err? {
        return Outcome([], [], Some(crops.error));
      }
      items := crops.value;
      CropsSized(d, img);
    } else {
      items := [Item(img, d)];
    }

    // Process either the original image or the crops.
    o := SaveAll(items, st, env);
  }

  /** The loop of processImage over the original image or the crops; it stops at the first image that
      cannot be saved. Each turn is the step SaveItem carries out. */
  method SaveAll(items: seq<Item>, st: Settings, env: Env) returns (o: Outcome)
    requires st.resize ==> AllSized(items)
    ensures o == ProcessItems(items, st, env)
  {
    o := RunItems(items, ItemStepFn(st, env));
  }

  /** Items processed in order by step, up to the first that fails. */
  method RunItems(items: seq<Item>, step: Item --> Result<(Saved, AnnotatedFile)>) returns (o: Outcome)
    requires forall it :: it in items ==> step.requires(it)
    ensures o == RunSteps(items, step)
  {
    var saved: seq<Saved> := [];
    var out: seq<AnnotatedFile> := [];
    assert items[0..] == items;
    for i := 0 to |items|
      invariant RunSteps(items, step) == Continue(saved, out, RunSteps(items[i..], step))
    {
      RunStepsAdvance(items, i, step, saved, out);
      var r := step(items[i]);
      if r.Err? {
        return Outcome(saved, out, Some(r.error));
      }
      saved := saved + [r.value.0];
      out := out + [r.value.1];
    }
    assert items[|items|..] == [];
    return Outcome(saved, out, None);
  }

  /** The body of processImage's loop: resize when enabled, save, then update the metadata. */
  method SaveItem(it: Item, st: Settings, env: Env) returns (r: Result<(Saved, AnnotatedFile)>)
    requires st.resize ==> Sized(it.image)
    ensures r == ItemStep(it, st, env)
  {
    // Resize.
    var image := it.image;
    var scaleWidth, scaleHeight := 0.0, 0.0;
    if st.resize {
      var resized := ResizeImage(image, st.longerSide, st.shorterSide, st.down, st.up);
      image, scaleWidth, scaleHeight := resized.image, resized.scaleWidth, resized.scaleHeight;
    }

    // Save the image under its base name with the new extension, inside the output directory.
    var outPath := OutPath(st.outDir, it.file.filePath, st.fileExt);
    if !env.saveOk(outPath) {
      return Err(SaveFailed(outPath));
    }

    // Update the image file path and rescale the coordinates.
    var data := it.file.(filePath := outPath);
    if st.resize {
      data := ScaleCoords(data, scaleWidth, scaleHeight);
    }
    r := Ok((Saved(outPath, image, SaveEncoding(outPath, st.jpegQuality)), data));
  }

  /** The slot after gathering holds the errors of the files folded in order. */
  lemma {:induction false} GatherErr(files: seq<AnnotatedFile>, run: AnnotatedFile --> Outcome, crop: bool)
    requires forall d :: d in files ==> run.requires(d)
    ensures Gather(files, run, crop).err
         == FoldSlot(None, seq(|files|, k requires 0 <= k < |files| && run.requires(files[k]) => run(files[k]).err))
  {
    var errs := seq(|files|, k requires 0 <= k < |files| && run.requires(files[k]) => run(files[k]).err);
    if files != [] {
      var n := |files| - 1;
      assert forall d :: d in files[..n] ==> d in files;
      GatherErr(files[..n], run, crop);
      assert files[n] in files;
      var prev := seq(n, k requires 0 <= k < n && run.requires(files[..n][k]) => run(files[..n][k]).err);
      assert errs == prev + [run(files[n]).err];
      FoldSlotSnoc(None, prev, run(files[n]).err);
    }
  }

  /** The error ProcessImages returns is that of the first file that fails, and there is none exactly
      when every file is processed without error. */
  lemma ProcessErrorIsFirst(files: seq<AnnotatedFile>, st: Settings, env: Env)
    requires LoadsResizable(env, st)
    ensures ProcessAll(files, st, env).err.None? <==>
      forall k :: 0 <= k < |files| ==> ProcessFile(files[k], st, env).err.None?
    ensures ProcessAll(files, st, env).err.Some? ==>
      exists k :: 0 <= k < |files| && ProcessFile(files[k], st, env).err == ProcessAll(files, st, env).err
                  && forall j :: 0 <= j < k ==> ProcessFile(files[j], st, env).err.None?
  {
    var run := FileRun(st, env);
    GatherErr(files, run, st.crop);
    var errs := seq(|files|, k requires 0 <= k < |files| && run.requires(files[k]) => run(files[k]).err);
    FoldKeepsEarliest(errs);
    assert forall k :: 0 <= k < |files| ==> errs[k] == ProcessFile(files[k], st, env).err;
  }

  /** The step saves the item's image together with metadata that points at it and keeps the item's
      annotations. */
  predicate StepPairs(step: Item --> Result<(Saved, AnnotatedFile)>, it: Item)
    requires step.requires(it)
  {
    step(it).Ok? ==>
      step(it).value.1.filePath == step(it).value.0.path && |step(it).value.1.annotations| == |it.file.annotations|
  }

  /** A step that pairs each saved image with metadata pointing at it pairs every image it saves. */
  lemma {:induction false} RunStepsPaired(items: seq<Item>, step: Item --> Result<(Saved, AnnotatedFile)>)
    requires forall it :: it in items ==> step.requires(it) && StepPairs(step, it)
    ensures var o := RunSteps(items, step);
            |o.out| == |o.saved| <= |items|
            && forall k :: 0 <= k < |o.out| ==>
                 o.out[k].filePath == o.saved[k].path
                 && |o.out[k].annotations| == |items[k].file.annotations|
  {
    if items != [] && step(items[0]).Ok? {
      assert items[0] in items;
      assert StepPairs(step, items[0]);
      var r := step(items[0]).value;
      assert forall it :: it in items[1..] ==> it in items;
      RunStepsPaired(items[1..], step);
      var o := RunSteps(items, step);
      var rest := RunSteps(items[1..], step);
      assert o.out == [r.1] + rest.out && o.saved == [r.0] + rest.saved;
      forall k | 1 <= k < |o.out|
        ensures o.out[k] == rest.out[k - 1] && o.saved[k] == rest.saved[k - 1] && items[k] == items[1..][k - 1]
      {
      }
    }
  }

  /** Saving one image yields metadata that points at the saved file and keeps its annotations. */
  lemma ItemStepPaired(it: Item, st: Settings, env: Env)
    requires st.resize ==> Sized(it.image)
    ensures ItemStep(it, st, env).Ok? ==>
      ItemStep(it, st, env).value.1.filePath == ItemStep(it, st, env).value.0.path
      && |ItemStep(it, st, env).value.1.annotations| == |it.file.annotations|
  {
  }

  /** Each image saved for a file has its metadata file, which points at it. */
  lemma ProcessItemsPaired(items: seq<Item>, st: Settings, env: Env)
    requires st.resize ==> AllSized(items)
    ensures var o := ProcessItems(items, st, env);
            |o.out| == |o.saved| <= |items|
            && forall k :: 0 <= k < |o.out| ==>
                 o.out[k].filePath == o.saved[k].path
                 && |o.out[k].annotations| == |items[k].file.annotations|
  {
    var step := ItemStepFn(st, env);
    forall it | it in items
      ensures step.requires(it) && StepPairs(step, it)
    {
      ItemStepPaired(it, st, env);
    }
    RunStepsPaired(items, step);
  }

  // ----- what ProcessImages promises -----

  /** Every image a run saves was saved by the step of one of its items. */
  lemma {:induction false} RunStepsSaved(items: seq<Item>, step: Item --> Result<(Saved, AnnotatedFile)>)
    requires forall it :: it in items ==> step.requires(it)
    ensures forall s :: s in RunSteps(items, step).saved ==>
      exists it :: it in items && step(it).Ok? && step(it).value.0 == s
  {
    if items != [] && step(items[0]).Ok? {
      assert items[0] in items;
      assert forall it :: it in items[1..] ==> it in items;
      RunStepsSaved(items[1..], step);
    }
  }

  /** Every image gathered was saved while processing one of the files. */
  lemma {:induction false} GatherSaved(files: seq<AnnotatedFile>, run: AnnotatedFile --> Outcome, crop: bool)
    requires forall d :: d in files ==> run.requires(d)
    ensures forall s :: s in Gather(files, run, crop).saved ==> exists d :: d in files && s in run(d).saved
  {
    if files != [] {
      var n := |files| - 1;
      assert forall x :: x in files[..n] ==> x in files;
      assert files[n] in files;
      GatherSaved(files[..n], run, crop);
    }
  }

  /** The output extension and encoder chosen for an encoding name. */
  predicate OutputFormat(fileExt: string)
  {
    fileExt == ".jpg" || fileExt == ".png"
  }

  function EncoderFor(fileExt: string, jpegQuality: int): Encoding
  {
    if fileExt == ".png" then PNG else JPEG(jpegQuality)
  }

  /** The output path of a named file carries the requested extension, so saveImage, which picks the
      encoder from the extension, encodes the image as requested. */
  lemma OutPathFormat(outDir: string, path: string, fileExt: string, jpegQuality: int)
    requires Paths.NamedPath(path) && OutputFormat(fileExt)
    ensures Paths.Ext(OutPath(outDir, path, fileExt)) == fileExt
    ensures SaveEncoding(OutPath(outDir, path, fileExt), jpegQuality) == EncoderFor(fileExt, jpegQuality)
  {
    OutNamePlain(path, fileExt);
    Paths.JoinKeepsName(outDir, OutName(path, fileExt));
    FormatEncoder(fileExt, jpegQuality);
  }

  /** The output name of a named file is a plain file name with the requested extension. */
  lemma OutNamePlain(path: string, fileExt: string)
    requires Paths.NamedPath(path) && OutputFormat(fileExt)
    ensures Paths.PlainName(OutName(path, fileExt)) && Paths.Ext(OutName(path, fileExt)) == fileExt
  {
    StemNoSep(path);
    PlainWithExt(Stem(path), fileExt);
  }

  /** The stem of a named file is part of a single element. */
  lemma StemNoSep(path: string)
    requires Paths.NamedPath(path)
    ensures Paths.Sep !in Stem(path)
  {
    Paths.NamedBase(path);
    var inName := Paths.Base(path);
    PrefixNoSep(inName, |inName| - |Paths.Ext(inName)|);
  }

  lemma PrefixNoSep(s: string, n: nat)
    requires n <= |s| && Paths.Sep !in s
    ensures Paths.Sep !in s[..n]
  {
    assert forall j :: 0 <= j < n ==> s[..n][j] == s[j];
  }

  /** A stem without separators followed by the output extension is a plain name with that extension. */
  lemma PlainWithExt(stem: string, fileExt: string)
    requires Paths.Sep !in stem && OutputFormat(fileExt)
    ensures Paths.PlainName(stem + fileExt) && Paths.Ext(stem + fileExt) == fileExt
  {
    FormatShape(fileExt);
    Paths.ExtOfName(stem, fileExt);
  }

  lemma FormatShape(fileExt: string)
    requires OutputFormat(fileExt)
    ensures |fileExt| == 4 && Paths.Sep !in fileExt && fileExt[0] == '.' && '.' !in fileExt[1..]
  {
  }

  /** saveImage's choice for the extension is the encoder asked for. */
  lemma FormatEncoder(fileExt: string, jpegQuality: int)
    requires OutputFormat(fileExt)
    ensures (if ToLower(fileExt) == ".png" then PNG else JPEG(jpegQuality)) == EncoderFor(fileExt, jpegQuality)
  {
    assert ToLower(".png") == ".png" && ToLower(".jpg") == ".jpg";
  }

  /** One saved image of a named file has the requested extension and encoder. */
  lemma ItemStepFormat(it: Item, st: Settings, env: Env)
    requires st.resize ==> Sized(it.image)
    requires Paths.NamedPath(it.file.filePath) && OutputFormat(st.fileExt)
    ensures ItemStep(it, st, env).Ok? ==>
      var s := ItemStep(it, st, env).value.0;
      s.path == OutPath(st.outDir, it.file.filePath, st.fileExt)
      && Paths.Ext(s.path) == st.fileExt && s.encoding == EncoderFor(st.fileExt, st.jpegQuality)
  {
    ItemStepSaved(it, st, env);
    OutPathFormat(st.outDir, it.file.filePath, st.fileExt, st.jpegQuality);
  }

  /** The image saveImage writes for an item: under the output path, with the encoder its extension
      selects. */
  lemma ItemStepSaved(it: Item, st: Settings, env: Env)
    requires st.resize ==> Sized(it.image)
    ensures ItemStep(it, st, env).Ok? ==>
      var s := ItemStep(it, st, env).value.0;
      s.path == OutPath(st.outDir, it.file.filePath, st.fileExt)
      && s.encoding == SaveEncoding(s.path, st.jpegQuality)
  {
  }

  /** The crops' paths name files. */
  lemma CropsNamed(f: AnnotatedFile, img: Image)
    ensures forall c :: c in CropsUpTo(f, img, |f.annotations|) ==> Paths.NamedPath(c.file.filePath)
  {
    CropsUpToMembers(f, img, |f.annotations|);
    forall c | c in CropsUpTo(f, img, |f.annotations|)
      ensures Paths.NamedPath(c.file.filePath)
    {
      var i :| 0 <= i < |f.annotations| && CropAt(f, img, i) == Some(c);
      CropFileSound(f, img, i);
      CropPathNamed(f.filePath, i);
    }
  }

  /** Every image saved for the items has the requested extension and encoder. */
  lemma ProcessItemsFormat(items: seq<Item>, st: Settings, env: Env)
    requires st.resize ==> AllSized(items)
    requires OutputFormat(st.fileExt) && forall it :: it in items ==> Paths.NamedPath(it.file.filePath)
    ensures forall s :: s in ProcessItems(items, st, env).saved ==>
      Paths.Ext(s.path) == st.fileExt && s.encoding == EncoderFor(st.fileExt, st.jpegQuality)
  {
    var step := ItemStepFn(st, env);
    RunStepsSaved(items, step);
    forall s | s in ProcessItems(items, st, env).saved
      ensures Paths.Ext(s.path) == st.fileExt && s.encoding == EncoderFor(st.fileExt, st.jpegQuality)
    {
      var it :| it in items && step(it).Ok? && step(it).value.0 == s;
      ItemStepFormat(it, st, env);
      assert step(it) == ItemStep(it, st, env);
    }
  }

  /** Every image saved for one file has the requested extension and encoder; outside crop mode this
      needs the file's path to name a file. */
  lemma ProcessFileFormat(d: AnnotatedFile, st: Settings, env: Env)
    requires LoadsResizable(env, st) && OutputFormat(st.fileExt) && (st.crop || Paths.NamedPath(d.filePath))
    ensures forall s :: s in ProcessFile(d, st, env).saved ==>
      Paths.Ext(s.path) == st.fileExt && s.encoding == EncoderFor(st.fileExt, st.jpegQuality)
  {
    var loaded := env.load(d.filePath);
    if loaded.Some? {
      var img := loaded.value;
      if st.crop {
        var crops := CropObjects(d, img);
        if crops.Ok? {
          CropsSized(d, img);
          CropsNamed(d, img);
          ProcessItemsFormat(crops.value, st, env);
        }
      } else {
        ProcessItemsFormat([Item(img, d)], st, env);
      }
    }
  }

  /** Every image saved while processing the files has the requested extension and encoder. */
  lemma ProcessAllFormat(files: seq<AnnotatedFile>, st: Settings, env: Env)
    requires LoadsResizable(env, st) && OutputFormat(st.fileExt)
    requires st.crop || forall d :: d in files ==> Paths.NamedPath(d.filePath)
    ensures forall s :: s in ProcessAll(files, st, env).saved ==>
      Paths.Ext(s.path) == st.fileExt && s.encoding == EncoderFor(st.fileExt, st.jpegQuality)
  {
    var run := FileRun(st, env);
    GatherSaved(files, run, st.crop);
    forall d | d in files
      ensures forall s :: s in run(d).saved ==>
        Paths.Ext(s.path) == st.fileExt && s.encoding == EncoderFor(st.fileExt, st.jpegQuality)
    {
      ProcessFileFormat(d, st, env);
    }
  }

  /** The extension and encoder chosen for an accepted encoding name: ".png" and PNG for "png" in any
      letter case, ".jpg" and JPEG at the given quality for "jpg" and "jpeg". */
  lemma FileExtensionFormat(encoding: string, jpegQuality: int)
    requires FileExtension(encoding).Some?
    ensures var png := ToLower(encoding) == "png";
            var e := FileExtension(encoding).value;
            OutputFormat(e) && e == (if png then ".png" else ".jpg")
            && EncoderFor(e, jpegQuality) == (if png then PNG else JPEG(jpegQuality))
  {
  }

  /** ProcessImages touches no file before its options are accepted: without resizing or cropping, or
      with an unknown filter name or an unsupported encoding, the files come back unchanged and no image
      is saved; the error names the first rejected option, and there is none in the first case. */
  lemma ProcessImagesConfigChecked(files: seq<AnnotatedFile>, opts: ProcessOptions, env: Env)
    requires OptionsResizable(env, opts)
    ensures var r := ProcessImagesResult(files, opts, env);
            var work := opts.longerSide > 0 || opts.shorterSide > 0 || opts.cropObjects;
            (!work ==> r == Processed(files, [], None))
            && (work && ParseFilter(opts.downsamplingFilter).None? ==>
                  r == Processed(files, [], Some(UnknownFilter(opts.downsamplingFilter))))
            && (work && ParseFilter(opts.downsamplingFilter).Some? && ParseFilter(opts.upsamplingFilter).None? ==>
                  r == Processed(files, [], Some(UnknownFilter(opts.upsamplingFilter))))
            && (work && ParseFilter(opts.downsamplingFilter).Some? && ParseFilter(opts.upsamplingFilter).Some?
                && ToLower(opts.encoding) !in {"jpg", "jpeg", "png"} ==>
                  r == Processed(files, [], Some(UnsupportedEncoding(opts.encoding))))
  {
  }

  /** Every image ProcessImages saves is encoded as the encoding option asks (PNG for "png" in any
      letter case, JPEG at the configured quality for "jpg" and "jpeg") under a path with the matching
      extension. */
  lemma ProcessImagesFormat(files: seq<AnnotatedFile>, opts: ProcessOptions, env: Env)
    requires OptionsResizable(env, opts)
    requires opts.cropObjects || forall d :: d in files ==> Paths.NamedPath(d.filePath)
    ensures var png := ToLower(opts.encoding) == "png";
            forall s :: s in ProcessImagesResult(files, opts, env).saved ==>
              Paths.Ext(s.path) == (if png then ".png" else ".jpg")
              && s.encoding == (if png then PNG else JPEG(opts.jpegQuality))
  {
    var resize := opts.longerSide > 0 || opts.shorterSide > 0;
    if (resize || opts.cropObjects) && ParseFilter(opts.downsamplingFilter).Some?
       && ParseFilter(opts.upsamplingFilter).Some? && FileExtension(opts.encoding).Some? {
      var st := Settings(opts.imageOutDir, FileExtension(opts.encoding).value,
                         opts.longerSide, opts.shorterSide,
                         ParseFilter(opts.downsamplingFilter).value, ParseFilter(opts.upsamplingFilter).value,
                         opts.jpegQuality, opts.cropObjects, resize);
      FileExtensionFormat(opts.encoding, opts.jpegQuality);
      ProcessAllFormat(files, st, env);
      assert ProcessImagesResult(files, opts, env) == ProcessAll(files, st, env);
    }
  }

  /** In crop mode, the files gathered are paired one to one with the images saved, each with the
      single annotation its crop keeps, when each file's outcome is paired so. */
  lemma {:induction false} GatherCropPaired(files: seq<AnnotatedFile>, run: AnnotatedFile --> Outcome)
    requires forall d :: d in files ==> run.requires(d)
    requires forall d :: d in files ==> Paired(run(d))
    ensures Paired(Outcome(Gather(files, run, true).saved, Gather(files, run, true).files, None))
  {
    if files != [] {
      var n := |files| - 1;
      assert forall x :: x in files[..n] ==> x in files;
      assert files[n] in files;
      GatherCropPaired(files[..n], run);
      var p := Gather(files[..n], run, true);
      var o := run(files[n]);
      forall k | 0 <= k < |p.files| + |o.out|
        ensures (p.files + o.out)[k].filePath == (p.saved + o.saved)[k].path
        ensures |(p.files + o.out)[k].annotations| == 1
      {
        if k >= |p.files| {
          assert (p.files + o.out)[k] == o.out[k - |p.files|];
          assert (p.saved + o.saved)[k] == o.saved[k - |p.files|];
        }
      }
    }
  }

  /** Metadata files matched one to one with saved images, each pointing at its image and holding one
      annotation. */
  predicate Paired(o: Outcome)
  {
    |o.out| == |o.saved|
    && forall k :: 0 <= k < |o.out| ==> o.out[k].filePath == o.saved[k].path && |o.out[k].annotations| == 1
  }

  /** In crop mode each file yields the metadata of the crops it saved, paired with them. */
  lemma ProcessFileCropPaired(d: AnnotatedFile, st: Settings, env: Env)
    requires st.crop
    ensures Paired(ProcessFile(d, st, env))
  {
    var loaded := env.load(d.filePath);
    if loaded.Some? {
      var img := loaded.value;
      var crops := CropObjects(d, img);
      if crops.Ok? {
        CropsSized(d, img);
        ProcessItemsPaired(crops.value, st, env);
        var o := ProcessItems(crops.value, st, env);
        forall k | 0 <= k < |o.out|
          ensures |o.out[k].annotations| == 1
        {
          assert crops.value[k] in crops.value;
        }
      }
    }
  }

  /** In crop mode the metadata after ProcessImages lists exactly the saved crops, in order: the k-th
      file points at the k-th saved image and carries one annotation (even when an error ended the run
      early, the crops saved so far replace the original files). */
  lemma ProcessAllCropped(files: seq<AnnotatedFile>, st: Settings, env: Env)
    requires st.crop
    ensures var p := ProcessAll(files, st, env);
            |p.files| == |p.saved|
            && (forall k :: 0 <= k < |p.files| ==>
                  p.files[k].filePath == p.saved[k].path && |p.files[k].annotations| == 1)
  {
    var run := FileRun(st, env);
    forall d | d in files
      ensures Paired(run(d))
    {
      ProcessFileCropPaired(d, st, env);
    }
    GatherCropPaired(files, run);
  }

  /** Outside crop mode each file keeps its place: it becomes its update when it has one and stays as
      it was otherwise. */
  lemma {:induction false} GatherInPlace(files: seq<AnnotatedFile>, run: AnnotatedFile --> Outcome)
    requires forall d :: d in files ==> run.requires(d)
    ensures |Gather(files, run, false).files| == |files|
    ensures forall k :: 0 <= k < |files| ==>
      Gather(files, run, false).files[k] == if |run(files[k]).out| == 1 then run(files[k]).out[0] else files[k]
  {
    if files != [] {
      var n := |files| - 1;
      assert forall x :: x in files[..n] ==> x in files;
      GatherInPlace(files[..n], run);
      assert forall k :: 0 <= k < n ==> files[..n][k] == files[k];
    }
  }

  /** Outside crop mode a file gets an update exactly when it is processed without error; the update
      points at the output path and keeps every annotation. */
  lemma ProcessFileInPlace(d: AnnotatedFile, st: Settings, env: Env)
    requires LoadsResizable(env, st) && !st.crop
    ensures var o := ProcessFile(d, st, env);
            (|o.out| == 1 <==> o.err.None?)
            && (|o.out| == 1 ==>
                  o.out[0].filePath == OutPath(st.outDir, d.filePath, st.fileExt)
                  && |o.out[0].annotations| == |d.annotations|)
  {
    var loaded := env.load(d.filePath);
    if loaded.Some? {
      var it := Item(loaded.value, d);
      var step := ItemStepFn(st, env);
      assert ProcessFile(d, st, env) == RunSteps([it], step);
      RunStepsSingle(it, step);
      ItemStepOut(it, st, env);
      assert step(it) == ItemStep(it, st, env);
    }
  }

  /** A run over one item is that item's step. */
  lemma RunStepsSingle(it: Item, step: Item --> Result<(Saved, AnnotatedFile)>)
    requires step.requires(it)
    ensures it in [it]
    ensures RunSteps([it], step) == match step(it)
                                    case Err(e) => Outcome([], [], Some(e))
                                    case Ok((s, d)) => Outcome([s], [d], None)
  {
    assert [it][1..] == [];
  }

  /** The metadata of a saved image points at the output path and keeps every annotation. */
  lemma ItemStepOut(it: Item, st: Settings, env: Env)
    requires st.resize ==> Sized(it.image)
    ensures ItemStep(it, st, env).Ok? ==>
      ItemStep(it, st, env).value.1.filePath == OutPath(st.outDir, it.file.filePath, st.fileExt)
      && |ItemStep(it, st, env).value.1.annotations| == |it.file.annotations|
  {
  }

  /** Outside crop mode ProcessImages keeps the files in place: the k-th file is updated to the
      output path with all its annotations when it is processed without error, and is left as it was
      when it fails. */
  lemma ProcessAllInPlace(files: seq<AnnotatedFile>, st: Settings, env: Env)
    requires LoadsResizable(env, st) && !st.crop
    ensures var p := ProcessAll(files, st, env);
            |p.files| == |files|
            && forall k :: 0 <= k < |files| ==>
                 if ProcessFile(files[k], st, env).err.None? then
                   p.files[k].filePath == OutPath(st.outDir, files[k].filePath, st.fileExt)
                   && |p.files[k].annotations| == |files[k].annotations|
                 else p.files[k] == files[k]
  {
    var run := FileRun(st, env);
    GatherInPlace(files, run);
    forall k | 0 <= k < |files|
      ensures var u := ProcessAll(files, st, env).files[k];
              if ProcessFile(files[k], st, env).err.None? then
                u.filePath == OutPath(st.outDir, files[k].filePath, st.fileExt)
                && |u.annotations| == |files[k].annotations|
              else u == files[k]
    {
      UpdateInPlace(files[k], st, env);
    }
  }

  /** The entry that replaces a file outside crop mode. */
  lemma UpdateInPlace(d: AnnotatedFile, st: Settings, env: Env)
    requires LoadsResizable(env, st) && !st.crop
    ensures var o := FileRun(st, env)(d);
            var u := if |o.out| == 1 then o.out[0] else d;
            if ProcessFile(d, st, env).err.None? then
              u.filePath == OutPath(st.outDir, d.filePath, st.fileExt) && |u.annotations| == |d.annotations|
            else u == d
  {
    ProcessFileInPlace(d, st, env);
  }

  // ----- Split -----

  /** The bucket a draw r falls into: the first index whose cumulative split exceeds r. */
  function Pick(r: int, splits: seq<int>): (p: Option<nat>)
    ensures p.Some? ==> p.value < |splits| && r < splits[p.value]
                        && forall j :: 0 <= j < p.value ==> splits[j] <= r
    ensures p.None? ==> forall j :: 0 <= j < |splits| ==> splits[j] <= r
  {
    if splits == [] then None
    else if r < splits[0] then Some(0)
    else match Pick(r, splits[1..])
      case None => None
      case Some(i) => Some(i + 1)
  }

  /** Pick names the first bucket whose boundary exceeds the draw: any i with splits[i] > r and no
      earlier boundary above r. */
  lemma {:induction false} PickFirst(r: int, splits: seq<int>, i: nat)
    requires i < |splits| && r < splits[i]
    requires forall j :: 0 <= j < i ==> splits[j] <= r
    ensures Pick(r, splits) == Some(i)
  {
    if i > 0 {
      PickFirst(r, splits[1..], i - 1);
    }
  }

  /** The files whose draw picks bucket b, in their original order. */
  function Bucket(files: seq<AnnotatedFile>, draws: seq<int>, splits: seq<int>, b: nat): seq<AnnotatedFile>
    requires |draws| == |files|
  {
    if files == [] then []
    else
      var n := |files| - 1;
      Bucket(files[..n], draws[..n], splits, b) + (if Pick(draws[n], splits) == Some(b) then [files[n]] else [])
  }

  /** The cumulative percentage before bucket i. */
  function Prev(splits: seq<int>, i: nat): int
    requires i < |splits|
  {
    if i == 0 then 0 else splits[i - 1]
  }

  /** Cumulative splits that never decrease. */
  predicate Cumulative(splits: seq<int>)
  {
    forall i, j :: 0 <= i < j < |splits| ==> splits[i] <= splits[j]
  }

  /** With non-decreasing cumulative splits, a draw r >= 0 lands in bucket i exactly when it lies in
      [splits[i-1], splits[i]), so bucket i receives splits[i] - splits[i-1] of the 100 equally likely
      draws. */
  lemma PickInterval(r: int, splits: seq<int>, i: nat)
    requires Cumulative(splits) && r >= 0 && i < |splits|
    ensures Pick(r, splits) == Some(i) <==> Prev(splits, i) <= r < splits[i]
  {
  }

  /** The total size of the buckets, as a multiset of files. */
  function Merge(buckets: seq<seq<AnnotatedFile>>): multiset<AnnotatedFile>
  {
    if buckets == [] then multiset{} else Merge(buckets[..|buckets| - 1]) + multiset(buckets[|buckets| - 1])
  }

  lemma {:induction false} MergeUpdate(buckets: seq<seq<AnnotatedFile>>, b: nat, f: AnnotatedFile)
    requires b < |buckets|
    ensures Merge(buckets[b := buckets[b] + [f]]) == Merge(buckets) + multiset{f}
  {
    var n := |buckets| - 1;
    var u := buckets[b := buckets[b] + [f]];
    if b == n {
      assert u[..n] == buckets[..n];
    } else {
      assert u[..n] == buckets[..n][b := buckets[b] + [f]];
      MergeUpdate(buckets[..n], b, f);
    }
  }

  function Buckets(files: seq<AnnotatedFile>, draws: seq<int>, splits: seq<int>): seq<seq<AnnotatedFile>>
    requires |draws| == |files|
  {
    seq(|splits|, b requires 0 <= b < |splits| => Bucket(files, draws, splits, b))
  }

  /** When every draw picks some bucket (as it does when the last split is 100 and draws lie in
      [0, 100)), the buckets hold each file exactly once. */
  lemma {:induction false} BucketsPartition(files: seq<AnnotatedFile>, draws: seq<int>, splits: seq<int>)
    requires |draws| == |files|
    requires forall k :: 0 <= k < |draws| ==> Pick(draws[k], splits).Some?
    ensures Merge(Buckets(files, draws, splits)) == multiset(files)
  {
    if files == [] {
      MergeEmpty(Buckets(files, draws, splits));
    } else {
      var n := |files| - 1;
      BucketsPartition(files[..n], draws[..n], splits);
      var before := Buckets(files[..n], draws[..n], splits);
      var b := Pick(draws[n], splits).value;
      BucketsSnoc(files, draws, splits);
      MergeUpdate(before, b, files[n]);
      assert files == files[..n] + [files[n]];
    }
  }

  /** The last file joins the bucket its draw picks. */
  lemma BucketsSnoc(files: seq<AnnotatedFile>, draws: seq<int>, splits: seq<int>)
    requires |draws| == |files| > 0 && Pick(draws[|files| - 1], splits).Some?
    ensures var n := |files| - 1;
            var before := Buckets(files[..n], draws[..n], splits);
            var b := Pick(draws[n], splits).value;
            b < |before| && Buckets(files, draws, splits) == before[b := before[b] + [files[n]]]
  {
    var n := |files| - 1;
    var before := Buckets(files[..n], draws[..n], splits);
    var b := Pick(draws[n], splits).value;
    forall b' | 0 <= b' < |splits|
      ensures Buckets(files, draws, splits)[b'] == before[b := before[b] + [files[n]]][b']
    {
    }
  }

  lemma {:induction false} MergeEmpty(buckets: seq<seq<AnnotatedFile>>)
    requires forall b :: 0 <= b < |buckets| ==> buckets[b] == []
    ensures Merge(buckets) == multiset{}
  {
    if buckets != [] {
      MergeEmpty(buckets[..|buckets| - 1]);
    }
  }

  /** The capacity int(1.05 * percent / 100 * n) of every dataset is not negative, so allocating the
      datasets does not panic. */
  predicate CapacitiesValid(splits: seq<int>, n: nat)
  {
    forall i :: 0 <= i < |splits| ==> 105 * (splits[i] - Prev(splits, i)) * n > -10000
  }

  /** The outcome of Split: an error when the splits do not end at 100, else the buckets. */
  function SplitResult(files: seq<AnnotatedFile>, draws: seq<int>, splits: seq<int>): Result<seq<seq<AnnotatedFile>>>
    requires |draws| == |files|
  {
    if |splits| == 0 || splits[|splits| - 1] != 100 then Err(SplitSum) else Ok(Buckets(files, draws, splits))
  }

  /** A successful split places every file in exactly one dataset, as its draw and the cumulative
      splits determine. */
  lemma SplitIsPartition(files: seq<AnnotatedFile>, draws: seq<int>, splits: seq<int>)
    requires |draws| == |files| && forall k :: 0 <= k < |draws| ==> 0 <= draws[k] < 100
    requires SplitResult(files, draws, splits).Ok?
    ensures |SplitResult(files, draws, splits).value| == |splits|
    ensures Merge(SplitResult(files, draws, splits).value) == multiset(files)
  {
    forall k | 0 <= k < |draws|
      ensures Pick(draws[k], splits).Some?
    {
    }
    BucketsPartition(files, draws, splits);
  }

  /** A dataset of annotated files (AnnotatedFiles), updated in place by its methods. */
  class Dataset {
    var files: seq<AnnotatedFile>

    constructor (files: seq<AnnotatedFile>)
      ensures this.files == files
    {
      this.files := files;
    }

    /** MapLabels: every mapping old=new is parsed first, and an invalid one is reported before any
        label changes; then the replacements are applied in order to every label. */
    method MapLabels(mappings: seq<string>) returns (err: Option<Error>)
      modifies this
      ensures ParseRules(mappings).Err? ==> err == Some(ParseRules(mappings).error) && files == old(files)
      ensures ParseRules(mappings).Ok? ==>
                err.None? &&
                files == seq(|old(files)|, i requires 0 <= i < |old(files)| =>
                           RelabelFile(old(files)[i], ParseRules(mappings).value))
    {
      if |mappings| == 0 {
        err := None;
        forall i | 0 <= i < |files|
          ensures RelabelFile(files[i], []) == files[i]
        {
          var f := files[i];
          assert forall k :: 0 <= k < |f.annotations| ==> MapLabel(f.annotations[k].name, []) == f.annotations[k].name;
        }
        return;
      }

      // Extract the individual old and new strings to map between.
      var rules: seq<Rule> := [];
      for i := 0 to |mappings|
        invariant ParseRules(mappings[..i]).Ok? && ParseRules(mappings[..i]).value == rules
        invariant files == old(files)
      {
        ParseRulesSnoc(mappings[..i], mappings[i]);
        assert mappings[..i + 1] == mappings[..i] + [mappings[i]];
        var parts := Strings.Split(mappings[i], '=');
        if |parts| != 2 {
          err := Some(InvalidMapping(mappings[i]));
          assert ParseRule(mappings[i]) == Err(InvalidMapping(mappings[i]));
          assert ParseRules(mappings[..i + 1]) == Err(InvalidMapping(mappings[i]));
          ParseRulesPrefixErr(mappings, i + 1);
          return;
        }
        rules := rules + [Rule(parts[0], parts[1])];
      }
      assert mappings[..|mappings|] == mappings;

      // Apply the replacements, in order, to all labels.
      var data := files;
      for d := 0 to |data|
        invariant |data| == |old(files)|
        invariant forall i :: 0 <= i < d ==> data[i] == RelabelFile(old(files)[i], rules)
        invariant forall i :: d <= i < |data| ==> data[i] == old(files)[i]
      {
        var f := Relabel(data[d], rules);
        data := data[d := f];
      }
      files := data;
      err := None;
    }

    /** Filter: the annotations that fail a test are deleted by swapping in the last one, the kept
        ones lose the attributes not listed, and with requireLabel a file left without annotations is
        deleted the same way. */
    method Filter(cfg: FilterConfig)
      modifies this
      requires NoPanic(files, cfg)
      ensures files == FilterFiles(old(files), cfg)
    {
      var data := files;
      var dataIdx := 0;
      while dataIdx < |data|
        invariant 0 <= dataIdx <= |data|
        invariant SwapCompact(data, dataIdx, FileStep(cfg)) == FilterFiles(old(files), cfg)
        invariant forall f :: f in data[dataIdx..] ==> f in old(files)
        decreases |data| - dataIdx
      {
        var d := data[dataIdx];
        assert d in data[dataIdx..];
        var anns := FilterAnnotations(d.annotations, cfg);
        if cfg.requireLabel && |anns| == 0 {
          // Delete the file.
          DropStep(data, dataIdx, FileStep(cfg));
          data := SwapDelete(data, dataIdx);
        } else {
          KeepStep(data, dataIdx, d.(annotations := anns), FileStep(cfg));
          data := data[dataIdx := d.(annotations := anns)];
          dataIdx := dataIdx + 1;
        }
      }
      files := data;
    }

    /** TransformBboxes: every box is scaled about its centre and then grown to the aspect ratio. */
    method TransformBboxes(scaleX: real, scaleY: real, aspectRatio: real)
      modifies this
      ensures files == seq(|old(files)|, i requires 0 <= i < |old(files)| =>
                        TransformFile(old(files)[i], scaleX, scaleY, aspectRatio))
    {
      var data := files;
      for d := 0 to |data|
        invariant |data| == |old(files)|
        invariant forall i :: 0 <= i < d ==> data[i] == TransformFile(old(files)[i], scaleX, scaleY, aspectRatio)
        invariant forall i :: d <= i < |data| ==> data[i] == old(files)[i]
      {
        var anns := data[d].annotations;
        for k := 0 to |anns|
          invariant |anns| == |data[d].annotations|
          invariant forall j :: 0 <= j < k ==>
            anns[j] == data[d].annotations[j].(coords := TransformBox(data[d].annotations[j].coords, scaleX, scaleY, aspectRatio))
          invariant forall j :: k <= j < |anns| ==> anns[j] == data[d].annotations[j]
        {
          var c := TransformCoords(anns[k].coords, scaleX, scaleY, aspectRatio);
          anns := anns[k := anns[k].(coords := c)];
        }
        data := data[d := data[d].(annotations := anns)];
      }
      files := data;
    }

    /** ProcessImages: without resizing or cropping nothing happens; otherwise the filter names and the
        encoding are checked, the files are processed in order and the first error is returned. In crop
        mode the crops' files replace the metadata even when an error occurred. */
    method ProcessImages(opts: ProcessOptions, env: Env) returns (err: Option<Error>, saved: seq<Saved>)
      modifies this
      requires OptionsResizable(env, opts)
      ensures var p := ProcessImagesResult(old(files), opts, env);
              files == p.files && saved == p.saved && err == p.err
    {
      var doResizeImages := opts.longerSide > 0 || opts.shorterSide > 0;
      if !doResizeImages && !opts.cropObjects {
        return None, [];
      }

      // Select the resampling algorithms.
      var downsample := ParseFilter(opts.downsamplingFilter);
      if downsample.None? {
        return Some(UnknownFilter(opts.downsamplingFilter)), [];
      }
      var upsample := ParseFilter(opts.upsamplingFilter);
      if upsample.None? {
        return Some(UnknownFilter(opts.upsamplingFilter)), [];
      }

      // Select the output file extension based on the requested encoding.
      var fileExt := FileExtension(opts.encoding);
      if fileExt.None? {
        return Some(UnsupportedEncoding(opts.encoding)), [];
      }

      var st := Settings(opts.imageOutDir, fileExt.value, opts.longerSide, opts.shorterSide,
                         downsample.value, upsample.value, opts.jpegQuality, opts.cropObjects, doResizeImages);
      var p := ProcessFiles(files, st, env);
      files, saved, err := p.files, p.saved, p.err;
    }

    /** Split: the files are dealt into one dataset per cumulative split, each file going to the first
        dataset whose cumulative percentage exceeds its draw from [0, 100) (draws[k] is the draw for
        files[k]); the splits must end at 100. */
    method Split(cumulativeSplits: seq<int>, draws: seq<int>) returns (r: Result<seq<seq<AnnotatedFile>>>)
      requires |draws| == |files| && forall k :: 0 <= k < |draws| ==> 0 <= draws[k] < 100
      requires CapacitiesValid(cumulativeSplits, |files|)
      ensures r == SplitResult(files, draws, cumulativeSplits)
    {
      var sum := 0;
      for i := 0 to |cumulativeSplits|
        invariant sum == if i == 0 then 0 else cumulativeSplits[i - 1]
      {
        sum := cumulativeSplits[i];
      }
      if sum != 100 {
        return Err(SplitSum);
      }

      var datasets: seq<seq<AnnotatedFile>> := seq(|cumulativeSplits|, _ => []);
      for k := 0 to |files|
        invariant |datasets| == |cumulativeSplits|
        invariant forall b :: 0 <= b < |datasets| ==>
          datasets[b] == Bucket(files[..k], draws[..k], cumulativeSplits, b)
      {
        var i := FirstAbove(draws[k], cumulativeSplits);
        BucketSnoc(files, draws, cumulativeSplits, k);
        datasets := datasets[i := datasets[i] + [files[k]]];
      }
      assert files[..|files|] == files && draws[..|draws|] == draws;
      assert datasets == Buckets(files, draws, cumulativeSplits);
      return Ok(datasets);
    }
  }

  /** The index of the first cumulative split above r, which exists when the last one is 100 and r is
      a draw from [0, 100). */
  method FirstAbove(r: int, splits: seq<int>) returns (i: nat)
    requires |splits| > 0 && splits[|splits| - 1] == 100 && 0 <= r < 100
    ensures Pick(r, splits) == Some(i)
  {
    i := 0;
    while !(r < splits[i])
      invariant 0 <= i < |splits|
      invariant forall j :: 0 <= j < i ==> splits[j] <= r
      decreases |splits| - i
    {
      i := i + 1;
    }
    PickFirst(r, splits, i);
  }

  /** Dealing one more file extends exactly the bucket its draw picks. */
  lemma BucketSnoc(files: seq<AnnotatedFile>, draws: seq<int>, splits: seq<int>, k: nat)
    requires |draws| == |files| && k < |files|
    ensures forall b: nat ::
              Bucket(files[..k + 1], draws[..k + 1], splits, b) ==
              Bucket(files[..k], draws[..k], splits, b) + (if Pick(draws[k], splits) == Some(b) then [files[k]] else [])
  {
    assert files[..k + 1][..k] == files[..k] && draws[..k + 1][..k] == draws[..k];
  }

  lemma {:induction false} ParseRulesSnoc(mappings: seq<string>, m: string)
    ensures ParseRules(mappings + [m]) ==
      match ParseRules(mappings)
        case Err(e) => Err(e)
        case Ok(rs) => match ParseRule(m)
          case Err(e) => Err(e)
          case Ok(r) => Ok(rs + [r])
  {
    if mappings == [] {
      assert mappings + [m] == [m] && [m][1..] == [];
      if ParseRule(m).Ok? {
        assert [] + [ParseRule(m).value] == [ParseRule(m).value] + [];
      }
    } else {
      var ms := mappings + [m];
      assert ms[0] == mappings[0] && ms[1..] == mappings[1..] + [m];
      ParseRulesSnoc(mappings[1..], m);
      assert ParseRules(ms) == match ParseRule(mappings[0])
        case Err(e) => Err(e)
        case Ok(r) => match ParseRules(mappings[1..] + [m])
          case Err(e) => Err(e)
          case Ok(rs) => Ok([r] + rs);
      if ParseRule(mappings[0]).Ok? && ParseRules(mappings[1..]).Ok? && ParseRule(m).Ok? {
        var r, rs, r' := ParseRule(mappings[0]).value, ParseRules(mappings[1..]).value, ParseRule(m).value;
        assert [r] + (rs + [r']) == ([r] + rs) + [r'];
      }
    }
  }

  /** An error in a prefix is the error of the whole list. */
  lemma {:induction false} ParseRulesPrefixErr(mappings: seq<string>, i: nat)
    requires i <= |mappings| && ParseRules(mappings[..i]).Err?
    ensures ParseRules(mappings) == ParseRules(mappings[..i])
  {
    if mappings != [] && i > 0 {
      assert mappings[..i][0] == mappings[0] && mappings[..i][1..] == mappings[1..][..i - 1];
      if ParseRule(mappings[0]).Ok? {
        ParseRulesPrefixErr(mappings[1..], i - 1);
      }
    }
  }
}
