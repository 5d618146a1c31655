/** TensorFlow object detection records (tfrecord.go): every annotated file becomes a feature map with
    the image, its boxes relative to the image size, its labels and their numeric IDs; the records go
    to one or more shard files, and the label to ID mapping is kept across calls and saved as a label
    map file. The feature maps are kept as values: their protobuf encoding, the record framing and
    every file operation are inputs (see Environment). */
module TFRecord {
  import opened Common
  import opened Strings
  import AWSGeneral
  import IR

  // ----- the feature map -----

  /** A float32 quotient: finite, or the infinity or NaN of a division by zero. */
  datatype Float32 = Finite(v: real) | PosInf | NegInf | NaN

  /** float32(x) / float32(d) for an image side d: exact for a non-zero side, and IEEE 754's
      +Inf, -Inf or NaN for a zero one. */
  function Ratio32(x: real, d: int): (q: Float32)
    ensures q.Finite? <==> d != 0
    ensures d == 0 ==> (q == PosInf <==> x > 0.0) && (q == NegInf <==> x < 0.0) && (q == NaN <==> x == 0.0)
  {
    if d != 0 then Finite(x / d as real) else if x > 0.0 then PosInf else if x < 0.0 then NegInf else NaN
  }

  /** A finite ratio times the side gives the coordinate back. */
  lemma RatioScales(x: real, d: int)
    requires d != 0
    ensures Ratio32(x, d).v * d as real == x
  {
  }

  /** The values a feature can hold. */
  datatype FeatureValue =
    | IntFeature(i: int)
    | StringFeature(s: string)
    | BytesFeature(bytes: seq<bv8>)
    | FloatsFeature(floats: seq<Float32>)
    | StringsFeature(strings: seq<string>)
    | IntsFeature(ints: seq<int>)

  /** TFFeatureMap: feature names to values. */
  type FeatureMap = map<string, FeatureValue>

  const ImageHeight: string := "image/height"
  const ImageWidth: string := "image/width"
  const ImageFilename: string := "image/filename"
  const ImageSourceID: string := "image/source_id"
  const ImageEncoded: string := "image/encoded"
  const ImageFormat: string := "image/format"
  const BoxXMin: string := "image/object/bbox/xmin"
  const BoxYMin: string := "image/object/bbox/ymin"
  const BoxXMax: string := "image/object/bbox/xmax"
  const BoxYMax: string := "image/object/bbox/ymax"
  const ClassText: string := "image/object/class/text"
  const ClassLabel: string := "image/object/class/label"

  /** Coordinate k of every box, divided by the image side d. */
  function BoxColumn(anns: seq<IR.Annotation>, k: nat, d: int): (col: seq<Float32>)
    requires k < 4
    ensures |col| == |anns| && forall i :: 0 <= i < |anns| ==> col[i] == Ratio32(anns[i].coords[k], d)
  {
    seq(|anns|, i requires 0 <= i < |anns| => Ratio32(anns[i].coords[k], d))
  }

  /** The labels of the annotations, in order. */
  function Names(anns: seq<IR.Annotation>): (names: seq<string>)
    ensures |names| == |anns| && forall i :: 0 <= i < |anns| ==> names[i] == anns[i].name
  {
    seq(|anns|, i requires 0 <= i < |anns| => anns[i].name)
  }

  /** The feature map of a file: the image size, path, bytes and format, and per annotation its box
      relative to the image size, its label and its label ID. */
  function Features(f: IR.AnnotatedFile, img: AWSGeneral.ImageConfig, format: string, imgData: seq<bv8>, classIDs: seq<int>)
    : FeatureMap
  {
    map[ImageHeight := IntFeature(img.height),
        ImageWidth := IntFeature(img.width),
        ImageFilename := StringFeature(f.filePath),
        ImageSourceID := StringFeature(f.filePath),
        ImageEncoded := BytesFeature(imgData),
        ImageFormat := StringFeature(format),
        BoxXMin := FloatsFeature(BoxColumn(f.annotations, 0, img.width)),
        BoxYMin := FloatsFeature(BoxColumn(f.annotations, 1, img.height)),
        BoxXMax := FloatsFeature(BoxColumn(f.annotations, 2, img.width)),
        BoxYMax := FloatsFeature(BoxColumn(f.annotations, 3, img.height)),
        ClassText := StringsFeature(Names(f.annotations)),
        ClassLabel := IntsFeature(classIDs)]
  }

  // ----- label IDs -----

  /** Every label of the map has an ID in [1, next), next is at least 1. */
  predicate ValidIDs(m: map<string, int>, next: int)
  {
    next >= 1 && forall l :: l in m ==> 0 < m[l] < next
  }

  /** Different labels have different IDs. */
  predicate Injective(m: map<string, int>)
  {
    forall l1, l2 :: l1 in m && l2 in m && l1 != l2 ==> m[l1] != m[l2]
  }

  /** The label map, the next ID and the IDs given to a sequence of labels. */
  datatype Assigned = Assigned(labelMap: map<string, int>, next: int, ids: seq<int>)

  /** The ID of one label: the one in the map, or, when it is missing (or zero), the next ID, which is
      entered into the map and advanced. */
  function AssignOne(a: Assigned, name: string): Assigned
  {
    var id := if name in a.labelMap then a.labelMap[name] else 0;
    if id == 0 then Assigned(a.labelMap[name := a.next], a.next + 1, a.ids + [a.next])
    else Assigned(a.labelMap, a.next, a.ids + [id])
  }

  /** The ID assignment of toTFRecord, label by label. */
  function AssignIDs(m: map<string, int>, next: int, names: seq<string>): (a: Assigned)
    ensures |a.ids| == |names|
  {
    if names == [] then Assigned(m, next, [])
    else AssignOne(AssignIDs(m, next, names[..|names| - 1]), names[|names| - 1])
  }

  /** One assignment step from a valid map: the label ends up in the map with the ID appended, the
      other entries stay, a new entry gets the old next ID, and the map stays valid. */
  lemma AssignOneFacts(a: Assigned, name: string)
    requires ValidIDs(a.labelMap, a.next)
    ensures var b := AssignOne(a, name);
            && ValidIDs(b.labelMap, b.next) && a.next <= b.next
            && b.labelMap.Keys == a.labelMap.Keys + {name}
            && b.ids == a.ids + [b.labelMap[name]]
            && (forall l :: l in a.labelMap ==> b.labelMap[l] == a.labelMap[l])
            && (name !in a.labelMap ==> b.labelMap[name] == a.next)
  {
  }

  /** From a valid map, every label gets the ID the final map holds for it; IDs already assigned never
      change; new labels get fresh IDs at or above next; and the result is valid again. */
  lemma AssignIDsFacts(m: map<string, int>, next: int, names: seq<string>)
    requires ValidIDs(m, next)
    ensures var a := AssignIDs(m, next, names);
            && ValidIDs(a.labelMap, a.next) && next <= a.next
            && |a.ids| == |names|
            && (forall i :: 0 <= i < |names| ==> names[i] in a.labelMap && a.ids[i] == a.labelMap[names[i]])
            && (forall l :: l in m ==> l in a.labelMap && a.labelMap[l] == m[l])
            && (forall l :: l in a.labelMap ==> l in m || l in names)
            && (forall l :: l in a.labelMap && l !in m ==> next <= a.labelMap[l])
  {
    AssignIDsKeeps(m, next, names);
    AssignIDsLookup(m, next, names);
    AssignIDsOrigin(m, next, names);
  }

  /** From a valid map, the result is valid, IDs already assigned never change, new labels get IDs at
      or above next, and every label gets one ID. */
  lemma {:induction false} AssignIDsKeeps(m: map<string, int>, next: int, names: seq<string>)
    requires ValidIDs(m, next)
    ensures var a := AssignIDs(m, next, names);
            && ValidIDs(a.labelMap, a.next) && next <= a.next
            && |a.ids| == |names|
            && (forall l :: l in m ==> l in a.labelMap && a.labelMap[l] == m[l])
            && (forall l :: l in a.labelMap && l !in m ==> next <= a.labelMap[l])
  {
    if names != [] {
      var init := names[..|names| - 1];
      AssignIDsKeeps(m, next, init);
      AssignOneFacts(AssignIDs(m, next, init), names[|names| - 1]);
    }
  }

  /** From a valid map, every label gets the ID the final map holds for it. */
  lemma {:induction false} AssignIDsLookup(m: map<string, int>, next: int, names: seq<string>)
    requires ValidIDs(m, next)
    ensures var a := AssignIDs(m, next, names);
            forall i :: 0 <= i < |names| ==> names[i] in a.labelMap && a.ids[i] == a.labelMap[names[i]]
  {
    if names != [] {
      var init := names[..|names| - 1];
      var name := names[|names| - 1];
      AssignIDsLookup(m, next, init);
      AssignIDsKeeps(m, next, init);
      var a := AssignIDs(m, next, init);
      AssignOneFacts(a, name);
      var b := AssignOne(a, name);
      forall i | 0 <= i < |names|
        ensures names[i] in b.labelMap && b.ids[i] == b.labelMap[names[i]]
      {
        if i < |init| {
          assert names[i] == init[i];
        }
      }
    }
  }

  /** Every label of the final map was in the map or among the names. */
  lemma {:induction false} AssignIDsOrigin(m: map<string, int>, next: int, names: seq<string>)
    ensures forall l :: l in AssignIDs(m, next, names).labelMap ==> l in m || l in names
  {
    if names != [] {
      var init := names[..|names| - 1];
      var name := names[|names| - 1];
      AssignIDsOrigin(m, next, init);
      var b := AssignIDs(m, next, names);
      forall l | l in b.labelMap
        ensures l in m || l in names
      {
        if l != name && l !in m {
          var i :| 0 <= i < |init| && init[i] == l;
          assert names[i] == l;
        }
      }
    }
  }

  /** Assignment keeps the IDs of a valid map distinct. */
  lemma {:induction false} AssignIDsInjective(m: map<string, int>, next: int, names: seq<string>)
    requires ValidIDs(m, next) && Injective(m)
    ensures Injective(AssignIDs(m, next, names).labelMap)
  {
    if names != [] {
      var init := names[..|names| - 1];
      AssignIDsInjective(m, next, init);
      AssignIDsFacts(m, next, init);
      AssignOneFacts(AssignIDs(m, next, init), names[|names| - 1]);
    }
  }

  // ----- the label map file -----

  /** One item of the label map file. */
  datatype LabelMapItem = LabelMapItem(name: string, id: int)

  /** What opening and parsing the label map file yields: no file, a file that cannot be read or
      parsed, or its items. */
  datatype LabelMapSource = Missing | Unreadable | Items(items: seq<LabelMapItem>)

  /** An item with a name and a positive ID. */
  predicate ValidItem(it: LabelMapItem)
  {
    it.name != "" && it.id > 0
  }

  /** The index of the first invalid item, or the number of items when all are valid. */
  function FirstInvalid(items: seq<LabelMapItem>): (k: nat)
    ensures k <= |items|
    ensures forall j :: 0 <= j < k ==> ValidItem(items[j])
    ensures k < |items| ==> !ValidItem(items[k])
  {
    if items == [] || !ValidItem(items[0]) then 0 else 1 + FirstInvalid(items[1..])
  }

  /** The largest ID of the items, and 0 without items. */
  function MaxID(items: seq<LabelMapItem>): int
  {
    if items == [] then 0
    else
      var m := MaxID(items[..|items| - 1]);
      if m > items[|items| - 1].id then m else items[|items| - 1].id
  }

  /** No ID exceeds the maximum, which is one of the IDs when there are items. */
  lemma {:induction false} MaxIDBounds(items: seq<LabelMapItem>)
    ensures MaxID(items) >= 0
    ensures forall j :: 0 <= j < |items| ==> items[j].id <= MaxID(items)
    ensures items != [] && MaxID(items) > 0 ==> exists j :: 0 <= j < |items| && items[j].id == MaxID(items)
  {
    if items != [] {
      var init := items[..|items| - 1];
      MaxIDBounds(init);
      assert forall j :: 0 <= j < |init| ==> init[j] == items[j];
      if MaxID(init) > 0 && MaxID(init) > items[|items| - 1].id {
        var j :| 0 <= j < |init| && init[j].id == MaxID(init);
        assert items[j].id == MaxID(items);
      }
    }
  }

  /** The map entry of an item. */
  function ItemEntry(it: LabelMapItem): Option<(string, int)>
  {
    Some((it.name, it.id))
  }

  /** loadTFRecordLabelMap: a missing file is told apart from an unreadable one; the first item
      without a name or with an ID <= 0 is an error; otherwise every item is entered (a later item
      with the same name wins), with the largest ID. */
  function LoadedLabelMap(path: string, source: LabelMapSource): Result<(map<string, int>, int)>
  {
    match source
    case Missing => Err(NotFound(path))
    case Unreadable => Err(ReadFailed(path))
    case Items(items) =>
      var k := FirstInvalid(items);
      if k < |items| then Err(InvalidEntry(items[k].name, items[k].id))
      else Ok((MapFrom(items, ItemEntry), MaxID(items)))
  }

  method LoadLabelMap(path: string, source: LabelMapSource) returns (r: Result<(map<string, int>, int)>)
    ensures r == LoadedLabelMap(path, source)
  {
    if source.Missing? {
      return Err(NotFound(path));
    }
    if source.Unreadable? {
      return Err(ReadFailed(path));
    }
    var items := source.items;
    var labelMap: map<string, int> := map[];
    var maxID := 0;
    for i := 0 to |items|
      invariant forall j :: 0 <= j < i ==> ValidItem(items[j])
      invariant labelMap == MapFrom(items[..i], ItemEntry)
      invariant maxID == MaxID(items[..i])
    {
      var k, v := items[i].name, items[i].id;
      if k == "" || v <= 0 {
        return Err(InvalidEntry(k, v));
      }
      MapFromStep(items, i, ItemEntry);
      assert items[..i + 1][..i] == items[..i];
      labelMap := labelMap[k := v];
      maxID := if maxID > v then maxID else v;
    }
    assert items[..|items|] == items;
    return Ok((labelMap, maxID));
  }

  /** A loaded label map is valid with the next ID one past its largest. */
  lemma LoadedValid(path: string, source: LabelMapSource)
    requires LoadedLabelMap(path, source).Ok?
    ensures var r := LoadedLabelMap(path, source).value; ValidIDs(r.0, r.1 + 1)
  {
    var items := source.items;
    MaxIDBounds(items);
    forall l | l in MapFrom(items, ItemEntry)
      ensures 0 < MapFrom(items, ItemEntry)[l] <= MaxID(items)
    {
      MapFromLast(items, ItemEntry, l);
    }
  }

  /** items list every entry of the map exactly once. */
  predicate Describes(items: seq<LabelMapItem>, m: map<string, int>)
  {
    && (forall i :: 0 <= i < |items| ==> items[i].name in m && items[i].id == m[items[i].name])
    && (forall l :: l in m ==> exists i :: 0 <= i < |items| && items[i].name == l)
    && (forall i, j :: 0 <= i < j < |items| ==> items[i].name != items[j].name)
  }

  /** How writing the label map file ends. */
  datatype WriteOutcome = Written | CannotCreate | CannotWrite

  function SaveError(path: string, outcome: WriteOutcome): (err: Option<Error>)
    ensures err.None? <==> outcome == Written
  {
    match outcome
    case Written => None
    case CannotCreate => Some(CreateFailed(path))
    case CannotWrite => Some(WriteFailed(path))
  }

  /** saveTFRecordLabelMap: one item per entry of the map, in the map's (unspecified) iteration
      order, written to path. */
  method SaveLabelMap(path: string, labelMap: map<string, int>, outcome: WriteOutcome)
    returns (items: seq<LabelMapItem>, err: Option<Error>)
    ensures Describes(items, labelMap) && |items| == |labelMap|
    ensures err == SaveError(path, outcome)
  {
    items := [];
    var keys := labelMap.Keys;
    ghost var order: seq<string> := [];
    while keys != {}
      invariant keys <= labelMap.Keys
      invariant forall i :: 0 <= i < |order| ==> order[i] in labelMap && order[i] !in keys
      invariant forall l :: l in labelMap && l !in keys ==> l in order
      invariant forall i, j :: 0 <= i < j < |order| ==> order[i] != order[j]
      invariant items == ItemsOf(order, labelMap)
      decreases |keys|
    {
      var k :| k in keys;
      items := items + [LabelMapItem(k, labelMap[k])];
      order := order + [k];
      keys := keys - {k};
    }
    ItemsOfDescribes(order, labelMap);
    DescribesSize(items, labelMap);
    err := SaveError(path, outcome);
  }

  /** The items of the keys in order, each with its ID. */
  ghost function ItemsOf(order: seq<string>, m: map<string, int>): seq<LabelMapItem>
    requires forall i :: 0 <= i < |order| ==> order[i] in m
  {
    seq(|order|, i requires 0 <= i < |order| => LabelMapItem(order[i], m[order[i]]))
  }

  /** The items of an enumeration of the keys describe the map. */
  lemma ItemsOfDescribes(order: seq<string>, m: map<string, int>)
    requires Enumerates(order, m)
    ensures Describes(ItemsOf(order, m), m)
  {
    var items := ItemsOf(order, m);
    forall l | l in m
      ensures exists i :: 0 <= i < |items| && items[i].name == l
    {
      var i :| 0 <= i < |order| && order[i] == l;
      assert items[i].name == l;
    }
  }

  /** A description of a map has one item per entry. */
  lemma DescribesSize(items: seq<LabelMapItem>, m: map<string, int>)
    requires Describes(items, m)
    ensures |items| == |m|
  {
    var order := seq(|items|, i requires 0 <= i < |items| => items[i].name);
    assert Enumerates(order, m) by {
      forall l | l in m
        ensures l in order
      {
        var i :| 0 <= i < |items| && items[i].name == l;
        assert order[i] == l;
      }
    }
    EnumeratesSize(order, m);
  }

  /** Saving a label map and loading the file back gives the map, with an ID at least as large as every
      ID in it, when every name is non-empty and every ID positive. */
  lemma SaveLoadRoundTrip(path: string, items: seq<LabelMapItem>, m: map<string, int>)
    requires Describes(items, m)
    requires forall l :: l in m ==> l != "" && m[l] > 0
    ensures var r := LoadedLabelMap(path, Items(items));
            r.Ok? && r.value.0 == m && forall l :: l in m ==> m[l] <= r.value.1
  {
    assert forall i :: 0 <= i < |items| ==> ValidItem(items[i]);
    var loaded := MapFrom(items, ItemEntry);
    forall l
      ensures l in loaded <==> l in m
      ensures l in loaded ==> loaded[l] == m[l]
    {
      MapFromLast(items, ItemEntry, l);
    }
    assert loaded == m;
    MaxIDBounds(items);
    forall l | l in m
      ensures m[l] <= MaxID(items)
    {
      var i :| 0 <= i < |items| && items[i].name == l;
    }
  }

  // ----- sharding -----

  /** The number of shards: the requested count when positive, and a single shard otherwise. */
  function ShardCount(numShards: int): (ns: int)
    ensures ns >= 1 && (numShards >= 1 ==> ns == numShards)
    ensures numShards <= 0 ==> ns == 1
  {
    if numShards <= 0 then 1 else numShards
  }

  /** The number of records per shard: n / ns rounded up. */
  function ShardSize(n: nat, ns: int): (s: nat)
    requires ns >= 1
    ensures n > 0 ==> s >= 1
  {
    (n + ns - 1) / ns
  }

  /** The shard size is the least s with s * ns >= n. */
  lemma ShardSizeFacts(n: nat, ns: int)
    requires ns >= 1
    ensures var s := ShardSize(n, ns); s * ns >= n && (s > 0 ==> (s - 1) * ns < n)
  {
    var s := ShardSize(n, ns);
    assert (n + ns - 1) == s * ns + (n + ns - 1) % ns;
  }

  /** The path of shard idx: with more than one shard, the suffix -NNNNN-of-MMMMM. */
  function ShardPath(recordFilePath: string, ns: int, idx: int): string
    requires ns >= 1 && idx >= 0
  {
    if ns > 1 then recordFilePath + "-" + ZeroPad(idx, 5) + "-of-" + ZeroPad(ns, 5) else recordFilePath
  }

  /** Record i goes to shard i / ShardSize, which exists: no more than ns shards are opened. */
  lemma ShardIndexBound(i: nat, n: nat, ns: int)
    requires ns >= 1 && i < n
    ensures 0 <= i / ShardSize(n, ns) < ns
  {
    var s := ShardSize(n, ns);
    ShardSizeFacts(n, ns);
    var q := i / s;
    assert q * s <= i;
    MulLe(ns, q, s);
  }

  /** Whether file i of n is the first of its shard: i is a multiple of ShardSize. */
  function OpensShard(i: nat, n: nat, ns: int): bool
    requires ns >= 1 && i < n
  {
    i % ShardSize(n, ns) == 0
  }

  /** The shard of file i of n: i / ShardSize, one of the ns shards. */
  function ShardOf(i: nat, n: nat, ns: int): (idx: nat)
    requires ns >= 1 && i < n
    ensures idx < ns
  {
    ShardIndexBound(i, n, ns);
    i / ShardSize(n, ns)
  }

  /** Later files go to the same shard or a later one. */
  lemma ShardOfMonotone(i: nat, i': nat, n: nat, ns: int)
    requires i <= i' < n && ns >= 1
    ensures ShardOf(i, n, ns) <= ShardOf(i', n, ns)
  {
    DivMonotone(i, i', ShardSize(n, ns));
  }

  lemma DivMonotone(a: nat, b: nat, s: nat)
    requires a <= b && s >= 1
    ensures a / s <= b / s
  {
    var qa, qb := a / s, b / s;
    assert qa * s <= a && b < qb * s + s;
    MulLe(qb + 1, qa, s);
  }

  lemma MulLe(a: int, b: int, c: nat)
    ensures a <= b ==> a * c <= b * c
  {
  }

  /** The quotient of i by s is the q with q * s <= i < (q + 1) * s. */
  lemma DivUnique(i: int, s: int, q: int)
    requires s > 0 && q * s <= i < q * s + s
    ensures i / s == q
  {
    var q' := i / s;
    assert q' * s <= i < q' * s + s;
    MulLe(q' + 1, q, s);
    MulLe(q + 1, q', s);
  }

  /** With several shards, different shards have different paths. */
  lemma ShardPathsDistinct(recordFilePath: string, ns: int, a: nat, b: nat)
    requires ns > 1 && a != b
    ensures ShardPath(recordFilePath, ns, a) != ShardPath(recordFilePath, ns, b)
  {
    PadsDiffer(a, b);
    var x, t := recordFilePath + "-", "-of-" + ZeroPad(ns, 5);
    MiddleDiffers(x, ZeroPad(a, 5), ZeroPad(b, 5), t);
    assert ShardPath(recordFilePath, ns, a) == x + ZeroPad(a, 5) + t;
    assert ShardPath(recordFilePath, ns, b) == x + ZeroPad(b, 5) + t;
  }

  /** Different numbers are padded differently. */
  lemma PadsDiffer(a: nat, b: nat)
    requires a != b
    ensures ZeroPad(a, 5) != ZeroPad(b, 5)
  {
    ZeroPadRoundTrip(a, 5);
    ZeroPadRoundTrip(b, 5);
  }

  /** Strings that differ only in a middle part differ. */
  lemma MiddleDiffers(x: string, p: string, q: string, t: string)
    requires p != q
    ensures x + p + t != x + q + t
  {
    if |p| == |q| {
      assert (x + p + t)[|x|..|x| + |p|] == p;
      assert (x + q + t)[|x|..|x| + |q|] == q;
    } else {
      assert |x + p + t| != |x + q + t|;
    }
  }

  /** The shard index advances exactly at multiples of the shard size. */
  lemma ShardIndexStep(i: nat, s: nat)
    requires s >= 1
    ensures i % s == 0 && i > 0 ==> (i - 1) / s + 1 == i / s
    ensures i % s != 0 ==> i > 0 && (i - 1) / s == i / s
  {
    var q, r := i / s, i % s;
    assert i == q * s + r;
    if r == 0 && i > 0 {
      DivUnique(i - 1, s, q - 1);
    } else if r != 0 {
      DivUnique(i - 1, s, q);
    }
  }

  /** The shard of file i: every shardSize files the index advances and the path is rebuilt, with the
      suffix -NNNNN-of-MMMMM when there is more than one shard. */
  method NextShard(recordFilePath: string, n: nat, numShards: int, shardSize: nat, i: nat, shardIdx: int, shardPath: string)
    returns (idx: nat, path: string, opens: bool)
    requires numShards >= 1 && i < n && shardSize == ShardSize(n, numShards)
    requires i == 0 ==> shardIdx == -1
    requires i > 0 ==> shardIdx == ShardOf(i - 1, n, numShards) && shardPath == ShardPath(recordFilePath, numShards, shardIdx)
    ensures opens == OpensShard(i, n, numShards)
    ensures idx == ShardOf(i, n, numShards) && path == ShardPath(recordFilePath, numShards, idx)
  {
    ShardIndexStep(i, shardSize);
    idx, path := if i == 0 then 0 else shardIdx, shardPath;
    opens := i % shardSize == 0;
    if opens {
      idx := shardIdx + 1;
      path := recordFilePath;
      if numShards > 1 {
        path := path + "-" + ZeroPad(idx, 5) + "-of-" + ZeroPad(numShards, 5);
      }
    }
  }

  // ----- the conversion and the write loop -----

  /** decodeImageConfig: the size and format of the image at a path. */
  type ConfigDecoder = string -> Result<(AWSGeneral.ImageConfig, string)>

  /** What the file system does: the label map file found, image headers and contents, which shard
      files can be created, which examples fail to be written (by their index in the data), and how
      saving the label map ends. */
  datatype Environment = Environment(labelMapFile: LabelMapSource, decodeConfig: ConfigDecoder,
                                     readImage: string -> Result<seq<bv8>>, canCreate: string -> bool,
                                     writeFails: nat -> bool, labelMapWrite: WriteOutcome)

  /** customiseFeature: the feature map the caller makes of a file and its default feature map. */
  type Customiser = (IR.AnnotatedFile, FeatureMap) -> FeatureMap

  /** The arguments of WriteCustomTFRecord. */
  datatype Job = Job(recordFilePath: string, labelMapPath: string, data: seq<IR.AnnotatedFile>, numShards: int,
                     customise: Option<Customiser>)

  /** toTFRecord: the errors of decoding the image header and reading the image are passed on;
      otherwise the labels get their IDs and the file its feature map. */
  function ConvertFile(m: map<string, int>, next: int, f: IR.AnnotatedFile, env: Environment)
    : Result<(Assigned, FeatureMap)>
  {
    match env.decodeConfig(f.filePath)
    case Err(e) => Err(e)
    case Ok(header) =>
      match env.readImage(f.filePath)
      case Err(e) => Err(e)
      case Ok(imgData) =>
        var a := AssignIDs(m, next, Names(f.annotations));
        Ok((a, Features(f, header.0, header.1, imgData, a.ids)))
  }

  /** A written example: its shard, the shard's path and its feature map. */
  datatype Record = Record(shard: nat, shardPath: string, features: FeatureMap)

  /** The state of the write loop: the label map, the next ID, the examples written, the error that
      ended the loop, and whether the loop has stopped. */
  datatype Run = Run(labelMap: map<string, int>, next: int, records: seq<Record>, err: Option<Error>, stopped: bool)

  /** One pass of the write loop: the new loop state from the current one and the file's index. */
  type Stepper = (Run, nat) -> Run

  /** The write loop over the first k files, starting from label map m and next ID next: each file is
      handled by step until one of them stops the loop. */
  function Stream(step: Stepper, m: map<string, int>, next: int, k: nat): Run
  {
    if k == 0 then Run(m, next, [], None, false)
    else
      var r := Stream(step, m, next, k - 1);
      if r.stopped then r else step(r, k - 1)
  }

  /** The pass of WriteCustomTFRecord over file i of the job, against the file system env. */
  function Stepping(job: Job, env: Environment): Stepper
  {
    (r: Run, i: nat) => if i < |job.data| then Step(job, env, r, i) else r
  }

  /** File i of the write loop: a shard that cannot be created stops the loop with an error; otherwise
      the file is emitted to shard i / ShardSize. */
  function Step(job: Job, env: Environment, r: Run, i: nat): Run
    requires i < |job.data|
  {
    var ns := ShardCount(job.numShards);
    var idx := ShardOf(i, |job.data|, ns);
    var path := ShardPath(job.recordFilePath, ns, idx);
    if OpensShard(i, |job.data|, ns) && !env.canCreate(path) then r.(err := Some(CreateFailed(path)), stopped := true)
    else Emit(job, env, r, i, idx, path)
  }

  /** File i converted and written to shard idx at path: a file that does not convert is skipped, a
      failed write stops the loop without an error, and otherwise the (customised) example is
      appended. The labels of a converted file keep their IDs either way. */
  function Emit(job: Job, env: Environment, r: Run, i: nat, idx: nat, path: string): Run
    requires i < |job.data|
  {
    match ConvertFile(r.labelMap, r.next, job.data[i], env)
    case Err(_) => r
    case Ok(c) =>
      var features := if job.customise.Some? then job.customise.value(job.data[i], c.1) else c.1;
      if env.writeFails(i) then r.(labelMap := c.0.labelMap, next := c.0.next, stopped := true)
      else r.(labelMap := c.0.labelMap, next := c.0.next, records := r.records + [Record(idx, path, features)])
  }

  /** One more file of the write loop, with the shard decision, index and path of file i given. */
  lemma StreamAt(job: Job, env: Environment, m: map<string, int>, next: int, i: nat, r: Run, opens: bool, idx: nat, path: string)
    requires i < |job.data| && Stream(Stepping(job, env), m, next, i) == r && !r.stopped
    requires var ns := ShardCount(job.numShards);
             opens == OpensShard(i, |job.data|, ns) && idx == ShardOf(i, |job.data|, ns)
             && path == ShardPath(job.recordFilePath, ns, idx)
    ensures Stream(Stepping(job, env), m, next, i + 1) ==
              if opens && !env.canCreate(path) then r.(err := Some(CreateFailed(path)), stopped := true)
              else Emit(job, env, r, i, idx, path)
  {
  }

  /** The label map WriteCustomTFRecord works with: the one held, else the one loaded (next ID one past
      its largest), else a new one when there is no file; any other load error is returned. */
  function InitLabelMap(held: Option<map<string, int>>, next: int, path: string, source: LabelMapSource)
    : Result<(map<string, int>, int)>
  {
    if held.Some? then Ok((held.value, next))
    else
      match LoadedLabelMap(path, source)
      case Ok(loaded) => Ok((loaded.0, loaded.1 + 1))
      case Err(e) => if e.NotFound? then Ok((map[], 1)) else Err(e)
  }

  /** The package's label state: the active label map (none until first loaded or created) and the
      ID for the next new label. */
  class LabelRegistry {
    var labelMap: Option<map<string, int>>
    var nextLabelID: int

    ghost predicate Valid()
      reads this
    {
      labelMap.Some? ==> ValidIDs(labelMap.value, nextLabelID)
    }

    constructor()
      ensures labelMap == None && nextLabelID == 1 && Valid()
    {
      labelMap := None;
      nextLabelID := 1;
    }

    /** The label map initialisation of WriteCustomTFRecord: a held map is kept; otherwise the file is
        loaded, and a missing file starts a new map. */
    method EnsureLabelMap(path: string, source: LabelMapSource) returns (err: Option<Error>)
      requires Valid()
      modifies this
      ensures Valid()
      ensures var init := InitLabelMap(old(labelMap), old(nextLabelID), path, source);
              && (init.Err? ==> err == Some(init.error) && labelMap == old(labelMap) && nextLabelID == old(nextLabelID))
              && (init.Ok? ==> err.None? && labelMap == Some(init.value.0) && nextLabelID == init.value.1)
    {
      err := None;
      if labelMap.None? {
        // Try to load an existing label map; it is not an error if the file does not exist.
        var loaded := LoadLabelMap(path, source);
        if loaded.Ok? {
          LoadedValid(path, source);
          labelMap := Some(loaded.value.0);
          nextLabelID := loaded.value.1 + 1;
        } else if loaded.error.NotFound? {
          labelMap := Some(map[]);
          nextLabelID := 1;
        } else {
          err := Some(loaded.error);
        }
      }
    }

    /** toTFRecord for one file, assigning IDs to new labels in the registry. */
    method ToTFRecord(fileData: IR.AnnotatedFile, env: Environment) returns (r: Result<FeatureMap>)
      requires labelMap.Some? && Valid()
      modifies this
      ensures labelMap.Some? && Valid()
      ensures var c := ConvertFile(old(labelMap.value), old(nextLabelID), fileData, env);
              && (c.Err? ==> r == Err(c.error) && labelMap == old(labelMap) && nextLabelID == old(nextLabelID))
              && (c.Ok? ==> r == Ok(c.value.1) && labelMap == Some(c.value.0.labelMap) && nextLabelID == c.value.0.next)
    {
      // Get the image width and height.
      var header := env.decodeConfig(fileData.filePath);
      if header.Err? {
        return Err(header.error);
      }
      var img, format := header.value.0, header.value.1;
      // Read the image data.
      var imgData := env.readImage(fileData.filePath);
      if imgData.Err? {
        return Err(imgData.error);
      }

      // Prepare the feature map for the per file data.
      var f := map[ImageHeight := IntFeature(img.height),
                   ImageWidth := IntFeature(img.width),
                   ImageFilename := StringFeature(fileData.filePath),
                   ImageSourceID := StringFeature(fileData.filePath),
                   ImageEncoded := BytesFeature(imgData.value),
                   ImageFormat := StringFeature(format)];
      var xmins, ymins, xmaxs, ymaxs, classes, classIDs := PerLabelData(fileData.annotations, img);
      f := f[BoxXMin := FloatsFeature(xmins)][BoxYMin := FloatsFeature(ymins)];
      f := f[BoxXMax := FloatsFeature(xmaxs)][BoxYMax := FloatsFeature(ymaxs)];
      f := f[ClassText := StringsFeature(classes)][ClassLabel := IntsFeature(classIDs)];
      return Ok(f);
    }

    /** The per label loop of toTFRecord: each box relative to the image size, each label, and each
        label's ID, a new label getting the next ID. */
    method PerLabelData(anns: seq<IR.Annotation>, img: AWSGeneral.ImageConfig)
      returns (xmins: seq<Float32>, ymins: seq<Float32>, xmaxs: seq<Float32>, ymaxs: seq<Float32>,
               classes: seq<string>, classIDs: seq<int>)
      requires labelMap.Some? && Valid()
      modifies this
      ensures labelMap.Some? && Valid()
      ensures xmins == BoxColumn(anns, 0, img.width) && ymins == BoxColumn(anns, 1, img.height)
      ensures xmaxs == BoxColumn(anns, 2, img.width) && ymaxs == BoxColumn(anns, 3, img.height)
      ensures classes == Names(anns)
      ensures var a := AssignIDs(old(labelMap.value), old(nextLabelID), Names(anns));
              labelMap == Some(a.labelMap) && nextLabelID == a.next && classIDs == a.ids
    {
      ghost var m0, n0 := labelMap.value, nextLabelID;
      var m, next := labelMap.value, nextLabelID;
      var numLabels := |anns|;
      xmins := seq(numLabels, _ => NaN);
      ymins := seq(numLabels, _ => NaN);
      xmaxs := seq(numLabels, _ => NaN);
      ymaxs := seq(numLabels, _ => NaN);
      classes := seq(numLabels, _ => "");
      classIDs := [];
      assert Names(anns)[..0] == [];
      for i := 0 to numLabels
        invariant |xmins| == |ymins| == |xmaxs| == |ymaxs| == |classes| == numLabels
        invariant AssignIDs(m0, n0, Names(anns)[..i]) == Assigned(m, next, classIDs)
        invariant forall j :: 0 <= j < i ==>
                    && xmins[j] == Ratio32(anns[j].coords[0], img.width)
                    && ymins[j] == Ratio32(anns[j].coords[1], img.height)
                    && xmaxs[j] == Ratio32(anns[j].coords[2], img.width)
                    && ymaxs[j] == Ratio32(anns[j].coords[3], img.height)
                    && classes[j] == anns[j].name
      {
        var a := anns[i];
        xmins := xmins[i := Ratio32(a.coords[0], img.width)];
        ymins := ymins[i := Ratio32(a.coords[1], img.height)];
        xmaxs := xmaxs[i := Ratio32(a.coords[2], img.width)];
        ymaxs := ymaxs[i := Ratio32(a.coords[3], img.height)];
        classes := classes[i := a.name];

        // Assign the ID for the label, selecting a new one if no mapping exists.
        ghost var before := Assigned(m, next, classIDs);
        var id := if a.name in m then m[a.name] else 0;
        if id == 0 {
          m := m[a.name := next];
          id := next;
          next := next + 1;
        }
        classIDs := classIDs + [id];
        assert Names(anns)[..i + 1][..i] == Names(anns)[..i];
        assert AssignIDs(m0, n0, Names(anns)[..i + 1]) == AssignOne(before, a.name);
      }
      assert Names(anns)[..numLabels] == Names(anns);
      labelMap, nextLabelID := Some(m), next;
      AssignIDsFacts(m0, n0, Names(anns));
    }

    /** WriteCustomTFRecord: make sure a label map is held, then convert the files one by one and write
        them to the shards in order, and finally save the label map (unless a shard could not be
        created). Returns the examples written, the label map items saved and the error. */
    method WriteCustomTFRecord(job: Job, env: Environment)
      returns (records: seq<Record>, saved: seq<LabelMapItem>, err: Option<Error>)
      requires Valid()
      modifies this
      ensures Valid()
      ensures var init := InitLabelMap(old(labelMap), old(nextLabelID), job.labelMapPath, env.labelMapFile);
              && (init.Err? ==> err == Some(init.error) && records == [] && saved == []
                                && labelMap == old(labelMap) && nextLabelID == old(nextLabelID))
              && (init.Ok? ==>
                    var run := Stream(Stepping(job, env), init.value.0, init.value.1, |job.data|);
                    && labelMap == Some(run.labelMap) && nextLabelID == run.next && records == run.records
                    && (run.err.Some? ==> err == run.err && saved == [])
                    && (run.err.None? ==> Describes(saved, run.labelMap) && err == SaveError(job.labelMapPath, env.labelMapWrite)))
    {
      var numShards := job.numShards;
      if numShards <= 0 {
        numShards := 1;
      }

      var initErr := EnsureLabelMap(job.labelMapPath, env.labelMapFile);
      if initErr.Some? {
        return [], [], initErr;
      }

      records, err := WriteExamples(job, env, numShards);
      if err.Some? {
        return records, [], err;
      }
      saved, err := SaveLabelMap(job.labelMapPath, labelMap.value, env.labelMapWrite);
    }

    /** The write loop of WriteCustomTFRecord: a new shard is opened every shardSize files, a file that
        does not convert is skipped, a shard that cannot be created ends the loop with an error, and an
        example that cannot be written ends it without one. */
    method WriteExamples(job: Job, env: Environment, numShards: int) returns (records: seq<Record>, err: Option<Error>)
      requires labelMap.Some? && Valid()
      requires numShards == ShardCount(job.numShards)
      modifies this
      ensures labelMap.Some? && Valid()
      ensures var run := Stream(Stepping(job, env), old(labelMap.value), old(nextLabelID), |job.data|);
              labelMap == Some(run.labelMap) && nextLabelID == run.next && records == run.records && err == run.err
    {
      ghost var m0, n0 := labelMap.value, nextLabelID;
      var n := |job.data|;
      var shardSize := ShardSize(n, numShards);
      var shardIdx: int := -1;
      var shardPath := job.recordFilePath;
      records, err := [], None;
      var stop := false;
      var i := 0;
      while i < n && !stop
        invariant 0 <= i <= n
        invariant labelMap.Some? && Valid()
        invariant Stream(Stepping(job, env), m0, n0, i) == Run(labelMap.value, nextLabelID, records, err, stop)
        invariant !stop ==> err == None
        invariant i == 0 ==> shardIdx == -1
        invariant i > 0 ==> shardIdx == ShardOf(i - 1, n, numShards) && shardPath == ShardPath(job.recordFilePath, numShards, shardIdx)
      {
        // Check if a new shard file needs to be opened for writing.
        var opens;
        shardIdx, shardPath, opens := NextShard(job.recordFilePath, n, numShards, shardSize, i, shardIdx, shardPath);
        records, err, stop := WriteFile(job, env, m0, n0, i, opens, shardIdx, shardPath, records);
        i := i + 1;
      }
      if stop {
        StreamStops(Stepping(job, env), m0, n0, i, n);
      }
    }

    /** One pass of the write loop over file i, whose shard is given: when the file opens its shard and
        the shard cannot be created, the loop ends with an error; otherwise the file is written. */
    method WriteFile(job: Job, env: Environment, ghost m0: map<string, int>, ghost n0: int, i: nat, opens: bool,
                     shardIdx: nat, shardPath: string, records: seq<Record>)
      returns (records': seq<Record>, err: Option<Error>, stop: bool)
      requires i < |job.data| && labelMap.Some? && Valid()
      requires var ns := ShardCount(job.numShards);
               opens == OpensShard(i, |job.data|, ns) && shardIdx == ShardOf(i, |job.data|, ns)
               && shardPath == ShardPath(job.recordFilePath, ns, shardIdx)
      requires Stream(Stepping(job, env), m0, n0, i) == Run(labelMap.value, nextLabelID, records, None, false)
      modifies this
      ensures labelMap.Some? && Valid()
      ensures Stream(Stepping(job, env), m0, n0, i + 1) == Run(labelMap.value, nextLabelID, records', err, stop)
      ensures !stop ==> err == None
    {
      StreamAt(job, env, m0, n0, i, Run(labelMap.value, nextLabelID, records, None, false), opens, shardIdx, shardPath);
      if opens && !env.canCreate(shardPath) {
        return records, Some(CreateFailed(shardPath)), true;
      }
      err := None;
      records', stop := WriteExample(job, env, i, shardIdx, shardPath, records);
    }

    /** One file of the write loop: converted, customised and written to the open shard; a file that
        does not convert is skipped, and a failed write asks the loop to stop. */
    method WriteExample(job: Job, env: Environment, i: nat, shardIdx: nat, shardPath: string, records: seq<Record>)
      returns (records': seq<Record>, stop: bool)
      requires i < |job.data| && labelMap.Some? && Valid()
      modifies this
      ensures labelMap.Some? && Valid()
      ensures Emit(job, env, Run(old(labelMap.value), old(nextLabelID), records, None, false), i, shardIdx, shardPath)
              == Run(labelMap.value, nextLabelID, records', None, stop)
    {
      records' := records;
      stop := false;
      // Convert the file data to an example.
      var tfFileData := ToTFRecord(job.data[i], env);
      if tfFileData.Err? {
        return;
      }
      var features := tfFileData.value;
      if job.customise.Some? {
        features := job.customise.value(job.data[i], features);
      }

      // Write the example.
      if env.writeFails(i) {
        stop := true;
        return;
      }
      records' := records + [Record(shardIdx, shardPath, features)];
    }

    /** WriteTFRecord: WriteCustomTFRecord without a customiser. */
    method WriteTFRecord(recordFilePath: string, labelMapPath: string, data: seq<IR.AnnotatedFile>, numShards: int,
                         env: Environment)
      returns (records: seq<Record>, saved: seq<LabelMapItem>, err: Option<Error>)
      requires Valid()
      modifies this
      ensures Valid()
      ensures var job := Job(recordFilePath, labelMapPath, data, numShards, None);
              var init := InitLabelMap(old(labelMap), old(nextLabelID), labelMapPath, env.labelMapFile);
              && (init.Err? ==> err == Some(init.error) && records == [] && saved == []
                                && labelMap == old(labelMap) && nextLabelID == old(nextLabelID))
              && (init.Ok? ==>
                    var run := Stream(Stepping(job, env), init.value.0, init.value.1, |data|);
                    && labelMap == Some(run.labelMap) && nextLabelID == run.next && records == run.records
                    && (run.err.Some? ==> err == run.err && saved == [])
                    && (run.err.None? ==> Describes(saved, run.labelMap) && err == SaveError(labelMapPath, env.labelMapWrite)))
    {
      records, saved, err := WriteCustomTFRecord(Job(recordFilePath, labelMapPath, data, numShards, None), env);
    }
  }

  // ----- properties of the write loop -----

  /** Once the loop has stopped, later files change nothing. */
  lemma {:induction false} StreamStops(step: Stepper, m: map<string, int>, next: int, k: nat, k': nat)
    requires k <= k'
    requires Stream(step, m, next, k).stopped
    ensures Stream(step, m, next, k') == Stream(step, m, next, k)
    decreases k'
  {
    if k' > k {
      StreamStops(step, m, next, k, k' - 1);
    }
  }

  /** after is before with at most one record appended, to the given shard. */
  ghost predicate Appends(before: seq<Record>, after: seq<Record>, shard: nat)
  {
    && |before| <= |after| <= |before| + 1
    && (forall j :: 0 <= j < |before| ==> after[j] == before[j])
    && (|after| > |before| ==> after[|before|].shard == shard)
  }

  /** A pass over file i of the job appends at most one record, to the shard of file i and under
      that shard's path. */
  ghost predicate StepsShard(step: Stepper, job: Job)
  {
    var ns := ShardCount(job.numShards);
    forall r: Run, i: nat {:trigger step(r, i)} :: i < |job.data| ==>
      var idx := ShardOf(i, |job.data|, ns);
      && Appends(r.records, step(r, i).records, idx)
      && (|step(r, i).records| > |r.records| ==> step(r, i).records[|r.records|].shardPath == ShardPath(job.recordFilePath, ns, idx))
  }

  /** A pass that keeps a valid label map valid and never changes an ID it holds. */
  ghost predicate StepsKeepIDs(step: Stepper, n: nat)
  {
    forall r: Run, i: nat {:trigger step(r, i)} :: i < n && ValidIDs(r.labelMap, r.next) ==>
      && ValidIDs(step(r, i).labelMap, step(r, i).next)
      && forall l :: l in r.labelMap ==> l in step(r, i).labelMap && step(r, i).labelMap[l] == r.labelMap[l]
  }

  /** A pass, while the loop runs, that writes its file: the loop goes on without error, with one record more, on the shard
      of the file. */
  ghost predicate StepsWriteAll(step: Stepper, job: Job)
  {
    forall r: Run, i: nat {:trigger step(r, i)} :: i < |job.data| && !r.stopped ==>
      && !step(r, i).stopped && step(r, i).err == r.err
      && |step(r, i).records| == |r.records| + 1
      && Appends(r.records, step(r, i).records, ShardOf(i, |job.data|, ShardCount(job.numShards)))
  }

  /** Each file of WriteCustomTFRecord adds at most one record, to shard i / ShardSize under that
      shard's path. */
  lemma SteppingShards(job: Job, env: Environment)
    ensures StepsShard(Stepping(job, env), job)
  {
    var ns := ShardCount(job.numShards);
    forall r: Run, i: nat | i < |job.data|
      ensures var idx := ShardOf(i, |job.data|, ns);
              var r' := Stepping(job, env)(r, i);
              && Appends(r.records, r'.records, idx)
              && (|r'.records| > |r.records| ==> r'.records[|r.records|].shardPath == ShardPath(job.recordFilePath, ns, idx))
    {
      var r' := Step(job, env, r, i);
      assert Stepping(job, env)(r, i) == r';
    }
  }

  /** WriteCustomTFRecord keeps the label map valid and never changes an ID it already holds. */
  lemma SteppingKeepsIDs(job: Job, env: Environment)
    ensures StepsKeepIDs(Stepping(job, env), |job.data|)
  {
    forall r: Run, i: nat | i < |job.data| && ValidIDs(r.labelMap, r.next)
      ensures var r' := Stepping(job, env)(r, i);
              && ValidIDs(r'.labelMap, r'.next)
              && forall l :: l in r.labelMap ==> l in r'.labelMap && r'.labelMap[l] == r.labelMap[l]
    {
      AssignIDsFacts(r.labelMap, r.next, Names(job.data[i].annotations));
      var r' := Step(job, env, r, i);
      assert Stepping(job, env)(r, i) == r';
    }
  }

  /** toTFRecord converts a file exactly when its image header decodes and its image can be read. */
  lemma ConvertFileOk(m: map<string, int>, next: int, f: IR.AnnotatedFile, env: Environment)
    ensures ConvertFile(m, next, f, env).Ok? <==>
              env.decodeConfig(f.filePath).Ok? && env.readImage(f.filePath).Ok?
  {
  }

  /** When every image can be read, every shard created and every example written, each file of
      WriteCustomTFRecord adds one example, on its shard, and no error. */
  lemma SteppingWritesAll(job: Job, env: Environment)
    requires forall p :: env.canCreate(p)
    requires forall i :: 0 <= i < |job.data| ==> !env.writeFails(i)
    requires forall i :: 0 <= i < |job.data| ==>
               env.decodeConfig(job.data[i].filePath).Ok? && env.readImage(job.data[i].filePath).Ok?
    ensures StepsWriteAll(Stepping(job, env), job)
  {
    forall r: Run, i: nat | i < |job.data| && !r.stopped
      ensures var r' := Stepping(job, env)(r, i);
              && !r'.stopped && r'.err == r.err && |r'.records| == |r.records| + 1
              && Appends(r.records, r'.records, ShardOf(i, |job.data|, ShardCount(job.numShards)))
    {
      ConvertFileOk(r.labelMap, r.next, job.data[i], env);
      var r' := Step(job, env, r, i);
      assert Stepping(job, env)(r, i) == r';
    }
  }

  /** The loop keeps the label map valid and never changes an ID it already holds. */
  lemma {:induction false} StreamValid(step: Stepper, n: nat, m: map<string, int>, next: int, k: nat)
    requires k <= n && ValidIDs(m, next) && StepsKeepIDs(step, n)
    ensures var r := Stream(step, m, next, k);
            && ValidIDs(r.labelMap, r.next)
            && forall l :: l in m ==> l in r.labelMap && r.labelMap[l] == m[l]
  {
    if k > 0 {
      StreamValid(step, n, m, next, k - 1);
    }
  }

  /** File k - 1 adds at most one record to the loop's records, to shard (k - 1) / ShardSize under
      that shard's path. */
  lemma StreamGrows(step: Stepper, job: Job, m: map<string, int>, next: int, k: nat)
    requires 0 < k <= |job.data| && StepsShard(step, job)
    ensures var ns := ShardCount(job.numShards);
            var idx := ShardOf(k - 1, |job.data|, ns);
            var before := Stream(step, m, next, k - 1).records;
            var after := Stream(step, m, next, k).records;
            && Appends(before, after, idx)
            && (|after| > |before| ==> after[|before|].shardPath == ShardPath(job.recordFilePath, ns, idx))
  {
    var r := Stream(step, m, next, k - 1);
    if !r.stopped {
      assert Stream(step, m, next, k) == step(r, k - 1);
    }
  }

  /** The shard of the last of the first k files (0 when there is none): one of the ns shards. */
  function LastShard(job: Job, k: nat): (idx: nat)
    requires k <= |job.data|
    ensures idx < ShardCount(job.numShards)
  {
    if k == 0 then 0 else ShardOf(k - 1, |job.data|, ShardCount(job.numShards))
  }

  /** No record is on a shard past top. */
  ghost predicate ShardsUpTo(records: seq<Record>, top: nat)
  {
    forall j :: 0 <= j < |records| ==> records[j].shard <= top
  }

  /** No example of the first k files goes past the shard of file k - 1. */
  lemma {:induction false} StreamShards(step: Stepper, job: Job, m: map<string, int>, next: int, k: nat)
    requires k <= |job.data| && StepsShard(step, job)
    ensures ShardsUpTo(Stream(step, m, next, k).records, LastShard(job, k))
  {
    if k > 0 {
      StreamShards(step, job, m, next, k - 1);
      StreamGrows(step, job, m, next, k);
      if k > 1 {
        ShardOfMonotone(k - 2, k - 1, |job.data|, ShardCount(job.numShards));
      }
      AppendBounded(Stream(step, m, next, k - 1).records, Stream(step, m, next, k).records,
                    LastShard(job, k - 1), LastShard(job, k));
    }
  }

  /** Every example is written under the path of its shard. */
  lemma {:induction false} StreamShardPaths(step: Stepper, job: Job, m: map<string, int>, next: int, k: nat)
    requires k <= |job.data| && StepsShard(step, job)
    ensures var ns := ShardCount(job.numShards);
            var records := Stream(step, m, next, k).records;
            forall j :: 0 <= j < |records| ==> records[j].shardPath == ShardPath(job.recordFilePath, ns, records[j].shard)
  {
    if k > 0 {
      StreamShardPaths(step, job, m, next, k - 1);
      StreamGrows(step, job, m, next, k);
    }
  }

  /** The shards are filled in order: the records' shard indices never decrease. */
  lemma {:induction false} StreamShardsOrdered(step: Stepper, job: Job, m: map<string, int>, next: int, k: nat)
    requires k <= |job.data| && StepsShard(step, job)
    ensures var records := Stream(step, m, next, k).records;
            forall i, j :: 0 <= i < j < |records| ==> records[i].shard <= records[j].shard
  {
    StreamShardsAdjacent(step, job, m, next, k);
    ShardsSorted(Stream(step, m, next, k).records);
  }

  /** Each record's shard is at least the shard of the record before it. */
  lemma {:induction false} StreamShardsAdjacent(step: Stepper, job: Job, m: map<string, int>, next: int, k: nat)
    requires k <= |job.data| && StepsShard(step, job)
    ensures Adjacent(Stream(step, m, next, k).records)
  {
    if k > 0 {
      StreamShardsAdjacent(step, job, m, next, k - 1);
      StreamGrows(step, job, m, next, k);
      StreamShards(step, job, m, next, k - 1);
      if k > 1 {
        ShardOfMonotone(k - 2, k - 1, |job.data|, ShardCount(job.numShards));
      }
      AppendAdjacent(Stream(step, m, next, k - 1).records, Stream(step, m, next, k).records,
                     LastShard(job, k - 1), LastShard(job, k));
    }
  }

  /** Appending a record to a later shard keeps every record within that shard. */
  lemma AppendBounded(before: seq<Record>, after: seq<Record>, prev: nat, top: nat)
    requires Appends(before, after, top) && prev <= top && ShardsUpTo(before, prev)
    ensures ShardsUpTo(after, top)
  {
    forall j | 0 <= j < |after|
      ensures after[j].shard <= top
    {
      if j < |before| {
        assert after[j] == before[j];
      }
    }
  }

  /** Appending a record to a shard no earlier than the last one keeps neighbouring shards in order. */
  lemma AppendAdjacent(before: seq<Record>, after: seq<Record>, prev: nat, top: nat)
    requires Appends(before, after, top) && prev <= top
    requires Adjacent(before) && ShardsUpTo(before, prev)
    ensures Adjacent(after)
  {
    forall j | 0 < j < |after|
      ensures after[j - 1].shard <= after[j].shard
    {
      assert after[j - 1] == before[j - 1];
      if j < |before| {
        assert after[j] == before[j];
      }
    }
  }

  /** Each record's shard is at least the shard of the record before it. */
  ghost predicate Adjacent(records: seq<Record>)
  {
    forall j :: 0 < j < |records| ==> records[j - 1].shard <= records[j].shard
  }

  /** Shard indices that never decrease from one record to the next are sorted. */
  lemma {:induction false} ShardsSorted(records: seq<Record>)
    requires Adjacent(records)
    ensures forall i, j :: 0 <= i < j < |records| ==> records[i].shard <= records[j].shard
  {
    if |records| > 1 {
      var init := records[..|records| - 1];
      ShardsSorted(init);
      forall i, j | 0 <= i < j < |records|
        ensures records[i].shard <= records[j].shard
      {
        assert records[i] == init[i];
        if j < |records| - 1 {
          assert records[j] == init[j];
        } else if i < j - 1 {
          assert records[j - 1] == init[j - 1];
        }
      }
    }
  }

  /** When every file is written, each of the first k files yields one example, in order, on shard
      i / ShardSize, and no error. */
  lemma {:induction false} StreamAllWritten(step: Stepper, job: Job, m: map<string, int>, next: int, k: nat)
    requires k <= |job.data| && StepsWriteAll(step, job)
    ensures var r := Stream(step, m, next, k);
            && !r.stopped && r.err.None? && |r.records| == k
            && forall j :: 0 <= j < k ==> r.records[j].shard == ShardOf(j, |job.data|, ShardCount(job.numShards))
  {
    if k > 0 {
      StreamAllWritten(step, job, m, next, k - 1);
      var r := Stream(step, m, next, k - 1);
      assert Stream(step, m, next, k) == step(r, k - 1);
    }
  }

  // ----- the write loop of WriteCustomTFRecord -----

  /** WriteCustomTFRecord's loop writes every example to an existing shard, under that shard's path,
      filling the shards in order. */
  lemma WrittenShards(job: Job, env: Environment, m: map<string, int>, next: int)
    ensures var ns := ShardCount(job.numShards);
            var records := Stream(Stepping(job, env), m, next, |job.data|).records;
            && (forall j :: 0 <= j < |records| ==>
                  records[j].shard < ns && records[j].shardPath == ShardPath(job.recordFilePath, ns, records[j].shard))
            && (forall i, j :: 0 <= i < j < |records| ==> records[i].shard <= records[j].shard)
  {
    SteppingShards(job, env);
    StreamShards(Stepping(job, env), job, m, next, |job.data|);
    var records := Stream(Stepping(job, env), m, next, |job.data|).records;
    assert forall j :: 0 <= j < |records| ==> records[j].shard <= LastShard(job, |job.data|);
    StreamShardPaths(Stepping(job, env), job, m, next, |job.data|);
    StreamShardsOrdered(Stepping(job, env), job, m, next, |job.data|);
  }

  /** WriteCustomTFRecord's loop keeps the label map valid and never renumbers a label. */
  lemma WrittenIDs(job: Job, env: Environment, m: map<string, int>, next: int)
    requires ValidIDs(m, next)
    ensures var r := Stream(Stepping(job, env), m, next, |job.data|);
            && ValidIDs(r.labelMap, r.next)
            && forall l :: l in m ==> l in r.labelMap && r.labelMap[l] == m[l]
  {
    SteppingKeepsIDs(job, env);
    StreamValid(Stepping(job, env), |job.data|, m, next, |job.data|);
  }

  /** When every image can be read, every shard created and every example written, WriteCustomTFRecord
      writes one example per file, in order, file i on shard i / ShardSize, and reports no error. */
  lemma WrittenAll(job: Job, env: Environment, m: map<string, int>, next: int)
    requires forall p :: env.canCreate(p)
    requires forall i :: 0 <= i < |job.data| ==> !env.writeFails(i)
    requires forall i :: 0 <= i < |job.data| ==>
               env.decodeConfig(job.data[i].filePath).Ok? && env.readImage(job.data[i].filePath).Ok?
    ensures var r := Stream(Stepping(job, env), m, next, |job.data|);
            && !r.stopped && r.err.None? && |r.records| == |job.data|
            && forall j :: 0 <= j < |job.data| ==> r.records[j].shard == ShardOf(j, |job.data|, ShardCount(job.numShards))
  {
    SteppingWritesAll(job, env);
    StreamAllWritten(Stepping(job, env), job, m, next, |job.data|);
  }
}
