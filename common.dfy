/** Shared result types of the label converter and the "first error wins" rule. */
module Common {

  datatype Option<+T> = None | Some(value: T)

  /** The error kinds the converter reports; each carries the offending input. */
  datatype Error =
    | InvalidMapping(rule: string)           // a label mapping that is not old=new
    | UnknownFilter(name: string)            // a resampling filter name outside the enumerated set
    | UnsupportedEncoding(encoding: string)  // an output encoding other than jpg, jpeg or png
    | NoSubImage(path: string)               // the decoded image type cannot be cropped
    | DecodeFailed(path: string)             // the image at path could not be read or decoded
    | SaveFailed(path: string)               // the image could not be written to path
    | SplitSum                               // cumulative split percentages do not end at 100
    | MissingExtension(path: string)         // a path whose final element has no extension
    | InsufficientTokens(line: string)       // a KITTI line with fewer than 8 tokens
    | UnexpectedValues(line: string)         // a KITTI coordinate that does not parse
    | UnexpectedScore(line: string)          // a KITTI score that does not parse
    | InvalidEntry(name: string, id: int)    // a label map item with an empty name or an ID <= 0
    | ReadFailed(path: string)               // a file or directory that cannot be read
    | CreateFailed(path: string)             // an output file that cannot be created
    | CloseFailed                            // closing a file failed
    | ParseFailed(path: string)              // a label file whose contents do not decode
    | NotFound(path: string)                 // a file that does not exist
    | WriteFailed(path: string)              // writing to an open file failed

  datatype Result<+T> = Ok(value: T) | Err(error: Error)

  /** The single error slot: the slot keeps what it holds, and only an empty slot takes a new error. */
  function KeepFirst(slot: Option<Error>, e: Option<Error>): (r: Option<Error>)
    ensures slot.Some? ==> r == slot
    ensures slot.None? ==> r == e
  {
    if slot.None? then e else slot
  }

  /** A full slot ignores every later report. */
  lemma {:induction false} FullSlotStays(e: Error, errs: seq<Option<Error>>)
    ensures FoldSlot(Some(e), errs) == Some(e)
  {
    if errs != [] { FullSlotStays(e, errs[1..]); }
  }

  /** Starting empty, the slot ends up holding the earliest error reported, and stays empty without one. */
  lemma {:induction false} FoldKeepsEarliest(errs: seq<Option<Error>>)
    ensures FoldSlot(None, errs).None? <==> forall i :: 0 <= i < |errs| ==> errs[i].None?
    ensures FoldSlot(None, errs).Some? ==>
      exists i :: 0 <= i < |errs| && errs[i] == FoldSlot(None, errs) && forall j :: 0 <= j < i ==> errs[j].None?
  {
    if errs != [] {
      if errs[0].Some? {
        FullSlotStays(errs[0].value, errs[1..]);
        assert errs[0] == FoldSlot(None, errs);
      } else {
        FoldKeepsEarliest(errs[1..]);
        assert forall i :: 0 < i < |errs| ==> errs[i] == errs[1..][i - 1];
        if FoldSlot(None, errs).Some? {
          var i :| 0 <= i < |errs[1..]| && errs[1..][i] == FoldSlot(None, errs[1..])
            && forall j :: 0 <= j < i ==> errs[1..][j].None?;
          assert errs[i + 1] == FoldSlot(None, errs);
        }
      }
    }
  }

  /** The slot after the reports errs arrive one at a time. */
  function FoldSlot(slot: Option<Error>, errs: seq<Option<Error>>): Option<Error>
    decreases |errs|
  {
    if errs == [] then slot else FoldSlot(KeepFirst(slot, errs[0]), errs[1..])
  }
  /** Folding one more report onto the slot is KeepFirst, so a loop can keep the slot as it goes. */
  lemma {:induction false} FoldSlotSnoc(slot: Option<Error>, errs: seq<Option<Error>>, e: Option<Error>)
    ensures FoldSlot(slot, errs + [e]) == KeepFirst(FoldSlot(slot, errs), e)
    decreases |errs|
  {
    if errs == [] {
      assert errs + [e] == [e];
    } else {
      assert (errs + [e])[1..] == errs[1..] + [e];
      FoldSlotSnoc(KeepFirst(slot, errs[0]), errs[1..], e);
    }
  }

  // ----- keeping the results of the items that succeed, in order -----

  function OptSeq<U>(o: Option<U>): (r: seq<U>)
    ensures |r| <= 1
  {
    if o.Some? then [o.value] else []
  }

  /** The values f yields for the items of s, in the order of s; items for which f yields None are
      skipped (the "log and continue" loops of the converters). */
  function FilterMap<T, U>(s: seq<T>, f: T -> Option<U>): (r: seq<U>)
    ensures |r| <= |s|
  {
    if s == [] then [] else FilterMap(s[..|s| - 1], f) + OptSeq(f(s[|s| - 1]))
  }

  /** One more item, as a loop that appends its result sees it. */
  lemma FilterMapStep<T, U>(s: seq<T>, i: nat, f: T -> Option<U>)
    requires i < |s|
    ensures FilterMap(s[..i + 1], f) == FilterMap(s[..i], f) + OptSeq(f(s[i]))
  {
    assert s[..i + 1][..i] == s[..i];
  }

  /** The results of a prefix are a prefix of the results. */
  lemma {:induction false} FilterMapPrefix<T, U>(s: seq<T>, j: nat, f: T -> Option<U>)
    requires j <= |s|
    ensures FilterMap(s[..j], f) <= FilterMap(s, f)
    decreases |s| - j
  {
    if j < |s| {
      FilterMapPrefix(s, j + 1, f);
      FilterMapStep(s, j, f);
    } else {
      assert s[..j] == s;
    }
  }

  /** An item that succeeds has its value in the output, after the values of the items before it. */
  lemma FilterMapAt<T, U>(s: seq<T>, i: nat, f: T -> Option<U>)
    requires i < |s| && f(s[i]).Some?
    ensures |FilterMap(s[..i], f)| < |FilterMap(s, f)|
    ensures FilterMap(s, f)[|FilterMap(s[..i], f)|] == f(s[i]).value
  {
    FilterMapStep(s, i, f);
    FilterMapPrefix(s, i + 1, f);
  }

  /** Every output value is the value of some item that succeeds, and as many values come before it
      as the items before that one yield. */
  lemma {:induction false} FilterMapFrom<T, U>(s: seq<T>, k: nat, f: T -> Option<U>)
    requires k < |FilterMap(s, f)|
    ensures exists i :: 0 <= i < |s| && f(s[i]) == Some(FilterMap(s, f)[k]) && |FilterMap(s[..i], f)| == k
  {
    var n := |s| - 1;
    assert s[..n] == s[..|s| - 1];
    if k < |FilterMap(s[..n], f)| {
      FilterMapFrom(s[..n], k, f);
      var i :| 0 <= i < n && f(s[..n][i]) == Some(FilterMap(s[..n], f)[k]) && |FilterMap(s[..n][..i], f)| == k;
      assert s[..n][..i] == s[..i];
    } else {
      assert f(s[n]) == Some(FilterMap(s, f)[k]);
    }
  }

  // ----- entering keyed items into a map, later ones winning -----

  /** The map after the keyed values f yields for the items of s are entered in order; items for
      which f yields None are skipped. */
  function MapFrom<T, K, V>(s: seq<T>, f: T -> Option<(K, V)>): map<K, V>
  {
    if s == [] then map[]
    else
      var m := MapFrom(s[..|s| - 1], f);
      var e := f(s[|s| - 1]);
      if e.Some? then m[e.value.0 := e.value.1] else m
  }

  lemma MapFromStep<T, K, V>(s: seq<T>, i: nat, f: T -> Option<(K, V)>)
    requires i < |s|
    ensures MapFrom(s[..i + 1], f)
         == if f(s[i]).Some? then MapFrom(s[..i], f)[f(s[i]).value.0 := f(s[i]).value.1] else MapFrom(s[..i], f)
  {
    assert s[..i + 1][..i] == s[..i];
  }

  /** A key is present exactly when some item yields it, and it maps to the value of the last such
      item. */
  lemma {:induction false} MapFromLast<T, K, V>(s: seq<T>, f: T -> Option<(K, V)>, k: K)
    ensures k in MapFrom(s, f) <==> exists i :: 0 <= i < |s| && f(s[i]).Some? && f(s[i]).value.0 == k
    ensures k in MapFrom(s, f) ==>
      exists i :: 0 <= i < |s| && f(s[i]).Some? && f(s[i]).value.0 == k
        && MapFrom(s, f)[k] == f(s[i]).value.1
        && forall j :: i < j < |s| ==> !(f(s[j]).Some? && f(s[j]).value.0 == k)
  {
    if s != [] {
      var n := |s| - 1;
      var init := s[..n];
      MapFromLast(init, f, k);
      assert forall j :: 0 <= j < n ==> init[j] == s[j];
      if f(s[n]).Some? && f(s[n]).value.0 == k {
        assert MapFrom(s, f)[k] == f(s[n]).value.1;
      } else if k in MapFrom(init, f) {
        var i :| 0 <= i < n && f(init[i]).Some? && f(init[i]).value.0 == k
          && MapFrom(init, f)[k] == f(init[i]).value.1
          && forall j :: i < j < n ==> !(f(init[j]).Some? && f(init[j]).value.0 == k);
        assert MapFrom(s, f)[k] == MapFrom(init, f)[k];
      }
    }
  }

  // ----- enumerations of map keys -----

  /** order lists every key of m exactly once. */
  predicate Enumerates<K(==), V>(order: seq<K>, m: map<K, V>)
  {
    (forall i, j :: 0 <= i < j < |order| ==> order[i] != order[j])
    && (forall k :: k in m ==> k in order) && (forall i :: 0 <= i < |order| ==> order[i] in m)
  }

  /** An enumeration of the keys is as long as the map. */
  lemma EnumeratesSize<K, V>(order: seq<K>, m: map<K, V>)
    requires Enumerates(order, m)
    ensures |order| == |m|
  {
    DistinctCount(order, m.Keys);
  }

  /** A sequence without repetitions that holds exactly the elements of a set is as long as the set. */
  lemma {:induction false} DistinctCount<K>(order: seq<K>, keys: set<K>)
    requires forall i, j :: 0 <= i < j < |order| ==> order[i] != order[j]
    requires forall k :: k in keys ==> k in order
    requires forall i :: 0 <= i < |order| ==> order[i] in keys
    ensures |order| == |keys|
    decreases |order|
  {
    if order == [] {
      assert keys == {};
    } else {
      var n := |order| - 1;
      var k := order[n];
      var rest := order[..n];
      var keys' := keys - {k};
      forall x | x in keys'
        ensures x in rest
      {
        var j :| 0 <= j < |order| && order[j] == x;
        assert j != n;
        assert rest[j] == x;
      }
      forall i | 0 <= i < |rest|
        ensures rest[i] in keys'
      {
        assert rest[i] == order[i];
      }
      DistinctCount(rest, keys');
      assert keys == keys' + {k};
    }
  }
}
