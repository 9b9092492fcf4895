/**
 * The type converter: rewrites the leaves of a nested PHP array between the
 * domain wrappers (ObjectID, UTCDateTime) and the driver's own classes.
 * Both directions are one recursive walk that visits leaves only, as
 * array_walk_recursive does. A rewritten copy is returned; the caller's
 * array is not changed unless it holds PHP references, which this model
 * does not represent.
 */
module Converter {

  import opened Wrappers
  import opened PhpValue

  /** A top-level PHP array, the argument and result of convert/unconvert. */
  type Document = seq<(Key, Value)>

  /** The registry the constructor installs: domain wrapper class => driver class, in this order. */
  const MappedTypes: seq<(string, string)> := [
    (DomainObjectIdClass, NativeObjectIdClass),
    (DomainUtcDateTimeClass, NativeUtcDateTimeClass)
  ]

  /** The registry pairs each kind's wrapper with its driver class, and neither column repeats. */
  lemma MappedTypesIsBijection()
    ensures |MappedTypes| == 2
    ensures forall k: Kind :: (DomainClassName(k), NativeClassName(k)) in MappedTypes
    ensures forall i, j :: 0 <= i < j < |MappedTypes| ==>
              MappedTypes[i].0 != MappedTypes[j].0 && MappedTypes[i].1 != MappedTypes[j].1
  {
  }

  /**
   * PHP's array_search over an associative array: the key of the first
   * entry whose value equals `needle`, or None (PHP's `false`).
   */
  function ArraySearch(needle: string, haystack: seq<(string, string)>): (r: Option<string>)
    ensures r.None? <==> forall i :: 0 <= i < |haystack| ==> haystack[i].1 != needle
    ensures r.Some? ==>
              exists i :: 0 <= i < |haystack| && haystack[i] == (r.value, needle) &&
                          forall j :: 0 <= j < i ==> haystack[j].1 != needle
  {
    if haystack == [] then None
    else if haystack[0].1 == needle then Some(haystack[0].0)
    else
      var r := ArraySearch(needle, haystack[1..]);
      assert r.Some? ==> exists i :: 0 <= i < |haystack[1..]| && haystack[1..][i] == (r.value, needle) &&
                                     forall j :: 0 <= j < i ==> haystack[1..][j].1 != needle;
      if r.Some? then
        var i :| 0 <= i < |haystack[1..]| && haystack[1..][i] == (r.value, needle) &&
                 forall j :: 0 <= j < i ==> haystack[1..][j].1 != needle;
        assert haystack[i + 1] == (r.value, needle);
        assert forall j :: 0 <= j < i + 1 ==> haystack[j].1 != needle by {
          forall j | 0 <= j < i + 1 ensures haystack[j].1 != needle {
            if j > 0 { assert haystack[j] == haystack[1..][j - 1]; }
          }
        }
        r
      else
        assert forall i :: 0 <= i < |haystack| ==> haystack[i].1 != needle by {
          forall i | 0 <= i < |haystack| ensures haystack[i].1 != needle {
            if i > 0 { assert haystack[i] == haystack[1..][i - 1]; }
          }
        }
        r
  }

  /**
   * getReflectionClass: `false` for a non-object, otherwise the wrapper
   * class registered for the object's exact class. Only driver values
   * match, and each matches the wrapper of its own kind.
   */
  function GetReflectionClass(v: Value): (r: Option<string>)
    ensures r.Some? <==> v.Native?
    ensures v.Native? ==> r == Some(DomainClassName(v.kind))
  {
    if !IsObject(v) then None
    else
      MappedTypesIsBijection();
      ArraySearch(ClassOf(v), MappedTypes)
  }

  /** `new $className($value)`: a registered wrapper class around a driver value. */
  function NewDomainObject(cls: string, arg: Value): (r: Value)
    requires cls == DomainObjectIdClass || cls == DomainUtcDateTimeClass
    requires arg.Native?
    ensures r.Domain? && ClassOf(r) == cls && r.payload == arg.payload
  {
    Domain(if cls == DomainObjectIdClass then ObjectIdKind else UtcDateTimeKind, arg.payload)
  }

  /** A wrapper's own convert(): the driver value of the same kind and payload. */
  function WrapperConvert(w: Value): (r: Value)
    requires w.Domain?
    ensures r.Native? && ClassOf(r) == NativeClassName(w.kind) && r.payload == w.payload
    ensures GetReflectionClass(r) == Some(ClassOf(w))
  {
    Native(w.kind, w.payload)
  }

  /** The callback of convert: serializable leaves become their convert() result. */
  function ConvertLeaf(v: Value): (r: Value)
    ensures !r.Domain?
    ensures v.Domain? ==> r.Native? && ClassOf(r) == NativeClassName(v.kind) && r.payload == v.payload
    ensures !v.Domain? ==> r == v
  {
    if v.Domain? then WrapperConvert(v) else v
  }

  /** The callback of unconvert: leaves of a registered driver class get wrapped. */
  function UnconvertLeaf(v: Value): (r: Value)
    ensures !r.Native?
    ensures v.Native? ==> r.Domain? && ClassOf(r) == DomainClassName(v.kind) && r.payload == v.payload
    ensures !v.Native? ==> r == v
  {
    match GetReflectionClass(v)
    case Some(cls) => NewDomainObject(cls, v)
    case None => v
  }

  /** array_walk_recursive: applies `f` to every non-array value, at any depth. */
  function Walk(v: Value, f: Value -> Value): (r: Value)
    ensures !v.Array? ==> r == f(v)
    ensures v.Array? ==> r.Array? && |r.entries| == |v.entries|
    ensures v.Array? ==> forall i :: 0 <= i < |v.entries| ==> r.entries[i].0 == v.entries[i].0
  {
    match v
    case Array(es) => Array(seq(|es|, i requires 0 <= i < |es| => (es[i].0, Walk(es[i].1, f))))
    case _ => f(v)
  }

  /** The shape of a value: its arrays, keys and nesting, with every leaf erased. */
  datatype Shape = Hole | Node(children: seq<(Key, Shape)>)

  function ShapeOf(v: Value): Shape
  {
    match v
    case Array(es) => Node(seq(|es|, i requires 0 <= i < |es| => (es[i].0, ShapeOf(es[i].1))))
    case _ => Hole
  }

  function Flatten(ss: seq<seq<Value>>): seq<Value>
  {
    if ss == [] then [] else ss[0] + Flatten(ss[1..])
  }

  /** The leaves of a value, in the order array_walk_recursive visits them. */
  function Leaves(v: Value): seq<Value>
  {
    match v
    case Array(es) => Flatten(seq(|es|, i requires 0 <= i < |es| => Leaves(es[i].1)))
    case _ => [v]
  }

  function MapSeq(s: seq<Value>, f: Value -> Value): seq<Value>
  {
    seq(|s|, i requires 0 <= i < |s| => f(s[i]))
  }

  /** `f` never turns a leaf into an array (so a walk never grows new structure). */
  ghost predicate LeafPreserving(f: Value -> Value)
  {
    forall x: Value :: !x.Array? ==> !f(x).Array?
  }

  lemma ConvertLeafPreserving()
    ensures LeafPreserving(ConvertLeaf)
  {
  }

  lemma UnconvertLeafPreserving()
    ensures LeafPreserving(UnconvertLeaf)
  {
  }

  lemma {:induction false} MapFlatten(ss: seq<seq<Value>>, f: Value -> Value)
    ensures MapSeq(Flatten(ss), f) == Flatten(seq(|ss|, i requires 0 <= i < |ss| => MapSeq(ss[i], f)))
  {
    if ss != [] {
      MapFlatten(ss[1..], f);
      var mapped := seq(|ss|, i requires 0 <= i < |ss| => MapSeq(ss[i], f));
      assert mapped[1..] == seq(|ss[1..]|, i requires 0 <= i < |ss[1..]| => MapSeq(ss[1..][i], f));
      assert MapSeq(ss[0] + Flatten(ss[1..]), f) == MapSeq(ss[0], f) + MapSeq(Flatten(ss[1..]), f);
    }
  }

  lemma {:induction false} FlattenMember(ss: seq<seq<Value>>, i: nat, x: Value)
    requires i < |ss| && x in ss[i]
    ensures x in Flatten(ss)
  {
    if i > 0 {
      FlattenMember(ss[1..], i - 1, x);
    }
  }

  /** Walking with a leaf-preserving callback keeps keys, order, nesting and lengths. */
  lemma {:induction false} WalkKeepsShape(v: Value, f: Value -> Value)
    requires LeafPreserving(f)
    ensures ShapeOf(Walk(v, f)) == ShapeOf(v)
  {
    match v
    case Array(es) =>
      forall i | 0 <= i < |es| ensures ShapeOf(Walk(es[i].1, f)) == ShapeOf(es[i].1) {
        WalkKeepsShape(es[i].1, f);
      }
      var walked := seq(|es|, i requires 0 <= i < |es| => (es[i].0, Walk(es[i].1, f)));
      assert ShapeOf(Array(walked)).children == ShapeOf(v).children;
    case _ =>
  }

  /** Walking rewrites exactly the leaves, each by `f`, in place. */
  lemma {:induction false} WalkRewritesLeaves(v: Value, f: Value -> Value)
    requires LeafPreserving(f)
    ensures Leaves(Walk(v, f)) == MapSeq(Leaves(v), f)
  {
    match v
    case Array(es) =>
      var before := seq(|es|, i requires 0 <= i < |es| => Leaves(es[i].1));
      var walked := seq(|es|, i requires 0 <= i < |es| => (es[i].0, Walk(es[i].1, f)));
      var after := seq(|es|, i requires 0 <= i < |es| => Leaves(walked[i].1));
      forall i | 0 <= i < |es| ensures after[i] == MapSeq(before[i], f) {
        WalkRewritesLeaves(es[i].1, f);
      }
      MapFlatten(before, f);
      assert after == seq(|before|, i requires 0 <= i < |before| => MapSeq(before[i], f));
    case _ =>
  }

  /** A second walk undoes the first when `g` undoes `f` on every leaf. */
  lemma {:induction false} WalkInverse(v: Value, f: Value -> Value, g: Value -> Value)
    requires LeafPreserving(f)
    requires forall x :: x in Leaves(v) ==> g(f(x)) == x
    ensures Walk(Walk(v, f), g) == v
  {
    match v
    case Array(es) =>
      var ls := seq(|es|, i requires 0 <= i < |es| => Leaves(es[i].1));
      forall i | 0 <= i < |es| ensures Walk(Walk(es[i].1, f), g) == es[i].1 {
        forall x | x in Leaves(es[i].1) ensures g(f(x)) == x {
          FlattenMember(ls, i, x);
        }
        WalkInverse(es[i].1, f, g);
      }
      var once := seq(|es|, i requires 0 <= i < |es| => (es[i].0, Walk(es[i].1, f)));
      var twice := seq(|once|, i requires 0 <= i < |once| => (once[i].0, Walk(once[i].1, g)));
      assert twice == es;
    case _ =>
      assert v in Leaves(v);
  }

  /**
   * convert: every domain wrapper, at any depth, becomes the driver value
   * its convert() yields; every other leaf and the whole shape stay as they were.
   */
  function Convert(data: Document): (r: Document)
    ensures ShapeOf(Array(r)) == ShapeOf(Array(data))
    ensures |Leaves(Array(r))| == |Leaves(Array(data))|
    ensures forall i :: 0 <= i < |Leaves(Array(data))| ==>
              var x := Leaves(Array(data))[i];
              Leaves(Array(r))[i] == if x.Domain? then Native(x.kind, x.payload) else x
  {
    ConvertLeafPreserving();
    WalkKeepsShape(Array(data), ConvertLeaf);
    WalkRewritesLeaves(Array(data), ConvertLeaf);
    Walk(Array(data), ConvertLeaf).entries
  }

  /**
   * unconvert: every leaf whose exact class is a registered driver class,
   * at any depth, becomes a new wrapper of the paired kind around it; every
   * other leaf (scalars, wrappers, objects of other classes) and the whole
   * shape stay as they were.
   */
  function Unconvert(data: Document): (r: Document)
    ensures ShapeOf(Array(r)) == ShapeOf(Array(data))
    ensures |Leaves(Array(r))| == |Leaves(Array(data))|
    ensures forall i :: 0 <= i < |Leaves(Array(data))| ==>
              var x := Leaves(Array(data))[i];
              Leaves(Array(r))[i] == if x.Native? then Domain(x.kind, x.payload) else x
  {
    UnconvertLeafPreserving();
    WalkKeepsShape(Array(data), UnconvertLeaf);
    WalkRewritesLeaves(Array(data), UnconvertLeaf);
    Walk(Array(data), UnconvertLeaf).entries
  }

  /** unconvert(convert(x)) == x exactly when x holds no driver value. */
  lemma ConvertThenUnconvert(data: Document)
    ensures Unconvert(Convert(data)) == data <==> forall x :: x in Leaves(Array(data)) ==> !x.Native?
  {
    var ls := Leaves(Array(data));
    if forall x :: x in ls ==> !x.Native? {
      ConvertLeafPreserving();
      WalkInverse(Array(data), ConvertLeaf, UnconvertLeaf);
    } else {
      var i :| 0 <= i < |ls| && ls[i].Native?;
      var back := Unconvert(Convert(data));
      assert Leaves(Array(back))[i] == Domain(ls[i].kind, ls[i].payload);
    }
  }

  /** convert(unconvert(y)) == y exactly when y holds no domain wrapper. */
  lemma UnconvertThenConvert(data: Document)
    ensures Convert(Unconvert(data)) == data <==> forall x :: x in Leaves(Array(data)) ==> !x.Domain?
  {
    var ls := Leaves(Array(data));
    if forall x :: x in ls ==> !x.Domain? {
      UnconvertLeafPreserving();
      WalkInverse(Array(data), UnconvertLeaf, ConvertLeaf);
    } else {
      var i :| 0 <= i < |ls| && ls[i].Domain?;
      var back := Convert(Unconvert(data));
      assert Leaves(Array(back))[i] == Native(ls[i].kind, ls[i].payload);
    }
  }
}
