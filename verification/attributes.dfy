/**
 * The attribute store every model carries: the current attributes, a copy
 * of them as last read from the database, and the two mass-assignment
 * policy lists that `fill` obeys.
 */
module Model {

  import opened Wrappers
  import opened PhpValue
  import opened PhpArray

  /** fill's rule without force: allowed by `fillable` (empty allows all) and not `guarded`. */
  predicate Fillable(key: string, fillable: seq<string>, guarded: seq<string>): (r: bool)
    ensures key in guarded ==> !r
    ensures key !in guarded ==> (r <==> |fillable| == 0 || key in fillable)
  {
    (|fillable| == 0 || key in fillable) && key !in guarded
  }

  /**
   * The attributes after fill has processed `input` from left to right,
   * starting from `attrs`: accepted pairs are assigned, rejected ones skipped.
   */
  function Filled(attrs: Assoc<Value>, input: Assoc<Value>, force: bool,
                  fillable: seq<string>, guarded: seq<string>): (r: Assoc<Value>)
    ensures Keys(attrs) <= Keys(r)
    ensures DistinctKeys(attrs) ==> DistinctKeys(r)
    decreases input
  {
    if input == [] then attrs
    else
      var (key, value) := input[0];
      var next := if force || Fillable(key, fillable, guarded) then Put(attrs, key, value) else attrs;
      Filled(next, input[1..], force, fillable, guarded)
  }

  /**
   * What fill does to one key: it holds the input's value when the input
   * has that key and the key is accepted (always, under force); otherwise
   * it keeps whatever it held before, absent included. `guarded` beats
   * `fillable`, and nothing is ever removed.
   */
  lemma {:induction false} FillEffect(attrs: Assoc<Value>, input: Assoc<Value>, force: bool,
                                      fillable: seq<string>, guarded: seq<string>, j: string)
    requires DistinctKeys(input)
    ensures Lookup(Filled(attrs, input, force, fillable, guarded), j)
         == if j in Keys(input) && (force || Fillable(j, fillable, guarded))
            then Lookup(input, j) else Lookup(attrs, j)
    decreases input
  {
    if input != [] {
      var (key, value) := input[0];
      var next := if force || Fillable(key, fillable, guarded) then Put(attrs, key, value) else attrs;
      FillEffect(next, input[1..], force, fillable, guarded, j);
      if j == key {
        LookupFound(input[1..], j);
      }
    }
  }

  /** A key in `guarded` is never written by a non-forced fill, whatever `fillable` says. */
  lemma GuardedWins(attrs: Assoc<Value>, input: Assoc<Value>,
                    fillable: seq<string>, guarded: seq<string>, j: string)
    requires DistinctKeys(input) && j in guarded
    ensures Lookup(Filled(attrs, input, false, fillable, guarded), j) == Lookup(attrs, j)
  {
    FillEffect(attrs, input, false, fillable, guarded, j);
  }

  /** ASCII upper-casing of one character. */
  function Upper(c: char): char
  {
    if 'a' <= c <= 'z' then (c as int - 32) as char else c
  }

  /** ASCII lower-casing of one character. */
  function Lower(c: char): char
  {
    if 'A' <= c <= 'Z' then (c as int + 32) as char else c
  }

  /** ASCII lower-casing of a whole string, character by character. */
  function LowerAll(s: string): string
  {
    seq(|s|, i requires 0 <= i < |s| => Lower(s[i]))
  }

  /** PHP's ucfirst: only the first character is upper-cased. */
  function UcFirst(s: string): (r: string)
    ensures |r| == |s|
    ensures s != "" ==> r[0] == Upper(s[0]) && r[1..] == s[1..]
  {
    if s == "" then "" else [Upper(s[0])] + s[1..]
  }

  /** buildMutatorMethod: the name of the accessor for `key`, e.g. getNameAttribute. */
  function BuildMutatorMethod(key: string, prefix: string): (r: string)
    ensures |r| == |prefix| + |key| + 9
    ensures r[..|prefix|] == prefix && r[|prefix| + |key|..] == "Attribute"
    ensures key != "" ==> r[|prefix|] == Upper(key[0])
    ensures forall i :: 1 <= i < |key| ==> r[|prefix| + i] == key[i]
  {
    prefix + UcFirst(key) + "Attribute"
  }

  /**
   * Two keys share a mutator name exactly when they agree after upper-casing
   * their first character: the name loses nothing else about the key.
   */
  lemma MutatorNameDeterminesKey(k1: string, k2: string, prefix: string)
    ensures BuildMutatorMethod(k1, prefix) == BuildMutatorMethod(k2, prefix)
        <==> |k1| == |k2| && (k1 == "" || (Upper(k1[0]) == Upper(k2[0]) && k1[1..] == k2[1..]))
  {
  }

  lemma BuildMutatorMethodExample()
    ensures BuildMutatorMethod("name", "get") == "getNameAttribute"
    ensures BuildMutatorMethod("Name", "set") == "setNameAttribute"
  {
  }

  /**
   * hasMutatorMethod: method_exists on the built name. `methods` holds the
   * names of the model class's methods as declared; PHP looks methods up
   * case-insensitively, so both sides are compared lower-cased. The
   * upper-cased first character of the built name therefore makes no
   * difference: the lookup depends only on the lower-cased prefix and key.
   */
  predicate HasMutatorMethod(key: string, prefix: string, methods: set<string>): (r: bool)
    ensures r <==> exists m :: m in methods && LowerAll(m) == LowerAll(prefix) + LowerAll(key) + "attribute"
    ensures BuildMutatorMethod(key, prefix) in methods ==> r
  {
    LowerUcFirst(key);
    LowerAllConcat(prefix, UcFirst(key));
    LowerAllConcat(prefix + UcFirst(key), "Attribute");
    assert LowerAll("Attribute") == "attribute";
    LowerAll(BuildMutatorMethod(key, prefix)) in (set m | m in methods :: LowerAll(m))
  }

  lemma LowerAllConcat(a: string, b: string)
    ensures LowerAll(a + b) == LowerAll(a) + LowerAll(b)
  {
  }

  /** Lower-casing forgets what ucfirst did. */
  lemma LowerUcFirst(s: string)
    ensures LowerAll(UcFirst(s)) == LowerAll(s)
  {
  }

  /** A PHP array keyed by strings, as a value. */
  function AsValue(a: Assoc<Value>): Value
  {
    Array(seq(|a|, i requires 0 <= i < |a| => (StrKey(a[i].0), a[i].1)))
  }

  class Attributes {
    var attributes: Assoc<Value>
    var original: Assoc<Value>
    const fillable: seq<string>
    const guarded: seq<string>
    var mutable: bool

    ghost predicate Valid()
      reads this
    {
      DistinctKeys(attributes) && DistinctKeys(original)
    }

    constructor (fillable: seq<string>, guarded: seq<string>)
      ensures Valid()
      ensures attributes == [] && original == []
      ensures this.fillable == fillable && this.guarded == guarded && !mutable
    {
      attributes := [];
      original := [];
      this.fillable := fillable;
      this.guarded := guarded;
      mutable := false;
    }

    /**
     * getAttribute: a stored key reads its value (even a key named
     * "attributes"); the absent key "attributes" reads the whole array;
     * any other absent key reads null.
     */
    function GetAttribute(key: string): (r: Value)
      reads this
      ensures key in Keys(attributes) ==> Lookup(attributes, key) == Some(r)
      ensures key !in Keys(attributes) ==> r == if key == "attributes" then AsValue(attributes) else Null
    {
      LookupFound(attributes, key);
      match Lookup(attributes, key)
      case Some(v) => v
      case None => if key == "attributes" then AsValue(attributes) else Null
    }

    /** getAttributes: the stored array, every key of it reading what getAttribute reads. */
    function GetAttributes(): (r: Assoc<Value>)
      reads this
      ensures Keys(r) == Keys(attributes)
      ensures forall k :: k in Keys(r) ==> Lookup(r, k) == Some(GetAttribute(k))
    {
      attributes
    }

    /** toArray: the same array as getAttributes. */
    function ToArray(): (r: Assoc<Value>)
      reads this
      ensures r == GetAttributes()
    {
      GetAttributes()
    }

    /** __isset: the key is stored and its value is not null. */
    function IsSet(key: string): (r: bool)
      reads this
      ensures r <==> key in Keys(attributes) && GetAttribute(key) != Null
    {
      LookupFound(attributes, key);
      match Lookup(attributes, key)
      case Some(v) => v != Null
      case None => false
    }

    /** setAttribute: `key` now reads `value`; no other key and not `original` changes. */
    method SetAttribute(key: string, value: Value)
      requires Valid()
      modifies this
      ensures Valid()
      ensures attributes == Put(old(attributes), key, value)
      ensures GetAttribute(key) == value
      ensures forall j :: j != key ==> Lookup(attributes, j) == Lookup(old(attributes), j)
      ensures original == old(original) && mutable == old(mutable)
    {
      attributes := Put(attributes, key, value);
      LookupFound(attributes, key);
    }

    /** cleanAttribute: `key` is gone, the rest stays in order; an absent key is a no-op. */
    method CleanAttribute(key: string)
      requires Valid()
      modifies this
      ensures Valid()
      ensures attributes == Remove(old(attributes), key)
      ensures key !in Keys(attributes)
      ensures key !in Keys(old(attributes)) ==> attributes == old(attributes)
      ensures forall j :: j != key ==> Lookup(attributes, j) == Lookup(old(attributes), j)
      ensures original == old(original) && mutable == old(mutable)
    {
      attributes := Remove(attributes, key);
      LookupFound(attributes, key);
    }

    /** __unset: the same effect as cleanAttribute. */
    method Unset(key: string)
      requires Valid()
      modifies this
      ensures Valid()
      ensures attributes == Remove(old(attributes), key)
      ensures key !in Keys(attributes)
      ensures key !in Keys(old(attributes)) ==> attributes == old(attributes)
      ensures forall j :: j != key ==> Lookup(attributes, j) == Lookup(old(attributes), j)
      ensures original == old(original) && mutable == old(mutable)
    {
      attributes := Remove(attributes, key);
      LookupFound(attributes, key);
    }

    /** syncOriginalAttributes: `original` becomes a copy of the unchanged attributes. */
    method SyncOriginalAttributes()
      requires Valid()
      modifies this
      ensures Valid()
      ensures original == attributes && attributes == old(attributes) && mutable == old(mutable)
    {
      original := attributes;
    }

    /**
     * fill: walks `input` in order and assigns each pair that force or the
     * policy lists accept; `original` is untouched.
     */
    method Fill(input: Assoc<Value>, force: bool := false)
      requires Valid()
      modifies this
      ensures Valid()
      ensures attributes == Filled(old(attributes), input, force, fillable, guarded)
      ensures original == old(original) && mutable == old(mutable)
    {
      for i := 0 to |input|
        invariant Valid()
        invariant Filled(attributes, input[i..], force, fillable, guarded)
               == Filled(old(attributes), input, force, fillable, guarded)
        invariant original == old(original) && mutable == old(mutable)
      {
        var (key, value) := input[i];
        assert input[i..][0] == input[i] && input[i..][1..] == input[i + 1..];
        if force {
          SetAttribute(key, value);
          continue;
        }
        if (|fillable| == 0 || key in fillable) && key !in guarded {
          SetAttribute(key, value);
        }
      }
      assert input[|input|..] == [];
    }

    /**
     * __get: with `mutable` set and a getter method for `key`, the getter's
     * result (`callGetter` stands for calling the named method); otherwise
     * getAttribute.
     */
    function Get(key: string, methods: set<string>, callGetter: string -> Value): (r: Value)
      reads this
      ensures !mutable ==> r == GetAttribute(key)
      ensures mutable && HasMutatorMethod(key, "get", methods) ==> r == callGetter(BuildMutatorMethod(key, "get"))
      ensures mutable && !HasMutatorMethod(key, "get", methods) ==> r == GetAttribute(key)
    {
      if mutable && HasMutatorMethod(key, "get", methods) then
        callGetter(BuildMutatorMethod(key, "get"))
      else
        GetAttribute(key)
    }

    /**
     * __set: with `mutable` set and a setter method for `key`, stores what
     * the setter returns for `value` (`callSetter` stands for calling the
     * named method); otherwise stores `value` through setAttribute.
     */
    method Set(key: string, value: Value, methods: set<string>, callSetter: (string, Value) -> Value)
      requires Valid()
      modifies this
      ensures Valid()
      ensures !old(mutable) ==> attributes == Put(old(attributes), key, value)
      ensures old(mutable) && HasMutatorMethod(key, "set", methods) ==>
                attributes == Put(old(attributes), key, callSetter(BuildMutatorMethod(key, "set"), value))
      ensures old(mutable) && !HasMutatorMethod(key, "set", methods) ==>
                attributes == Put(old(attributes), key, value)
      ensures original == old(original) && mutable == old(mutable)
    {
      var v := value;
      if mutable && HasMutatorMethod(key, "set", methods) {
        v := callSetter(BuildMutatorMethod(key, "set"), v);
      }
      SetAttribute(key, v);
    }
  }
}
