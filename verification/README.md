# Mongolid core, modelled in Dafny

Mongolid is an object-document mapper for PHP over the MongoDB driver. This
project models three parts of it and proves properties about them.

- **The type converter** (`Converter`, `converter.dfy`). `convert` walks a nested PHP array.
  It replaces every domain wrapper (`ObjectID`, `UTCDateTime`) with the driver value that the
  wrapper's own `convert()` yields. `unconvert` walks the other way. It wraps every value whose
  exact class is a registered driver class (`MongoDB\BSON\ObjectID`, `MongoDB\BSON\UTCDateTime`)
  in a new wrapper of the paired class. Both walks are `array_walk_recursive`, modelled once as
  `Walk`, which rewrites leaves only. The model proves these facts:
  - the shape (keys, order, nesting, lengths) is kept;
  - every leaf is rewritten in place by the callback and by nothing else;
  - the registry lookup matches exactly the two driver classes;
  - each round trip is the identity exactly when the input holds no value of the other side.

  The two documents used by the repository's unit tests are proved to map onto each other,
  for every id and every instant.
- **The attribute store** (`Model.Attributes`, `attributes.dfy`). This is a class with the
  ordered attribute array, its `original` copy, the `fillable`/`guarded` policy lists and the
  `mutable` flag. `setAttribute`, `cleanAttribute`, `__unset`, `syncOriginalAttributes`, `fill`
  and `__set` are methods that change it. `getAttribute`, `getAttributes`, `toArray`, `__isset`
  and `__get` are functions that read it. `fill` is a loop, proved against the function
  `Filled`. The lemma `FillEffect` then says, key by key, what the mass-assignment rule does.
- **The cursor factory** (`CursorFactory`, `cursor_factory.dfy`). Cursors are opaque values
  that carry their class and their constructor arguments.

Supporting modules:
- `PhpValue` (`php_value.dfy`) holds the PHP values involved: scalars, the two wrapper kinds,
  the two driver kinds, objects of any other class, and nested ordered arrays.
- `PhpArray` (`php_array.dfy`) holds string-keyed PHP arrays as ordered association lists.
  It covers lookup, `$a[$k] = $v` (in place or appended) and `unset`.
  The attribute store uses this string-keyed form, because attribute names are strings and
  it needs lookup and update. The converter and the cursor factory only carry arrays through
  or rebuild them entry by entry, and their arrays may have integer keys too (lists). So they
  use the `Value` form from `PhpValue`, whose keys may be integers or strings; `AsValue`
  turns the first form into the second.
- `Wrappers` (`wrappers.dfy`) holds `Option`, which stands for PHP's `false`/`null` "not found".

A PHP array is passed by value, so `convert` and `unconvert` do not change the caller's array
unless it holds PHP references. The model has no references: Dafny sequences and datatypes are
values, and each walk returns a rewritten copy.

Where the documentation and the code disagree, the model follows the code: the doc comment
on `$mutable` says it defaults to true, but the code sets it to false (`Attributes.php:53`).

Other modelling choices, taken from the code:
- PHP arrays keep insertion order (`$a[$k] = $v` appends a new key, `Attributes.php:127`), so
  attributes are ordered association lists;
- the type registry is a literal in the constructor (`Converter.php:25-28`);
  `MappedTypesIsBijection` proves it one-to-one.

The constructor always installs the same two registry pairs, and nothing in the core writes
`$mappedTypes` again. So the registry is the module constant `MappedTypes` and not a per-object
field.

## Model

| member | source | states |
|---|---|---|
| `Converter.MappedTypesIsBijection` | src/Mongolid/Serializer/Type/Converter.php:25-28 | the registry has exactly two pairs, each kind's wrapper class paired with its driver class; no wrapper class and no driver class appears twice, so the reverse lookup is a function |
| `Converter.ArraySearch` | src/Mongolid/Serializer/Type/Converter.php:73 | array_search yields false exactly when no entry holds the needle; otherwise the key of the first entry that holds it |
| `Converter.GetReflectionClass` | src/Mongolid/Serializer/Type/Converter.php:67-74 | a class is found exactly for driver values, and it is the wrapper class of the same kind; non-objects, wrappers and objects of any other class (a subclass included) get false |
| `Converter.NewDomainObject` | src/Mongolid/Serializer/Type/Converter.php:53 | `new $className($value)` gives a wrapper whose exact class is the one named, around the driver value's payload |
| `Converter.WrapperConvert` | src/Mongolid/Serializer/Type/Converter.php:38 | a wrapper's convert() gives a driver value of the paired class with the same payload, and the registry lookup maps that value back to the wrapper's class |
| `Converter.ConvertLeaf` | src/Mongolid/Serializer/Type/Converter.php:36-40 | after convert's callback no leaf is a domain wrapper: a wrapper becomes the driver value of its paired class with the same payload, and any other leaf is left as it was |
| `Converter.UnconvertLeaf` | src/Mongolid/Serializer/Type/Converter.php:50-55 | after unconvert's callback no leaf is a driver value: a driver value becomes a wrapper of its paired class with the same payload, and any other leaf is left as it was |
| `PhpValue.IsObject` | src/Mongolid/Serializer/Type/Converter.php:69 | is_object holds exactly for objects: null, booleans, integers, strings and arrays are not objects |
| `PhpValue.ClassOf` | src/Mongolid/Serializer/Type/Converter.php:73 | get_class gives one of the four registered class names exactly for wrappers and driver values, and an object of any other class its own class name |
| `Converter.Walk` | src/Mongolid/Serializer/Type/Converter.php:36 | array_walk_recursive hands a non-array value to the callback; on an array the result is again an array of the same length with the same keys in the same order (what becomes of the nested values is stated by `WalkKeepsShape` and `WalkRewritesLeaves`) |
| `Converter.WalkKeepsShape` | src/Mongolid/Serializer/Type/Converter.php:36-40 | a recursive walk whose callback never makes an array keeps every key, its order, the nesting and every array length |
| `Converter.WalkRewritesLeaves` | src/Mongolid/Serializer/Type/Converter.php:36-40 | the walk's leaves, in visiting order, are the callback applied to the original leaves at the same positions |
| `Converter.WalkInverse` | src/Mongolid/Serializer/Type/Converter.php:34-58 | walking with `g` after walking with `f` gives back the input when `g` undoes `f` on each of its leaves |
| `Converter.Convert` | src/Mongolid/Serializer/Type/Converter.php:34-43 | convert keeps the shape; each leaf that is a domain wrapper, at any depth, becomes the driver value of the same kind and payload; every other leaf (scalars, driver values, other objects) is unchanged; nothing is refused |
| `Converter.Unconvert` | src/Mongolid/Serializer/Type/Converter.php:48-58 | unconvert keeps the shape; each leaf of a registered driver class, at any depth, becomes a new wrapper of the paired kind around the same payload; every other leaf is unchanged; nothing is refused |
| `Converter.ConvertThenUnconvert` | src/Mongolid/Serializer/Type/Converter.php:34-58 | unconvert(convert(x)) == x if and only if x holds no driver value |
| `Converter.UnconvertThenConvert` | src/Mongolid/Serializer/Type/Converter.php:34-58 | convert(unconvert(y)) == y if and only if y holds no domain wrapper |
| `ConverterFixtures.ConvertTestDocument` | tests/Mongolid/Serializer/Type/ConverterTest.php:42-107 | convert maps the test's wrapper document (ids and dates nested in lists and comments, next to the strings 'Jhon', 'Doe', 'Awsome', 'Great') to the driver document, for every id and instant |
| `ConverterFixtures.UnconvertTestDocument` | tests/Mongolid/Serializer/Type/ConverterTest.php:109-174 | unconvert maps the test's driver document back to the wrapper document, for every id and instant |
| `PhpArray.Lookup` | src/Mongolid/Model/Attributes.php:64-67 | reading a key gives nothing exactly when no entry has that key; otherwise the value of the first entry with that key |
| `PhpArray.LookupFound` | src/Mongolid/Model/Attributes.php:64 | array_key_exists holds exactly for the array's keys |
| `PhpArray.Put` | src/Mongolid/Model/Attributes.php:127 | after `$a[$k] = $v`, `k` reads `v` and every other key reads as before; a present key keeps its place and a new one goes last; keys stay distinct |
| `PhpArray.Remove` | src/Mongolid/Model/Attributes.php:114 | unset of an absent key changes nothing; afterwards the key is gone (keys being distinct) and every other key reads as before |
| `PhpArray.RemoveDropsOneEntry` | src/Mongolid/Model/Attributes.php:234-237 | unset of a present key drops exactly one entry, the one at that key's position, and keeps the others in order |
| `Model.Filled` | src/Mongolid/Model/Attributes.php:91-103 | fill never removes a key: the old keys, in their order, are a prefix of the new ones; keys stay distinct |
| `Model.FillEffect` | src/Mongolid/Model/Attributes.php:91-103 | after fill, a key holds the input's value exactly when the input has it and it is accepted (always under force; otherwise when fillable is empty or lists it and guarded does not); every other key keeps its previous value or absence |
| `Model.GuardedWins` | src/Mongolid/Model/Attributes.php:99 | a non-forced fill never writes a guarded key, even when fillable lists it |
| `Model.Fillable` | src/Mongolid/Model/Attributes.php:99 | without force, a guarded key is refused even when fillable lists it; any other key is accepted exactly when fillable is empty or lists it |
| `Model.UcFirst` | src/Mongolid/Model/Attributes.php:169 | ucfirst keeps the length, upper-cases the first character and leaves every other character as it was |
| `Model.BuildMutatorMethod` | src/Mongolid/Model/Attributes.php:167-170 | the name is the prefix, then the key with only its first character upper-cased, then "Attribute" |
| `Model.HasMutatorMethod` | src/Mongolid/Model/Attributes.php:152-157 | the mutator exists exactly when some method of the class, lower-cased, equals the lower-cased prefix, the lower-cased key and "attribute", since PHP method lookup ignores case; in particular a method with exactly the built name is found |
| `Model.MutatorNameDeterminesKey` | src/Mongolid/Model/Attributes.php:167-170 | two keys give the same mutator name exactly when they have the same length and agree once their first character is upper-cased, so ucfirst touches only the first character |
| `Model.BuildMutatorMethodExample` | src/Mongolid/Model/Attributes.php:167-170 | "name" with prefix "get" gives "getNameAttribute"; "Name" with "set" gives "setNameAttribute" |
| `Model.Attributes.constructor` | src/Mongolid/Model/Attributes.php:15-53 | a new store has no attributes, an empty original, the given policy lists and `mutable` false |
| `Model.Attributes.GetAttribute` | src/Mongolid/Model/Attributes.php:62-71 | a stored key reads its stored value, even a key named "attributes"; the absent key "attributes" reads the whole array; any other absent key reads null |
| `Model.Attributes.GetAttributes` | src/Mongolid/Model/Attributes.php:78-81 | the result has the stored keys in their order, and each reads what getAttribute reads |
| `Model.Attributes.ToArray` | src/Mongolid/Model/Attributes.php:177-180 | toArray is getAttributes |
| `Model.Attributes.IsSet` | src/Mongolid/Model/Attributes.php:222-225 | true exactly when the key is stored with a non-null value |
| `Model.Attributes.SetAttribute` | src/Mongolid/Model/Attributes.php:125-128 | afterwards getAttribute(key) is the value; no other key, not `original` and not `mutable` changes |
| `Model.Attributes.CleanAttribute` | src/Mongolid/Model/Attributes.php:112-115 | the key is gone; every other key reads as before; an absent key changes nothing; `original` is untouched |
| `Model.Attributes.Unset` | src/Mongolid/Model/Attributes.php:234-237 | the same effect as cleanAttribute |
| `Model.Attributes.SyncOriginalAttributes` | src/Mongolid/Model/Attributes.php:139-142 | `original` becomes a copy of the attributes, which do not change |
| `Model.Attributes.Fill` | src/Mongolid/Model/Attributes.php:91-103 | the loop leaves exactly `Filled(old attributes, input, force, fillable, guarded)`; `original` is untouched; force defaults to false |
| `Model.Attributes.Get` | src/Mongolid/Model/Attributes.php:189-196 | with `mutable` false, __get is getAttribute; with it true, a getter method found case-insensitively under the built name decides the result |
| `Model.Attributes.Set` | src/Mongolid/Model/Attributes.php:206-213 | with `mutable` false, __set is setAttribute; with it true and a setter method found, the setter's result is stored instead of the value |
| `CursorFactory.CreateCursor` | src/Mongolid/Cursor/CursorFactory.php:23-33 | the result is a CacheableCursor exactly when the flag is set; schema, collection, command and params are passed on unchanged |
| `CursorFactory.CreateCursorDefault` | src/Mongolid/Cursor/CursorFactory.php:28 | leaving out the flag gives a plain Cursor |
| `CursorFactory.CreateEmbeddedCursor` | src/Mongolid/Cursor/CursorFactory.php:43-46 | the embedded cursor holds exactly the given entity class and item array |

## Left out

- Cursor internals: `Cursor`, `CacheableCursor`, `EmbeddedCursor` and `Schema` are not part of this model. Their iteration, counting, memoization and rewind behaviour is not modelled. A cursor is only its class and its constructor arguments.
- MongoDB driver types: `MongoDB\Collection` is an opaque identity. The driver's ObjectID and UTCDateTime are a kind plus an abstract payload.
- Domain wrapper internals: `ObjectID` and `UTCDateTime` are not part of this model. A wrapper's `convert()` is taken to give the driver value of the same kind and payload. The seconds-to-milliseconds scaling inside `UTCDateTime` is not modelled.
- Converter.Convert: treats only the two registered wrappers as `SerializableTypeInterface` instances. Other classes implementing that interface, and subclasses of the wrappers, whose `convert()` is code outside this model, are not represented.
- Scalars are null, booleans, integers and strings. Floats and resources are not represented; they would pass through both walks like any other scalar.
- PHP's key coercion is not modelled: a numeric string key turning into an integer key, and integer keys in `fill`'s input or the attribute array. Attribute keys are strings.
- Model.FillEffect: `in_array` is taken as exact string membership. PHP's loose comparison makes numeric-looking strings such as "10" and "1e1" equal there.
- Converter.ArraySearch: compares class names exactly. PHP's loose comparison would differ only for numeric-looking strings, and class names never are.
- Model.Attributes.Set: a mutator method is modelled by its return value alone. Side effects it could have on the model are not captured.
- Model.Attributes.Get: the getter's result is a parameter (calling the named method), so what a particular getter computes is not modelled.
- Model.UcFirst: upper-cases ASCII letters only, as `ucfirst` does in PHP 8.2+ or in any version under the default C locale. Locale-dependent upper-casing is not modelled. This carries over to `BuildMutatorMethod`, `HasMutatorMethod` and `MutatorNameDeterminesKey`.
- References inside the converted array are not modelled: `array_walk_recursive` writes through them (Converter.php:36, :50), so a referenced slot of the caller changes too.
