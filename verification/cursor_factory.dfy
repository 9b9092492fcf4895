/**
 * The cursor factory: picks the cursor variant from a flag and hands its
 * arguments over untouched. The cursors themselves are opaque here; each
 * is represented by the class chosen and the arguments it was built with.
 */
module CursorFactory {

  import opened PhpValue

  /** An entity schema object, known only by identity. */
  datatype Schema = Schema(id: nat)

  /** A driver collection handle, known only by identity. */
  datatype Collection = Collection(id: nat)

  /** The two live-query cursor classes; a CacheableCursor is a Cursor. */
  datatype CursorClass = PlainCursor | CacheableCursor

  /** `new $cursorClass($entitySchema, $collection, $command, $params)`. */
  datatype Cursor = Cursor(
    cls: CursorClass,
    entitySchema: Schema,
    collection: Collection,
    command: string,
    params: seq<(Key, Value)>)

  /** `new EmbeddedCursor($entityClass, $items)`. */
  datatype EmbeddedCursor = EmbeddedCursor(entityClass: string, items: seq<(Key, Value)>)

  /**
   * createCursor: a CacheableCursor exactly when `cacheable` is set (it
   * defaults to false), built from the four arguments as given. Every
   * argument and the flag can be read back from the result, so two cursors
   * are equal exactly when they were requested alike.
   */
  function CreateCursor(entitySchema: Schema, collection: Collection, command: string,
                        params: seq<(Key, Value)>, cacheable: bool := false): (r: Cursor)
    ensures r.cls == CacheableCursor <==> cacheable
    ensures r.entitySchema == entitySchema && r.collection == collection
    ensures r.command == command && r.params == params
  {
    var cursorClass := if cacheable then CacheableCursor else PlainCursor;
    Cursor(cursorClass, entitySchema, collection, command, params)
  }

  /** Leaving out the flag gives a plain Cursor. */
  lemma CreateCursorDefault(entitySchema: Schema, collection: Collection, command: string,
                            params: seq<(Key, Value)>)
    ensures CreateCursor(entitySchema, collection, command, params).cls == PlainCursor
    ensures CreateCursor(entitySchema, collection, command, params)
         == CreateCursor(entitySchema, collection, command, params, false)
  {
  }

  /**
   * createEmbeddedCursor: an EmbeddedCursor holding exactly that class and
   * those items, so equal embedded cursors come from equal arguments.
   */
  function CreateEmbeddedCursor(entityClass: string, items: seq<(Key, Value)>): (r: EmbeddedCursor)
    ensures r.entityClass == entityClass && r.items == items
  {
    EmbeddedCursor(entityClass, items)
  }
}
