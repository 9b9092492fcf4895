/**
 * The two mirrored documents of the converter's unit tests: a record with an
 * id, a creation date, a list of parent ids and nested comments whose
 * versions carry ids and dates again, next to plain strings.
 */
module ConverterFixtures {

  import opened PhpValue
  import opened Converter

  function S(s: string): Key { StrKey(s) }

  function N(i: int): Key { IntKey(i) }

  /** The test document, with `id` and `date` in every place the tests put them. */
  function TestDocument(id: Value, date: Value): Document
  {
    [
      (S("_id"), id),
      (S("created_at"), date),
      (S("parents"), Array([(N(0), id), (N(1), id), (N(2), id)])),
      (S("comments"), Array([
        (N(0), Array([
          (S("author"), Str("Jhon")),
          (S("date"), date)
        ])),
        (N(1), Array([
          (S("author"), Str("Doe")),
          (S("date"), date),
          (S("versions"), Array([
            (N(0), Array([
              (S("_id"), id),
              (S("date"), date),
              (S("content"), Str("Awsome"))
            ])),
            (N(1), Array([
              (S("_id"), id),
              (S("date"), date),
              (S("content"), Str("Great"))
            ]))
          ]))
        ]))
      ]))
    ]
  }

  lemma WalkTwo(e0: (Key, Value), e1: (Key, Value), f: Value -> Value)
    ensures Walk(Array([e0, e1]), f) == Array([(e0.0, Walk(e0.1, f)), (e1.0, Walk(e1.1, f))])
  {
  }

  lemma WalkThree(e0: (Key, Value), e1: (Key, Value), e2: (Key, Value), f: Value -> Value)
    ensures Walk(Array([e0, e1, e2]), f)
         == Array([(e0.0, Walk(e0.1, f)), (e1.0, Walk(e1.1, f)), (e2.0, Walk(e2.1, f))])
  {
  }

  lemma WalkFour(e0: (Key, Value), e1: (Key, Value), e2: (Key, Value), e3: (Key, Value), f: Value -> Value)
    ensures Walk(Array([e0, e1, e2, e3]), f)
         == Array([(e0.0, Walk(e0.1, f)), (e1.0, Walk(e1.1, f)), (e2.0, Walk(e2.1, f)), (e3.0, Walk(e3.1, f))])
  {
  }

  /** Walking the test document rewrites its id and date and nothing else. */
  lemma WalkTestDocument(id: Value, date: Value, f: Value -> Value)
    requires !id.Array? && !date.Array?
    requires forall s :: s in {"Jhon", "Doe", "Awsome", "Great"} ==> f(Str(s)) == Str(s)
    ensures Walk(Array(TestDocument(id, date)), f) == Array(TestDocument(f(id), f(date)))
  {
    assert f(Str("Jhon")) == Str("Jhon") && f(Str("Doe")) == Str("Doe");
    assert f(Str("Awsome")) == Str("Awsome") && f(Str("Great")) == Str("Great");
    WalkThree((S("_id"), id), (S("date"), date), (S("content"), Str("Awsome")), f);
    WalkThree((S("_id"), id), (S("date"), date), (S("content"), Str("Great")), f);
    var v0 := Array([(S("_id"), id), (S("date"), date), (S("content"), Str("Awsome"))]);
    var v1 := Array([(S("_id"), id), (S("date"), date), (S("content"), Str("Great"))]);
    WalkTwo((N(0), v0), (N(1), v1), f);
    var versions := Array([(N(0), v0), (N(1), v1)]);
    var c0 := Array([(S("author"), Str("Jhon")), (S("date"), date)]);
    var c1 := Array([(S("author"), Str("Doe")), (S("date"), date), (S("versions"), versions)]);
    WalkTwo((S("author"), Str("Jhon")), (S("date"), date), f);
    WalkThree((S("author"), Str("Doe")), (S("date"), date), (S("versions"), versions), f);
    WalkTwo((N(0), c0), (N(1), c1), f);
    WalkThree((N(0), id), (N(1), id), (N(2), id), f);
    WalkFour((S("_id"), id), (S("created_at"), date),
             (S("parents"), Array([(N(0), id), (N(1), id), (N(2), id)])),
             (S("comments"), Array([(N(0), c0), (N(1), c1)])), f);
  }

  /** convert turns the wrapper document into the driver document, for any id and instant. */
  lemma ConvertTestDocument(idPayload: Payload, instant: Payload)
    ensures Convert(TestDocument(Domain(ObjectIdKind, idPayload), Domain(UtcDateTimeKind, instant)))
         == TestDocument(Native(ObjectIdKind, idPayload), Native(UtcDateTimeKind, instant))
  {
    WalkTestDocument(Domain(ObjectIdKind, idPayload), Domain(UtcDateTimeKind, instant), ConvertLeaf);
  }

  /** unconvert turns the driver document back into the wrapper document. */
  lemma UnconvertTestDocument(idPayload: Payload, instant: Payload)
    ensures Unconvert(TestDocument(Native(ObjectIdKind, idPayload), Native(UtcDateTimeKind, instant)))
         == TestDocument(Domain(ObjectIdKind, idPayload), Domain(UtcDateTimeKind, instant))
  {
    WalkTestDocument(Native(ObjectIdKind, idPayload), Native(UtcDateTimeKind, instant), UnconvertLeaf);
  }
}
