/**
 * The request and response schemas of the test-generation endpoint
 * (`TestGenContext`, `TestGenerationRequest`, `GeneratedTestCase`,
 * `TestGenerationResponse`). Field constraints become validity predicates,
 * defaults constants, and `model_validate` of the response a decoder from
 * JSON that fails as a whole when any test case is malformed.
 */
module TestGenerationModels {
  import opened Wrappers
  import opened JsonValues
  import opened Errors

  const DefaultLanguage := "en"
  const DefaultNumberOfIntents := 3

  datatype TestGenContext = TestGenContext(
    description: string,
    language: string,
    numberOfIntents: int,
    userDefinedVariables: Fields)
  {
    /** description min_length 1; language 2..16 characters; number_of_intents 1..10. */
    predicate Valid() {
      && |description| >= 1
      && 2 <= |language| <= 16
      && 1 <= numberOfIntents <= 10
    }
  }

  /** The context Pydantic builds from a payload that gives only `description`. */
  function ContextWithDefaults(description: string): (c: TestGenContext)
    ensures c.description == description && c.language == "en" && c.numberOfIntents == 3
    ensures c.userDefinedVariables == []
    ensures c.Valid() <==> description != ""
  {
    TestGenContext(description, DefaultLanguage, DefaultNumberOfIntents, [])
  }

  /** `domain` has min_length 1; `context` is required. */
  datatype TestGenerationRequest = TestGenerationRequest(domain: string, context: TestGenContext) {
    predicate Valid() {
      |domain| >= 1 && context.Valid()
    }
  }

  /** `name` and `description` are required; the rest have defaults. */
  datatype GeneratedTestCase = GeneratedTestCase(
    name: string,
    description: string,
    persona: Option<string>,
    userVariables: Fields,
    steps: seq<string>,
    expected: seq<string>)

  datatype TestGenerationResponse = TestGenerationResponse(
    domain: string,
    language: string,
    testCases: seq<GeneratedTestCase>)

  /**
   * What a response must be for the request it answers: the request's own
   * domain and language, and at least `number_of_intents` test cases (and
   * never none).
   */
  predicate AnswersTestGeneration(resp: TestGenerationResponse, req: TestGenerationRequest) {
    && resp.domain == req.domain
    && resp.language == req.context.language
    && |resp.testCases| >= req.context.numberOfIntents
    && |resp.testCases| >= 1
  }

  /** A `dict = Field(default_factory=dict)` field: absent gives the empty dict. */
  function DictOrEmpty(field: Option<Json>): (r: Option<Fields>)
    ensures field == None ==> r == Some([])
    ensures forall f :: field == Some(Obj(f)) ==> r == Some(f)
    ensures r.Some? ==> field == None || field == Some(Obj(r.value))
  {
    match field
    case None => Some([])
    case Some(Obj(f)) => Some(f)
    case Some(_) => None
  }

  /** A `list[str] = Field(default_factory=list)` field: absent gives the empty list. */
  function StrListOrEmpty(field: Option<Json>): (r: Option<seq<string>>)
    ensures field == None ==> r == Some([])
    ensures field.Some? ==>
      (r.Some? <==> field.value.Arr? && forall i :: 0 <= i < |field.value.items| ==> field.value.items[i].Str?)
    ensures r.Some? && field.Some? ==> field == Some(Arr(StrArray(r.value)))
  {
    match field
    case None => Some([])
    case Some(Arr(items)) =>
      var ss := StringsOf(items);
      if ss.Some? then
        assert StrArray(ss.value) == items;
        Some(ss.value)
      else
        None
    case Some(_) => None
  }

  /** `GeneratedTestCase.model_validate(j)`; unknown keys are ignored. */
  function TestCaseFromJson(j: Json): (r: Result<GeneratedTestCase, Error>)
    ensures r.Err? ==> r.error == SchemaInvalid
    ensures r.Ok? ==>
      && j.Obj?
      && Get(j.fields, "name") == Some(Str(r.value.name))
      && Get(j.fields, "description") == Some(Str(r.value.description))
  {
    if !j.Obj? then Err(SchemaInvalid)
    else
      var name := RequiredStr(Get(j.fields, "name"));
      var description := RequiredStr(Get(j.fields, "description"));
      var persona := OptionalStr(Get(j.fields, "persona"));
      var userVariables := DictOrEmpty(Get(j.fields, "userVariables"));
      var steps := StrListOrEmpty(Get(j.fields, "steps"));
      var expected := StrListOrEmpty(Get(j.fields, "expected"));
      if name.None? || description.None? || persona.None? || userVariables.None? || steps.None? || expected.None?
      then Err(SchemaInvalid)
      else Ok(GeneratedTestCase(name.value, description.value, persona.value, userVariables.value, steps.value, expected.value))
  }

  /**
   * A test case given with only its required `name` and `description`
   * validates, and every optional field takes its default: no persona, no
   * variables, no steps, no expectations.
   */
  lemma TestCaseDefaults(name: string, description: string)
    ensures TestCaseFromJson(Obj([("name", Str(name)), ("description", Str(description))]))
            == Ok(GeneratedTestCase(name, description, None, [], [], []))
  {
    var f := [("name", Str(name)), ("description", Str(description))];
    GetAt(f, 0);
    GetAt(f, 1);
    assert Get(f, "persona") == None;
    assert Get(f, "userVariables") == None;
    assert Get(f, "steps") == None;
    assert Get(f, "expected") == None;
  }

  /** The dict FastAPI serialises a test case to. */
  function TestCaseToJson(tc: GeneratedTestCase): Json {
    Obj([
      ("name", Str(tc.name)),
      ("description", Str(tc.description)),
      ("persona", if tc.persona.Some? then Str(tc.persona.value) else Null),
      ("userVariables", Obj(tc.userVariables)),
      ("steps", Arr(StrArray(tc.steps))),
      ("expected", Arr(StrArray(tc.expected)))])
  }

  /** Serialising a test case and validating it again gives the same test case. */
  lemma TestCaseRoundTrip(tc: GeneratedTestCase)
    ensures TestCaseFromJson(TestCaseToJson(tc)) == Ok(tc)
  {
    var f := TestCaseToJson(tc).fields;
    TestCaseRequiredFields(tc);
    TestCaseDefaultedFields(tc);
    assert RequiredStr(Get(f, "name")) == Some(tc.name);
    assert RequiredStr(Get(f, "description")) == Some(tc.description);
    assert OptionalStr(Get(f, "persona")) == Some(tc.persona);
  }

  /** The serialised test case holds its name, description and persona under their keys. */
  lemma TestCaseRequiredFields(tc: GeneratedTestCase)
    ensures var f := TestCaseToJson(tc).fields;
      && Get(f, "name") == Some(Str(tc.name))
      && Get(f, "description") == Some(Str(tc.description))
      && Get(f, "persona") == Some(if tc.persona.Some? then Str(tc.persona.value) else Null)
  {
    var f := TestCaseToJson(tc).fields;
    GetAt(f, 0);
    GetAt(f, 1);
    GetAt(f, 2);
  }

  /** The serialised test case's variables, steps and expectations read back unchanged. */
  lemma TestCaseDefaultedFields(tc: GeneratedTestCase)
    ensures var f := TestCaseToJson(tc).fields;
      && DictOrEmpty(Get(f, "userVariables")) == Some(tc.userVariables)
      && StrListOrEmpty(Get(f, "steps")) == Some(tc.steps)
      && StrListOrEmpty(Get(f, "expected")) == Some(tc.expected)
  {
    var f := TestCaseToJson(tc).fields;
    GetAt(f, 3);
    GetAt(f, 4);
    GetAt(f, 5);
    StringsOfStrArray(tc.steps);
    StringsOfStrArray(tc.expected);
  }

  /**
   * `list[GeneratedTestCase]`: every element must validate, and then the
   * list is the elements' values in order. One malformed element fails all.
   */
  function TestCasesFromJson(items: seq<Json>): (r: Result<seq<GeneratedTestCase>, Error>)
    ensures r.Ok? <==> forall i :: 0 <= i < |items| ==> TestCaseFromJson(items[i]).Ok?
    ensures r.Err? ==> r.error == SchemaInvalid
    ensures r.Ok? ==> |r.value| == |items| && forall i :: 0 <= i < |items| ==> r.value[i] == TestCaseFromJson(items[i]).value
  {
    if items == [] then Ok([])
    else
      match TestCaseFromJson(items[0])
      case Err(e) => Err(e)
      case Ok(first) =>
        match TestCasesFromJson(items[1..])
        case Err(e) => Err(e)
        case Ok(rest) =>
          Ok([first] + rest)
  }

  /** `TestGenerationResponse.model_validate(j)`; unknown keys are ignored. */
  function TestGenResponseFromJson(j: Json): (r: Result<TestGenerationResponse, Error>)
    ensures r.Err? ==> r.error == SchemaInvalid
    ensures r.Ok? ==>
      && j.Obj?
      && Get(j.fields, "domain") == Some(Str(r.value.domain))
      && Get(j.fields, "language") == Some(Str(r.value.language))
      && Get(j.fields, "testCases").Some? && Get(j.fields, "testCases").value.Arr?
      && TestCasesFromJson(Get(j.fields, "testCases").value.items) == Ok(r.value.testCases)
  {
    if !j.Obj? then Err(SchemaInvalid)
    else
      var domain := RequiredStr(Get(j.fields, "domain"));
      var language := RequiredStr(Get(j.fields, "language"));
      var cases := Get(j.fields, "testCases");
      if domain.None? || language.None? || cases.None? || !cases.value.Arr? then Err(SchemaInvalid)
      else
        var testCases :- TestCasesFromJson(cases.value.items);
        Ok(TestGenerationResponse(domain.value, language.value, testCases))
  }
}
