/**
 * The Elastic Beanstalk resource detector: it turns the configuration file the
 * Beanstalk agent writes into an OpenTelemetry resource.
 *
 * The file and the JSON parser are abstracted into a `ConfigFile` value that says
 * how far parsing got: the file is absent, its first token does not open an
 * object, reading failed after some fields had been consumed, or the whole
 * object was read.
 */
module BeanstalkResource {
  import opened Wrappers
  import opened Semconv
  import opened Resources

  /** The configuration keys the detector recognises. */
  const DeploymentId: string := "deployment_id"
  const VersionLabel: string := "version_label"
  const EnvironmentName: string := "environment_name"

  const RecognisedKeys: set<string> := {DeploymentId, VersionLabel, EnvironmentName}

  /** A field's value: the text of a scalar, or an object or array. */
  datatype Value = Str(text: string) | Nested

  /** One (name, value) pair of the top-level object, in file order. */
  datatype Field = Field(name: string, value: Value)

  /** What the parser makes of the configuration file. */
  datatype ConfigFile =
    | Missing                          // no file at the path
    | NotObject                        // the first token is not `{` (an array, a scalar, empty input)
    | Failed(consumed: seq<Field>)     // an I/O or parse error after these fields were read
    | Object(fields: seq<Field>)       // the object was read through its closing `}`

  /**
   * Recognised keys carry scalar values. (For an object or array under a
   * recognised key the source stores the opening token's text and never skips
   * the children, so what follows depends on the parser's internals.)
   */
  predicate RecognisedScalars(fields: seq<Field>) {
    forall i :: 0 <= i < |fields| && fields[i].name in RecognisedKeys ==> fields[i].value.Str?
  }

  predicate WellFormed(config: ConfigFile) {
    match config
    case Failed(consumed) => RecognisedScalars(consumed)
    case Object(fields) => RecognisedScalars(fields)
    case _ => true
  }

  /** The `switch` on the field name: the attribute a key is stored under, if any. */
  function AttributeFor(name: string): (attribute: Option<string>)
    ensures attribute.Some? <==> name in RecognisedKeys
    ensures attribute.Some? ==> attribute.value in ServiceAttributeNames
  {
    if name == DeploymentId then Some(ServiceInstanceId)
    else if name == VersionLabel then Some(ServiceVersion)
    else if name == EnvironmentName then Some(ServiceNamespace)
    else None
  }

  /** One iteration of the field loop: put a recognised field into the builder, skip any other. */
  function Apply(attributes: map<string, string>, field: Field): (r: map<string, string>)
    requires field.name in RecognisedKeys ==> field.value.Str?
    ensures field.name !in RecognisedKeys ==> r == attributes
    ensures field.name in RecognisedKeys ==>
      var a := AttributeFor(field.name).value;
      r.Keys == attributes.Keys + {a} && r[a] == field.value.text &&
      forall b :: b in attributes && b != a ==> r[b] == attributes[b]
  {
    match AttributeFor(field.name)
    case Some(a) => attributes[a := field.value.text]
    case None => attributes
  }

  /** The builder's contents after the loop has processed `fields` in order. */
  function Collected(fields: seq<Field>): (attributes: map<string, string>)
    requires RecognisedScalars(fields)
    ensures attributes.Keys <= ServiceAttributeNames
    decreases |fields|
  {
    if fields == [] then map[]
    else
      var last := |fields| - 1;
      Apply(Collected(fields[..last]), fields[last])
  }

  /** A finite set no larger than its superset. */
  lemma {:induction false} SubsetCardinality(a: set<string>, b: set<string>)
    requires a <= b
    ensures |a| <= |b|
  {
    assert b == a + (b - a);
    assert a * (b - a) == {};
  }

  /** The resource the detector builds for a configuration file. */
  function ResourceFor(config: ConfigFile): (r: Resource)
    requires WellFormed(config)
    ensures r.attributes.Keys <= AttributeNames
    ensures |r.attributes| <= 5
  {
    var r := match config
      case Missing => Empty
      case NotObject => Resource(map[], Some(SchemaUrlV1_25_0))
      case Failed(_) => Empty
      case Object(fields) =>
        Resource(Collected(fields)[CloudProvider := Aws][CloudPlatform := AwsElasticBeanstalk],
                 Some(SchemaUrlV1_25_0));
    assert |AttributeNames| == 5;
    SubsetCardinality(r.attributes.Keys, AttributeNames);
    r
  }

  /**
   * `buildResource(configPath)`: returns early for a missing file and for a
   * document that is not an object, puts each recognised field into the
   * builder in file order, throws everything away on a failure, and otherwise
   * adds the two cloud attributes after the loop.
   */
  method BuildResource(config: ConfigFile) returns (r: Resource)
    requires WellFormed(config)
    ensures r == ResourceFor(config)
  {
    if config.Missing? {
      return Empty;
    }
    var attributes: map<string, string> := map[];
    if config.NotObject? {
      return Resource(attributes, Some(SchemaUrlV1_25_0));
    }
    var fields := if config.Failed? then config.consumed else config.fields;
    var i := 0;
    while i < |fields|
      invariant 0 <= i <= |fields|
      invariant attributes == Collected(fields[..i])
    {
      var field := fields[i];
      var attribute := AttributeFor(field.name);
      if attribute.Some? {
        attributes := attributes[attribute.value := field.value.text];
      }
      assert fields[..i + 1][..i] == fields[..i];
      i := i + 1;
    }
    if config.Failed? {
      return Empty;
    }
    attributes := attributes[CloudProvider := Aws];
    attributes := attributes[CloudPlatform := AwsElasticBeanstalk];
    assert fields[..|fields|] == fields;
    return Resource(attributes, Some(SchemaUrlV1_25_0));
  }
}
