# Elastic Beanstalk resource detector

This is a model of `BeanstalkResource.buildResource(String)` from the OpenTelemetry Java contrib
AWS resource providers. The method reads the JSON configuration file that the AWS Elastic Beanstalk
agent writes. It copies three of the file's keys into service attributes and adds the two cloud
attributes that identify Elastic Beanstalk. The result is an OpenTelemetry `Resource`.

The file and the Jackson streaming parser are replaced by a `ConfigFile` value. That value records
how far parsing got:

- `Missing`: there is no file at the path.
- `NotObject`: the first token does not open an object. This covers an array, a scalar and empty input.
- `Failed(consumed)`: an `IOException` hit after the fields in `consumed` had been fully read.
- `Object(fields)`: the object was read through its closing brace.

A field value is either `Str(text)`, the text of a scalar, or `Nested`, an object or array. The
`AttributesBuilder` becomes a `map<string, string>`: a later `put` of the same key replaces the
earlier one, which is what `build()` keeps. A `Resource` is that map plus an optional schema URL.
`Resource.empty()` is the empty map with no schema URL.

Files:

- `semconv.dfy`: the semantic-convention names and values, and the 1.25.0 schema URL.
- `resources.dfy`: the `Resource` value.
- `wrappers.dfy`: `Option`.
- `beanstalk_resource.dfy`: the input model, the key dispatch, the builder contents `Collected`, the
  specification `ResourceFor`, and the method `BuildResource`. `BuildResource` follows the source step
  by step: early returns, a loop that updates the attribute map, then the two constant puts. It is
  proved to return `ResourceFor(config)`.
- `beanstalk_properties.dfy`: lemmas about `Collected` and `ResourceFor`.

For a document that is not an object, the code (`BeanstalkResource.java:69`) returns a resource with
no attributes that still carries schema URL 1.25.0. That makes it different from `Resource.empty()`,
which the missing-file and failure paths return. `NotObjectKeepsSchema` states this.

## Model

| member | source | states |
|---|---|---|
| `BeanstalkResource.AttributeFor` | aws-resources/src/main/java/io/opentelemetry/contrib/aws/resource/BeanstalkResource.java:75-87 | a key is mapped to an attribute exactly when it is `deployment_id`, `version_label` or `environment_name`, and that attribute is always one of the three service attributes |
| `BeanstalkResource.Apply` | aws-resources/src/main/java/io/opentelemetry/contrib/aws/resource/BeanstalkResource.java:73-87 | one loop iteration: an unrecognised field leaves the builder unchanged; a recognised field adds exactly its attribute, holding the field's text, and leaves every other entry as it was |
| `BeanstalkResource.Collected` | aws-resources/src/main/java/io/opentelemetry/contrib/aws/resource/BeanstalkResource.java:72-88 | after the loop, the builder holds only service attributes (`service.instance.id`, `service.version`, `service.namespace`) |
| `BeanstalkResource.ResourceFor` | aws-resources/src/main/java/io/opentelemetry/contrib/aws/resource/BeanstalkResource.java:57-98 | every result's attribute names are among the five the detector knows, so it has at most five attributes |
| `BeanstalkResource.BuildResource` | aws-resources/src/main/java/io/opentelemetry/contrib/aws/resource/BeanstalkResource.java:57-98 | the imperative procedure (early returns, the field loop updating the builder map, the constant puts after it) returns exactly the resource `ResourceFor` specifies, for every outcome |
| `BeanstalkProperties.KeyMapping` | aws-resources/src/main/java/io/opentelemetry/contrib/aws/resource/BeanstalkResource.java:76-84 | `deployment_id` is stored under `service.instance.id`, `version_label` under `service.version`, `environment_name` under `service.namespace` |
| `BeanstalkProperties.AttributeForInjective` | aws-resources/src/main/java/io/opentelemetry/contrib/aws/resource/BeanstalkResource.java:75-84 | the three recognised keys map to three distinct attributes |
| `BeanstalkProperties.CollectedHas` | aws-resources/src/main/java/io/opentelemetry/contrib/aws/resource/BeanstalkResource.java:72-88 | the builder holds an attribute if and only if some field's key maps to it |
| `BeanstalkProperties.CollectedLastWins` | aws-resources/src/main/java/io/opentelemetry/contrib/aws/resource/BeanstalkResource.java:72-88 | puts happen in field order, so the builder holds the text of the last field whose key maps to the attribute |
| `BeanstalkProperties.CollectedFromSameFields` | aws-resources/src/main/java/io/opentelemetry/contrib/aws/resource/BeanstalkResource.java:75-84 | when all keys are distinct, an attribute collected from some fields is collected with the same value from any field sequence that contains those fields |
| `BeanstalkProperties.ReorderingKeepsShape` | aws-resources/src/main/java/io/opentelemetry/contrib/aws/resource/BeanstalkResource.java:72-87 | a reordering (same multiset of fields) of an object with distinct keys still has distinct keys and scalar values under recognised keys |
| `BeanstalkProperties.ReorderedFieldsCollectSame` | aws-resources/src/main/java/io/opentelemetry/contrib/aws/resource/BeanstalkResource.java:75-84 | reordering an object's fields, when all keys are distinct, leaves the builder contents unchanged; the reordering needs no separate proof that its keys are distinct |
| `BeanstalkProperties.ReorderedObjectSameResource` | aws-resources/src/main/java/io/opentelemetry/contrib/aws/resource/BeanstalkResource.java:72-97 | reordering an object's fields, when all keys are distinct, leaves the resource unchanged |
| `BeanstalkProperties.MissingFileIsEmpty` | aws-resources/src/main/java/io/opentelemetry/contrib/aws/resource/BeanstalkResource.java:58-61 | a missing file gives no attributes and no schema URL |
| `BeanstalkProperties.FailureRollsBack` | aws-resources/src/main/java/io/opentelemetry/contrib/aws/resource/BeanstalkResource.java:89-92 | an I/O or parse failure gives `Resource.empty()` whatever fields were already put into the builder (full rollback), the same result as a missing file |
| `BeanstalkProperties.NotObjectKeepsSchema` | aws-resources/src/main/java/io/opentelemetry/contrib/aws/resource/BeanstalkResource.java:67-70 | a document that is not an object gives no attributes and no cloud constants, but keeps schema URL 1.25.0, so it differs from `Resource.empty()` |
| `BeanstalkProperties.AttributesOnlyForObject` | aws-resources/src/main/java/io/opentelemetry/contrib/aws/resource/BeanstalkResource.java:57-97 | the empty-versus-populated split: the result has attributes if and only if the whole object was read, and carries a schema URL if and only if it is `Object` or `NotObject` (never for a missing file or a failure) |
| `BeanstalkProperties.ObjectHasCloudAttributes` | aws-resources/src/main/java/io/opentelemetry/contrib/aws/resource/BeanstalkResource.java:94-97 | any fully read object gives `cloud.provider = aws`, `cloud.platform = aws_elastic_beanstalk` and schema URL 1.25.0 |
| `BeanstalkProperties.ObjectServiceAttribute` | aws-resources/src/main/java/io/opentelemetry/contrib/aws/resource/BeanstalkResource.java:72-97 | in the resource for an object, a service attribute is present if and only if some field's key maps to it, with the text of the last such field; the cloud puts after the loop never overwrite it |
| `BeanstalkProperties.NoRecognisedKeyOnlyCloud` | aws-resources/src/main/java/io/opentelemetry/contrib/aws/resource/BeanstalkResource.java:85-97 | an object with no recognised key, whatever its nested values, gives exactly the two cloud attributes |
| `BeanstalkProperties.AllRecognisedKeys` | aws-resources/src/main/java/io/opentelemetry/contrib/aws/resource/BeanstalkResource.java:72-97 | an object with the three recognised keys gives exactly five attributes: the three values under their service attributes, plus the two cloud constants |
| `BeanstalkProperties.DuplicateKeyLaterWins` | aws-resources/src/main/java/io/opentelemetry/contrib/aws/resource/BeanstalkResource.java:74-78 | when `deployment_id` appears twice, `service.instance.id` holds the later value |

## Left out

- File existence and file opening (`File.exists`, `createParser`): filesystem I/O. They are the `Missing` case and the other three input variants.
- The Jackson token calls (`nextToken`, `nextValue`, `getText`, `skipChildren`, `isExpectedStartObjectToken`) belong to a foreign library. They are replaced by the field sequence and the outcome variants. How a failure arises inside the parser is not modelled; only how far parsing got is.
- A recognised key whose value is an object or array is excluded by the `RecognisedScalars` requirement. For that input the source stores the opening token's text and never skips the children, so what follows depends on the parser's internals.
- The two warning log lines (lines 68 and 90) are side effects with no machine-readable contract.
- The cached `INSTANCE` and `get()` (lines 42-54), and the fixed path `/var/elasticbeanstalk/xray/environment.conf`: JVM class initialisation returning a constant. Only `buildResource(String)` is modelled.
- The internals of the SDK's `Resource`, `Attributes` and `AttributesBuilder` are out. They are modelled as a string map plus an optional schema URL string.
