/**
 * The part of the OpenTelemetry SDK's `Resource` the detector relies on: an
 * immutable attribute map (the result of `AttributesBuilder.build()`, in which a
 * later `put` of a key replaces an earlier one) paired with an optional schema URL.
 */
module Resources {
  import opened Wrappers

  datatype Resource = Resource(attributes: map<string, string>, schemaUrl: Option<string>)

  /** `Resource.empty()`: no attributes and no schema URL. */
  const Empty: Resource := Resource(map[], None)
}
