/**
 * The OpenTelemetry semantic-convention names and values the Elastic Beanstalk
 * detector writes: three service attributes, two cloud attributes with their
 * fixed values, and the schema URL of semantic conventions version 1.25.0.
 */
module Semconv {
  const ServiceInstanceId: string := "service.instance.id"
  const ServiceVersion: string := "service.version"
  const ServiceNamespace: string := "service.namespace"
  const CloudProvider: string := "cloud.provider"
  const CloudPlatform: string := "cloud.platform"

  /** Value of `cloud.provider` for Amazon Web Services. */
  const Aws: string := "aws"
  /** Value of `cloud.platform` for AWS Elastic Beanstalk. */
  const AwsElasticBeanstalk: string := "aws_elastic_beanstalk"

  const SchemaUrlV1_25_0: string := "https://opentelemetry.io/schemas/1.25.0"

  /** The attributes that the configuration file's fields can set. */
  const ServiceAttributeNames: set<string> := {ServiceInstanceId, ServiceVersion, ServiceNamespace}
  /** Every attribute the detector can produce. */
  const AttributeNames: set<string> := ServiceAttributeNames + {CloudProvider, CloudPlatform}
}
