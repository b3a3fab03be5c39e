/**
  The integration data model: an integration is an ordered list of named
  segments, each an ordered list of elements; a `k8s` element may own an
  ordered list of nested services. Fields the dashboard never reads
  (security principals, Kafka partitions, service configs) are omitted.
 */
module Types {
  import opened Js

  /** `ConnectionInfo` / `DestinationInfo`: where a node listens or sends. */
  datatype Endpoint = Endpoint(host: Option<string>, port: Option<int>, url: Option<string>)

  datatype KafkaConfig = KafkaConfig(maxMessageBytes: Option<int>, retentionMs: Option<int>)

  /** A nested node of a `k8s` element. `service` is its display name; the
      key may be missing from a hand-written document. */
  datatype Service = Service(
    id: Scalar,
    service: Option<string>,
    subType: Option<string>,
    dnName: Option<string>,
    connectionInfo: Option<Endpoint>,
    destinationInfo: Option<Endpoint>,
    next: Option<Scalar>)

  /** A node of the top-level flow. `elementType` is the document's `type`
      key (`kafka`, `nginx`, `geo-load-balancer`, `k8s`, ...). */
  datatype Element = Element(
    id: Scalar,
    name: Option<string>,
    elementType: Option<string>,
    connection: Option<Endpoint>,
    kafkaConfig: Option<KafkaConfig>,
    services: Option<seq<Service>>,
    next: Option<Scalar>)

  datatype Segment = Segment(segment: string, elements: seq<Element>)

  datatype Integration = Integration(name: string, description: string, segments: seq<Segment>)
}
