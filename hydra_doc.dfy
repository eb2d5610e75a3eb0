/** The descriptor records the parser builds, as plain values: the classes `HydraClass`,
    `HydraClassProp`, `HydraClassOp` and `HydraStatus` of the hydra_python_core library,
    reduced to the fields the parser sets. */
module HydraDoc {
  import opened Wrappers

  /** A class of the API description. The library mints `id` itself; the model receives it. */
  datatype HydraClass = HydraClass(id: string, title: string, description: string, endpoint: bool)

  /** A supported property: its URI (`prop`), its title and the three access flags. */
  datatype HydraClassProp = HydraClassProp(prop: string, title: string, required: bool, read: bool, write: bool)

  /** A possible response of an operation. */
  datatype HydraStatus = HydraStatus(code: int, desc: string)

  /** A supported operation: name, HTTP method, the class ids it expects and returns (or none),
      the two header lists and the possible statuses. */
  datatype HydraClassOp = HydraClassOp(
    title: string,
    httpMethod: string,
    expectsClass: Option<string>,
    returnsClass: Option<string>,
    expectsHeader: seq<string>,
    returnsHeader: seq<string>,
    possibleStatus: seq<HydraStatus>)
}
