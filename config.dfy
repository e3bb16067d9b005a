/** The configuration records read from the user's `jt.toml`. Loading and
    parsing the file is not modelled; only the shape of what it yields. */
module Config {
  import opened Results

  /** A worklog attribute as configured. For a dynamic attribute `value` is a
      JSON Pointer into the issue's fields; for a static one it is the value
      itself. */
  datatype WorkAttribute = WorkAttribute(key: string, name: string, workAttributeId: nat, value: string)

  datatype Config = Config(
    apiEndpoint: string,
    worker: string,
    reviewer: Option<string>,
    defaultTimeSpentSeconds: Option<nat>,
    staticTasks: seq<string>,
    staticAttributes: seq<WorkAttribute>,
    dynamicAttributes: seq<WorkAttribute>)
}
