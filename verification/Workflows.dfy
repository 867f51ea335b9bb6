/** The steps of a workflow (pkg/apis/nebula.puppet.com/v1/types.go). */
module Workflows {
  import opened Trees

  /** `when` is Null for a step without a condition. */
  datatype WorkflowStep = WorkflowStep(
    name: string,
    spec: map<string, Tree>,
    env: map<string, Tree>,
    when: Tree,
    dependsOn: seq<string>)
}
