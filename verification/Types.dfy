/** Vocabulary shared by the controller, the stored status and the proxy. */
module Types {
  datatype Option<+T> = None | Some(value: T)

  type Int32 = i: int | -0x8000_0000 <= i < 0x8000_0000

  datatype ComponentType = Deployment | StatefulSet | CNPGCluster

  /** An empty namespace stands for the namespace of the SleepyService itself. */
  datatype ResourceRef = ResourceRef(name: string, namespace: string)

  datatype Component = Component(
    name: string,
    kind: ComponentType,
    ref: ResourceRef,
    replicas: Option<Int32>,
    dependsOn: seq<string>)

  /** `Unset` is the empty string of a status that nobody has written yet. */
  datatype ServiceState = Unset | Sleeping | Waking | Awake | Hibernating | Error

  datatype ComponentStatus = ComponentStatus(name: string, ready: bool)

  /** `desired` belongs to the proxy; `state` and `components` belong to the controller. */
  datatype Status = Status(desired: ServiceState, state: ServiceState, components: seq<ComponentStatus>)

  predicate AllReady(statuses: seq<ComponentStatus>) {
    forall i | 0 <= i < |statuses| :: statuses[i].ready
  }
}
