/** The QuarksJob custom resource: pkg/kube/apis/quarksjob/v1alpha1/types.go. */
module Types {
  datatype Option<+T> = None | Some(value: T)

  /** Nanoseconds on the operator's clock. */
  type Time = int

  /** The four trigger strategies the CRD schema admits (register.go:67-84). */
  datatype Strategy = Manual | Now | Once | Done

  /** `config` names the ConfigMaps and Secrets the pod template refers to; `template`
      stands for everything else in the spec. */
  datatype Spec = Spec(
    strategy: Strategy,
    updateOnConfigChange: bool,
    config: ConfigNames,
    template: string)

  datatype ConfigNames = ConfigNames(configMaps: set<string>, secrets: set<string>)

  datatype Status = Status(lastReconcile: Option<Time>, completed: bool)

  datatype QuarksJob = QuarksJob(version: nat, spec: Spec, status: Status) {
    predicate IsAutoErrand() {
      spec.strategy == Once || spec.strategy == Done
    }
  }
}
