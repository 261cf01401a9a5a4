/**
 * The part of an apps/v1 Deployment the operator builds, reads and patches.
 * Pointer fields of the API object that may be unset are `Option`s.
 */
module Deployments {
  import opened Wrappers
  import opened Meta

  type Labels = map<string, string>

  /** A container environment variable; `valueFrom` stands for a reference source. */
  datatype EnvVar = EnvVar(name: string, value: string, valueFrom: Option<string>)

  datatype ContainerPort = ContainerPort(containerPort: Int32, protocol: string)

  datatype SecurityContext = SecurityContext(
    allowPrivilegeEscalation: Option<bool>,
    runAsNonRoot: Option<bool>,
    dropCapabilities: seq<string>,
    seccompProfile: Option<string>)

  datatype Container = Container(
    name: string,
    image: string,
    env: seq<EnvVar>,
    ports: seq<ContainerPort>,
    securityContext: Option<SecurityContext>)

  datatype PodTemplateSpec = PodTemplateSpec(labels: Labels, containers: seq<Container>)

  datatype DeploymentSpec = DeploymentSpec(
    replicas: Option<Int32>,
    selector: Option<Labels>,
    template: PodTemplateSpec)

  datatype DeploymentStatus = DeploymentStatus(availableReplicas: Int32)

  datatype Deployment = Deployment(meta: ObjectMeta, spec: DeploymentSpec, status: DeploymentStatus)

  /** The environment of the first container, when there is one. */
  function FirstEnv(d: Deployment): Option<seq<EnvVar>> {
    if |d.spec.template.containers| > 0 then Some(d.spec.template.containers[0].env) else None
  }
}
