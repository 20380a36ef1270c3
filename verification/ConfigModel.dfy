/** The desired-state documents of internal/config/model.go, with related fields grouped. */
module ConfigModel {
  datatype Host = Host(
    name: string, transport: string, address: string, user: string, port: int,
    jumpAddress: string, jumpUser: string, jumpPort: int, proxyCommand: string,
    capabilities: seq<string>, labels: map<string, string>, roles: seq<string>, topology: map<string, string>)

  datatype Links = Links(
    dependsOn: seq<string>, require: seq<string>, before: seq<string>,
    notify: seq<string>, subscribe: seq<string>, notifyHandlers: seq<string>)

  datatype FileSpec = FileSpec(
    path: string, content: string, mode: string, checksum: string, signature: string, signingKey: string)

  datatype CommandSpec = CommandSpec(
    command: string, creates: string, onlyIf: string, unless: string, refreshOnly: bool, refreshCommand: string,
    become: bool, becomeUser: string, rescueCommand: string, alwaysCommand: string, retries: int,
    retryDelaySeconds: int, retryBackoff: string, retryJitterSeconds: int, untilContains: string)

  datatype RegistrySpec = RegistrySpec(key: string, value: string, valueType: string)

  datatype TaskSpec = TaskSpec(name: string, schedule: string, command: string)

  datatype Resource = Resource(
    id: string, kind: string, host: string, delegateTo: string, links: Links, when: string,
    matrix: map<string, seq<string>>, loop: seq<string>, loopVar: string, tags: seq<string>,
    file: FileSpec, command: CommandSpec, registry: RegistrySpec, task: TaskSpec)

  datatype Execution = Execution(
    strategy: string, serial: int, failureDomain: string, maxFailPercentage: int, anyErrorsFatal: bool)

  datatype Config = Config(
    version: string, hosts: seq<Host>, execution: Execution, resources: seq<Resource>, handlers: seq<Resource>)

  /** A parsed file: what it pulls in, and its own content. */
  datatype RawConfig = RawConfig(includes: seq<string>, imports: seq<string>, overlays: seq<string>, body: Config)

  const EMPTY_CONFIG := Config("", [], Execution("", 0, "", 0, false), [], [])

  function HostName(h: Host): string { h.name }

  function ResourceId(r: Resource): string { r.id }
}
