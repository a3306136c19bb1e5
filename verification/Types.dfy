/** The records that travel between the parts of the harness (pkg/tc39/discover.go, pkg/tc39/worker.go,
    pkg/tc39/modulegraph.go). */
module Types {
  datatype Option<+T> = None | Some(value: T)

  type JobId = string

  datatype StagedModule = StagedModule(name: string, source: string)

  /** One execution of one case in one mode. */
  datatype Job = Job(id: JobId, name: string, source: string, entryName: string, modules: seq<StagedModule>,
                     async: bool, negType: string, negPhase: string)

  /** One job's outcome. `tailKey` is empty unless the job got as far as emitted Go. */
  datatype Result = Result(id: JobId, status: string, error: string, tailKey: string)
}
