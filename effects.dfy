/** What the module does to the outside world: notifications handed to the push
    endpoint, and the branch that answered on the module's query window. */
module Effects {

  /** One `curl -s -d body url` call. */
  datatype Push = Push(url: string, body: string)

  /** One `PutModule` line, recorded by which branch wrote it (not its wording). */
  datatype Reply =
    | Added(raw: string, regex: string)
    | InvalidRegex
    | AlreadyExists(raw: string)
    | Removed(raw: string)
    | NotFound(raw: string)
    | ListHeader
    | ListEntry(raw: string, regex: string)
    | NoKeywords
    | CurrentTopic(topic: string)
    | CurrentServer(server: string)
    | TopicSet(topic: string)
    | ServerSet(server: string)
    | TestSent
    | Usage
    | InvalidStoredRegex(pattern: string)
}
