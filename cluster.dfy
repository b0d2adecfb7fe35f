/** The data the pipeline commands handle and the collaborators they call.
    The cluster client, the terminal prompts and the JSON/YAML codec are not
    modelled in detail: each is an oracle that answers a call with a value or
    an error. Every client call and every prompt is logged as an `Event`
    together with the reply it received, so that properties of the commands
    can be stated over the sequence of calls they make. */
module Cluster {

  datatype Option<T> = None | Some(value: T)

  /** An error as the commands surface it. */
  datatype Error =
    | Failure(message: string)         // returned by the client, a prompt or the codec and passed on unchanged
    | NoNamespaceFound                 // no namespace carries the DevOps-project label
    | CannotGetPipeline(cause: Error)  // a failed get, wrapped by view and edit

  datatype Result<T> = Ok(value: T) | Err(error: Error)

  /** The label selector that marks namespaces hosting pipelines. */
  const NamespaceLabel: string := "kubesphere.io/devopsproject"

  const NoNamespaceMessage: string := "no pipeline namespace found in this cluster"
  const GetFailurePrefix: string := "cannot get pipeline, error: "

  /** The text of an error. The cause of a failed get is rendered by Go's `%#v`,
      which is not modelled; the cause's own message stands in for it. */
  function Message(e: Error): string {
    match e
    case Failure(m) => m
    case NoNamespaceFound => NoNamespaceMessage
    case CannotGetPipeline(cause) => GetFailurePrefix + Message(cause)
  }

  /** A schema-less document, as the dynamic client returns it. */
  datatype Value =
    | Null
    | Bool(b: bool)
    | Number(n: int)
    | Str(s: string)
    | Array(elems: seq<Value>)
    | Object(fields: map<string, Value>)

  /** One resource instance: the top-level JSON object. */
  datatype Unstructured = Unstructured(content: map<string, Value>)

  /** The `metadata.name` of an instance, or "" when it is missing or not a string. */
  function GetName(u: Unstructured): string {
    if "metadata" in u.content && u.content["metadata"].Object?
       && "name" in u.content["metadata"].fields && u.content["metadata"].fields["name"].Str?
    then u.content["metadata"].fields["name"].s
    else ""
  }

  /** The names of listed items, one per item and in listing order. */
  function Names(items: seq<Unstructured>): (names: seq<string>)
    ensures |names| == |items|
    ensures forall i :: 0 <= i < |items| ==> names[i] == GetName(items[i])
  {
    if items == [] then [] else [GetName(items[0])] + Names(items[1..])
  }

  /** A call to a collaborator, with the reply it received, or a line of output. */
  datatype Event =
    | NamespaceList(selector: string, listed: Result<seq<Unstructured>>)
    | PipelineList(ns: string, listed: Result<seq<Unstructured>>)
    | SelectPrompt(options: seq<string>, chosen: Result<string>)
    | MultiSelectPrompt(options: seq<string>, picked: Result<seq<string>>)
    | GetCall(ns: string, name: string, fetched: Result<Unstructured>)
    | EditorPrompt(ns: string, name: string, initial: string, edited: Result<string>)
    | UpdateCall(ns: string, obj: Unstructured, updated: Result<Unstructured>)
    | DeleteCall(ns: string, name: string, failed: Option<Error>)
    | Output(text: string)   // one line printed to the terminal, without its newline

  /** The cluster client and the prompt provider. Each answer may depend on
      everything that happened before the call (the history). */
  datatype Env = Env(
    listNamespaces: (seq<Event>, string) -> Result<seq<Unstructured>>,
    listPipelines: (seq<Event>, string) -> Result<seq<Unstructured>>,
    select: (seq<Event>, seq<string>) -> Result<string>,
    multiSelect: (seq<Event>, seq<string>) -> Result<seq<string>>,
    get: (seq<Event>, string, string) -> Result<Unstructured>,
    editor: (seq<Event>, string, string) -> Result<string>,
    update: (seq<Event>, string, Unstructured) -> Result<Unstructured>,
    delete: (seq<Event>, string, string) -> Option<Error>)

  /** The JSON encoder (4-space indent), the JSON-to-YAML converter and the
      YAML decoder, as opaque functions that may fail. */
  datatype Codec = Codec(
    encodeJson: Unstructured -> Result<string>,
    jsonToYaml: string -> Result<string>,
    decodeYaml: (string, Unstructured) -> Result<Unstructured>)

  /** A call on one named pipeline, as read back from the log: its namespace,
      its name and the detail that matters for the call. */
  datatype Attempt<D> = Attempt(ns: string, name: string, detail: D)

  function AsGet(e: Event): Option<Attempt<Result<Unstructured>>> {
    if e.GetCall? then Some(Attempt(e.ns, e.name, e.fetched)) else None
  }

  function AsDelete(e: Event): Option<Attempt<Option<Error>>> {
    if e.DeleteCall? then Some(Attempt(e.ns, e.name, e.failed)) else None
  }

  /** An editor prompt, with the text it was seeded with. */
  function AsEditor(e: Event): Option<Attempt<string>> {
    if e.EditorPrompt? then Some(Attempt(e.ns, e.name, e.initial)) else None
  }

  function AsOutput(e: Event): Option<string> {
    if e.Output? then Some(e.text) else None
  }

  function AsSelect(e: Event): Option<seq<string>> {
    if e.SelectPrompt? then Some(e.options) else None
  }

  function AsMultiSelect(e: Event): Option<seq<string>> {
    if e.MultiSelectPrompt? then Some(e.options) else None
  }

  /** The names an attempt sequence was made on, in order. */
  function Targets<D>(attempts: seq<Attempt<D>>): (names: seq<string>)
    ensures |names| == |attempts|
    ensures forall i :: 0 <= i < |attempts| ==> names[i] == attempts[i].name
  {
    if attempts == [] then [] else [attempts[0].name] + Targets(attempts[1..])
  }

  /** What `pick` finds in the events of `log`, in order. */
  function Collect<T>(log: seq<Event>, pick: Event -> Option<T>): (r: seq<T>)
    ensures |r| <= |log|
  {
    if log == [] then []
    else (if pick(log[0]).Some? then [pick(log[0]).value] else []) + Collect(log[1..], pick)
  }

  lemma {:induction false} CollectConcat<T>(a: seq<Event>, b: seq<Event>, pick: Event -> Option<T>)
    ensures Collect(a + b, pick) == Collect(a, pick) + Collect(b, pick)
  {
    if a == [] {
      assert a + b == b;
    } else {
      var head := if pick(a[0]).Some? then [pick(a[0]).value] else [];
      assert a + b == [a[0]] + (a[1..] + b);
      assert Collect(a + b, pick) == head + Collect(a[1..] + b, pick);
      CollectConcat(a[1..], b, pick);
      assert head + (Collect(a[1..], pick) + Collect(b, pick)) == (head + Collect(a[1..], pick)) + Collect(b, pick);
    }
  }
}
