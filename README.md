# Pipeline commands of the kubectl plugin

This project models the logic of the `pipeline` commands of a kubectl plugin
for DevOps pipelines. It covers two parts.

- **Target resolution.** The positional arguments become a namespace and a
  list of pipeline names.
  - Two or more arguments are taken as they are.
  - One argument names the namespace, and its pipelines are listed.
  - With no argument, the namespaces labelled `kubesphere.io/devopsproject`
    are listed and the operator picks one. The command fails when there is
    none.
  - The `view`, `delete` and `edit` commands then show a multi-select prompt
    over the candidate names.
- **Per-name loops.** Each command walks the chosen names in order with one
  error variable.
  - `view` fetches, renders and prints each pipeline.
  - `delete` prints each name and deletes it.
  - `edit` announces, fetches and renders each pipeline, opens an editor on
    its YAML, decodes the result over the fetched object and updates it.

## How the model is built

The cluster client, the prompts and the JSON/YAML codec are oracles:

- `Cluster.Env` and `Cluster.Codec` hold total functions.
- Each client call and each prompt receives the history of everything that
  happened before it. A reply may therefore depend on earlier calls, such as
  a delete followed by a get.
- Every client call and every prompt is logged as a `Cluster.Event` with the
  reply it received. The codec's calls are not logged.
- Every printed line is logged as an `Output` event.

Properties are stated over this log. `Cluster.Collect` reads back one kind of
call from a log, for example every get or every delete.

The model has two layers:

- `Resolve` and `Commands` define what each step computes, as functions:
  `NamespaceNames`, `ChooseNamespace`, `ResolveTargets`, `ConfirmTargets`,
  the one-name steps `ViewOne`, `DeleteOne` and `EditOne`, the shared `Loop`,
  and `Command`.
- Methods mirror the Go functions with their own loops:
  - `GetAllNamespace` fills a slice by index.
  - `GetPipelines` appends.
  - The command loops return early or `break`, as the source does.
  - Each resolution method and each command method is proved to produce the
    same value and the same log as its function.
  - The root command (`PrintNames`, `ListCommand`) has no function of its own:
    its contract states the printed lines directly.

### Behaviour of the code worth knowing

- **Multi-select with given names.** `getPipelinesWithConfirm` shows the
  multi-select prompt whenever resolution succeeded, also when the names were
  given as arguments (`kubectl-plugin/pipeline.go:165-169`). Only the root
  command, which calls `getPipelines` directly, skips it.
- **Edit does not fail fast.** It returns on a failed get, encode or
  conversion. A failed decode or update only sets the error variable, and
  the next name's get overwrites it. The command therefore returns the
  outcome of the last name (`Commands.EditOutcomeIsLastName`).
- **Editor error is dropped.** The editor prompt's error is assigned at
  `kubectl-plugin/pipeline.go:146` and overwritten at `:148`. A cancelled
  edit therefore decodes and sends the unchanged YAML (`Commands.EditOne`).
- **Resolution errors are not wrapped.** A failed pipeline listing is
  returned as the client reported it (`kubectl-plugin/pipeline.go:185-190`).
  `getAllNamespace` drops the error of a failed namespace listing and
  returns no names (`kubectl-plugin/pipeline.go:215-226`), so the command
  then fails with "no pipeline namespace found in this cluster".

## Model

| member | source | states |
|---|---|---|
| Cluster.Names | kubectl-plugin/pipeline.go:187-189 | one name per listed item, the i-th name being `metadata.name` of the i-th item |
| Resolve.NamespaceNames | kubectl-plugin/pipeline.go:215-226 | one namespace listing by the DevOps-project label; a failed listing yields no names, a successful one exactly one name per item in order |
| Resolve.GetAllNamespace | kubectl-plugin/pipeline.go:215-226 | filling the slice by index gives exactly `NamespaceNames` and the same single call |
| Resolve.ChooseNamespace | kubectl-plugin/pipeline.go:194-213 | a given first argument is the namespace with no call; otherwise no labelled namespace means `NoNamespaceFound` with the namespace listing as the only call, and some means a select prompt over exactly them whose answer or error is the result |
| Resolve.GetNamespace | kubectl-plugin/pipeline.go:194-213 | the step-by-step version yields exactly `ChooseNamespace`'s result and log |
| Resolve.ResolveTargets | kubectl-plugin/pipeline.go:173-192 | two or more arguments give `(args[0], args[1..])` with no call at all; otherwise the namespace is listed once, a listing error is returned as is, and on success the names are the items' names in listing order with the same count |
| Resolve.GetPipelines | kubectl-plugin/pipeline.go:173-192 | the append loop yields exactly `ResolveTargets`'s result and log |
| Resolve.ResolutionNeverMultiSelects | kubectl-plugin/pipeline.go:173-213 | resolution never shows the multi-select prompt |
| Resolve.ConfirmTargets | kubectl-plugin/pipeline.go:159-171 | a resolution error is returned with no multi-select prompt; otherwise the prompt is shown over every candidate, also when the names were given as arguments, and its choice or its error is the result |
| Resolve.GetPipelinesWithConfirm | kubectl-plugin/pipeline.go:159-171 | the step-by-step version yields exactly `ConfirmTargets`'s result and log |
| Commands.Render | kubectl-plugin/pipeline.go:56-71 | rendering succeeds exactly when both the JSON encoding and the YAML conversion succeed |
| Commands.ViewOne | kubectl-plugin/pipeline.go:57-73 | one get of the name; a failed get is returned wrapped as "cannot get pipeline" after that get alone; a failed encoding or conversion is returned with its own error after that get alone; otherwise the YAML is printed and the loop goes on with no error |
| Commands.DeleteOne | kubectl-plugin/pipeline.go:92-95 | the name is printed before its single delete call, and the turn ends the loop exactly when that delete failed, with its error |
| Commands.EditOne | kubectl-plugin/pipeline.go:118-150 | banner, get, editor seeded with the YAML, decode over the fetched object, update; only a failed get (wrapped) or a failed encoding or conversion (its own error) ends the loop, after the banner and the get; the editor's error is dropped and the YAML decoded instead; a decode failure sets the error with no update; otherwise one update of the decoded object, whose reply sets the error |
| Commands.LoopAppend | kubectl-plugin/pipeline.go:53-151 | running a loop over `xs + ys` is running it over `xs` and then, unless that returned, over `ys` from the history and error variable `xs` left |
| Commands.StopIsFinal | kubectl-plugin/pipeline.go:53-151 | once a loop has returned on some name, later names change neither its outcome nor its calls |
| Commands.EditOutcomeIsLastName | kubectl-plugin/pipeline.go:114-151 | an edit loop that has not returned goes on to the next name, and what it then returns is that last name's outcome alone |
| Commands.DeleteOneLog | kubectl-plugin/pipeline.go:92-93 | one delete turn makes exactly one delete call, on its name in the namespace, and prints exactly its name |
| Commands.DeletesFollowNames | kubectl-plugin/pipeline.go:91-96 | the delete calls are for a prefix of the names, in order, one per name and all in the resolved namespace, and the printed lines are exactly the names of that prefix |
| Commands.DeleteStopsAtFailure | kubectl-plugin/pipeline.go:91-96 | every delete but the last succeeded, and a loop that returned did so on a failed last delete, with that delete's error |
| Commands.DeleteCompletes | kubectl-plugin/pipeline.go:91-96 | a delete loop that ran to the end made one successful delete per name and ends with no error |
| Commands.ViewOneLog | kubectl-plugin/pipeline.go:57-73 | one view turn makes one get of its name, and prints the rendered YAML exactly when it did not return |
| Commands.EditOneLog | kubectl-plugin/pipeline.go:118-146 | one edit turn makes one get of its name, and opens the editor on the rendered YAML exactly when it did not return |
| Commands.StepGet | kubectl-plugin/pipeline.go:57-66 | a view or edit turn returns exactly when its get or the rendering of what it fetched failed, and a failed get is returned wrapped |
| Commands.GetsFollowNames | kubectl-plugin/pipeline.go:53-57 | view and edit fetch a prefix of the names, in order, one get per name, all in the resolved namespace, and every name when the loop did not return |
| Commands.FailedGetIsReturned | kubectl-plugin/pipeline.go:57-66 | every get but the last succeeded, so no name after a failed get is fetched, and a failed get is the loop's result, wrapped |
| Commands.ViewPrintsRendered | kubectl-plugin/pipeline.go:53-74 | each printed text is the rendered YAML of the corresponding fetched pipeline, in order; a loop that did not return printed one per name, and one that returned printed for every get but the last |
| Commands.EditorSeededWithYaml | kubectl-plugin/pipeline.go:114-146 | the editor is opened once per fetched pipeline, in order, on that pipeline's rendered YAML; on every name when the loop did not return, and for every get but the last when it returned |
| Commands.EditUpdatesFollowPrompts | kubectl-plugin/pipeline.go:114-151 | every update the edit loop makes is in the resolved namespace and comes right after the editor prompt on a name, which comes right after that name's successful get; it sends the decode, over the fetched pipeline, of the text the editor returned, or of the YAML when the editor failed |
| Commands.StepMakesPerNameCallsOnly | kubectl-plugin/pipeline.go:53-151 | one turn of any of the three loops only gets, edits, updates, deletes and prints |
| Commands.Loop | kubectl-plugin/pipeline.go:53-151 | the per-name loops of view, delete and edit only get, edit, update, delete and print; they never list and never prompt for a choice |
| Commands.Command | kubectl-plugin/pipeline.go:49-154 | the view, delete and edit commands each first confirm the targets; a failed confirmation is returned as is with nothing after it, and every call after the confirmation is a per-name call |
| Commands.NamesGivenSkipListing | kubectl-plugin/pipeline.go:159-176 | with two or more arguments a command's first call is the multi-select prompt over the given names, and it lists nothing at all |
| Commands.ViewAll | kubectl-plugin/pipeline.go:53-74 | the view loop with its early returns yields exactly `Loop(View, …)`'s outcome and log |
| Commands.DeletePipeline | kubectl-plugin/pipeline.go:92-95 | printing the name and then deleting it yields exactly `DeleteOne` |
| Commands.DeleteAll | kubectl-plugin/pipeline.go:91-96 | the delete loop with its `break` yields exactly `Loop(Delete, …)`'s outcome and log |
| Commands.EditPipeline | kubectl-plugin/pipeline.go:115-150 | one edit iteration, with the error variable assigned by the editor and overwritten by the decode, yields exactly `EditOne` |
| Commands.EditAll | kubectl-plugin/pipeline.go:114-151 | the edit loop yields exactly `Loop(Edit, …)`'s outcome and log |
| Commands.ViewCommand | kubectl-plugin/pipeline.go:49-77 | the view command is confirmation followed by the view loop, as `Command(View, …)` |
| Commands.DeleteCommand | kubectl-plugin/pipeline.go:87-99 | the delete command is confirmation followed by the delete loop, as `Command(Delete, …)` |
| Commands.EditCommand | kubectl-plugin/pipeline.go:110-154 | the edit command is confirmation followed by the edit loop, as `Command(Edit, …)` |
| Commands.PrintNames | kubectl-plugin/pipeline.go:25-27 | the printing loop's log is exactly one printed line per name, in order, and nothing else |
| Commands.ListCommand | kubectl-plugin/pipeline.go:22-29 | the root command returns a resolution error as is; otherwise its log is the resolution's log followed by exactly one printed line per resolved name, in order, and it returns no error; it never shows the multi-select prompt |

## Left out

- Command construction, aliases and shell completion (`NewPipelineCmd` wiring, `ValidArgsFunction`) are CLI plumbing and are not modelled.
- The survey prompts are oracles (`Env.select`, `Env.multiSelect`, `Env.editor`). Their messages other than the editor's, the editor's file name and its display options are not modelled.
- The dynamic Kubernetes client is an oracle over the call history. Server state, resource schemas and optimistic-concurrency conflicts are the server's business.
- JSON encoding with 4-space indent, `yaml.JSONToYAML` and `yaml.Unmarshal` are opaque functions that may fail (`Cluster.Codec`). No YAML round trip is claimed.
- `Cluster.Message`: the cause of a failed get is formatted with Go's `%#v`, which is not modelled; the cause's own message stands in for it.
- Output streams are not distinguished: `fmt.Println` writes to standard output and `cmd.Println`/`cmd.Printf` to the command's output. Each printed line is one `Output` event without its newline.
- `context.TODO()` and the choice of standard input and output are irrelevant to the logic and are left out.
- Bytes are modelled as strings: the YAML text handed to the editor and the decoder is a `string`.
