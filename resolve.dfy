/** Target resolution: turning the positional arguments of a command into the
    namespace and the pipeline names it works on. The functions say what each
    step computes and which calls it makes; the methods are the step-by-step
    versions, with the loops the source uses, proved equal to them. */
module Resolve {
  import opened Cluster

  /** The namespace and the pipeline names one invocation works on. */
  datatype Target = Target(ns: string, names: seq<string>)

  /** A value together with the events that producing it appended to the history. */
  datatype Run<T> = Run(value: T, log: seq<Event>)

  /** The namespaces labelled as DevOps projects. A failed listing yields no
      names rather than an error. */
  function NamespaceNames(env: Env, h: seq<Event>): (r: Run<seq<string>>)
    ensures r.log == [NamespaceList(NamespaceLabel, env.listNamespaces(h, NamespaceLabel))]
    ensures r.log[0].listed.Err? ==> r.value == []
    ensures r.log[0].listed.Ok? ==>
      |r.value| == |r.log[0].listed.value| &&
      forall i :: 0 <= i < |r.value| ==> r.value[i] == GetName(r.log[0].listed.value[i])
  {
    var listed := env.listNamespaces(h, NamespaceLabel);
    Run(if listed.Ok? then Names(listed.value) else [], [NamespaceList(NamespaceLabel, listed)])
  }

  /** The namespace: the first argument if there is one; otherwise the
      operator's choice among the labelled namespaces, and an error without
      any prompt when there are none. */
  function ChooseNamespace(env: Env, h: seq<Event>, args: seq<string>): (r: Run<Result<string>>)
    ensures |args| > 0 ==> r == Run(Ok(args[0]), [])
    ensures |args| == 0 ==>
      var candidates := NamespaceNames(env, h);
      && |r.log| >= 1 && r.log[..1] == candidates.log
      && (candidates.value == [] <==> Collect(r.log, AsSelect) == [])
      && (candidates.value == [] ==> r == Run(Err(NoNamespaceFound), candidates.log))
      && (candidates.value != [] ==>
            r.log == candidates.log + [SelectPrompt(candidates.value, r.value)] &&
            r.value == env.select(h + candidates.log, candidates.value))
  {
    if |args| == 0 then
      var candidates := NamespaceNames(env, h);
      if candidates.value == [] then Run(Err(NoNamespaceFound), candidates.log)
      else
        var chosen := env.select(h + candidates.log, candidates.value);
        Run(chosen, candidates.log + [SelectPrompt(candidates.value, chosen)])
    else Run(Ok(args[0]), [])
  }

  /** The namespace and every pipeline in it. Two or more arguments are taken
      as they are, with no call at all; otherwise the pipelines of the
      namespace are listed and their names kept in listing order. */
  function ResolveTargets(env: Env, h: seq<Event>, args: seq<string>): (r: Run<Result<Target>>)
    ensures |args| >= 2 ==> r == Run(Ok(Target(args[0], args[1..])), [])
    ensures |args| == 1 ==>
      r.log == [PipelineList(args[0], env.listPipelines(h, args[0]))] &&
      (r.value.Ok? ==> r.value.value.ns == args[0])
    ensures |args| == 0 ==>
      var ns := ChooseNamespace(env, h, args);
      && (ns.value.Err? ==> r == Run(Err(ns.value.error), ns.log))
      && (ns.value.Ok? ==>
            r.log == ns.log + [PipelineList(ns.value.value, env.listPipelines(h + ns.log, ns.value.value))] &&
            (r.value.Ok? ==> r.value.value.ns == ns.value.value))
    ensures |args| < 2 && r.log != [] && r.log[|r.log| - 1].PipelineList? ==>
      var listed := r.log[|r.log| - 1].listed;
      && (listed.Err? ==> r.value == Err(listed.error))
      && (listed.Ok? ==>
            r.value.Ok? && |r.value.value.names| == |listed.value| &&
            forall i :: 0 <= i < |listed.value| ==> r.value.value.names[i] == GetName(listed.value[i]))
  {
    if |args| >= 2 then Run(Ok(Target(args[0], args[1..])), [])
    else
      var ns := if |args| == 1 then Run(Ok(args[0]), []) else ChooseNamespace(env, h, args);
      match ns.value
      case Err(e) => Run(Err(e), ns.log)
      case Ok(n) =>
        assert ns.log == [] ==> h + ns.log == h;
        var listed := env.listPipelines(h + ns.log, n);
        var log := ns.log + [PipelineList(n, listed)];
        if listed.Ok? then Run(Ok(Target(n, Names(listed.value))), log) else Run(Err(listed.error), log)
  }

  /** Resolution followed by the multi-select prompt over every candidate name.
      A resolution error is returned before any prompt; otherwise the prompt
      is shown, even when the names were given as arguments, and its answer
      (or its error) is the result. */
  function ConfirmTargets(env: Env, h: seq<Event>, args: seq<string>): (r: Run<Result<Target>>)
    ensures var found := ResolveTargets(env, h, args);
      && (found.value.Err? ==> r == found && Collect(r.log, AsMultiSelect) == [])
      && (found.value.Ok? ==>
            var picked := env.multiSelect(h + found.log, found.value.value.names);
            && r.log == found.log + [MultiSelectPrompt(found.value.value.names, picked)]
            && (picked.Err? ==> r.value == Err(picked.error))
            && (picked.Ok? ==> r.value == Ok(Target(found.value.value.ns, picked.value))))
    ensures |args| >= 2 ==>
      r.log == [MultiSelectPrompt(args[1..], env.multiSelect(h, args[1..]))] &&
      (r.value.Ok? ==> r.value.value.ns == args[0])
  {
    var found := ResolveTargets(env, h, args);
    match found.value
    case Err(_) =>
      ResolutionNeverMultiSelects(env, h, args);
      found
    case Ok(t) =>
      assert found.log == [] ==> h + found.log == h && found.log + [MultiSelectPrompt(t.names, env.multiSelect(h, t.names))] == [MultiSelectPrompt(t.names, env.multiSelect(h, t.names))];
      var picked := env.multiSelect(h + found.log, t.names);
      var log := found.log + [MultiSelectPrompt(t.names, picked)];
      if picked.Ok? then Run(Ok(Target(t.ns, picked.value)), log) else Run(Err(picked.error), log)
  }

  /** Resolution alone never shows the multi-select prompt. */
  lemma ResolutionNeverMultiSelects(env: Env, h: seq<Event>, args: seq<string>)
    ensures Collect(ResolveTargets(env, h, args).log, AsMultiSelect) == []
  {
    var r := ResolveTargets(env, h, args);
    if |args| < 2 {
      var ns := if |args| == 1 then Run(Ok(args[0]), []) else ChooseNamespace(env, h, args);
      var candidates := NamespaceNames(env, h);
      assert Collect(candidates.log, AsMultiSelect) == [];
      if |args| == 0 && candidates.value != [] {
        var prompt := ns.log[|ns.log| - 1];
        assert ns.log == candidates.log + [prompt];
        assert Collect([prompt], AsMultiSelect) == [];
        CollectConcat(candidates.log, [prompt], AsMultiSelect);
      }
      assert Collect(ns.log, AsMultiSelect) == [];
      if ns.value.Ok? {
        var listing := r.log[|r.log| - 1];
        assert r.log == ns.log + [listing];
        assert Collect([listing], AsMultiSelect) == [];
        CollectConcat(ns.log, [listing], AsMultiSelect);
      }
    }
  }

  /** getAllNamespace: the names are written into a slice of the listing's
      length, one index at a time. */
  method GetAllNamespace(env: Env, h: seq<Event>) returns (nsList: seq<string>, log: seq<Event>)
    ensures Run(nsList, log) == NamespaceNames(env, h)
  {
    var listed := env.listNamespaces(h, NamespaceLabel);
    log := [NamespaceList(NamespaceLabel, listed)];
    nsList := [];
    if listed.Ok? {
      var items := listed.value;
      var a := new string[|items|];
      for i := 0 to |items|
        invariant forall j :: 0 <= j < i ==> a[j] == GetName(items[j])
      {
        a[i] := GetName(items[i]);
      }
      nsList := a[..];
      assert nsList == Names(items);
    }
  }

  /** getNamespace. */
  method GetNamespace(env: Env, h: seq<Event>, args: seq<string>) returns (ns: Result<string>, log: seq<Event>)
    ensures Run(ns, log) == ChooseNamespace(env, h, args)
  {
    if |args| == 0 {
      var nsList;
      nsList, log := GetAllNamespace(env, h);
      if |nsList| == 0 {
        return Err(NoNamespaceFound), log;
      }
      ns := env.select(h + log, nsList);
      log := log + [SelectPrompt(nsList, ns)];
    } else {
      ns, log := Ok(args[0]), [];
    }
  }

  /** getPipelines: the names of the listed pipelines are appended one by one. */
  method GetPipelines(env: Env, h: seq<Event>, args: seq<string>) returns (found: Result<Target>, log: seq<Event>)
    ensures Run(found, log) == ResolveTargets(env, h, args)
  {
    if |args| >= 2 {
      return Ok(Target(args[0], args[1..])), [];
    }
    var ns: string;
    if |args| == 1 {
      ns, log := args[0], [];
    } else {
      var chosen;
      chosen, log := GetNamespace(env, h, args);
      if chosen.Err? {
        return Err(chosen.error), log;
      }
      ns := chosen.value;
    }
    var listed := env.listPipelines(h + log, ns);
    log := log + [PipelineList(ns, listed)];
    if listed.Err? {
      return Err(listed.error), log;
    }
    var items := listed.value;
    var pips: seq<string> := [];
    for i := 0 to |items|
      invariant |pips| == i
      invariant forall j :: 0 <= j < i ==> pips[j] == GetName(items[j])
    {
      pips := pips + [GetName(items[i])];
    }
    assert pips == Names(items);
    found := Ok(Target(ns, pips));
  }

  /** getPipelinesWithConfirm. */
  method GetPipelinesWithConfirm(env: Env, h: seq<Event>, args: seq<string>) returns (target: Result<Target>, log: seq<Event>)
    ensures Run(target, log) == ConfirmTargets(env, h, args)
  {
    var found;
    found, log := GetPipelines(env, h, args);
    if found.Err? {
      return found, log;
    }
    var picked := env.multiSelect(h + log, found.value.names);
    log := log + [MultiSelectPrompt(found.value.names, picked)];
    target := if picked.Ok? then Ok(Target(found.value.ns, picked.value)) else Err(picked.error);
  }
}
