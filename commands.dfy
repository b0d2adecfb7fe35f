/** The per-name loops of the view, delete and edit commands. All three walk
    the selected names in order, one at a time, keeping one error variable;
    they differ in which failures end the walk. `Loop` is the shared
    specification, `ViewOne`, `DeleteOne` and `EditOne` say what one name
    costs, and the methods are the loops as the commands run them. */
module Commands {
  import opened Cluster
  import opened Resolve

  datatype Verb = View | Delete | Edit

  /** How the work on one name ended: on to the next name with the error
      variable holding `err`, or a return from the command with `error`. */
  datatype Step = Next(err: Option<Error>) | Stop(error: Error)

  /** The error a command returns once its loop has ended. */
  function Outcome(s: Step): Option<Error> {
    match s
    case Next(err) => err
    case Stop(e) => Some(e)
  }

  function Then<T>(prefix: seq<Event>, r: Run<T>): Run<T> {
    Run(r.value, prefix + r.log)
  }

  /** The YAML text of an instance: JSON encoding, then conversion to YAML. */
  function Render(codec: Codec, obj: Unstructured): (r: Result<string>)
    ensures r.Ok? <==> codec.encodeJson(obj).Ok? && codec.jsonToYaml(codec.encodeJson(obj).value).Ok?
  {
    match codec.encodeJson(obj)
    case Err(e) => Err(e)
    case Ok(json) => codec.jsonToYaml(json)
  }

  /** View of one name: fetch, render, print. Every failure ends the command. */
  function ViewOne(env: Env, codec: Codec, ns: string, h: seq<Event>, name: string): (r: Run<Step>)
    ensures |r.log| >= 1 && r.log[0] == GetCall(ns, name, env.get(h, ns, name))
    ensures r.value.Stop? <==> r.log[0].fetched.Err? || Render(codec, r.log[0].fetched.value).Err?
    ensures r.log[0].fetched.Err? ==> r == Run(Stop(CannotGetPipeline(r.log[0].fetched.error)), r.log[..1])
    ensures r.log[0].fetched.Ok? && Render(codec, r.log[0].fetched.value).Err? ==>
      r == Run(Stop(Render(codec, r.log[0].fetched.value).error), r.log[..1])
    ensures r.value.Next? ==> r == Run(Next(None), r.log[..1] + [Output(Render(codec, r.log[0].fetched.value).value)])
  {
    var fetched := env.get(h, ns, name);
    var got := [GetCall(ns, name, fetched)];
    match fetched
    case Err(e) => Run(Stop(CannotGetPipeline(e)), got)
    case Ok(obj) =>
      match Render(codec, obj)
      case Err(e) => Run(Stop(e), got)
      case Ok(yaml) => Run(Next(None), got + [Output(yaml)])
  }

  /** Delete of one name: print it, then delete it. A failed delete ends the command. */
  function DeleteOne(env: Env, ns: string, h: seq<Event>, name: string): (r: Run<Step>)
    ensures |r.log| == 2 && r.log[0] == Output(name)
    ensures r.log[1] == DeleteCall(ns, name, env.delete(h + [Output(name)], ns, name))
    ensures r.value.Stop? <==> r.log[1].failed.Some?
    ensures r.value == (if r.log[1].failed.Some? then Stop(r.log[1].failed.value) else Next(None))
  {
    var failed := env.delete(h + [Output(name)], ns, name);
    Run(if failed.Some? then Stop(failed.value) else Next(None), [Output(name), DeleteCall(ns, name, failed)])
  }

  /** The line edit prints before fetching a pipeline. */
  function Banner(ns: string, name: string): string {
    "get pipeline " + ns + "/" + name
  }

  /** The message the editor prompt shows. */
  function EditMessage(ns: string, name: string): string {
    "Edit pipeline " + ns + "/" + name
  }

  /** Edit of one name: announce, fetch, render, open the editor on the YAML,
      decode what comes back over the fetched instance, update. Only a failed
      fetch or render ends the command. The editor's own error is dropped:
      the text then stays the rendered YAML and is decoded and sent as if the
      operator had saved it unchanged. A failed decode or update only sets
      the error variable. */
  function EditOne(env: Env, codec: Codec, ns: string, h: seq<Event>, name: string): (r: Run<Step>)
    ensures |r.log| >= 2 && r.log[0] == Output(Banner(ns, name))
    ensures r.log[1] == GetCall(ns, name, env.get(h + [Output(Banner(ns, name))], ns, name))
    ensures r.value.Stop? <==> r.log[1].fetched.Err? || Render(codec, r.log[1].fetched.value).Err?
    ensures r.log[1].fetched.Err? ==> r.value == Stop(CannotGetPipeline(r.log[1].fetched.error))
    ensures r.value.Stop? && r.log[1].fetched.Ok? ==> r.value == Stop(Render(codec, r.log[1].fetched.value).error)
    ensures r.value.Stop? ==> |r.log| == 2
    ensures r.value.Next? ==>
      var obj := r.log[1].fetched.value;
      var yaml := Render(codec, obj).value;
      var edited := env.editor(h + r.log[..2], EditMessage(ns, name), yaml);
      var decoded := codec.decodeYaml(if edited.Ok? then edited.value else yaml, obj);
      && |r.log| >= 3 && r.log[2] == EditorPrompt(ns, name, yaml, edited)
      && (decoded.Err? ==> r == Run(Next(Some(decoded.error)), r.log[..3]))
      && (decoded.Ok? ==>
            |r.log| == 4 &&
            r.log[3] == UpdateCall(ns, decoded.value, env.update(h + r.log[..3], ns, decoded.value)) &&
            r.value.err == (if r.log[3].updated.Ok? then None else Some(r.log[3].updated.error)))
  {
    var banner := Output(Banner(ns, name));
    var fetched := env.get(h + [banner], ns, name);
    var got := [banner, GetCall(ns, name, fetched)];
    match fetched
    case Err(e) => Run(Stop(CannotGetPipeline(e)), got)
    case Ok(obj) =>
      match Render(codec, obj)
      case Err(e) => Run(Stop(e), got)
      case Ok(yaml) =>
        var edited := env.editor(h + got, EditMessage(ns, name), yaml);
        var prompted := got + [EditorPrompt(ns, name, yaml, edited)];
        var content := if edited.Ok? then edited.value else yaml;
        match codec.decodeYaml(content, obj)
        case Err(e) => Run(Next(Some(e)), prompted)
        case Ok(changed) =>
          var updated := env.update(h + prompted, ns, changed);
          assert (prompted + [UpdateCall(ns, changed, updated)])[..2] == got;
          Run(Next(if updated.Ok? then None else Some(updated.error)), prompted + [UpdateCall(ns, changed, updated)])
  }

  function StepOf(verb: Verb, env: Env, codec: Codec, ns: string, h: seq<Event>, name: string): Run<Step> {
    match verb
    case View => ViewOne(env, codec, ns, h, name)
    case Delete => DeleteOne(env, ns, h, name)
    case Edit => EditOne(env, codec, ns, h, name)
  }

  /** The loop over `names`, with the error variable starting at `err`. It
      only makes per-name calls: it never lists and never prompts for a choice. */
  function Loop(verb: Verb, env: Env, codec: Codec, ns: string, h: seq<Event>, names: seq<string>, err: Option<Error>): (r: Run<Step>)
    ensures forall e :: e in r.log ==> PerNameEvent(e)
    decreases |names|
  {
    if names == [] then Run(Next(err), [])
    else
      var s := StepOf(verb, env, codec, ns, h, names[0]);
      StepMakesPerNameCallsOnly(verb, env, codec, ns, h, names[0]);
      if s.value.Stop? then s
      else Then(s.log, Loop(verb, env, codec, ns, h + s.log, names[1..], s.value.err))
  }

  /** Running the loop over `xs + ys` is running it over `xs`, then, unless
      that returned, over `ys` from where it left off. */
  lemma {:induction false} LoopAppend(verb: Verb, env: Env, codec: Codec, ns: string, h: seq<Event>,
                                      xs: seq<string>, ys: seq<string>, err: Option<Error>)
    ensures var first := Loop(verb, env, codec, ns, h, xs, err);
      Loop(verb, env, codec, ns, h, xs + ys, err) ==
        if first.value.Stop? then first
        else Then(first.log, Loop(verb, env, codec, ns, h + first.log, ys, first.value.err))
    decreases |xs|
  {
    if xs == [] {
      assert xs + ys == ys;
      assert h + [] == h;
    } else {
      var s := StepOf(verb, env, codec, ns, h, xs[0]);
      assert (xs + ys)[0] == xs[0];
      assert (xs + ys)[1..] == xs[1..] + ys;
      var all := Loop(verb, env, codec, ns, h, xs + ys, err);
      var first := Loop(verb, env, codec, ns, h, xs, err);
      if s.value.Stop? {
        assert all == s && first == s;
      } else {
        LoopAppend(verb, env, codec, ns, h + s.log, xs[1..], ys, s.value.err);
        var rest := Loop(verb, env, codec, ns, h + s.log, xs[1..], s.value.err);
        assert all == Then(s.log, Loop(verb, env, codec, ns, h + s.log, xs[1..] + ys, s.value.err));
        assert first == Then(s.log, rest);
        Associative(h, s.log, rest.log);
        if !rest.value.Stop? {
          var tail := Loop(verb, env, codec, ns, h + s.log + rest.log, ys, rest.value.err);
          Associative(s.log, rest.log, tail.log);
        }
      }
    }
  }

  lemma Associative(a: seq<Event>, b: seq<Event>, c: seq<Event>)
    ensures a + b + c == a + (b + c)
  {
  }

  /** Fail-fast: once the loop has returned on some name, no later name is
      touched and the outcome is that return. */
  lemma {:induction false} StopIsFinal(verb: Verb, env: Env, codec: Codec, ns: string, h: seq<Event>,
                                       xs: seq<string>, ys: seq<string>, err: Option<Error>)
    requires Loop(verb, env, codec, ns, h, xs, err).value.Stop?
    ensures Loop(verb, env, codec, ns, h, xs + ys, err) == Loop(verb, env, codec, ns, h, xs, err)
  {
    LoopAppend(verb, env, codec, ns, h, xs, ys, err);
  }

  /** The edit loop does not stop on a failed decode or update, and what it
      returns is decided by the last name alone: an error on an earlier name
      is overwritten. */
  lemma {:induction false} EditOutcomeIsLastName(env: Env, codec: Codec, ns: string, h: seq<Event>,
                                                 names: seq<string>, last: string, err: Option<Error>)
    requires Loop(Edit, env, codec, ns, h, names, err).value.Next?
    ensures var first := Loop(Edit, env, codec, ns, h, names, err);
      Loop(Edit, env, codec, ns, h, names + [last], err) == Then(first.log, EditOne(env, codec, ns, h + first.log, last))
  {
    LoopAppend(Edit, env, codec, ns, h, names, [last], err);
    var first := Loop(Edit, env, codec, ns, h, names, err);
    var s := EditOne(env, codec, ns, h + first.log, last);
    assert [last][1..] == [];
    assert s.log + [] == s.log;
  }

  /** Delete in order, one attempt per name: the delete calls made are for
      a prefix of the names, in order and each in the resolved namespace,
      and each name is printed just before its delete. */
  lemma {:induction false} DeletesFollowNames(env: Env, codec: Codec, ns: string, h: seq<Event>,
                                              names: seq<string>, err: Option<Error>)
    ensures var r := Loop(Delete, env, codec, ns, h, names, err);
      var ds := Collect(r.log, AsDelete);
      && |ds| <= |names|
      && Targets(ds) == names[..|ds|]
      && (forall d :: d in ds ==> d.ns == ns)
      && Collect(r.log, AsOutput) == names[..|ds|]
    decreases |names|
  {
    if names != [] {
      var s := DeleteOne(env, ns, h, names[0]);
      DeleteOneLog(env, ns, h, names[0]);
      var r := Loop(Delete, env, codec, ns, h, names, err);
      if s.value.Stop? {
        assert r == s;
        assert names[..1] == [names[0]];
      } else {
        var rest := Loop(Delete, env, codec, ns, h + s.log, names[1..], s.value.err);
        assert r == Then(s.log, rest);
        DeletesFollowNames(env, codec, ns, h + s.log, names[1..], s.value.err);
        CollectConcat(s.log, rest.log, AsDelete);
        CollectConcat(s.log, rest.log, AsOutput);
        FollowCons(ns, names, Attempt(ns, names[0], None), Collect(rest.log, AsDelete));
      }
    }
  }

  /** The deletes stop at the first failure: every delete but the last
      succeeded, and when the loop returned, the last delete failed with the
      error it returned. */
  lemma {:induction false} DeleteStopsAtFailure(env: Env, codec: Codec, ns: string, h: seq<Event>,
                                                names: seq<string>, err: Option<Error>)
    ensures var r := Loop(Delete, env, codec, ns, h, names, err);
      var ds := Collect(r.log, AsDelete);
      && (forall i :: 0 <= i < |ds| - 1 ==> ds[i].detail.None?)
      && (r.value.Stop? ==> ds != [] && ds[|ds| - 1].detail == Some(r.value.error))
    decreases |names|
  {
    if names != [] {
      var s := DeleteOne(env, ns, h, names[0]);
      DeleteOneLog(env, ns, h, names[0]);
      var r := Loop(Delete, env, codec, ns, h, names, err);
      if s.value.Stop? {
        assert r == s;
        var ds := Collect(r.log, AsDelete);
        assert ds == [Attempt(ns, names[0], Some(s.value.error))];
        assert ds[|ds| - 1].detail == Some(r.value.error);
      } else {
        var rest := Loop(Delete, env, codec, ns, h + s.log, names[1..], s.value.err);
        assert r == Then(s.log, rest);
        DeleteStopsAtFailure(env, codec, ns, h + s.log, names[1..], s.value.err);
        CollectConcat(s.log, rest.log, AsDelete);
        var tail := Collect(rest.log, AsDelete);
        var ds := Collect(r.log, AsDelete);
        assert ds == [Attempt(ns, names[0], None)] + tail;
        assert r.value == rest.value;
        SucceededCons(Attempt(ns, names[0], None), tail);
        if r.value.Stop? {
          assert tail != [] && tail[|tail| - 1].detail == Some(r.value.error);
          assert ds[|ds| - 1] == tail[|tail| - 1];
        }
      }
    }
  }

  lemma SucceededCons(d: Attempt<Option<Error>>, tail: seq<Attempt<Option<Error>>>)
    requires d.detail.None?
    requires forall i :: 0 <= i < |tail| - 1 ==> tail[i].detail.None?
    ensures var all := [d] + tail;
      && (forall i :: 0 <= i < |all| - 1 ==> all[i].detail.None?)
      && (tail != [] ==> all[|all| - 1] == tail[|tail| - 1])
  {
    var all := [d] + tail;
    forall i | 1 <= i < |all|
      ensures all[i] == tail[i - 1]
    {
    }
  }

  /** A delete loop that ran to the end made one successful delete per name
      and leaves the error variable as it found it only when there was no name. */
  lemma {:induction false} DeleteCompletes(env: Env, codec: Codec, ns: string, h: seq<Event>,
                                           names: seq<string>, err: Option<Error>)
    requires Loop(Delete, env, codec, ns, h, names, err).value.Next?
    ensures var r := Loop(Delete, env, codec, ns, h, names, err);
      var ds := Collect(r.log, AsDelete);
      && |ds| == |names|
      && (forall i :: 0 <= i < |ds| ==> ds[i].detail.None?)
      && r.value.err == (if names == [] then err else None)
    decreases |names|
  {
    if names != [] {
      var s := DeleteOne(env, ns, h, names[0]);
      DeleteOneLog(env, ns, h, names[0]);
      var rest := Loop(Delete, env, codec, ns, h + s.log, names[1..], s.value.err);
      assert Loop(Delete, env, codec, ns, h, names, err) == Then(s.log, rest);
      DeleteCompletes(env, codec, ns, h + s.log, names[1..], s.value.err);
      CollectConcat(s.log, rest.log, AsDelete);
      var tail := Collect(rest.log, AsDelete);
      var ds := [Attempt(ns, names[0], None)] + tail;
      forall i | 0 <= i < |ds|
        ensures ds[i].detail.None?
      {
        if i > 0 {
          assert ds[i] == tail[i - 1];
        }
      }
    }
  }

  lemma DeleteOneLog(env: Env, ns: string, h: seq<Event>, name: string)
    ensures var s := DeleteOne(env, ns, h, name);
      && Collect(s.log, AsDelete) == [Attempt(ns, name, s.log[1].failed)]
      && Collect(s.log, AsOutput) == [name]
  {
    var s := DeleteOne(env, ns, h, name);
    assert s.log[1..] == [s.log[1]];
  }

  /** The calls one view turn makes, as read back from its log. */
  lemma ViewOneLog(env: Env, codec: Codec, ns: string, h: seq<Event>, name: string)
    ensures var s := ViewOne(env, codec, ns, h, name);
      && Collect(s.log, AsGet) == [Attempt(ns, name, s.log[0].fetched)]
      && Collect(s.log, AsOutput) == if s.value.Stop? then [] else [Render(codec, s.log[0].fetched.value).value]
  {
    var s := ViewOne(env, codec, ns, h, name);
    if s.value.Stop? {
      assert s.log[1..] == [];
    } else {
      assert s.log[1..][1..] == [];
    }
  }

  /** The calls one edit turn makes, as read back from its log: the editor is
      opened on the rendered YAML of the fetched instance. */
  lemma EditOneLog(env: Env, codec: Codec, ns: string, h: seq<Event>, name: string)
    ensures var s := EditOne(env, codec, ns, h, name);
      && Collect(s.log, AsGet) == [Attempt(ns, name, s.log[1].fetched)]
      && Collect(s.log, AsEditor) == if s.value.Stop? then [] else [Attempt(ns, name, Render(codec, s.log[1].fetched.value).value)]
  {
    var s := EditOne(env, codec, ns, h, name);
    var t := s.log[1..][1..];
    if s.value.Stop? {
      assert t == [];
    } else {
      if |s.log| == 3 {
        assert t[1..] == [];
      } else {
        assert t[1..][1..] == [];
      }
      assert Collect(t, AsGet) == [];
      assert Collect(t, AsEditor) == [Attempt(ns, name, Render(codec, s.log[1].fetched.value).value)];
      assert Collect(s.log[1..], AsEditor) == Collect(t, AsEditor);
    }
  }

  /** What view and edit turns have in common: one get of the name, and the
      turn returns exactly when that get, or the rendering of what it fetched,
      failed; a failed get is returned wrapped. */
  lemma StepGet(verb: Verb, env: Env, codec: Codec, ns: string, h: seq<Event>, name: string)
    requires verb != Delete
    ensures var s := StepOf(verb, env, codec, ns, h, name);
      var gs := Collect(s.log, AsGet);
      && |gs| == 1 && gs[0].ns == ns && gs[0].name == name
      && (s.value.Stop? <==> gs[0].detail.Err? || Render(codec, gs[0].detail.value).Err?)
      && (gs[0].detail.Err? ==> s.value == Stop(CannotGetPipeline(gs[0].detail.error)))
  {
    if verb == View {
      ViewOneLog(env, codec, ns, h, name);
    } else {
      EditOneLog(env, codec, ns, h, name);
    }
  }

  /** View and edit fetch a prefix of the names, in order, each in the
      resolved namespace, and all of them when the loop did not return. */
  lemma {:induction false} GetsFollowNames(verb: Verb, env: Env, codec: Codec, ns: string, h: seq<Event>,
                                           names: seq<string>, err: Option<Error>)
    requires verb != Delete
    ensures var r := Loop(verb, env, codec, ns, h, names, err);
      var gs := Collect(r.log, AsGet);
      && |gs| <= |names|
      && Targets(gs) == names[..|gs|]
      && (forall g :: g in gs ==> g.ns == ns)
      && (r.value.Next? ==> |gs| == |names|)
    decreases |names|
  {
    if names != [] {
      var s := StepOf(verb, env, codec, ns, h, names[0]);
      StepGet(verb, env, codec, ns, h, names[0]);
      var r := Loop(verb, env, codec, ns, h, names, err);
      var g := Collect(s.log, AsGet)[0];
      if s.value.Stop? {
        assert r == s;
        assert Collect(s.log, AsGet) == [g] + [];
        FollowCons(ns, names, g, []);
      } else {
        var rest := Loop(verb, env, codec, ns, h + s.log, names[1..], s.value.err);
        assert r == Then(s.log, rest);
        GetsFollowNames(verb, env, codec, ns, h + s.log, names[1..], s.value.err);
        CollectConcat(s.log, rest.log, AsGet);
        assert Collect(s.log, AsGet) == [g];
        FollowCons(ns, names, g, Collect(rest.log, AsGet));
      }
    }
  }

  /** View and edit return on the first failed get: every get but the last
      one succeeded, and a failed get is what the loop returns, wrapped. */
  lemma FailedGetIsReturned(verb: Verb, env: Env, codec: Codec, ns: string, h: seq<Event>,
                            names: seq<string>, err: Option<Error>)
    requires verb != Delete
    ensures var r := Loop(verb, env, codec, ns, h, names, err);
      var gs := Collect(r.log, AsGet);
      && (forall i :: 0 <= i < |gs| - 1 ==> gs[i].detail.Ok?)
      && (gs != [] && gs[|gs| - 1].detail.Err? ==> r.value == Stop(CannotGetPipeline(gs[|gs| - 1].detail.error)))
  {
    FetchedBeforeLast(verb, env, codec, ns, h, names, err);
    LastGetFailedReturns(verb, env, codec, ns, h, names, err);
  }

  /** Every get but the last one succeeded. */
  predicate AllButLastFetched(gs: seq<Attempt<Result<Unstructured>>>) {
    forall i :: 0 <= i < |gs| - 1 ==> gs[i].detail.Ok?
  }

  lemma {:induction false} FetchedBeforeLast(verb: Verb, env: Env, codec: Codec, ns: string, h: seq<Event>,
                                             names: seq<string>, err: Option<Error>)
    requires verb != Delete
    ensures AllButLastFetched(Collect(Loop(verb, env, codec, ns, h, names, err).log, AsGet))
    decreases |names|
  {
    if names != [] {
      var s := StepOf(verb, env, codec, ns, h, names[0]);
      StepGet(verb, env, codec, ns, h, names[0]);
      var r := Loop(verb, env, codec, ns, h, names, err);
      if s.value.Stop? {
        assert r == s;
      } else {
        var rest := Loop(verb, env, codec, ns, h + s.log, names[1..], s.value.err);
        FetchedBeforeLast(verb, env, codec, ns, h + s.log, names[1..], s.value.err);
        assert Collect(r.log, AsGet) == Collect(s.log, AsGet) + Collect(rest.log, AsGet) by {
          assert r == Then(s.log, rest);
          CollectConcat(s.log, rest.log, AsGet);
        }
        FetchedCons(Collect(s.log, AsGet), Collect(rest.log, AsGet));
      }
    }
  }

  lemma {:induction false} LastGetFailedReturns(verb: Verb, env: Env, codec: Codec, ns: string, h: seq<Event>,
                                                names: seq<string>, err: Option<Error>)
    requires verb != Delete
    ensures var r := Loop(verb, env, codec, ns, h, names, err);
      var gs := Collect(r.log, AsGet);
      gs != [] && gs[|gs| - 1].detail.Err? ==> r.value == Stop(CannotGetPipeline(gs[|gs| - 1].detail.error))
    decreases |names|
  {
    if names != [] {
      var s := StepOf(verb, env, codec, ns, h, names[0]);
      StepGet(verb, env, codec, ns, h, names[0]);
      var r := Loop(verb, env, codec, ns, h, names, err);
      var g := Collect(s.log, AsGet)[0];
      assert Collect(s.log, AsGet) == [g];
      if s.value.Stop? {
        assert r == s;
      } else {
        var rest := Loop(verb, env, codec, ns, h + s.log, names[1..], s.value.err);
        var tail := Collect(rest.log, AsGet);
        var gs := Collect(r.log, AsGet);
        assert gs == [g] + tail && r.value == rest.value by {
          assert r == Then(s.log, rest);
          CollectConcat(s.log, rest.log, AsGet);
        }
        LastGetFailedReturns(verb, env, codec, ns, h + s.log, names[1..], s.value.err);
        if tail != [] {
          assert gs[|gs| - 1] == tail[|tail| - 1];
        }
      }
    }
  }

  /** View prints, for each fetched pipeline whose rendering succeeded, its
      YAML, in order: a loop that ran to the end printed every name's, and
      one that returned printed every name's before the one it returned on. */
  lemma {:induction false} ViewPrintsRendered(env: Env, codec: Codec, ns: string, h: seq<Event>,
                                              names: seq<string>, err: Option<Error>)
    ensures var r := Loop(View, env, codec, ns, h, names, err);
      var gs := Collect(r.log, AsGet);
      var outs := Collect(r.log, AsOutput);
      && |outs| <= |gs|
      && (forall i :: 0 <= i < |outs| ==> gs[i].detail.Ok? && Render(codec, gs[i].detail.value) == Ok(outs[i]))
      && (r.value.Next? ==> |outs| == |names|)
      && (r.value.Stop? ==> |outs| == |gs| - 1)
    decreases |names|
  {
    if names != [] {
      var s := ViewOne(env, codec, ns, h, names[0]);
      ViewOneLog(env, codec, ns, h, names[0]);
      var r := Loop(View, env, codec, ns, h, names, err);
      if s.value.Stop? {
        assert r == s;
      } else {
        var rest := Loop(View, env, codec, ns, h + s.log, names[1..], s.value.err);
        assert r == Then(s.log, rest);
        ViewPrintsRendered(env, codec, ns, h + s.log, names[1..], s.value.err);
        CollectConcat(s.log, rest.log, AsGet);
        CollectConcat(s.log, rest.log, AsOutput);
        var g, o := Collect(s.log, AsGet)[0], Collect(s.log, AsOutput)[0];
        assert Collect(s.log, AsGet) == [g] && Collect(s.log, AsOutput) == [o];
        PrintedCons(codec, g, o, Collect(rest.log, AsGet), Collect(rest.log, AsOutput));
      }
    }
  }

  /** Edit opens the editor once per fetched pipeline whose rendering
      succeeded, in order, seeded with that pipeline's YAML: a loop that ran
      to the end opened it for every name, and one that returned for every
      name before the one it returned on. */
  lemma {:induction false} EditorSeededWithYaml(env: Env, codec: Codec, ns: string, h: seq<Event>,
                                                names: seq<string>, err: Option<Error>)
    ensures var r := Loop(Edit, env, codec, ns, h, names, err);
      var gs := Collect(r.log, AsGet);
      var es := Collect(r.log, AsEditor);
      && |es| <= |gs|
      && (forall i :: 0 <= i < |es| ==>
            es[i].ns == gs[i].ns && es[i].name == gs[i].name &&
            gs[i].detail.Ok? && Render(codec, gs[i].detail.value) == Ok(es[i].detail))
      && (r.value.Next? ==> |es| == |names|)
      && (r.value.Stop? ==> |es| == |gs| - 1)
    decreases |names|
  {
    if names != [] {
      var s := EditOne(env, codec, ns, h, names[0]);
      EditOneLog(env, codec, ns, h, names[0]);
      var r := Loop(Edit, env, codec, ns, h, names, err);
      if s.value.Stop? {
        assert r == s;
      } else {
        var rest := Loop(Edit, env, codec, ns, h + s.log, names[1..], s.value.err);
        assert r == Then(s.log, rest);
        EditorSeededWithYaml(env, codec, ns, h + s.log, names[1..], s.value.err);
        CollectConcat(s.log, rest.log, AsGet);
        CollectConcat(s.log, rest.log, AsEditor);
        var g, e := Collect(s.log, AsGet)[0], Collect(s.log, AsEditor)[0];
        assert Collect(s.log, AsGet) == [g] && Collect(s.log, AsEditor) == [e];
        SeededCons(codec, g, e, Collect(rest.log, AsGet), Collect(rest.log, AsEditor));
      }
    }
  }

  /** The text an editor prompt hands to the decoder: what the operator saved,
      or the YAML it was seeded with when the editor failed. */
  function EditedText(e: Event): string
    requires e.EditorPrompt?
  {
    if e.edited.Ok? then e.edited.value else e.initial
  }

  /** An update in `ns` that comes right after an editor prompt on a name of
      `ns`, which comes right after the successful get of that name, and that
      sends the decode, over the fetched pipeline, of the prompt's text. */
  predicate UpdateAfterPrompt(codec: Codec, ns: string, get: Event, prompt: Event, update: Event) {
    && update.UpdateCall? && update.ns == ns
    && prompt.EditorPrompt? && prompt.ns == ns
    && get.GetCall? && get.ns == ns && get.name == prompt.name && get.fetched.Ok?
    && codec.decodeYaml(EditedText(prompt), get.fetched.value) == Ok(update.obj)
  }

  /** Every update in `log` is placed and made as `UpdateAfterPrompt` says. */
  predicate UpdatesFollowPrompts(codec: Codec, ns: string, log: seq<Event>) {
    forall k :: 0 <= k < |log| && log[k].UpdateCall? ==>
      k >= 2 && UpdateAfterPrompt(codec, ns, log[k - 2], log[k - 1], log[k])
  }

  /** The edit loop updates only in the resolved namespace, and each update
      sends what the decoder made of the text of the editor prompt just
      before it, over the pipeline fetched just before that. */
  lemma {:induction false} EditUpdatesFollowPrompts(env: Env, codec: Codec, ns: string, h: seq<Event>,
                                                    names: seq<string>, err: Option<Error>)
    ensures UpdatesFollowPrompts(codec, ns, Loop(Edit, env, codec, ns, h, names, err).log)
    decreases |names|
  {
    if names != [] {
      var s := EditOne(env, codec, ns, h, names[0]);
      EditOneUpdates(env, codec, ns, h, names[0]);
      var r := Loop(Edit, env, codec, ns, h, names, err);
      if s.value.Stop? {
        assert r == s;
      } else {
        var rest := Loop(Edit, env, codec, ns, h + s.log, names[1..], s.value.err);
        assert r == Then(s.log, rest);
        EditUpdatesFollowPrompts(env, codec, ns, h + s.log, names[1..], s.value.err);
        UpdatesConcat(codec, ns, s.log, rest.log);
      }
    }
  }

  lemma EditOneUpdates(env: Env, codec: Codec, ns: string, h: seq<Event>, name: string)
    ensures UpdatesFollowPrompts(codec, ns, EditOne(env, codec, ns, h, name).log)
  {
    var log := EditOne(env, codec, ns, h, name).log;
    forall k | 0 <= k < |log| && log[k].UpdateCall?
      ensures k == 3 && UpdateAfterPrompt(codec, ns, log[1], log[2], log[3])
    {
    }
  }

  lemma UpdatesConcat(codec: Codec, ns: string, a: seq<Event>, b: seq<Event>)
    requires UpdatesFollowPrompts(codec, ns, a) && UpdatesFollowPrompts(codec, ns, b)
    ensures UpdatesFollowPrompts(codec, ns, a + b)
  {
    var all := a + b;
    forall k | 0 <= k < |all| && all[k].UpdateCall?
      ensures k >= 2 && UpdateAfterPrompt(codec, ns, all[k - 2], all[k - 1], all[k])
    {
      if k < |a| {
        assert all[k] == a[k] && all[k - 1] == a[k - 1] && all[k - 2] == a[k - 2];
      } else {
        var j := k - |a|;
        assert all[k] == b[j];
        assert all[k - 1] == b[j - 1] && all[k - 2] == b[j - 2];
      }
    }
  }

  /** One attempt on the first name, followed by attempts that follow the
      remaining names, follows the names. */
  lemma FollowCons<D>(ns: string, names: seq<string>, a: Attempt<D>, tail: seq<Attempt<D>>)
    requires names != [] && a.ns == ns && a.name == names[0]
    requires |tail| <= |names| - 1 && Targets(tail) == names[1..][..|tail|]
    requires forall t :: t in tail ==> t.ns == ns
    ensures var all := [a] + tail;
      && |all| <= |names| && Targets(all) == names[..|all|]
      && (forall t :: t in all ==> t.ns == ns)
      && [names[0]] + names[1..][..|tail|] == names[..|all|]
  {
    var all := [a] + tail;
    assert all[0] == a && all[1..] == tail;
    assert Targets(all) == [a.name] + Targets(tail);
    assert names[..|all|] == [names[0]] + names[1..][..|tail|];
  }

  lemma FetchedCons(first: seq<Attempt<Result<Unstructured>>>, tail: seq<Attempt<Result<Unstructured>>>)
    requires |first| == 1 && first[0].detail.Ok?
    requires AllButLastFetched(tail)
    ensures AllButLastFetched(first + tail)
  {
    var all := first + tail;
    forall i | 1 <= i < |all|
      ensures all[i] == tail[i - 1]
    {
    }
  }

  lemma PrintedCons(codec: Codec, g: Attempt<Result<Unstructured>>, o: string,
                    gs: seq<Attempt<Result<Unstructured>>>, outs: seq<string>)
    requires g.detail.Ok? && Render(codec, g.detail.value) == Ok(o)
    requires |outs| <= |gs|
    requires forall i :: 0 <= i < |outs| ==> gs[i].detail.Ok? && Render(codec, gs[i].detail.value) == Ok(outs[i])
    ensures var gs', outs' := [g] + gs, [o] + outs;
      forall i :: 0 <= i < |outs'| ==> gs'[i].detail.Ok? && Render(codec, gs'[i].detail.value) == Ok(outs'[i])
  {
    var gs', outs' := [g] + gs, [o] + outs;
    forall i | 1 <= i < |outs'|
      ensures outs'[i] == outs[i - 1] && gs'[i] == gs[i - 1]
    {
    }
  }

  lemma SeededCons(codec: Codec, g: Attempt<Result<Unstructured>>, e: Attempt<string>,
                   gs: seq<Attempt<Result<Unstructured>>>, es: seq<Attempt<string>>)
    requires e.ns == g.ns && e.name == g.name && g.detail.Ok? && Render(codec, g.detail.value) == Ok(e.detail)
    requires |es| <= |gs|
    requires forall i :: 0 <= i < |es| ==>
      es[i].ns == gs[i].ns && es[i].name == gs[i].name &&
      gs[i].detail.Ok? && Render(codec, gs[i].detail.value) == Ok(es[i].detail)
    ensures var gs', es' := [g] + gs, [e] + es;
      forall i :: 0 <= i < |es'| ==>
        es'[i].ns == gs'[i].ns && es'[i].name == gs'[i].name &&
        gs'[i].detail.Ok? && Render(codec, gs'[i].detail.value) == Ok(es'[i].detail)
  {
    var gs', es' := [g] + gs, [e] + es;
    forall i | 1 <= i < |es'|
      ensures es'[i] == es[i - 1] && gs'[i] == gs[i - 1]
    {
    }
  }

  /** The whole command: resolve and confirm the targets, then run the loop
      from the history the resolution left. A failed confirmation is returned
      before any per-name call; after it, only per-name calls are made. */
  function Command(verb: Verb, env: Env, codec: Codec, h: seq<Event>, args: seq<string>): (r: Run<Option<Error>>)
    ensures var t := ConfirmTargets(env, h, args);
      && |r.log| >= |t.log| && r.log[..|t.log|] == t.log
      && (t.value.Err? ==> r == Run(Some(t.value.error), t.log))
      && (forall e :: e in r.log[|t.log|..] ==> PerNameEvent(e))
  {
    var t := ConfirmTargets(env, h, args);
    match t.value
    case Err(e) => Run(Some(e), t.log)
    case Ok(target) =>
      var l := Loop(verb, env, codec, target.ns, h + t.log, target.names, None);
      assert (t.log + l.log)[..|t.log|] == t.log && (t.log + l.log)[|t.log|..] == l.log;
      Run(Outcome(l.value), t.log + l.log)
  }

  /** The calls a per-name loop may make. */
  predicate PerNameEvent(e: Event) {
    e.GetCall? || e.EditorPrompt? || e.UpdateCall? || e.DeleteCall? || e.Output?
  }

  lemma StepMakesPerNameCallsOnly(verb: Verb, env: Env, codec: Codec, ns: string, h: seq<Event>, name: string)
    ensures forall e :: e in StepOf(verb, env, codec, ns, h, name).log ==> PerNameEvent(e)
  {
    match verb
    case View =>
      var s := ViewOne(env, codec, ns, h, name);
      assert s.log == s.log[..1] || s.log == s.log[..1] + [s.log[1]];
    case Delete =>
    case Edit =>
      var s := EditOne(env, codec, ns, h, name);
      assert s.log == s.log[..2] || s.log == s.log[..3] || s.log == s.log[..3] + [s.log[3]];
  }

  /** With the namespace and the names given as arguments, a command lists
      nothing: its first call is the multi-select prompt over the given
      names, and every later call is one of the per-name calls. */
  lemma NamesGivenSkipListing(verb: Verb, env: Env, codec: Codec, h: seq<Event>, args: seq<string>)
    requires |args| >= 2
    ensures var c := Command(verb, env, codec, h, args);
      && |c.log| >= 1 && c.log[0] == MultiSelectPrompt(args[1..], env.multiSelect(h, args[1..]))
      && forall e :: e in c.log[1..] ==> PerNameEvent(e)
  {
  }

  /** One turn of a loop: the work on `pips[i]`, then the rest. */
  lemma {:induction false} LoopStep(verb: Verb, env: Env, codec: Codec, ns: string, h: seq<Event>,
                                    pips: seq<string>, i: nat, log: seq<Event>, err: Option<Error>)
    requires i < |pips|
    ensures var s := StepOf(verb, env, codec, ns, h + log, pips[i]);
      Then(log, Loop(verb, env, codec, ns, h + log, pips[i..], err)) ==
        if s.value.Stop? then Run(s.value, log + s.log)
        else Then(log + s.log, Loop(verb, env, codec, ns, h + (log + s.log), pips[i + 1..], s.value.err))
  {
    var names := pips[i..];
    assert names[0] == pips[i] && names[1..] == pips[i + 1..];
    var s := StepOf(verb, env, codec, ns, h + log, pips[i]);
    var l := Loop(verb, env, codec, ns, h + log, names, err);
    if s.value.Stop? {
      assert l == s;
    } else {
      Associative(h, log, s.log);
      var rest := Loop(verb, env, codec, ns, h + (log + s.log), pips[i + 1..], s.value.err);
      assert l == Then(s.log, rest);
      Associative(log, s.log, rest.log);
    }
  }

  /** The view loop: returns on the first failed get, encode or conversion. */
  method ViewAll(env: Env, codec: Codec, ns: string, h: seq<Event>, pips: seq<string>)
    returns (err: Option<Error>, log: seq<Event>)
    ensures var r := Loop(View, env, codec, ns, h, pips, None); err == Outcome(r.value) && log == r.log
  {
    err, log := None, [];
    var i := 0;
    assert h + log == h && pips[i..] == pips;
    while i < |pips|
      invariant 0 <= i <= |pips|
      invariant Loop(View, env, codec, ns, h, pips, None) == Then(log, Loop(View, env, codec, ns, h + log, pips[i..], err))
    {
      LoopStep(View, env, codec, ns, h, pips, i, log, err);
      ghost var before := log;
      ghost var s := ViewOne(env, codec, ns, h + log, pips[i]);
      var pip := pips[i];
      var fetched := env.get(h + log, ns, pip);
      log := log + [GetCall(ns, pip, fetched)];
      if fetched.Err? {
        err := Some(CannotGetPipeline(fetched.error));
        return;
      }
      var json := codec.encodeJson(fetched.value);
      if json.Err? {
        err := Some(json.error);
        return;
      }
      var yaml := codec.jsonToYaml(json.value);
      if yaml.Err? {
        err := Some(yaml.error);
        return;
      }
      log := log + [Output(yaml.value)];
      assert log == before + s.log;
      i := i + 1;
    }
    assert log + [] == log;
  }

  /** One turn of the delete loop, on the name `pip`: print it, delete it. */
  method DeletePipeline(env: Env, ns: string, h: seq<Event>, pip: string)
    returns (err: Option<Error>, log: seq<Event>)
    ensures Run(if err.Some? then Stop(err.value) else Next(None), log) == DeleteOne(env, ns, h, pip)
  {
    log := [Output(pip)];
    err := env.delete(h + log, ns, pip);
    log := log + [DeleteCall(ns, pip, err)];
  }

  /** The delete loop: prints each name and deletes it; breaks on the first failed delete. */
  method DeleteAll(env: Env, codec: Codec, ns: string, h: seq<Event>, pips: seq<string>)
    returns (err: Option<Error>, log: seq<Event>)
    ensures var r := Loop(Delete, env, codec, ns, h, pips, None); err == Outcome(r.value) && log == r.log
  {
    err, log := None, [];
    var i := 0;
    assert h + log == h && pips[i..] == pips;
    while i < |pips|
      invariant 0 <= i <= |pips|
      invariant Loop(Delete, env, codec, ns, h, pips, None) == Then(log, Loop(Delete, env, codec, ns, h + log, pips[i..], err))
    {
      LoopStep(Delete, env, codec, ns, h, pips, i, log, err);
      ghost var s := DeleteOne(env, ns, h + log, pips[i]);
      var done;
      err, done := DeletePipeline(env, ns, h + log, pips[i]);
      assert done == s.log;
      log := log + done;
      if err.Some? {
        assert s.value == Stop(err.value);
        break;
      }
      assert s.value == Next(None);
      i := i + 1;
    }
    assert log + [] == log;
  }

  /** One turn of the edit loop, on the name `pip`. It stops where the source
      returns from the command; otherwise it leaves the error variable as the
      decode or the update set it. The editor's error is assigned and then
      overwritten by the decode, as in the source. */
  method EditPipeline(env: Env, codec: Codec, ns: string, h: seq<Event>, pip: string)
    returns (step: Step, log: seq<Event>)
    ensures Run(step, log) == EditOne(env, codec, ns, h, pip)
  {
    var banner := Output(Banner(ns, pip));
    log := [banner];
    var fetched := env.get(h + log, ns, pip);
    log := log + [GetCall(ns, pip, fetched)];
    assert log == [banner, GetCall(ns, pip, fetched)];
    if fetched.Err? {
      return Stop(CannotGetPipeline(fetched.error)), log;
    }
    var rawPip := fetched.value;
    var json := codec.encodeJson(rawPip);
    if json.Err? {
      return Stop(json.error), log;
    }
    var yaml := codec.jsonToYaml(json.value);
    if yaml.Err? {
      return Stop(yaml.error), log;
    }
    var err: Option<Error>;
    var edited := env.editor(h + log, EditMessage(ns, pip), yaml.value);
    log := log + [EditorPrompt(ns, pip, yaml.value, edited)];
    var content := if edited.Ok? then edited.value else yaml.value;
    err := if edited.Ok? then None else Some(edited.error);
    var decoded := codec.decodeYaml(content, rawPip);
    if decoded.Ok? {
      rawPip := decoded.value;
      var updated := env.update(h + log, ns, rawPip);
      log := log + [UpdateCall(ns, rawPip, updated)];
      err := if updated.Ok? then None else Some(updated.error);
    } else {
      err := Some(decoded.error);
    }
    step := Next(err);
  }

  /** The edit loop: returns on a failed get, encode or conversion; a failed
      decode or update only sets the error variable, and the next name's
      work overwrites it. */
  method EditAll(env: Env, codec: Codec, ns: string, h: seq<Event>, pips: seq<string>)
    returns (err: Option<Error>, log: seq<Event>)
    ensures var r := Loop(Edit, env, codec, ns, h, pips, None); err == Outcome(r.value) && log == r.log
  {
    err, log := None, [];
    var i := 0;
    assert h + log == h && pips[i..] == pips;
    while i < |pips|
      invariant 0 <= i <= |pips|
      invariant Loop(Edit, env, codec, ns, h, pips, None) == Then(log, Loop(Edit, env, codec, ns, h + log, pips[i..], err))
    {
      LoopStep(Edit, env, codec, ns, h, pips, i, log, err);
      var step, done := EditPipeline(env, codec, ns, h + log, pips[i]);
      log := log + done;
      if step.Stop? {
        err := Some(step.error);
        return;
      }
      err := step.err;
      i := i + 1;
    }
    assert log + [] == log;
  }

  /** The view command. */
  method ViewCommand(env: Env, codec: Codec, h: seq<Event>, args: seq<string>) returns (err: Option<Error>, log: seq<Event>)
    ensures Run(err, log) == Command(View, env, codec, h, args)
  {
    var target;
    target, log := GetPipelinesWithConfirm(env, h, args);
    if target.Err? {
      return Some(target.error), log;
    }
    var done;
    err, done := ViewAll(env, codec, target.value.ns, h + log, target.value.names);
    log := log + done;
  }

  /** The delete command. */
  method DeleteCommand(env: Env, codec: Codec, h: seq<Event>, args: seq<string>) returns (err: Option<Error>, log: seq<Event>)
    ensures Run(err, log) == Command(Delete, env, codec, h, args)
  {
    var target;
    target, log := GetPipelinesWithConfirm(env, h, args);
    if target.Err? {
      return Some(target.error), log;
    }
    var done;
    err, done := DeleteAll(env, codec, target.value.ns, h + log, target.value.names);
    log := log + done;
  }

  /** The edit command. */
  method EditCommand(env: Env, codec: Codec, h: seq<Event>, args: seq<string>) returns (err: Option<Error>, log: seq<Event>)
    ensures Run(err, log) == Command(Edit, env, codec, h, args)
  {
    var target;
    target, log := GetPipelinesWithConfirm(env, h, args);
    if target.Err? {
      return Some(target.error), log;
    }
    var done;
    err, done := EditAll(env, codec, target.value.ns, h + log, target.value.names);
    log := log + done;
  }

  /** The printing loop of the root command: one line per name, in order,
      and nothing else. */
  method PrintNames(pips: seq<string>) returns (printed: seq<Event>)
    ensures printed == seq(|pips|, i requires 0 <= i < |pips| => Output(pips[i]))
    ensures Collect(printed, AsOutput) == pips
    ensures Collect(printed, AsMultiSelect) == []
  {
    printed := [];
    for i := 0 to |pips|
      invariant |printed| == i
      invariant forall j :: 0 <= j < i ==> printed[j] == Output(pips[j])
      invariant Collect(printed, AsOutput) == pips[..i]
      invariant Collect(printed, AsMultiSelect) == []
    {
      CollectConcat(printed, [Output(pips[i])], AsOutput);
      CollectConcat(printed, [Output(pips[i])], AsMultiSelect);
      assert pips[..i + 1] == pips[..i] + [pips[i]];
      printed := printed + [Output(pips[i])];
    }
    assert pips[..|pips|] == pips;
  }

  /** The root command: resolves the targets without the multi-select prompt
      and prints every name. */
  method ListCommand(env: Env, h: seq<Event>, args: seq<string>) returns (err: Option<Error>, log: seq<Event>)
    ensures var found := ResolveTargets(env, h, args);
      && (found.value.Err? ==> err == Some(found.value.error) && log == found.log)
      && (found.value.Ok? ==>
            var names := found.value.value.names;
            && err == None
            && log == found.log + seq(|names|, i requires 0 <= i < |names| => Output(names[i]))
            && Collect(log[|found.log|..], AsOutput) == names)
    ensures Collect(log, AsMultiSelect) == []
  {
    var found;
    found, log := GetPipelines(env, h, args);
    ResolutionNeverMultiSelects(env, h, args);
    if found.Err? {
      return Some(found.error), log;
    }
    err := None;
    var printed := PrintNames(found.value.names);
    CollectConcat(log, printed, AsMultiSelect);
    ghost var resolved := log;
    log := log + printed;
    assert log[..|resolved|] == resolved && log[|resolved|..] == printed;
  }
}
