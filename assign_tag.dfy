/** The `assign` tag: `{% assign name = chain %}` evaluates the chain and
    binds the result in the outermost frame of the variable stack. */
module AssignTag {
  import opened Values
  import opened Interpreter
  import opened FilterChains
  import opened TagTokens
  import Templates

  datatype Assign = Assign(dst: string, src: FilterChain)

  /** The tag's source form, added to the trace of an evaluation error. */
  function Trace(a: Assign): string {
    TagMarkup("assign", a.dst + " = " + Display(a.src))
  }

  /** Spelled out, the trace is `{% assign <dst> = <src>%}`, with the chain in its source form and no
      space before the closing `%}`. */
  lemma TraceSpelledOut(a: Assign)
    ensures Trace(a) == "{% assign " + a.dst + " = " + Display(a.src) + "%}"
  {
  }

  /** Rendering the tag against state `s`. */
  function RenderSpec(a: Assign, s: RuntimeState): StepResult {
    match Evaluation(a.src, s.frames)
    case Err(e) => StepResult("", Failed(e.Trace(Trace(a))), s)
    case Ok(v) => StepResult("", Done, s.(frames := SetGlobalIn(s.frames, a.dst, v.value)))
  }

  function AsStep(a: Assign): Step {
    s => RenderSpec(a, s)
  }

  method RenderTo(a: Assign, rt: Runtime) returns (written: string, r: Outcome)
    modifies rt
    ensures written == ""
    ensures StepResult(written, r, rt.View()) == RenderSpec(a, old(rt.View()))
  {
    var value := Evaluate(a.src, rt);
    if value.Err? {
      return "", Failed(value.error.Trace(Trace(a)));
    }
    rt.SetGlobal(a.dst, value.value.value);
    written, r := "", Done;
  }

  /** A successful assign writes nothing, binds `dst` to the chain's value in the outermost frame,
      leaves every other key and every inner frame as it was, and does not touch the interrupt or
      the register. */
  lemma AssignSucceeds(a: Assign, s: RuntimeState)
    requires Evaluation(a.src, s.frames).Ok?
    ensures var r := RenderSpec(a, s);
            var v := Evaluation(a.src, s.frames).value.value;
            && r.written == ""
            && r.outcome == Done
            && a.dst in r.after.frames[0] && r.after.frames[0][a.dst] == v
            && (forall k :: k != a.dst ==> (k in r.after.frames[0] <==> k in s.frames[0]))
            && (forall k :: k != a.dst && k in s.frames[0] ==> r.after.frames[0][k] == s.frames[0][k])
            && |r.after.frames| == |s.frames|
            && (forall j :: 1 <= j < |s.frames| ==> r.after.frames[j] == s.frames[j])
            && r.after.interrupt == s.interrupt
            && r.after.lastRendered == s.lastRendered
  {
  }

  /** The binding outlives the inner frames: once every frame above the outermost that would shadow
      `dst` is popped, looking `dst` up finds the assigned value. */
  lemma AssignVisibleAfterPop(a: Assign, s: RuntimeState, depth: nat)
    requires Evaluation(a.src, s.frames).Ok?
    requires 1 <= depth <= |s.frames|
    requires forall j :: 1 <= j < depth ==> a.dst !in s.frames[j]
    ensures Lookup(RenderSpec(a, s).after.frames[..depth], a.dst) == Some(Evaluation(a.src, s.frames).value.value)
  {
    GlobalSurvivesPop(s.frames, a.dst, Evaluation(a.src, s.frames).value.value, depth);
  }

  /** A failed evaluation leaves the runtime unchanged and propagates the error traced with the tag. */
  lemma AssignFails(a: Assign, s: RuntimeState)
    requires Evaluation(a.src, s.frames).Err?
    ensures RenderSpec(a, s)
            == StepResult("", Failed(Evaluation(a.src, s.frames).error.Trace(Trace(a))), s)
  {
  }

  /** Parse `identifier = chain` from the tag's arguments. */
  method Parse(arguments: TagTokenIter) returns (r: Result<Assign>)
    modifies arguments
    ensures var ts := old(arguments.rest);
            r.Ok? <==> |ts| == 3 && ts[0].isIdentifier && ts[1].text == "=" && ts[2].chain.Some?
    ensures var ts := old(arguments.rest);
            r.Ok? ==> r.value == Assign(ts[0].text, ts[2].chain.value)
    ensures old(arguments.rest) == [] ==> r == Err(Message("Identifier expected."))
    ensures var ts := old(arguments.rest);
            ts != [] && !ts[0].isIdentifier ==> r == Err(UnexpectedToken("identifier", ts[0]))
    ensures var ts := old(arguments.rest);
            ts != [] && ts[0].isIdentifier && (|ts| == 1 || ts[1].text != "=")
            ==> r == Err(Message("Assignment operator \"=\" expected."))
    ensures var ts := old(arguments.rest);
            |ts| == 2 && ts[0].isIdentifier && ts[1].text == "=" ==> r == Err(Message("FilterChain expected."))
    ensures var ts := old(arguments.rest);
            |ts| >= 3 && ts[0].isIdentifier && ts[1].text == "=" && ts[2].chain.None?
            ==> r == Err(UnexpectedToken("filter chain", ts[2]))
    ensures var ts := old(arguments.rest);
            |ts| > 3 && ts[0].isIdentifier && ts[1].text == "=" && ts[2].chain.Some?
            ==> r == Err(UnexpectedArgument(ts[3]))
  {
    var first := arguments.ExpectNext("Identifier expected.");
    if first.Err? {
      return Err(first.error);
    }
    var dst := ExpectIdentifier(first.value);
    if dst.Err? {
      return Err(dst.error);
    }

    var op := arguments.ExpectNext("Assignment operator \"=\" expected.");
    if op.Err? {
      return Err(op.error);
    }
    if op.value.text != "=" {
      return Err(Message("Assignment operator \"=\" expected."));
    }

    var third := arguments.ExpectNext("FilterChain expected.");
    if third.Err? {
      return Err(third.error);
    }
    var src := ExpectFilterChain(third.value);
    if src.Err? {
      return Err(src.error);
    }

    var none := arguments.ExpectNothing();
    if none.Failed? {
      return Err(none.error);
    }

    r := Ok(Assign(dst.value, src.value));
  }

  /** `{% assign freestyle = false %}{{ freestyle }}` renders "false". */
  lemma ExampleLiteral()
    ensures Templates.RenderSeq(
              [AsStep(Assign("freestyle", FilterChain(Literal(Bool(false)), []))),
               FilterChains.AsStep(FilterChain(Variable("freestyle", []), []))],
              FreshState()).written
            == "false"
  {
    var s1 := RenderSpec(Assign("freestyle", FilterChain(Literal(Bool(false)), [])), FreshState());
    assert s1.after.frames == [map["freestyle" := Bool(false)]];
    assert Lookup(s1.after.frames, "freestyle") == Some(Bool(false));
  }

  /** The runtime of the indexing tests: `tags` bound in the global frame before rendering. */
  function WithTags(tags: Value): RuntimeState {
    FreshState().(frames := [map["tags" := tags]])
  }

  /** `{% assign freestyle = tags[1] %}{{ freestyle }}` with tags = ["alpha", "beta", "gamma"] renders "beta". */
  lemma ExampleArrayIndex()
    ensures Templates.RenderSeq(
              [AsStep(Assign("freestyle", FilterChain(Variable("tags", [Pos(1)]), []))),
               FilterChains.AsStep(FilterChain(Variable("freestyle", []), []))],
              WithTags(Array([Str("alpha"), Str("beta"), Str("gamma")]))).written
            == "beta"
  {
    var s0 := WithTags(Array([Str("alpha"), Str("beta"), Str("gamma")]));
    assert Lookup(s0.frames, "tags") == Some(Array([Str("alpha"), Str("beta"), Str("gamma")]));
    var s1 := RenderSpec(Assign("freestyle", FilterChain(Variable("tags", [Pos(1)]), [])), s0);
    assert s1.after.frames[0]["freestyle"] == Str("beta");
    assert Lookup(s1.after.frames, "freestyle") == Some(Str("beta"));
  }

  /** `{% assign freestyle = tags["greek"] %}{{ freestyle }}` with tags = {"greek": "alpha"} renders "alpha". */
  lemma ExampleObjectKey()
    ensures Templates.RenderSeq(
              [AsStep(Assign("freestyle", FilterChain(Variable("tags", [Key("greek")]), []))),
               FilterChains.AsStep(FilterChain(Variable("freestyle", []), []))],
              WithTags(Object([("greek", Str("alpha"))]))).written
            == "alpha"
  {
    var s0 := WithTags(Object([("greek", Str("alpha"))]));
    assert Lookup(s0.frames, "tags") == Some(Object([("greek", Str("alpha"))]));
    var s1 := RenderSpec(Assign("freestyle", FilterChain(Variable("tags", [Key("greek")]), [])), s0);
    assert s1.after.frames[0]["freestyle"] == Str("alpha");
    assert Lookup(s1.after.frames, "freestyle") == Some(Str("alpha"));
  }
}
