/** The state machine behind `ifchanged`: it remembers the last rendering
    of the block and reports whether a new rendering differs from it. */
module IfChangedState {
  import opened Values

  /** Whether `rendered` counts as a change against the remembered rendering `last`:
      always when nothing is remembered, otherwise when the two differ. */
  predicate Changed(last: Option<string>, rendered: string) {
    match last
    case Some(l) => l != rendered
    case None => true
  }

  lemma ChangedIffDiffers(last: Option<string>, rendered: string)
    ensures Changed(last, rendered) <==> last != Some(rendered)
    ensures last == None ==> Changed(last, rendered)
  {
  }

  class State {
    var lastRendered: Option<string>

    constructor ()
      ensures lastRendered == None
    {
      lastRendered := None;
    }

    /** Report whether `rendered` differs from the remembered rendering, and remember `rendered`
        whatever the answer. */
    method HasChanged(rendered: string) returns (changed: bool)
      modifies this
      ensures changed == Changed(old(lastRendered), rendered)
      ensures lastRendered == Some(rendered)
    {
      if lastRendered.Some? {
        changed := lastRendered.value != rendered;
      } else {
        changed := true;
      }
      lastRendered := Some(rendered);
    }
  }

  /** Asking twice in a row about the same rendering: the second answer is "unchanged". */
  method HasChangedTwice(s: State, rendered: string) returns (first: bool, second: bool)
    modifies s
    ensures first == Changed(old(s.lastRendered), rendered)
    ensures !second
    ensures s.lastRendered == Some(rendered)
  {
    first := s.HasChanged(rendered);
    second := s.HasChanged(rendered);
  }

  /** The text emitted over a series of renderings of the block, starting from the remembered
      rendering `last`: each rendering is emitted when it counts as changed, and is then remembered. */
  function Emitted(last: Option<string>, renders: seq<string>): string
    decreases |renders|
  {
    if renders == [] then ""
    else (if Changed(last, renders[0]) then renders[0] else "") + Emitted(Some(renders[0]), renders[1..])
  }

  /** The remembered rendering after the series `renders`. */
  function Remembered(last: Option<string>, renders: seq<string>): Option<string>
  {
    if renders == [] then last else Some(renders[|renders| - 1])
  }

  /** The renderings that differ from the one just before them (the first is always kept). */
  function Collapse(renders: seq<string>): seq<string>
  {
    if renders == [] then []
    else
      var init := renders[..|renders| - 1];
      var x := renders[|renders| - 1];
      if init != [] && init[|init| - 1] == x then Collapse(init) else Collapse(init) + [x]
  }

  lemma {:induction false} EmittedSnoc(last: Option<string>, renders: seq<string>, x: string)
    ensures Emitted(last, renders + [x])
            == Emitted(last, renders) + (if Changed(Remembered(last, renders), x) then x else "")
    decreases |renders|
  {
    if renders == [] {
      assert [x][1..] == [];
    } else {
      assert (renders + [x])[1..] == renders[1..] + [x];
      EmittedSnoc(Some(renders[0]), renders[1..], x);
      assert Remembered(Some(renders[0]), renders[1..]) == Remembered(last, renders);
    }
  }

  /** Starting from an empty register, the emitted text is the concatenation of the renderings
      that differ from their predecessor. */
  lemma {:induction false} EmittedIsCollapsed(renders: seq<string>)
    ensures Emitted(None, renders) == Concat(Collapse(renders))
  {
    if renders != [] {
      var init := renders[..|renders| - 1];
      var x := renders[|renders| - 1];
      assert renders == init + [x];
      EmittedSnoc(None, init, x);
      EmittedIsCollapsed(init);
      if init != [] && init[|init| - 1] == x {
      } else {
        ConcatSnoc(Collapse(init), x);
      }
    }
  }

  /** Splitting a series of renderings: the second part starts from what the first part left remembered. */
  lemma {:induction false} EmittedAppend(last: Option<string>, a: seq<string>, b: seq<string>)
    ensures Emitted(last, a + b) == Emitted(last, a) + Emitted(Remembered(last, a), b)
    decreases |a|
  {
    if a == [] {
      assert a + b == b;
    } else {
      assert (a + b)[1..] == a[1..] + b;
      EmittedAppend(Some(a[0]), a[1..], b);
      assert Remembered(Some(a[0]), a[1..]) == Remembered(last, a);
    }
  }

  function Repeat(s: string, n: nat): seq<string>
  {
    if n == 0 then [] else [s] + Repeat(s, n - 1)
  }

  /** Two runs of distinct renderings from an empty register emit each rendering once. */
  lemma TwoRuns(x: string, y: string, m: nat, n: nat)
    requires x != y && m >= 1 && n >= 1
    ensures Emitted(None, Repeat(x, m) + Repeat(y, n)) == x + y
  {
    EmittedAppend(None, Repeat(x, m), Repeat(y, n));
    EmittedRun(None, x, m);
    EmittedRun(Some(x), y, n);
  }

  /** The loop in the block's test renders "\nHey! " for the six values 0..5 and
      "\nHey! Numbers are now bigger than 5!" for the five values 6..10; only the first of each
      run is emitted. */
  lemma ExampleLoop(small: string, big: string)
    requires small == "\nHey! " && big == "\nHey! Numbers are now bigger than 5!"
    ensures Emitted(None, Repeat(small, 6) + Repeat(big, 5)) == small + big
  {
    assert |small| != |big|;
    TwoRuns(small, big, 6, 5);
  }

  /** A run of the same rendering is emitted at most once, and only if it differs from `last`. */
  lemma {:induction false} EmittedRun(last: Option<string>, s: string, n: nat)
    requires n >= 1
    ensures Emitted(last, Repeat(s, n)) == if Changed(last, s) then s else ""
    ensures Remembered(last, Repeat(s, n)) == Some(s)
    decreases n
  {
    if n > 1 {
      EmittedRun(Some(s), s, n - 1);
    }
  }
}

/** The `ifchanged` block: renders its body to a buffer and emits the buffer
    only when it differs from the last remembered rendering. */
module IfChangedBlock {
  import opened Values
  import opened Interpreter
  import opened Templates
  import opened TagTokens
  import IfChangedState

  datatype IfChanged = IfChanged(ifChanged: Template)

  /** The trace line added to an error from the body, exactly as the source writes it. */
  function TraceAsWritten(): string {
    "{{% ifchanged %}}"
  }

  /** The trace line as evidently intended: the block's own opening tag. */
  function Trace(): (t: string)
    ensures t == TagMarkup("ifchanged", "")
  {
    "{% ifchanged %}"
  }

  /** The as-written trace is not the block's opening tag: its braces are doubled, because the
      escaped form used inside a format string was kept in a plain string literal. */
  lemma TraceAsWrittenIsNotTagMarkup()
    ensures TraceAsWritten() != TagMarkup("ifchanged", "")
    ensures TraceAsWritten() == "{" + TagMarkup("ifchanged", "") + "}"
  {
    assert |TraceAsWritten()| == 17;
    assert |TagMarkup("ifchanged", "")| == 15;
  }

  /** Rendering an `ifchanged` block against state `s`. */
  function RenderSpec(n: IfChanged, s: RuntimeState): StepResult
  {
    var body := RenderSeq(n.ifChanged.elements, s);
    if body.outcome.Failed? then
      StepResult("", Failed(body.outcome.error.Trace(Trace())), body.after)
    else
      StepResult(if IfChangedState.Changed(body.after.lastRendered, body.written) then body.written else "",
                 Done,
                 body.after.(lastRendered := Some(body.written)))
  }

  function AsStep(n: IfChanged): Step {
    s => RenderSpec(n, s)
  }

  method RenderTo(n: IfChanged, rt: Runtime) returns (written: string, r: Outcome)
    modifies rt, rt.register
    ensures StepResult(written, r, rt.View()) == RenderSpec(n, old(rt.View()))
  {
    var rendered, bodyOutcome := Templates.RenderTo(n.ifChanged, rt);
    if bodyOutcome.Failed? {
      return "", Failed(bodyOutcome.error.Trace(Trace()));
    }
    var changed := rt.register.HasChanged(rendered);
    written := if changed then rendered else "";
    r := Done;
  }

  /** When the body renders, the block emits the body's text exactly when it differs from the
      remembered rendering, emits nothing otherwise, and remembers the body's text either way. */
  lemma EmitsIffChanged(n: IfChanged, s: RuntimeState)
    requires RenderSeq(n.ifChanged.elements, s).outcome.Done?
    ensures var body := RenderSeq(n.ifChanged.elements, s);
            var r := RenderSpec(n, s);
            && r.outcome.Done?
            && (body.after.lastRendered != Some(body.written) ==> r.written == body.written)
            && (body.after.lastRendered == Some(body.written) ==> r.written == "")
            && r.after.lastRendered == Some(body.written)
            && r.after.frames == body.after.frames
            && r.after.interrupt == body.after.interrupt
  {
  }

  /** When the body fails, the error propagates with the block's trace, nothing is emitted, and
      the register keeps whatever the body left there. */
  lemma BodyFailureEmitsNothing(n: IfChanged, s: RuntimeState)
    requires RenderSeq(n.ifChanged.elements, s).outcome.Failed?
    ensures var body := RenderSeq(n.ifChanged.elements, s);
            var r := RenderSpec(n, s);
            && r == StepResult("", Failed(body.outcome.error.Trace(Trace())), body.after)
  {
  }

  /** Parse the block: no arguments are accepted, and the body parsed from the block's own token
      stream becomes the body template, its elements kept as given. */
  method Parse(arguments: TagTokenIter, body: Result<seq<Step>>) returns (r: Result<IfChanged>)
    modifies arguments
    ensures r.Ok? <==> old(arguments.rest) == [] && body.Ok?
    ensures r.Ok? ==> r.value.ifChanged.elements == body.value
    ensures old(arguments.rest) != [] ==> r == Err(UnexpectedArgument(old(arguments.rest)[0]))
    ensures old(arguments.rest) == [] && body.Err? ==> r == Err(body.error)
  {
    var none := arguments.ExpectNothing();
    if none.Failed? {
      return Err(none.error);
    }
    if body.Err? {
      return Err(body.error);
    }
    r := Ok(IfChanged(Template(body.value)));
  }

  /** A body that writes `text` and nothing else. */
  function TextBody(text: string): IfChanged {
    IfChanged(Template([s => StepResult(text, Done, s)]))
  }

  /** One `ifchanged` occurrence per rendering; they all share the one register. */
  function Occurrences(renders: seq<string>): seq<Step>
  {
    if renders == [] then [] else [AsStep(TextBody(renders[0]))] + Occurrences(renders[1..])
  }

  /** A series of `ifchanged` renders whose bodies produce `renders` emits exactly `Emitted`:
      each rendering that differs from the remembered one, which is then remembered. */
  lemma {:induction false} OccurrencesEmit(renders: seq<string>, s: RuntimeState)
    requires s.interrupt == None
    ensures RenderSeq(Occurrences(renders), s).written == IfChangedState.Emitted(s.lastRendered, renders)
    ensures RenderSeq(Occurrences(renders), s).outcome == Done
    ensures RenderSeq(Occurrences(renders), s).after
            == s.(lastRendered := IfChangedState.Remembered(s.lastRendered, renders))
  {
    if renders != [] {
      var body := TextBody(renders[0]).ifChanged.elements;
      assert body[0](s) == StepResult(renders[0], Done, s);
      assert RenderSeq(body, s) == StepResult(renders[0], Done, s);
      var first := RenderSpec(TextBody(renders[0]), s);
      var rest := renders[1..];
      assert Occurrences(renders)[1..] == Occurrences(rest);
      assert first.after == s.(lastRendered := Some(renders[0]));
      OccurrencesEmit(rest, first.after);
      if rest == [] {
      } else {
        assert IfChangedState.Remembered(Some(renders[0]), rest) == IfChangedState.Remembered(s.lastRendered, renders);
      }
    }
  }
}
