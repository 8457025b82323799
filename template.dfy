/** The template: an ordered sequence of renderable nodes, rendered in order
    and cut short by an error or by the interrupt signal. */
module Templates {
  import opened Values
  import opened Interpreter

  datatype Template = Template(elements: seq<Step>)

  /** A node's render ends the sequence: it failed, or the interrupt is set after it. */
  predicate Stops(r: StepResult) {
    r.outcome.Failed? || r.after.interrupt.Some?
  }

  /** `r` preceded by the text `w` written before it. */
  function Prepend(w: string, r: StepResult): StepResult {
    r.(written := w + r.written)
  }

  /** Rendering `elements` in order from state `s`: each node renders on the state its predecessor
      left; after each node, a failure or a set interrupt ends the sequence. */
  function RenderSeq(elements: seq<Step>, s: RuntimeState): StepResult
    decreases |elements|
  {
    if elements == [] then StepResult("", Done, s)
    else
      var first := elements[0](s);
      if Stops(first) then first else Prepend(first.written, RenderSeq(elements[1..], first.after))
  }

  method RenderTo(t: Template, rt: Runtime) returns (written: string, r: Outcome)
    modifies rt, rt.register
    ensures StepResult(written, r, rt.View()) == RenderSeq(t.elements, old(rt.View()))
  {
    ghost var start := rt.View();
    written, r := "", Done;
    var i := 0;
    while i < |t.elements|
      invariant 0 <= i <= |t.elements|
      invariant RenderSeq(t.elements, start) == Prepend(written, RenderSeq(t.elements[i..], rt.View()))
      invariant r == Done
    {
      ghost var before := rt.View();
      var el := t.elements[i];
      var step := el(rt.View());
      rt.Restore(step.after);
      assert t.elements[i..][1..] == t.elements[i + 1..];
      assert RenderSeq(t.elements[i..], before)
          == if Stops(step) then step else Prepend(step.written, RenderSeq(t.elements[i + 1..], step.after));
      written := written + step.written;
      if step.outcome.Failed? {
        r := step.outcome;
        return;
      }
      if rt.interrupt.Some? {
        break;
      }
      i := i + 1;
    }
  }

  /** Appending nodes after a prefix that renders without stopping: the prefix's text comes first,
      and the appended nodes render on the state the prefix left. */
  lemma {:induction false} RenderSeqAppend(a: seq<Step>, b: seq<Step>, s: RuntimeState)
    requires a == [] || !Stops(RenderSeq(a, s))
    ensures RenderSeq(a + b, s) == Prepend(RenderSeq(a, s).written, RenderSeq(b, RenderSeq(a, s).after))
  {
    if a == [] {
      assert a + b == b;
    } else {
      var first := a[0](s);
      assert (a + b)[0] == a[0];
      assert (a + b)[1..] == a[1..] + b;
      assert !Stops(first);
      assert RenderSeq(a, s) == Prepend(first.written, RenderSeq(a[1..], first.after));
      RenderSeqAppend(a[1..], b, first.after);
    }
  }

  /** Once a non-empty prefix stops, nothing appended after it is rendered. */
  lemma {:induction false} RenderSeqStops(a: seq<Step>, b: seq<Step>, s: RuntimeState)
    requires a != [] && Stops(RenderSeq(a, s))
    ensures RenderSeq(a + b, s) == RenderSeq(a, s)
  {
    var first := a[0](s);
    assert (a + b)[0] == a[0];
    assert (a + b)[1..] == a[1..] + b;
    if !Stops(first) {
      assert RenderSeq(a, s) == Prepend(first.written, RenderSeq(a[1..], first.after));
      assert a[1..] != [];
      RenderSeqStops(a[1..], b, first.after);
    }
  }

  /** If node k is reached and fails or sets the interrupt, the sequence ends with node k: the text
      written before it stays, its outcome is the sequence's outcome, the state it left (interrupt
      included) is the final state, and no later node renders. */
  lemma ChildStops(elements: seq<Step>, s: RuntimeState, k: nat)
    requires k < |elements|
    requires k == 0 || !Stops(RenderSeq(elements[..k], s))
    requires Stops(elements[k](RenderSeq(elements[..k], s).after))
    ensures var before := RenderSeq(elements[..k], s);
            RenderSeq(elements, s) == Prepend(before.written, elements[k](before.after))
  {
    var before := RenderSeq(elements[..k], s);
    assert elements == elements[..k] + elements[k..];
    RenderSeqAppend(elements[..k], elements[k..], s);
    assert elements[k..][0] == elements[k];
  }

  /** The interrupt law: when node k sets the interrupt, the template stops after it and the
      interrupt is still set on exit. */
  lemma InterruptLaw(elements: seq<Step>, s: RuntimeState, k: nat)
    requires k < |elements|
    requires k == 0 || !Stops(RenderSeq(elements[..k], s))
    requires var rk := elements[k](RenderSeq(elements[..k], s).after);
             rk.outcome.Done? && rk.after.interrupt.Some?
    ensures var before := RenderSeq(elements[..k], s);
            var rk := elements[k](before.after);
            var r := RenderSeq(elements, s);
            && r.outcome == Done
            && r.written == before.written + rk.written
            && r.after == rk.after
            && r.after.interrupt.Some?
  {
    ChildStops(elements, s, k);
  }

  /** When node k fails, its error is the template's, and the text written up to the failure stays. */
  lemma ErrorLaw(elements: seq<Step>, s: RuntimeState, k: nat)
    requires k < |elements|
    requires k == 0 || !Stops(RenderSeq(elements[..k], s))
    requires elements[k](RenderSeq(elements[..k], s).after).outcome.Failed?
    ensures var before := RenderSeq(elements[..k], s);
            var rk := elements[k](before.after);
            var r := RenderSeq(elements, s);
            && r.outcome == rk.outcome
            && r.written == before.written + rk.written
            && r.after == rk.after
  {
    ChildStops(elements, s, k);
  }

  /** An empty template writes nothing, succeeds, and leaves the runtime as it was. */
  lemma EmptyTemplate(s: RuntimeState)
    ensures RenderSeq([], s) == StepResult("", Done, s)
  {
  }

  /** Node k is the last one rendered from `s`: every node before it ran without stopping, and it is
      either the last node or it stopped the sequence. */
  predicate LastRendered(elements: seq<Step>, s: RuntimeState, k: nat)
    requires k < |elements|
  {
    && (k == 0 || !Stops(RenderSeq(elements[..k], s)))
    && (k == |elements| - 1 || Stops(elements[k](RenderSeq(elements[..k], s).after)))
  }

  /** The template itself never changes the runtime: it ends in the state that the last node it
      rendered left, that node having been rendered on the state its predecessors left. In particular,
      the interrupt is set on exit only if that node left it set. */
  lemma {:induction false} EndsInNodeState(elements: seq<Step>, s: RuntimeState)
    requires elements != []
    ensures exists k :: 0 <= k < |elements| && LastRendered(elements, s, k)
                        && RenderSeq(elements, s).after == elements[k](RenderSeq(elements[..k], s).after).after
  {
    var first := elements[0](s);
    assert elements[..0] == [];
    if Stops(first) || |elements| == 1 {
      assert RenderSeq(elements[..0], s) == StepResult("", Done, s);
      assert !Stops(first) ==> elements[1..] == [];
      assert RenderSeq(elements, s).after == first.after;
      assert LastRendered(elements, s, 0);
    } else {
      var rest := elements[1..];
      EndsInNodeState(rest, first.after);
      var j :| 0 <= j < |rest| && LastRendered(rest, first.after, j)
                && RenderSeq(rest, first.after).after == rest[j](RenderSeq(rest[..j], first.after).after).after;
      var k := j + 1;
      assert elements[..k][0] == elements[0] && elements[..k][1..] == rest[..j];
      assert RenderSeq(elements[..k], s) == Prepend(first.written, RenderSeq(rest[..j], first.after));
      assert elements[k] == rest[j];
      assert LastRendered(elements, s, k);
    }
  }

  /** A template as a node of an enclosing block. */
  function AsStep(t: Template): Step {
    s => RenderSeq(t.elements, s)
  }
}

