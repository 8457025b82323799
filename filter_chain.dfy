/** A filter chain: an entry expression threaded through an ordered list of
    filters, as evaluated by output tags and by `assign`. */
module FilterChains {
  import opened Values
  import opened Interpreter

  /** A filter invocation: its source form (name and arguments) and what it computes from its input.
      A filter may reject its input. */
  datatype Filter = Filter(source: string, apply: Value -> Result<Value>)

  datatype FilterChain = FilterChain(entry: Expression, filters: seq<Filter>)

  /** The error a failing filter propagates: its own error traced as a filter error, with the
      filter's source form under `filter` and the source form of the value fed into it under `input`. */
  function FilterError(e: Error, f: Filter, input: Value): Error {
    e.Trace("Filter error").Context("filter", f.source).Context("input", Source(input))
  }

  /** Feeding `input` through `filters` in order: each filter receives the previous one's output,
      the first failure ends the chain, and every filter's output is owned. */
  function ApplyFilters(filters: seq<Filter>, input: ValueCow): Result<ValueCow>
    decreases |filters|
  {
    if filters == [] then Ok(input)
    else
      match filters[0].apply(input.value)
      case Err(e) => Err(FilterError(e, filters[0], input.value))
      case Ok(v) => ApplyFilters(filters[1..], Owned(v))
  }

  /** The value of a chain: the entry's value fed through the filters; no filter runs when the
      entry fails. */
  function Evaluation(chain: FilterChain, frames: Frames): Result<ValueCow>
  {
    match EvaluateExpression(chain.entry, frames)
    case Err(e) => Err(e)
    case Ok(v) => ApplyFilters(chain.filters, v)
  }

  method Evaluate(chain: FilterChain, rt: Runtime) returns (r: Result<ValueCow>)
    ensures r == Evaluation(chain, rt.frames)
  {
    var entry := EvaluateExpression(chain.entry, rt.frames);
    if entry.Err? {
      return Err(entry.error);
    }
    var current := entry.value;
    var i := 0;
    while i < |chain.filters|
      invariant 0 <= i <= |chain.filters|
      invariant ApplyFilters(chain.filters, entry.value) == ApplyFilters(chain.filters[i..], current)
    {
      var filter := chain.filters[i];
      assert chain.filters[i..][0] == filter && chain.filters[i..][1..] == chain.filters[i + 1..];
      var output := filter.apply(current.value);
      if output.Err? {
        return Err(FilterError(output.error, filter, current.value));
      }
      current := Owned(output.value);
      i := i + 1;
    }
    r := Ok(current);
  }

  /** Identity law: with no filters the chain's value is the entry's own, still borrowed. */
  lemma NoFilters(entry: Expression, frames: Frames)
    ensures Evaluation(FilterChain(entry, []), frames) == EvaluateExpression(entry, frames)
    ensures Evaluation(FilterChain(entry, []), frames).Ok? ==> Evaluation(FilterChain(entry, []), frames).value.Borrowed?
  {
  }

  /** Once at least one filter has run, the result is owned. */
  lemma {:induction false} FilteredIsOwned(filters: seq<Filter>, input: ValueCow)
    requires filters != []
    requires ApplyFilters(filters, input).Ok?
    ensures ApplyFilters(filters, input).value.Owned?
  {
    var out := filters[0].apply(input.value);
    if filters[1..] != [] {
      FilteredIsOwned(filters[1..], Owned(out.value));
    }
  }

  /** Filters compose in declaration order: the filters after a prefix receive the prefix's output,
      and a prefix that fails decides the result. */
  lemma {:induction false} ApplyFiltersAppend(a: seq<Filter>, b: seq<Filter>, input: ValueCow)
    ensures ApplyFilters(a + b, input)
            == match ApplyFilters(a, input)
               case Err(e) => Err(e)
               case Ok(v) => ApplyFilters(b, v)
  {
    if a == [] {
      assert a + b == b;
    } else {
      assert (a + b)[0] == a[0];
      assert (a + b)[1..] == a[1..] + b;
      var out := a[0].apply(input.value);
      if out.Ok? {
        ApplyFiltersAppend(a[1..], b, Owned(out.value));
      }
    }
  }

  /** The first failing filter decides the result: filter k, fed the output of the filters before
      it, fails with `e`, so the chain fails with `e` traced with that filter and that input, and
      whatever the later filters are, they play no part. */
  lemma FirstFailure(filters: seq<Filter>, input: ValueCow, k: nat, e: Error)
    requires k < |filters|
    requires ApplyFilters(filters[..k], input).Ok?
    requires filters[k].apply(ApplyFilters(filters[..k], input).value.value) == Err(e)
    ensures var fed := ApplyFilters(filters[..k], input).value.value;
            && ApplyFilters(filters, input) == Err(FilterError(e, filters[k], fed))
            && ("filter", filters[k].source) in ApplyFilters(filters, input).error.context
            && ("input", Source(fed)) in ApplyFilters(filters, input).error.context
  {
    assert filters == filters[..k] + filters[k..];
    ApplyFiltersAppend(filters[..k], filters[k..], input);
    assert filters[k..][0] == filters[k];
  }

  function Sources(filters: seq<Filter>): seq<string> {
    seq(|filters|, k requires 0 <= k < |filters| => filters[k].source)
  }

  /** The source form of a chain: the entry, " | ", then the filters separated by " | ". */
  function Display(chain: FilterChain): string {
    ExpressionSource(chain.entry) + " | " + Join(Sources(chain.filters), " | ")
  }

  /** With no filters the source form is the entry followed by a dangling " | ". */
  lemma DisplayNoFilters(entry: Expression)
    ensures Display(FilterChain(entry, [])) == ExpressionSource(entry) + " | "
  {
  }

  /** With one filter the source form is the entry, " | " and the filter's source form. */
  lemma DisplayOneFilter(entry: Expression, f: Filter)
    ensures Display(FilterChain(entry, [f])) == ExpressionSource(entry) + " | " + f.source
  {
    assert Sources([f]) == [f.source];
  }

  /** Adding a filter to a non-empty chain extends its source form by " | " and the filter's source. */
  lemma DisplayAddFilter(entry: Expression, filters: seq<Filter>, f: Filter)
    requires filters != []
    ensures Display(FilterChain(entry, filters + [f])) == Display(FilterChain(entry, filters)) + " | " + f.source
  {
    assert Sources(filters + [f]) == Sources(filters) + [f.source];
    JoinSnoc(Sources(filters), f.source, " | ");
  }

  /** Rendering an output of the chain against state `s`. */
  function RenderSpec(chain: FilterChain, s: RuntimeState): StepResult {
    match Evaluation(chain, s.frames)
    case Err(e) => StepResult("", Failed(e), s)
    case Ok(v) => StepResult(Render(v.value), Done, s)
  }

  function AsStep(chain: FilterChain): Step {
    s => RenderSpec(chain, s)
  }

  /** Write the rendering of the chain's value and nothing else; fail, writing nothing, when the
      evaluation fails. */
  method RenderTo(chain: FilterChain, rt: Runtime) returns (written: string, r: Outcome)
    ensures r.Done? <==> Evaluation(chain, rt.frames).Ok?
    ensures r.Done? ==> written == Render(Evaluation(chain, rt.frames).value.value)
    ensures r.Failed? ==> written == "" && r.error == Evaluation(chain, rt.frames).error
    ensures StepResult(written, r, rt.View()) == RenderSpec(chain, rt.View())
  {
    var value := Evaluate(chain, rt);
    if value.Err? {
      return "", Failed(value.error);
    }
    written, r := Render(value.value.value), Done;
  }
}
