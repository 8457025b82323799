# liquid-rust render core, modelled in Dafny

This project models the render-time core of liquid-rust, a Rust implementation of the Liquid
template language:

- the **template executor** (`Template::render_to`): renders its child nodes in order; an error
  from a child aborts the rest; after each child it checks the runtime's interrupt flag (set by
  `break`/`continue`) and, when set, stops without clearing it;
- the **filter chain** (`FilterChain::evaluate`, its `Display` form and its `render_to` as an
  output tag `{{ ... }}`): a left fold of partial filters over the entry expression's value, cut
  short by the first failing filter, whose result becomes owned once a filter has run;
- the **`assign` tag**: a four-step token parser (identifier, `=`, filter chain, nothing more)
  and a renderer that evaluates the chain and binds the value in the outermost frame of the
  variable stack (`set_global`), writing no text;
- the **`ifchanged` block**: the `State { last_rendered }` machine with `has_changed`, and a
  renderer that renders its body to a buffer and emits it only when it differs from the last
  remembered rendering. The state sits in the runtime's register, which is keyed by type, so all
  `ifchanged` occurrences of one render share one slot.

Modules, one concern each:

| file | module | contents |
|---|---|---|
| values.dfy | `Values` | values, the borrowed/owned wrapper, errors with context and trace, indexing, display |
| runtime.dfy | `Interpreter` | the variable stack, expressions, the `Runtime` class, the node contract `Step` |
| template.dfy | `Templates` | the executor: specification `RenderSeq`, imperative `RenderTo`, the ordering, interrupt and error laws |
| filter_chain.dfy | `FilterChains` | filters, `Evaluate` (loop) against `ApplyFilters`, display, output rendering |
| tag_tokens.dfy | `TagTokens` | argument tokens and the `TagTokenIter` class consumed from the front |
| assign_tag.dfy | `AssignTag` | `Parse`, `RenderTo`, trace, the binding laws, the tests' outputs |
| ifchanged_block.dfy | `IfChangedState`, `IfChangedBlock` | the `State` class, the emitted text over a series of renders, the block's renderer and parser |

How the source's forms are carried over:

- A renderable node is a state transformer `Step = RuntimeState -> StepResult`: the text it
  writes (kept even when it then fails), its outcome and the runtime state it leaves. The
  executor, the output tag, `assign` and `ifchanged` are each given as a specification function
  (`RenderSeq`, `RenderSpec`) and lifted into steps (`AsStep`), so they compose inside templates
  and blocks.
- The runtime is a class `Interpreter.Runtime` with the stack, the interrupt and the register
  (an `IfChangedState.State` object). Every `RenderTo` method works on it (in place, where the
  node changes it) and is proved to write, return and leave exactly what its specification function
  computes.
- The writer is the text a method returns; writes do not fail.
- The stack is `seq<map<string, Value>>` with frame 0 the outermost; `set_global` updates frame 0.
- Expression evaluation (not part of the core) is modelled in the simplest form the core needs:
  a literal is its own value, a variable is looked up from the innermost frame outwards and then
  indexed. A root variable bound nowhere is an error ("Unknown variable"); an index that misses
  gives nil. Both results are borrowed.

## Model

| member | source | states |
|---|---|---|
| Templates.RenderTo | crates/interpreter/src/template.rs:22-35 | the loop writes, returns and leaves in the runtime exactly what `RenderSeq` specifies: children in order, each on the state its predecessor left, stopping after a failure or a set interrupt |
| Templates.RenderSeqAppend | crates/interpreter/src/template.rs:23-24 | children run in list order: the output of a prefix that does not stop comes first, and the following children run on the state it left |
| Templates.RenderSeqStops | crates/interpreter/src/template.rs:24-31 | once a prefix fails or sets the interrupt, no later child is rendered and nothing is added |
| Templates.ChildStops | crates/interpreter/src/template.rs:23-33 | when child k is reached and stops, the result is the text before it followed by child k's own result |
| Templates.InterruptLaw | crates/interpreter/src/template.rs:30-31 | when child k sets the interrupt, children after k are not rendered, the result is Ok, and the interrupt is still set on exit |
| Templates.ErrorLaw | crates/interpreter/src/template.rs:24 | when child k fails, its error is the template's error and the text already written stays |
| Templates.EmptyTemplate | crates/interpreter/src/template.rs:23-34 | an empty template writes nothing, returns Ok and leaves the runtime unchanged |
| Templates.EndsInNodeState | crates/interpreter/src/template.rs:22-35 | the final runtime state (interrupt included) is the one the last rendered child left, that child having run on its predecessors' state and being the last child or one that stopped; the executor never clears the interrupt itself |
| Interpreter.EvaluateExpression | crates/compiler/src/filter_chain.rs:29 | an entry's value is borrowed; a literal evaluates to itself; a variable fails exactly when its root is bound in no frame |
| FilterChains.Evaluate | crates/compiler/src/filter_chain.rs:27-45 | the loop returns `Evaluation`: the entry's error, or the left fold of the filters over the entry's value |
| FilterChains.NoFilters | crates/compiler/src/filter_chain.rs:29-44 | with no filters the result is the entry's own value, still borrowed |
| FilterChains.FilteredIsOwned | crates/compiler/src/filter_chain.rs:33 | once one or more filters have all succeeded, the result is owned |
| FilterChains.ApplyFiltersAppend | crates/compiler/src/filter_chain.rs:32-35 | filters apply in declaration order, each to the previous one's output; a failing prefix decides the result |
| FilterChains.FirstFailure | crates/compiler/src/filter_chain.rs:33-40 | the first failing filter's error is the result, traced as a filter error with context `filter` (its source) and `input` (the value fed into it); later filters play no part |
| FilterChains.DisplayNoFilters | crates/compiler/src/filter_chain.rs:48-57 | with no filters the source form is the entry followed by " \| " |
| FilterChains.DisplayOneFilter | crates/compiler/src/filter_chain.rs:48-57 | with one filter the source form is the entry, " \| " and the filter's source form |
| FilterChains.DisplayAddFilter | crates/compiler/src/filter_chain.rs:48-57 | adding a filter extends the source form by " \| " and that filter's source form |
| FilterChains.RenderTo | crates/compiler/src/filter_chain.rs:59-65 | succeeds iff evaluation succeeds; then writes the rendering of the final value and nothing else; on failure writes nothing and returns the evaluation's error; in both cases the result is `RenderSpec`'s and the runtime is untouched |
| TagTokens.ExpectIdentifier | crates/lib/src/stdlib/tags/assign_tag.rs:60-64 | a token is accepted as identifier iff the lexer read it as one, yielding its text |
| TagTokens.ExpectFilterChain | crates/lib/src/stdlib/tags/assign_tag.rs:71-74 | a token is accepted iff it reads as a filter chain, yielding that chain |
| TagTokens.TagTokenIter.ExpectNext | crates/lib/src/stdlib/tags/assign_tag.rs:61 | takes the first remaining token, or fails with the given message when none is left |
| TagTokens.TagTokenIter.ExpectNothing | crates/lib/src/stdlib/tags/assign_tag.rs:76-77 | succeeds iff no token is left; otherwise reports the first leftover token |
| AssignTag.Parse | crates/lib/src/stdlib/tags/assign_tag.rs:55-80 | succeeds iff the arguments are identifier, `=`, filter chain and nothing else, building `Assign(dst, src)` from them; each other shape fails with its own message |
| AssignTag.TraceSpelledOut | crates/lib/src/stdlib/tags/assign_tag.rs:18-20 | the trace, built as the tag's markup, reads `{% assign <dst> = <src>%}` with the chain in its source form |
| AssignTag.RenderTo | crates/lib/src/stdlib/tags/assign_tag.rs:24-32 | writes nothing and leaves the runtime exactly as `RenderSpec` specifies |
| AssignTag.AssignSucceeds | crates/lib/src/stdlib/tags/assign_tag.rs:30 | after a successful render frame 0 maps `dst` to the value; every other key, every inner frame, the interrupt and the register are unchanged |
| AssignTag.AssignVisibleAfterPop | crates/lib/src/stdlib/tags/assign_tag.rs:172-229 | the binding survives popping the inner frames: once no remaining frame above the outermost binds `dst`, looking it up gives the assigned value |
| AssignTag.AssignFails | crates/lib/src/stdlib/tags/assign_tag.rs:25-28 | when evaluation fails, the runtime is unchanged, nothing is written and the error carries the tag's trace |
| AssignTag.ExampleLiteral | crates/lib/src/stdlib/tags/assign_tag.rs:112-123 | `{% assign freestyle = false %}{{ freestyle }}` renders "false" |
| AssignTag.ExampleArrayIndex | crates/lib/src/stdlib/tags/assign_tag.rs:125-145 | with `tags` = ["alpha", "beta", "gamma"], `tags[1]` assigned and output renders "beta" |
| AssignTag.ExampleObjectKey | crates/lib/src/stdlib/tags/assign_tag.rs:147-170 | with `tags` = {"greek": "alpha"}, `tags["greek"]` assigned and output renders "alpha" |
| IfChangedState.ChangedIffDiffers | crates/lib/src/stdlib/blocks/ifchanged_block.rs:92-96 | a rendering counts as changed iff the remembered one is not that rendering; always when nothing is remembered |
| IfChangedState.State.HasChanged | crates/lib/src/stdlib/blocks/ifchanged_block.rs:91-100 | answers `Changed(old last_rendered, rendered)` and remembers `rendered` whatever the answer |
| IfChangedState.HasChangedTwice | crates/lib/src/stdlib/blocks/ifchanged_block.rs:91-100 | asking twice about the same rendering answers "unchanged" the second time |
| IfChangedState.EmittedSnoc | crates/lib/src/stdlib/blocks/ifchanged_block.rs:30-32 | one more render adds its text iff it differs from what the earlier renders left remembered |
| IfChangedState.EmittedAppend | crates/lib/src/stdlib/blocks/ifchanged_block.rs:30-32 | a series of renders splits: the second part starts from what the first part left remembered |
| IfChangedState.EmittedIsCollapsed | crates/lib/src/stdlib/blocks/ifchanged_block.rs:127-145 | from an empty register, the output is the concatenation of the renders that differ from their predecessor |
| IfChangedState.EmittedRun | crates/lib/src/stdlib/blocks/ifchanged_block.rs:30-32 | a run of one rendering is emitted at most once, only if it differs from the remembered one, and is remembered |
| IfChangedState.TwoRuns | crates/lib/src/stdlib/blocks/ifchanged_block.rs:127-145 | two runs of distinct renderings from an empty register emit each rendering once |
| IfChangedState.ExampleLoop | crates/lib/src/stdlib/blocks/ifchanged_block.rs:127-145 | six renders of "\nHey! " then five of "\nHey! Numbers are now bigger than 5!" emit the two texts once each, as the test expects |
| IfChangedBlock.Trace | crates/lib/src/stdlib/blocks/ifchanged_block.rs:17-19 | the corrected trace is the block's opening tag `{% ifchanged %}` |
| IfChangedBlock.TraceAsWrittenIsNotTagMarkup | crates/lib/src/stdlib/blocks/ifchanged_block.rs:17-19 | the trace as written is not the opening tag: it is the tag with an extra brace on each side |
| IfChangedBlock.RenderTo | crates/lib/src/stdlib/blocks/ifchanged_block.rs:23-35 | renders the body and the register exactly as `RenderSpec` specifies |
| IfChangedBlock.EmitsIffChanged | crates/lib/src/stdlib/blocks/ifchanged_block.rs:30-32 | when the body renders, its text is emitted iff it differs from the remembered rendering, nothing otherwise, and it is remembered either way |
| IfChangedBlock.BodyFailureEmitsNothing | crates/lib/src/stdlib/blocks/ifchanged_block.rs:24-27 | when the body fails, nothing is emitted, the register is not updated, and the error carries the block's trace |
| IfChangedBlock.Parse | crates/lib/src/stdlib/blocks/ifchanged_block.rs:61-75 | succeeds iff there are no arguments and the body parses, keeping the body's nodes as given; a leftover argument or a body error is the result |
| IfChangedBlock.OccurrencesEmit | crates/lib/src/stdlib/blocks/ifchanged_block.rs:23-35 | a series of `ifchanged` blocks sharing the register emits exactly `Emitted`: each body text that differs from the remembered one |

## Left out

- `Template::new` and `FilterChain::new` are the datatype constructors `Template` and `FilterChain`, which keep their arguments exactly as given.
- The `break` and `continue` tags that set the interrupt, and the `for`/`if` blocks used in the tests, are not part of this model; a child step may set or leave the interrupt as it likes.
- Expression evaluation and value indexing are not part of the core; they are modelled as described above (unknown root variable is an error, index misses give nil, negative positions count from the end).
- Concrete filters are abstract functions `Value -> Result<Value>`; filters that read the runtime for their arguments are not modelled.
- Values have no floats, dates or 64-bit bounds; integers are unbounded.
- The rendering and source form of arrays and objects are an approximation of the value crate, which is not part of this model.
- Writes to the output never fail: the "Failed to render" path of `write!` and the UTF-8 `expect` in `ifchanged` are left out.
- Errors keep their message, context pairs and trace lines; their display format is not modelled.
- The lexer, `parse_all` and `TagBlock::assert_empty` are not modelled: the block body is given as the already-parsed result of `parse_all`.
- The register is a single `Option<string>` slot shared by all `ifchanged` blocks, as the type-keyed register behaves; other register types are not modelled.
- IfChangedBlock.RenderTo: on a body error it adds the corrected trace `{% ifchanged %}` (`IfChangedBlock.Trace`), not the source's `{{% ifchanged %}}`; see "## Findings".
- IfChangedBlock.BodyFailureEmitsNothing: states the error with the corrected trace, as `IfChangedBlock.RenderTo` adds it.
- IfChangedState.ExampleLoop: states the test's expected output as the concatenation of its two texts rather than as one string literal.
- The command-line program, the literal-building macros and the value crate's re-exports are not part of this model.

## Findings

| source | as written | input that shows it | evidently intended | confidence | as-written member | corrected member |
|---|---|---|---|---|---|---|
| crates/lib/src/stdlib/blocks/ifchanged_block.rs:18 | the trace is the plain string literal `"{{% ifchanged %}}"`, whose doubled braces are only an escape inside `format!`, so the trace reads `{{% ifchanged %}}` | any body error, e.g. a filter failing inside `{% ifchanged %}` | the trace `{% ifchanged %}`, like `assign`'s trace built with `format!` | high, not executed | IfChangedBlock.TraceAsWrittenIsNotTagMarkup | IfChangedBlock.Trace |
