/** The per-render execution context: the variable stack, the interrupt
    signal and the auxiliary-state register, plus the expressions evaluated
    against the stack and the contract every renderable node satisfies. */
module Interpreter {
  import opened Values
  import IfChangedState

  datatype InterruptState = Break | Continue

  /** The variable stack: frame 0 is the outermost (global) frame, the last frame the innermost.
      The global frame is always present. */
  type Frames = f: seq<map<string, Value>> | |f| >= 1 witness [map[]]

  /** Variable lookup, from the innermost frame outwards: the value bound in the innermost frame
      that binds `name`, or None when no frame does. */
  function Lookup(frames: seq<map<string, Value>>, name: string): (r: Option<Value>)
    ensures r.Some? <==> exists i :: 0 <= i < |frames| && name in frames[i]
    ensures r.Some? ==> exists i :: 0 <= i < |frames| && name in frames[i] && r.value == frames[i][name]
                                    && forall j :: i < j < |frames| ==> name !in frames[j]
    decreases |frames|
  {
    if frames == [] then None
    else if name in frames[|frames| - 1] then Some(frames[|frames| - 1][name])
    else
      var r := Lookup(frames[..|frames| - 1], name);
      assert forall i :: 0 <= i < |frames| - 1 ==> frames[..|frames| - 1][i] == frames[i];
      r
  }

  /** `set_global`: bind `name` to `v` in the outermost frame, whatever the current depth. */
  function SetGlobalIn(frames: Frames, name: string, v: Value): (r: Frames)
    ensures |r| == |frames|
    ensures name in r[0] && r[0][name] == v
    ensures forall k :: k != name ==> (k in r[0] <==> k in frames[0])
    ensures forall k :: k != name && k in frames[0] ==> r[0][k] == frames[0][k]
    ensures forall j :: 1 <= j < |r| ==> r[j] == frames[j]
  {
    frames[0 := frames[0][name := v]]
  }

  /** A binding written to the global frame is what a lookup finds once every inner frame that
      would shadow it has been popped. */
  lemma {:induction false} GlobalSurvivesPop(frames: Frames, name: string, v: Value, depth: nat)
    requires 1 <= depth <= |frames|
    requires forall j :: 1 <= j < depth ==> name !in frames[j]
    ensures Lookup(SetGlobalIn(frames, name, v)[..depth], name) == Some(v)
  {
    var popped := SetGlobalIn(frames, name, v)[..depth];
    var r := Lookup(popped, name);
    assert name in popped[0];
  }

  datatype Expression = Literal(value: Value) | Variable(root: string, path: seq<Index>)

  function UnknownVariable(name: string): Error {
    Message("Unknown variable").Context("requested variable", name)
  }

  /** Evaluate an expression against the stack. A literal is its own value; a variable is looked up
      from the innermost frame outwards and then indexed along its path. Both are borrowed. */
  function EvaluateExpression(e: Expression, frames: Frames): (r: Result<ValueCow>)
    ensures r.Ok? ==> r.value.Borrowed?
    ensures e.Literal? ==> r == Ok(Borrowed(e.value))
    ensures e.Variable? ==> (r.Err? <==> forall i :: 0 <= i < |frames| ==> e.root !in frames[i])
    ensures e.Variable? && r.Err? ==> r.error == UnknownVariable(e.root)
  {
    match e
    case Literal(v) => Ok(Borrowed(v))
    case Variable(root, path) =>
      match Lookup(frames, root)
      case None => Err(UnknownVariable(root))
      case Some(v) => Ok(Borrowed(GetPath(v, path)))
  }

  function IndexSource(idx: Index): string {
    match idx
    case Key(k) => "[\"" + k + "\"]"
    case Pos(p) => "[" + IntToString(p) + "]"
  }

  /** The source form of an expression. */
  function ExpressionSource(e: Expression): string {
    match e
    case Literal(v) => Source(v)
    case Variable(root, path) => root + Concat(seq(|path|, k requires 0 <= k < |path| => IndexSource(path[k])))
  }

  /** Everything a node can observe or change in the runtime. */
  datatype RuntimeState = RuntimeState(frames: Frames, interrupt: Option<InterruptState>, lastRendered: Option<string>)

  /** What rendering a node did: the text it wrote to the sink (kept even when it then failed),
      whether it succeeded, and the runtime state it left behind. */
  datatype StepResult = StepResult(written: string, outcome: Outcome, after: RuntimeState)

  /** The renderable contract: a node renders against the runtime state. */
  type Step = RuntimeState -> StepResult

  /** The state of a fresh render pass: one empty global frame, no interrupt, an empty register. */
  function FreshState(): RuntimeState {
    RuntimeState([map[]], None, None)
  }

  /** The runtime of one render pass. The register for the `ifchanged` state is keyed by that
      state's type, so all `ifchanged` occurrences share this one slot. */
  class Runtime {
    var frames: Frames
    var interrupt: Option<InterruptState>
    const register: IfChangedState.State

    constructor ()
      ensures View() == FreshState()
      ensures fresh(register)
    {
      frames := [map[]];
      interrupt := None;
      register := new IfChangedState.State();
    }

    function View(): RuntimeState
      reads this, register
    {
      RuntimeState(frames, interrupt, register.lastRendered)
    }

    /** Install the state a node left behind. */
    method Restore(s: RuntimeState)
      modifies this, register
      ensures View() == s
    {
      frames := s.frames;
      interrupt := s.interrupt;
      register.lastRendered := s.lastRendered;
    }

    method SetGlobal(name: string, v: Value)
      modifies this
      ensures frames == SetGlobalIn(old(frames), name, v)
      ensures interrupt == old(interrupt)
    {
      frames := SetGlobalIn(frames, name, v);
    }
  }
}
