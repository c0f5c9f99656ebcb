/** What the outside world does to the driver, and which runs that leads to. */
module DriverInputs {
  import opened SplitTypes
  import opened Ancestry
  import opened Propagation
  import opened DriverSteps
  import opened DriverRuns
  import W = WireFormat

  // ----- Inputs -----

  /** Process events are inputs when they are dispatched. Until then they wait in a queue. */
  datatype Input =
    | Control(request: Request, address: nat, inputLength: nat, outputLength: nat)
    | ProcessArriving(pid: Pid, parent: Pid, name: ImageName)
    | ProcessDeparting(pid: Pid)

  /** The buffers that come with a request are unreasonably large. */
  predicate Oversized(inputLength: nat, outputLength: nat) {
    inputLength > W.MAX_IO_BUFFER_SIZE || outputLength > W.MAX_IO_BUFFER_SIZE
  }

  /** The size of the buffer in a request, if it carries one of a size that is up to the caller. */
  function BufferLength(request: Request): nat {
    if request.RegisterProcesses? || request.SetConfiguration? then |request.buffer| else 0
  }

  /** A request says how long its buffer is, and that is in memory somewhere. */
  predicate Sized(input: Input) {
    input.Control? ==> input.address < W.SIZE_T_LIMIT && BufferLength(input.request) <= input.inputLength
  }

  /** An input that the driver can be done with: a request that does not set off a walk without end, or
      any process event. */
  ghost predicate Welcome(fold: CaseFolding, input: Input, s: State) {
    Sized(input) && (input.Control? ==> Completes(fold, input.request, s))
  }

  /** Process events are dispatched once processes are registered, and until the driver is torn down. */
  predicate Dispatching(s: State) {
    s.phase == Ready || s.phase == Engaged
  }

  /** The step that an input leads to, whatever its outcome. */
  predicate StepFor(fold: CaseFolding, input: Input, s: State, step: Step) {
    match input
    case Control(request, _, inputLength, outputLength) =>
      if Oversized(inputLength, outputLength) then step == Ignore else step.Serve? && step.request == request
    case ProcessArriving(p, parent, name) =>
      if !Dispatching(s) then step == Ignore
      else step.Arrive? && step.pid == p && step.parent == parent && step.image == FoldName(fold, name)
    case ProcessDeparting(p) =>
      if !Dispatching(s) then step == Ignore else step.Depart? && step.pid == p
  }

  // ----- What the inputs so far have led to -----

  ghost predicate Follows(fold: CaseFolding, inputs: seq<Input>, steps: seq<Step>, states: seq<State>) {
    && |steps| <= |inputs| && |steps| <= |states|
    && forall i :: 0 <= i < |steps| ==> StepFor(fold, inputs[i], states[i], steps[i])
  }

  /** The inputs so far have been served by a run that ends in the given state. */
  ghost predicate Accomplished(fold: CaseFolding, inputs: seq<Input>, steps: seq<Step>, states: seq<State>, s: State) {
    Run(fold, steps, states) && Follows(fold, inputs, steps, states) && states[|steps|] == s
  }

  /** Wherever the inputs may have led to, the next one is welcome. */
  ghost predicate AlwaysWelcome(fold: CaseFolding, inputs: seq<Input>) {
    forall steps, states, s {:trigger Accomplished(fold, inputs, steps, states, s)} ::
      Accomplished(fold, inputs, steps, states, s) && |steps| < |inputs| ==> Welcome(fold, inputs[|steps|], s)
  }

  lemma NextWelcome(fold: CaseFolding, inputs: seq<Input>, steps: seq<Step>, states: seq<State>, s: State)
    requires AlwaysWelcome(fold, inputs)
    requires Accomplished(fold, inputs, steps, states, s) && |steps| < |inputs|
    ensures Welcome(fold, inputs[|steps|], s)
  {
    hide Welcome, Accomplished;
  }

  lemma AccomplishedSnoc(fold: CaseFolding, inputs: seq<Input>, steps: seq<Step>, states: seq<State>, s: State,
                         step: Step, s': State)
    requires Accomplished(fold, inputs, steps, states, s) && |steps| < |inputs|
    requires StepFor(fold, inputs[|steps|], s, step) && Next(fold, step, s, s')
    ensures Accomplished(fold, inputs, steps + [step], states + [s'], s')
  {
    hide StepFor, Next;
    RunSnoc(fold, steps, states, step, s');
  }

  lemma NothingAccomplished(fold: CaseFolding, inputs: seq<Input>)
    ensures Inv(INITIAL_STATE) && Accomplished(fold, inputs, [], [INITIAL_STATE], INITIAL_STATE)
  {
    InitialInv();
  }

  // ----- When inputs are always welcome -----

  /** As long as nothing has closed a cycle of parent links, any next input is welcome. */
  lemma AdmissibleWelcome(fold: CaseFolding, inputs: seq<Input>, steps: seq<Step>, states: seq<State>, s: State)
    requires Accomplished(fold, inputs, steps, states, s) && |steps| < |inputs| && Sized(inputs[|steps|])
    requires forall i :: 0 <= i < |steps| ==> Admissible(fold, steps[i], states[i])
    ensures Welcome(fold, inputs[|steps|], s)
  {
    hide Admissible, Next, Completes, StepFor, Acyclic;
    AcyclicRun(fold, steps, states, |steps|);
    if inputs[|steps|].Control? {
      AcyclicCompletes(fold, inputs[|steps|].request, s);
    }
  }

  /** Every parent was born before its children. */
  ghost predicate Ordered(birth: Pid -> nat, r: Registry) {
    forall p :: p in r && r[p].parent != NO_PROCESS ==> birth(r[p].parent) < birth(p)
  }

  predicate OrderedLink(birth: Pid -> nat, p: Pid, parent: Pid) {
    parent == NO_PROCESS || birth(parent) < birth(p)
  }

  /** Nothing in the input contradicts the order of births. */
  ghost predicate OrderedInput(birth: Pid -> nat, input: Input) {
    match input
    case Control(RegisterProcesses(b), _, _, _) =>
      W.WellFormed(W.PROCESSES, b)
      ==> forall i: nat :: i < W.NumEntries(b) ==> OrderedLink(birth, PidAt(b, i), ParentAt(b, i))
    case ProcessArriving(p, parent, _) => OrderedLink(birth, p, parent)
    case _ => true
  }

  lemma OrderedAcyclic(birth: Pid -> nat, r: Registry)
    requires Ordered(birth, r)
    ensures Acyclic(r)
  {
    var rank: map<Pid, nat> := map p | p in r :: birth(p);
    assert Ranks(rank, r);
  }

  lemma OrderedLoaded(fold: CaseFolding, birth: Pid -> nat, input: Input, s: State, s': State, ok: bool)
    requires input.Control? && input.request.RegisterProcesses? && OrderedInput(birth, input)
    requires RequestStep(fold, input.request, s, s', ok) && Ordered(birth, s.registry)
    ensures Ordered(birth, s'.registry)
  {
    hide W.Decode, W.EntryAt, W.StringOf, W.StringInside;
    var b := input.request.buffer;
    if s.phase == Initialized && ok {
      forall p | p in s'.registry && s'.registry[p].parent != NO_PROCESS
        ensures birth(s'.registry[p].parent) < birth(p)
      {
        var i: nat :| i < W.NumEntries(b) && PidAt(b, i) == p;
        assert s'.registry[p] == DiscoveredEntry(fold, b, i);
        assert OrderedLink(birth, PidAt(b, i), ParentAt(b, i));
      }
    }
  }

  lemma OrderedStep(fold: CaseFolding, birth: Pid -> nat, input: Input, step: Step, s: State, s': State)
    requires OrderedInput(birth, input) && StepFor(fold, input, s, step)
    requires Next(fold, step, s, s') && Ordered(birth, s.registry)
    ensures Ordered(birth, s'.registry)
  {
    hide RequestStep;
    if step.Serve? {
      if step.request.RegisterProcesses? {
        OrderedLoaded(fold, birth, input, s, s', step.ok);
      } else {
        RequestSameParents(fold, step.request, s, s', step.ok);
      }
    }
  }

  lemma {:induction false} OrderedRun(fold: CaseFolding, birth: Pid -> nat, inputs: seq<Input>, steps: seq<Step>,
                                      states: seq<State>, n: nat)
    requires Run(fold, steps, states) && Follows(fold, inputs, steps, states) && n <= |steps|
    requires forall i :: 0 <= i < |inputs| ==> OrderedInput(birth, inputs[i])
    ensures Ordered(birth, states[n].registry)
  {
    hide Next, StepFor, OrderedInput;
    if n > 0 {
      OrderedRun(fold, birth, inputs, steps, states, n - 1);
      OrderedStep(fold, birth, inputs[n - 1], steps[n - 1], states[n - 1], states[n]);
    }
  }

  /** Requests and process events in any order, whatever fails, are always welcome if there is an order of
      births in which every parent that they name comes before its child. */
  lemma OrderedAlwaysWelcome(fold: CaseFolding, birth: Pid -> nat, inputs: seq<Input>)
    requires forall i :: 0 <= i < |inputs| ==> Sized(inputs[i]) && OrderedInput(birth, inputs[i])
    ensures AlwaysWelcome(fold, inputs)
  {
    hide Run, Follows, OrderedInput, Completes;
    forall steps, states, s | Accomplished(fold, inputs, steps, states, s) && |steps| < |inputs|
      ensures Welcome(fold, inputs[|steps|], s)
    {
      AccomplishedOrdered(fold, birth, inputs, steps, states, s);
      OrderedAcyclic(birth, s.registry);
      if inputs[|steps|].Control? {
        AcyclicCompletes(fold, inputs[|steps|].request, s);
      }
    }
  }

  lemma AccomplishedOrdered(fold: CaseFolding, birth: Pid -> nat, inputs: seq<Input>, steps: seq<Step>,
                            states: seq<State>, s: State)
    requires Accomplished(fold, inputs, steps, states, s)
    requires forall i :: 0 <= i < |inputs| ==> OrderedInput(birth, inputs[i])
    ensures Ordered(birth, s.registry)
  {
    hide Next, StepFor, OrderedInput;
    OrderedRun(fold, birth, inputs, steps, states, |steps|);
  }
}
