# Synchronized weighted pushdown systems, verified

A Dafny model of the solver at the core of this repository, with proofs. Run
`dafny verify dfyconfig.toml` in this directory to check it.

- **Incremental weighted post\*** (`Semirings`, `Pushdown`, `PAutomata`, `Justification`,
  `Exactness`, `LeastSolution`, `UnbalancedPops`, `EmptyEpsilon`; `SolverState`, `SolverSteps`,
  `Termination`, `Quiescence`; `PostStar`, `WeightedPushdownSystem`). The class
  `WeightedPAutomaton` is the re-entrant saturation as it is written: adding weight calls
  listeners, which add weight and register listeners. A ghost set records what is still owed to
  whom; a measure over missing transitions, remaining raises, missing nestings and the kind of
  listener shows that the recursion ends. What it computes is specified by derivations and proved
  to be exactly the reachable configurations with their weights. Its update listeners are an
  arbitrary function of what they were told before, and may add rules and transitions in the
  middle of a saturation. `Quiet` is the state between calls from outside; the same class covers
  the flat automaton and the nested summary automata.
- **Synchronized solver** (`SyncMachine`, `StackMachines`, `Synchronization`, `SyncInterleavings`,
  `SyncTermination`, `SyncPDSSolver`, `EmptyStackWitnesses`). Two such automata, one for calls and
  one for fields, expand a node once both report it. Proved sound against a two-stack machine, with
  weights, and exact for its two halves, which are stated with successors and weights and no rule,
  for every interleaving of saturation and callbacks; every such run ends, and ends there.
- **Derived indexes** (`FinalWeights`; `TransitiveClosure`, `ForwardDFSSteps`,
  `ForwardDFSVisitor`; `AccessPaths`). The forward visitor is re-entrant like the saturation.
- **Algebra** (`TypestateWeights`; `RegularExpressions`, `LabeledGraphs`, `PathElimination`,
  `PathExtraction`, `PathExpressions`, `PathExpressionComputer`).
- **Callbacks** (`Reactions`, `PointOfIndirection`): what arrives is what came from outside or what a
  callback returned, and joins see it exactly once.

## Findings

- When the automaton's epsilon is an `Empty`, as `Statement` and `Field` have it, a pop listener
  also moves past epsilon transitions and forgets their weight
  (WPDS/src/wpds/impl/PostStar.java:169). Reachability is unaffected; weights are exact for every
  system if and only if one lies below every weight, which typestate weights do not satisfy.
- `processPush` skips a field push if the target is field-context reachable
  (SynchronizedPDS/src/main/java/sync/pds/solver/SyncPDSSolver.java:589). The target is a
  `PushNode` and the set holds plain nodes, which are never equal to it, so the push rule is
  always added; the model adds it always. The soundness proof relies on that.
- The call stack decides where a return goes, and the field system where its facts go. If a node
  returns to some call sites and not to others, two returns can cross, and a node is reached that
  the two-stack machine does not reach (`StackMachines.CrossedReturns`,
  SynchronizedPDS/src/main/java/sync/pds/solver/SyncPDSSolver.java:572-578). `ReachedByHalves` says
  for every analysis which nodes are reached.
- Path expressions are exact on the graphs that `PathElimination.Tame` describes, and where the
  labels tell the edges apart on no other:
  `eliminate` uses `pvv` without its star and does not restart `w` for each `u`
  (PathExpression/src/pathexpression/PathExpressionComputer.java:131-145).
- A later alias query on the same automaton, also at another statement, can lose access paths
  with fields, since extraction listeners are equal whatever collection they report to
  (boomerangPDS/src/main/java/boomerang/WeightedBoomerang.java:1438-1466).
  `AccessPaths.SharedBaseMisses` is such a case, and `GetAllAliases` states when a query is exact.
- The loop of `callWitness` is over a live view of the field candidates
  (SynchronizedPDS/src/main/java/sync/pds/solver/SyncPDSSolver.java:493). A listener that puts a
  new field candidate of the same fact before its last turn makes the iterator throw, and
  witnesses are lost for good; otherwise each is reported exactly once.

## Assumptions

They are the `requires` clauses of constructors and entry points. Weights form an idempotent
semiring of finite height. Initial transitions lead from control states to the initial state, and
carry no epsilon. Rules name no epsilon; the symbols that normal and push rules write, and call
sites, are no `Empty`, while pop rules may pop any symbol; a wildcard on the left comes only with
a wildcard on the right, as `SyncPDSSolver` builds its rules. `createState` is
injective and fresh, which the constructor `Gen` of `State` expresses. The successor function is
arbitrary, and the nodes it leads to from the starts are finitely many. What listeners add in
turn mentions finitely many states and symbols.

## Model

| member | source | states |
|---|---|---|
| `WeightedPushdownSystems.PoststarExact` | WPDS/src/wpds/impl/PostStar.java:28-33 | Whenever no call is under way, the automaton accepts a configuration with a non-empty stack if and only if some run reaches it; and, if epsilon is not an Empty or one lies below every weight, the weights of its accepting paths have the same upper bounds (so the same least upper bound) as the weights of all runs to it. In flat and in nested mode |
| `WeightedPushdownSystems.PoststarEmptyStackExact` | WPDS/src/wpds/impl/PostStar.java:157-167 | A configuration with an empty stack is reachable if and only if the unbalanced pops have an entry for its state; each entry has the same upper bounds as the runs up to just before its pop, whose rule weight is not applied, and so have all entries of a state together |
| `WeightedPushdownSystems.SameResult` | WPDS/src/wpds/impl/PostStar.java:427-455 | Two automata with the same rules and initial transitions end with the same transitions, weights and unbalanced pops, whatever the order of addRule, poststar and transition insertion was, and whether they are flat or nested |
| `EmptyEpsilon.ExactIffEpsilonNeutral` | WPDS/src/wpds/impl/PostStar.java:169-171 | Weights are exact on every pushdown system if and only if epsilon is not an Empty or one lies below every weight |
| `EmptyEpsilon.ExampleInexact` | WPDS/src/wpds/impl/PostStar.java:169-171 | The failing case, concretely: two nested calls whose returns pass through an Empty epsilon, where the only run weighs a but an accepting path weighs a combined with one |
| `Exactness.AcceptedIffReachable` | WPDS/src/wpds/impl/PostStar.java:287-334 | Every saturated and derivable weight map accepts exactly the reachable non-empty configurations, returns through shared callees and recursion included |
| `Exactness.SameUpperBounds` | WPDS/src/wpds/impl/PostStar.java:95-97 | In a solution, the combination over accepting paths of w(tn) extended up to w(t1) is bounded by exactly what bounds the weights of all runs |
| `Exactness.PathBoundCoversRuns` | WPDS/src/wpds/impl/PostStar.java:143-172 | The half of it that holds also under an Empty epsilon: no run weighs more than the paths say |
| `Exactness.PathsJustified` | WPDS/src/wpds/impl/PostStar.java:156-167 | Every path from a control state is accounted for by finitely many runs to the configuration it reads: no accepted configuration is unreachable |
| `Exactness.RunsCovered` | WPDS/src/wpds/impl/PostStar.java:231-250 | Every run is covered by an accepting path that weighs at least as much and begins without epsilon |
| `Justification.DerivationsJustified` | WPDS/src/wpds/impl/PostStar.java:162-164 | A transition into the generated state of (p', n') stands for runs from the configuration (p', n') to the one it reads, and its weight is at most what finitely many such runs weigh |
| `Justification.SkipPopJustified` | WPDS/src/wpds/impl/PostStar.java:169-171 | What moving past an epsilon transition adds is still justified by runs, with its weight only if one lies below every weight |
| `LeastSolution.SolutionIsLeast` | WPDS/src/wpds/impl/PostStar.java:36-53 | A solution lies below every saturated weight map |
| `LeastSolution.SaturatedIffCovering` | WPDS/src/wpds/impl/PostStar.java:36-53 | A map of derivable weights is saturated if and only if it is at least the value of every derivation |
| `LeastSolution.GeneratedByCall` | WPDS/src/wpds/impl/PostStar.java:297-309 | In a saturated map each derivable transition out of a generated state is the call transition of some push rule that applies to a transition there |
| `LeastSolution.SolutionUnique` | WPDS/src/wpds/impl/PostStar.java:36-53 | There is only one solution for given rules and initial transitions |
| `LeastSolution.TableUnique` | WPDS/src/wpds/impl/WeightedPAutomaton.java:412-422 | The unbalanced pops are determined by the rules and initial transitions too |
| `UnbalancedPops.EntryExact` | WPDS/src/wpds/impl/WeightedPAutomaton.java:412-422 | The single entry of a transition out of a control state has the same upper bounds as all runs to the configuration whose only symbol is popped |
| `UnbalancedPops.SkippedEntryExact` | WPDS/src/wpds/impl/PostStar.java:169-171 | An entry of a transition out of a generated state exists only if epsilon is an Empty; it has the same upper bounds as the runs that end with a call to the callee whose return the pop passed over |
| `UnbalancedPops.EmptyStackExact` | WPDS/src/wpds/impl/WeightedPAutomaton.java:412-422 | Saturated and justified entries are exactly the reachable empty stacks, entry by entry with the weights of the runs up to the last pop, and pooled for a state |
| `PAutomata.DerivableShaped` | WPDS/src/wpds/impl/WeightedPAutomaton.java:239-242 | Only transitions of the right shape are derivable: none starts in the initial state, epsilon leads from a control state into a generated one, so no epsilon self-loop ever comes to be stored |
| `PostStar.WeightedPAutomaton.AddWeightForTransition` | WPDS/src/wpds/impl/WeightedPAutomaton.java:236-266 | Terminates; afterwards the weight of t is at least w, nothing that was stored, registered or delivered is lost, no more is owed to listeners than before, whatever rules and transitions the update listeners added meanwhile is taken care of, and the result says whether any weight changed |
| `PostStar.WeightedPAutomaton.Notify` | WPDS/src/wpds/impl/WeightedPAutomaton.java:257-259 | Update listeners may add rules and initial transitions in the middle of a saturation, depending on all they were told before; when the call is over all that they return for this notification is among the rules and initial transitions, and no more is owed than before |
| `PostStar.WeightedPAutomaton.AddInput` | WPDS/src/wpds/impl/WeightedPAutomaton.java:257-259 | What an update listener returns is among the rules or initial transitions afterwards, and the saturation has taken it up |
| `PostStar.WeightedPAutomaton.InputExact` | WPDS/src/wpds/impl/WeightedPAutomaton.java:257-281 | When the automaton is quiet, its rules and initial transitions are exactly those given from outside and those that the update listeners return for the notifications so far |
| `PostStar.WeightedPAutomaton.Tell` | WPDS/src/wpds/impl/WeightedPAutomaton.java:257-263 | After all listeners have been told of the new weight none of its deliveries is owed |
| `PostStar.WeightedPAutomaton.Raise` | WPDS/src/wpds/impl/WeightedPAutomaton.java:248-256 | Stores the combined weight and takes on exactly one delivery per listener of the automaton of t; indexes, states, transitions and weights stay in agreement |
| `PostStar.WeightedPAutomaton.StoreTransition` | WPDS/src/wpds/impl/WeightedPAutomaton.java:243-255 | The whole new state of the indexes and collections |
| `PostStar.WeightedPAutomaton.StrictlyRaised` | WPDS/src/wpds/impl/WeightedPAutomaton.java:248-257 | A raised weight does not fall back |
| `PostStar.WeightedPAutomaton.TellListeners` | WPDS/src/wpds/impl/WeightedPAutomaton.java:258-263 | After the snapshot loop none of the deliveries to the state listeners at this end of t is owed any more |
| `PostStar.WeightedPAutomaton.TellListener` | WPDS/src/wpds/impl/WeightedPAutomaton.java:261-263 | One turn of the loop: the listener has done its reaction and is owed this delivery no more |
| `PostStar.WeightedPAutomaton.TellEnds` | WPDS/src/wpds/impl/WeightedPAutomaton.java:260-265 | After both loops no delivery of the new weight of t is owed to a state listener |
| `PostStar.WeightedPAutomaton.TellSummaries` | WPDS/src/wpds/impl/PostStar.java:317-329 | Every summary listener at the target of an epsilon transition has connected it: the transition to the return site weighs at least what the call weighed, extended with w |
| `PostStar.WeightedPAutomaton.ConnectReturn` | WPDS/src/wpds/impl/PostStar.java:320-327 | The transition to the return site weighs at least the weight of the call transition extended with w |
| `PostStar.WeightedPAutomaton.RegisterListener` | WPDS/src/wpds/impl/WeightedPAutomaton.java:283-298 | Terminates; the listener is registered, and no more is owed to anybody than before: by the invariant it has been told everything at its state, in all nested automata |
| `PostStar.WeightedPAutomaton.TellExisting` | WPDS/src/wpds/impl/WeightedPAutomaton.java:287-292 | The listener is no longer owed the transitions that were there when it was registered, however many are added meanwhile |
| `PostStar.WeightedPAutomaton.RegisterWithNested` | WPDS/src/wpds/impl/WeightedPAutomaton.java:294-296 | The listener is no longer owed a registration with any automaton nested there |
| `PostStar.WeightedPAutomaton.IndexesAt` | WPDS/src/wpds/impl/WeightedPAutomaton.java:287-292 | transitionsOutOf and transitionsInto hold exactly the weighted transitions at a state |
| `PostStar.WeightedPAutomaton.Partitioned` | WPDS/src/wpds/impl/PostStar.java:427-431 | Nested automata partition the transitions by target: the automaton of a generated state finds at a state exactly the transitions with that target, the root those into the initial state, in both directions, and every transition has one of these targets |
| `PostStar.WeightedPAutomaton.HeldByRoot` | WPDS/src/wpds/impl/PostStar.java:427-431 | Without nesting the one automaton finds all transitions at a state |
| `PostStar.WeightedPAutomaton.NestedExactly` | WPDS/src/wpds/impl/PostStar.java:444-455 | Once quiet, a summary automaton is nested in another exactly if some push rule with its entry applies to a transition whose target names the other |
| `PostStar.WeightedPAutomaton.ReturnNested` | WPDS/src/wpds/impl/PostStar.java:317-329 | Once quiet, an epsilon transition into a callee is held by its summary automaton, which is nested in the one that holds the call it returns to |
| `PostStar.WeightedPAutomaton.OnTransitionAdded` | WPDS/src/wpds/impl/PostStar.java:36-53 | Each kind of listener has done its reaction to the event |
| `PostStar.WeightedPAutomaton.OnNormal` | WPDS/src/wpds/impl/PostStar.java:231-250 | Reaction to a normal rule: wildcard, excluded symbol and epsilon included |
| `PostStar.WeightedPAutomaton.OnPush` | WPDS/src/wpds/impl/PostStar.java:297-333 | Reaction to a push rule: the call transition, the entry transition and, in nested mode, the summary automaton |
| `PostStar.WeightedPAutomaton.EnterCallee` | WPDS/src/wpds/impl/PostStar.java:311-316 | The entry transition is there; in nested mode its summary automaton is nested in the one that is named by the target of the transition the call was made from, and the call has its summary listener |
| `PostStar.WeightedPAutomaton.AddNestedAutomaton` | WPDS/src/wpds/impl/WeightedPAutomaton.java:619-624 | The automaton is nested, and no registration with it is owed to any listener of the parent |
| `PostStar.WeightedPAutomaton.HandOn` | WPDS/src/wpds/impl/WeightedPAutomaton.java:622-624 | No registration with the nested automaton is owed to these listeners of the parent |
| `PostStar.WeightedPAutomaton.ConnectExit` | WPDS/src/wpds/impl/PostStar.java:317-329 | A return that was there when the listener was registered is connected to the call |
| `PostStar.WeightedPAutomaton.RegisterSummaryListener` | WPDS/src/wpds/impl/PostStar.java:317-329 | The call is connected to every return of its callee seen already, and registered for those to come |
| `PostStar.WeightedPAutomaton.ConnectExits` | WPDS/src/wpds/impl/PostStar.java:317-329 | The loop over the returns that were there: each is connected, whatever is added meanwhile |
| `PostStar.WeightedPAutomaton.OnPop` | WPDS/src/wpds/impl/PostStar.java:156-172 | Reaction to a pop rule in all three branches |
| `PostStar.WeightedPAutomaton.PopGenerated` | WPDS/src/wpds/impl/PostStar.java:158-164 | The epsilon transition is there, and the transitive listener that follows it |
| `PostStar.WeightedPAutomaton.UnbalancedPop` | WPDS/src/wpds/impl/WeightedPAutomaton.java:412-422 | The combined weight of the unbalanced pop is recorded |
| `PostStar.WeightedPAutomaton.MoveOn` | WPDS/src/wpds/impl/PostStar.java:169-171 | The pop listener is registered at the target of a transition with an Empty label |
| `PostStar.WeightedPAutomaton.OnTransitivePop` | WPDS/src/wpds/impl/PostStar.java:95-98 | The returning transition carries the weight of the transition extended with that of the pop |
| `PostStar.WeightedPAutomaton.AddInitialTransition` | SynchronizedPDS/src/main/java/sync/pds/solver/SyncPDSSolver.java:403-409 | One more initial transition, from outside or in the middle of a saturation: nothing is lost, no more is owed, it is quiet afterwards if it was before; says whether a weight changed |
| `PostStar.WeightedPAutomaton.OnRuleAdded` | WPDS/src/wpds/impl/PostStar.java:45-53 | One more rule, from outside or in the middle of a saturation: nothing is lost, no more is owed, and it is quiet afterwards if it was before |
| `PostStar.WeightedPAutomaton.RegisterObserver` | WPDS/src/wpds/impl/WeightedPAutomaton.java:283-298 | One more listener that only records, at any time |
| `PostStar.WeightedPAutomaton.ObserverTold` | WPDS/src/wpds/impl/WeightedPAutomaton.java:283-298 | At quiescence a state listener on the root has been told the current weight of every transition into and out of its state, in whatever nested automaton, however registrations and updates interleaved |
| `PostStar.WeightedPAutomaton.QuietIsSolution` | WPDS/src/wpds/impl/PostStar.java:28-53 | Quiet means solved: saturated, derivable, and the unbalanced pops saturated and justified |
| `Quiescence.SettledIsSolution` | WPDS/src/wpds/impl/PostStar.java:143-172 | If nothing is owed and all input is handled, the weights are a solution |
| `Quiescence.RootListenerTold` | WPDS/src/wpds/impl/WeightedPAutomaton.java:619-624 | A listener of the root is registered with every automaton and has been told there |
| `Termination.Progress` | WPDS/src/wpds/impl/WeightedPAutomaton.java:248-257 | The termination measure: missing transitions, then remaining raises, never grow and fall with every change |
| `Termination.RaiseProgress` | WPDS/src/wpds/impl/WeightedPAutomaton.java:248-257 | Storing a new or strictly larger derivable weight makes the measure fall |
| `Termination.DerivationIn` | WPDS/src/wpds/impl/PostStar.java:303-309 | Only finitely many transitions are derivable: all states and labels come from the rules and initial transitions |
| `SolverSteps.RaiseConsistent` | WPDS/src/wpds/impl/WeightedPAutomaton.java:248-263 | The invariant is kept by raising a weight if a delivery is taken on for each listener |
| `SolverSteps.RegisterConsistent` | WPDS/src/wpds/impl/WeightedPAutomaton.java:283-298 | The invariant is kept by registering a listener that is then owed everything at its state |
| `SolverSteps.NestConsistent` | WPDS/src/wpds/impl/WeightedPAutomaton.java:619-624 | The invariant is kept by nesting an automaton in which the listeners of the parent are then owed a registration |
| `SolverSteps.TableConsistent` | WPDS/src/wpds/impl/WeightedPAutomaton.java:412-422 | The invariant is kept by recording a larger unbalanced pop |
| `SolverSteps.AddRuleConsistent` | WPDS/src/wpds/impl/PostStar.java:45-53 | The invariant is kept by one more rule, whatever is owed at that moment |
| `SolverSteps.AddInitConsistent` | SynchronizedPDS/src/main/java/sync/pds/solver/SyncPDSSolver.java:403-409 | The invariant is kept by one more initial transition, whatever is owed at that moment |
| `SolverSteps.DropConsistent` | WPDS/src/wpds/impl/WeightedPAutomaton.java:258-263 | A delivery can be forgotten once its reaction is done, or once a newer weight is owed instead |
| `WeightedPushdownSystems.WeightedPushdownSystem.AddRule` | WPDS/src/wpds/impl/WeightedPushdownSystem.java:37-45 | One more rule, false for a known one, also while a registered automaton is being saturated: each automaton has the rule and goes on owing no more than before, and all are saturated afterwards if they were before |
| `WeightedPushdownSystems.WeightedPushdownSystem.TellListeners` | WPDS/src/wpds/impl/WeightedPushdownSystem.java:39-41 | Each registered automaton has been told the rule |
| `WeightedPushdownSystems.WeightedPushdownSystem.AddRuleInternal` | WPDS/src/wpds/impl/WeightedPushdownSystem.java:47-55 | The rule is filed under its kind |
| `WeightedPushdownSystems.WeightedPushdownSystem.Poststar` | WPDS/src/wpds/impl/WeightedPushdownSystem.java:57-64 | The automaton is registered and saturated for all rules; a second registration does nothing |
| `WeightedPushdownSystems.WeightedPushdownSystem.Replay` | WPDS/src/wpds/impl/WeightedPushdownSystem.java:61-63 | A new listener has been told every rule it missed |
| `Pushdown.ExecFrame` | WPDS/src/wpds/impl/PostStar.java:303-312 | A run does not depend on what lies below the part of the stack it uses |
| `SyncPDSSolvers.SyncPDSSolver.Sound` | SynchronizedPDS/src/main/java/sync/pds/solver/SyncPDSSolver.java:421-442 | Main soundness: for any successor function, every node the two-stack machine reaches from a start is in reachedStates once the solver is quiescent |
| `SyncPDSSolvers.SyncPDSSolver.ReachedByHalves` | SynchronizedPDS/src/main/java/sync/pds/solver/SyncPDSSolver.java:421-456 | For every analysis: a node is in reachedStates if and only if the call half and the field half of the two-stack machine, each with its own stack and the successors of reached nodes, come to it |
| `SyncPDSSolvers.SyncPDSSolver.FieldsOnlyExact` | SynchronizedPDS/src/main/java/sync/pds/solver/SyncPDSSolver.java:421-456 | Without calls and returns reachedStates holds exactly the nodes of the two-stack machine |
| `SyncPDSSolvers.SyncPDSSolver.CallsOnlyExact` | SynchronizedPDS/src/main/java/sync/pds/solver/SyncPDSSolver.java:421-456 | Without field accesses it does too, if a node that returns does so to every call site |
| `SyncPDSSolvers.SyncPDSSolver.CallWeightsExact` | SynchronizedPDS/src/main/java/sync/pds/solver/SyncPDSSolver.java:463-465 | The accepting paths of the call automaton for a node and a call stack have the same upper bounds as the runs of the call half: the weight of the start extended with the call weights of the successors taken; under a condition on one if epsilon is an Empty |
| `SyncPDSSolvers.SyncPDSSolver.FieldWeightsExact` | SynchronizedPDS/src/main/java/sync/pds/solver/SyncPDSSolver.java:531-556 | The same for the field automaton, where every start weighs one |
| `SyncPDSSolvers.SyncPDSSolver.WeightsSound` | SynchronizedPDS/src/main/java/sync/pds/solver/SyncPDSSolver.java:403-409 | Whatever epsilon is, each run of the two-stack machine weighs no more than the paths of the two automata for where it ends |
| `SyncPDSSolvers.SyncPDSSolver.ReturnsSeenExactly` | SynchronizedPDS/src/main/java/sync/pds/solver/SyncPDSSolver.java:276-341 | The returns that the listeners on nested automata see, each in the automaton it is registered with, are exactly those of the transitions of all automata |
| `SyncPDSSolvers.SyncPDSSolver.ReachedExactly` | SynchronizedPDS/src/main/java/sync/pds/solver/SyncPDSSolver.java:636-656 | A node is in reachedStates if and only if both pushdown systems reach it |
| `SyncPDSSolvers.SyncPDSSolver.ReachedLeast` | SynchronizedPDS/src/main/java/sync/pds/solver/SyncPDSSolver.java:403-456 | reachedStates is the least set closed under synchronized expansion, whatever the order of events |
| `SyncPDSSolvers.SyncPDSSolver.Solve` | SynchronizedPDS/src/main/java/sync/pds/solver/SyncPDSSolver.java:403-412 | Terminates quiescent, with one more start, which is reached |
| `SyncPDSSolvers.SyncPDSSolver.AddStart` | SynchronizedPDS/src/main/java/sync/pds/solver/SyncPDSSolver.java:404-408 | The two initial transitions; nothing reported is lost |
| `SyncPDSSolvers.SyncPDSSolver.AddInitials` | SynchronizedPDS/src/main/java/sync/pds/solver/SyncPDSSolver.java:404-408 | Both automata stay saturated for the rules |
| `SyncPDSSolvers.SyncPDSSolver.ProcessNode` | SynchronizedPDS/src/main/java/sync/pds/solver/SyncPDSSolver.java:421-456 | The node is expanded, once; a node reached before changes nothing |
| `SyncPDSSolvers.SyncPDSSolver.ExpandSuccessors` | SynchronizedPDS/src/main/java/sync/pds/solver/SyncPDSSolver.java:425-441 | Both systems hold exactly the rules of the expanded nodes and this one, and are saturated |
| `SyncPDSSolvers.SyncPDSSolver.AddCallRule` | SynchronizedPDS/src/main/java/sync/pds/solver/SyncPDSSolver.java:610-612 | The call automaton is saturated for one more rule |
| `SyncPDSSolvers.SyncPDSSolver.AddFieldRule` | SynchronizedPDS/src/main/java/sync/pds/solver/SyncPDSSolver.java:614-616 | The field automaton is saturated for one more rule |
| `SyncPDSSolvers.SyncPDSSolver.SetCallingContextReachable` | SynchronizedPDS/src/main/java/sync/pds/solver/SyncPDSSolver.java:636-642 | The node, which a transition reports or in nested mode a return, is noted, and expanded if the field side has it too |
| `SyncPDSSolvers.SyncPDSSolver.SetFieldContextReachable` | SynchronizedPDS/src/main/java/sync/pds/solver/SyncPDSSolver.java:649-656 | The node is noted, and expanded if the call side has it too |
| `SyncPDSSolvers.SyncPDSSolver.DeliverReports` | SynchronizedPDS/src/main/java/sync/pds/solver/SyncPDSSolver.java:621-633 | Terminates with every transition of both automata reported |
| `SyncInterleavings.AnyOrderReachesLeast` | SynchronizedPDS/src/main/java/sync/pds/solver/SyncPDSSolver.java:392-456 | However storing a derived weight, reporting a transition or a return, expanding a node and adding a rule are interleaved, with callbacks in the middle of a saturation, a run with nothing left to do has reached exactly the least synchronized set |
| `SyncInterleavings.AnyOrderSame` | SynchronizedPDS/src/main/java/sync/pds/solver/SyncPDSSolver.java:610-656 | Any two such runs with the same starts end with the same reached nodes and the same rules |
| `SyncInterleavings.AnyOrderSound` | SynchronizedPDS/src/main/java/sync/pds/solver/SyncPDSSolver.java:421-442 | Each such run has reached every node of the two-stack machine |
| `SyncInterleavings.RunsJustifiable` | SynchronizedPDS/src/main/java/sync/pds/solver/SyncPDSSolver.java:392-456 | In every state of every run the rules, weights and reports are justified by the nodes expanded so far, and these are in every synchronized set |
| `SyncTermination.RunsAreBounded` | SynchronizedPDS/src/main/java/sync/pds/solver/SyncPDSSolver.java:392-456 | A run whose events change something, and weights only upwards, has at most (height + 1) times as many events as there are starts, nodes, reports, rules and transitions, less what is left at its end |
| `SyncTermination.NoEndlessRun` | SynchronizedPDS/src/main/java/sync/pds/solver/SyncPDSSolver.java:392-456 | Without a common bound on the height there is still no endless run |
| `SyncTermination.StuckIsFinished` | SynchronizedPDS/src/main/java/sync/pds/solver/SyncPDSSolver.java:392-456 | A run that no such event continues is finished: it has taken every start and reached exactly the least synchronized set |
| `SyncTermination.EventLowers` | SynchronizedPDS/src/main/java/sync/pds/solver/SyncPDSSolver.java:392-456 | Each such event lowers what is left to come or, if it leaves that as it is, the raises that are left |
| `SyncTermination.EventWithin` | SynchronizedPDS/src/main/java/sync/pds/solver/SyncPDSSolver.java:392-456 | Events stay within the finite closure of the starts and its names |
| `SyncPDSSolvers.SyncPDSSolver.SameAsInterrupted` | SynchronizedPDS/src/main/java/sync/pds/solver/SyncPDSSolver.java:621-656 | The solver, which reads its reports between saturations, ends with the same nodes as every run in which they interrupt them |
| `SyncPDSSolvers.SyncPDSSolver.StaysWithin` | SynchronizedPDS/src/main/java/sync/pds/solver/SyncPDSSolver.java:621-633 | Only nodes of the finite closure of the starts are ever reported |
| `SyncMachine.SynchronizedSound` | SynchronizedPDS/src/main/java/sync/pds/solver/SyncPDSSolver.java:531-608 | Every set closed under synchronized expansion contains all nodes of the two-stack machine |
| `SyncMachine.StepProjects` | SynchronizedPDS/src/main/java/sync/pds/solver/SyncPDSSolver.java:531-608 | Each step of the two-stack machine is a step of both rules made for it: push, pop, exclusion on the top field, return to the return site on the call stack |
| `StackMachines.RulesAreStep` | SynchronizedPDS/src/main/java/sync/pds/solver/SyncPDSSolver.java:531-608 | The two rules for a successor, applied together at a configuration of the two-stack machine, do what the machine does and are stuck where it is |
| `StackMachines.StepIsBoth` | SynchronizedPDS/src/main/java/sync/pds/solver/SyncPDSSolver.java:531-608 | The machine takes a step exactly if its two halves take it to the same node |
| `StackMachines.CallRuleIsStep` | SynchronizedPDS/src/main/java/sync/pds/solver/SyncPDSSolver.java:463-608 | The call rule for a successor can be applied at its node only, does what the successor does to the call stack, and has its call weight |
| `StackMachines.FieldRuleIsStep` | SynchronizedPDS/src/main/java/sync/pds/solver/SyncPDSSolver.java:531-598 | The field rule for a successor can be applied exactly where the field half can take it, to the same effect, and has its field weight |
| `StackMachines.CallReachExact` | SynchronizedPDS/src/main/java/sync/pds/solver/SyncPDSSolver.java:463-608 | The call system reaches a node with a call stack exactly if the call half does |
| `StackMachines.FieldReachExact` | SynchronizedPDS/src/main/java/sync/pds/solver/SyncPDSSolver.java:531-598 | The field system reaches a node with a field stack exactly if the field half does |
| `StackMachines.CallBoundExact` | SynchronizedPDS/src/main/java/sync/pds/solver/SyncPDSSolver.java:463-608 | The runs of the call system and of the call half have the same upper bounds |
| `StackMachines.FieldBoundExact` | SynchronizedPDS/src/main/java/sync/pds/solver/SyncPDSSolver.java:531-598 | So have those of the field system and the field half |
| `StackMachines.RunsSplit` | SynchronizedPDS/src/main/java/sync/pds/solver/SyncPDSSolver.java:421-442 | A run of the machine is a run of both halves, with its call weights and its field weights |
| `StackMachines.CallsOnlyRuns` | SynchronizedPDS/src/main/java/sync/pds/solver/SyncPDSSolver.java:572-578 | With one return for each call site the call half can be followed by the machine |
| `StackMachines.CrossedReturns` | SynchronizedPDS/src/main/java/sync/pds/solver/SyncPDSSolver.java:572-578 | Without: two callees that return to the return site of the other one only; every synchronized set has a node that the machine does not reach |
| `Synchronization.TransitionUsed` | SynchronizedPDS/src/main/java/sync/pds/solver/SyncPDSSolver.java:392-401 | Each derivable transition out of a control state is part of a reachable configuration, also before the automaton is saturated |
| `Synchronization.ReportsReachable` | SynchronizedPDS/src/main/java/sync/pds/solver/SyncPDSSolver.java:392-401 | Nodes reported before saturation are reachable in the systems of the nodes expanded so far |
| `Synchronization.CallNodesExact` | SynchronizedPDS/src/main/java/sync/pds/solver/SyncPDSSolver.java:392-401 | The call automaton reports a node exactly if the call system reaches it on top of the stack |
| `Synchronization.ReturnsReachable` | SynchronizedPDS/src/main/java/sync/pds/solver/SyncPDSSolver.java:276-341 | A return that nested automata report before its transition is stored is reachable in the call system of the nodes expanded so far |
| `Synchronization.ReturnsReported` | SynchronizedPDS/src/main/java/sync/pds/solver/SyncPDSSolver.java:276-341 | After saturation the returns that nested automata report are among the nodes that transitions report |
| `Synchronization.FieldNodesExact` | SynchronizedPDS/src/main/java/sync/pds/solver/SyncPDSSolver.java:621-633 | The field automaton reports a node exactly if the field system reaches it |
| `Synchronization.FieldNodesClosed` | SynchronizedPDS/src/main/java/sync/pds/solver/SyncPDSSolver.java:425-441 | Reported nodes stay within any finite set closed under successors |
| `EmptyStackWitnesses.EmptyStackWitnesses.ReportedExactlyOnce` | SynchronizedPDS/src/main/java/sync/pds/solver/SyncPDSSolver.java:468-499 | Whenever no call is under way and none was interrupted, witnessFound has been called exactly once for each node that is a candidate on both sides and for no other, whatever candidates the listener added |
| `EmptyStackWitnesses.EmptyStackWitnesses.CandidatesExactly` | SynchronizedPDS/src/main/java/sync/pds/solver/SyncPDSSolver.java:468-499 | The candidates are exactly those of the transitions from outside or from witnessFound that lead to a node that is not generated and, on the field side, over the empty field |
| `EmptyStackWitnesses.EmptyStackWitnesses.ExactUnlessClashed` | SynchronizedPDS/src/main/java/sync/pds/solver/SyncPDSSolver.java:486-497 | A call from outside reports all it has to if and only if no callback puts a new field candidate for a fact while candidates of that fact are left in the loop of callWitness, which is over a live view; otherwise the iterator throws and one more node is a candidate on both sides and unreported |
| `EmptyStackWitnesses.EmptyStackWitnesses.NeverReported` | SynchronizedPDS/src/main/java/sync/pds/solver/SyncPDSSolver.java:473-497 | What a call has left unreported, no later call reports: both puts return early for it |
| `EmptyStackWitnesses.EmptyStackWitnesses.Catch` | SynchronizedPDS/src/main/java/sync/pds/solver/SyncPDSSolver.java:486-497 | When the caller catches the exception the candidates and the unreported nodes are as they were |
| `EmptyStackWitnesses.EmptyStackWitnesses.FieldWitness` | SynchronizedPDS/src/main/java/sync/pds/solver/SyncPDSSolver.java:473-484 | Terminates with the candidate put and nothing more to report, or interrupted |
| `EmptyStackWitnesses.EmptyStackWitnesses.CallWitness` | SynchronizedPDS/src/main/java/sync/pds/solver/SyncPDSSolver.java:486-497 | The same for a call candidate; never interrupted if the listener adds call candidates only, and always if it puts a new field candidate of the same fact each time and two are there |
| `EmptyStackWitnesses.EmptyStackWitnesses.ReportAll` | SynchronizedPDS/src/main/java/sync/pds/solver/SyncPDSSolver.java:493-495 | The loop over the live view: all candidates of the fact are reported, or it is interrupted with one more node left |
| `EmptyStackWitnesses.EmptyStackWitnesses.WitnessFound` | SynchronizedPDS/src/main/java/sync/pds/solver/SyncPDSSolver.java:481-483 | The node is reported and all candidates that this leads to have been put |
| `EmptyStackWitnesses.EmptyStackWitnesses.ReportOne` | SynchronizedPDS/src/main/java/sync/pds/solver/SyncPDSSolver.java:493-495 | One turn of the loop: it goes on only if the candidates of the fact are those it began with |
| `EmptyStackWitnesses.ThirdCandidateInterrupts` | SynchronizedPDS/src/main/java/sync/pds/solver/SyncPDSSolver.java:493-495 | The failing case, concretely: two candidates and a listener that puts a third, and a node is not reported, also when the call is made again |
| `ForwardDFS.ForwardDFSVisitor.ClosureExact` | WPDS/src/wpds/interfaces/ForwardDFSVisitor.java:124-152 | Whenever no call is under way, refCount holds exactly the transitive closure of all transitions or, for the epsilon visitor, of those with an Empty label |
| `ForwardDFS.ForwardDFSVisitor.ToldExactly` | WPDS/src/wpds/interfaces/ForwardDFSVisitor.java:47-65 | Then a listener on s has been told a transition if and only if it starts in s or in a state that all transitions or, for the epsilon visitor, those with an Empty label lead to from s |
| `ForwardDFS.ForwardDFSVisitor.ArrivedExactly` | WPDS/src/wpds/interfaces/ForwardDFSVisitor.java:57-60 | The weights and listeners are exactly those that came from outside and those that calls of reachable returned |
| `ForwardDFS.ForwardDFSVisitor.AddWeightForTransition` | WPDS/src/wpds/impl/WeightedPAutomaton.java:236-266 | A new transition or weight, accepted at any time, also from reachable in the middle of an insertion: it is stored, the visitor and the closures at its start have been told, nothing is lost and nothing more is owed |
| `ForwardDFS.ForwardDFSVisitor.OnWeightAdded` | WPDS/src/wpds/interfaces/ForwardDFSVisitor.java:113-122 | The start of the transition is recorded and its edge inserted, nothing is lost and nothing more is owed |
| `ForwardDFS.ForwardDFSVisitor.RegisterListener` | WPDS/src/wpds/interfaces/ForwardDFSVisitor.java:39-45 | Accepted at any time; the listener has its closures at all states reached so far, and nothing more is owed |
| `ForwardDFS.ForwardDFSVisitor.Tell` | WPDS/src/wpds/interfaces/ForwardDFSVisitor.java:57-60 | reachable(t) may make any calls, depending on all that was told before: all of them have been carried out, and the recursion ends |
| `ForwardDFS.ForwardDFSVisitor.InsertEdge` | WPDS/src/wpds/interfaces/ForwardDFSVisitor.java:124-152 | Terminates with the edge in adjacent and none of the pairs that follow from it owed, whatever edges the callbacks inserted meanwhile |
| `ForwardDFS.ForwardDFSVisitor.Close` | WPDS/src/wpds/interfaces/ForwardDFSVisitor.java:140-151 | The worklist loop terminates and leaves nothing owed but what was due before, though callbacks add pairs and edges |
| `ForwardDFS.ForwardDFSVisitor.AddPredecessors` | WPDS/src/wpds/interfaces/ForwardDFSVisitor.java:133-139 | Everything that reached the start of the new edge reaches its target; new pairs are on the worklist |
| `ForwardDFS.ForwardDFSVisitor.AddSuccessors` | WPDS/src/wpds/interfaces/ForwardDFSVisitor.java:141-151 | A pair taken from the worklist is continued by every edge out of its target, those inserted meanwhile included |
| `ForwardDFS.ForwardDFSVisitor.AddInverse` | WPDS/src/wpds/interfaces/ForwardDFSVisitor.java:159-165 | inverseReaches gets the pair, and every listener of its source a closure listener there |
| `ForwardDFS.ForwardDFSVisitor.Connect` | WPDS/src/wpds/interfaces/ForwardDFSVisitor.java:167-171 | The pair is in refCount, reaches and inverseReaches, and owed to the worklist only |
| `ForwardDFS.ForwardDFSVisitor.RegisterClosure` | WPDS/src/wpds/interfaces/ForwardDFSVisitor.java:47-65 | The closure listener is registered and has been told every transition at its state |
| `ForwardSteps.CountedExact` | WPDS/src/wpds/interfaces/ForwardDFSVisitor.java:124-152 | A consistent state that owes nothing holds exactly the connected pairs |
| `ForwardSteps.EdgeStep` | WPDS/src/wpds/interfaces/ForwardDFSVisitor.java:132-139 | Entering an edge keeps the invariant with one step owed for each state that leads to it |
| `ForwardSteps.PollStep` | WPDS/src/wpds/interfaces/ForwardDFSVisitor.java:141-144 | Taking a pair from the worklist keeps the invariant with one step owed for each edge out of its target |
| `TransitiveClosure.ClosedContainsPaths` | WPDS/src/wpds/interfaces/ForwardDFSVisitor.java:124-152 | A relation closed under the edges contains all connected pairs |
| `FinalWeights.ValueComputation.GetTransitionsToFinalWeights` | WPDS/src/wpds/impl/WeightedPAutomaton.java:553-556 | Terminates, cycles included; has a value for t if and only if some path begins with t and runs through generated states to the initial state, and the value is the least upper bound of the weights of these paths |
| `FinalWeights.ValueComputation.OnWeightAdded` | WPDS/src/wpds/impl/WeightedPAutomaton.java:572-580 | A new or raised transition, also while earlier ones are owed: every listener at its target has counted it, no value or listener is lost, and no more is owed than before |
| `FinalWeights.ValueComputation.KeptExact` | WPDS/src/wpds/impl/WeightedPAutomaton.java:558-580 | Once the computation is started its values stay exact while transitions are added and raised |
| `FinalWeights.ValueComputation.RegisterListener` | WPDS/src/wpds/impl/WeightedPAutomaton.java:283-298 | Terminates; the listener is registered and no more is owed than before: it has counted every transition into its state |
| `FinalWeights.ValueComputation.OnInTransitionAdded` | WPDS/src/wpds/impl/WeightedPAutomaton.java:572-580 | The value of t counts the listener's weight extended with that of t, and is passed on at the start of t |
| `FinalWeights.FinalsExact` | WPDS/src/wpds/impl/WeightedPAutomaton.java:558-580 | Counted, passed on and backed values are exactly the least upper bounds over all paths |
| `FinalWeights.PathsCounted` | WPDS/src/wpds/impl/WeightedPAutomaton.java:572-580 | Every path of any length is counted in the value of its first transition |
| `TypestateWeights.TypestateLaws` | idealPDS/src/main/java/typestate/TransitionFunction.java:56-104 | TransitionFunction is an idempotent semiring on the values generated from one, zero and the non-empty functions without identity |
| `TypestateWeights.ExtendIsComposition` | idealPDS/src/main/java/typestate/TransitionFunction.java:56-82 | extendWith is composition of relations with identity |
| `TypestateWeights.CombineIsUnion` | idealPDS/src/main/java/typestate/TransitionFunction.java:85-104 | combineWith is their union |
| `TypestateWeights.ExtendGenerated` | idealPDS/src/main/java/typestate/TransitionFunction.java:56-82 | extendWith does not leave the generated values |
| `TypestateWeights.CombineGenerated` | idealPDS/src/main/java/typestate/TransitionFunction.java:85-104 | combineWith does not leave them either |
| `TypestateWeights.TypestateDescends` | idealPDS/src/main/java/typestate/TransitionFunction.java:85-104 | Over finitely many states the weight order has finite height, so saturation with it terminates |
| `TypestateWeights.TypestateInexactUnderEmptyEpsilon` | WPDS/src/wpds/impl/PostStar.java:169-171 | With an Empty epsilon typestate weights are not always exact |
| `TypestateWeights.FoldIsReachability` | idealPDS/src/main/java/typestate/finiteautomata/TypeStateMachineWeightFunctions.java:98-119 | Folding extendWith from init to init over any events gives exactly the pairs from init to the states the automaton can be in |
| `TypestateWeights.ZeroIffStuck` | idealPDS/src/main/java/typestate/finiteautomata/TypeStateMachineWeightFunctions.java:224-226 | and zero if and only if the automaton is stuck |
| `RegularExpressions.SameIsMatching` | PathExpression/src/pathexpression/RegEx.java:58-83 | equals decides equality up to the order of unions, although it tries the second pairing only if the first parts differ |
| `RegularExpressions.SameEquivalence` | PathExpression/src/pathexpression/RegEx.java:58-83 | equals is an equivalence relation |
| `RegularExpressions.SameLanguage` | PathExpression/src/pathexpression/RegEx.java:58-83 | Equal expressions denote the same language |
| `RegularExpressions.MakeUnionLanguage` | PathExpression/src/pathexpression/RegEx.java:182-190 | union denotes the union after all simplifications |
| `RegularExpressions.MakeConcatenationLanguage` | PathExpression/src/pathexpression/RegEx.java:192-207 | concatenate denotes the concatenation if and only if the right operand is not EmptySet or the left denotes nothing; with EmptySet on the right it returns the left operand |
| `RegularExpressions.MakeStarLanguage` | PathExpression/src/pathexpression/RegEx.java:221-225 | star denotes the repetitions if and only if its operand is not EmptySet, which it returns unchanged |
| `PathExpressionComputing.PathExpressionComputer.GetExpressionBetween` | PathExpression/src/pathexpression/PathExpressionComputer.java:50-55 | On every graph each word of the result labels a path from a to b; all path words are in it if the graph is tame, in particular if every edge leads to the same or a larger number; EmptySet for an unknown source |
| `PathExpressions.ExactIffTame` | PathExpression/src/pathexpression/PathExpressionComputer.java:114-157 | On graphs whose labels tell the edges apart, the expressions between all pairs of nodes are exact if and only if the graph is tame: a node reached from a larger one through smaller ones has no cycle through smaller ones, and is reached so from one larger node only or leads on to no larger one |
| `PathExpressions.ExpressionsDenote` | PathExpression/src/pathexpression/PathExpressionComputer.java:60-90 | Soundness of the expressions on every graph, and exactness on tame ones, for any labels |
| `PathExpressions.LoopBehindBackEdge` | PathExpression/src/pathexpression/PathExpressionComputer.java:131-145 | The failing case, concretely: a loop at node 1 and an edge back to it from node 2 |
| `PathExpressions.LostIsMissing` | PathExpression/src/pathexpression/PathExpressionComputer.java:60-90 | A path the elimination loses is missing in the final expression |
| `PathExpressions.CycleLoses` | PathExpression/src/pathexpression/PathExpressionComputer.java:139-140 | Because pvv is used without its star, a path into v that does not take the cycle is lost |
| `PathExpressions.SecondLoses` | PathExpression/src/pathexpression/PathExpressionComputer.java:132-143 | Because w is not restarted for each u, only the first row into v is combined with the entries out of v |
| `PathExpressions.StaysLost` | PathExpression/src/pathexpression/PathExpressionComputer.java:128-156 | No later round finds a lost path again |
| `PathExpressions.ForwardIsTame` | PathExpression/src/pathexpression/PathExpressionComputer.java:128-156 | A graph whose edges all lead to the same or a larger number is tame |
| `PathElimination.RoundSound` | PathExpression/src/pathexpression/PathExpressionComputer.java:128-156 | Each round keeps every entry within the words of the paths it stands for |
| `PathElimination.RoundExact` | PathExpression/src/pathexpression/PathExpressionComputer.java:128-156 | A tame round keeps every entry equal to the words of the paths through the nodes eliminated so far |
| `PathElimination.RoundLanguages` | PathExpression/src/pathexpression/PathExpressionComputer.java:128-156 | What any round makes of any table, tame or not: the cycle at v is repeated in its own entry, taken once by the entries into v, and by those past v in the first row that leads to v only |
| `PathElimination.RoundOnExact` | PathExpression/src/pathexpression/PathExpressionComputer.java:128-156 | So from an exact table exactly the paths that take the cycle at v once are in the entries into v, and those past v for the first node that leads to v |
| `PathElimination.EdgeEntered` | PathExpression/src/pathexpression/PathExpressionComputer.java:121-127 | Entering an edge adds its label, or the empty word for epsilon, to its entry only |
| `PathExtraction.UpEntryAt` | PathExpression/src/pathexpression/PathExpressionComputer.java:66-87 | An entry of the ascending half extends the paths collected so far, or repeats the cycle at its node |
| `PathExtraction.DownEntryAt` | PathExpression/src/pathexpression/PathExpressionComputer.java:66-87 | An entry of the descending half adds the paths whose last larger node is its source |
| `PathExpressionComputing.PathExpressionComputer.EnterEdges` | PathExpression/src/pathexpression/PathExpressionComputer.java:115-127 | The table denotes exactly the edges |
| `PathExpressionComputing.PathExpressionComputer.EliminateNode` | PathExpression/src/pathexpression/PathExpressionComputer.java:128-156 | The nested loops over u and w, with w shared, compute one round |
| `PathExpressionComputing.PathExpressionComputer.Eliminate` | PathExpression/src/pathexpression/PathExpressionComputer.java:114-157 | The rounds in order from the table of the edges |
| `PathExpressionComputing.PathExpressionComputer.ExtractPathSequence` | PathExpression/src/pathexpression/PathExpressionComputer.java:92-112 | The non-empty entries in the order of the two nests of loops |
| `PathExpressionComputing.PathExpressionComputer.ComputeAllPathFrom` | PathExpression/src/pathexpression/PathExpressionComputer.java:60-90 | The expressions to all nodes |
| `PathExpressionComputing.PathExpressionComputer.InitNodesToIntMap` | PathExpression/src/pathexpression/PathExpressionComputer.java:39-43 | The nodes are numbered from 1 to their count without repetition |
| `PathExpressionComputing.SameWords` | PathExpression/src/pathexpression/PathExpressionComputer.java:39-43 | Numbering the nodes does not change the words of the paths |
| `PointsOfIndirection.PointOfIndirection.ExecutedExactlyOnce` | boomerangPDS/src/main/java/boomerang/poi/PointOfIndirection.java:28-42 | Whenever no call is under way, execute has been called exactly once for each pair of a base and a flow allocation that arrived and for no other, whatever execute adds meanwhile |
| `PointsOfIndirection.PointOfIndirection.ArrivedExactly` | boomerangPDS/src/main/java/boomerang/poi/PointOfIndirection.java:28-42 | The allocations are exactly those from outside and those that execute added |
| `Reactions.CalledExactly` | boomerangPDS/src/main/java/boomerang/poi/PointOfIndirection.java:26-42 | With no callback under way, exactly what came from outside and what the callback returned has been called |
| `PointsOfIndirection.PointOfIndirection.AddBaseAllocation` | boomerangPDS/src/main/java/boomerang/poi/PointOfIndirection.java:28-34 | Terminates with the base arrived; pairs executed stay executed and nothing more is pending |
| `PointsOfIndirection.PointOfIndirection.AddFlowAllocation` | boomerangPDS/src/main/java/boomerang/poi/PointOfIndirection.java:36-42 | The same for a flow allocation |
| `PointsOfIndirection.PointOfIndirection.Execute` | boomerangPDS/src/main/java/boomerang/poi/PointOfIndirection.java:26-26 | The pair is executed, and every allocation that this leads to has arrived |
| `AccessPaths.AliasExtraction.GetAllAliases` | boomerangPDS/src/main/java/boomerang/WeightedBoomerang.java:1356-1383 | Terminates although the automaton may have cycles. A query finds exactly the direct access paths and those reported by a listener at the end of a walk from its statement that is on no walk of an earlier query; its results are exact if and only if each access path it yields is such a one. So the first query is exact, and one whose listeners all are registered already finds only the access paths without fields |
| `AccessPaths.AliasExtraction.Exact` | boomerangPDS/src/main/java/boomerang/WeightedBoomerang.java:1402-1419 | With one query its results stay exact while transitions are added |
| `AccessPaths.AliasExtraction.ExactIffOwned` | boomerangPDS/src/main/java/boomerang/WeightedBoomerang.java:1426-1466 | With several queries, at any time: the results of a query are exact if and only if each access path it yields is direct or reported by a listener of its own |
| `AccessPaths.AliasExtraction.StartsAtStatement` | boomerangPDS/src/main/java/boomerang/WeightedBoomerang.java:1365-1369 | Whatever a query finds is yielded by a path whose first transition starts in a fact or an allocation at its statement, with the base of the access path |
| `AccessPaths.AliasExtraction.FindsNothing` | boomerangPDS/src/main/java/boomerang/WeightedBoomerang.java:1365-1369 | A query whose statement no transition starts at finds nothing |
| `AccessPaths.SharedBaseMisses` | boomerangPDS/src/main/java/boomerang/WeightedBoomerang.java:1438-1466 | The failing case, concretely: two statements, one variable, one field; the second query finds nothing though it yields an access path |
| `AccessPaths.LastQueryFinds` | boomerangPDS/src/main/java/boomerang/WeightedBoomerang.java:1426-1466 | What a query finds in terms of the walks of earlier queries |
| `AccessPaths.RegisteredIffWalked` | boomerangPDS/src/main/java/boomerang/WeightedBoomerang.java:1402-1419 | The registered listeners are exactly those at the ends of walks of the queries |
| `AccessPaths.FoundIsAttributed` | boomerangPDS/src/main/java/boomerang/WeightedBoomerang.java:1402-1419 | The results of a query are exactly the direct access paths and what its own listeners report |
| `AccessPaths.AliasExtraction.AskedBefore` | boomerangPDS/src/main/java/boomerang/WeightedBoomerang.java:1438-1466 | All listeners on walks of a query are registered, because equals does not look at the results collection; so repeating a query finds the direct access paths and no other |
| `AccessPaths.AliasExtraction.RegisterListener` | WPDS/src/wpds/impl/WeightedPAutomaton.java:283-298 | Terminates; the listener is registered and no more is owed than before: it has followed all transitions out of its state; an equal one changes nothing |
| `AccessPaths.AliasExtraction.OnOutTransitionAdded` | boomerangPDS/src/main/java/boomerang/WeightedBoomerang.java:1402-1419 | The transition is followed: an access path at the allocation, a further listener elsewhere |
| `AccessPaths.AliasExtraction.OnWeightAdded` | boomerangPDS/src/main/java/boomerang/WeightedBoomerang.java:1362-1380 | The query has been asked about the transition |
| `AccessPaths.AliasExtraction.AddTransition` | WPDS/src/wpds/impl/WeightedPAutomaton.java:236-266 | One more transition, also while earlier ones are to be told: every query has been asked about it and every listener at its start has followed it, nothing is lost and no more is owed |
| `AccessPaths.AliasExtraction.TellQuery` | WPDS/src/wpds/impl/WeightedPAutomaton.java:272-281 | The update listener of a new query is told all transitions: it owns every listener that came to be registered |
| `AccessPaths.CollectedExtends` | boomerangPDS/src/main/java/boomerang/WeightedBoomerang.java:1406-1412 | The fields collected along a path are their list while they are distinct, and from the first repetition on their set |
| `AccessPaths.YieldsFound` | boomerangPDS/src/main/java/boomerang/WeightedBoomerang.java:1402-1419 | Every access path a query yields is among the results of some query |
| `AccessPaths.NextOnWalk` | boomerangPDS/src/main/java/boomerang/WeightedBoomerang.java:1402-1419 | Only what a path yields is reported |
| `AccessPaths.WalkIsPossible` | boomerangPDS/src/main/java/boomerang/WeightedBoomerang.java:1402-1419 | Only finitely many listeners can come to be registered |

## Left out

- DeliverReports: in the source the update listeners of the solver call back in the middle of a saturation; the class reads the notifications when the saturation is quiet, in any order, until none is left. That callbacks may come at any other point is modelled by the state machine of `SyncInterleavings` and `SyncTermination`; `SameAsInterrupted` shows that both reach the same nodes.
- AddRule: rules that a callback adds to the pushdown system in the middle of a saturation are modelled as the `effect` of the automaton, which records them in its own `rules` and not in the rule sets of the pushdown system.
- ExactIffTame: the converse, that an exact graph is tame, is stated for graphs whose labels are distinct and not epsilon. With equal labels an expression can be exact by coincidence of words, which no condition on the shape of the graph can tell.
- CallsOnlyExact: that a return to every call site is not just enough but needed cannot be said of the analysis alone, since it depends on which nodes the starts lead to; for given starts `ReachedByHalves` is the exact condition.
- GetAllAliases: one field automaton at a time; the union over all allocation sites, and the test for being one of them, are not modelled.
- OnWeightAdded: the value computation and the forward visitors are classes of their own that are told of transitions, and do not share the listener tables of `PostStar.WeightedPAutomaton`. A weight that a transition had once does not come back, as weights only rise, so the forward visitor is told each at most once.
- Backward saturation (`PreStar`), whose tests are disabled.
- `reconnectPush`, connect-push and unbalanced-pop observers: they observe and do not add transitions. Of the nested-automaton observers the one that reports returns is modelled, by what it reports and not as listeners of its own.
- The hooks `preventFieldTransitionAdd`, `preventCallTransitionAdd` and `canCastBeApplied` keep their default values, and the switches for field and context sensitivity are on.
- `createState` of the field automaton returns the node itself for the empty field; here no rule pushes or pops the empty field.
- The call automaton also reports epsilon transitions as nodes with an epsilon statement; such a node is expanded only if a successor has that statement, which the model rules out by not reporting it.
- One root automaton per summaries map; several roots that share one are not modelled.
- Listeners of the synchronized solver on reached states.
- The graph of a path expression computer does not change after it was constructed.
- Other weight domains: `InferenceWeight`, `NumWeight`, `MinSemiring` and sets; the concrete typestate machines and their call-site matching.
- Everything that needs Soot: flow functions, type checks, seeds, and the call-site points of indirection.
- Rule queries by state and symbol, string and dot output, hash codes, counters, timeouts and debuggers.
