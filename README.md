# gusp core in Dafny

A Dafny model of the two components that let a Spring application context manage Guava services:

- `ServiceSmartLifecycle` adapts one Guava `Service` to Spring's `SmartLifecycle`/`DisposableBean` contract. It provides `start`, the blocking `stop()`, `stop(callback)`, `destroy`, `isRunning` and the configuration properties.
- `WithSmartLifecyclePostprocessor` makes one pass over the bean definition registry. For every bean marked `@WithSmartLifecycle` it registers a `ServiceSmartLifecycle` definition that refers to that bean.
- `@WithSmartLifecycle` is the marker's attribute schema with its defaults.

Files:

- `wrappers.dfy`: `Option` and `Result`.
- `annotation.dfy` (module `Annotation`): the marker as the datatype `WithSmartLifecycle`, its `Defaults()`, and its attribute bag (`Attributes`). Java's `int` is the newtype `Int32`.
- `lifecycle.dfy` (module `Lifecycle`): the classes `Service`, `StopListener` (the source's `AsyncStopSupportListener`) and `ServiceSmartLifecycle`.
  - `Service` is the Guava service as the adapter sees it. It has a `state`, its registered `listeners`, and a ghost `trace` of every call made on it. A wait's entry in the trace records how the wait ended.
  - The contracts of `Service`'s methods are deliberately loose. Each call is recorded, `Service.Valid` is kept, a terminal state is never left, no listener's run count ever goes down, no listener runs while the service stays short of TERMINATED or FAILED, and `startAsync` needs NEW. Reading the state (`GetState`) is a recorded call too. The adapter's proofs use only these contracts, so they hold for every service behaviour the contracts admit. The method bodies are one such behaviour.
  - `Service.Valid` states Guava's listener guarantee: in TERMINATED or FAILED, every registered listener has run. `AddListener` registers a listener only while the service is not terminal.
  - The callback passed to `stop(callback)` appears only as the ghost counter `StopListener.runs`. `StopListener.Valid` ties that counter to the `callbackExecuted` flag. Because no admitted service behaviour lowers a counter, `runs` counts every run of the callback over the whole history.
- `postprocessor.dfy` (module `Postprocessor`): the registry, the pass, and what the pass guarantees.
  - The registry is the class `Registry`. It holds a `map` from names to `Decl` and the names in registration order.
  - A `Decl` is either a generic definition or an annotated one. An annotated definition carries class metadata and optional factory-method metadata. Each metadata may carry a marker.
  - `Pass` is the pass written as a function on registry contents. `PostProcessBeanDefinitionRegistry` is the imperative pass, proved to compute `Pass`.
  - The lemmas about `Pass` state what the pass does to a registry.

A validation failure does not undo the adapters the pass registered before it (`WithSmartLifecyclePostprocessor.java:45-49`): when the loop throws, the adapters of every marked bean before the failing one are already registered. `PassFailureKeepsEarlierAdapters` states this for every registry without name collisions, and `PostProcessBeanDefinitionRegistry` is proved to compute `Pass`, which includes it.

## Model

| member | source | states |
|---|---|---|
| `Annotation.Attributes` | gusp/src/main/java/io/github/alopukhov/gusp/annotations/WithSmartLifecycle.java:37-73 | the attribute bag has exactly the five declared attributes `beanName`, `autoStartup`, `asyncStart`, `phase` and `stopOnDestroy`, each holding the marker's value |
| `Annotation.AttributesRoundTrip` | gusp/src/main/java/io/github/alopukhov/gusp/annotations/WithSmartLifecycle.java:37-73 | reading a marker back from its bag gives the same marker, so the bag loses nothing |
| `Annotation.DefaultAttributes` | gusp/src/main/java/io/github/alopukhov/gusp/annotations/WithSmartLifecycle.java:38-72 | the defaults are `beanName` "", `autoStartup` true, `asyncStart` false, `phase` 0 and `stopOnDestroy` false |
| `Lifecycle.ServiceSmartLifecycle.constructor` | gusp/src/main/java/io/github/alopukhov/gusp/lifecycle/ServiceSmartLifecycle.java:40-49 | the adapter wraps the given service, with autoStartup on, asyncStart off, stopOnDestroy off and phase 0 |
| `Lifecycle.ServiceSmartLifecycle.Create` | gusp/src/main/java/io/github/alopukhov/gusp/lifecycle/ServiceSmartLifecycle.java:47-49 | construction fails with a NullPointerException naming "service" exactly when the service is null; otherwise it yields a new adapter over that service with the defaults |
| `Lifecycle.ServiceSmartLifecycle.SetAutoStartup` | gusp/src/main/java/io/github/alopukhov/gusp/lifecycle/ServiceSmartLifecycle.java:55-62 | afterwards `isAutoStartup` returns the value set; only that field changes |
| `Lifecycle.ServiceSmartLifecycle.SetAsyncStart` | gusp/src/main/java/io/github/alopukhov/gusp/lifecycle/ServiceSmartLifecycle.java:89-95 | afterwards `isAsyncStart` returns the value set; only that field changes |
| `Lifecycle.ServiceSmartLifecycle.SetStopOnDestroy` | gusp/src/main/java/io/github/alopukhov/gusp/lifecycle/ServiceSmartLifecycle.java:128-134 | afterwards `isStopOnDestroy` returns the value set; only that field changes |
| `Lifecycle.ServiceSmartLifecycle.SetPhase` | gusp/src/main/java/io/github/alopukhov/gusp/lifecycle/ServiceSmartLifecycle.java:141-148 | afterwards `getPhase` returns the value set; only that field changes |
| `Lifecycle.ServiceSmartLifecycle.IsRunning` | gusp/src/main/java/io/github/alopukhov/gusp/lifecycle/ServiceSmartLifecycle.java:136-139 | running iff the service has left NEW and is not TERMINATED or FAILED, i.e. it is STARTING, RUNNING or STOPPING |
| `Lifecycle.StartRejection` | gusp/src/main/java/io/github/alopukhov/gusp/lifecycle/ServiceSmartLifecycle.java:81-82 | the rejection is an IllegalStateException whose message ends with the state's name |
| `Lifecycle.StartRejectionIdentifiesState` | gusp/src/main/java/io/github/alopukhov/gusp/lifecycle/ServiceSmartLifecycle.java:81-82 | different states give different rejection messages, so the message identifies the offending state |
| `Lifecycle.ServiceSmartLifecycle.Start` | gusp/src/main/java/io/github/alopukhov/gusp/lifecycle/ServiceSmartLifecycle.java:71-87 | it first reads the state, once. From STOPPING, TERMINATED or FAILED it then throws the rejection naming that state, with no further call on the service. From NEW it calls `startAsync` exactly once; from STARTING or RUNNING it calls nothing. It then calls `awaitRunning` exactly once iff asyncStart is off and reports that wait's outcome unchanged. No other service call is made. The registered listeners stay the same, none loses a callback run, and none runs while the service is not terminal. When it only reads the state (a rejection, or STARTING/RUNNING with asyncStart), the service's state and every listener stay as they were |
| `Lifecycle.StopOutcome` | gusp/src/main/java/io/github/alopukhov/gusp/lifecycle/ServiceSmartLifecycle.java:112-118 | the stop reports normally iff the wait returned normally, or the wait threw an IllegalStateException and the state read afterwards is FAILED; otherwise it rethrows the wait's own exception |
| `Lifecycle.StopCalls` | gusp/src/main/java/io/github/alopukhov/gusp/lifecycle/ServiceSmartLifecycle.java:111-115 | the blocking stop's calls begin with `stopAsync` and `awaitTerminated`; a third call, reading the state, is made iff the wait threw `IllegalStateException` |
| `Lifecycle.ServiceSmartLifecycle.Stop` | gusp/src/main/java/io/github/alopukhov/gusp/lifecycle/ServiceSmartLifecycle.java:109-119 | whatever the state, it calls `stopAsync` and then `awaitTerminated`. It reads the state afterwards only when that wait threw `IllegalStateException`, and makes no other call (`StopCalls`). Its outcome is `StopOutcome` of that wait and the state found afterwards. The registered listeners stay the same, none loses a callback run, none runs while the service is not terminal, and a terminal service keeps its state |
| `Lifecycle.ServiceSmartLifecycle.Destroy` | gusp/src/main/java/io/github/alopukhov/gusp/lifecycle/ServiceSmartLifecycle.java:121-126 | with stopOnDestroy it makes exactly the blocking stop's calls and reports its outcome; without it, it makes no call and leaves the service and every registered listener unchanged. Either way the registered listeners stay the same, none runs while the service is not terminal, and a terminal service keeps its state |
| `Lifecycle.StopListener.constructor` | gusp/src/main/java/io/github/alopukhov/gusp/lifecycle/ServiceSmartLifecycle.java:150-156 | a new guard has not run its callback |
| `Lifecycle.StopListener.ExecuteCallback` | gusp/src/main/java/io/github/alopukhov/gusp/lifecycle/ServiceSmartLifecycle.java:168-172 | runs the callback iff the flag was clear; afterwards the flag is set and the callback has run exactly once, never twice |
| `Lifecycle.StopListener.Terminated` | gusp/src/main/java/io/github/alopukhov/gusp/lifecycle/ServiceSmartLifecycle.java:158-161 | the TERMINATED notification goes through the same guard |
| `Lifecycle.StopListener.Failed` | gusp/src/main/java/io/github/alopukhov/gusp/lifecycle/ServiceSmartLifecycle.java:163-166 | the FAILED notification goes through the same guard |
| `Lifecycle.ServiceSmartLifecycle.StopWithCallback` | gusp/src/main/java/io/github/alopukhov/gusp/lifecycle/ServiceSmartLifecycle.java:97-107 | calls `addListener`, then `stopAsync`, then reads the state, and nothing else. No listener's callback run is undone, so the new guard's counter counts every run: the callback runs at most once. On return it has run iff the service is TERMINATED or FAILED, and no earlier listener has run while the service is not terminal. If it has not run, its guard is registered with the service, which runs it on reaching a terminal state |
| `Lifecycle.StopThenServiceFinishes` | gusp/src/main/java/io/github/alopukhov/gusp/lifecycle/ServiceSmartLifecycle.java:158-172 | when the service terminates or fails after `stop(callback)` has returned, the callback has run exactly once in all; run counts never go down along the way, so none was undone and none ran twice |
| `Lifecycle.StopThenDestroy` | gusp/src/main/java/io/github/alopukhov/gusp/lifecycle/ServiceSmartLifecycle.java:97-126 | in the container's shutdown order, `stop(callback)` and then `destroy()`, the callback has run once iff the service has ended TERMINATED or FAILED, whichever call brought it there |
| `Postprocessor.Registry.RegisterBeanDefinition` | gusp/src/main/java/io/github/alopukhov/gusp/lifecycle/WithSmartLifecyclePostprocessor.java:76 | afterwards the name maps to the given definition, replacing any earlier one; the name joins the registration order only if it is new; nothing else changes |
| `Postprocessor.ChooseMetadata` | gusp/src/main/java/io/github/alopukhov/gusp/lifecycle/WithSmartLifecyclePostprocessor.java:55-56 | the factory-method metadata is used whenever it is present, the class metadata only otherwise |
| `Postprocessor.MarkerOf` | gusp/src/main/java/io/github/alopukhov/gusp/lifecycle/WithSmartLifecyclePostprocessor.java:53-60 | a definition that is not annotated has no marker; an annotated one has the marker of its factory-method metadata when it has one, of its class metadata otherwise, and none when that metadata has no attributes for the marker |
| `Postprocessor.FactoryMethodMarkerWins` | gusp/src/main/java/io/github/alopukhov/gusp/lifecycle/WithSmartLifecyclePostprocessor.java:55-57 | with a factory method present, the class-level marker has no effect, whether or not it is present: the two are not merged |
| `Postprocessor.AdapterName` | gusp/src/main/java/io/github/alopukhov/gusp/lifecycle/WithSmartLifecyclePostprocessor.java:73-74 | a non-empty `beanName` is used verbatim; an empty one gives the bean's name plus "-service-smart-lifecycle-support" |
| `Postprocessor.DerivedAdapterNames` | gusp/src/main/java/io/github/alopukhov/gusp/lifecycle/WithSmartLifecyclePostprocessor.java:73-74 | a derived adapter name never equals the bean's own name, and distinct beans get distinct derived names |
| `Postprocessor.AdapterDecl` | gusp/src/main/java/io/github/alopukhov/gusp/lifecycle/WithSmartLifecyclePostprocessor.java:79-87 | the adapter definition has class ServiceSmartLifecycle and singleton scope. Its only constructor reference is the original bean's name. Its property values are the attributes minus `beanName`, under unchanged keys. It carries no marker |
| `Postprocessor.AdapterProperties` | gusp/src/main/java/io/github/alopukhov/gusp/lifecycle/WithSmartLifecyclePostprocessor.java:83-85 | an adapter made from a marker has exactly the properties autoStartup, asyncStart, phase and stopOnDestroy, with the marker's values |
| `Postprocessor.CreateBeanDefinition` | gusp/src/main/java/io/github/alopukhov/gusp/lifecycle/WithSmartLifecyclePostprocessor.java:79-87 | copying the bag, removing `beanName` and adding each remaining attribute as a property builds exactly `AdapterDecl` |
| `Postprocessor.Validate` | gusp/src/main/java/io/github/alopukhov/gusp/lifecycle/WithSmartLifecyclePostprocessor.java:66-70 | validation fails iff the definition is not a singleton, and the failure names the bean |
| `Postprocessor.ValidationError.Message` | gusp/src/main/java/io/github/alopukhov/gusp/lifecycle/WithSmartLifecyclePostprocessor.java:36 | the message is "Non singleton bean [", the bean's name, then "] annotated with WithSmartLifecycle" |
| `Postprocessor.NonSingletonMessageIdentifiesBean` | gusp/src/main/java/io/github/alopukhov/gusp/lifecycle/WithSmartLifecyclePostprocessor.java:66-69 | different beans give different messages, so the message identifies the rejected bean |
| `Postprocessor.Step` | gusp/src/main/java/io/github/alopukhov/gusp/lifecycle/WithSmartLifecyclePostprocessor.java:52-64 | processing one bean never removes a name, and a rejected bean leaves the registry unchanged |
| `Postprocessor.ProcessAnnotationAttributes` | gusp/src/main/java/io/github/alopukhov/gusp/lifecycle/WithSmartLifecyclePostprocessor.java:72-77 | the registry gains the adapter definition under the adapter name, which joins the registration order only if it is new; nothing else changes |
| `Postprocessor.ProcessBeanDefinition` | gusp/src/main/java/io/github/alopukhov/gusp/lifecycle/WithSmartLifecyclePostprocessor.java:52-64 | the registry contents and the reported failure are those of `Step`: skip unannotated or unmarked definitions, reject a marked non-singleton, otherwise register its adapter. The registration order only grows at its end |
| `Postprocessor.Pass` | gusp/src/main/java/io/github/alopukhov/gusp/lifecycle/WithSmartLifecyclePostprocessor.java:43-50 | the pass over the names taken before it began never removes a name |
| `Postprocessor.PostProcessBeanDefinitionRegistry` | gusp/src/main/java/io/github/alopukhov/gusp/lifecycle/WithSmartLifecyclePostprocessor.java:43-50 | the loop runs over the names registered when it starts, so adapters it registers are never scanned. Its registry contents and failure are exactly `Pass` of the initial registry and names, and the registration order only grows at its end |
| `Postprocessor.PassKeepsOriginals` | gusp/src/main/java/io/github/alopukhov/gusp/lifecycle/WithSmartLifecyclePostprocessor.java:45-49 | without name collisions, every definition present before the pass is still there afterwards, unchanged |
| `Postprocessor.PassFailsOnFirstNonSingleton` | gusp/src/main/java/io/github/alopukhov/gusp/lifecycle/WithSmartLifecyclePostprocessor.java:45-69 | without name collisions, the pass fails iff some marked bean is not a singleton, and it names the first such bean in pass order |
| `Postprocessor.FirstNonSingletonIsFirst` | gusp/src/main/java/io/github/alopukhov/gusp/lifecycle/WithSmartLifecyclePostprocessor.java:46-48 | the bean reported as the first marked non-singleton sits at a position before which every marked bean is a singleton |
| `Postprocessor.PassRegistersAdapters` | gusp/src/main/java/io/github/alopukhov/gusp/lifecycle/WithSmartLifecyclePostprocessor.java:45-77 | without name collisions, a successful pass adds exactly one adapter name per marked bean, each holding that bean's adapter definition, and no other names |
| `Postprocessor.AdapterNamesAreAdapters` | gusp/src/main/java/io/github/alopukhov/gusp/lifecycle/WithSmartLifecyclePostprocessor.java:72-77 | every adapter name the pass is credited with is the adapter name of some marked bean it scanned |
| `Postprocessor.PassSkipsUnmarked` | gusp/src/main/java/io/github/alopukhov/gusp/lifecycle/WithSmartLifecyclePostprocessor.java:53-60 | definitions without a marker, including the adapters the pass creates, are skipped and change nothing |
| `Postprocessor.SingleMarkedBean` | gusp/src/main/java/io/github/alopukhov/gusp/lifecycle/WithSmartLifecyclePostprocessor.java:44-87 | a registry with one marked singleton gains exactly that bean's adapter under its adapter name |
| `Postprocessor.EarlierAdaptersSurviveFailure` | gusp/src/main/java/io/github/alopukhov/gusp/lifecycle/WithSmartLifecyclePostprocessor.java:45-49 | if a marked singleton precedes a marked non-singleton, the pass reports the non-singleton and keeps the earlier adapter registered |
| `Postprocessor.PassFailureKeepsEarlierAdapters` | gusp/src/main/java/io/github/alopukhov/gusp/lifecycle/WithSmartLifecyclePostprocessor.java:45-69 | without name collisions, when the k-th bean is the first marked non-singleton, the pass reports it and the registry holds the original names plus exactly the adapters of the marked beans before it, each with its own definition |
| `Postprocessor.DefaultMarkerScenario` | gusp/src/main/java/io/github/alopukhov/gusp/lifecycle/WithSmartLifecyclePostprocessor.java:72-87 | a singleton "svc" marked with the defaults gains "svc-service-smart-lifecycle-support", which refers to "svc" and has properties autoStartup true, asyncStart false, phase 0 and stopOnDestroy false |

## Left out

- Guava's `Service` implementation is not modelled: its own state machine, listener executors and threads. `Service`'s methods have loose contracts. Their bodies are one admissible behaviour, for example "stopping a NEW service terminates it at once".
- Real concurrency in `stop(callback)` is not modelled. The compare-and-set guard is sequential, and the listener path and the post-check path call the same guarded method. A service that terminates later is represented by `Service.Finish`, the service's own thread finishing; the adapter never calls it.
- Blocking and timeouts of `awaitRunning` and `awaitTerminated` are not modelled. A wait either returns or throws, and the trace records which. Where the real wait would block, the stand-in body throws.
- A race in which another thread starts the service between `start()` reading NEW and calling `startAsync` is not modelled. Guava would throw there; `Service.StartAsync` requires NEW, and the adapter meets that requirement.
- `isRunning` reads the state through the function `IsRunning`, so that one read is not recorded in the trace. Every other state read the adapter makes is recorded.
- Exceptions are values. "The same exception object is rethrown" is stated as "the outcome equals the wait's outcome".
- The callback's own effects are not modelled; it is represented only by its run counter.
- Spring's registry, `AnnotatedBeanDefinition`, `AnnotatedTypeMetadata` and `BeanDefinitionBuilder` are replaced by the `Registry` class, the `Decl` datatype and option-typed metadata. The marker's bag always holds all five attributes, as the container reports them.
- The registry's duplicate-name policy is not modelled. `RegisterBeanDefinition` overwrites, as plain Spring does by default. The lemmas about untouched originals and exactly one adapter per bean assume no adapter name collides with another name (`Collisionless`).
- Spring's binding of the adapter definition's property values to the adapter's setters is not modelled. `AdapterProperties` states that the property names are those of the setters.
- `postProcessBeanFactory` is not modelled because it is empty.
- `GuspConfiguration.java` and `EnableGusp.java` are not part of this model; they only wire the post-processor into Spring.
- The getters (`getService`, `isAutoStartup`, `isAsyncStart`, `isStopOnDestroy`, `getPhase`) are plain functions. The setters' contracts state them.
