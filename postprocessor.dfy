/**
 * `WithSmartLifecyclePostprocessor`: one registration pass over the bean
 * definition registry. For each bean marked `@WithSmartLifecycle` it checks
 * that the bean is a singleton and registers a `ServiceSmartLifecycle`
 * definition that refers to it, configured from the marker's attributes.
 *
 * `Pass` is the pass as a function on registry contents; the imperative
 * `PostProcessBeanDefinitionRegistry` is proved to compute it, and the
 * lemmas state what the pass does to a registry.
 */
module Postprocessor {
  import opened Wrappers
  import opened Annotation

  const DefaultBeanNameSuffix: string := "-service-smart-lifecycle-support"
  const LifecycleClassName: string := "io.github.alopukhov.gusp.lifecycle.ServiceSmartLifecycle"

  /** The annotation metadata of a class or of a factory method: the marker it carries, if any. */
  datatype Metadata = Metadata(marker: Option<WithSmartLifecycle>)

  /** A bean definition, as far as the pass looks at it. */
  datatype Decl =
      /** A definition built from a class and property values (not an annotated definition). */
    | Generic(beanClass: string, singleton: bool, ctorRefs: seq<string>, props: AttributeBag)
      /** A definition read from annotations: its class metadata and, for a `@Bean` method, its factory-method metadata. */
    | Annotated(singleton: bool, classMetadata: Metadata, factoryMethodMetadata: Option<Metadata>)

  /** The name-to-definition registry. `names` lists the registered names in registration order. */
  class Registry {
    var defs: map<string, Decl>
    var names: seq<string>

    ghost predicate Valid()
      reads this
    {
      && (forall n :: n in names <==> n in defs)
      && (forall i, j :: 0 <= i < j < |names| ==> names[i] != names[j])
    }

    constructor (names: seq<string>, defs: map<string, Decl>)
      requires forall n :: n in names <==> n in defs
      requires forall i, j :: 0 <= i < j < |names| ==> names[i] != names[j]
      ensures Valid() && this.names == names && this.defs == defs
    {
      this.names := names;
      this.defs := defs;
    }

    /** Registers `d` under `name`; a name already present keeps its place and gets the new definition. */
    method RegisterBeanDefinition(name: string, d: Decl)
      requires Valid()
      modifies this
      ensures Valid()
      ensures defs == old(defs)[name := d]
      ensures names == if name in old(defs) then old(names) else old(names) + [name]
    {
      if name !in defs {
        names := names + [name];
      }
      defs := defs[name := d];
    }
  }

  /** The metadata the pass reads: the factory method's whenever there is one, the class's otherwise. */
  function ChooseMetadata(d: Decl): (m: Metadata)
    requires d.Annotated?
    ensures d.factoryMethodMetadata.Some? ==> m == d.factoryMethodMetadata.value
    ensures d.factoryMethodMetadata.None? ==> m == d.classMetadata
  {
    if d.factoryMethodMetadata.None? then d.classMetadata else d.factoryMethodMetadata.value
  }

  /**
   * The marker the pass acts on: none for a definition that is not annotated,
   * otherwise whatever the chosen metadata carries (nothing when it has no
   * attributes for the marker).
   */
  function MarkerOf(d: Decl): (r: Option<WithSmartLifecycle>)
    ensures d.Generic? ==> r.None?
    ensures d.Annotated? && d.factoryMethodMetadata.Some? ==> r == d.factoryMethodMetadata.value.marker
    ensures d.Annotated? && d.factoryMethodMetadata.None? ==> r == d.classMetadata.marker
  {
    if d.Annotated? then ChooseMetadata(d).marker else None
  }

  /**
   * The two metadata are never merged: when a factory method is present, the
   * class-level marker (present or not) has no effect.
   */
  lemma FactoryMethodMarkerWins(d: Decl, c: Metadata)
    requires d.Annotated? && d.factoryMethodMetadata.Some?
    ensures MarkerOf(d.(classMetadata := c)) == MarkerOf(d) == d.factoryMethodMetadata.value.marker
  {
  }

  /** The adapter's name: the suggested name when it is non-empty, the bean's name plus the suffix otherwise. */
  function AdapterName(beanName: string, suggested: string): (r: string)
    ensures suggested != [] ==> r == suggested
    ensures suggested == [] ==> r == beanName + DefaultBeanNameSuffix
  {
    if |suggested| == 0 then beanName + DefaultBeanNameSuffix else suggested
  }

  /**
   * A derived adapter name never equals the bean's own name, and different
   * beans get different derived names.
   */
  lemma DerivedAdapterNames(n: string, m: string)
    ensures AdapterName(n, "") != n
    ensures AdapterName(n, "") == AdapterName(m, "") ==> n == m
  {
    assert |AdapterName(n, "")| == |n| + |DefaultBeanNameSuffix|;
    if AdapterName(n, "") == AdapterName(m, "") {
      assert n == AdapterName(n, "")[..|n|];
      assert m == AdapterName(m, "")[..|m|];
    }
  }

  /**
   * The adapter definition for bean `serviceBeanName`: class
   * `ServiceSmartLifecycle`, singleton, constructed with a reference to the
   * bean, and with every attribute except `beanName` as a property value.
   */
  function AdapterDecl(serviceBeanName: string, attributes: AttributeBag): (d: Decl)
    ensures d.Generic? && d.beanClass == LifecycleClassName && d.singleton
    ensures d.ctorRefs == [serviceBeanName]
    ensures d.props.Keys == attributes.Keys - {BeanNameKey}
    ensures forall k :: k in d.props ==> d.props[k] == attributes[k]
    ensures MarkerOf(d).None?
  {
    Generic(LifecycleClassName, true, [serviceBeanName], attributes - {BeanNameKey})
  }

  /**
   * The properties of an adapter made from a marker are exactly its four
   * configuration attributes, under their own names, which are the names of
   * the adapter's configuration setters.
   */
  lemma AdapterProperties(serviceBeanName: string, a: WithSmartLifecycle)
    ensures AdapterDecl(serviceBeanName, Attributes(a)).props ==
      map[AutoStartupKey := BoolVal(a.autoStartup), AsyncStartKey := BoolVal(a.asyncStart),
          PhaseKey := IntVal(a.phase), StopOnDestroyKey := BoolVal(a.stopOnDestroy)]
  {
    var p := AdapterDecl(serviceBeanName, Attributes(a)).props;
    assert p.Keys == ConfigurationNames;
  }

  /**
   * Builds the adapter definition: copies the attribute bag, drops
   * `beanName`, and adds every remaining attribute as a property value.
   */
  method CreateBeanDefinition(serviceBeanName: string, annotationAttributes: AttributeBag) returns (d: Decl)
    ensures d == AdapterDecl(serviceBeanName, annotationAttributes)
  {
    var attributes := annotationAttributes - {BeanNameKey};
    var props: AttributeBag := map[];
    var pending := attributes.Keys;
    while pending != {}
      invariant pending <= attributes.Keys
      invariant props.Keys == attributes.Keys - pending
      invariant forall k :: k in props ==> props[k] == attributes[k]
      decreases pending
    {
      var k :| k in pending;
      props := props[k := attributes[k]];
      pending := pending - {k};
    }
    d := Generic(LifecycleClassName, true, [serviceBeanName], props);
  }

  const NonSingletonPrefix: string := "Non singleton bean ["
  const NonSingletonSuffix: string := "] annotated with WithSmartLifecycle"

  /** The validation failure: a marked bean that is not a singleton. */
  datatype ValidationError = NonSingleton(beanName: string) {

    /** The exception's message: the fixed text with the bean's name in brackets. */
    function Message(): (m: string)
      ensures |m| == |NonSingletonPrefix| + |beanName| + |NonSingletonSuffix|
      ensures m[..|NonSingletonPrefix|] == NonSingletonPrefix
      ensures m[|NonSingletonPrefix|..|m| - |NonSingletonSuffix|] == beanName
      ensures m[|m| - |NonSingletonSuffix|..] == NonSingletonSuffix
    {
      NonSingletonPrefix + beanName + NonSingletonSuffix
    }
  }

  /** The message names the offending bean: different beans give different messages. */
  lemma NonSingletonMessageIdentifiesBean(e: ValidationError, f: ValidationError)
    requires e.Message() == f.Message()
    ensures e == f
  {
    var m := e.Message();
    assert e.beanName == m[|NonSingletonPrefix|..|m| - |NonSingletonSuffix|];
    assert f.beanName == m[|NonSingletonPrefix|..|m| - |NonSingletonSuffix|];
  }

  /** A marked bean must be a singleton. */
  function Validate(beanName: string, d: Decl): (r: Option<ValidationError>)
    ensures r.None? <==> d.singleton
    ensures r.Some? ==> r.value.beanName == beanName
  {
    if d.singleton then None else Some(NonSingleton(beanName))
  }

  /** The registry contents after (part of) a pass, and the failure that stopped it, if any. */
  datatype PassResult = PassResult(defs: map<string, Decl>, error: Option<ValidationError>)

  /** Processing of one bean: skip it, reject it, or register its adapter. */
  function Step(defs: map<string, Decl>, name: string): (r: PassResult)
    requires name in defs
    ensures defs.Keys <= r.defs.Keys
    ensures r.error.Some? ==> r.defs == defs
  {
    var d := defs[name];
    match MarkerOf(d)
    case None => PassResult(defs, None)
    case Some(a) =>
      match Validate(name, d)
      case Some(e) => PassResult(defs, Some(e))
      case None => PassResult(defs[AdapterName(name, a.beanName) := AdapterDecl(name, Attributes(a))], None)
  }

  /**
   * The pass over `names`, the names registered when it began: bean by bean,
   * on the registry as the earlier steps left it, stopping at the first failure.
   */
  function Pass(defs: map<string, Decl>, names: seq<string>): (r: PassResult)
    requires forall n :: n in names ==> n in defs
    ensures defs.Keys <= r.defs.Keys
    decreases |names|
  {
    if names == [] then PassResult(defs, None)
    else
      var s := Step(defs, names[0]);
      if s.error.Some? then s else Pass(s.defs, names[1..])
  }

  /** `processAnnotationAttributes`: names the adapter and registers its definition. */
  method ProcessAnnotationAttributes(beanName: string, a: WithSmartLifecycle, registry: Registry)
    requires registry.Valid()
    modifies registry
    ensures registry.Valid()
    ensures registry.defs == old(registry.defs)[AdapterName(beanName, a.beanName) := AdapterDecl(beanName, Attributes(a))]
    ensures registry.names ==
      if AdapterName(beanName, a.beanName) in old(registry.defs) then old(registry.names)
      else old(registry.names) + [AdapterName(beanName, a.beanName)]
  {
    var annotationAttributes := Attributes(a);
    var suggestedBeanName := annotationAttributes[BeanNameKey].s;
    var lifecycleBeanName := AdapterName(beanName, suggestedBeanName);
    var beanDefinition := CreateBeanDefinition(beanName, annotationAttributes);
    registry.RegisterBeanDefinition(lifecycleBeanName, beanDefinition);
  }

  /** `processBeanDefinition`: one step of the pass, on the registry itself. */
  method ProcessBeanDefinition(beanName: string, definition: Decl, registry: Registry) returns (error: Option<ValidationError>)
    requires registry.Valid() && beanName in registry.defs && registry.defs[beanName] == definition
    modifies registry
    ensures registry.Valid()
    ensures PassResult(registry.defs, error) == Step(old(registry.defs), beanName)
    ensures old(registry.names) <= registry.names
  {
    if definition.Annotated? {
      var metadata := ChooseMetadata(definition);
      match metadata.marker {
        case None =>
          return None;
        case Some(a) =>
          error := Validate(beanName, definition);
          if error.Some? {
            return;
          }
          ProcessAnnotationAttributes(beanName, a, registry);
      }
    } else {
      error := None;
    }
  }

  /**
   * `postProcessBeanDefinitionRegistry`: runs the pass over the names
   * registered when it starts. A failure ends the pass; the adapters
   * registered before it stay registered.
   */
  method PostProcessBeanDefinitionRegistry(registry: Registry) returns (error: Option<ValidationError>)
    requires registry.Valid()
    modifies registry
    ensures registry.Valid()
    ensures PassResult(registry.defs, error) == Pass(old(registry.defs), old(registry.names))
    ensures old(registry.names) <= registry.names
  {
    var names := registry.names;
    var i := 0;
    while i < |names|
      invariant 0 <= i <= |names| && registry.Valid()
      invariant forall n :: n in names ==> n in registry.defs
      invariant Pass(old(registry.defs), names) == Pass(registry.defs, names[i..])
      invariant names <= registry.names
    {
      var definition := registry.defs[names[i]];
      assert names[i..][1..] == names[i + 1..];
      error := ProcessBeanDefinition(names[i], definition, registry);
      if error.Some? {
        return;
      }
      i := i + 1;
    }
    error := None;
  }

  /** A bean the pass acts on: registered and carrying a marker. */
  predicate Marked(defs: map<string, Decl>, n: string) {
    n in defs && MarkerOf(defs[n]).Some?
  }

  /** The adapter name of a marked bean. */
  function AdapterNameOf(defs: map<string, Decl>, n: string): string
    requires Marked(defs, n)
  {
    AdapterName(n, MarkerOf(defs[n]).value.beanName)
  }

  /** The adapter definition of a marked bean. */
  function AdapterDeclOf(defs: map<string, Decl>, n: string): Decl
    requires Marked(defs, n)
  {
    AdapterDecl(n, Attributes(MarkerOf(defs[n]).value))
  }

  /** The first marked bean among `names` that is not a singleton, if any. */
  function FirstNonSingleton(defs: map<string, Decl>, names: seq<string>): (r: Option<string>)
    ensures r.None? <==> forall n :: n in names && Marked(defs, n) ==> defs[n].singleton
    ensures r.Some? ==> r.value in names && Marked(defs, r.value) && !defs[r.value].singleton
    decreases |names|
  {
    if names == [] then None
    else if Marked(defs, names[0]) && !defs[names[0]].singleton then Some(names[0])
    else FirstNonSingleton(defs, names[1..])
  }

  /**
   * The bean `FirstNonSingleton` reports is the first one: it sits at some
   * position `k`, and every marked bean before `k` is a singleton.
   */
  lemma {:induction false} FirstNonSingletonIsFirst(defs: map<string, Decl>, names: seq<string>)
    requires FirstNonSingleton(defs, names).Some?
    ensures exists k :: (0 <= k < |names| && names[k] == FirstNonSingleton(defs, names).value &&
                         forall j :: 0 <= j < k && Marked(defs, names[j]) ==> defs[names[j]].singleton)
    decreases |names|
  {
    var r := FirstNonSingleton(defs, names).value;
    if Marked(defs, names[0]) && !defs[names[0]].singleton {
      assert names[0] == r;
    } else {
      FirstNonSingletonIsFirst(defs, names[1..]);
      var k :| 0 <= k < |names[1..]| && names[1..][k] == r &&
               forall j :: 0 <= j < k && Marked(defs, names[1..][j]) ==> defs[names[1..][j]].singleton;
      assert names[k + 1] == r;
      forall j | 0 <= j < k + 1 && Marked(defs, names[j])
        ensures defs[names[j]].singleton
      {
        if j > 0 {
          assert names[j] == names[1..][j - 1];
        }
      }
    }
  }

  /** The adapter names the marked beans among `names` ask for. */
  function AdapterNames(defs: map<string, Decl>, names: seq<string>): (r: set<string>)
    ensures forall n :: n in names && Marked(defs, n) ==> AdapterNameOf(defs, n) in r
    decreases |names|
  {
    if names == [] then {}
    else (if Marked(defs, names[0]) then {AdapterNameOf(defs, names[0])} else {}) + AdapterNames(defs, names[1..])
  }

  /** Every name in `AdapterNames` is the adapter name of some marked bean among `names`. */
  lemma {:induction false} AdapterNamesAreAdapters(defs: map<string, Decl>, names: seq<string>)
    ensures forall a :: a in AdapterNames(defs, names) ==>
      exists n :: n in names && Marked(defs, n) && AdapterNameOf(defs, n) == a
    decreases |names|
  {
    if names != [] {
      AdapterNamesAreAdapters(defs, names[1..]);
      forall a | a in AdapterNames(defs, names)
        ensures exists n :: n in names && Marked(defs, n) && AdapterNameOf(defs, n) == a
      {
        if Marked(defs, names[0]) && a == AdapterNameOf(defs, names[0]) {
          assert names[0] in names;
        } else {
          assert a in AdapterNames(defs, names[1..]);
          var n :| n in names[1..] && Marked(defs, n) && AdapterNameOf(defs, n) == a;
          assert n in names;
        }
      }
    }
  }

  /** `defs` and `defs'` hold the same definition for every name in `names`. */
  ghost predicate AgreeOn(defs: map<string, Decl>, defs': map<string, Decl>, names: seq<string>) {
    forall n :: n in names ==> n in defs && n in defs' && defs'[n] == defs[n]
  }

  /** What the pass computes from the beans in `names` depends only on their definitions. */
  lemma {:induction false} AgreementPreservesScan(defs: map<string, Decl>, defs': map<string, Decl>, names: seq<string>)
    requires AgreeOn(defs, defs', names)
    ensures FirstNonSingleton(defs', names) == FirstNonSingleton(defs, names)
    ensures AdapterNames(defs', names) == AdapterNames(defs, names)
    decreases |names|
  {
    if names != [] {
      AgreementPreservesScan(defs, defs', names[1..]);
    }
  }

  /**
   * No adapter name is already registered, and no two marked beans among
   * `names` ask for the same adapter name.
   */
  ghost predicate Collisionless(defs: map<string, Decl>, names: seq<string>) {
    && (forall n :: n in names && Marked(defs, n) ==> AdapterNameOf(defs, n) !in defs)
    && (forall i, j :: 0 <= i < j < |names| && Marked(defs, names[i]) && Marked(defs, names[j]) ==>
          AdapterNameOf(defs, names[i]) != AdapterNameOf(defs, names[j]))
  }

  /** Dropping the first bean keeps the rest collision-free. */
  lemma CollisionlessTail(defs: map<string, Decl>, names: seq<string>)
    requires names != [] && Collisionless(defs, names)
    ensures Collisionless(defs, names[1..])
  {
    var rest := names[1..];
    forall i, j | 0 <= i < j < |rest| && Marked(defs, rest[i]) && Marked(defs, rest[j])
      ensures AdapterNameOf(defs, rest[i]) != AdapterNameOf(defs, rest[j])
    {
      assert rest[i] == names[i + 1] && rest[j] == names[j + 1];
    }
  }

  /** One adapter registration keeps the rest of the pass collision-free and sees the same beans. */
  lemma CollisionlessStep(defs: map<string, Decl>, names: seq<string>)
    requires names != [] && forall n :: n in names ==> n in defs
    requires Collisionless(defs, names) && Marked(defs, names[0]) && defs[names[0]].singleton
    ensures var defs' := Step(defs, names[0]).defs;
      && defs' == defs[AdapterNameOf(defs, names[0]) := AdapterDeclOf(defs, names[0])]
      && AgreeOn(defs, defs', names[1..])
      && Collisionless(defs', names[1..])
  {
    var a := AdapterNameOf(defs, names[0]);
    var defs' := Step(defs, names[0]).defs;
    var rest := names[1..];
    forall n | n in rest
      ensures n in defs' && defs'[n] == defs[n]
    {
      assert n in defs && a !in defs;
    }
    CollisionlessTail(defs, names);
    forall n | n in rest && Marked(defs', n)
      ensures AdapterNameOf(defs', n) !in defs'
    {
      var k :| 0 <= k < |rest| && rest[k] == n;
      assert names[k + 1] == n;
      assert a != AdapterNameOf(defs, names[k + 1]);
    }
  }

  /** Without name collisions, the pass never changes or removes a definition that was there before it. */
  lemma {:induction false} PassKeepsOriginals(defs: map<string, Decl>, names: seq<string>)
    requires forall n :: n in names ==> n in defs
    requires Collisionless(defs, names)
    ensures forall k :: k in defs ==> Pass(defs, names).defs[k] == defs[k]
    decreases |names|
  {
    if names == [] {
      return;
    }
    var n0 := names[0];
    if !Marked(defs, n0) {
      CollisionlessTail(defs, names);
      PassKeepsOriginals(defs, names[1..]);
    } else if defs[n0].singleton {
      CollisionlessStep(defs, names);
      var defs' := Step(defs, n0).defs;
      PassKeepsOriginals(defs', names[1..]);
    }
  }

  /**
   * Without name collisions, the pass fails exactly when some marked bean is
   * not a singleton, and then it names the first such bean in pass order.
   */
  lemma {:induction false} PassFailsOnFirstNonSingleton(defs: map<string, Decl>, names: seq<string>)
    requires forall n :: n in names ==> n in defs
    requires Collisionless(defs, names)
    ensures Pass(defs, names).error ==
      match FirstNonSingleton(defs, names)
      case None => None
      case Some(n) => Some(NonSingleton(n))
    decreases |names|
  {
    if names == [] {
      return;
    }
    var n0 := names[0];
    if !Marked(defs, n0) {
      CollisionlessTail(defs, names);
      PassFailsOnFirstNonSingleton(defs, names[1..]);
    } else if defs[n0].singleton {
      CollisionlessStep(defs, names);
      var defs' := Step(defs, n0).defs;
      PassFailsOnFirstNonSingleton(defs', names[1..]);
      AgreementPreservesScan(defs, defs', names[1..]);
    }
  }

  /**
   * Without name collisions, a successful pass registers, for every marked
   * bean, exactly its adapter under its adapter name, and nothing else: the
   * registry afterwards holds the original names plus one adapter name per
   * marked bean.
   */
  lemma {:induction false} PassRegistersAdapters(defs: map<string, Decl>, names: seq<string>)
    requires forall n :: n in names ==> n in defs
    requires Collisionless(defs, names)
    requires Pass(defs, names).error.None?
    ensures var r := Pass(defs, names);
      && r.defs.Keys == defs.Keys + AdapterNames(defs, names)
      && (forall n :: n in names && Marked(defs, n) ==> r.defs[AdapterNameOf(defs, n)] == AdapterDeclOf(defs, n))
    decreases |names|
  {
    if names == [] {
      return;
    }
    var n0 := names[0];
    var r := Pass(defs, names);
    if !Marked(defs, n0) {
      CollisionlessTail(defs, names);
      PassRegistersAdapters(defs, names[1..]);
      forall n | n in names && Marked(defs, n)
        ensures r.defs[AdapterNameOf(defs, n)] == AdapterDeclOf(defs, n)
      {
        assert n in names[1..];
      }
    } else {
      CollisionlessStep(defs, names);
      var defs' := Step(defs, n0).defs;
      var rest := names[1..];
      PassRegistersAdapters(defs', rest);
      PassKeepsOriginals(defs', rest);
      AgreementPreservesScan(defs, defs', rest);
      forall n | n in names && Marked(defs, n)
        ensures r.defs[AdapterNameOf(defs, n)] == AdapterDeclOf(defs, n)
      {
        if n != n0 {
          assert n in rest && Marked(defs', n);
        }
      }
    }
  }

  /**
   * Definitions that carry no marker are left alone: in particular the
   * adapters the pass registers (see `AdapterDecl`) would be skipped even if
   * a later pass scanned them.
   */
  lemma {:induction false} PassSkipsUnmarked(defs: map<string, Decl>, names: seq<string>)
    requires forall n :: n in names ==> n in defs && MarkerOf(defs[n]).None?
    ensures Pass(defs, names) == PassResult(defs, None)
    decreases |names|
  {
    if names != [] {
      PassSkipsUnmarked(defs, names[1..]);
    }
  }

  /** A registry holding one singleton bean marked with `a` gains exactly that bean's adapter. */
  lemma SingleMarkedBean(name: string, a: WithSmartLifecycle)
    ensures var defs := map[name := Annotated(true, Metadata(Some(a)), None)];
      Pass(defs, [name]) == PassResult(defs[AdapterName(name, a.beanName) := AdapterDecl(name, Attributes(a))], None)
  {
    var defs := map[name := Annotated(true, Metadata(Some(a)), None)];
    var s := Step(defs, name);
    assert [name][1..] == [];
    assert Pass(defs, [name]) == Pass(s.defs, []);
  }

  /**
   * A failure does not undo earlier registrations: when a marked singleton
   * `x` comes before a marked non-singleton `y`, the pass reports `y` and
   * `x`'s adapter stays registered.
   */
  lemma EarlierAdaptersSurviveFailure(x: string, y: string, m: WithSmartLifecycle, n: WithSmartLifecycle)
    requires x != y && AdapterName(x, m.beanName) != y
    ensures var defs := map[x := Annotated(true, Metadata(Some(m)), None), y := Annotated(false, Metadata(Some(n)), None)];
      Pass(defs, [x, y]) ==
        PassResult(defs[AdapterName(x, m.beanName) := AdapterDecl(x, Attributes(m))], Some(NonSingleton(y)))
  {
    var defs := map[x := Annotated(true, Metadata(Some(m)), None), y := Annotated(false, Metadata(Some(n)), None)];
    var s := Step(defs, x);
    assert [x, y][1..] == [y];
    assert Pass(defs, [x, y]) == Pass(s.defs, [y]);
    assert s.defs[y] == defs[y];
  }

  /**
   * What the pass leaves behind when `names[k]` is the first marked bean that
   * is not a singleton: that bean reported, and the original names plus the
   * adapters of the marked beans before it, each with its own definition.
   */
  ghost predicate FailedAt(defs: map<string, Decl>, names: seq<string>, k: nat)
    requires forall n :: n in names ==> n in defs
    requires k < |names|
  {
    var r := Pass(defs, names);
    && r.error == Some(NonSingleton(names[k]))
    && r.defs.Keys == defs.Keys + AdapterNames(defs, names[..k])
    && (forall n :: n in names[..k] && Marked(defs, n) ==> r.defs[AdapterNameOf(defs, n)] == AdapterDeclOf(defs, n))
  }

  /** The premises of `PassFailureKeepsEarlierAdapters`: `names[k]` is the first marked non-singleton. */
  ghost predicate FirstFailureAt(defs: map<string, Decl>, names: seq<string>, k: nat) {
    && (forall n :: n in names ==> n in defs)
    && k < |names| && Marked(defs, names[k]) && !defs[names[k]].singleton
    && (forall j :: 0 <= j < k && Marked(defs, names[j]) ==> defs[names[j]].singleton)
  }

  /** The inductive step past a bean without a marker. */
  lemma FailedAtAfterUnmarked(defs: map<string, Decl>, names: seq<string>, k: nat)
    requires FirstFailureAt(defs, names, k) && 0 < k && !Marked(defs, names[0])
    requires FailedAt(defs, names[1..], k - 1)
    ensures FailedAt(defs, names, k)
  {
    var rest := names[1..];
    assert names[..k][1..] == rest[..k - 1];
    assert Pass(defs, names) == Pass(defs, rest);
    assert AdapterNames(defs, names[..k]) == AdapterNames(defs, rest[..k - 1]);
    forall n | n in names[..k] && Marked(defs, n)
      ensures Pass(defs, names).defs[AdapterNameOf(defs, n)] == AdapterDeclOf(defs, n)
    {
      assert n in rest[..k - 1];
    }
  }

  /** The inductive step past a marked singleton, whose adapter the pass registers first. */
  lemma FailedAtAfterRegistration(defs: map<string, Decl>, names: seq<string>, k: nat)
    requires FirstFailureAt(defs, names, k) && 0 < k && Marked(defs, names[0]) && defs[names[0]].singleton
    requires Collisionless(defs, names)
    requires var defs' := Step(defs, names[0]).defs;
      FirstFailureAt(defs', names[1..], k - 1) && FailedAt(defs', names[1..], k - 1)
    ensures FailedAt(defs, names, k)
  {
    var n0 := names[0];
    var rest := names[1..];
    CollisionlessStep(defs, names);
    var defs' := Step(defs, n0).defs;
    assert names[..k][1..] == rest[..k - 1];
    assert Pass(defs, names) == Pass(defs', rest);
    assert AdapterNames(defs, names[..k]) == {AdapterNameOf(defs, n0)} + AdapterNames(defs, rest[..k - 1]);
    assert AgreeOn(defs, defs', rest[..k - 1]);
    PassKeepsOriginals(defs', rest);
    AgreementPreservesScan(defs, defs', rest[..k - 1]);
    forall n | n in names[..k] && Marked(defs, n)
      ensures Pass(defs, names).defs[AdapterNameOf(defs, n)] == AdapterDeclOf(defs, n)
    {
      if n != n0 {
        assert n in rest[..k - 1] && Marked(defs', n);
      }
    }
  }

  /**
   * A failure does not undo earlier registrations, in general: without name
   * collisions, when `names[k]` is the first marked bean that is not a
   * singleton, the pass reports it, and the registry keeps every original
   * name plus exactly the adapters of the marked beans before it, each with
   * its own definition.
   */
  lemma {:induction false} PassFailureKeepsEarlierAdapters(defs: map<string, Decl>, names: seq<string>, k: nat)
    requires forall n :: n in names ==> n in defs
    requires Collisionless(defs, names)
    requires k < |names| && Marked(defs, names[k]) && !defs[names[k]].singleton
    requires forall j :: 0 <= j < k && Marked(defs, names[j]) ==> defs[names[j]].singleton
    ensures var r := Pass(defs, names);
      && r.error == Some(NonSingleton(names[k]))
      && r.defs.Keys == defs.Keys + AdapterNames(defs, names[..k])
      && (forall n :: n in names[..k] && Marked(defs, n) ==> r.defs[AdapterNameOf(defs, n)] == AdapterDeclOf(defs, n))
    decreases k
  {
    assert FirstFailureAt(defs, names, k);
    if k == 0 {
      return;
    }
    var rest := names[1..];
    if !Marked(defs, names[0]) {
      CollisionlessTail(defs, names);
      assert FirstFailureAt(defs, rest, k - 1) by {
        forall j | 0 <= j < k - 1 && Marked(defs, rest[j])
          ensures defs[rest[j]].singleton
        {
          assert rest[j] == names[j + 1];
        }
      }
      PassFailureKeepsEarlierAdapters(defs, rest, k - 1);
      FailedAtAfterUnmarked(defs, names, k);
    } else {
      CollisionlessStep(defs, names);
      var defs' := Step(defs, names[0]).defs;
      assert FirstFailureAt(defs', rest, k - 1) by {
        forall j | 0 <= j < k - 1 && Marked(defs', rest[j])
          ensures defs'[rest[j]].singleton
        {
          assert rest[j] == names[j + 1];
        }
      }
      PassFailureKeepsEarlierAdapters(defs', rest, k - 1);
      FailedAtAfterRegistration(defs, names, k);
    }
    assert FailedAt(defs, names, k);
  }

  /**
   * A singleton bean "svc" marked with the defaults gets the adapter
   * "svc-service-smart-lifecycle-support" (the bean's name plus the suffix), which refers to "svc" and is
   * configured with autoStartup on, asyncStart off, phase 0 and stopOnDestroy off.
   */
  lemma DefaultMarkerScenario()
    ensures var defs := map["svc" := Annotated(true, Metadata(Some(Defaults())), None)];
      Pass(defs, ["svc"]) ==
        PassResult(defs["svc" + DefaultBeanNameSuffix :=
          Generic(LifecycleClassName, true, ["svc"],
                  map[AutoStartupKey := BoolVal(true), AsyncStartKey := BoolVal(false),
                      PhaseKey := IntVal(0), StopOnDestroyKey := BoolVal(false)])], None)
  {
    SingleMarkedBean("svc", Defaults());
    AdapterProperties("svc", Defaults());
  }
}
