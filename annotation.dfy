/**
 * The `@WithSmartLifecycle` marker: its attribute schema, its default values
 * and the attribute bag (attribute name to value) under which the container
 * hands a marker's attributes to the post-processor.
 */
module Annotation {

  /** Java's `int`: the type of the `phase` attribute. */
  newtype Int32 = x: int | -0x8000_0000 <= x < 0x8000_0000

  /** The value of one annotation attribute, as the container reports it. */
  datatype AttrValue = StrVal(s: string) | BoolVal(b: bool) | IntVal(i: Int32)

  /** Attribute name to value, as `getAnnotationAttributes` returns it. */
  type AttributeBag = map<string, AttrValue>

  const BeanNameKey: string := "beanName"
  const AutoStartupKey: string := "autoStartup"
  const AsyncStartKey: string := "asyncStart"
  const PhaseKey: string := "phase"
  const StopOnDestroyKey: string := "stopOnDestroy"

  /** The names of the attributes the annotation declares. */
  const AttributeNames: set<string> :=
    {BeanNameKey, AutoStartupKey, AsyncStartKey, PhaseKey, StopOnDestroyKey}

  /** The names of the attributes that configure the created adapter. */
  const ConfigurationNames: set<string> :=
    {AutoStartupKey, AsyncStartKey, PhaseKey, StopOnDestroyKey}

  /**
   * One occurrence of the marker. An empty `beanName` means the adapter's name
   * is derived from the annotated bean's name.
   */
  datatype WithSmartLifecycle = WithSmartLifecycle(
    beanName: string,
    autoStartup: bool,
    asyncStart: bool,
    phase: Int32,
    stopOnDestroy: bool)

  /** The marker written without arguments: every attribute at its default. */
  function Defaults(): WithSmartLifecycle {
    WithSmartLifecycle("", true, false, 0, false)
  }

  /**
   * The attribute bag of a marker: every declared attribute, under its own
   * name, with its value (defaults included, as the container reports them).
   */
  function Attributes(a: WithSmartLifecycle): (bag: AttributeBag)
    ensures bag.Keys == AttributeNames
    ensures bag[BeanNameKey] == StrVal(a.beanName)
    ensures bag[AutoStartupKey] == BoolVal(a.autoStartup)
    ensures bag[AsyncStartKey] == BoolVal(a.asyncStart)
    ensures bag[PhaseKey] == IntVal(a.phase)
    ensures bag[StopOnDestroyKey] == BoolVal(a.stopOnDestroy)
  {
    map[BeanNameKey := StrVal(a.beanName),
        AutoStartupKey := BoolVal(a.autoStartup),
        AsyncStartKey := BoolVal(a.asyncStart),
        PhaseKey := IntVal(a.phase),
        StopOnDestroyKey := BoolVal(a.stopOnDestroy)]
  }

  /** Reads a marker back from a bag that holds every attribute with a value of its type. */
  function FromAttributes(bag: AttributeBag): (r: WithSmartLifecycle)
    requires bag.Keys == AttributeNames
    requires bag[BeanNameKey].StrVal? && bag[AutoStartupKey].BoolVal? && bag[AsyncStartKey].BoolVal?
    requires bag[PhaseKey].IntVal? && bag[StopOnDestroyKey].BoolVal?
  {
    WithSmartLifecycle(bag[BeanNameKey].s, bag[AutoStartupKey].b, bag[AsyncStartKey].b,
                       bag[PhaseKey].i, bag[StopOnDestroyKey].b)
  }

  /** The bag carries the whole marker: no attribute is lost or altered. */
  lemma AttributesRoundTrip(a: WithSmartLifecycle)
    ensures FromAttributes(Attributes(a)) == a
  {
  }

  /**
   * The defaults as the container reports them: an empty `beanName`,
   * `autoStartup` on, `asyncStart` off, `phase` 0 and `stopOnDestroy` off.
   */
  lemma DefaultAttributes()
    ensures Attributes(Defaults()) ==
      map[BeanNameKey := StrVal(""), AutoStartupKey := BoolVal(true), AsyncStartKey := BoolVal(false),
          PhaseKey := IntVal(0), StopOnDestroyKey := BoolVal(false)]
  {
  }
}
